/** The records of the marketplace (gigs and bids), the identities that own them,
    and the typed outcomes that stand in for the controllers' HTTP responses. */
module Entities {

  /** Opaque stable identities. Ids of gigs and bids are allocated in insertion
      order, so an id is also the record's position in its collection. */
  type UserId = nat
  type GigId = nat
  type BidId = nat

  datatype Option<+T> = None | Some(value: T)

  datatype GigStatus = Open | Assigned
  datatype BidStatus = Pending | Hired | Rejected

  /** A posted unit of work. `createdAt` is a tick of the store's logical clock. */
  datatype Gig = Gig(
    owner: UserId,
    title: string,
    description: string,
    budget: int,
    status: GigStatus,
    createdAt: nat)

  /** A freelancer's proposal against one gig. */
  datatype Bid = Bid(
    gigId: GigId,
    freelancer: UserId,
    message: string,
    price: int,
    status: BidStatus,
    createdAt: nat,
    updatedAt: nat)

  /** The distinct 400 responses of the controllers. */
  datatype Reason =
    | MissingFields       // "Please add all fields"
    | OwnGig              // "You cannot bid on your own gig"
    | GigNotOpen          // "This gig is no longer open"
    | AlreadyBid          // "You have already placed a bid on this gig"
    | GigAlreadyAssigned  // "Gig is already assigned"

  /** 404, 403, 400 and 500 responses. */
  datatype Error = NotFound | Forbidden | BadRequest(reason: Reason) | ServerError

  datatype Outcome<+T> = Ok(value: T) | Err(error: Error)

  /** One entry of the freelancer's "my projects" list: the gig's fields plus the
      price of the freelancer's own hired bid. */
  datatype HiredGig = HiredGig(gigId: GigId, gig: Gig, myBidPrice: int)

  /** The real-time event handed to the notification transport after a hire commits. */
  datatype Notification = HiredNotice(recipient: UserId, gigId: GigId, gigTitle: string)
}
