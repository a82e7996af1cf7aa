/** The marketplace server: the store held as mutable collections, and the
    controllers that write to it as methods, each one atomic step. */
module Market {
  import opened Entities
  import opened Db
  import GigController
  import BidController

  class Marketplace {
    var gigs: seq<Gig>
    var bids: seq<Bid>
    var clock: nat
    /** The hire events handed to the notification transport, oldest first. */
    ghost var notifications: seq<Notification>

    /** The current contents of the store, read by the query functions. */
    function State(): Store
      reads this
    {
      Store(gigs, bids, clock)
    }

    ghost predicate Valid()
      reads this
    {
      Consistent(State())
    }

    constructor ()
      ensures Valid()
      ensures State() == Store([], [], 0) && notifications == []
    {
      gigs, bids, clock := [], [], 0;
      notifications := [];
    }

    method CreateGig(caller: UserId, title: Option<string>, description: Option<string>, budget: Option<int>)
      returns (r: Outcome<(GigId, Gig)>)
      requires Valid()
      modifies this
      ensures Valid()
      ensures var step := GigController.CreateGig(old(State()), caller, title, description, budget);
              r == step.out && State() == step.post
      ensures notifications == old(notifications)
    {
      if !GigController.Given(title) || !GigController.Given(description) || !GigController.GivenAmount(budget) {
        return Err(BadRequest(MissingFields));
      }
      var gig := Gig(caller, title.value, description.value, budget.value, Open, clock);
      r := Ok((|gigs|, gig));
      gigs := gigs + [gig];
      clock := clock + 1;
      GigController.CreateGigKeepsConsistent(old(State()), caller, title, description, budget);
    }

    method PlaceBid(caller: UserId, gigId: GigId, message: string, price: int)
      returns (r: Outcome<(BidId, Bid)>)
      requires Valid()
      modifies this
      ensures Valid()
      ensures var step := BidController.PlaceBid(old(State()), caller, gigId, message, price);
              r == step.out && State() == step.post
      ensures notifications == old(notifications)
    {
      if gigId >= |gigs| {
        return Err(NotFound);
      }
      var gig := gigs[gigId];
      if gig.owner == caller {
        return Err(BadRequest(OwnGig));
      }
      if gig.status != Open {
        return Err(BadRequest(GigNotOpen));
      }
      if BidController.HasBidFrom(bids, gigId, caller) {
        return Err(BadRequest(AlreadyBid));
      }
      var bid := Bid(gigId, caller, message, price, Pending, clock, clock);
      r := Ok((|bids|, bid));
      bids := bids + [bid];
      clock := clock + 1;
      BidController.PlaceBidKeepsConsistent(old(State()), caller, gigId, message, price);
    }

    /** The transactional hire. The writes are staged in `txGigs` / `txBids` and
        become visible together at commit; every early return is an abort, and a
        failed commit (`commitOk` false) rolls them back. */
    method HireFreelancer(caller: UserId, bidId: BidId, commitOk: bool) returns (r: Outcome<Bid>)
      requires Valid()
      modifies this
      ensures Valid()
      ensures var step := BidController.Hire(old(State()), caller, bidId, commitOk);
              r == step.out && State() == step.post
      ensures r.Ok? ==>
        notifications == old(notifications) + [HiredNotice(r.value.freelancer, r.value.gigId, gigs[r.value.gigId].title)]
      ensures r.Err? ==> notifications == old(notifications)
    {
      if bidId >= |bids| {
        return Err(NotFound);
      }
      var bid := bids[bidId];
      if bid.gigId >= |gigs| {
        return Err(NotFound);
      }
      var gig := gigs[bid.gigId];
      if gig.owner != caller {
        return Err(Forbidden);
      }
      if gig.status != Open {
        return Err(BadRequest(GigAlreadyAssigned));
      }
      var now := clock;
      var txGigs, txBids := gigs, bids;
      bid := bid.(status := Hired, updatedAt := now);
      txBids := txBids[bidId := bid];
      gig := gig.(status := Assigned);
      txGigs := txGigs[bid.gigId := gig];
      txBids := BidController.RejectOthers(txBids, bid.gigId, bidId, now);
      if !commitOk {
        return Err(ServerError);
      }
      gigs, bids, clock := txGigs, txBids, now + 1;
      notifications := notifications + [HiredNotice(bid.freelancer, bid.gigId, gig.title)];
      BidController.HireKeepsConsistent(old(State()), caller, bidId, commitOk);
      r := Ok(bid);
    }
  }

  /** A client of the class: a new marketplace where two freelancers bid on
      the owner's gig. */
  method TwoBidsOnOneGig(owner: UserId, f1: UserId, f2: UserId) returns (m: Marketplace)
    requires owner != f1 && owner != f2 && f1 != f2
    ensures fresh(m) && m.Valid() && m.notifications == []
    ensures m.gigs == [Gig(owner, "Logo", "Design a logo", 500, Open, 0)]
    ensures m.bids == [Bid(0, f1, "I can do it", 100, Pending, 1, 1), Bid(0, f2, "Me too", 150, Pending, 2, 2)]
  {
    m := new Marketplace();
    var g := m.CreateGig(owner, Some("Logo"), Some("Design a logo"), Some(500));
    assert m.gigs == [Gig(owner, "Logo", "Design a logo", 500, Open, 0)] && m.bids == [];
    var b1 := m.PlaceBid(f1, 0, "I can do it", 100);
    assert m.bids == [Bid(0, f1, "I can do it", 100, Pending, 1, 1)];
    var b2 := m.PlaceBid(f2, 0, "Me too", 150);
  }

  /** A client of the class: the owner hires the first bid; the second bid is
      rejected, the first freelancer is notified, and a late hire and a late
      bid are both refused. */
  method HiringScenario(owner: UserId, f1: UserId, f2: UserId, f3: UserId)
    requires owner != f1 && owner != f2 && owner != f3 && f1 != f2
  {
    var m := TwoBidsOnOneGig(owner, f1, f2);
    var h := m.HireFreelancer(owner, 0, true);
    assert h.Ok? && m.bids[0].status == Hired && m.bids[1].status == Rejected && m.gigs[0].status == Assigned;
    assert m.notifications == [HiredNotice(f1, 0, "Logo")];
    var late := m.HireFreelancer(owner, 1, true);
    assert late == Err(BadRequest(GigAlreadyAssigned));
    var b3 := m.PlaceBid(f3, 0, "Late", 120);
    assert b3 == Err(BadRequest(GigNotOpen));
  }
}
