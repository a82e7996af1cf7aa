/** The two collections as an in-memory store, and the cross-record invariant
    that every controller write preserves. */
module Db {
  import opened Entities

  /** Gigs and bids, each indexed by id (records are never deleted), and the
      logical clock that stamps `createdAt` / `updatedAt`. */
  datatype Store = Store(gigs: seq<Gig>, bids: seq<Bid>, clock: nat)

  /** What a controller answers together with the store it leaves behind. */
  datatype Step<+T> = Step(out: Outcome<T>, post: Store)

  /** Every bid's gig reference resolves. */
  ghost predicate BidsResolve(s: Store)
  {
    forall i :: 0 <= i < |s.bids| ==> s.bids[i].gigId < |s.gigs|
  }

  /** No owner ever bids on their own gig. */
  ghost predicate NoSelfBids(s: Store)
    requires BidsResolve(s)
  {
    forall i :: 0 <= i < |s.bids| ==> s.bids[i].freelancer != s.gigs[s.bids[i].gigId].owner
  }

  /** At most one bid per (gig, freelancer) pair. */
  ghost predicate OneBidPerFreelancer(s: Store)
  {
    forall i, j :: 0 <= i < j < |s.bids| && s.bids[i].gigId == s.bids[j].gigId ==>
      s.bids[i].freelancer != s.bids[j].freelancer
  }

  /** Every bid of an open gig is still pending. */
  ghost predicate OpenGigsPending(s: Store)
    requires BidsResolve(s)
  {
    forall i :: 0 <= i < |s.bids| && s.gigs[s.bids[i].gigId].status == Open ==> s.bids[i].status == Pending
  }

  /** Bid `w` is the hired bid of gig `g`. */
  ghost predicate Winner(s: Store, g: GigId, w: BidId)
  {
    w < |s.bids| && s.bids[w].gigId == g && s.bids[w].status == Hired
  }

  /** Every assigned gig has a hired bid. */
  ghost predicate AssignedHaveWinner(s: Store)
  {
    forall g :: 0 <= g < |s.gigs| && s.gigs[g].status == Assigned ==> exists w :: Winner(s, g, w)
  }

  /** Every other bid of a gig with a hired bid is rejected. */
  ghost predicate HiredSiblingsRejected(s: Store)
  {
    forall i, j ::
      0 <= i < |s.bids| && 0 <= j < |s.bids| && i != j &&
      s.bids[i].status == Hired && s.bids[j].gigId == s.bids[i].gigId
      ==> s.bids[j].status == Rejected
  }

  ghost predicate AssignedGigsSettled(s: Store)
  {
    AssignedHaveWinner(s) && HiredSiblingsRejected(s)
  }

  /** Every timestamp lies before the clock. */
  ghost predicate StampedBeforeClock(s: Store)
  {
    && (forall g :: 0 <= g < |s.gigs| ==> s.gigs[g].createdAt < s.clock)
    && (forall i :: 0 <= i < |s.bids| ==> s.bids[i].createdAt < s.clock && s.bids[i].updatedAt < s.clock)
  }

  ghost predicate Consistent(s: Store)
  {
    && BidsResolve(s)
    && NoSelfBids(s)
    && OneBidPerFreelancer(s)
    && OpenGigsPending(s)
    && AssignedGigsSettled(s)
    && StampedBeforeClock(s)
  }

  /** The single-winner rule: in a consistent store a gig is assigned exactly when
      one of its bids is hired and all its other bids are rejected, and no gig has
      two hired bids. */
  lemma AssignedIffSettled(s: Store, g: GigId)
    requires Consistent(s)
    requires g < |s.gigs|
    ensures s.gigs[g].status == Assigned <==>
      exists w :: Winner(s, g, w) &&
        forall i :: 0 <= i < |s.bids| && s.bids[i].gigId == g && i != w ==> s.bids[i].status == Rejected
    ensures forall i, j :: Winner(s, g, i) && Winner(s, g, j) ==> i == j
  {
  }
}
