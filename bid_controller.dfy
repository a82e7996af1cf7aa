/** Bid placement, the owner's bid list, the transactional hire and the
    freelancer's list of hired gigs. */
module BidController {
  import opened Entities
  import opened Ordering
  import opened Db

  /** The freelancer already has a bid on the gig (the duplicate lookup). */
  predicate HasBidFrom(bids: seq<Bid>, gigId: GigId, freelancer: UserId)
  {
    exists i :: 0 <= i < |bids| && bids[i].gigId == gigId && bids[i].freelancer == freelancer
  }

  /** The guards of placing a bid, in the order the controller checks them. */
  predicate CanBid(s: Store, caller: UserId, gigId: GigId)
  {
    && gigId < |s.gigs|
    && s.gigs[gigId].owner != caller
    && s.gigs[gigId].status == Open
    && !HasBidFrom(s.bids, gigId, caller)
  }

  /** Places the caller's bid on a gig. Assumes the bid schema's defaults: a new
      bid is pending and stamped with the current time. */
  function PlaceBid(s: Store, caller: UserId, gigId: GigId, message: string, price: int): (r: Step<(BidId, Bid)>)
    ensures gigId >= |s.gigs| ==> r == Step(Err(NotFound), s)
    ensures gigId < |s.gigs| && s.gigs[gigId].owner == caller ==> r == Step(Err(BadRequest(OwnGig)), s)
    ensures gigId < |s.gigs| && s.gigs[gigId].owner != caller && s.gigs[gigId].status != Open ==>
      r == Step(Err(BadRequest(GigNotOpen)), s)
    ensures (gigId < |s.gigs| && s.gigs[gigId].owner != caller && s.gigs[gigId].status == Open &&
             HasBidFrom(s.bids, gigId, caller)) ==> r == Step(Err(BadRequest(AlreadyBid)), s)
    ensures r.out.Ok? <==> CanBid(s, caller, gigId)
    ensures r.out.Ok? ==>
      && r.out.value == (|s.bids|, Bid(gigId, caller, message, price, Pending, s.clock, s.clock))
      && r.post == Store(s.gigs, s.bids + [r.out.value.1], s.clock + 1)
  {
    if gigId >= |s.gigs| then Step(Err(NotFound), s)
    else if s.gigs[gigId].owner == caller then Step(Err(BadRequest(OwnGig)), s)
    else if s.gigs[gigId].status != Open then Step(Err(BadRequest(GigNotOpen)), s)
    else if HasBidFrom(s.bids, gigId, caller) then Step(Err(BadRequest(AlreadyBid)), s)
    else
      var bid := Bid(gigId, caller, message, price, Pending, s.clock, s.clock);
      Step(Ok((|s.bids|, bid)), s.(bids := s.bids + [bid], clock := s.clock + 1))
  }

  /** `t` is `s` with `bid` appended as the caller's new bid on an open gig they
      do not own and have not bid on yet. */
  ghost predicate BidAppended(s: Store, caller: UserId, gigId: GigId, bid: Bid, t: Store)
  {
    && CanBid(s, caller, gigId)
    && bid.gigId == gigId && bid.freelancer == caller && bid.status == Pending
    && bid.createdAt == s.clock && bid.updatedAt == s.clock
    && t == Store(s.gigs, s.bids + [bid], s.clock + 1)
  }

  /** The new bid resolves, is not the owner's, is the caller's only bid on the
      gig and is stamped before the new clock. */
  lemma PlaceBidKeepsRecords(s: Store, caller: UserId, gigId: GigId, bid: Bid, t: Store)
    requires Consistent(s)
    requires BidAppended(s, caller, gigId, bid, t)
    ensures BidsResolve(t) && NoSelfBids(t) && OneBidPerFreelancer(t) && StampedBeforeClock(t)
  {
  }

  /** The new bid is pending, and its gig is open, so no hired bid has it as a sibling. */
  lemma PlaceBidKeepsSettled(s: Store, caller: UserId, gigId: GigId, bid: Bid, t: Store)
    requires Consistent(s)
    requires BidAppended(s, caller, gigId, bid, t)
    ensures OpenGigsPending(t) && AssignedGigsSettled(t)
  {
    var n := |s.bids|;
    assert forall i :: 0 <= i < n ==> t.bids[i] == s.bids[i];
    forall i | 0 <= i < n && t.bids[i].gigId == gigId
      ensures t.bids[i].status == Pending
    {
    }
    forall g | 0 <= g < |t.gigs| && t.gigs[g].status == Assigned
      ensures exists w :: Winner(t, g, w)
    {
      var w :| Winner(s, g, w);
      assert Winner(t, g, w);
    }
  }

  lemma PlaceBidKeepsConsistent(s: Store, caller: UserId, gigId: GigId, message: string, price: int)
    requires Consistent(s)
    ensures Consistent(PlaceBid(s, caller, gigId, message, price).post)
  {
    var step := PlaceBid(s, caller, gigId, message, price);
    if step.out.Ok? {
      PlaceBidKeepsRecords(s, caller, gigId, step.out.value.1, step.post);
      PlaceBidKeepsSettled(s, caller, gigId, step.out.value.1, step.post);
    }
  }

  /** A second bid by the same freelancer on the same gig is refused. */
  lemma SecondBidRefused(s: Store, caller: UserId, gigId: GigId, message: string, price: int,
                         message2: string, price2: int)
    requires PlaceBid(s, caller, gigId, message, price).out.Ok?
    ensures var t := PlaceBid(s, caller, gigId, message, price).post;
            PlaceBid(t, caller, gigId, message2, price2) == Step(Err(BadRequest(AlreadyBid)), t)
  {
    var t := PlaceBid(s, caller, gigId, message, price).post;
    assert t.bids[|s.bids|].gigId == gigId && t.bids[|s.bids|].freelancer == caller;
  }

  function BidCreated(e: (BidId, Bid)): int
  {
    e.1.createdAt
  }

  function BidUpdated(e: (BidId, Bid)): int
  {
    e.1.updatedAt
  }

  function IsBidOf(gigId: GigId): Bid -> bool
  {
    (b: Bid) => b.gigId == gigId
  }

  /** The bids on a gig, newest first, for its owner only. */
  function GetBidsForGig(s: Store, caller: UserId, gigId: GigId): (r: Outcome<seq<(BidId, Bid)>>)
    ensures gigId >= |s.gigs| ==> r == Err(NotFound)
    ensures gigId < |s.gigs| && s.gigs[gigId].owner != caller ==> r == Err(Forbidden)
    ensures gigId < |s.gigs| && s.gigs[gigId].owner == caller ==>
      && r.Ok?
      && SortedDesc(r.value, BidCreated)
      && (forall e :: e in r.value <==> e.0 < |s.bids| && s.bids[e.0] == e.1 && e.1.gigId == gigId)
      && multiset(r.value) == multiset(Select(s.bids, IsBidOf(gigId)))
  {
    if gigId >= |s.gigs| then Err(NotFound)
    else if s.gigs[gigId].owner != caller then Err(Forbidden)
    else
      var selected := Select(s.bids, IsBidOf(gigId));
      var sorted := SortDesc(selected, BidCreated);
      SameMembers(sorted, selected);
      Ok(sorted)
  }

  function IsHiredBidOf(freelancer: UserId): Bid -> bool
  {
    (b: Bid) => b.freelancer == freelancer && b.status == Hired
  }

  /** The caller's hired bids, most recently updated first. */
  function MyHiredBids(s: Store, caller: UserId): (r: seq<(BidId, Bid)>)
    ensures SortedDesc(r, BidUpdated)
    ensures forall e :: e in r <==>
      e.0 < |s.bids| && s.bids[e.0] == e.1 && e.1.freelancer == caller && e.1.status == Hired
    ensures multiset(r) == multiset(Select(s.bids, IsHiredBidOf(caller)))
  {
    var selected := Select(s.bids, IsHiredBidOf(caller));
    var sorted := SortDesc(selected, BidUpdated);
    SameMembers(sorted, selected);
    sorted
  }

  /** Every hired bid in the list refers to an existing gig. */
  predicate GigsResolve(mine: seq<(BidId, Bid)>, gigs: seq<Gig>)
  {
    forall k :: 0 <= k < |mine| ==> mine[k].1.gigId < |gigs|
  }

  /** The gigs the caller was hired for, one entry per hired bid and in that
      bid's order, each carrying the gig and the hired bid's price. A hired bid
      whose gig does not resolve makes the controller fail with a server error. */
  function GetMyHiredGigs(s: Store, caller: UserId): (r: Outcome<seq<HiredGig>>)
    ensures r.Ok? <==> GigsResolve(MyHiredBids(s, caller), s.gigs)
    ensures r.Err? ==> r.error == ServerError
    ensures r.Ok? ==>
      var mine := MyHiredBids(s, caller);
      && |r.value| == |mine|
      && forall k :: 0 <= k < |mine| ==>
           && r.value[k].gigId == mine[k].1.gigId
           && r.value[k].gigId < |s.gigs|
           && r.value[k].gig == s.gigs[mine[k].1.gigId]
           && r.value[k].myBidPrice == mine[k].1.price
  {
    var mine := MyHiredBids(s, caller);
    if !GigsResolve(mine, s.gigs) then Err(ServerError)
    else
      Ok(seq(|mine|, k requires 0 <= k < |mine| =>
        HiredGig(mine[k].1.gigId, s.gigs[mine[k].1.gigId], mine[k].1.price)))
  }

  /** In a consistent store the list of hired gigs never fails, and every gig in
      it is assigned. */
  lemma HiredGigsAreAssigned(s: Store, caller: UserId)
    requires Consistent(s)
    ensures GetMyHiredGigs(s, caller).Ok?
    ensures forall k :: 0 <= k < |GetMyHiredGigs(s, caller).value| ==>
      GetMyHiredGigs(s, caller).value[k].gig.status == Assigned
  {
  }

  /** The guards of hiring, in the order the controller checks them. */
  predicate CanHire(s: Store, caller: UserId, bidId: BidId)
  {
    && bidId < |s.bids|
    && s.bids[bidId].gigId < |s.gigs|
    && s.gigs[s.bids[bidId].gigId].owner == caller
    && s.gigs[s.bids[bidId].gigId].status == Open
  }

  /** The bulk update that rejects every other bid of the gig: no bid is added or
      removed, every bid of `gigId` except `winner` is rejected and stamped `now`,
      whatever its status was, and the winner and the bids of other gigs are
      left as they were. */
  function RejectOthers(bids: seq<Bid>, gigId: GigId, winner: BidId, now: nat): (r: seq<Bid>)
    ensures |r| == |bids|
    ensures forall i :: 0 <= i < |bids| && i != winner && bids[i].gigId == gigId ==>
      r[i] == bids[i].(status := Rejected, updatedAt := now)
    ensures winner < |bids| ==> r[winner] == bids[winner]
    ensures forall i :: 0 <= i < |bids| && bids[i].gigId != gigId ==> r[i] == bids[i]
  {
    seq(|bids|, i requires 0 <= i < |bids| =>
      if bids[i].gigId == gigId && i != winner then bids[i].(status := Rejected, updatedAt := now) else bids[i])
  }

  /** The store `t` is `s` after bid `bidId` was hired at time `s.clock`: the bid
      is hired, its gig assigned, every other bid of that gig rejected, and every
      other gig and bid untouched. */
  ghost predicate HireApplied(s: Store, bidId: BidId, t: Store)
    requires bidId < |s.bids| && s.bids[bidId].gigId < |s.gigs|
  {
    var g := s.bids[bidId].gigId;
    && t.clock == s.clock + 1
    && t.gigs == s.gigs[g := s.gigs[g].(status := Assigned)]
    && |t.bids| == |s.bids|
    && t.bids[bidId] == s.bids[bidId].(status := Hired, updatedAt := s.clock)
    && (forall i :: 0 <= i < |s.bids| && i != bidId && s.bids[i].gigId == g ==>
          t.bids[i] == s.bids[i].(status := Rejected, updatedAt := s.clock))
    && (forall i :: 0 <= i < |s.bids| && s.bids[i].gigId != g ==> t.bids[i] == s.bids[i])
  }

  /** Hires the freelancer of bid `bidId` in one transaction. Every refusal aborts
      with the store unchanged; `commitOk` is false when the store reports a
      failure, in which case the transaction is rolled back as well. */
  function Hire(s: Store, caller: UserId, bidId: BidId, commitOk: bool): (r: Step<Bid>)
    ensures bidId >= |s.bids| ==> r == Step(Err(NotFound), s)
    ensures bidId < |s.bids| && s.bids[bidId].gigId >= |s.gigs| ==> r == Step(Err(NotFound), s)
    ensures bidId < |s.bids| && s.bids[bidId].gigId < |s.gigs| && s.gigs[s.bids[bidId].gigId].owner != caller ==>
      r == Step(Err(Forbidden), s)
    ensures (bidId < |s.bids| && s.bids[bidId].gigId < |s.gigs| && s.gigs[s.bids[bidId].gigId].owner == caller &&
             s.gigs[s.bids[bidId].gigId].status != Open) ==> r == Step(Err(BadRequest(GigAlreadyAssigned)), s)
    ensures CanHire(s, caller, bidId) && !commitOk ==> r == Step(Err(ServerError), s)
    ensures r.out.Ok? <==> CanHire(s, caller, bidId) && commitOk
    ensures r.out.Ok? ==> HireApplied(s, bidId, r.post) && r.out.value == r.post.bids[bidId]
  {
    if bidId >= |s.bids| then Step(Err(NotFound), s)
    else
      var bid := s.bids[bidId];
      if bid.gigId >= |s.gigs| then Step(Err(NotFound), s)
      else
        var gig := s.gigs[bid.gigId];
        if gig.owner != caller then Step(Err(Forbidden), s)
        else if gig.status != Open then Step(Err(BadRequest(GigAlreadyAssigned)), s)
        else if !commitOk then Step(Err(ServerError), s)
        else
          var hired := bid.(status := Hired, updatedAt := s.clock);
          var bids := RejectOthers(s.bids[bidId := hired], bid.gigId, bidId, s.clock);
          Step(Ok(hired), Store(s.gigs[bid.gigId := gig.(status := Assigned)], bids, s.clock + 1))
  }

  /** A hire changes no gig reference, owner or freelancer, and stamps with a
      time before the new clock. */
  lemma HireKeepsRecords(s: Store, bidId: BidId, t: Store)
    requires Consistent(s)
    requires bidId < |s.bids| && s.bids[bidId].gigId < |s.gigs|
    requires HireApplied(s, bidId, t)
    ensures BidsResolve(t) && NoSelfBids(t) && OneBidPerFreelancer(t) && StampedBeforeClock(t)
  {
  }

  /** The gigs still open after a hire are the ones it did not touch. */
  lemma HireKeepsOpenGigsPending(s: Store, bidId: BidId, t: Store)
    requires Consistent(s)
    requires bidId < |s.bids| && s.bids[bidId].gigId < |s.gigs|
    requires HireApplied(s, bidId, t)
    requires BidsResolve(t)
    ensures OpenGigsPending(t)
  {
  }

  /** The hired gig gets the hired bid as its winner; every other assigned gig keeps its own. */
  lemma HireKeepsWinners(s: Store, bidId: BidId, t: Store)
    requires Consistent(s)
    requires bidId < |s.bids| && s.bids[bidId].gigId < |s.gigs|
    requires HireApplied(s, bidId, t)
    ensures AssignedHaveWinner(t)
  {
    var g := s.bids[bidId].gigId;
    forall h | 0 <= h < |t.gigs| && t.gigs[h].status == Assigned
      ensures exists w :: Winner(t, h, w)
    {
      if h == g {
        assert Winner(t, h, bidId);
      } else {
        var w :| Winner(s, h, w);
        assert Winner(t, h, w);
      }
    }
  }

  /** The bids of the hired gig were all pending, so the hired bid is its only
      hired bid and all the others are rejected. */
  lemma HireKeepsSiblingsRejected(s: Store, bidId: BidId, t: Store)
    requires Consistent(s)
    requires bidId < |s.bids| && s.bids[bidId].gigId < |s.gigs|
    requires s.gigs[s.bids[bidId].gigId].status == Open
    requires HireApplied(s, bidId, t)
    ensures HiredSiblingsRejected(t)
  {
  }

  lemma HireKeepsConsistent(s: Store, caller: UserId, bidId: BidId, commitOk: bool)
    requires Consistent(s)
    ensures Consistent(Hire(s, caller, bidId, commitOk).post)
  {
    var step := Hire(s, caller, bidId, commitOk);
    if step.out.Ok? {
      HireKeepsRecords(s, bidId, step.post);
      HireKeepsOpenGigsPending(s, bidId, step.post);
      HireKeepsWinners(s, bidId, step.post);
      HireKeepsSiblingsRejected(s, bidId, step.post);
    }
  }

  /** Once a hire has succeeded, the gig is closed: any later hire on one of its
      bids fails (for its owner with "already assigned"), and nobody can bid on it. */
  lemma HireClosesGig(s: Store, caller: UserId, bidId: BidId, commitOk: bool,
                      caller2: UserId, other: BidId, commitOk2: bool,
                      freelancer: UserId, message: string, price: int)
    requires Hire(s, caller, bidId, commitOk).out.Ok?
    requires other < |s.bids| && s.bids[other].gigId == s.bids[bidId].gigId
    ensures var t := Hire(s, caller, bidId, commitOk).post;
            && Hire(t, caller2, other, commitOk2).out.Err?
            && (caller2 == caller ==> Hire(t, caller2, other, commitOk2).out == Err(BadRequest(GigAlreadyAssigned)))
            && PlaceBid(t, freelancer, s.bids[bidId].gigId, message, price).out.Err?
  {
  }
}
