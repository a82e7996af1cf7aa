/** Gig creation and the public gig queries. */
module GigController {
  import opened Entities
  import opened Ordering
  import opened Db

  /** A request field that JavaScript treats as truthy: present and not the empty string. */
  predicate Given(field: Option<string>)
  {
    field.Some? && field.value != ""
  }

  /** A numeric request field that JavaScript treats as truthy: present and not zero. */
  predicate GivenAmount(field: Option<int>)
  {
    field.Some? && field.value != 0
  }

  /** Creates a gig owned by the caller. Assumes the gig schema's defaults: a new
      gig is open and is stamped with the current time. */
  function CreateGig(s: Store, caller: UserId, title: Option<string>, description: Option<string>,
                     budget: Option<int>): (r: Step<(GigId, Gig)>)
    ensures !(Given(title) && Given(description) && GivenAmount(budget)) ==>
      r == Step(Err(BadRequest(MissingFields)), s)
    ensures Given(title) && Given(description) && GivenAmount(budget) ==>
      && r.out.Ok?
      && r.out.value.0 == |s.gigs|
      && r.out.value.1 == Gig(caller, title.value, description.value, budget.value, Open, s.clock)
      && r.post == Store(s.gigs + [r.out.value.1], s.bids, s.clock + 1)
  {
    if !Given(title) || !Given(description) || !GivenAmount(budget) then
      Step(Err(BadRequest(MissingFields)), s)
    else
      var gig := Gig(caller, title.value, description.value, budget.value, Open, s.clock);
      Step(Ok((|s.gigs|, gig)), s.(gigs := s.gigs + [gig], clock := s.clock + 1))
  }

  lemma CreateGigKeepsConsistent(s: Store, caller: UserId, title: Option<string>,
                                 description: Option<string>, budget: Option<int>)
    requires Consistent(s)
    ensures Consistent(CreateGig(s, caller, title, description, budget).post)
  {
    var t := CreateGig(s, caller, title, description, budget).post;
    if t != s {
      assert forall g :: 0 <= g < |s.gigs| ==> t.gigs[g] == s.gigs[g];
      forall g | 0 <= g < |t.gigs| && t.gigs[g].status == Assigned
        ensures exists w :: Winner(t, g, w)
      {
        var w :| Winner(s, g, w);
        assert Winner(t, g, w);
      }
    }
  }

  /** The filter of the gig listing: open gigs, and with a non-empty search term
      only those whose title matches it. */
  predicate ListedGig(g: Gig, search: string, matches: (string, string) -> bool)
  {
    g.status == Open && (search == "" || matches(g.title, search))
  }

  /** The same filter as a function value, for `Select`. */
  function Listed(search: string, matches: (string, string) -> bool): Gig -> bool
  {
    (g: Gig) => ListedGig(g, search, matches)
  }

  function GigCreated(e: (GigId, Gig)): int
  {
    e.1.createdAt
  }

  /** The gig listing, newest first. The title search is the abstract relation
      `matches`; an empty search term applies no title filter. */
  function GetGigs(s: Store, search: string, matches: (string, string) -> bool): (r: seq<(GigId, Gig)>)
    ensures SortedDesc(r, GigCreated)
    ensures forall e :: e in r <==>
      e.0 < |s.gigs| && s.gigs[e.0] == e.1 && e.1.status == Open && (search == "" || matches(e.1.title, search))
    ensures multiset(r) == multiset(Select(s.gigs, Listed(search, matches)))
  {
    var selected := Select(s.gigs, Listed(search, matches));
    var sorted := SortDesc(selected, GigCreated);
    SameMembers(sorted, selected);
    assert forall e :: e in sorted <==> e.0 < |s.gigs| && s.gigs[e.0] == e.1 && ListedGig(e.1, search, matches);
    sorted
  }

  function GetGigById(s: Store, id: GigId): (r: Outcome<Gig>)
    ensures r.Ok? <==> id < |s.gigs|
    ensures r.Ok? ==> r.value == s.gigs[id]
    ensures r.Err? ==> r.error == NotFound
  {
    if id < |s.gigs| then Ok(s.gigs[id]) else Err(NotFound)
  }

  /** A newly created gig heads every listing it belongs to: its creation time is
      later than that of every other gig. */
  lemma NewGigListedFirst(s: Store, caller: UserId, title: Option<string>, description: Option<string>,
                          budget: Option<int>, search: string, matches: (string, string) -> bool)
    requires Consistent(s)
    requires CreateGig(s, caller, title, description, budget).out.Ok?
    requires search == "" || matches(title.value, search)
    ensures var step := CreateGig(s, caller, title, description, budget);
            var listing := GetGigs(step.post, search, matches);
            |listing| > 0 && listing[0] == step.out.value
  {
  }
}
