# GigFlow bidding and hiring, modelled in Dafny

GigFlow is a two-sided marketplace. Owners post paid work items ("gigs"). Freelancers bid on them. An owner hires one bid, which closes the gig and rejects every competing bid. This project models the server's two controllers:
- the gig controller: create a gig, list open gigs, fetch one gig;
- the bid controller: place a bid, list a gig's bids for its owner, hire a freelancer in one transaction, list a freelancer's hired gigs.

It proves that every write preserves the store's cross-record invariant. The central part of that invariant is the single-winner rule: a gig is assigned exactly when one of its bids is hired and all its other bids are rejected.

Layout:
- `entities.dfy` (module `Entities`): gigs, bids, statuses, and the typed outcomes that replace HTTP responses: `NotFound` (404), `Forbidden` (403), `BadRequest(reason)` (400) and `ServerError` (500).
- `ordering.dfy` (module `Ordering`): selecting records in id order, like `find`, and sorting them newest first, like `.sort({key: -1})`.
- `db.dfy` (module `Db`): the two collections as a `Store` value, and the invariant `Consistent`.
- `gig_controller.dfy`, `bid_controller.dfy`: each controller as a pure function from a store to an outcome and the store it leaves behind, plus the lemmas about them.
- `marketplace.dfy` (module `Market`): the class `Marketplace`. It holds the collections as mutable fields. Its methods run the controllers step by step as the source does, and each method is proved equal to the matching pure function.

Modelling choices:
- Each collection is a sequence indexed by id. Ids are allocated in insertion order and records are never deleted.
- A logical clock stamps `createdAt` and `updatedAt`. It advances by one on every successful write.
- The caller's identity is a parameter. Authentication is not modelled.
- The schema files are not part of this model, so their defaults are assumptions:
  - a new gig is `Open`, a new bid is `Pending`;
  - Mongoose timestamps are on, so `updateMany` also stamps `updatedAt` on the rejected bids.
- A hire either commits all of its writes or none. The `commitOk` parameter stands for a store failure that reaches the catch block; the store is then left unchanged.
- The real-time "hired" event is appended to a ghost log, `notifications`. Delivery is not modelled.

Answers the model gives as the controllers give them, where a stricter answer might be expected:
- A bid on one's own gig is answered with 400 (not 403). This check comes before the open-status check, so the owner gets it even on an assigned gig.
- A hire on a bid whose gig is missing is answered with 404 (not treated as a broken reference).
- A commit that fails inside the hire transaction is answered with a generic 500 (not "already assigned").
- A hire rejects every other bid of the gig, whatever its status (not only pending ones); in a consistent store they are all pending anyway.
- `Market.HiringScenario` replays one hiring round through the class: two bids, a hire, then a late hire and a late bid that are both refused.

## Model

| member | source | states |
|---|---|---|
| Db.AssignedIffSettled | server/controllers/bidController.js:111-130 | in a consistent store, a gig is assigned if and only if one of its bids is hired and every other bid of it is rejected; no gig has two hired bids |
| GigController.CreateGig | server/controllers/gigController.js:8-19 | a missing or falsy title, description or budget (including budget 0) gives 400 and creates nothing; otherwise exactly one gig is appended, owned by the caller, with the given fields, open, stamped now, under the next id |
| GigController.CreateGigKeepsConsistent | server/controllers/gigController.js:14-19 | creating a gig preserves the store invariant |
| GigController.GetGigs | server/controllers/gigController.js:30-45 | the listing holds exactly the open gigs whose title matches the search, or every open gig when the search is empty; it never holds an assigned gig; it is a permutation of those gigs in id order, sorted by createdAt descending |
| GigController.GetGigById | server/controllers/gigController.js:54-62 | the gig when the id exists, NotFound otherwise |
| GigController.NewGigListedFirst | server/controllers/gigController.js:41-43 | a newly created gig comes first in every listing whose search it matches |
| Ordering.SortDesc | server/controllers/gigController.js:43 | the result is sorted by descending key and is a permutation of the input |
| Ordering.Select | server/controllers/bidController.js:67 | the selection holds exactly the records that satisfy the filter, each with its id, in increasing id order |
| BidController.PlaceBid | server/controllers/bidController.js:10-37 | a missing gig gives NotFound; the owner is refused ("own gig") even on an assigned gig; a gig that is not open is refused; a second bid by the same freelancer is refused; each refusal leaves the store unchanged; the bid succeeds exactly when all guards pass, and then appends one pending bid by the caller with the given message and price |
| BidController.PlaceBidKeepsConsistent | server/controllers/bidController.js:12-35 | placing a bid preserves the store invariant, including at most one bid per (gig, freelancer) pair and bids only on open gigs |
| BidController.SecondBidRefused | server/controllers/bidController.js:25-28 | after a successful bid, the same freelancer's next bid on that gig is refused as a duplicate and changes nothing |
| BidController.GetBidsForGig | server/controllers/bidController.js:48-71 | a missing gig gives NotFound; any caller other than the owner gets Forbidden; the owner gets exactly the bids on that gig, as a permutation of them in id order, sorted by createdAt descending |
| BidController.MyHiredBids | server/controllers/bidController.js:163-171 | exactly the caller's hired bids, as a permutation of them in id order, sorted by updatedAt descending |
| BidController.GetMyHiredGigs | server/controllers/bidController.js:163-178 | one entry per hired bid of the caller, in the same order, each carrying that bid's gig and price (myBidPrice); a hired bid whose gig is missing gives a server error |
| BidController.HiredGigsAreAssigned | server/controllers/bidController.js:163-176 | in a consistent store the hired-gigs list never fails, and each gig in it is assigned |
| BidController.Hire | server/controllers/bidController.js:80-146 | a missing bid or gig gives NotFound; a caller who is not the owner gets Forbidden, checked before the status; a gig that is not open gives "already assigned"; a failed commit gives a server error; every failure leaves the store unchanged; on success the bid is hired, its gig assigned and every other bid of that gig rejected, with all other gigs and bids untouched |
| BidController.RejectOthers | server/controllers/bidController.js:127-130 | no bid is added or removed; every bid of the hired gig other than the winner is rejected and stamped with the current time, whatever its status was; the winner and the bids of other gigs are unchanged |
| BidController.HireKeepsConsistent | server/controllers/bidController.js:111-130 | a hire preserves the store invariant, so the single-winner rule holds after any sequence of hires |
| BidController.HireClosesGig | server/controllers/bidController.js:104-115 | after a successful hire, any later hire on a bid of the same gig fails, with "already assigned" for the owner, and every new bid on that gig fails |
| Market.Marketplace.CreateGig | server/controllers/gigController.js:6-25 | the in-place create returns and leaves exactly what CreateGig describes, keeps the invariant and emits nothing |
| Market.Marketplace.PlaceBid | server/controllers/bidController.js:8-41 | the in-place bid returns and leaves exactly what PlaceBid describes, keeps the invariant and emits nothing |
| Market.Marketplace.HireFreelancer | server/controllers/bidController.js:80-156 | the transactional hire returns and leaves exactly what Hire describes and keeps the invariant; it logs one "hired" event addressed to the hired freelancer when it succeeds, and none otherwise |

## Left out

- Real concurrency and MongoDB isolation: each controller is one atomic step. Racing transactions and commit conflicts are not modelled. A commit conflict reaches the generic 500 path, which `commitOk` covers.
- Delivery of the socket.io notification (server/controllers/bidController.js:137-144), and the check that the socket server is attached: the model only logs the event.
- The registration of delivery channels (the socket rooms in server/server.js) is not part of this model.
- Regular-expression title search in `getGigs`: the match is an abstract `matches(title, search)` parameter. An invalid pattern, which would throw and give a 500, is not modelled.
- Schema validation and malformed ids: the catch blocks that answer 400 "Invalid gig/bid data" or 500 are not modelled. The schema files are not part of this model. The controllers themselves check neither the bid's message nor its price, so a bid with an empty message or a non-positive price and a gig with a negative budget are accepted. A missing price cannot be expressed, since a bid's price is a plain integer in the model.
- JavaScript truthiness is modelled for absent fields, the empty string and the number 0 only. `NaN` and values of other JSON types are not modelled.
- `populate` joins of user names and emails, HTTP status codes and message strings: only the kinds of outcome are modelled.
- A gig's `updatedAt` is not modelled. Gigs are only ever ordered by `createdAt`.
- Ties in a sort key: MongoDB leaves their order unspecified. The contracts only require that keys never increase and that the result is a permutation of the matching records.
- GigController.CreateGig: budgets and prices are integers, so the 400 for a zero budget covers only the number 0. The web client sends form fields as strings, and the string "0" is truthy, so it passes the required-fields guard and is stored. Fractional amounts such as 12.5 are not represented.
- GigController.NewGigListedFirst: assumes strictly increasing timestamps, the logical clock. Real `createdAt` values have millisecond resolution, so two gigs can share a stamp, and the wall clock can step back; then the newest gig is not guaranteed to come first.
