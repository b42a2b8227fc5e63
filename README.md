# Tender and bid store, in Dafny

This project models the core of a Django service for public tenders. Organizations publish
**tenders**. Users place **bids** on them. Both kinds of head row keep a separate ledger of
numbered **versions**. A head can be rolled back to one of its versions, which copies back
that version's name and description. Bids also collect **reviews**.

The model has seven files:

- `wrappers.dfy` holds `Option` and `Result`.
- `seqs.dfy` holds the order-keeping filter, keyed lookup and unique-key predicates that every table uses.
- `models.dfy` holds the record types and choice sets of `models.py`. It also states the
  database constraints as one predicate, `Integrity`: every unique key and every foreign
  key. It then defines the cascading deletes and the bid ledger's newest-first ordering.
- `responses.dfy` holds the errors the views answer with and their HTTP status codes.
- `queries.dfy` holds the read-only list views, as pure functions over the tables.
- `store.dfy` covers the views that write.
  - Each one is first specified as a pure function `…In(db, …)` that returns the
    response and the new tables.
  - The class `TenderStore` then holds the eight tables as sequence fields. Each of its
    methods performs a view step by step and is proved equal to that function.
  - Every method keeps `Valid()`, which is `Integrity` plus "every bid status is a
    declared choice".
- `findings.dfy` covers the bid-edit permission hole described below.

Request bodies are records of `Option` fields: `None` means the key is absent. Django's
`if not x` test is the predicate `Blank`, which means absent or empty. Some parts of the
service are outside the model, so they become parameters:

- the clock is `now`;
- a new primary key is `newId`, and a key that is already taken is answered as an integrity error;
- the authenticated user is `actor`.

The source does not record a version row when a head is edited. Rows enter the ledgers
only by direct insertion, modelled as `AddTenderVersion` and `AddBidVersion`. Version
numbers are whatever the inserter chooses. Nothing snapshots a head on each update, and
nothing keeps the numbers free of gaps.

## Model

| member | source | states |
|---|---|---|
| Models.FindEmployeeByUsername | solution/avito_tender_service/avito_tender_service/tenders/models.py:8 | usernames are unique, so the lookup finds the one employee with that username, or none exactly when nobody has it |
| Models.FindUserByUsername | solution/avito_tender_service/avito_tender_service/tenders/views.py:118 | the user lookup by username yields the one matching row, or none exactly when no user has that username |
| Models.FindTender | solution/avito_tender_service/avito_tender_service/tenders/models.py:52 | a tender id is found exactly when some tender has it, and the index found holds that id |
| Models.FindBid | solution/avito_tender_service/avito_tender_service/tenders/models.py:84 | a bid id is found exactly when some bid has it, and the index found holds that id |
| Models.FindTenderVersion | solution/avito_tender_service/avito_tender_service/tenders/models.py:66-74 | `(tender, version)` is unique, so the ledger lookup finds that one row, or none exactly when no row carries the pair |
| Models.FindBidVersion | solution/avito_tender_service/avito_tender_service/tenders/models.py:95-103 | as for tenders; a negative version never matches, because the column is a positive integer field |
| Models.DeleteBids | solution/avito_tender_service/avito_tender_service/tenders/models.py:95-112 | deleting bids keeps exactly the other bids, and the versions and reviews of those other bids, in table order; no other table changes |
| Models.DeleteTender | solution/avito_tender_service/avito_tender_service/tenders/models.py:57-90 | deleting a tender keeps exactly the other tenders and their versions, and only those bids, bid versions and reviews that do not belong to a bid on that tender; organizations, employees and users are untouched |
| Models.DeleteTenderKeepsOtherBids | solution/avito_tender_service/avito_tender_service/tenders/models.py:84-88 | with unique bid ids, the bids a tender deletion keeps are exactly those on other tenders |
| Models.DeleteBidsKeepsIntegrity | solution/avito_tender_service/avito_tender_service/tenders/models.py:95-112 | deleting bids together with their versions and reviews (ON DELETE CASCADE) keeps every unique and foreign key |
| Models.DeleteTenderKeepsIntegrity | solution/avito_tender_service/avito_tender_service/tenders/models.py:66-90 | deleting a tender together with its versions, its bids and theirs keeps every constraint: no row is left pointing at a deleted row |
| Models.InsertNewestFirst | solution/avito_tender_service/avito_tender_service/tenders/models.py:104 | inserting a ledger row into a newest-first sequence keeps it newest first and adds exactly that row (as a multiset) |
| Models.SortNewestFirst | solution/avito_tender_service/avito_tender_service/tenders/models.py:104 | the ledger's default ordering `-version`: the result is newest first and a permutation of its input |
| Models.BidVersionHistory | solution/avito_tender_service/avito_tender_service/tenders/models.py:96-104 | a bid's `versions` are newest first and a permutation (as a multiset) of the ledger rows of that bid |
| Models.UniqueRowsOccurOnce | solution/avito_tender_service/avito_tender_service/tenders/models.py:102-103 | a table with a unique key holds each row at most once |
| Models.HistoryStrictlyNewestFirst | solution/avito_tender_service/avito_tender_service/tenders/models.py:99-104 | because `(bid, version)` is unique, a bid's history is strictly decreasing in version: no two rows share a number |
| Responses.HttpStatus | solution/avito_tender_service/avito_tender_service/tenders/views.py:33-45 | every error the views return is answered with a 4xx or 5xx status code |
| Queries.ListTenders | solution/avito_tender_service/avito_tender_service/tenders/views.py:11-20 | the result keeps the table's order; a blank `serviceType` lists every tender, otherwise exactly the tenders of that service type |
| Queries.ListUserTenders | solution/avito_tender_service/avito_tender_service/tenders/views.py:60-68 | a blank username is a 404 "Username parameter is required"; otherwise the result is in table order and holds exactly the tenders whose creator is an employee with that username |
| Queries.ListUserBids | solution/avito_tender_service/avito_tender_service/tenders/views.py:139-150 | a blank or unknown username lists nothing; otherwise exactly the bids created by the user with that username, in table order |
| Queries.ListTenderBids | solution/avito_tender_service/avito_tender_service/tenders/views.py:153-158 | exactly the bids on the given tender, in table order |
| Queries.ListReviews | solution/avito_tender_service/avito_tender_service/tenders/views.py:203-216 | a missing author or organization parameter lists nothing (Django turns it into an `IS NULL` test on a NOT NULL column); otherwise exactly the reviews on a bid of the tender, of the organization, by the author |
| Queries.ReviewListedIff | solution/avito_tender_service/avito_tender_service/tenders/views.py:209-213 | a review is listed if and only if its bid is on the tender and belongs to the organization, and its author has the given username |
| Store.TenderErrors | solution/avito_tender_service/avito_tender_service/tenders/models.py:53-58 | the serializer rejects exactly the failing fields: name blank, containing a NUL character or over 255 characters, description blank or containing a NUL character, a service type or status outside its choices, status missing on a full update, an organization or creator that does not exist; NULL, and an empty string read as NULL, is accepted on the nullable columns |
| Store.BidErrors | solution/avito_tender_service/avito_tender_service/tenders/models.py:85-90 | the serializer rejects exactly the failing fields: name blank, containing a NUL character or over 255 characters, description blank or containing a NUL character, a status outside its choices (never required, having a default), a tender, organization or creator that does not exist or, on a full update, is missing |
| Store.CreateTenderIn | solution/avito_tender_service/avito_tender_service/tenders/views.py:27-57 | the four 400 checks in source order (organization and creator present, organization and employee exist); success exactly when they all pass and the id is free, inserting one tender with `''` defaults and touching no other table |
| Store.CreateBidIn | solution/avito_tender_service/avito_tender_service/tenders/views.py:104-136 | 404 on an unknown tender, organization or creator, in that order; once all three resolve, a body the serializer rejects answers 400 with exactly its failing fields; a bid is created exactly when the lookups pass, the serializer accepts the data and the id is free, and then exactly that bid is appended, with status defaulting to SUBMITTED |
| Store.UpdateTenderIn | solution/avito_tender_service/avito_tender_service/tenders/views.py:71-74 | unknown id gives 404 and invalid fields give 400, all with no change; otherwise only that tender is replaced, by the patch merged over it with `updatedAt` = now, and the ledger is not touched |
| Store.BlankOrganizationClears | solution/avito_tender_service/avito_tender_service/tenders/models.py:57-58 | an edit that sends an empty string for the tender's organization succeeds and leaves the organization NULL, as DRF reads an empty relation as NULL |
| Store.SaveBidEdit | solution/avito_tender_service/avito_tender_service/tenders/views.py:161-163 | the generic bid update: an unknown id answers 404 and a rejected body 400 with its failing fields, both leaving the tables as they were; otherwise only that bid changes, to the patch merged over it |
| Store.UpdateBidIn | solution/avito_tender_service/avito_tender_service/tenders/views.py:166-170 | after the lookup (404), a user other than the creator is refused (403) with no change; only the creator's edits reach the generic update |
| Store.RollbackTenderIn | solution/avito_tender_service/avito_tender_service/tenders/views.py:77-97 | succeeds exactly when ledger row `(id, version)` exists, else 404 "Version not found" with no change; only the head changes, and only its name, description and `updatedAt` |
| Store.RollbackBidIn | solution/avito_tender_service/avito_tender_service/tenders/views.py:173-200 | the same for bids: only the bid head moves, to the ledger row's name and description; the ledger and every other column stay as they were |
| Store.AddTenderVersionIn | solution/avito_tender_service/avito_tender_service/tenders/models.py:66-74 | a ledger row is inserted exactly when its tender exists and `(tender, version)` is new; otherwise an integrity error with no change |
| Store.AddBidVersionIn | solution/avito_tender_service/avito_tender_service/tenders/models.py:95-103 | as for tenders, and also refused for a negative version (positive integer field) |
| Store.AddReviewIn | solution/avito_tender_service/avito_tender_service/tenders/models.py:110-114 | a review is inserted exactly when its bid and its author exist; the author defaults to user 1 |
| Store.AddOrganizationIn | solution/avito_tender_service/avito_tender_service/tenders/models.py:15-26 | an organization is inserted exactly when its id is new, whatever its type string, since the declared type choices are not checked on insert (column widths are left out) |
| Store.AddEmployeeIn | solution/avito_tender_service/avito_tender_service/tenders/models.py:6-12 | an employee is inserted exactly when both its id and its username are new |
| Store.AddUserIn | solution/avito_tender_service/avito_tender_service/tenders/views.py:118 | a user is inserted exactly when its id and its username are new |
| Store.RollbackTenderIdempotent | solution/avito_tender_service/avito_tender_service/tenders/views.py:82-87 | rolling a tender back to the same version twice gives the same response and tables as doing it once |
| Store.RollbackBidIdempotent | solution/avito_tender_service/avito_tender_service/tenders/views.py:178-184 | the same for bids |
| Store.RollbackRestoresRecorded | solution/avito_tender_service/avito_tender_service/tenders/views.py:83-86 | rolling back to a version the ledger holds succeeds and restores exactly that row's name and description |
| Store.SnapshotEditRollback | solution/avito_tender_service/avito_tender_service/tenders/tests.py:205-226 | recording the head as a version, then editing it (accepted or not), then rolling back to that version restores the head's name and description |
| Store.TenderStore.constructor | solution/avito_tender_service/avito_tender_service/tenders/models.py:1-117 | a new store has empty tables and satisfies every constraint |
| Store.TenderStore.CreateTender | solution/avito_tender_service/avito_tender_service/tenders/views.py:27-57 | performs the tender creation on the tables, keeps the constraints, and answers 201 on success or the error's status |
| Store.TenderStore.CreateBid | solution/avito_tender_service/avito_tender_service/tenders/views.py:104-136 | performs the bid creation on the tables, keeps the constraints, and answers 200 on success or the error's status |
| Store.TenderStore.UpdateTender | solution/avito_tender_service/avito_tender_service/tenders/views.py:71-74 | performs the tender update on the tables and keeps the constraints |
| Store.TenderStore.UpdateBid | solution/avito_tender_service/avito_tender_service/tenders/views.py:161-170 | performs the owner-checked bid update on the tables and keeps the constraints and the declared bid statuses |
| Store.TenderStore.RollbackTender | solution/avito_tender_service/avito_tender_service/tenders/views.py:77-97 | performs the tender rollback on the tables and keeps the constraints |
| Store.TenderStore.RollbackBid | solution/avito_tender_service/avito_tender_service/tenders/views.py:173-200 | performs the bid rollback on the tables and keeps the constraints |
| Store.TenderStore.AddTenderVersion | solution/avito_tender_service/avito_tender_service/tenders/models.py:66-74 | inserts a tender ledger row as `AddTenderVersionIn` specifies |
| Store.TenderStore.AddBidVersion | solution/avito_tender_service/avito_tender_service/tenders/models.py:95-103 | inserts a bid ledger row as `AddBidVersionIn` specifies |
| Store.TenderStore.AddReview | solution/avito_tender_service/avito_tender_service/tenders/models.py:110-114 | inserts a review as `AddReviewIn` specifies |
| Store.TenderStore.AddOrganization | solution/avito_tender_service/avito_tender_service/tenders/models.py:15-26 | inserts an organization as `AddOrganizationIn` specifies |
| Store.TenderStore.AddEmployee | solution/avito_tender_service/avito_tender_service/tenders/models.py:6-12 | inserts an employee as `AddEmployeeIn` specifies |
| Store.TenderStore.AddUser | solution/avito_tender_service/avito_tender_service/tenders/views.py:118 | inserts a user as `AddUserIn` specifies |
| Findings.BidEditAsWritten | solution/avito_tender_service/avito_tender_service/tenders/views.py:161-170 | as written: PATCH checks the creator, but a full PUT succeeds exactly when the bid exists and the body is valid, whoever sends it |
| Findings.PutIgnoresActor | solution/avito_tender_service/avito_tender_service/tenders/views.py:161-170 | as written, the PUT answer for any user equals the corrected answer for the bid's own creator |
| Findings.StrangerPutAccepted | solution/avito_tender_service/avito_tender_service/tenders/views.py:161-170 | concretely: user 2 rewrites user 1's bid, and takes it over, with a PUT; the corrected view answers 403 and changes nothing |
| Findings.OnlyCreatorEdits | solution/avito_tender_service/avito_tender_service/tenders/views.py:166-170 | corrected: whatever the verb, the tables change only when the acting user is the bid's creator |

## Left out

- HTTP transport is not modelled: routing, JSON parsing and response bodies. Only the status code and the error kind are kept.
- Authentication is outside the model: the logged-in user of `BidUpdateView` is the parameter `actor`.
- UUID generation, the clock and auto-increment keys become parameters (`newId`, `now`, the ids of inserted rows).
- Malformed UUID strings and non-string JSON values are not modelled. Such input raises a validation error before the lookup; here an id is an opaque string and an unknown one is simply not found. The one exception that is modelled is the empty string in a serializer relation field, which reads as NULL: it clears a tender's organization or creator, and it is refused in a bid's required relations.
- Ids in request bodies and query parameters are assumed to arrive in the canonical lower-case hyphenated UUID form, and they are compared as text. Django parses UUID text before comparing, so the service also finds an upper-case, unhyphenated or brace-wrapped spelling of an existing id. This affects the organization and tender lookups of `CreateTenderIn` and `CreateBidIn`, the organization filter of `ListReviews`, and the relation fields of `TenderErrors` and `BidErrors`; the model answers "not found" for such spellings. Ids in URL paths are unaffected, because the route's `uuid` converter admits only the canonical form.
- A JSON null is modelled only where a patch may clear a nullable column (`serviceType`, `organization`, `creator` of a tender).
- Whitespace trimming by serializer character fields is not modelled.
- Queries.ListTenders, Queries.ListUserTenders, Queries.ListUserBids, Queries.ListTenderBids, Queries.ListReviews: the models declare no `Meta.ordering` and the querysets call no `order_by`, so the source returns rows in whatever order the database yields (on PostgreSQL an edited row often moves to the end). The model fixes insertion order, which the service's tests assume; their "table order" clauses state that choice, not a promise of the source.
- Store.CreateTenderIn: the view inserts directly, without the serializer, and nothing checks `choices` on insert, so an undeclared status or service type is stored as given. The column widths (name 255, status 20, service type 50) are enforced only by some database backends, and the model does not enforce them.
- Store.AddOrganizationIn, Store.AddEmployeeIn, Store.AddUserIn, Store.AddTenderVersionIn, Store.AddBidVersionIn: direct inserts do not model column widths. These are organization `type` 3 and `name` 100 (models.py:22, 24), employee `username`, `first_name` and `last_name` 50 each (models.py:8-10), the `username` 150 of Django's own user table, and ledger `name` 255 (models.py:69, 97). Backends such as PostgreSQL refuse longer text; the model stores it.
- Store.AddTenderVersionIn, Store.AddBidVersionIn: version numbers are unbounded integers here. The `IntegerField` and `PositiveIntegerField` columns (models.py:68, 99) are 32-bit on PostgreSQL and MySQL and 64-bit on SQLite, so the source refuses a version beyond that range where the model inserts it.
- `OrganizationResponsible` (models.py:29-35) is not used by any view, and it is not modelled.
- Deleting organizations, employees and users is not modelled; no view deletes anything. Tender and bid cascades are modelled as functions only, with their integrity lemmas.
- The bid-edit route in urls.py:16 names its parameter `bidId`, while the generic view looks up `pk`. As routed, every PUT and PATCH to that view stops in the object lookup with a server error. Routing is not modelled, so the model looks the bid up by its id as the view intends.
- `TenderRollbackView` and `BidRollbackView` accept any version from the route. The model takes any integer, a superset of the route's non-negative numbers.
- Concurrency and transactions are not modelled: each operation is one atomic step.
- Snapshot-on-update and gap-free version numbers are not part of this model, because the code does neither.
- tests.py:75 expects 200 from tender creation; the view answers 201 (views.py:57), and the model follows the view.
- HttpStatus: `IntegrityError` is mapped to 500, the status an unhandled database error gets.
- The ping endpoint, the admin site and the migrations are not part of this model.

## Findings

| source | as written | input that shows it | evidently intended | confidence | as-written member | corrected member |
|---|---|---|---|---|---|---|
| solution/avito_tender_service/avito_tender_service/tenders/views.py:161-170 | `BidUpdateView` overrides only `patch`; the inherited `put` updates the bid without checking its creator | user 2 sends a full PUT to user 1's bid, with `created_by` = 2; the view class saves the edit and the bid changes owner. As routed by urls.py:16, both verbs first fail in the object lookup (see Left out), so the hole opens once the route supplies `pk` | both verbs refuse (403) anyone but the bid's creator | not executed | Findings.StrangerPutAccepted | Store.UpdateBidIn |
