/** The record shapes of the tender service: lookup tables (employees, users,
    organizations), the tender and bid heads, their version ledgers and bid reviews,
    with the declared choice vocabularies, defaults, unique constraints, foreign keys
    and cascade deletion. */
module Models {
  import opened Wrappers
  import opened Seqs

  /** A UUID primary key (Employee, Organization, Tender, Bid), as an opaque string. */
  type Id = string
  /** The auto-increment primary key of the authentication `User` table. */
  type UserId = nat

  /** `kind` is the `type` column: its choices are declared but not checked when a row is
      inserted, so an organization created without a type holds the empty string. */
  datatype Organization = Organization(id: Id, name: string, description: string, kind: string)

  /** A tender creator; `username` is unique across employees. */
  datatype Employee = Employee(id: Id, username: string, firstName: Option<string>, lastName: Option<string>)

  /** A bid creator or review author; `username` is unique across users. */
  datatype User = User(id: UserId, username: string)

  /** A tender head. `serviceType`, `organization` and `creator` are nullable columns;
      `createdAt`/`updatedAt` are clock readings. */
  datatype Tender = Tender(
    id: Id, name: string, description: string, serviceType: Option<string>, status: string,
    organization: Option<Id>, creator: Option<Id>, createdAt: nat, updatedAt: nat)

  /** A row of the tender ledger; its version number is an unconstrained integer. */
  datatype TenderVersion = TenderVersion(tender: Id, version: int, name: string, description: string, createdAt: nat)

  /** A bid head; its tender, organization and creator are required. */
  datatype Bid = Bid(
    id: Id, name: string, description: string, status: string,
    tender: Id, organization: Id, createdBy: UserId, createdAt: nat, updatedAt: nat)

  /** A row of the bid ledger; its version number is a non-negative integer. */
  datatype BidVersion = BidVersion(bid: Id, version: nat, name: string, description: string, createdAt: nat)

  datatype BidReview = BidReview(bid: Id, author: UserId, content: string, createdAt: nat)

  // Choice vocabularies and defaults.
  const OrganizationTypes: set<string> := {"IE", "LLC", "JSC"}
  const ServiceTypes: set<string> := {"Construction", "IT", "Logistics"}
  const TenderStatuses: set<string> := {"Open", "Closed", "In Progress"}
  const BidStatuses: set<string> := {"SUBMITTED", "PUBLISHED", "CANCELED"}
  const DefaultBidStatus: string := "SUBMITTED"
  /** The user a review is attributed to when no author is given. */
  const DefaultReviewAuthor: UserId := 1
  /** `max_length` of the tender and bid `name` columns. */
  const NameMaxLength: nat := 255

  // Keys, one function per column used as a key.
  function OrganizationKey(o: Organization): Id { o.id }
  function EmployeeKey(e: Employee): Id { e.id }
  function EmployeeUsername(e: Employee): string { e.username }
  function UserKey(u: User): UserId { u.id }
  function UserUsername(u: User): string { u.username }
  function TenderKey(t: Tender): Id { t.id }
  function BidKey(b: Bid): Id { b.id }
  function TenderVersionKey(v: TenderVersion): (Id, int) { (v.tender, v.version) }
  function BidVersionKey(v: BidVersion): (Id, nat) { (v.bid, v.version) }

  // The key sets that foreign keys point into.
  function OrganizationIds(os: seq<Organization>): set<Id> { set o | o in os :: o.id }
  function EmployeeIds(es: seq<Employee>): set<Id> { set e | e in es :: e.id }
  function UserIds(us: seq<User>): set<UserId> { set u | u in us :: u.id }
  function TenderIds(ts: seq<Tender>): set<Id> { set t | t in ts :: t.id }
  function BidIds(bs: seq<Bid>): set<Id> { set b | b in bs :: b.id }

  /** The nullable foreign keys of every tender point at existing rows. */
  predicate TenderRefsExist(ts: seq<Tender>, os: seq<Organization>, es: seq<Employee>) {
    forall t :: t in ts ==>
      (t.organization.Some? ==> t.organization.value in OrganizationIds(os)) &&
      (t.creator.Some? ==> t.creator.value in EmployeeIds(es))
  }

  /** The required foreign keys of every bid point at existing rows. */
  predicate BidRefsExist(bs: seq<Bid>, ts: seq<Tender>, os: seq<Organization>, us: seq<User>) {
    forall b :: b in bs ==>
      b.tender in TenderIds(ts) && b.organization in OrganizationIds(os) && b.createdBy in UserIds(us)
  }

  predicate TenderVersionRefsExist(vs: seq<TenderVersion>, ts: seq<Tender>) {
    forall v :: v in vs ==> v.tender in TenderIds(ts)
  }

  predicate BidVersionRefsExist(vs: seq<BidVersion>, bs: seq<Bid>) {
    forall v :: v in vs ==> v.bid in BidIds(bs)
  }

  predicate ReviewRefsExist(rs: seq<BidReview>, bs: seq<Bid>, us: seq<User>) {
    forall r :: r in rs ==> r.bid in BidIds(bs) && r.author in UserIds(us)
  }

  /** The position of the employee with a given username. */
  function FindEmployeeByUsername(es: seq<Employee>, username: string): (r: Option<nat>)
    requires UniqueBy(es, EmployeeUsername)
    ensures r.Some? ==> r.value < |es| && es[r.value].username == username
    ensures r.Some? ==> forall j :: 0 <= j < |es| && es[j].username == username ==> j == r.value
    ensures r.None? <==> forall e :: e in es ==> e.username != username
  {
    FindKey(es, EmployeeUsername, username)
  }

  /** The position of the user with a given username. */
  function FindUserByUsername(us: seq<User>, username: string): (r: Option<nat>)
    requires UniqueBy(us, UserUsername)
    ensures r.Some? ==> r.value < |us| && us[r.value].username == username
    ensures r.Some? ==> forall j :: 0 <= j < |us| && us[j].username == username ==> j == r.value
    ensures r.None? <==> forall u :: u in us ==> u.username != username
  {
    FindKey(us, UserUsername, username)
  }

  /** The position of the tender with a given id. */
  function FindTender(ts: seq<Tender>, id: Id): (r: Option<nat>)
    requires UniqueBy(ts, TenderKey)
    ensures r.Some? ==> r.value < |ts| && ts[r.value].id == id
    ensures r.Some? ==> forall j :: 0 <= j < |ts| && ts[j].id == id ==> j == r.value
    ensures r.None? <==> id !in TenderIds(ts)
  {
    FindKey(ts, TenderKey, id)
  }

  /** The position of the bid with a given id. */
  function FindBid(bs: seq<Bid>, id: Id): (r: Option<nat>)
    requires UniqueBy(bs, BidKey)
    ensures r.Some? ==> r.value < |bs| && bs[r.value].id == id
    ensures r.Some? ==> forall j :: 0 <= j < |bs| && bs[j].id == id ==> j == r.value
    ensures r.None? <==> id !in BidIds(bs)
  {
    FindKey(bs, BidKey, id)
  }

  /** The position of ledger row `(tender, version)`. */
  function FindTenderVersion(vs: seq<TenderVersion>, tender: Id, version: int): (r: Option<nat>)
    requires UniqueBy(vs, TenderVersionKey)
    ensures r.Some? ==> r.value < |vs| && vs[r.value].tender == tender && vs[r.value].version == version
    ensures r.None? <==> forall v :: v in vs ==> !(v.tender == tender && v.version == version)
  {
    FindKey(vs, TenderVersionKey, (tender, version))
  }

  /** The position of ledger row `(bid, version)`. */
  function FindBidVersion(vs: seq<BidVersion>, bid: Id, version: int): (r: Option<nat>)
    requires UniqueBy(vs, BidVersionKey)
    ensures r.Some? ==> r.value < |vs| && vs[r.value].bid == bid && vs[r.value].version == version
    ensures r.None? <==> forall v :: v in vs ==> !(v.bid == bid && v.version == version)
  {
    if version < 0 then
      assert forall v :: v in vs ==> v.version >= 0;
      None
    else FindKey(vs, BidVersionKey, (bid, version as nat))
  }

  /** All tables of the store, each in insertion order, which stands in for the row order
      a query without `ORDER BY` happens to return. */
  datatype Tables = Tables(
    organizations: seq<Organization>, employees: seq<Employee>, users: seq<User>,
    tenders: seq<Tender>, tenderVersions: seq<TenderVersion>,
    bids: seq<Bid>, bidVersions: seq<BidVersion>, reviews: seq<BidReview>)

  /** The database constraints: primary keys, unique usernames, the `(tender, version)`
      and `(bid, version)` unique pairs, and every foreign key. */
  predicate Integrity(db: Tables) {
    && UniqueBy(db.organizations, OrganizationKey)
    && UniqueBy(db.employees, EmployeeKey) && UniqueBy(db.employees, EmployeeUsername)
    && UniqueBy(db.users, UserKey) && UniqueBy(db.users, UserUsername)
    && UniqueBy(db.tenders, TenderKey) && UniqueBy(db.bids, BidKey)
    && UniqueBy(db.tenderVersions, TenderVersionKey) && UniqueBy(db.bidVersions, BidVersionKey)
    && TenderRefsExist(db.tenders, db.organizations, db.employees)
    && TenderVersionRefsExist(db.tenderVersions, db.tenders)
    && BidRefsExist(db.bids, db.tenders, db.organizations, db.users)
    && BidVersionRefsExist(db.bidVersions, db.bids)
    && ReviewRefsExist(db.reviews, db.bids, db.users)
  }

  // Cascade deletion: a tender owns its versions and bids, a bid owns its versions and reviews.

  function TendersWithout(ts: seq<Tender>, id: Id): seq<Tender> { Filter(ts, (t: Tender) => t.id != id) }
  function TenderVersionsWithout(vs: seq<TenderVersion>, id: Id): seq<TenderVersion> {
    Filter(vs, (v: TenderVersion) => v.tender != id)
  }
  /** The ids of the bids placed on tender `id`. */
  function BidIdsOfTender(bs: seq<Bid>, id: Id): set<Id> { set b | b in bs && b.tender == id :: b.id }
  function BidsWithout(bs: seq<Bid>, ids: set<Id>): seq<Bid> { Filter(bs, (b: Bid) => b.id !in ids) }
  function BidVersionsWithout(vs: seq<BidVersion>, ids: set<Id>): seq<BidVersion> {
    Filter(vs, (v: BidVersion) => v.bid !in ids)
  }
  function ReviewsWithout(rs: seq<BidReview>, ids: set<Id>): seq<BidReview> {
    Filter(rs, (r: BidReview) => r.bid !in ids)
  }

  /** Deleting bids `ids` also deletes their versions and reviews; every other row stays. */
  function DeleteBids(db: Tables, ids: set<Id>): (r: Tables)
    ensures forall b :: b in r.bids <==> b in db.bids && b.id !in ids
    ensures forall v :: v in r.bidVersions <==> v in db.bidVersions && v.bid !in ids
    ensures forall rv :: rv in r.reviews <==> rv in db.reviews && rv.bid !in ids
    ensures IsSubseq(r.bids, db.bids) && IsSubseq(r.bidVersions, db.bidVersions) && IsSubseq(r.reviews, db.reviews)
    ensures r == db.(bids := r.bids, bidVersions := r.bidVersions, reviews := r.reviews)
  {
    db.(bids := BidsWithout(db.bids, ids),
        bidVersions := BidVersionsWithout(db.bidVersions, ids),
        reviews := ReviewsWithout(db.reviews, ids))
  }

  /** Deleting a tender also deletes its versions and its bids, with theirs; the lookup tables
      (organizations, employees, users) are untouched. */
  function DeleteTender(db: Tables, id: Id): (r: Tables)
    ensures forall t :: t in r.tenders <==> t in db.tenders && t.id != id
    ensures forall v :: v in r.tenderVersions <==> v in db.tenderVersions && v.tender != id
    ensures forall b :: b in r.bids <==>
      b in db.bids && !(exists c :: c in db.bids && c.tender == id && c.id == b.id)
    ensures forall v :: v in r.bidVersions <==>
      v in db.bidVersions && !(exists b :: b in db.bids && b.tender == id && b.id == v.bid)
    ensures forall rv :: rv in r.reviews <==>
      rv in db.reviews && !(exists b :: b in db.bids && b.tender == id && b.id == rv.bid)
    ensures r.organizations == db.organizations && r.employees == db.employees && r.users == db.users
  {
    DeleteBids(db, BidIdsOfTender(db.bids, id)).(
      tenders := TendersWithout(db.tenders, id),
      tenderVersions := TenderVersionsWithout(db.tenderVersions, id))
  }

  /** With bid ids unique, the bids a tender deletion keeps are exactly those on other tenders. */
  lemma DeleteTenderKeepsOtherBids(db: Tables, id: Id)
    requires UniqueBy(db.bids, BidKey)
    ensures forall b :: b in DeleteTender(db, id).bids <==> b in db.bids && b.tender != id
  {
    forall b | b in db.bids && b.tender != id
      ensures !(exists c :: c in db.bids && c.tender == id && c.id == b.id)
    {
      forall c | c in db.bids && c.id == b.id ensures c.tender != id {
        var i :| 0 <= i < |db.bids| && db.bids[i] == b;
        var j :| 0 <= j < |db.bids| && db.bids[j] == c;
        UniqueByDetermines(db.bids, BidKey, i, j);
      }
    }
  }

  /** A cascade keeps every constraint: no dependent row is left pointing at a deleted bid. */
  lemma DeleteBidsKeepsIntegrity(db: Tables, ids: set<Id>)
    requires Integrity(db)
    ensures Integrity(DeleteBids(db, ids))
  {
    var db' := DeleteBids(db, ids);
    FilterKeepsUnique(db.bids, (b: Bid) => b.id !in ids, BidKey);
    FilterKeepsUnique(db.bidVersions, (v: BidVersion) => v.bid !in ids, BidVersionKey);
    forall v | v in db'.bidVersions ensures v.bid in BidIds(db'.bids) {
      var b :| b in db.bids && b.id == v.bid;
      assert b in db'.bids;
    }
    forall r | r in db'.reviews ensures r.bid in BidIds(db'.bids) {
      var b :| b in db.bids && b.id == r.bid;
      assert b in db'.bids;
    }
  }

  /** Deleting a tender keeps every constraint: nothing is left pointing at it or at its bids. */
  lemma DeleteTenderKeepsIntegrity(db: Tables, id: Id)
    requires Integrity(db)
    ensures Integrity(DeleteTender(db, id))
  {
    var ids := BidIdsOfTender(db.bids, id);
    DeleteBidsKeepsIntegrity(db, ids);
    var db' := DeleteTender(db, id);
    FilterKeepsUnique(db.tenders, (t: Tender) => t.id != id, TenderKey);
    FilterKeepsUnique(db.tenderVersions, (v: TenderVersion) => v.tender != id, TenderVersionKey);
    forall v | v in db'.tenderVersions ensures v.tender in TenderIds(db'.tenders) {
      var t :| t in db.tenders && t.id == v.tender;
      assert t in db'.tenders;
    }
    forall b | b in db'.bids ensures b.tender in TenderIds(db'.tenders) {
      assert b.id !in ids;
      var t :| t in db.tenders && t.id == b.tender;
      assert t in db'.tenders;
    }
  }

  // The bid ledger's default ordering: by version, newest first.

  predicate NewestFirst(vs: seq<BidVersion>) {
    forall i, j :: 0 <= i < j < |vs| ==> vs[i].version >= vs[j].version
  }

  /** Putting a row in front of a newest-first ledger whose versions are all no greater keeps it newest first. */
  lemma ConsNewestFirst(v: BidVersion, vs: seq<BidVersion>)
    requires NewestFirst(vs)
    requires forall x :: x in vs ==> x.version <= v.version
    ensures NewestFirst([v] + vs)
  {
    var r := [v] + vs;
    forall i, j | 0 <= i < j < |r| ensures r[i].version >= r[j].version {
      assert r[j] == vs[j - 1];
      if i > 0 {
        assert r[i] == vs[i - 1];
      }
    }
  }

  function InsertNewestFirst(v: BidVersion, vs: seq<BidVersion>): (r: seq<BidVersion>)
    requires NewestFirst(vs)
    ensures NewestFirst(r)
    ensures multiset(r) == multiset(vs) + multiset{v}
    ensures forall x :: x in r ==> x in vs || x == v
  {
    if vs == [] || vs[0].version <= v.version then
      assert forall x :: x in vs ==> x.version <= v.version by {
        forall x | x in vs ensures x.version <= v.version {
          var k :| 0 <= k < |vs| && vs[k] == x;
          if k > 0 {
            assert vs[0].version >= vs[k].version;
          }
        }
      }
      ConsNewestFirst(v, vs);
      [v] + vs
    else
      var tail := vs[1..];
      assert NewestFirst(tail) by {
        forall i, j | 0 <= i < j < |tail| ensures tail[i].version >= tail[j].version {
          assert tail[i] == vs[i + 1] && tail[j] == vs[j + 1];
        }
      }
      var rest := InsertNewestFirst(v, tail);
      assert vs == [vs[0]] + tail;
      assert forall x :: x in rest ==> x.version <= vs[0].version by {
        forall x | x in rest ensures x.version <= vs[0].version {
          if x != v {
            var k :| 0 <= k < |tail| && tail[k] == x;
            assert vs[k + 1] == x;
          }
        }
      }
      ConsNewestFirst(vs[0], rest);
      [vs[0]] + rest
  }

  function SortNewestFirst(vs: seq<BidVersion>): (r: seq<BidVersion>)
    ensures NewestFirst(r)
    ensures multiset(r) == multiset(vs)
  {
    if vs == [] then []
    else
      assert vs == [vs[0]] + vs[1..];
      InsertNewestFirst(vs[0], SortNewestFirst(vs[1..]))
  }

  function VersionsOfBid(vs: seq<BidVersion>, bid: Id): seq<BidVersion> {
    Filter(vs, (v: BidVersion) => v.bid == bid)
  }

  /** `bid.versions.all()`: the ledger rows of one bid, newest first. */
  function BidVersionHistory(vs: seq<BidVersion>, bid: Id): (r: seq<BidVersion>)
    ensures NewestFirst(r)
    ensures forall v :: v in r <==> v in vs && v.bid == bid
    ensures multiset(r) == multiset(VersionsOfBid(vs, bid))
  {
    var own := VersionsOfBid(vs, bid);
    var r := SortNewestFirst(own);
    assert forall v :: v in r <==> v in own by {
      forall v ensures v in r <==> v in own {
        assert v in r <==> v in multiset(r);
        assert v in own <==> v in multiset(own);
      }
    }
    r
  }

  /** A row occurs at most once in a table with a unique key. */
  lemma {:induction false} UniqueRowsOccurOnce<T(!new), K>(s: seq<T>, key: T -> K, x: T)
    requires UniqueBy(s, key)
    ensures multiset(s)[x] <= 1
  {
    if s != [] {
      var tail := s[1..];
      assert s == [s[0]] + tail;
      assert UniqueBy(tail, key) by {
        forall i, j | 0 <= i < j < |tail| ensures key(tail[i]) != key(tail[j]) {
          assert tail[i] == s[i + 1] && tail[j] == s[j + 1];
        }
      }
      UniqueRowsOccurOnce(tail, key, x);
      if x == s[0] {
        forall k | 0 <= k < |tail| ensures tail[k] != x {
          assert key(s[0]) != key(s[k + 1]);
        }
        assert x !in tail;
      }
    }
  }

  /** Two positions holding the same row make it occur twice. */
  lemma RepeatedRowOccursTwice<T>(s: seq<T>, i: nat, j: nat)
    requires i < j < |s| && s[i] == s[j]
    ensures multiset(s)[s[i]] >= 2
  {
    assert s == s[..j] + s[j..];
    assert s[i] in s[..j];
    assert s[j] == s[j..][0];
  }

  /** Because `(bid, version)` is unique, a bid's history is strictly newest first:
      no two rows of it carry the same version number. */
  lemma HistoryStrictlyNewestFirst(vs: seq<BidVersion>, bid: Id)
    requires UniqueBy(vs, BidVersionKey)
    ensures forall i, j :: 0 <= i < j < |BidVersionHistory(vs, bid)| ==>
      BidVersionHistory(vs, bid)[i].version > BidVersionHistory(vs, bid)[j].version
  {
    var r := BidVersionHistory(vs, bid);
    var own := VersionsOfBid(vs, bid);
    FilterKeepsUnique(vs, (v: BidVersion) => v.bid == bid, BidVersionKey);
    assert multiset(r) == multiset(own);
    forall i, j | 0 <= i < j < |r| ensures r[i].version > r[j].version {
      if r[i].version == r[j].version {
        var a :| 0 <= a < |vs| && vs[a] == r[i];
        var b :| 0 <= b < |vs| && vs[b] == r[j];
        assert BidVersionKey(vs[a]) == BidVersionKey(vs[b]);
        UniqueByDetermines(vs, BidVersionKey, a, b);
        RepeatedRowOccursTwice(r, i, j);
        UniqueRowsOccurOnce(own, BidVersionKey, r[i]);
        assert false;
      }
    }
  }
}
