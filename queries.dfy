/** The read side of the views: list endpoints as filters over the tables. The querysets
    carry no ordering, and the model fixes one: each list keeps the tables' insertion order. */
module Queries {
  import opened Wrappers
  import opened Seqs
  import opened Models
  import opened Responses

  /** Python truthiness of an optional query parameter: absent or the empty string. */
  predicate Blank(p: Option<string>) {
    p.None? || p.value == ""
  }

  function TendersOfServiceType(tenders: seq<Tender>, serviceType: string): seq<Tender> {
    Filter(tenders, (t: Tender) => t.serviceType == Some(serviceType))
  }

  /** `TenderListView`: every tender, or those of the requested service type when the
      `serviceType` parameter is non-empty. */
  function ListTenders(tenders: seq<Tender>, serviceType: Option<string>): (r: seq<Tender>)
    ensures IsSubseq(r, tenders)
    ensures Blank(serviceType) ==> r == tenders
    ensures !Blank(serviceType) ==>
      forall t :: t in r <==> t in tenders && t.serviceType == serviceType
  {
    if Blank(serviceType) then SubseqReflexive(tenders); tenders
    else TendersOfServiceType(tenders, serviceType.value)
  }

  /** The tender's creator is an employee with this username (the `creator__username` join). */
  predicate CreatedByEmployeeNamed(t: Tender, employees: seq<Employee>, username: string) {
    exists e :: e in employees && t.creator == Some(e.id) && e.username == username
  }

  function TendersCreatedBy(tenders: seq<Tender>, employees: seq<Employee>, username: string): seq<Tender> {
    Filter(tenders, (t: Tender) => CreatedByEmployeeNamed(t, employees, username))
  }

  /** `UserTenderListView`: the tenders whose creator has the given username; a missing or
      empty `username` is answered with 404. */
  function ListUserTenders(tenders: seq<Tender>, employees: seq<Employee>, username: Option<string>)
    : (r: Result<seq<Tender>, Error>)
    ensures r.Err? <==> Blank(username)
    ensures r.Err? ==> r.error == NotFound("Username parameter is required")
    ensures r.Ok? ==> IsSubseq(r.value, tenders)
    ensures r.Ok? ==> forall t :: t in r.value <==>
      t in tenders && exists e :: e in employees && t.creator == Some(e.id) && Some(e.username) == username
  {
    if Blank(username) then Err(NotFound("Username parameter is required"))
    else Ok(TendersCreatedBy(tenders, employees, username.value))
  }

  function BidsCreatedBy(bids: seq<Bid>, user: UserId): seq<Bid> {
    Filter(bids, (b: Bid) => b.createdBy == user)
  }

  /** `UserBidsListView`: resolve `username` to a user, then that user's bids; a missing,
      empty or unknown username gives no bids. */
  function ListUserBids(bids: seq<Bid>, users: seq<User>, username: Option<string>): (r: seq<Bid>)
    requires UniqueBy(users, UserUsername)
    ensures IsSubseq(r, bids)
    ensures Blank(username) ==> r == []
    ensures !Blank(username) && (forall u :: u in users ==> u.username != username.value) ==> r == []
    ensures !Blank(username) ==> forall b :: b in r <==>
      b in bids && exists u :: u in users && u.id == b.createdBy && u.username == username.value
  {
    if Blank(username) then []
    else match FindUserByUsername(users, username.value)
      case None => []
      case Some(k) =>
        var r := BidsCreatedBy(bids, users[k].id);
        assert forall b :: b in r <==>
          b in bids && exists u :: u in users && u.id == b.createdBy && u.username == username.value by {
          forall b ensures b in r <==>
            b in bids && exists u :: u in users && u.id == b.createdBy && u.username == username.value {
            if b in bids && exists u :: u in users && u.id == b.createdBy && u.username == username.value {
              var u :| u in users && u.id == b.createdBy && u.username == username.value;
              var j :| 0 <= j < |users| && users[j] == u;
              assert j == k;
            }
          }
        }
        r
  }

  /** `TenderBidsListView`: the bids placed on a tender. */
  function ListTenderBids(bids: seq<Bid>, tenderId: Id): (r: seq<Bid>)
    ensures IsSubseq(r, bids)
    ensures forall b :: b in r <==> b in bids && b.tender == tenderId
  {
    Filter(bids, (b: Bid) => b.tender == tenderId)
  }

  /** The three conditions of `BidReviewsView`: the review's bid is on tender `tenderId` and
      belongs to organization `organizationId`, and its author has username `authorUsername`.
      An absent parameter becomes an `IS NULL` test on a column that is never NULL, so it
      matches no row. */
  predicate ReviewMatches(r: BidReview, bids: seq<Bid>, users: seq<User>,
                          tenderId: Id, authorUsername: Option<string>, organizationId: Option<Id>) {
    && (exists b :: b in bids && b.id == r.bid && b.tender == tenderId && Some(b.organization) == organizationId)
    && (exists u :: u in users && u.id == r.author && Some(u.username) == authorUsername)
  }

  /** `BidReviewsView.get`: the reviews meeting all three conditions. */
  function ListReviews(reviews: seq<BidReview>, bids: seq<Bid>, users: seq<User>,
                       tenderId: Id, authorUsername: Option<string>, organizationId: Option<Id>)
    : (r: seq<BidReview>)
    ensures IsSubseq(r, reviews)
    ensures authorUsername.None? || organizationId.None? ==> r == []
    ensures forall rv :: rv in r <==>
      rv in reviews && ReviewMatches(rv, bids, users, tenderId, authorUsername, organizationId)
  {
    var p := (rv: BidReview) => ReviewMatches(rv, bids, users, tenderId, authorUsername, organizationId);
    assert authorUsername.None? || organizationId.None? ==> Filter(reviews, p) == [] by {
      if authorUsername.None? || organizationId.None? {
        FilterNone(reviews, p);
      }
    }
    Filter(reviews, p)
  }

  /** With primary keys unique, a review is listed exactly when its own bid is on the tender
      and in the organization and its own author has the username. */
  lemma ReviewListedIff(reviews: seq<BidReview>, bids: seq<Bid>, users: seq<User>,
                        tenderId: Id, authorUsername: Option<string>, organizationId: Option<Id>,
                        rv: BidReview, b: Bid, u: User)
    requires UniqueBy(bids, BidKey) && UniqueBy(users, UserKey)
    requires rv in reviews && b in bids && b.id == rv.bid && u in users && u.id == rv.author
    ensures rv in ListReviews(reviews, bids, users, tenderId, authorUsername, organizationId) <==>
      b.tender == tenderId && Some(b.organization) == organizationId && Some(u.username) == authorUsername
  {
    var i :| 0 <= i < |bids| && bids[i] == b;
    var j :| 0 <= j < |users| && users[j] == u;
    if exists b' :: b' in bids && b'.id == rv.bid && b'.tender == tenderId && Some(b'.organization) == organizationId {
      var b' :| b' in bids && b'.id == rv.bid && b'.tender == tenderId && Some(b'.organization) == organizationId;
      var i' :| 0 <= i' < |bids| && bids[i'] == b';
      assert BidKey(bids[i]) == BidKey(bids[i']);
      UniqueByDetermines(bids, BidKey, i, i');
    }
    if exists u' :: u' in users && u'.id == rv.author && Some(u'.username) == authorUsername {
      var u' :| u' in users && u'.id == rv.author && Some(u'.username) == authorUsername;
      var j' :| 0 <= j' < |users| && users[j'] == u';
      assert UserKey(users[j]) == UserKey(users[j']);
      UniqueByDetermines(users, UserKey, j, j');
    }
  }
}
