/** `BidUpdateView` overrides only `patch` with the creator check; a PUT reaches the
    inherited generic update, which performs no such check. This module models the view
    as written, exhibits a stranger's accepted PUT, and relates it to the corrected
    `Store.UpdateBidIn`, which checks ownership on both verbs. */
module Findings {
  import opened Wrappers
  import opened Seqs
  import opened Models
  import opened Responses
  import opened Store

  /** The view as written: PATCH (`partial`) checks the creator, PUT does not. */
  function BidEditAsWritten(db: Tables, id: Id, p: BidPatch, partial: bool, actor: UserId, now: nat)
    : (out: Outcome<Bid>)
    requires Integrity(db)
    ensures Integrity(out.db)
    ensures partial ==> out == UpdateBidIn(db, id, p, partial, actor, now)
    ensures !partial ==>
      (out.result.Ok? <==> id in BidIds(db.bids) && BidErrors(p, false, db) == [])
  {
    if partial then UpdateBidIn(db, id, p, partial, actor, now)
    else SaveBidEdit(db, id, p, false, now)
  }

  /** A full PUT by anyone is the corrected view's answer for the bid's own creator. */
  lemma PutIgnoresActor(db: Tables, id: Id, p: BidPatch, actor: UserId, now: nat, b: Bid)
    requires Integrity(db) && b in db.bids && b.id == id
    ensures BidEditAsWritten(db, id, p, false, actor, now) == UpdateBidIn(db, id, p, false, b.createdBy, now)
  {
  }

  // A database with one bid, placed by user 1.

  const Acme := Organization("org-1", "Acme", "", "LLC")
  const Alice := User(1, "alice")
  const Bob := User(2, "bob")
  const Roadworks := Tender("tender-1", "Roadworks", "", Some("Construction"), "Open", Some("org-1"), None, 0, 0)
  const AliceBid := Bid("bid-1", "Offer", "", "SUBMITTED", "tender-1", "org-1", 1, 0, 0)
  const Sample := Tables([Acme], [], [Alice, Bob], [Roadworks], [], [AliceBid], [], [])

  /** A complete body, as a PUT must send. */
  const FullBody := BidPatch(Some("Rival"), Some("New"), None, Some("tender-1"), Some("org-1"), Some(2))

  lemma SampleIntegrity()
    ensures Integrity(Sample)
  {
    assert Sample.organizations[0].id == "org-1";
    assert Sample.tenders[0].id == "tender-1";
    assert Sample.users[1].id == 2;
    assert AliceBid.tender in TenderIds(Sample.tenders);
    assert AliceBid.organization in OrganizationIds(Sample.organizations);
    assert AliceBid.createdBy in UserIds(Sample.users);
    assert Roadworks.organization.value in OrganizationIds(Sample.organizations);
  }

  /** The serializer accepts the body on a full update. */
  lemma FullBodyAccepted()
    ensures BidErrors(FullBody, false, Sample) == []
  {
    assert "tender-1" in TenderIds(Sample.tenders) by { assert Sample.tenders[0].id == "tender-1"; }
    assert "org-1" in OrganizationIds(Sample.organizations) by { assert Sample.organizations[0].id == "org-1"; }
    assert 2 in UserIds(Sample.users) by { assert Sample.users[1].id == 2; }
    assert !CharFieldRejects(FullBody.name, false, Some(NameMaxLength));
    assert !CharFieldRejects(FullBody.description, false, None);
    assert forall f :: !BidFieldRejects(FullBody, false, Sample, f);
  }

  /** User 2 rewrites user 1's bid with a PUT, and even takes over its `created_by`; the
      corrected view answers 403 and changes nothing. */
  lemma StrangerPutAccepted()
    ensures Integrity(Sample)
    ensures Sample.bids[0].createdBy != Bob.id
    ensures var out := BidEditAsWritten(Sample, "bid-1", FullBody, false, Bob.id, 7);
            out.result.Ok? && out.result.value.createdBy == Bob.id && out.result.value.name == "Rival"
    ensures UpdateBidIn(Sample, "bid-1", FullBody, false, Bob.id, 7) == Outcome(Err(Forbidden), Sample)
  {
    SampleIntegrity();
    FullBodyAccepted();
    assert Sample.bids[0].id == "bid-1";
  }

  /** In the corrected view, whatever the verb, only the bid's creator gets a change through. */
  lemma OnlyCreatorEdits(db: Tables, id: Id, p: BidPatch, partial: bool, actor: UserId, now: nat)
    requires Integrity(db)
    ensures var out := UpdateBidIn(db, id, p, partial, actor, now);
            out.db != db ==> exists b :: b in db.bids && b.id == id && b.createdBy == actor
  {
  }
}
