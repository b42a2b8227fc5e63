/** The write side of the views: creating, editing and rolling back tenders and bids, plus
    the direct inserts that fill the lookup tables and the version ledgers. Each operation is
    first specified as a function from the tables before the request to its response and
    the tables after it; class `TenderStore` then performs it step by step on its tables. */
module Store {
  import opened Wrappers
  import opened Seqs
  import opened Models
  import opened Responses
  import opened Queries

  // Request bodies. `None` is a key the request does not carry.

  datatype TenderRequest = TenderRequest(
    name: Option<string>, description: Option<string>, serviceType: Option<string>,
    status: Option<string>, organizationId: Option<Id>, creatorUsername: Option<string>)

  datatype BidRequest = BidRequest(
    name: Option<string>, description: Option<string>, status: Option<string>,
    tenderId: Option<Id>, organizationId: Option<Id>, creatorUsername: Option<string>)

  /** A tender edit: `None` leaves a field alone, `Some(None)` sets a nullable column to NULL. */
  datatype TenderPatch = TenderPatch(
    name: Option<string>, description: Option<string>, serviceType: Option<Option<string>>,
    status: Option<string>, organization: Option<Option<Id>>, creator: Option<Option<Id>>)

  /** A bid edit, and the validated data of a bid creation. */
  datatype BidPatch = BidPatch(
    name: Option<string>, description: Option<string>, status: Option<string>,
    tender: Option<Id>, organization: Option<Id>, createdBy: Option<UserId>)

  /** What an operation answers, with the tables it leaves behind. */
  datatype Outcome<T> = Outcome(result: Result<T, Error>, db: Tables)

  // Serializer validation. A field missing from the data is an error only when the field is
  // required, which it never is in a partial update.

  /** A `CharField` that does not allow blank text, with an optional `max_length`; like every
      serializer character field it also refuses text containing a NUL character. */
  predicate CharFieldRejects(v: Option<string>, partial: bool, maxLength: Option<nat>) {
    match v
    case None => !partial
    case Some(s) => s == "" || '\0' in s || (maxLength.Some? && |s| > maxLength.value)
  }

  predicate ChoiceFieldRejects(v: Option<string>, required: bool, choices: set<string>) {
    match v
    case None => required
    case Some(s) => s !in choices
  }

  /** A choice field on a nullable column: NULL is accepted. */
  predicate NullableChoiceRejects(v: Option<Option<string>>, choices: set<string>) {
    v.Some? && v.value.Some? && v.value.value !in choices
  }

  /** A primary-key field: the key must exist. DRF reads an empty string as NULL, which a
      required relation refuses, so `""` is refused whatever the table holds. */
  predicate RelatedFieldRejects(v: Option<Id>, required: bool, keys: set<Id>) {
    match v
    case None => required
    case Some(k) => k == "" || k !in keys
  }

  /** The user primary-key field: the key must exist. */
  predicate UserFieldRejects(v: Option<UserId>, required: bool, keys: set<UserId>) {
    match v
    case None => required
    case Some(k) => k !in keys
  }

  /** DRF's relational fields read an empty string as NULL. */
  function BlankAsNull(v: Option<Option<Id>>): (r: Option<Option<Id>>)
    ensures r.None? <==> v.None?
    ensures r == Some(None) <==> v == Some(None) || v == Some(Some(""))
    ensures r.Some? && r.value.Some? ==> r == v && r.value.value != ""
  {
    if v == Some(Some("")) then Some(None) else v
  }

  /** A primary-key field on a nullable foreign key: NULL, and so an empty string, is accepted. */
  predicate NullableRelatedRejects(v: Option<Option<Id>>, keys: set<Id>) {
    var w := BlankAsNull(v);
    w.Some? && w.value.Some? && w.value.value !in keys
  }

  function Field(name: FieldName, rejected: bool): (r: seq<FieldName>)
    ensures forall f :: f in r <==> rejected && f == name
  {
    if rejected then [name] else []
  }

  /** Whether `TenderSerializer` rejects field `f` of an edit. The name must be non-blank
      text of at most 255 characters and the description non-blank; `status` is one of its
      choices and required on a full update; the other columns are nullable and so never
      required, and accept NULL, a declared service type and existing rows respectively; an
      empty string in a relation counts as NULL. */
  predicate TenderFieldRejects(p: TenderPatch, partial: bool, db: Tables, f: FieldName) {
    match f
    case NameField => CharFieldRejects(p.name, partial, Some(NameMaxLength))
    case DescriptionField => CharFieldRejects(p.description, partial, None)
    case ServiceTypeField => NullableChoiceRejects(p.serviceType, ServiceTypes)
    case StatusField => ChoiceFieldRejects(p.status, !partial, TenderStatuses)
    case OrganizationField => NullableRelatedRejects(p.organization, OrganizationIds(db.organizations))
    case CreatorField => NullableRelatedRejects(p.creator, EmployeeIds(db.employees))
    case _ => false
  }

  /** The fields `TenderSerializer` rejects, in declaration order. */
  function TenderErrors(p: TenderPatch, partial: bool, db: Tables): (r: seq<FieldName>)
    ensures forall f :: f in r <==> TenderFieldRejects(p, partial, db, f)
  {
    Field(NameField, TenderFieldRejects(p, partial, db, NameField))
    + Field(DescriptionField, TenderFieldRejects(p, partial, db, DescriptionField))
    + Field(ServiceTypeField, TenderFieldRejects(p, partial, db, ServiceTypeField))
    + Field(StatusField, TenderFieldRejects(p, partial, db, StatusField))
    + Field(OrganizationField, TenderFieldRejects(p, partial, db, OrganizationField))
    + Field(CreatorField, TenderFieldRejects(p, partial, db, CreatorField))
  }

  /** Whether `BidSerializer` rejects field `f`. Name and description as for tenders;
      `status` has a model default and so is never required, but must be one of its choices;
      the tender, organization and creator must exist and are required on a full update, and
      an empty string there is a NULL the relation refuses. */
  predicate BidFieldRejects(p: BidPatch, partial: bool, db: Tables, f: FieldName) {
    match f
    case NameField => CharFieldRejects(p.name, partial, Some(NameMaxLength))
    case DescriptionField => CharFieldRejects(p.description, partial, None)
    case StatusField => ChoiceFieldRejects(p.status, false, BidStatuses)
    case TenderField => RelatedFieldRejects(p.tender, !partial, TenderIds(db.tenders))
    case OrganizationField => RelatedFieldRejects(p.organization, !partial, OrganizationIds(db.organizations))
    case CreatedByField => UserFieldRejects(p.createdBy, !partial, UserIds(db.users))
    case _ => false
  }

  /** The fields `BidSerializer` rejects, in declaration order. */
  function BidErrors(p: BidPatch, partial: bool, db: Tables): (r: seq<FieldName>)
    ensures forall f :: f in r <==> BidFieldRejects(p, partial, db, f)
  {
    Field(NameField, BidFieldRejects(p, partial, db, NameField))
    + Field(DescriptionField, BidFieldRejects(p, partial, db, DescriptionField))
    + Field(StatusField, BidFieldRejects(p, partial, db, StatusField))
    + Field(TenderField, BidFieldRejects(p, partial, db, TenderField))
    + Field(OrganizationField, BidFieldRejects(p, partial, db, OrganizationField))
    + Field(CreatedByField, BidFieldRejects(p, partial, db, CreatedByField))
  }

  /** Every bid status is one of the declared choices: the only ways a bid is written,
      creation and edit, go through `BidSerializer`. */
  predicate BidStatusesDeclared(bs: seq<Bid>) {
    forall b :: b in bs ==> b.status in BidStatuses
  }

  /** Overwriting one bid with a declared status keeps every status declared. */
  lemma ReplaceKeepsBidStatuses(bs: seq<Bid>, i: nat, b: Bid)
    requires i < |bs|
    ensures BidStatusesDeclared(bs) && b.status in BidStatuses ==> BidStatusesDeclared(bs[i := b])
  {
    forall c | BidStatusesDeclared(bs) && b.status in BidStatuses && c in bs[i := b]
      ensures c.status in BidStatuses
    {
      var j :| 0 <= j < |bs[i := b]| && bs[i := b][j] == c;
      if j != i {
        assert c in bs;
      }
    }
  }

  /** A tender edit that sends an empty string for the organization clears it. */
  lemma BlankOrganizationClears(db: Tables, id: Id, now: nat)
    requires Integrity(db) && id in TenderIds(db.tenders)
    ensures var out := UpdateTenderIn(db, id, TenderPatch(None, None, None, None, Some(Some("")), None), true, now);
            out.result.Ok? && out.result.value.organization == None
  {
  }

  // Head updates.

  /** The serializer's update: each field in the patch is assigned, an empty relation as
      NULL, then `save()` stamps the clock. */
  function MergeTender(t: Tender, p: TenderPatch, now: nat): Tender {
    t.(name := p.name.GetOr(t.name), description := p.description.GetOr(t.description),
       serviceType := p.serviceType.GetOr(t.serviceType), status := p.status.GetOr(t.status),
       organization := BlankAsNull(p.organization).GetOr(t.organization),
       creator := BlankAsNull(p.creator).GetOr(t.creator),
       updatedAt := now)
  }

  function MergeBid(b: Bid, p: BidPatch, now: nat): Bid {
    b.(name := p.name.GetOr(b.name), description := p.description.GetOr(b.description),
       status := p.status.GetOr(b.status), tender := p.tender.GetOr(b.tender),
       organization := p.organization.GetOr(b.organization), createdBy := p.createdBy.GetOr(b.createdBy),
       updatedAt := now)
  }

  /** Rollback copies the ledger row's name and description onto the head and saves it. */
  function TenderRolledBack(t: Tender, v: TenderVersion, now: nat): Tender {
    t.(name := v.name, description := v.description, updatedAt := now)
  }

  function BidRolledBack(b: Bid, v: BidVersion, now: nat): Bid {
    b.(name := v.name, description := v.description, updatedAt := now)
  }

  /** Appending a tender that refers to existing rows keeps every constraint. */
  lemma AppendTenderKeepsIntegrity(db: Tables, t: Tender)
    requires Integrity(db) && t.id !in TenderIds(db.tenders)
    requires t.organization.Some? ==> t.organization.value in OrganizationIds(db.organizations)
    requires t.creator.Some? ==> t.creator.value in EmployeeIds(db.employees)
    ensures Integrity(db.(tenders := db.tenders + [t]))
  {
    AppendKeepsUnique(db.tenders, t, TenderKey);
    assert TenderIds(db.tenders) <= TenderIds(db.tenders + [t]);
  }

  /** Overwriting a tender head with one of the same id that refers to existing rows keeps every constraint. */
  lemma ReplaceTenderKeepsIntegrity(db: Tables, i: nat, t: Tender)
    requires Integrity(db) && i < |db.tenders| && t.id == db.tenders[i].id
    requires t.organization.Some? ==> t.organization.value in OrganizationIds(db.organizations)
    requires t.creator.Some? ==> t.creator.value in EmployeeIds(db.employees)
    ensures Integrity(db.(tenders := db.tenders[i := t]))
  {
    ReplaceKeepsUnique(db.tenders, i, t, TenderKey);
    var ts' := db.tenders[i := t];
    assert TenderIds(ts') == TenderIds(db.tenders) by {
      forall x | x in TenderIds(db.tenders) ensures x in TenderIds(ts') {
        var j :| 0 <= j < |db.tenders| && db.tenders[j].id == x;
        assert ts'[j].id == x;
      }
    }
  }

  lemma AppendBidKeepsIntegrity(db: Tables, b: Bid)
    requires Integrity(db) && b.id !in BidIds(db.bids)
    requires b.tender in TenderIds(db.tenders) && b.organization in OrganizationIds(db.organizations)
    requires b.createdBy in UserIds(db.users)
    ensures Integrity(db.(bids := db.bids + [b]))
  {
    AppendKeepsUnique(db.bids, b, BidKey);
    assert BidIds(db.bids) <= BidIds(db.bids + [b]);
  }

  lemma ReplaceBidKeepsIntegrity(db: Tables, i: nat, b: Bid)
    requires Integrity(db) && i < |db.bids| && b.id == db.bids[i].id
    requires b.tender in TenderIds(db.tenders) && b.organization in OrganizationIds(db.organizations)
    requires b.createdBy in UserIds(db.users)
    ensures Integrity(db.(bids := db.bids[i := b]))
  {
    ReplaceKeepsUnique(db.bids, i, b, BidKey);
    var bs' := db.bids[i := b];
    assert BidIds(bs') == BidIds(db.bids) by {
      forall x | x in BidIds(db.bids) ensures x in BidIds(bs') {
        var j :| 0 <= j < |db.bids| && db.bids[j].id == x;
        assert bs'[j].id == x;
      }
    }
  }

  // The operations, as functions of the tables.

  /** `TenderCreateView.create`: four checks in a fixed order, each failing with 400 and
      writing nothing, then an insert whose absent text fields default to the empty string. */
  function CreateTenderIn(db: Tables, req: TenderRequest, newId: Id, now: nat): (out: Outcome<Tender>)
    requires Integrity(db)
    ensures Integrity(out.db) && out.db.bids == db.bids
    ensures out.result.Err? ==> out.db == db
    ensures Blank(req.organizationId) ==> out.result == Err(BadRequest("organization is required"))
    ensures !Blank(req.organizationId) && Blank(req.creatorUsername) ==>
      out.result == Err(BadRequest("creator is required"))
    ensures (!Blank(req.organizationId) && !Blank(req.creatorUsername)
             && req.organizationId.value !in OrganizationIds(db.organizations)) ==>
      out.result == Err(BadRequest("Organization not found"))
    ensures (!Blank(req.organizationId) && !Blank(req.creatorUsername)
             && req.organizationId.value in OrganizationIds(db.organizations)
             && forall e :: e in db.employees ==> e.username != req.creatorUsername.value) ==>
      out.result == Err(BadRequest("Employee not found"))
    ensures out.result.Ok? <==>
      && !Blank(req.organizationId) && !Blank(req.creatorUsername)
      && req.organizationId.value in OrganizationIds(db.organizations)
      && (exists e :: e in db.employees && e.username == req.creatorUsername.value)
      && newId !in TenderIds(db.tenders)
    ensures out.result.Err? && out.result.error == IntegrityError ==> newId in TenderIds(db.tenders)
    ensures out.result.Ok? ==>
      var t := out.result.value;
      && out.db == db.(tenders := db.tenders + [t])
      && t.id == newId && t.name == req.name.GetOr("") && t.description == req.description.GetOr("")
      && t.serviceType == Some(req.serviceType.GetOr("")) && t.status == req.status.GetOr("")
      && t.organization == req.organizationId
      && (exists e :: e in db.employees && t.creator == Some(e.id) && Some(e.username) == req.creatorUsername)
      && t.createdAt == now && t.updatedAt == now
  {
    if Blank(req.organizationId) then Outcome(Err(BadRequest("organization is required")), db)
    else if Blank(req.creatorUsername) then Outcome(Err(BadRequest("creator is required")), db)
    else if req.organizationId.value !in OrganizationIds(db.organizations) then
      Outcome(Err(BadRequest("Organization not found")), db)
    else match FindEmployeeByUsername(db.employees, req.creatorUsername.value)
      case None => Outcome(Err(BadRequest("Employee not found")), db)
      case Some(k) =>
        if newId in TenderIds(db.tenders) then Outcome(Err(IntegrityError), db)
        else
          var t := Tender(newId, req.name.GetOr(""), req.description.GetOr(""),
                          Some(req.serviceType.GetOr("")), req.status.GetOr(""),
                          req.organizationId, Some(db.employees[k].id), now, now);
          AppendTenderKeepsIntegrity(db, t);
          Outcome(Ok(t), db.(tenders := db.tenders + [t]))
  }

  /** The data `BidCreateView` hands to the serializer: the request's text fields, the status
      defaulting to SUBMITTED, and the resolved references. */
  function BidData(req: BidRequest, user: UserId): BidPatch {
    BidPatch(req.name, req.description, Some(req.status.GetOr(DefaultBidStatus)),
             req.tenderId, req.organizationId, Some(user))
  }

  /** The three lookups of `BidCreateView` succeed, and the creator is `u`. */
  predicate BidReferencesResolve(db: Tables, req: BidRequest, u: User) {
    && req.tenderId.Some? && req.tenderId.value in TenderIds(db.tenders)
    && req.organizationId.Some? && req.organizationId.value in OrganizationIds(db.organizations)
    && u in db.users && Some(u.username) == req.creatorUsername
  }

  /** `BidCreateView.create`: the tender, organization and creator are looked up in that
      order, each miss failing with 404; the serializer then validates the data (400) and the
      row is inserted. */
  function CreateBidIn(db: Tables, req: BidRequest, newId: Id, now: nat): (out: Outcome<Bid>)
    requires Integrity(db)
    ensures Integrity(out.db) && out.db.tenders == db.tenders
    ensures BidStatusesDeclared(db.bids) ==> BidStatusesDeclared(out.db.bids)
    ensures out.result.Err? ==> out.db == db
    ensures (req.tenderId.None? || req.tenderId.value !in TenderIds(db.tenders)) ==>
      out.result == Err(NotFound("Tender not found"))
    ensures (req.tenderId.Some? && req.tenderId.value in TenderIds(db.tenders)
             && (req.organizationId.None? || req.organizationId.value !in OrganizationIds(db.organizations))) ==>
      out.result == Err(NotFound("Organization not found"))
    ensures (req.tenderId.Some? && req.tenderId.value in TenderIds(db.tenders)
             && req.organizationId.Some? && req.organizationId.value in OrganizationIds(db.organizations)
             && (req.creatorUsername.None? || forall u :: u in db.users ==> u.username != req.creatorUsername.value)) ==>
      out.result == Err(NotFound("Creator not found"))
    ensures out.result.Err? && out.result.error.Invalid? ==>
      exists u :: u in db.users && Some(u.username) == req.creatorUsername
        && out.result.error.fields == BidErrors(BidData(req, u.id), false, db) != []
    ensures forall u :: BidReferencesResolve(db, req, u) && BidErrors(BidData(req, u.id), false, db) != [] ==>
      out.result == Err(Invalid(BidErrors(BidData(req, u.id), false, db)))
    ensures out.result.Ok? <==>
      && newId !in BidIds(db.bids)
      && exists u :: BidReferencesResolve(db, req, u) && BidErrors(BidData(req, u.id), false, db) == []
    ensures out.result == Err(IntegrityError) ==> newId in BidIds(db.bids)
    ensures out.result.Ok? ==>
      var b := out.result.value;
      && out.db == db.(bids := db.bids + [b])
      && b.id == newId && newId !in BidIds(db.bids)
      && Some(b.name) == req.name && b.name != "" && |b.name| <= NameMaxLength
      && Some(b.description) == req.description && b.description != ""
      && b.status == req.status.GetOr(DefaultBidStatus) && b.status in BidStatuses
      && Some(b.tender) == req.tenderId && Some(b.organization) == req.organizationId
      && (exists u :: u in db.users && u.id == b.createdBy && Some(u.username) == req.creatorUsername)
      && b.createdAt == now && b.updatedAt == now
  {
    if req.tenderId.None? || req.tenderId.value !in TenderIds(db.tenders) then
      Outcome(Err(NotFound("Tender not found")), db)
    else if req.organizationId.None? || req.organizationId.value !in OrganizationIds(db.organizations) then
      Outcome(Err(NotFound("Organization not found")), db)
    else if req.creatorUsername.None? then Outcome(Err(NotFound("Creator not found")), db)
    else match FindUserByUsername(db.users, req.creatorUsername.value)
      case None => Outcome(Err(NotFound("Creator not found")), db)
      case Some(k) =>
        assert forall u :: BidReferencesResolve(db, req, u) ==> u == db.users[k] by {
          forall u | BidReferencesResolve(db, req, u) ensures u == db.users[k] {
            var j :| 0 <= j < |db.users| && db.users[j] == u;
          }
        }
        var data := BidData(req, db.users[k].id);
        var errors := BidErrors(data, false, db);
        if errors != [] then Outcome(Err(Invalid(errors)), db)
        else if newId in BidIds(db.bids) then Outcome(Err(IntegrityError), db)
        else
          var b := Bid(newId, req.name.value, req.description.value, data.status.value,
                       req.tenderId.value, req.organizationId.value, db.users[k].id, now, now);
          AppendBidKeepsIntegrity(db, b);
          Outcome(Ok(b), db.(bids := db.bids + [b]))
  }

  /** `TenderUpdateView` (a generic update, with no ownership check): look the tender up
      (404), validate the body (400), then assign the fields it carries. The version ledger
      is not touched. A PATCH is `partial`; a PUT must carry name, description and status. */
  function UpdateTenderIn(db: Tables, id: Id, p: TenderPatch, partial: bool, now: nat): (out: Outcome<Tender>)
    requires Integrity(db)
    ensures Integrity(out.db)
    ensures out.result.Err? ==> out.db == db
    ensures id !in TenderIds(db.tenders) ==> out.result == Err(ObjectNotFound)
    ensures id in TenderIds(db.tenders) && TenderErrors(p, partial, db) != [] ==>
      out.result == Err(Invalid(TenderErrors(p, partial, db)))
    ensures out.result.Ok? <==> id in TenderIds(db.tenders) && TenderErrors(p, partial, db) == []
    ensures out.result.Ok? ==>
      exists i :: 0 <= i < |db.tenders| && db.tenders[i].id == id && (
        var (was, t) := (db.tenders[i], out.result.value);
        && out.db == db.(tenders := db.tenders[i := t])
        && t.id == id && t.createdAt == was.createdAt && t.updatedAt == now
        && t.name == p.name.GetOr(was.name) && t.description == p.description.GetOr(was.description)
        && t.serviceType == p.serviceType.GetOr(was.serviceType) && t.status == p.status.GetOr(was.status)
        && t.organization == BlankAsNull(p.organization).GetOr(was.organization)
        && t.creator == BlankAsNull(p.creator).GetOr(was.creator))
  {
    match FindTender(db.tenders, id)
    case None => Outcome(Err(ObjectNotFound), db)
    case Some(i) =>
      var errors := TenderErrors(p, partial, db);
      if errors != [] then Outcome(Err(Invalid(errors)), db)
      else
        var t := MergeTender(db.tenders[i], p, now);
        ReplaceTenderKeepsIntegrity(db, i, t);
        Outcome(Ok(t), db.(tenders := db.tenders[i := t]))
  }

  /** The generic update behind `BidUpdateView`: look the bid up (404), validate the body
      (400), then assign the fields it carries. */
  function SaveBidEdit(db: Tables, id: Id, p: BidPatch, partial: bool, now: nat): (out: Outcome<Bid>)
    requires Integrity(db)
    ensures Integrity(out.db)
    ensures BidStatusesDeclared(db.bids) ==> BidStatusesDeclared(out.db.bids)
    ensures out.result.Err? ==> out.db == db
    ensures id !in BidIds(db.bids) ==> out.result == Err(ObjectNotFound)
    ensures id in BidIds(db.bids) && BidErrors(p, partial, db) != [] ==>
      out.result == Err(Invalid(BidErrors(p, partial, db)))
    ensures out.result.Ok? <==> id in BidIds(db.bids) && BidErrors(p, partial, db) == []
    ensures out.result.Ok? ==>
      exists i :: 0 <= i < |db.bids| && db.bids[i].id == id && (
        var (was, b) := (db.bids[i], out.result.value);
        && out.db == db.(bids := db.bids[i := b])
        && b.id == id && b.createdAt == was.createdAt && b.updatedAt == now
        && b.name == p.name.GetOr(was.name) && b.description == p.description.GetOr(was.description)
        && b.status == p.status.GetOr(was.status) && b.tender == p.tender.GetOr(was.tender)
        && b.organization == p.organization.GetOr(was.organization) && b.createdBy == p.createdBy.GetOr(was.createdBy))
  {
    match FindBid(db.bids, id)
    case None => Outcome(Err(ObjectNotFound), db)
    case Some(i) =>
      var errors := BidErrors(p, partial, db);
      if errors != [] then Outcome(Err(Invalid(errors)), db)
      else
        var b := MergeBid(db.bids[i], p, now);
        ReplaceBidKeepsIntegrity(db, i, b);
        Outcome(Ok(b), db.(bids := db.bids[i := b]))
  }

  /** `BidUpdateView`: after the bid is found, an acting user other than its creator gets 403
      and nothing changes; the creator's edit then proceeds as a generic update. */
  function UpdateBidIn(db: Tables, id: Id, p: BidPatch, partial: bool, actor: UserId, now: nat): (out: Outcome<Bid>)
    requires Integrity(db)
    ensures Integrity(out.db)
    ensures BidStatusesDeclared(db.bids) ==> BidStatusesDeclared(out.db.bids)
    ensures out.result.Err? ==> out.db == db
    ensures id !in BidIds(db.bids) ==> out.result == Err(ObjectNotFound)
    ensures forall b :: b in db.bids && b.id == id && b.createdBy != actor ==> out.result == Err(Forbidden)
    ensures out.result.Ok? ==> exists b :: b in db.bids && b.id == id && b.createdBy == actor
    ensures forall b :: b in db.bids && b.id == id && b.createdBy == actor ==>
      out == SaveBidEdit(db, id, p, partial, now)
  {
    match FindBid(db.bids, id)
    case None => Outcome(Err(ObjectNotFound), db)
    case Some(i) =>
      if db.bids[i].createdBy != actor then Outcome(Err(Forbidden), db)
      else SaveBidEdit(db, id, p, partial, now)
  }

  /** `TenderRollbackView.put`: the ledger row `(id, version)` is looked up; if it exists its
      name and description are copied onto the tender, which is saved and returned; otherwise
      404 and nothing changes. Only the head is written: the ledger and every other table,
      and every other column of the head, stay as they were. */
  function RollbackTenderIn(db: Tables, id: Id, version: int, now: nat): (out: Outcome<Tender>)
    requires Integrity(db)
    ensures Integrity(out.db)
    ensures out.db == db.(tenders := out.db.tenders)
    ensures out.result.Ok? <==> exists v :: v in db.tenderVersions && v.tender == id && v.version == version
    ensures out.result.Err? ==> out.result.error == NotFound("Version not found") && out.db == db
    ensures out.result.Ok? ==> exists i, v ::
      && 0 <= i < |db.tenders| && db.tenders[i].id == id
      && v in db.tenderVersions && v.tender == id && v.version == version
      && var t := out.result.value;
      && out.db.tenders == db.tenders[i := t]
      && t.name == v.name && t.description == v.description && t.updatedAt == now
      && t.(name := db.tenders[i].name, description := db.tenders[i].description,
            updatedAt := db.tenders[i].updatedAt) == db.tenders[i]
  {
    match FindTenderVersion(db.tenderVersions, id, version)
    case None => Outcome(Err(NotFound("Version not found")), db)
    case Some(k) =>
      var v := db.tenderVersions[k];
      assert v in db.tenderVersions;
      var i := FindTender(db.tenders, id).value;
      var t := TenderRolledBack(db.tenders[i], v, now);
      ReplaceTenderKeepsIntegrity(db, i, t);
      Outcome(Ok(t), db.(tenders := db.tenders[i := t]))
  }

  /** `BidRollbackView.put`: as for tenders, on the bid ledger. */
  function RollbackBidIn(db: Tables, id: Id, version: int, now: nat): (out: Outcome<Bid>)
    requires Integrity(db)
    ensures Integrity(out.db)
    ensures BidStatusesDeclared(db.bids) ==> BidStatusesDeclared(out.db.bids)
    ensures out.db == db.(bids := out.db.bids)
    ensures out.result.Ok? <==> exists v :: v in db.bidVersions && v.bid == id && v.version == version
    ensures out.result.Err? ==> out.result.error == NotFound("Version not found") && out.db == db
    ensures out.result.Ok? ==> exists i, v ::
      && 0 <= i < |db.bids| && db.bids[i].id == id
      && v in db.bidVersions && v.bid == id && v.version == version
      && var b := out.result.value;
      && out.db.bids == db.bids[i := b]
      && b.name == v.name && b.description == v.description && b.updatedAt == now
      && b.(name := db.bids[i].name, description := db.bids[i].description,
            updatedAt := db.bids[i].updatedAt) == db.bids[i]
  {
    match FindBidVersion(db.bidVersions, id, version)
    case None => Outcome(Err(NotFound("Version not found")), db)
    case Some(k) =>
      var v := db.bidVersions[k];
      assert v in db.bidVersions;
      var i := FindBid(db.bids, id).value;
      var b := BidRolledBack(db.bids[i], v, now);
      ReplaceBidKeepsIntegrity(db, i, b);
      assert db.bids[i] in db.bids;
      ReplaceKeepsBidStatuses(db.bids, i, b);
      Outcome(Ok(b), db.(bids := db.bids[i := b]))
  }

  /** A direct insert into the tender ledger. The foreign key and the `(tender, version)`
      unique pair are enforced by the database. */
  function AddTenderVersionIn(db: Tables, tender: Id, version: int, name: string, description: string, now: nat)
    : (out: Outcome<TenderVersion>)
    requires Integrity(db)
    ensures Integrity(out.db)
    ensures out.result.Ok? <==>
      tender in TenderIds(db.tenders) && forall v :: v in db.tenderVersions ==> !(v.tender == tender && v.version == version)
    ensures out.result.Err? ==> out.result == Err(IntegrityError) && out.db == db
    ensures out.result.Ok? ==>
      out.result.value == TenderVersion(tender, version, name, description, now)
      && out.db == db.(tenderVersions := db.tenderVersions + [out.result.value])
  {
    if tender !in TenderIds(db.tenders) then Outcome(Err(IntegrityError), db)
    else match FindTenderVersion(db.tenderVersions, tender, version)
      case Some(_) => Outcome(Err(IntegrityError), db)
      case None =>
        var v := TenderVersion(tender, version, name, description, now);
        AppendKeepsUnique(db.tenderVersions, v, TenderVersionKey);
        Outcome(Ok(v), db.(tenderVersions := db.tenderVersions + [v]))
  }

  /** A direct insert into the bid ledger. Besides the foreign key and the `(bid, version)`
      unique pair, the database rejects a negative version number. */
  function AddBidVersionIn(db: Tables, bid: Id, version: int, name: string, description: string, now: nat)
    : (out: Outcome<BidVersion>)
    requires Integrity(db)
    ensures Integrity(out.db) && out.db.bids == db.bids
    ensures out.result.Ok? <==>
      && version >= 0 && bid in BidIds(db.bids)
      && forall v :: v in db.bidVersions ==> !(v.bid == bid && v.version == version)
    ensures out.result.Err? ==> out.result == Err(IntegrityError) && out.db == db
    ensures out.result.Ok? ==>
      && version >= 0 && out.result.value == BidVersion(bid, version as nat, name, description, now)
      && out.db == db.(bidVersions := db.bidVersions + [out.result.value])
  {
    if version < 0 || bid !in BidIds(db.bids) then Outcome(Err(IntegrityError), db)
    else match FindBidVersion(db.bidVersions, bid, version)
      case Some(_) => Outcome(Err(IntegrityError), db)
      case None =>
        var v := BidVersion(bid, version as nat, name, description, now);
        AppendKeepsUnique(db.bidVersions, v, BidVersionKey);
        Outcome(Ok(v), db.(bidVersions := db.bidVersions + [v]))
  }

  /** A direct insert into the review table; the author defaults to user 1. */
  function AddReviewIn(db: Tables, bid: Id, author: Option<UserId>, content: string, now: nat)
    : (out: Outcome<BidReview>)
    requires Integrity(db)
    ensures Integrity(out.db) && out.db.bids == db.bids
    ensures out.result.Ok? <==> bid in BidIds(db.bids) && author.GetOr(DefaultReviewAuthor) in UserIds(db.users)
    ensures out.result.Err? ==> out.result == Err(IntegrityError) && out.db == db
    ensures out.result.Ok? ==>
      out.result.value == BidReview(bid, author.GetOr(DefaultReviewAuthor), content, now)
      && out.db == db.(reviews := db.reviews + [out.result.value])
  {
    var r := BidReview(bid, author.GetOr(DefaultReviewAuthor), content, now);
    if bid in BidIds(db.bids) && r.author in UserIds(db.users) then Outcome(Ok(r), db.(reviews := db.reviews + [r]))
    else Outcome(Err(IntegrityError), db)
  }

  /** A direct insert into the organization table. */
  function AddOrganizationIn(db: Tables, o: Organization): (out: Outcome<Organization>)
    requires Integrity(db)
    ensures Integrity(out.db) && out.db.bids == db.bids
    ensures out.result.Ok? <==> o.id !in OrganizationIds(db.organizations)
    ensures out.result.Err? ==> out.result == Err(IntegrityError) && out.db == db
    ensures out.result.Ok? ==> out.result.value == o && out.db == db.(organizations := db.organizations + [o])
  {
    if o.id in OrganizationIds(db.organizations) then Outcome(Err(IntegrityError), db)
    else
      AppendKeepsUnique(db.organizations, o, OrganizationKey);
      assert OrganizationIds(db.organizations) <= OrganizationIds(db.organizations + [o]);
      Outcome(Ok(o), db.(organizations := db.organizations + [o]))
  }

  /** A direct insert into the employee table; the id and the username must both be new. */
  function AddEmployeeIn(db: Tables, e: Employee): (out: Outcome<Employee>)
    requires Integrity(db)
    ensures Integrity(out.db) && out.db.bids == db.bids
    ensures out.result.Ok? <==> e.id !in EmployeeIds(db.employees) && forall x :: x in db.employees ==> x.username != e.username
    ensures out.result.Err? ==> out.result == Err(IntegrityError) && out.db == db
    ensures out.result.Ok? ==> out.result.value == e && out.db == db.(employees := db.employees + [e])
  {
    if e.id in EmployeeIds(db.employees) || FindEmployeeByUsername(db.employees, e.username).Some? then
      Outcome(Err(IntegrityError), db)
    else
      AppendKeepsUnique(db.employees, e, EmployeeKey);
      AppendKeepsUnique(db.employees, e, EmployeeUsername);
      assert EmployeeIds(db.employees) <= EmployeeIds(db.employees + [e]);
      Outcome(Ok(e), db.(employees := db.employees + [e]))
  }

  /** A direct insert into the user table; the id and the username must both be new. */
  function AddUserIn(db: Tables, u: User): (out: Outcome<User>)
    requires Integrity(db)
    ensures Integrity(out.db) && out.db.bids == db.bids
    ensures out.result.Ok? <==> u.id !in UserIds(db.users) && forall x :: x in db.users ==> x.username != u.username
    ensures out.result.Err? ==> out.result == Err(IntegrityError) && out.db == db
    ensures out.result.Ok? ==> out.result.value == u && out.db == db.(users := db.users + [u])
  {
    if u.id in UserIds(db.users) || FindUserByUsername(db.users, u.username).Some? then
      Outcome(Err(IntegrityError), db)
    else
      AppendKeepsUnique(db.users, u, UserKey);
      AppendKeepsUnique(db.users, u, UserUsername);
      assert UserIds(db.users) <= UserIds(db.users + [u]);
      Outcome(Ok(u), db.(users := db.users + [u]))
  }

  // Properties relating several operations.

  /** Rolling back to the same version twice in a row gives the same answer and the same
      tables as doing it once. */
  lemma RollbackTenderIdempotent(db: Tables, id: Id, version: int, now: nat)
    requires Integrity(db)
    ensures var once := RollbackTenderIn(db, id, version, now);
            RollbackTenderIn(once.db, id, version, now) == once
  {
    var once := RollbackTenderIn(db, id, version, now);
    match FindTenderVersion(db.tenderVersions, id, version)
    case None =>
    case Some(k) =>
      var i := FindTender(db.tenders, id).value;
      assert once.db.tenders == db.tenders[i := once.result.value];
      assert FindTender(once.db.tenders, id) == Some(i);
  }

  lemma RollbackBidIdempotent(db: Tables, id: Id, version: int, now: nat)
    requires Integrity(db)
    ensures var once := RollbackBidIn(db, id, version, now);
            RollbackBidIn(once.db, id, version, now) == once
  {
    var once := RollbackBidIn(db, id, version, now);
    match FindBidVersion(db.bidVersions, id, version)
    case None =>
    case Some(k) =>
      var i := FindBid(db.bids, id).value;
      assert once.db.bids == db.bids[i := once.result.value];
      assert FindBid(once.db.bids, id) == Some(i);
  }

  /** A rollback to a version the ledger holds succeeds and restores exactly that row's
      name and description: the key `(tender, version)` names one row. */
  lemma RollbackRestoresRecorded(db: Tables, v: TenderVersion, now: nat)
    requires Integrity(db) && v in db.tenderVersions
    ensures var out := RollbackTenderIn(db, v.tender, v.version, now);
            out.result.Ok? && out.result.value.name == v.name && out.result.value.description == v.description
  {
    var vs := db.tenderVersions;
    var k := FindTenderVersion(vs, v.tender, v.version).value;
    var l :| 0 <= l < |vs| && vs[l] == v;
    UniqueByDetermines(vs, TenderVersionKey, k, l);
  }

  /** Editing never writes the ledger, so a snapshot of the head recorded under a new version
      number before an edit still restores the head's name and description afterwards,
      whether or not the edit was accepted. */
  lemma SnapshotEditRollback(db: Tables, i: nat, n: int, p: TenderPatch, partial: bool, t1: nat, t2: nat, t3: nat)
    requires Integrity(db) && i < |db.tenders|
    requires forall v :: v in db.tenderVersions ==> !(v.tender == db.tenders[i].id && v.version == n)
    ensures var head := db.tenders[i];
            var recorded := AddTenderVersionIn(db, head.id, n, head.name, head.description, t1);
            var edited := UpdateTenderIn(recorded.db, head.id, p, partial, t2);
            var restored := RollbackTenderIn(edited.db, head.id, n, t3);
            && recorded.result.Ok? && restored.result.Ok?
            && restored.result.value.name == head.name && restored.result.value.description == head.description
  {
    var head := db.tenders[i];
    assert head.id in TenderIds(db.tenders);
    var recorded := AddTenderVersionIn(db, head.id, n, head.name, head.description, t1);
    var edited := UpdateTenderIn(recorded.db, head.id, p, partial, t2);
    var snapshot := TenderVersion(head.id, n, head.name, head.description, t1);
    assert edited.db.tenderVersions == db.tenderVersions + [snapshot];
    assert snapshot in edited.db.tenderVersions;
    RollbackRestoresRecorded(edited.db, snapshot, t3);
  }

  /** The service's database: one sequence per table, in insertion order. */
  class TenderStore {
    var organizations: seq<Organization>
    var employees: seq<Employee>
    var users: seq<User>
    var tenders: seq<Tender>
    var tenderVersions: seq<TenderVersion>
    var bids: seq<Bid>
    var bidVersions: seq<BidVersion>
    var reviews: seq<BidReview>

    function State(): Tables
      reads this
    {
      Tables(organizations, employees, users, tenders, tenderVersions, bids, bidVersions, reviews)
    }

    /** The database constraints, and the declared statuses the views keep for bids. */
    predicate Valid()
      reads this
    {
      Integrity(State()) && BidStatusesDeclared(bids)
    }

    constructor ()
      ensures Valid()
      ensures State() == Tables([], [], [], [], [], [], [], [])
    {
      organizations, employees, users := [], [], [];
      tenders, tenderVersions := [], [];
      bids, bidVersions, reviews := [], [], [];
    }

    /** `TenderCreateView.create`; `code` is the response status. */
    method CreateTender(req: TenderRequest, newId: Id, now: nat) returns (r: Result<Tender, Error>, code: int)
      requires Valid()
      modifies this
      ensures Valid()
      ensures Outcome(r, State()) == CreateTenderIn(old(State()), req, newId, now)
      ensures code == if r.Ok? then TenderCreatedStatus else HttpStatus(r.error)
    {
      var organizationId, username := req.organizationId, req.creatorUsername;
      if Blank(organizationId) {
        r := Err(BadRequest("organization is required"));
      } else if Blank(username) {
        r := Err(BadRequest("creator is required"));
      } else if organizationId.value !in OrganizationIds(organizations) {
        r := Err(BadRequest("Organization not found"));
      } else {
        var k := FindEmployeeByUsername(employees, username.value);
        if k.None? {
          r := Err(BadRequest("Employee not found"));
        } else if newId in TenderIds(tenders) {
          r := Err(IntegrityError);
        } else {
          var t := Tender(newId, req.name.GetOr(""), req.description.GetOr(""),
                          Some(req.serviceType.GetOr("")), req.status.GetOr(""),
                          organizationId, Some(employees[k.value].id), now, now);
          tenders := tenders + [t];
          r := Ok(t);
        }
      }
      assert Outcome(r, State()) == CreateTenderIn(old(State()), req, newId, now);
      code := if r.Ok? then TenderCreatedStatus else HttpStatus(r.error);
    }

    /** `BidCreateView.create`; `code` is the response status. */
    method CreateBid(req: BidRequest, newId: Id, now: nat) returns (r: Result<Bid, Error>, code: int)
      requires Valid()
      modifies this
      ensures Valid()
      ensures Outcome(r, State()) == CreateBidIn(old(State()), req, newId, now)
      ensures code == if r.Ok? then SuccessStatus else HttpStatus(r.error)
    {
      if req.tenderId.None? || req.tenderId.value !in TenderIds(tenders) {
        r := Err(NotFound("Tender not found"));
      } else if req.organizationId.None? || req.organizationId.value !in OrganizationIds(organizations) {
        r := Err(NotFound("Organization not found"));
      } else if req.creatorUsername.None? {
        r := Err(NotFound("Creator not found"));
      } else {
        var k := FindUserByUsername(users, req.creatorUsername.value);
        if k.None? {
          r := Err(NotFound("Creator not found"));
        } else {
          var data := BidData(req, users[k.value].id);
          var errors := BidErrors(data, false, State());
          if errors != [] {
            r := Err(Invalid(errors));
          } else if newId in BidIds(bids) {
            r := Err(IntegrityError);
          } else {
            var b := Bid(newId, req.name.value, req.description.value, data.status.value,
                         req.tenderId.value, req.organizationId.value, users[k.value].id, now, now);
            bids := bids + [b];
            r := Ok(b);
          }
        }
      }
      assert Outcome(r, State()) == CreateBidIn(old(State()), req, newId, now);
      code := if r.Ok? then SuccessStatus else HttpStatus(r.error);
    }

    /** `TenderUpdateView`: PATCH when `partial`, PUT otherwise. */
    method UpdateTender(id: Id, p: TenderPatch, partial: bool, now: nat) returns (r: Result<Tender, Error>)
      requires Valid()
      modifies this
      ensures Valid()
      ensures Outcome(r, State()) == UpdateTenderIn(old(State()), id, p, partial, now)
    {
      var i := FindTender(tenders, id);
      if i.None? {
        r := Err(ObjectNotFound);
      } else {
        var errors := TenderErrors(p, partial, State());
        if errors != [] {
          r := Err(Invalid(errors));
        } else {
          var t := MergeTender(tenders[i.value], p, now);
          tenders := tenders[i.value := t];
          r := Ok(t);
        }
      }
      assert Outcome(r, State()) == UpdateTenderIn(old(State()), id, p, partial, now);
    }

    /** `BidUpdateView` with the creator check on both verbs, on behalf of the authenticated
        user `actor`: the corrected view. As written, a PUT skips the check; that behaviour
        is `Findings.BidEditAsWritten`. */
    method UpdateBid(id: Id, p: BidPatch, partial: bool, actor: UserId, now: nat) returns (r: Result<Bid, Error>)
      requires Valid()
      modifies this
      ensures Valid()
      ensures Outcome(r, State()) == UpdateBidIn(old(State()), id, p, partial, actor, now)
    {
      var i := FindBid(bids, id);
      if i.None? {
        r := Err(ObjectNotFound);
      } else if bids[i.value].createdBy != actor {
        r := Err(Forbidden);
      } else {
        var errors := BidErrors(p, partial, State());
        if errors != [] {
          r := Err(Invalid(errors));
        } else {
          assert bids[i.value] in bids;
          var b := MergeBid(bids[i.value], p, now);
          bids := bids[i.value := b];
          r := Ok(b);
          assert Outcome(r, State()) == SaveBidEdit(old(State()), id, p, partial, now);
        }
      }
      assert Outcome(r, State()) == UpdateBidIn(old(State()), id, p, partial, actor, now);
    }

    /** `TenderRollbackView.put`. */
    method RollbackTender(id: Id, version: int, now: nat) returns (r: Result<Tender, Error>)
      requires Valid()
      modifies this
      ensures Valid()
      ensures Outcome(r, State()) == RollbackTenderIn(old(State()), id, version, now)
    {
      var k := FindTenderVersion(tenderVersions, id, version);
      if k.None? {
        r := Err(NotFound("Version not found"));
      } else {
        var v := tenderVersions[k.value];
        assert v in tenderVersions;
        var i := FindTender(tenders, v.tender).value;
        var t := TenderRolledBack(tenders[i], v, now);
        tenders := tenders[i := t];
        r := Ok(t);
      }
      assert Outcome(r, State()) == RollbackTenderIn(old(State()), id, version, now);
    }

    /** `BidRollbackView.put`. */
    method RollbackBid(id: Id, version: int, now: nat) returns (r: Result<Bid, Error>)
      requires Valid()
      modifies this
      ensures Valid()
      ensures Outcome(r, State()) == RollbackBidIn(old(State()), id, version, now)
    {
      var k := FindBidVersion(bidVersions, id, version);
      if k.None? {
        r := Err(NotFound("Version not found"));
      } else {
        var v := bidVersions[k.value];
        assert v in bidVersions;
        var i := FindBid(bids, v.bid).value;
        var b := BidRolledBack(bids[i], v, now);
        bids := bids[i := b];
        r := Ok(b);
      }
      assert Outcome(r, State()) == RollbackBidIn(old(State()), id, version, now);
    }

    method AddTenderVersion(tender: Id, version: int, name: string, description: string, now: nat)
      returns (r: Result<TenderVersion, Error>)
      requires Valid()
      modifies this
      ensures Valid()
      ensures Outcome(r, State()) == AddTenderVersionIn(old(State()), tender, version, name, description, now)
    {
      if tender !in TenderIds(tenders) || FindTenderVersion(tenderVersions, tender, version).Some? {
        r := Err(IntegrityError);
      } else {
        var v := TenderVersion(tender, version, name, description, now);
        tenderVersions := tenderVersions + [v];
        r := Ok(v);
      }
      assert Outcome(r, State()) == AddTenderVersionIn(old(State()), tender, version, name, description, now);
    }

    method AddBidVersion(bid: Id, version: int, name: string, description: string, now: nat)
      returns (r: Result<BidVersion, Error>)
      requires Valid()
      modifies this
      ensures Valid()
      ensures Outcome(r, State()) == AddBidVersionIn(old(State()), bid, version, name, description, now)
    {
      if version < 0 || bid !in BidIds(bids) || FindBidVersion(bidVersions, bid, version).Some? {
        r := Err(IntegrityError);
      } else {
        var v := BidVersion(bid, version as nat, name, description, now);
        bidVersions := bidVersions + [v];
        r := Ok(v);
      }
      assert Outcome(r, State()) == AddBidVersionIn(old(State()), bid, version, name, description, now);
    }

    method AddReview(bid: Id, author: Option<UserId>, content: string, now: nat) returns (r: Result<BidReview, Error>)
      requires Valid()
      modifies this
      ensures Valid()
      ensures Outcome(r, State()) == AddReviewIn(old(State()), bid, author, content, now)
    {
      var review := BidReview(bid, author.GetOr(DefaultReviewAuthor), content, now);
      if bid in BidIds(bids) && review.author in UserIds(users) {
        reviews := reviews + [review];
        r := Ok(review);
      } else {
        r := Err(IntegrityError);
      }
      assert Outcome(r, State()) == AddReviewIn(old(State()), bid, author, content, now);
    }

    method AddOrganization(o: Organization) returns (r: Result<Organization, Error>)
      requires Valid()
      modifies this
      ensures Valid()
      ensures Outcome(r, State()) == AddOrganizationIn(old(State()), o)
    {
      if o.id in OrganizationIds(organizations) {
        r := Err(IntegrityError);
      } else {
        organizations := organizations + [o];
        r := Ok(o);
      }
      assert Outcome(r, State()) == AddOrganizationIn(old(State()), o);
    }

    method AddEmployee(e: Employee) returns (r: Result<Employee, Error>)
      requires Valid()
      modifies this
      ensures Valid()
      ensures Outcome(r, State()) == AddEmployeeIn(old(State()), e)
    {
      if e.id in EmployeeIds(employees) || FindEmployeeByUsername(employees, e.username).Some? {
        r := Err(IntegrityError);
      } else {
        employees := employees + [e];
        r := Ok(e);
      }
      assert Outcome(r, State()) == AddEmployeeIn(old(State()), e);
    }

    method AddUser(u: User) returns (r: Result<User, Error>)
      requires Valid()
      modifies this
      ensures Valid()
      ensures Outcome(r, State()) == AddUserIn(old(State()), u)
    {
      if u.id in UserIds(users) || FindUserByUsername(users, u.username).Some? {
        r := Err(IntegrityError);
      } else {
        users := users + [u];
        r := Ok(u);
      }
      assert Outcome(r, State()) == AddUserIn(old(State()), u);
    }
  }
}
