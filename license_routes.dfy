/** The `/licenses` routes over the license collection: a formatted list,
    a create the store may reject, a partial update and a delete that never
    reports a missing license. */
module LicenseRoutes {
  import opened Common
  import opened Dates
  import opened LicenseModel
  import Listing

  /** The outcome of `POST /licenses`: 201 with the saved record, or 500. */
  datatype CreateReply = Created(record: LicenseRecord) | CreateFailed(error: SaveError)
  {
    function Status(): int
    {
      if Created? then 201 else 500
    }
  }

  type UpdateReply = UpdateOutcome<LicenseRecord>

  const DeletedReply := Reply(200, "License deleted")

  type Collection = map<Id, LicenseRecord>

  function RecordId(l: LicenseRecord): Id { l.id }
  function UpdatedAt(l: LicenseRecord): int { l.updatedAt }

  /** The unique index on `licenseNumber`. */
  ghost predicate UniqueLicenseNumbers(m: Collection)
  {
    forall a, b :: a in m && b in m && m[a].doc.licenseNumber == m[b].doc.licenseNumber ==> a == b
  }

  predicate NumberTakenByOther(m: Collection, id: Id, no: string)
  {
    exists k :: k in m && k != id && m[k].doc.licenseNumber == no
  }

  ghost predicate CollectionInvariant(m: Collection, nextId: Id)
  {
    Listing.KeyedBy(m, RecordId) && UniqueLicenseNumbers(m) && forall k :: k in m ==> k < nextId
  }

  /** The reply and effect of `POST /licenses`; `newId` is the id the store
      would hand out. */
  function CreateLicense(m: Collection, newId: Id, body: LicenseJson, parse: DateParser, now: Instant): (CreateReply, Collection)
  {
    match NewLicenseDoc(body, parse)
    case Err(e) => (CreateFailed(e), m)
    case Ok(doc) =>
      if NumberTakenByOther(m, newId, doc.licenseNumber) then (CreateFailed(Duplicate("licenseNumber")), m)
      else
        var rec := LicenseRecord(newId, doc, now, now);
        (Created(rec), m[newId := rec])
  }

  /** The reply and effect of `PUT /licenses/:id`: casts, then the lookup,
      then the unique index. */
  function UpdateLicense(m: Collection, id: Id, body: LicenseJson, parse: DateParser, now: Instant): (UpdateReply, Collection)
  {
    match LicenseUpdateData(body, parse)
    case Err(e) => (ServerError(e), m)
    case Ok(u) =>
      if id !in m then (NotFound, m)
      else if u.licenseNumber.Some? && NumberTakenByOther(m, id, u.licenseNumber.value) then
        (ServerError(Duplicate("licenseNumber")), m)
      else
        var rec := LicenseRecord(id, MergeLicense(m[id].doc, u), m[id].createdAt, now);
        (Updated(rec), m[id := rec])
  }

  function DeleteLicense(m: Collection, id: Id): Collection
  {
    m - {id}
  }

  function ViewAll(s: seq<LicenseRecord>, calendar: Calendar): (r: seq<LicenseView>)
    ensures |r| == |s|
    ensures forall i :: 0 <= i < |s| ==> r[i] == ViewLicense(s[i], calendar)
  {
    seq(|s|, i requires 0 <= i < |s| => ViewLicense(s[i], calendar))
  }

  class LicenseStore {
    var records: Collection
    var nextId: Id

    ghost predicate Valid()
      reads this
    {
      CollectionInvariant(records, nextId)
    }

    constructor ()
      ensures Valid() && records == map[]
    {
      records := map[];
      nextId := 0;
    }

    /** The store's unique-index lookup: a license other than `id` holding `no`. */
    method FindOtherByNumber(id: Id, no: string) returns (found: Option<Id>)
      ensures found.None? <==> !NumberTakenByOther(records, id, no)
      ensures found.Some? ==> found.value in records && found.value != id
                              && records[found.value].doc.licenseNumber == no
    {
      var keys := records.Keys;
      while keys != {}
        invariant keys <= records.Keys
        invariant forall k :: k in records && k !in keys && k != id ==> records[k].doc.licenseNumber != no
        decreases keys
      {
        var k :| k in keys;
        if k != id && records[k].doc.licenseNumber == no {
          return Some(k);
        }
        keys := keys - {k};
      }
      return None;
    }

    /** `GET /licenses`: one view per stored license, most recently
        updated first, each the stored record with its dates formatted. */
    method List(calendar: Calendar) returns (views: seq<LicenseView>)
      requires Valid()
      ensures |views| == |records|
      ensures forall i :: 0 <= i < |views| ==>
                views[i].id in records && views[i] == ViewLicense(records[views[i].id], calendar)
      ensures forall i, j :: 0 <= i < j < |views| && views[i].id in records && views[j].id in records ==>
                records[views[i].id].updatedAt >= records[views[j].id].updatedAt
      ensures forall i, j :: 0 <= i < j < |views| ==> views[i].id != views[j].id
      ensures forall k :: k in records ==> exists i :: 0 <= i < |views| && views[i].id == k
    {
      var sorted := Listing.SortByKeyDesc(records, RecordId, UpdatedAt);
      Listing.StoredEntries(records, RecordId, sorted);
      views := ViewAll(sorted, calendar);
      forall k | k in records
        ensures exists i :: 0 <= i < |views| && views[i].id == k
      {
        assert records[k] in records.Values;
        var i :| 0 <= i < |sorted| && sorted[i] == records[k];
        assert views[i].id == k;
      }
    }

    /** `POST /licenses`: saves the four fields, or reports the rejection
        and stores nothing. */
    method Create(body: LicenseJson, parse: DateParser, now: Instant) returns (reply: CreateReply)
      requires Valid()
      modifies this
      ensures Valid()
      ensures (reply, records) == CreateLicense(old(records), old(nextId), body, parse, now)
    {
      var built := NewLicenseDoc(body, parse);
      if built.Err? {
        return CreateFailed(built.error);
      }
      var holder := FindOtherByNumber(nextId, built.value.licenseNumber);
      if holder.Some? {
        return CreateFailed(Duplicate("licenseNumber"));
      }
      CreatePreservesInvariant(records, nextId, body, parse, now);
      var rec := LicenseRecord(nextId, built.value, now, now);
      records := records[nextId := rec];
      nextId := nextId + 1;
      reply := Created(rec);
    }

    /** `PUT /licenses/:id`: merges the fields present in the body. */
    method Update(id: Id, body: LicenseJson, parse: DateParser, now: Instant) returns (reply: UpdateReply)
      requires Valid()
      modifies this
      ensures Valid()
      ensures nextId == old(nextId)
      ensures (reply, records) == UpdateLicense(old(records), id, body, parse, now)
    {
      var data := LicenseUpdateData(body, parse);
      if data.Err? {
        return ServerError(data.error);
      }
      var u := data.value;
      if id !in records {
        return NotFound;
      }
      if u.licenseNumber.Some? {
        var holder := FindOtherByNumber(id, u.licenseNumber.value);
        if holder.Some? {
          return ServerError(Duplicate("licenseNumber"));
        }
      }
      UpdatePreservesInvariant(records, nextId, id, body, parse, now);
      var rec := LicenseRecord(id, MergeLicense(records[id].doc, u), records[id].createdAt, now);
      records := records[id := rec];
      reply := Updated(rec);
    }

    /** `DELETE /licenses/:id`: always reports success. */
    method Delete(id: Id) returns (reply: Reply)
      requires Valid()
      modifies this
      ensures Valid()
      ensures nextId == old(nextId)
      ensures reply == DeletedReply
      ensures records == DeleteLicense(old(records), id)
    {
      records := records - {id};
      reply := DeletedReply;
    }
  }

  // ---- properties of the operations ----

  lemma CreatePreservesInvariant(m: Collection, newId: Id, body: LicenseJson, parse: DateParser, now: Instant)
    requires CollectionInvariant(m, newId)
    ensures CollectionInvariant(CreateLicense(m, newId, body, parse, now).1, newId + 1)
  {
    var (reply, r) := CreateLicense(m, newId, body, parse, now);
    if reply.Created? {
      assert !NumberTakenByOther(m, newId, reply.record.doc.licenseNumber);
    }
  }

  /** A create either stores exactly one new record, built from the four
      body fields and stamped twice with the same time, or reports 500 and
      stores nothing. */
  lemma CreateOutcomes(m: Collection, newId: Id, body: LicenseJson, parse: DateParser, now: Instant)
    requires CollectionInvariant(m, newId)
    ensures var (reply, r) := CreateLicense(m, newId, body, parse, now);
            && (reply.Status() == 500 <==> r == m)
            && (reply.Created? ==>
                  && newId !in m && r == m[newId := reply.record] && |r| == |m| + 1
                  && reply.record.doc == LicenseDoc(body.holderName.value, body.phone.value,
                                                    parse(body.dob.value), body.licenseNumber.value)
                  && reply.record.createdAt == now && reply.record.updatedAt == now)
  {
    var (reply, r) := CreateLicense(m, newId, body, parse, now);
    if reply.Created? {
      assert newId !in m;
      assert newId in r;
    }
  }

  /** A license is stored only with all four fields present, non-empty,
      and a `dob` that is a date. */
  lemma CreateNeedsAllFields(m: Collection, newId: Id, body: LicenseJson, parse: DateParser, now: Instant)
    requires CreateLicense(m, newId, body, parse, now).0.Created?
    ensures body.holderName.Some? && body.holderName.value != ""
    ensures body.phone.Some? && body.phone.value != ""
    ensures body.licenseNumber.Some? && body.licenseNumber.value != ""
    ensures body.dob.Some? && parse(body.dob.value).Some?
    ensures CreateLicense(m, newId, body, parse, now).0.record.doc.dob.Some?
  {
  }

  /** A `licenseNumber` already stored makes the create fail with the
      store unchanged. */
  lemma DuplicateNumberRejected(m: Collection, newId: Id, body: LicenseJson, parse: DateParser, now: Instant)
    requires CollectionInvariant(m, newId)
    requires body.licenseNumber.Some? && exists k :: k in m && m[k].doc.licenseNumber == body.licenseNumber.value
    ensures CreateLicense(m, newId, body, parse, now).0.CreateFailed?
    ensures CreateLicense(m, newId, body, parse, now).1 == m
  {
    var k :| k in m && m[k].doc.licenseNumber == body.licenseNumber.value;
    assert k != newId;
  }

  lemma UpdatePreservesInvariant(m: Collection, nextId: Id, id: Id, body: LicenseJson, parse: DateParser, now: Instant)
    requires CollectionInvariant(m, nextId)
    ensures CollectionInvariant(UpdateLicense(m, id, body, parse, now).1, nextId)
  {
    var (reply, r) := UpdateLicense(m, id, body, parse, now);
    if reply.Updated? {
      var u := LicenseUpdateData(body, parse).value;
      assert u.licenseNumber.Some? ==> !NumberTakenByOther(m, id, u.licenseNumber.value);
    }
  }

  /** A successful update changes only the fields present in the body,
      keeps `createdAt`, refreshes `updatedAt` and no other record changes. */
  lemma UpdateOnlyGivenFields(m: Collection, id: Id, body: LicenseJson, parse: DateParser, now: Instant)
    requires UpdateLicense(m, id, body, parse, now).0.Updated?
    ensures var (reply, r) := UpdateLicense(m, id, body, parse, now);
            var old_ := m[id].doc;
            var new_ := r[id].doc;
            && id in m && r.Keys == m.Keys && reply.record == r[id]
            && new_.holderName == (if body.holderName.Some? then body.holderName.value else old_.holderName)
            && new_.phone == (if body.phone.Some? then body.phone.value else old_.phone)
            && new_.licenseNumber == (if body.licenseNumber.Some? then body.licenseNumber.value else old_.licenseNumber)
            && (body.dob.None? ==> new_.dob == old_.dob)
            && (body.dob == Some("") ==> new_.dob.None?)
            && (body.dob.Some? && body.dob.value != "" ==> new_.dob == parse(body.dob.value))
            && r[id].createdAt == m[id].createdAt && r[id].updatedAt == now
            && forall k :: k in m && k != id ==> r[k] == m[k]
  {
  }

  /** The four required fields are checked on create only: an update that
      empties the holder's name and the date of birth is stored. */
  lemma UpdateSkipsRequired(m: Collection, id: Id, parse: DateParser, now: Instant)
    requires id in m
    ensures var (reply, r) := UpdateLicense(m, id, LicenseJson(Some(""), None, Some(""), None), parse, now);
            reply.Updated? && id in r && r[id].doc.holderName == "" && r[id].doc.dob.None?
  {
  }

  /** An unknown id gets 404 (or 500 for a `dob` that is no date) and
      nothing changes. */
  lemma UpdateUnknownId(m: Collection, id: Id, body: LicenseJson, parse: DateParser, now: Instant)
    requires id !in m
    ensures UpdateLicense(m, id, body, parse, now).1 == m
    ensures LicenseUpdateData(body, parse).Ok? ==> UpdateLicense(m, id, body, parse, now).0 == NotFound
  {
  }

  /** Delete removes the id, keeps the rest, is a no-op on a missing id and
      is idempotent. */
  lemma DeleteProperties(m: Collection, nextId: Id, id: Id)
    requires CollectionInvariant(m, nextId)
    ensures id !in DeleteLicense(m, id)
    ensures forall k :: k in m && k != id ==> k in DeleteLicense(m, id) && DeleteLicense(m, id)[k] == m[k]
    ensures id !in m ==> DeleteLicense(m, id) == m
    ensures DeleteLicense(DeleteLicense(m, id), id) == DeleteLicense(m, id)
    ensures CollectionInvariant(DeleteLicense(m, id), nextId)
  {
  }
}
