/** The `/vehicles` routes over the vehicle collection: list, create if the
    number is free, normalising update by id, idempotent delete. */
module VehicleRoutes {
  import opened Common
  import opened Dates
  import opened VehicleModel
  import Listing

  const AddedReply := Reply(201, "Vehicle added successfully!")
  const DeletedReply := Reply(200, "Vehicle deleted")

  type UpdateReply = UpdateOutcome<VehicleRecord>

  type Collection = map<Id, VehicleRecord>

  function RecordId(v: VehicleRecord): Id { v.id }
  function UpdatedAt(v: VehicleRecord): int { v.updatedAt }

  /** The unique index on `vehicleNo`. */
  ghost predicate UniqueVehicleNos(m: Collection)
  {
    forall a, b :: a in m && b in m && m[a].doc.vehicleNo == m[b].doc.vehicleNo ==> a == b
  }

  predicate Taken(m: Collection, no: string)
  {
    exists k :: k in m && m[k].doc.vehicleNo == no
  }

  predicate TakenByOther(m: Collection, id: Id, no: string)
  {
    exists k :: k in m && k != id && m[k].doc.vehicleNo == no
  }

  /** What every state of the collection satisfies: records filed under
      their own id, distinct numbers, and ids below the next one to hand out. */
  ghost predicate CollectionInvariant(m: Collection, nextId: Id)
  {
    Listing.KeyedBy(m, RecordId) && UniqueVehicleNos(m) && forall k :: k in m ==> k < nextId
  }

  /** The effect of `POST /vehicles` on the collection. */
  function CreateVehicle(m: Collection, newId: Id, body: VehicleJson, parse: DateParser, now: Instant): Collection
  {
    if body.vehicleNo.Some? && Taken(m, body.vehicleNo.value) then m
    else match NewVehicleDoc(body, parse)
      case Err(_) => m
      case Ok(doc) => m[newId := VehicleRecord(newId, doc, now, now)]
  }

  /** The reply and the effect of `PUT /vehicles/:id`. The casts come first,
      so a bad date is a server error even for an unknown id. */
  function UpdateVehicle(m: Collection, id: Id, body: VehicleJson, parse: DateParser, now: Instant): (UpdateReply, Collection)
  {
    match VehicleUpdateData(body, parse)
    case Err(e) => (ServerError(e), m)
    case Ok(u) =>
      if id !in m then (NotFound, m)
      else if u.vehicleNo.Some? && TakenByOther(m, id, u.vehicleNo.value) then (ServerError(Duplicate("vehicleNo")), m)
      else
        var rec := VehicleRecord(id, ApplyVehicleUpdate(m[id].doc, u), m[id].createdAt, now);
        (Updated(rec), m[id := rec])
  }

  /** The effect of `DELETE /vehicles/:id`. */
  function DeleteVehicle(m: Collection, id: Id): Collection
  {
    m - {id}
  }

  class VehicleStore {
    var records: Collection
    var nextId: Id

    ghost predicate Valid()
      reads this
    {
      CollectionInvariant(records, nextId)
    }

    constructor ()
      ensures Valid() && records == map[]
    {
      records := map[];
      nextId := 0;
    }

    /** `Vehicle.findOne({ vehicleNo })`. */
    method FindByVehicleNo(no: string) returns (found: Option<Id>)
      ensures found.None? <==> !Taken(records, no)
      ensures found.Some? ==> found.value in records && records[found.value].doc.vehicleNo == no
    {
      var keys := records.Keys;
      while keys != {}
        invariant keys <= records.Keys
        invariant forall k :: k in records && k !in keys ==> records[k].doc.vehicleNo != no
        decreases keys
      {
        var k :| k in keys;
        if records[k].doc.vehicleNo == no {
          return Some(k);
        }
        keys := keys - {k};
      }
      return None;
    }

    /** `GET /vehicles`: every stored vehicle once, most recently updated first. */
    method List() returns (r: seq<VehicleRecord>)
      requires Valid()
      ensures |r| == |records|
      ensures Listing.SortedDesc(r, UpdatedAt)
      ensures Listing.NoDuplicates(r)
      ensures forall v :: v in r <==> v in records.Values
    {
      r := Listing.SortByKeyDesc(records, RecordId, UpdatedAt);
    }

    /** `POST /vehicles`: saves a new vehicle unless its number is stored;
        the reply is the same success on every path. */
    method Create(body: VehicleJson, parse: DateParser, now: Instant) returns (reply: Reply)
      requires Valid()
      modifies this
      ensures Valid()
      ensures reply == AddedReply
      ensures records == CreateVehicle(old(records), old(nextId), body, parse, now)
    {
      reply := AddedReply;
      var existing: Option<Id> := None;
      if body.vehicleNo.Some? {
        existing := FindByVehicleNo(body.vehicleNo.value);
      }
      if existing.None? {
        var built := NewVehicleDoc(body, parse);
        if built.Ok? {
          CreatePreservesInvariant(records, nextId, body, parse, now);
          records := records[nextId := VehicleRecord(nextId, built.value, now, now)];
          nextId := nextId + 1;
        }
      }
    }

    /** `PUT /vehicles/:id`. */
    method Update(id: Id, body: VehicleJson, parse: DateParser, now: Instant) returns (reply: UpdateReply)
      requires Valid()
      modifies this
      ensures Valid()
      ensures nextId == old(nextId)
      ensures (reply, records) == UpdateVehicle(old(records), id, body, parse, now)
    {
      var data := VehicleUpdateData(body, parse);
      if data.Err? {
        return ServerError(data.error);
      }
      var u := data.value;
      if id !in records {
        return NotFound;
      }
      if u.vehicleNo.Some? {
        var holder := FindByVehicleNo(u.vehicleNo.value);
        if holder.Some? && holder.value != id {
          return ServerError(Duplicate("vehicleNo"));
        }
      }
      UpdatePreservesInvariant(records, nextId, id, body, parse, now);
      var rec := VehicleRecord(id, ApplyVehicleUpdate(records[id].doc, u), records[id].createdAt, now);
      records := records[id := rec];
      reply := Updated(rec);
    }

    /** `DELETE /vehicles/:id`: always reports success. */
    method Delete(id: Id) returns (reply: Reply)
      requires Valid()
      modifies this
      ensures Valid()
      ensures nextId == old(nextId)
      ensures reply == DeletedReply
      ensures records == DeleteVehicle(old(records), id)
    {
      records := records - {id};
      reply := DeletedReply;
    }
  }

  // ---- properties of the operations ----

  /** Create keeps the collection invariant, with the next id advanced. */
  lemma CreatePreservesInvariant(m: Collection, newId: Id, body: VehicleJson, parse: DateParser, now: Instant)
    requires CollectionInvariant(m, newId)
    ensures CollectionInvariant(CreateVehicle(m, newId, body, parse, now), newId + 1)
  {
    var r := CreateVehicle(m, newId, body, parse, now);
    if r != m {
      assert !Taken(m, NewVehicleDoc(body, parse).value.vehicleNo);
    }
  }

  /** A free number and a valid body add exactly one record, under the
      fresh id, stamped with the same time twice; the rest is untouched. */
  lemma CreateOnFreeNumber(m: Collection, newId: Id, body: VehicleJson, parse: DateParser, now: Instant)
    requires CollectionInvariant(m, newId)
    requires body.vehicleNo.Some? && !Taken(m, body.vehicleNo.value)
    requires NewVehicleDoc(body, parse).Ok?
    ensures var r := CreateVehicle(m, newId, body, parse, now);
            && r.Keys == m.Keys + {newId} && newId !in m && |r| == |m| + 1
            && r[newId] == VehicleRecord(newId, NewVehicleDoc(body, parse).value, now, now)
            && r[newId].doc.vehicleNo == body.vehicleNo.value
            && forall k :: k in m ==> r[k] == m[k]
  {
    assert newId !in m;
  }

  /** A number already stored leaves the collection as it was. */
  lemma CreateOnTakenNumber(m: Collection, newId: Id, body: VehicleJson, parse: DateParser, now: Instant)
    requires body.vehicleNo.Some? && Taken(m, body.vehicleNo.value)
    ensures CreateVehicle(m, newId, body, parse, now) == m
  {
  }

  /** A body the store rejects (no number, a date or amount that does not
      cast) leaves the collection as it was. */
  lemma CreateRejected(m: Collection, newId: Id, body: VehicleJson, parse: DateParser, now: Instant)
    requires NewVehicleDoc(body, parse).Err?
    ensures CreateVehicle(m, newId, body, parse, now) == m
  {
  }

  /** Sending the same create twice stores what sending it once stores:
      the second request finds the number taken, or fails as the first did. */
  lemma CreateTwiceIsOnce(m: Collection, f1: Id, f2: Id, body: VehicleJson, parse: DateParser, t1: Instant, t2: Instant)
    ensures CreateVehicle(CreateVehicle(m, f1, body, parse, t1), f2, body, parse, t2)
            == CreateVehicle(m, f1, body, parse, t1)
  {
    var once := CreateVehicle(m, f1, body, parse, t1);
    if body.vehicleNo.Some? && !Taken(m, body.vehicleNo.value) && NewVehicleDoc(body, parse).Ok? {
      assert once[f1].doc.vehicleNo == body.vehicleNo.value;
      assert Taken(once, body.vehicleNo.value);
    }
  }

  /** After a create, exactly one stored vehicle has the number, if the
      body's number was stored or the body was accepted. */
  lemma CreateLeavesOneHolder(m: Collection, newId: Id, body: VehicleJson, parse: DateParser, now: Instant, no: string)
    requires CollectionInvariant(m, newId)
    requires body.vehicleNo == Some(no)
    requires Taken(m, no) || NewVehicleDoc(body, parse).Ok?
    ensures var r := CreateVehicle(m, newId, body, parse, now);
            exists k :: k in r && r[k].doc.vehicleNo == no && forall j :: j in r && r[j].doc.vehicleNo == no ==> j == k
  {
    var r := CreateVehicle(m, newId, body, parse, now);
    CreatePreservesInvariant(m, newId, body, parse, now);
    if Taken(m, no) {
      var k :| k in m && m[k].doc.vehicleNo == no;
      assert k in r && r[k].doc.vehicleNo == no;
    } else {
      assert newId in r && r[newId].doc.vehicleNo == no;
    }
  }

  /** Update keeps the collection invariant. */
  lemma UpdatePreservesInvariant(m: Collection, nextId: Id, id: Id, body: VehicleJson, parse: DateParser, now: Instant)
    requires CollectionInvariant(m, nextId)
    ensures CollectionInvariant(UpdateVehicle(m, id, body, parse, now).1, nextId)
  {
    var (reply, r) := UpdateVehicle(m, id, body, parse, now);
    if reply.Updated? {
      var u := VehicleUpdateData(body, parse).value;
      assert u.vehicleNo.Some? ==> !TakenByOther(m, id, u.vehicleNo.value);
    }
  }

  /** `vehicleNo` is required on create only: an update stores whatever
      number the body gives, the empty one included, when no other vehicle
      holds it. */
  lemma UpdateStoresGivenNumber(m: Collection, id: Id, body: VehicleJson, parse: DateParser, now: Instant)
    requires id in m
    requires body.vehicleNo.Some? && !TakenByOther(m, id, body.vehicleNo.value)
    requires VehicleUpdateData(body, parse).Ok?
    ensures var (reply, r) := UpdateVehicle(m, id, body, parse, now);
            reply.Updated? && id in r && r[id].doc.vehicleNo == body.vehicleNo.value
  {
  }

  /** An unknown id is reported as not found (or as a server error when the
      body does not cast) and nothing changes. */
  lemma UpdateUnknownId(m: Collection, id: Id, body: VehicleJson, parse: DateParser, now: Instant)
    requires id !in m
    ensures UpdateVehicle(m, id, body, parse, now).1 == m
    ensures VehicleUpdateData(body, parse).Ok? ==> UpdateVehicle(m, id, body, parse, now).0 == NotFound
    ensures UpdateVehicle(m, id, body, parse, now).0.Status() in {404, 500}
  {
  }

  /** A successful update keeps the id and `createdAt`, refreshes
      `updatedAt`, and changes no other record. */
  lemma UpdateStamps(m: Collection, id: Id, body: VehicleJson, parse: DateParser, now: Instant)
    requires UpdateVehicle(m, id, body, parse, now).0.Updated?
    ensures var (reply, r) := UpdateVehicle(m, id, body, parse, now);
            && id in m && r.Keys == m.Keys
            && reply.record == r[id] && reply.record.id == id
            && reply.record.createdAt == m[id].createdAt && reply.record.updatedAt == now
            && forall k :: k in m && k != id ==> r[k] == m[k]
  {
  }

  /** Delete removes the id, keeps the rest, is a no-op on a missing id
      and is idempotent. */
  lemma DeleteProperties(m: Collection, nextId: Id, id: Id)
    requires CollectionInvariant(m, nextId)
    ensures id !in DeleteVehicle(m, id)
    ensures forall k :: k in m && k != id ==> k in DeleteVehicle(m, id) && DeleteVehicle(m, id)[k] == m[k]
    ensures id !in m ==> DeleteVehicle(m, id) == m
    ensures DeleteVehicle(DeleteVehicle(m, id), id) == DeleteVehicle(m, id)
    ensures CollectionInvariant(DeleteVehicle(m, id), nextId)
  {
  }
}
