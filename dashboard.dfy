/** The dashboard's client-side lists: after a successful update the row
    with that id is replaced, after a successful delete it is filtered out,
    and a failed call leaves the list alone and passes the error on. The
    same transitions serve the vehicle and the license lists. */
module Dashboard {
  import opened Common
  import opened Seqs

  /** `prev.map(x => x._id === id ? updated : x)`. */
  function ReplaceById<T>(list: seq<T>, idOf: T -> Id, id: Id, updated: T): (r: seq<T>)
    ensures |r| == |list|
    ensures forall i :: 0 <= i < |list| && idOf(list[i]) == id ==> r[i] == updated
    ensures forall i :: 0 <= i < |list| && idOf(list[i]) != id ==> r[i] == list[i]
    decreases |list|
  {
    if |list| == 0 then []
    else [if idOf(list[0]) == id then updated else list[0]] + ReplaceById(list[1..], idOf, id, updated)
  }

  /** `prev.filter(x => x._id !== id)`. */
  function RemoveById<T(!new)>(list: seq<T>, idOf: T -> Id, id: Id): (r: seq<T>)
    ensures IsSubsequence(r, list)
    ensures forall x :: x in r ==> idOf(x) != id
    ensures forall x :: x in list && idOf(x) != id ==> x in r
    ensures forall x :: multiset(r)[x] == if idOf(x) != id then multiset(list)[x] else 0
  {
    Filter(list, x => idOf(x) != id)
  }

  /** The list and the error a handler re-throws after an API call. */
  datatype Transition<T, E> = Transition(list: seq<T>, rethrown: Option<E>)

  /** `handleUpdateVehicle` / `handleUpdateLicense`. */
  function HandleUpdate<T, E>(prev: seq<T>, idOf: T -> Id, id: Id, call: Result<T, E>): (t: Transition<T, E>)
    ensures call.Err? ==> t.list == prev && t.rethrown == Some(call.error)
    ensures call.Ok? ==> t.rethrown.None? && t.list == ReplaceById(prev, idOf, id, call.value)
  {
    match call
    case Ok(updated) => Transition(ReplaceById(prev, idOf, id, updated), None)
    case Err(e) => Transition(prev, Some(e))
  }

  /** `handleDeleteVehicle` / `handleDeleteLicense`. */
  function HandleDelete<T(!new), E>(prev: seq<T>, idOf: T -> Id, id: Id, call: Result<(), E>): (t: Transition<T, E>)
    ensures call.Err? ==> t.list == prev && t.rethrown == Some(call.error)
    ensures call.Ok? ==> t.rethrown.None? && t.list == RemoveById(prev, idOf, id)
  {
    match call
    case Ok(_) => Transition(RemoveById(prev, idOf, id), None)
    case Err(e) => Transition(prev, Some(e))
  }

  /** `fetchVehicles` / `fetchLicenses`: the error is logged, not thrown. */
  function HandleFetch<T, E>(prev: seq<T>, call: Result<seq<T>, E>): (list: seq<T>)
    ensures call.Err? ==> list == prev
    ensures call.Ok? ==> list == call.value
  {
    match call
    case Ok(data) => data
    case Err(_) => prev
  }

  // ---- properties of the transitions ----

  /** Replacing an id no row has changes nothing. */
  lemma ReplaceAbsent<T>(list: seq<T>, idOf: T -> Id, id: Id, updated: T)
    requires forall i :: 0 <= i < |list| ==> idOf(list[i]) != id
    ensures ReplaceById(list, idOf, id, updated) == list
  {
  }

  /** A replacement carrying its own id keeps the list's sequence of ids,
      and applying it twice is applying it once. */
  lemma ReplaceKeepsIds<T>(list: seq<T>, idOf: T -> Id, id: Id, updated: T)
    requires idOf(updated) == id
    ensures var r := ReplaceById(list, idOf, id, updated);
            forall i :: 0 <= i < |r| ==> idOf(r[i]) == idOf(list[i])
    ensures ReplaceById(ReplaceById(list, idOf, id, updated), idOf, id, updated) == ReplaceById(list, idOf, id, updated)
  {
  }

  /** Removing an id no row has changes nothing. */
  lemma RemoveAbsent<T(!new)>(list: seq<T>, idOf: T -> Id, id: Id)
    requires forall x :: x in list ==> idOf(x) != id
    ensures RemoveById(list, idOf, id) == list
  {
    FilterKeepsAll(list, x => idOf(x) != id);
  }

  /** Removing the same id twice is removing it once. */
  lemma RemoveIdempotent<T(!new)>(list: seq<T>, idOf: T -> Id, id: Id)
    ensures RemoveById(RemoveById(list, idOf, id), idOf, id) == RemoveById(list, idOf, id)
  {
    FilterIdempotent(list, x => idOf(x) != id);
  }

  /** A delete after an update of the same row leaves what the delete alone
      leaves: the updated row is removed like the old one. */
  lemma {:induction false} RemoveAfterReplace<T(!new)>(list: seq<T>, idOf: T -> Id, id: Id, updated: T)
    requires idOf(updated) == id
    ensures RemoveById(ReplaceById(list, idOf, id, updated), idOf, id) == RemoveById(list, idOf, id)
    decreases |list|
  {
    if |list| > 0 {
      var r := ReplaceById(list, idOf, id, updated);
      assert r[1..] == ReplaceById(list[1..], idOf, id, updated);
      RemoveAfterReplace(list[1..], idOf, id, updated);
      assert idOf(r[0]) == id <==> idOf(list[0]) == id;
    }
  }
}
