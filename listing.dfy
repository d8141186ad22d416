/** The store's `find().sort({ updatedAt: -1 })`: every document of a
    collection, most recently updated first. */
module Listing {
  import opened Common

  ghost predicate SortedDesc<T>(s: seq<T>, key: T -> int)
  {
    forall i, j :: 0 <= i < j < |s| ==> key(s[i]) >= key(s[j])
  }

  ghost predicate NoDuplicates<T>(s: seq<T>)
  {
    forall i, j :: 0 <= i < j < |s| ==> s[i] != s[j]
  }

  /** Every value of `m` is filed under its own identifier. */
  ghost predicate KeyedBy<T>(m: map<Id, T>, idOf: T -> Id)
  {
    forall k :: k in m ==> idOf(m[k]) == k
  }

  /** Inserts `x` before the first element whose key is not larger. */
  function InsertDesc<T(!new)>(s: seq<T>, x: T, key: T -> int): (r: seq<T>)
    ensures |r| == |s| + 1
    ensures forall y :: y in r <==> y in s || y == x
    decreases |s|
  {
    if |s| == 0 || key(x) >= key(s[0]) then [x] + s
    else [s[0]] + InsertDesc(s[1..], x, key)
  }

  /** Inserting into a sorted listing keeps it sorted. */
  lemma {:induction false} InsertDescSorted<T(!new)>(s: seq<T>, x: T, key: T -> int)
    requires SortedDesc(s, key)
    ensures SortedDesc(InsertDesc(s, x, key), key)
    decreases |s|
  {
    if |s| > 0 && key(x) < key(s[0]) {
      var tail := s[1..];
      var rest := InsertDesc(tail, x, key);
      assert SortedDesc(tail, key);
      InsertDescSorted(tail, x, key);
      forall j | 0 <= j < |rest|
        ensures key(s[0]) >= key(rest[j])
      {
        assert rest[j] in rest;
        if rest[j] != x {
          var i :| 0 <= i < |tail| && tail[i] == rest[j];
          assert s[i + 1] == rest[j];
        }
      }
      var r := [s[0]] + rest;
      assert r == InsertDesc(s, x, key);
      forall i, j | 0 <= i < j < |r|
        ensures key(r[i]) >= key(r[j])
      {
        if i > 0 {
          assert r[i] == rest[i - 1] && r[j] == rest[j - 1];
        }
      }
    }
  }

  /** Inserting a new document keeps every document exactly once. */
  lemma {:induction false} InsertDescNew<T(!new)>(s: seq<T>, x: T, key: T -> int)
    requires NoDuplicates(s) && x !in s
    ensures NoDuplicates(InsertDesc(s, x, key))
    decreases |s|
  {
    if |s| > 0 && key(x) < key(s[0]) {
      var tail := s[1..];
      assert NoDuplicates(tail) && x !in tail;
      InsertDescNew(tail, x, key);
      var rest := InsertDesc(tail, x, key);
      assert s[0] !in tail;
      assert s[0] !in rest;
      var r := [s[0]] + rest;
      forall i, j | 0 <= i < j < |r|
        ensures r[i] != r[j]
      {
        if i == 0 {
          assert r[j] == rest[j - 1];
        } else {
          assert r[i] == rest[i - 1] && r[j] == rest[j - 1];
        }
      }
    }
  }

  /** The documents of `m` ordered by `key`, largest first: a permutation of
      the collection, each document exactly once. */
  method SortByKeyDesc<T(==,!new)>(m: map<Id, T>, idOf: T -> Id, key: T -> int) returns (r: seq<T>)
    requires KeyedBy(m, idOf)
    ensures |r| == |m|
    ensures SortedDesc(r, key)
    ensures NoDuplicates(r)
    ensures forall x :: x in r <==> x in m.Values
  {
    var keys := m.Keys;
    r := [];
    while keys != {}
      invariant keys <= m.Keys
      invariant |r| + |keys| == |m|
      invariant SortedDesc(r, key)
      invariant NoDuplicates(r)
      invariant forall x :: x in r <==> x in m.Values && idOf(x) !in keys
      decreases keys
    {
      var k :| k in keys;
      ghost var before := r;
      assert m[k] !in r;
      InsertDescSorted(r, m[k], key);
      InsertDescNew(r, m[k], key);
      r := InsertDesc(r, m[k], key);
      keys := keys - {k};
      forall x | x in m.Values && idOf(x) == k
        ensures x == m[k]
      {
        var k' :| k' in m && m[k'] == x;
      }
    }
  }

  /** Each document of a listing of `m` is the one `m` files under its id. */
  lemma StoredEntries<T(!new)>(m: map<Id, T>, idOf: T -> Id, s: seq<T>)
    requires KeyedBy(m, idOf)
    requires forall x :: x in s <==> x in m.Values
    ensures forall i :: 0 <= i < |s| ==> idOf(s[i]) in m && m[idOf(s[i])] == s[i]
  {
    forall i | 0 <= i < |s|
      ensures idOf(s[i]) in m && m[idOf(s[i])] == s[i]
    {
      assert s[i] in s;
      var k :| k in m && m[k] == s[i];
    }
  }
}
