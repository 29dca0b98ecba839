/** Lookups by id and id assignment, shared by every collection. A record's
    id is read through `key`, so one definition serves products, users,
    orders and cart entries alike. */
module Lookup {
  import opened Records

  /** `findIndex`: the index of the first record whose id is `id`, or -1. */
  function FindIndex<T>(s: seq<T>, key: T -> int, id: int): (r: int)
    ensures -1 <= r < |s|
    ensures r == -1 <==> forall i :: 0 <= i < |s| ==> key(s[i]) != id
    ensures 0 <= r ==> key(s[r]) == id && forall i :: 0 <= i < r ==> key(s[i]) != id
    decreases |s|
  {
    if |s| == 0 then -1
    else if key(s[0]) == id then 0
    else
      var k := FindIndex(s[1..], key, id);
      if k == -1 then -1 else k + 1
  }

  /** `find`: the first record whose id is `id`, if any. */
  function Find<T>(s: seq<T>, key: T -> int, id: int): (r: Option<T>)
    ensures r.None? <==> forall i :: 0 <= i < |s| ==> key(s[i]) != id
    ensures r.Some? ==> exists i :: 0 <= i < |s| && s[i] == r.value && key(s[i]) == id
                                   && forall j :: 0 <= j < i ==> key(s[j]) != id
  {
    var i := FindIndex(s, key, id);
    if i == -1 then None else Some(s[i])
  }

  /** `Math.max(...ids)` over a non-empty collection. */
  function MaxKey<T>(s: seq<T>, key: T -> int): (m: int)
    requires |s| > 0
    ensures forall i :: 0 <= i < |s| ==> key(s[i]) <= m
    ensures exists i :: 0 <= i < |s| && key(s[i]) == m
    decreases |s|
  {
    if |s| == 1 then key(s[0])
    else
      var rest := MaxKey(s[1..], key);
      if key(s[0]) >= rest then key(s[0]) else rest
  }

  /** The id a new record receives: the largest id plus one, or 1 when the
      collection is empty. */
  function NextId<T>(s: seq<T>, key: T -> int): (r: int)
    ensures forall i :: 0 <= i < |s| ==> key(s[i]) < r
    ensures |s| == 0 ==> r == 1
    ensures |s| > 0 ==> exists i :: 0 <= i < |s| && key(s[i]) == r - 1
  {
    if |s| > 0 then MaxKey(s, key) + 1 else 1
  }

  /** No two records share an id. */
  ghost predicate UniqueIds<T>(s: seq<T>, key: T -> int) {
    forall i, j :: 0 <= i < j < |s| ==> key(s[i]) != key(s[j])
  }

  /** With unique ids the first match is the only match. */
  lemma FindIndexUnique<T>(s: seq<T>, key: T -> int, id: int, k: int)
    requires UniqueIds(s, key)
    requires 0 <= k < |s| && key(s[k]) == id
    ensures FindIndex(s, key, id) == k
  {
  }

  /** A record appended after a collection without its id is found at the end. */
  lemma FindIndexAppend<T>(s: seq<T>, key: T -> int, x: T)
    requires FindIndex(s, key, key(x)) == -1
    ensures FindIndex(s + [x], key, key(x)) == |s|
  {
    var t := s + [x];
    assert forall i :: 0 <= i < |s| ==> t[i] == s[i];
    assert key(t[|s|]) == key(x);
  }

  /** Replacing the first match by a record with the same id keeps it first. */
  lemma FindIndexUpdate<T>(s: seq<T>, key: T -> int, k: nat, x: T)
    requires k < |s| && FindIndex(s, key, key(x)) == k
    ensures FindIndex(s[k := x], key, key(x)) == k
  {
    var t := s[k := x];
    assert forall i :: 0 <= i < k ==> t[i] == s[i];
    assert key(t[k]) == key(x);
  }

  /** Appending a record whose id is `NextId` keeps ids unique. */
  lemma AppendNextIdKeepsUnique<T>(s: seq<T>, key: T -> int, x: T)
    requires UniqueIds(s, key)
    requires key(x) == NextId(s, key)
    ensures UniqueIds(s + [x], key)
  {
  }

}
