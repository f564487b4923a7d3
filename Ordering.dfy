/**
 The two orders the walk puts LED positions in: by LED id for keyboards, by
 `top + left` for everything else. Both are `OrderBy`, a stable sort.
 */
module Ordering {
  import opened CorsairSdk

  datatype SortKey = ByLedId | ByTopLeft

  function Key(k: SortKey, p: LedPosition): int
  {
    match k
    case ByLedId => p.ledId
    case ByTopLeft => p.top + p.left
  }

  predicate SortedBy(s: seq<LedPosition>, k: SortKey)
  {
    forall i, j :: 0 <= i < j < |s| ==> Key(k, s[i]) <= Key(k, s[j])
  }

  /**
   Inserts `x` into a sorted list after every element whose key is not
   larger, so that among equal keys the later arrival stays last.
   */
  function Insert(s: seq<LedPosition>, x: LedPosition, k: SortKey): (r: seq<LedPosition>)
    ensures |r| == |s| + 1
    ensures multiset(r) == multiset(s) + multiset{x}
    ensures SortedBy(s, k) ==> SortedBy(r, k)
    decreases |s|
  {
    if s == [] then [x]
    else
      var init, last := s[..|s| - 1], s[|s| - 1];
      if Key(k, x) < Key(k, last) then
        assert s == init + [last];
        var r' := Insert(init, x, k);
        if SortedBy(s, k) then
          InsertBelow(init, x, last, r', k);
          r' + [last]
        else
          r' + [last]
      else
        s + [x]
  }

  /** Every element of `init + [x]` is at most `last`, so the elements of the insertion are too. */
  lemma {:induction false} InsertBelow(init: seq<LedPosition>, x: LedPosition, last: LedPosition, r: seq<LedPosition>, k: SortKey)
    requires SortedBy(init + [last], k)
    requires Key(k, x) < Key(k, last)
    requires multiset(r) == multiset(init) + multiset{x}
    requires SortedBy(r, k)
    ensures SortedBy(r + [last], k)
  {
    forall i | 0 <= i < |r|
      ensures Key(k, r[i]) <= Key(k, last)
    {
      assert r[i] in multiset(r);
      if r[i] != x {
        assert r[i] in multiset(init);
        var j :| 0 <= j < |init| && init[j] == r[i];
        assert (init + [last])[j] == r[i];
        assert (init + [last])[|init|] == last;
      }
    }
  }

  /** `OrderBy(key)`: the positions sorted by the key, stably; a permutation of the input. */
  function OrderBy(ps: seq<LedPosition>, k: SortKey): (r: seq<LedPosition>)
    ensures |r| == |ps|
    ensures multiset(r) == multiset(ps)
    ensures SortedBy(r, k)
    decreases |ps|
  {
    if ps == [] then []
    else
      assert ps == ps[..|ps| - 1] + [ps[|ps| - 1]];
      Insert(OrderBy(ps[..|ps| - 1], k), ps[|ps| - 1], k)
  }

  /** The elements of `s` whose key is `v`, in their order in `s`. */
  function WithKey(s: seq<LedPosition>, k: SortKey, v: int): seq<LedPosition>
    decreases |s|
  {
    if s == [] then []
    else
      var last := s[|s| - 1];
      WithKey(s[..|s| - 1], k, v) + (if Key(k, last) == v then [last] else [])
  }

  lemma WithKeyAppend(s: seq<LedPosition>, x: LedPosition, k: SortKey, v: int)
    ensures WithKey(s + [x], k, v) == WithKey(s, k, v) + (if Key(k, x) == v then [x] else [])
  {
    assert (s + [x])[..|s|] == s;
  }

  /** The run bookkeeping of inserting `x` below a larger last element. */
  lemma RunsBelowLast(init: seq<LedPosition>, x: LedPosition, last: LedPosition, r: seq<LedPosition>, k: SortKey, v: int)
    requires Key(k, x) < Key(k, last)
    requires WithKey(r, k, v) == WithKey(init, k, v) + (if Key(k, x) == v then [x] else [])
    ensures WithKey(r + [last], k, v) == WithKey(init + [last], k, v) + (if Key(k, x) == v then [x] else [])
  {
    WithKeyAppend(r, last, k, v);
    WithKeyAppend(init, last, k, v);
  }

  /** Inserting adds `x` at the end of its own key's run and leaves the other runs alone. */
  lemma {:induction false} InsertStable(s: seq<LedPosition>, x: LedPosition, k: SortKey, v: int)
    ensures WithKey(Insert(s, x, k), k, v) == WithKey(s, k, v) + (if Key(k, x) == v then [x] else [])
    decreases |s|
  {
    if s == [] {
      assert Insert(s, x, k) == [] + [x];
      WithKeyAppend([], x, k, v);
    } else {
      var init, last := s[..|s| - 1], s[|s| - 1];
      assert s == init + [last];
      if Key(k, x) < Key(k, last) {
        var r' := Insert(init, x, k);
        assert Insert(s, x, k) == r' + [last];
        InsertStable(init, x, k, v);
        RunsBelowLast(init, x, last, r', k, v);
      } else {
        assert Insert(s, x, k) == s + [x];
        WithKeyAppend(s, x, k, v);
      }
    }
  }

  /** `OrderBy` is stable: the elements sharing any one key keep their input order. */
  lemma {:induction false} OrderByStable(ps: seq<LedPosition>, k: SortKey, v: int)
    ensures WithKey(OrderBy(ps, k), k, v) == WithKey(ps, k, v)
    decreases |ps|
  {
    if ps != [] {
      var init, last := ps[..|ps| - 1], ps[|ps| - 1];
      assert OrderBy(ps, k) == Insert(OrderBy(init, k), last, k);
      OrderByStable(init, k, v);
      InsertStable(OrderBy(init, k), last, k, v);
    }
  }
}
