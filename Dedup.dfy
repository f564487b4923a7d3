/**
 The last step of device discovery: devices that share a name are told apart
 by a " #k" suffix, numbered in list order within each group of equal names.
 */
module Dedup {
  import opened Text
  import opened ControlDevices

  /** The label of the `rank`-th member of a group of equal names. */
  function Numbered(name: string, rank: nat): string
  {
    name + " #" + NatToString(rank)
  }

  /**
   The name the i-th device ends up with: unchanged when no other device has
   the same name, otherwise numbered by its position within its group.
   */
  function DedupName(names: seq<string>, i: nat): string
    requires i < |names|
  {
    var n := names[i];
    if Occurrences(names, n) > 1 then Numbered(n, Occurrences(names[..i + 1], n)) else n
  }

  /** Every name of a list, renamed. */
  function DedupNames(names: seq<string>): (r: seq<string>)
    ensures |r| == |names|
  {
    seq(|names|, i requires 0 <= i < |names| => DedupName(names, i))
  }

  /** The device list after renaming: only names change. */
  function Deduped(ds: seq<ControlDevice>): (r: seq<ControlDevice>)
    ensures |r| == |ds|
  {
    var names := Names(ds);
    seq(|ds|, i requires 0 <= i < |ds| => ds[i].(name := DedupName(names, i)))
  }

  /**
   The groups of `GroupBy(name)`, one key per group in order of first
   appearance: every name exactly once.
   */
  function DistinctInOrder(names: seq<string>): (groups: seq<string>)
    ensures forall x :: x in groups <==> x in names
    ensures forall i, j :: 0 <= i < j < |groups| ==> groups[i] != groups[j]
    decreases |names|
  {
    if names == [] then []
    else
      var init, last := names[..|names| - 1], names[|names| - 1];
      assert names == init + [last];
      var d := DistinctInOrder(init);
      if last in d then d else d + [last]
  }

  /**
   The renaming loop, in place over the device list. Group membership and
   group sizes are taken from the names as they were on entry, as `GroupBy`
   does before the first device is renamed.
   */
  method DedupDevices(a: array<ControlDevice>)
    modifies a
    ensures a[..] == Deduped(old(a[..]))
  {
    ghost var orig := a[..];
    ghost var target := Deduped(orig);
    var names := Names(a[..]);
    assert forall k :: 0 <= k < a.Length ==> orig[k].name == names[k] && target[k] == orig[k].(name := DedupName(names, k));
    var groups := DistinctInOrder(names);
    ghost var done: set<string> := {};
    var gi := 0;
    while gi < |groups|
      invariant 0 <= gi <= |groups|
      invariant forall x :: x in done <==> x in groups[..gi]
      invariant forall k :: 0 <= k < a.Length ==> a[k] == (if names[k] in done then target[k] else orig[k])
    {
      var g := groups[gi];
      assert g !in groups[..gi];
      if Occurrences(names, g) > 1 {
        NumberGroup(a, names, g, orig, target, done);
      } else {
        forall k | 0 <= k < a.Length && names[k] == g
          ensures target[k] == orig[k]
        {
        }
      }
      done := done + {g};
      assert groups[..gi + 1] == groups[..gi] + [g];
      gi := gi + 1;
    }
    forall k | 0 <= k < a.Length
      ensures a[k] == target[k]
    {
      assert names[k] in groups;
      var i :| 0 <= i < |groups| && groups[i] == names[k];
      assert groups[..gi][i] == names[k];
    }
  }

  /** The inner loop: the members of group `g`, in list order, get " #1", " #2", ... */
  method NumberGroup(a: array<ControlDevice>, names: seq<string>, g: string,
                     ghost orig: seq<ControlDevice>, ghost target: seq<ControlDevice>, ghost done: set<string>)
    requires |names| == a.Length == |orig| == |target|
    requires g !in done
    requires forall k :: 0 <= k < a.Length && names[k] == g ==> target[k] == orig[k].(name := Numbered(g, Occurrences(names[..k + 1], g)))
    requires forall k :: 0 <= k < a.Length ==> a[k] == (if names[k] in done then target[k] else orig[k])
    modifies a
    ensures forall k :: 0 <= k < a.Length ==> a[k] == (if names[k] in done || names[k] == g then target[k] else orig[k])
  {
    var ct := 0;
    var k := 0;
    while k < a.Length
      invariant 0 <= k <= a.Length
      invariant ct == Occurrences(names[..k], g)
      invariant forall j :: 0 <= j < a.Length ==>
        a[j] == (if names[j] in done || (j < k && names[j] == g) then target[j] else orig[j])
    {
      OccurrencesPrefixStep(names, k, g);
      if names[k] == g {
        ct := ct + 1;
        assert target[k] == orig[k].(name := Numbered(g, ct));
        a[k] := a[k].(name := Numbered(names[k], ct));
        assert a[k] == target[k];
      }
      k := k + 1;
    }
  }

  /** Renaming changes nothing but names, and the names as `DedupNames` says. */
  lemma DedupedOnlyRenames(ds: seq<ControlDevice>, i: nat)
    requires i < |ds|
    ensures Deduped(ds)[i].(name := ds[i].name) == ds[i]
    ensures Deduped(ds)[i].name == DedupNames(Names(ds))[i]
  {
  }

  /** Group members are numbered 1, 2, ... in list order. */
  lemma {:induction false} GroupRanksIncrease(names: seq<string>, i: nat, j: nat)
    requires i < j < |names| && names[i] == names[j]
    ensures 1 <= Occurrences(names[..i + 1], names[i]) < Occurrences(names[..j + 1], names[j])
    ensures Occurrences(names, names[i]) > 1
  {
    var n := names[i];
    OccurrencesPrefixStep(names, i, n);
    OccurrencesPrefixStep(names, j, n);
    assert names[..j] == names[..i + 1] + names[i + 1..j];
    OccurrencesAppend(names[..i + 1], names[i + 1..j], n);
    assert names == names[..j + 1] + names[j + 1..];
    OccurrencesAppend(names[..j + 1], names[j + 1..], n);
  }

  /** A name no other device has is kept as it is. */
  lemma DedupKeepsUniqueName(names: seq<string>, i: nat)
    requires i < |names|
    ensures (forall j :: 0 <= j < |names| && j != i ==> names[j] != names[i]) ==> DedupNames(names)[i] == names[i]
  {
    if forall j :: 0 <= j < |names| && j != i ==> names[j] != names[i] {
      OnlyOccurrence(names, i);
    }
  }

  lemma {:induction false} OnlyOccurrence(names: seq<string>, i: nat)
    requires i < |names|
    requires forall j :: 0 <= j < |names| && j != i ==> names[j] != names[i]
    ensures Occurrences(names, names[i]) == 1
  {
    var n := names[i];
    assert names == names[..i] + [n] + names[i + 1..];
    OccurrencesAppend(names[..i] + [n], names[i + 1..], n);
    OccurrencesAppend(names[..i], [n], n);
    assert n !in names[..i] && n !in names[i + 1..];
    OccurrencesPositive(names[..i], n);
    OccurrencesPositive(names[i + 1..], n);
    assert [n][1..] == [];
  }

  predicate NoHash(s: string)
  {
    forall k :: 0 <= k < |s| ==> s[k] != '#'
  }

  /** In a numbered name built from a '#'-free name, the first '#' sits right after the name and its space. */
  lemma NumberedHashPosition(n: string, rank: nat)
    requires NoHash(n)
    ensures |n| + 1 < |Numbered(n, rank)| && Numbered(n, rank)[|n| + 1] == '#'
    ensures forall k :: 0 <= k <= |n| ==> Numbered(n, rank)[k] != '#'
  {
  }

  /** Numbered names built from different '#'-free names differ. */
  lemma {:induction false} NumberedDistinctNames(n: string, a: nat, m: string, b: nat)
    requires NoHash(n) && NoHash(m) && n != m
    ensures Numbered(n, a) != Numbered(m, b)
  {
    NumberedHashPosition(n, a);
    NumberedHashPosition(m, b);
    if |n| == |m| {
      var k :| 0 <= k < |n| && n[k] != m[k];
      assert Numbered(n, a)[k] == n[k] && Numbered(m, b)[k] == m[k];
    } else if |n| < |m| {
      assert Numbered(m, b)[|n| + 1] != '#';
    } else {
      assert Numbered(n, a)[|m| + 1] != '#';
    }
  }

  /** The same name numbered differently gives different names. */
  lemma {:induction false} NumberedDistinctRanks(n: string, a: nat, b: nat)
    requires a != b
    ensures Numbered(n, a) != Numbered(n, b)
  {
    var prefix := n + " #";
    if Numbered(n, a) == Numbered(n, b) {
      assert NatToString(a) == Numbered(n, a)[|prefix|..];
      assert NatToString(b) == Numbered(n, b)[|prefix|..];
      NatToStringInjective(a, b);
    }
  }

  /** Two devices end up with different names when neither name had a '#' to begin with. */
  lemma {:induction false} DedupPairDistinct(names: seq<string>, i: nat, j: nat)
    requires i < j < |names| && NoHash(names[i]) && NoHash(names[j])
    ensures DedupNames(names)[i] != DedupNames(names)[j]
  {
    var n, m := names[i], names[j];
    var ri, rj := DedupName(names, i), DedupName(names, j);
    if n == m {
      GroupRanksIncrease(names, i, j);
      NumberedDistinctRanks(n, Occurrences(names[..i + 1], n), Occurrences(names[..j + 1], n));
    } else {
      var a, b := Occurrences(names[..i + 1], n), Occurrences(names[..j + 1], m);
      NumberedHashPosition(n, a);
      NumberedHashPosition(m, b);
      if ri == Numbered(n, a) && rj == Numbered(m, b) {
        NumberedDistinctNames(n, a, m, b);
      } else if ri == Numbered(n, a) {
        assert rj == m;
        assert ri[|n| + 1] == '#';
      } else if rj == Numbered(m, b) {
        assert ri == n;
        assert rj[|m| + 1] == '#';
      }
    }
  }

  /** If no name contains a '#', the renamed devices have pairwise distinct names. */
  lemma DedupUniqueWhenNoHash(names: seq<string>)
    requires forall i :: 0 <= i < |names| ==> NoHash(names[i])
    ensures forall i, j :: 0 <= i < j < |names| ==> DedupNames(names)[i] != DedupNames(names)[j]
  {
    forall i, j | 0 <= i < j < |names|
      ensures DedupNames(names)[i] != DedupNames(names)[j]
    {
      DedupPairDistinct(names, i, j);
    }
  }

  /**
   Without that condition the renaming can collide: two devices named "A" and
   one already named "A #1" end up as "A #1", "A #2", "A #1".
   */
  lemma DedupCollision()
    ensures DedupNames(["A", "A", "A #1"]) == ["A #1", "A #2", "A #1"]
  {
    var names := ["A", "A", "A #1"];
    assert names[1..] == ["A", "A #1"] && names[1..][1..] == ["A #1"] && names[1..][1..][1..] == [];
    assert Occurrences(names, "A") == 2;
    assert Occurrences(names, "A #1") == 1;
    assert names[..1] == ["A"] && names[..1][1..] == [];
    assert Occurrences(names[..1], "A") == 1;
    assert names[..2] == ["A", "A"] && names[..2][1..] == ["A"];
    assert Occurrences(names[..2], "A") == 2;
    assert NatToString(1) == "1" && NatToString(2) == "2";
    var r := DedupNames(names);
    assert r[0] == Numbered("A", 1) == "A #1";
    assert r[1] == Numbered("A", 2) == "A #2";
    assert r[2] == "A #1";
  }
}
