/**
 The few .NET string operations the driver depends on, written out over
 `seq<char>`: `Int32.ToString()` for the numbers it prints into names,
 `String.Replace(pattern, "")` and `String.Trim()`.
 */
module Text {

  datatype Option<T> = None | Some(value: T)

  function DigitChar(d: nat): (c: char)
    requires d < 10
    ensures '0' <= c <= '9'
  {
    (48 + d) as char
  }

  /** Decimal rendering of a non-negative number, as `ToString()` prints it. */
  function NatToString(n: nat): (s: string)
    ensures |s| >= 1
    ensures n < 10 <==> |s| == 1
    ensures forall k :: 0 <= k < |s| ==> '0' <= s[k] <= '9'
    decreases n
  {
    if n < 10 then [DigitChar(n)] else NatToString(n / 10) + [DigitChar(n % 10)]
  }

  /** Decimal rendering of any integer (a leading '-' for negatives). */
  function IntToString(i: int): (s: string)
    ensures i >= 0 ==> s == NatToString(i)
    ensures i < 0 ==> |s| >= 2 && s[0] == '-'
  {
    if i < 0 then "-" + NatToString(-i) else NatToString(i)
  }

  /** Different numbers print differently. */
  lemma {:induction false} NatToStringInjective(a: nat, b: nat)
    requires NatToString(a) == NatToString(b)
    ensures a == b
    decreases a
  {
    if a < 10 || b < 10 {
      assert |NatToString(a)| == 1 && |NatToString(b)| == 1;
      assert NatToString(a)[0] == NatToString(b)[0];
    } else {
      var sa, sb := NatToString(a), NatToString(b);
      assert sa[..|sa| - 1] == NatToString(a / 10);
      assert sb[..|sb| - 1] == NatToString(b / 10);
      NatToStringInjective(a / 10, b / 10);
      assert sa[|sa| - 1] == sb[|sb| - 1];
      assert DigitChar(a % 10) == DigitChar(b % 10);
    }
  }

  /** `String.Replace(pat, "")`: every non-overlapping occurrence of `pat`, found left to right, removed. */
  function RemoveAll(s: string, pat: string): (r: string)
    requires |pat| > 0
    ensures |r| <= |s|
    decreases |s|
  {
    if |s| == 0 then ""
    else if |pat| <= |s| && s[..|pat|] == pat then RemoveAll(s[|pat|..], pat)
    else [s[0]] + RemoveAll(s[1..], pat)
  }

  predicate OccursAt(s: string, pat: string, i: nat)
  {
    i + |pat| <= |s| && s[i..i + |pat|] == pat
  }

  /** A string in which the pattern never occurs passes through `RemoveAll` unchanged. */
  lemma {:induction false} RemoveAllAbsent(s: string, pat: string)
    requires |pat| > 0
    requires forall i: nat :: i < |s| ==> !OccursAt(s, pat, i)
    ensures RemoveAll(s, pat) == s
    decreases |s|
  {
    if |s| > 0 {
      assert !OccursAt(s, pat, 0);
      forall i: nat | i < |s[1..]|
        ensures !OccursAt(s[1..], pat, i)
      {
        assert !OccursAt(s, pat, i + 1);
        if i + |pat| <= |s[1..]| {
          assert s[1..][i..i + |pat|] == s[i + 1..i + 1 + |pat|];
        }
      }
      RemoveAllAbsent(s[1..], pat);
      assert s == [s[0]] + s[1..];
    }
  }

  /**
   A prefix at none of whose indices the pattern starts, not even running on
   into `rest`, is kept as it is and scanning goes on with `rest`.
   */
  lemma {:induction false} RemoveAllSkipsPrefix(m: string, rest: string, pat: string)
    requires |pat| > 0
    requires forall i: nat :: i < |m| ==> !OccursAt(m + rest, pat, i)
    ensures RemoveAll(m + rest, pat) == m + RemoveAll(rest, pat)
    decreases |m|
  {
    if m == [] {
      assert m + rest == rest;
    } else {
      var s := m + rest;
      assert !OccursAt(s, pat, 0);
      assert s[1..] == m[1..] + rest;
      forall i: nat | i < |m[1..]|
        ensures !OccursAt(m[1..] + rest, pat, i)
      {
        assert !OccursAt(s, pat, i + 1);
        if i + |pat| <= |s[1..]| {
          assert s[1..][i..i + |pat|] == s[i + 1..i + 1 + |pat|];
        }
      }
      RemoveAllSkipsPrefix(m[1..], rest, pat);
      assert s[0] == m[0] && m == [m[0]] + m[1..];
    }
  }

  /** The first occurrence of the pattern is removed, and scanning resumes right after it. */
  lemma RemoveAllRemoves(m: string, t: string, pat: string)
    requires |pat| > 0
    requires forall i: nat :: i < |m| ==> !OccursAt(m + pat + t, pat, i)
    ensures RemoveAll(m + pat + t, pat) == m + RemoveAll(t, pat)
  {
    var rest := pat + t;
    assert m + pat + t == m + rest;
    RemoveAllSkipsPrefix(m, rest, pat);
    assert rest[..|pat|] == pat && rest[|pat|..] == t;
  }

  /** `Char.IsWhiteSpace`: the Unicode space separators, line and paragraph separators, and U+0009..U+000D, U+0085. */
  predicate IsWhiteSpace(c: char)
  {
    var k := c as int;
    (9 <= k <= 13) || k == 0x20 || k == 0x85 || k == 0xA0 || k == 0x1680
    || (0x2000 <= k <= 0x200A) || k == 0x2028 || k == 0x2029 || k == 0x202F
    || k == 0x205F || k == 0x3000
  }

  /** Leading white space removed: the result is the suffix of `s` left after the white-space prefix. */
  function TrimStart(s: string): (r: string)
    ensures |r| <= |s| && r == s[|s| - |r|..]
    ensures forall k :: 0 <= k < |s| - |r| ==> IsWhiteSpace(s[k])
    ensures r == [] || !IsWhiteSpace(r[0])
    decreases |s|
  {
    if |s| > 0 && IsWhiteSpace(s[0]) then TrimStart(s[1..]) else s
  }

  /** Trailing white space removed: the result is the prefix of `s` before the white-space suffix. */
  function TrimEnd(s: string): (r: string)
    ensures |r| <= |s| && r == s[..|r|]
    ensures forall k :: |r| <= k < |s| ==> IsWhiteSpace(s[k])
    ensures r == [] || !IsWhiteSpace(r[|r| - 1])
    decreases |s|
  {
    if |s| > 0 && IsWhiteSpace(s[|s| - 1]) then TrimEnd(s[..|s| - 1]) else s
  }

  /** `String.Trim()`: white space removed from both ends, nothing else. */
  function Trim(s: string): (r: string)
    ensures r == [] || (!IsWhiteSpace(r[0]) && !IsWhiteSpace(r[|r| - 1]))
    ensures exists i, j ::
              0 <= i <= j <= |s| && r == s[i..j]
              && (forall k :: 0 <= k < i ==> IsWhiteSpace(s[k]))
              && (forall k :: j <= k < |s| ==> IsWhiteSpace(s[k]))
  {
    var t := TrimStart(s);
    var r := TrimEnd(t);
    TrimSpan(s, t, r);
    r
  }

  /** `t` is `s` without its leading white space and `r` is `t` without its trailing white space: `r` is the span of `s` between the two runs. */
  lemma TrimSpan(s: string, t: string, r: string)
    requires |t| <= |s| && t == s[|s| - |t|..] && (t == [] || !IsWhiteSpace(t[0]))
    requires forall k :: 0 <= k < |s| - |t| ==> IsWhiteSpace(s[k])
    requires |r| <= |t| && r == t[..|r|] && (r == [] || !IsWhiteSpace(r[|r| - 1]))
    requires forall k :: |r| <= k < |t| ==> IsWhiteSpace(t[k])
    ensures r == [] || (!IsWhiteSpace(r[0]) && !IsWhiteSpace(r[|r| - 1]))
    ensures 0 <= |s| - |t| <= |s| - |t| + |r| <= |s| && r == s[|s| - |t|..|s| - |t| + |r|]
    ensures forall k :: 0 <= k < |s| - |t| ==> IsWhiteSpace(s[k])
    ensures forall k :: |s| - |t| + |r| <= k < |s| ==> IsWhiteSpace(s[k])
  {
    var i := |s| - |t|;
    forall k | 0 <= k < |r| ensures r[k] == s[i + k] {
      assert r[k] == t[k];
    }
    forall k | i + |r| <= k < |s| ensures IsWhiteSpace(s[k]) {
      assert s[k] == t[k - i];
    }
    if r != [] {
      assert r[0] == t[0];
    }
  }

  /** How often `m` occurs in `s`. */
  function Occurrences<T(==)>(s: seq<T>, m: T): (n: nat)
    ensures n <= |s|
    decreases |s|
  {
    if s == [] then 0 else (if s[0] == m then 1 else 0) + Occurrences(s[1..], m)
  }

  /** Occurrences add up over concatenation. */
  lemma {:induction false} OccurrencesAppend<T>(a: seq<T>, b: seq<T>, m: T)
    ensures Occurrences(a + b, m) == Occurrences(a, m) + Occurrences(b, m)
    decreases |a|
  {
    if a != [] {
      assert (a + b)[1..] == a[1..] + b;
      OccurrencesAppend(a[1..], b, m);
    } else {
      assert a + b == b;
    }
  }

  /** Extending a prefix by one element counts that element. */
  lemma OccurrencesPrefixStep<T>(s: seq<T>, k: nat, m: T)
    requires k < |s|
    ensures Occurrences(s[..k + 1], m) == Occurrences(s[..k], m) + (if s[k] == m then 1 else 0)
  {
    assert s[..k + 1] == s[..k] + [s[k]];
    OccurrencesAppend(s[..k], [s[k]], m);
    assert [s[k]][1..] == [];
  }

  /** An element occurs a positive number of times exactly when it is in the sequence. */
  lemma {:induction false} OccurrencesPositive<T>(s: seq<T>, m: T)
    ensures Occurrences(s, m) > 0 <==> m in s
    decreases |s|
  {
    if s != [] {
      OccurrencesPositive(s[1..], m);
      assert s == [s[0]] + s[1..];
    }
  }
}
