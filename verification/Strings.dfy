/** The string operations of the Go and Rust standard libraries the functions rely on. */
module Strings {
  import opened Wrappers

  predicate StartsWith(s: string, prefix: string) {
    |prefix| <= |s| && s[..|prefix|] == prefix
  }

  function StripPrefix(s: string, prefix: string): Option<string> {
    if StartsWith(s, prefix) then Some(s[|prefix|..]) else None
  }

  /** The first position of `sep` in `s`, or None. */
  function Find(s: string, sep: string): Option<nat>
    decreases |s|
  {
    if StartsWith(s, sep) then Some(0)
    else if s == "" then None
    else match Find(s[1..], sep)
      case Some(i) => Some(i + 1)
      case None => None
  }

  predicate Contains(s: string, sub: string) {
    Find(s, sub).Some?
  }

  function UpTo(s: string, c: char): string {
    if s == "" || s[0] == c then "" else [s[0]] + UpTo(s[1..], c)
  }

  /** What follows the last `c`, or all of `s` if it has none. */
  function AfterLast(s: string, c: char): string {
    if s == "" || s[|s| - 1] == c then "" else AfterLast(s[..|s| - 1], c) + [s[|s| - 1]]
  }

  function TrimLeft(s: string, space: char -> bool): string {
    if s == "" || !space(s[0]) then s else TrimLeft(s[1..], space)
  }

  function TrimRight(s: string, space: char -> bool): string {
    if s == "" || !space(s[|s| - 1]) then s else TrimRight(s[..|s| - 1], space)
  }

  function Trim(s: string, space: char -> bool): string {
    TrimRight(TrimLeft(s, space), space)
  }

  /** The parts between the occurrences of `c`. */
  function SplitAt(s: string, c: char): (parts: seq<string>)
    ensures parts != [] && forall p <- parts :: c !in p
  {
    if s == "" then [""]
    else
      var rest := SplitAt(s[1..], c);
      if s[0] == c then [""] + rest else [[s[0]] + rest[0]] + rest[1..]
  }

  function Join(parts: seq<string>, c: char): string
    requires parts != []
  {
    if |parts| == 1 then parts[0] else parts[0] + [c] + Join(parts[1..], c)
  }

  lemma {:induction false} JoinOfSplit(s: string, c: char)
    ensures Join(SplitAt(s, c), c) == s
  {
    if s != "" {
      var rest := SplitAt(s[1..], c);
      JoinOfSplit(s[1..], c);
      if s[0] == c {
        assert ([""] + rest)[1..] == rest;
      } else {
        assert ([[s[0]] + rest[0]] + rest[1..])[1..] == rest[1..];
      }
    }
  }

  lemma {:induction false} SplitOfConcat(a: string, rest: string, c: char)
    requires c !in a
    ensures SplitAt(a, c) == [a]
    ensures SplitAt(a + [c] + rest, c) == [a] + SplitAt(rest, c)
  {
    if a == "" {
      assert a + [c] + rest == [c] + rest;
    } else {
      SplitOfConcat(a[1..], rest, c);
      assert (a + [c] + rest)[1..] == a[1..] + [c] + rest;
      assert [a[0]] + a[1..] == a;
    }
  }

  lemma {:induction false} SplitOfJoin(parts: seq<string>, c: char)
    requires parts != [] && forall p <- parts :: c !in p
    ensures SplitAt(Join(parts, c), c) == parts
  {
    if |parts| == 1 {
      SplitOfConcat(parts[0], "", c);
    } else {
      SplitOfJoin(parts[1..], c);
      SplitOfConcat(parts[0], Join(parts[1..], c), c);
    }
  }

  // ---------------------------------------------------------------------------------------
  // What the operations find.

  lemma StripPrefixMeans(s: string, prefix: string, rest: string)
    ensures StripPrefix(s, prefix) == Some(rest) <==> s == prefix + rest
  {
    if s == prefix + rest {
      assert s[..|prefix|] == prefix && s[|prefix|..] == rest;
    }
  }

  /** Whether `sub` is in `s` at the position. */
  predicate IsAt(s: string, sub: string, i: nat) {
    i + |sub| <= |s| && s[i..i + |sub|] == sub
  }

  lemma SliceOfTail(s: string, i: nat, j: nat)
    requires 1 <= i <= j <= |s|
    ensures s[1..][i - 1..j - 1] == s[i..j]
  {
  }

  lemma IsAtTail(s: string, sub: string, i: nat)
    requires i > 0 && s != ""
    ensures IsAt(s, sub, i) == IsAt(s[1..], sub, i - 1)
  {
    if i + |sub| <= |s| {
      SliceOfTail(s, i, i + |sub|);
    }
  }

  lemma {:induction false} FindIsFirst(s: string, sep: string)
    ensures match Find(s, sep)
            case Some(i) => IsAt(s, sep, i) && forall j: nat :: j < i ==> !IsAt(s, sep, j)
            case None => forall j: nat :: !IsAt(s, sep, j)
    decreases |s|
  {
    if !StartsWith(s, sep) {
      assert !IsAt(s, sep, 0);
      if s != "" {
        FindIsFirst(s[1..], sep);
        forall j: nat | j > 0
          ensures IsAt(s, sep, j) == IsAt(s[1..], sep, j - 1)
        {
          IsAtTail(s, sep, j);
        }
      }
    }
  }

  lemma FindIs(s: string, sep: string, i: nat)
    requires IsAt(s, sep, i) && forall j: nat :: j < i ==> !IsAt(s, sep, j)
    ensures Find(s, sep) == Some(i)
  {
    FindIsFirst(s, sep);
  }

  lemma ContainsMeans(s: string, sub: string)
    ensures Contains(s, sub) <==> exists i: nat :: IsAt(s, sub, i)
  {
    FindIsFirst(s, sub);
  }

  lemma {:induction false} UpToIsFirstPart(s: string, c: char)
    ensures UpTo(s, c) <= s && c !in UpTo(s, c)
    ensures UpTo(s, c) == s || s[|UpTo(s, c)|] == c
  {
    if s != "" && s[0] != c {
      UpToIsFirstPart(s[1..], c);
    }
  }

  lemma {:induction false} AfterLastIsLastPart(s: string, c: char)
    ensures var t := AfterLast(s, c);
            && |t| <= |s| && s[|s| - |t|..] == t && c !in t
            && (t == s || s[|s| - |t| - 1] == c)
  {
    if s != "" && s[|s| - 1] != c {
      AfterLastIsLastPart(s[..|s| - 1], c);
    }
  }

  lemma {:induction false} AfterLastOf(prefix: string, name: string, c: char)
    requires c !in name
    ensures AfterLast(prefix + [c] + name, c) == name
  {
    var s := prefix + [c] + name;
    if name != "" {
      var n := |name| - 1;
      assert s[..|s| - 1] == prefix + [c] + name[..n];
      AfterLastOf(prefix, name[..n], c);
    }
  }

  lemma {:induction false} UpToOf(first: string, rest: string, c: char)
    requires c !in first
    ensures UpTo(first + [c] + rest, c) == first
  {
    var s := first + [c] + rest;
    if first != "" {
      assert s[1..] == first[1..] + [c] + rest;
      UpToOf(first[1..], rest, c);
    }
  }

  /** `t` is `s` without what is to be trimmed at its start and end. */
  ghost predicate IsTrimmed(s: string, t: string, space: char -> bool) {
    && (t != "" ==> !space(t[0]) && !space(t[|t| - 1]))
    && exists i: nat :: IsAt(s, t, i) && forall j: nat :: j < |s| && !(i <= j < i + |t|) ==> space(s[j])
  }

  lemma {:induction false} TrimLeftMeans(s: string, space: char -> bool)
    ensures var t := TrimLeft(s, space);
            && |t| <= |s| && IsAt(s, t, |s| - |t|) && (t != "" ==> !space(t[0]))
            && forall j: nat :: j < |s| - |t| ==> space(s[j])
  {
    if s != "" && space(s[0]) {
      var t := TrimLeft(s, space);
      TrimLeftMeans(s[1..], space);
      IsAtTail(s, t, |s| - |t|);
      assert forall j: nat :: 0 < j < |s| ==> s[1..][j - 1] == s[j];
    }
  }

  lemma {:induction false} TrimRightMeans(s: string, space: char -> bool)
    ensures var t := TrimRight(s, space);
            && t <= s && (t != "" ==> !space(t[|t| - 1]))
            && forall j: nat :: |t| <= j < |s| ==> space(s[j])
  {
    if s != "" && space(s[|s| - 1]) {
      TrimRightMeans(s[..|s| - 1], space);
      assert forall j: nat :: j < |s| - 1 ==> s[..|s| - 1][j] == s[j];
    }
  }

  lemma TrimIsTrimmed(s: string, space: char -> bool)
    ensures IsTrimmed(s, Trim(s, space), space)
  {
    TrimLeftMeans(s, space);
    TrimRightMeans(TrimLeft(s, space), space);
    TrimmedBothSides(s, TrimLeft(s, space), Trim(s, space), space);
  }

  lemma TrimmedBothSides(s: string, l: string, t: string, space: char -> bool)
    requires |l| <= |s| && IsAt(s, l, |s| - |l|) && forall j: nat :: j < |s| - |l| ==> space(s[j])
    requires t <= l && forall j: nat :: |t| <= j < |l| ==> space(l[j])
    requires t != "" ==> !space(t[0]) && !space(t[|t| - 1])
    ensures IsTrimmed(s, t, space)
  {
    var i := |s| - |l|;
    forall j: nat | j < |l|
      ensures s[i + j] == l[j]
    {
      assert s[i..i + |l|][j] == l[j];
    }
    assert s[i..i + |t|] == t;
    assert IsAt(s, t, i);
    forall j: nat | j < |s| && !(i <= j < i + |t|)
      ensures space(s[j])
    {
      assert j >= i ==> s[j] == l[j - i];
    }
  }
}
