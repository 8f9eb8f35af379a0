/** The string operations the operator relies on: prefix and suffix trimming, splitting on a
    separator, joining, and the parent/base decomposition at the last separator. */
module Strings {

  predicate HasPrefix(s: string, p: string) {
    p <= s
  }

  predicate HasSuffix(s: string, p: string) {
    |p| <= |s| && s[|s| - |p|..] == p
  }

  /** Removes p from the front of s once, if it is there. */
  function TrimPrefix(s: string, p: string): string {
    if HasPrefix(s, p) then s[|p|..] else s
  }

  /** Removes p from the end of s once, if it is there. */
  function TrimSuffix(s: string, p: string): string {
    if HasSuffix(s, p) then s[..|s| - |p|] else s
  }

  /** Substring test. */
  predicate Contains(s: string, p: string) {
    exists i :: 0 <= i <= |s| - |p| && OccursAt(s, p, i)
  }

  predicate OccursAt(s: string, p: string, i: nat)
    requires i <= |s| - |p|
  {
    s[i..i + |p|] == p
  }

  /** Replaces every occurrence of one character by another. */
  function ReplaceAll(s: string, old_: char, new_: char): (r: string)
    ensures |r| == |s|
    ensures forall i :: 0 <= i < |s| ==> r[i] == (if s[i] == old_ then new_ else s[i])
  {
    if s == "" then "" else [if s[0] == old_ then new_ else s[0]] + ReplaceAll(s[1..], old_, new_)
  }

  function IndexOf(s: string, c: char): (i: nat)
    requires c in s
    ensures i < |s| && s[i] == c && c !in s[..i]
  {
    if s[0] == c then 0 else 1 + IndexOf(s[1..], c)
  }

  /** The parts of s between separators; a string without separator has one part. */
  function Split(s: string, sep: char): (parts: seq<string>)
    ensures |parts| >= 1
    ensures forall p :: p in parts ==> sep !in p
    decreases |s|
  {
    if sep !in s then [s]
    else
      var i := IndexOf(s, sep);
      [s[..i]] + Split(s[i + 1..], sep)
  }

  function Join(parts: seq<string>, sep: char): string {
    if |parts| == 0 then ""
    else if |parts| == 1 then parts[0]
    else parts[0] + [sep] + Join(parts[1..], sep)
  }

  /** The position of the last separator, or -1. */
  function LastIndex(s: string, c: char): (i: int)
    ensures -1 <= i < |s|
    ensures i >= 0 ==> s[i] == c
    ensures forall k :: i < k < |s| ==> s[k] != c
  {
    if s == "" then -1
    else if s[|s| - 1] == c then |s| - 1
    else LastIndex(s[..|s| - 1], c)
  }

  /** The text after the last separator. */
  function Base(s: string, sep: char): string {
    s[LastIndex(s, sep) + 1..]
  }

  /** The text before the last separator; empty when there is none. */
  function Parent(s: string, sep: char): string {
    var i := LastIndex(s, sep);
    if i < 0 then "" else s[..i]
  }

  /** Two renderings that agree and whose first part is free of the separator agree part by part. */
  lemma SeparatorSplitsUniquely(a: string, b: string, sep: char, x: string, y: string)
    requires sep !in a && sep !in b
    requires a + [sep] + x == b + [sep] + y
    ensures a == b && x == y
  {
    var l, r := a + [sep] + x, b + [sep] + y;
    assert l[|a|] == sep && r[|b|] == sep;
    assert forall k :: 0 <= k < |a| ==> l[k] == a[k];
    assert forall k :: 0 <= k < |b| ==> r[k] == b[k];
    assert |a| == |b|;
    assert a == l[..|a|] && b == r[..|b|];
    assert x == l[|a| + 1..] && y == r[|b| + 1..];
  }

  lemma {:induction false} JoinSplit(s: string, sep: char)
    ensures Join(Split(s, sep), sep) == s
    decreases |s|
  {
    if sep in s {
      var i := IndexOf(s, sep);
      JoinSplit(s[i + 1..], sep);
      assert Split(s, sep)[1..] == Split(s[i + 1..], sep);
      assert s == s[..i] + [sep] + s[i + 1..];
    }
  }

  lemma {:induction false} SplitJoin(parts: seq<string>, sep: char)
    requires |parts| >= 1
    requires forall p :: p in parts ==> sep !in p
    ensures Split(Join(parts, sep), sep) == parts
  {
    if |parts| > 1 {
      var rest := Join(parts[1..], sep);
      var s := parts[0] + [sep] + rest;
      assert s == Join(parts, sep);
      assert s[|parts[0]|] == sep;
      var i := IndexOf(s, sep);
      assert s == s[..i] + [sep] + s[i + 1..];
      SeparatorSplitsUniquely(s[..i], parts[0], sep, s[i + 1..], rest);
      SplitJoin(parts[1..], sep);
    }
  }

  lemma {:induction false} JoinLast(parts: seq<string>, sep: char)
    requires |parts| >= 2
    ensures Join(parts, sep) == Join(parts[..|parts| - 1], sep) + [sep] + parts[|parts| - 1]
  {
    if |parts| > 2 {
      JoinLast(parts[1..], sep);
      assert parts[1..][..|parts| - 2] == parts[..|parts| - 1][1..];
    }
  }

  lemma LastSeparator(front: string, last: string, sep: char)
    requires sep !in last
    ensures Base(front + [sep] + last, sep) == last
    ensures Parent(front + [sep] + last, sep) == front
  {
    var s := front + [sep] + last;
    assert s[|front|] == sep;
    assert forall k :: |front| < k < |s| ==> s[k] == last[k - |front| - 1];
    assert LastIndex(s, sep) == |front|;
  }

  lemma NoSeparator(s: string, sep: char)
    requires sep !in s
    ensures Base(s, sep) == s && Split(s, sep) == [s]
  {
    assert LastIndex(s, sep) == -1;
  }

  /** The last-separator decomposition agrees with the split: the base is the last part, and the
      parent splits into the others. */
  lemma {:induction false} BaseAndParentOfSplit(s: string, sep: char, parts: seq<string>)
    requires parts == Split(s, sep)
    ensures Base(s, sep) == parts[|parts| - 1]
    ensures |parts| >= 2 ==> Split(Parent(s, sep), sep) == parts[..|parts| - 1]
  {
    JoinSplit(s, sep);
    if sep !in s {
      NoSeparator(s, sep);
    } else {
      var front := parts[..|parts| - 1];
      JoinLast(parts, sep);
      LastSeparator(Join(front, sep), parts[|parts| - 1], sep);
      SplitJoin(front, sep);
    }
  }
}
