/** Text helpers used by the import collector and by the reports:
    prefix tests, the leading path segment of a module specifier, and the
    lexicographic order that report entries are sorted by. */
module Strings {

  predicate StartsWith(s: string, prefix: string) {
    |prefix| <= |s| && s[..|prefix|] == prefix
  }

  /** The part of `s` before its first '/' (all of `s` when it has none). */
  function TopSegment(s: string): (r: string)
    ensures r <= s
    ensures '/' !in r
    ensures |r| < |s| ==> s[|r|] == '/'
  {
    if s == [] || s[0] == '/' then [] else [s[0]] + TopSegment(s[1..])
  }

  /** The three properties of TopSegment determine it: the leading segment
      of `pkg + "/" + rest` is `pkg` whenever `pkg` has no '/'. */
  lemma TopSegmentOfSubpath(pkg: string, rest: string)
    requires '/' !in pkg
    ensures TopSegment(pkg + "/" + rest) == pkg
  {
    var s := pkg + "/" + rest;
    var r := TopSegment(s);
    assert forall i :: 0 <= i < |pkg| ==> s[i] == pkg[i] && pkg[i] != '/';
    assert forall i :: 0 <= i < |r| ==> s[i] == r[i] && r[i] != '/';
    assert s[|pkg|] == '/';
    assert |r| == |pkg|;
    assert r == s[..|r|] == pkg;
  }

  /** A specifier without '/' is its own leading segment. */
  lemma TopSegmentOfPlainName(s: string)
    requires '/' !in s
    ensures TopSegment(s) == s
  {
    assert forall i :: 0 <= i < |s| ==> s[i] != '/';
  }

  /** Lexicographic order on strings: a proper prefix comes first, otherwise
      the first differing character decides. */
  predicate Le(a: string, b: string)
    decreases |a|
  {
    a == [] || (b != [] && (a[0] < b[0] || (a[0] == b[0] && Le(a[1..], b[1..]))))
  }

  lemma {:induction false} LeReflexive(a: string)
    ensures Le(a, a)
    decreases |a|
  {
    if a != [] {
      LeReflexive(a[1..]);
    }
  }

  lemma {:induction false} LeTotal(a: string, b: string)
    ensures Le(a, b) || Le(b, a)
    decreases |a|
  {
    if a != [] && b != [] && a[0] == b[0] {
      LeTotal(a[1..], b[1..]);
    }
  }

  lemma {:induction false} LeTransitive(a: string, b: string, c: string)
    requires Le(a, b) && Le(b, c)
    ensures Le(a, c)
    decreases |a|
  {
    if a != [] && a[0] == b[0] && b[0] == c[0] {
      LeTransitive(a[1..], b[1..], c[1..]);
    }
  }

  lemma {:induction false} LeAntisymmetric(a: string, b: string)
    requires Le(a, b) && Le(b, a)
    ensures a == b
    decreases |a|
  {
    if a != [] {
      LeAntisymmetric(a[1..], b[1..]);
      assert a == [a[0]] + a[1..];
      assert b == [b[0]] + b[1..];
    }
  }
}
