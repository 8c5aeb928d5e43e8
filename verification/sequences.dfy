/** Ordered sets kept as sequences: appending while skipping what is already
    present, which is how both the collected module names and each module's
    dependent files grow. */
module Sequences {

  predicate NoDuplicates<T(==)>(s: seq<T>) {
    forall i, j :: 0 <= i < j < |s| ==> s[i] != s[j]
  }

  lemma NoDuplicatesTail<T>(s: seq<T>)
    requires NoDuplicates(s) && s != []
    ensures NoDuplicates(s[1..])
  {
    assert forall i :: 0 <= i < |s| - 1 ==> s[1..][i] == s[i + 1];
  }

  /** `acc` extended by the elements of `s`, in order, each one only if it is
      not there yet. */
  function AppendNew<T(==, !new)>(acc: seq<T>, s: seq<T>): (r: seq<T>)
    ensures acc <= r
    ensures forall x :: x in r <==> x in acc || x in s
    ensures NoDuplicates(acc) ==> NoDuplicates(r)
    decreases |s|
  {
    if s == [] then acc
    else
      var a := AppendNew(acc, s[..|s| - 1]);
      if s[|s| - 1] in a then a else a + [s[|s| - 1]]
  }

  /** The elements of `s` in the order of their first occurrence. */
  function Dedup<T(==, !new)>(s: seq<T>): (r: seq<T>)
    ensures NoDuplicates(r)
    ensures forall x :: x in r <==> x in s
  {
    AppendNew([], s)
  }

  /** Appending one element: it is added at the end exactly when it is new. */
  lemma AppendNewOne<T(!new)>(acc: seq<T>, x: T)
    ensures AppendNew(acc, [x]) == if x in acc then acc else acc + [x]
  {
    assert [x][..0] == [];
  }

  /** Appending is a fold: two batches in a row equal one concatenated batch. */
  lemma {:induction false} AppendNewConcat<T(!new)>(acc: seq<T>, s: seq<T>, t: seq<T>)
    ensures AppendNew(acc, s + t) == AppendNew(AppendNew(acc, s), t)
    decreases |t|
  {
    if t == [] {
      assert s + t == s;
    } else {
      var t' := t[..|t| - 1];
      assert (s + t)[..|s + t| - 1] == s + t';
      assert (s + t)[|s + t| - 1] == t[|t| - 1];
      AppendNewConcat(acc, s, t');
    }
  }

  /** Appending an element that is already present changes nothing. */
  lemma AppendNewPresent<T(!new)>(acc: seq<T>, x: T)
    requires x in acc
    ensures AppendNew(acc, [x]) == acc
  {
    AppendNewOne(acc, x);
  }

  /** Two duplicate-free sequences with no element in common are joined by
      plain concatenation. */
  lemma {:induction false} AppendNewDisjoint<T(!new)>(acc: seq<T>, s: seq<T>)
    requires NoDuplicates(acc) && NoDuplicates(s)
    requires forall x :: x in s ==> x !in acc
    ensures AppendNew(acc, s) == acc + s
    decreases |s|
  {
    if s != [] {
      var s' := s[..|s| - 1];
      assert NoDuplicates(s');
      AppendNewDisjoint(acc, s');
      var x := s[|s| - 1];
      assert forall k :: 0 <= k < |s'| ==> s'[k] == s[k] != s[|s| - 1];
      assert acc + s' + [x] == acc + s;
    }
  }
}
