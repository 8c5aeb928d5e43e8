/** What the validators read and write: the manifest's three dependency
    groups, and a report of two lists of findings sorted by module name. */
module Reports {
  import opened Strings
  import opened Sequences
  import opened Imports

  /** The package descriptor's dependency groups; an absent group is empty. */
  datatype Manifest = Manifest(dependencies: set<string>, devDependencies: set<string>, peerDependencies: set<string>)

  /** One finding: a module and the files that show it. */
  datatype Entry = Entry(moduleName: string, locations: seq<FileInfo>)

  /** Findings against the `dependencies` group and against the `devDependencies` group. */
  datatype Report = Report(dependencies: seq<Entry>, devDependencies: seq<Entry>)

  function EntryNames(es: seq<Entry>): seq<string> {
    seq(|es|, i requires 0 <= i < |es| => es[i].moduleName)
  }

  lemma InEntryNames(es: seq<Entry>, e: Entry)
    requires e in es
    ensures e.moduleName in EntryNames(es)
  {
    var i :| 0 <= i < |es| && es[i] == e;
    assert EntryNames(es)[i] == e.moduleName;
  }

  predicate SortedByName(es: seq<Entry>) {
    forall i, j :: 0 <= i < j < |es| ==> Le(es[i].moduleName, es[j].moduleName)
  }

  /** `e` placed before the first entry of `es` it does not follow. */
  function Insert(e: Entry, es: seq<Entry>): (r: seq<Entry>)
    ensures multiset(r) == multiset(es) + multiset{e}
    decreases |es|
  {
    if es == [] || Le(e.moduleName, es[0].moduleName) then [e] + es
    else
      assert es == [es[0]] + es[1..];
      [es[0]] + Insert(e, es[1..])
  }

  /** Inserting into a sorted list keeps it sorted. */
  lemma {:induction false} InsertSorted(e: Entry, es: seq<Entry>)
    requires SortedByName(es)
    ensures SortedByName(Insert(e, es))
    decreases |es|
  {
    if es == [] || Le(e.moduleName, es[0].moduleName) {
      forall j | 0 <= j < |es| ensures Le(e.moduleName, es[j].moduleName) {
        if j > 0 {
          LeTransitive(e.moduleName, es[0].moduleName, es[j].moduleName);
        }
      }
      var r := [e] + es;
      assert forall j :: 0 < j < |r| ==> r[j] == es[j - 1];
    } else {
      LeTotal(e.moduleName, es[0].moduleName);
      var tail := es[1..];
      assert SortedByName(tail) by {
        assert forall i :: 0 <= i < |tail| ==> tail[i] == es[i + 1];
      }
      InsertSorted(e, tail);
      var rest := Insert(e, tail);
      forall x | x in rest ensures Le(es[0].moduleName, x.moduleName) {
        assert x in multiset(rest);
        if x != e {
          assert x in tail;
        }
      }
      var r := [es[0]] + rest;
      assert forall j :: 0 < j < |r| ==> r[j] == rest[j - 1];
    }
  }

  /** The entries ordered by module name (insertion sort). */
  function SortByName(es: seq<Entry>): (r: seq<Entry>)
    ensures SortedByName(r)
    ensures multiset(r) == multiset(es)
    decreases |es|
  {
    if es == [] then []
    else
      assert es == [es[0]] + es[1..];
      InsertSorted(es[0], SortByName(es[1..]));
      Insert(es[0], SortByName(es[1..]))
  }

  /** Sorting leaves an already sorted list as it is. */
  lemma {:induction false} SortByNameSorted(es: seq<Entry>)
    requires SortedByName(es)
    ensures SortByName(es) == es
    decreases |es|
  {
    if es != [] {
      assert SortedByName(es[1..]) by {
        assert forall i :: 0 <= i < |es| - 1 ==> es[1..][i] == es[i + 1];
      }
      SortByNameSorted(es[1..]);
    }
  }

  /** Sorting keeps exactly the entries it was given. */
  lemma SortByNameMembership(es: seq<Entry>, e: Entry)
    ensures e in SortByName(es) <==> e in es
  {
    assert e in SortByName(es) <==> e in multiset(SortByName(es));
    assert e in es <==> e in multiset(es);
  }

  /** An entry whose name no later entry has can head a list with unique names. */
  lemma ConsDistinct(e: Entry, rest: seq<Entry>)
    requires NoDuplicates(EntryNames(rest))
    requires forall x :: x in rest ==> x.moduleName != e.moduleName
    ensures NoDuplicates(EntryNames([e] + rest))
  {
    var r := [e] + rest;
    forall i, j | 0 <= i < j < |r| ensures EntryNames(r)[i] != EntryNames(r)[j] {
      assert r[j] == rest[j - 1] && rest[j - 1] in rest;
      if i > 0 {
        assert EntryNames(r)[i] == EntryNames(rest)[i - 1];
        assert EntryNames(r)[j] == EntryNames(rest)[j - 1];
      }
    }
  }

  /** Inserting an entry under a new name keeps the names unique. */
  lemma {:induction false} InsertDistinct(e: Entry, es: seq<Entry>)
    requires NoDuplicates(EntryNames(es))
    requires forall x :: x in es ==> x.moduleName != e.moduleName
    ensures NoDuplicates(EntryNames(Insert(e, es)))
    decreases |es|
  {
    if es == [] || Le(e.moduleName, es[0].moduleName) {
      ConsDistinct(e, es);
    } else {
      var tail := es[1..];
      assert EntryNames(tail) == EntryNames(es)[1..];
      NoDuplicatesTail(EntryNames(es));
      InsertDistinct(e, tail);
      var rest := Insert(e, tail);
      forall x | x in rest ensures x.moduleName != es[0].moduleName {
        assert x in multiset(rest);
        if x != e {
          assert x in tail;
          var k :| 0 <= k < |tail| && tail[k] == x;
          assert EntryNames(es)[k + 1] == x.moduleName;
          assert EntryNames(es)[0] == es[0].moduleName;
        }
      }
      ConsDistinct(es[0], rest);
    }
  }

  /** Sorting keeps the names of the entries unique. */
  lemma {:induction false} SortByNameDistinct(es: seq<Entry>)
    requires NoDuplicates(EntryNames(es))
    ensures NoDuplicates(EntryNames(SortByName(es)))
    decreases |es|
  {
    if es != [] {
      var tail := es[1..];
      assert EntryNames(tail) == EntryNames(es)[1..];
      NoDuplicatesTail(EntryNames(es));
      SortByNameDistinct(tail);
      forall x | x in SortByName(tail) ensures x.moduleName != es[0].moduleName {
        SortByNameMembership(tail, x);
        var k :| 0 <= k < |tail| && tail[k] == x;
        assert EntryNames(es)[k + 1] == x.moduleName;
        assert EntryNames(es)[0] == es[0].moduleName;
      }
      InsertDistinct(es[0], SortByName(tail));
    }
  }
}
