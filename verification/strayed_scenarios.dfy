/** The strayed-modules fixtures: one manifest and, per case, which modules
    the library and the development sources use. */
module StrayedScenarios {
  import opened Strings
  import opened Imports
  import opened Collector
  import opened Reports
  import opened StrayedModules

  const Package := Manifest({"lib-a", "lib-b"}, {"dev-a", "dev-b", "per-b"}, {"per-a", "per-b"})

  /** A usage record for a fixture module; the fixtures do not name files. */
  function Used(name: string): ImportedModule {
    ImportedModule(name, [AnonymousFile])
  }

  function One(name: string): Entry {
    Entry(name, [AnonymousFile])
  }

  /** Two fixture entries already in name order stay as they are. */
  lemma SortedPair(a: string, b: string)
    requires Le(a, b)
    ensures SortByName([One(a), One(b)]) == [One(a), One(b)]
  {
    SortByNameSorted([One(a), One(b)]);
  }

  lemma LibNamesOrdered()
    ensures Le("lib-a", "lib-b")
  {
  }

  lemma DevNamesOrdered()
    ensures Le("dev-a", "dev-b")
  {
  }

  lemma AllUsedInCorrectPlaces()
    ensures FindStrayedModules([Used("lib-a"), Used("lib-b")], [Used("dev-a"), Used("dev-b")], Package, DefaultOptions)
      == Report([], [])
  {
    var lib := [Used("lib-a"), Used("lib-b")];
    var dev := [Used("dev-a"), Used("dev-b")];
    assert StrayedDependencyEntries(lib, dev, Package) == [];
    assert StrayedDevDependencyEntries(lib, Package) == [];
  }

  lemma MissingAndUnusedIgnored()
    ensures FindStrayedModules([Used("lib-a"), Used("lib-z")], [Used("dev-a"), Used("dev-z")], Package, DefaultOptions)
      == Report([], [])
  {
    var lib := [Used("lib-a"), Used("lib-z")];
    var dev := [Used("dev-a"), Used("dev-z")];
    assert StrayedDependencyEntries(lib, dev, Package) == [];
    assert StrayedDevDependencyEntries(lib, Package) == [];
  }

  lemma DependencyUsedInBothNotReported()
    ensures FindStrayedModules([Used("lib-a"), Used("lib-b")], [Used("lib-a")], Package, DefaultOptions)
      == Report([], [])
  {
    var lib := [Used("lib-a"), Used("lib-b")];
    var dev := [Used("lib-a")];
    assert Names(lib) == ["lib-a", "lib-b"];
    assert StrayedDependencyEntries(lib, dev, Package) == [];
    assert StrayedDevDependencyEntries(lib, Package) == [];
  }

  lemma PeerUsedInLibNotReported()
    ensures FindStrayedModules([Used("lib-a"), Used("per-a")], [Used("lib-b"), Used("dev-a"), Used("per-b")], Package, DefaultOptions)
      == Report([One("lib-b")], [])
  {
    var lib := [Used("lib-a"), Used("per-a")];
    var dev := [Used("lib-b"), Used("dev-a"), Used("per-b")];
    assert StrayedDependencyEntries(lib, dev, Package) == [One("lib-b")];
    assert StrayedDevDependencyEntries(lib, Package) == [];
  }

  lemma PeerDevDependencyUsedInLibNotReported()
    ensures FindStrayedModules([Used("per-b")], [], Package, DefaultOptions) == Report([], [])
  {
    assert StrayedDevDependencyEntries([Used("per-b")], Package) == [];
  }

  /** The fixture tags "lib-a" with "div", which is not "lib": it counts as development use. */
  lemma DevOnlyDependenciesReported()
    ensures FindStrayedModules([], [Used("lib-a"), Used("lib-b"), Used("dev-a")], Package, DefaultOptions)
      == Report([One("lib-a"), One("lib-b")], [])
  {
    var dev := [Used("lib-a"), Used("lib-b"), Used("dev-a")];
    assert StrayedDependencyEntries([], dev[2..], Package) == [];
    assert StrayedDependencyEntries([], dev[1..], Package) == [One("lib-b")];
    assert StrayedDependencyEntries([], dev, Package) == [One("lib-a"), One("lib-b")];
    LibNamesOrdered();
    SortedPair("lib-a", "lib-b");
  }

  lemma LibUsedDevDependenciesReported()
    ensures FindStrayedModules([Used("lib-a"), Used("dev-a"), Used("dev-b")], [Used("dev-b")], Package, DefaultOptions)
      == Report([], [One("dev-a"), One("dev-b")])
  {
    var lib := [Used("lib-a"), Used("dev-a"), Used("dev-b")];
    assert StrayedDependencyEntries(lib, [Used("dev-b")], Package) == [];
    assert StrayedDevDependencyEntries(lib, Package) == [One("dev-a"), One("dev-b")];
    DevNamesOrdered();
    SortedPair("dev-a", "dev-b");
  }

  lemma PeerUsedOnlyInDevReported()
    ensures FindStrayedModules([Used("lib-a")], [Used("per-a"), Used("dev-a")], Package, DefaultOptions)
      == Report([One("per-a")], [])
  {
    assert StrayedDependencyEntries([Used("lib-a")], [Used("per-a"), Used("dev-a")], Package) == [One("per-a")];
    assert StrayedDevDependencyEntries([Used("lib-a")], Package) == [];
  }

  lemma OnlyDependenciesTargeted()
    ensures FindStrayedModules([Used("lib-a"), Used("dev-a")], [Used("lib-b"), Used("dev-b")], Package, Options(true, false))
      == Report([One("lib-b")], [])
  {
    var lib := [Used("lib-a"), Used("dev-a")];
    assert StrayedDependencyEntries(lib, [Used("lib-b"), Used("dev-b")], Package) == [One("lib-b")];
  }

  lemma OnlyDevDependenciesTargeted()
    ensures FindStrayedModules([Used("lib-a"), Used("dev-a")], [Used("lib-b"), Used("dev-b")], Package, Options(false, true))
      == Report([], [One("dev-a")])
  {
    assert StrayedDevDependencyEntries([Used("lib-a"), Used("dev-a")], Package) == [One("dev-a")];
  }
}
