/** The missing-modules ("unlisted") check: modules the sources import that
    the manifest does not declare where their use needs it. Library use is
    covered by `dependencies` or `peerDependencies`; use by development
    sources alone only by `devDependencies`. */
module MissingModules {
  import opened Sequences
  import opened Imports
  import opened Collector
  import opened Reports

  /** A declaration that covers use by the library sources. */
  predicate DeclaredForLib(pkg: Manifest, name: string) {
    name in pkg.dependencies || name in pkg.peerDependencies
  }

  /** A declaration that covers use by the development sources alone. */
  predicate DeclaredForDev(pkg: Manifest, name: string) {
    name in pkg.devDependencies
  }

  /** Where an undeclared library module shows: its library files, then the
      development files that use it too, each file once. */
  function LibAndDevLocations(m: ImportedModule, devUsage: seq<ImportedModule>): seq<FileInfo> {
    AppendNew(m.dependents, DependentsOf(devUsage, m.name))
  }

  /** Findings against `dependencies`: undeclared modules the library uses. */
  function MissingDependencyEntries(libUsage: seq<ImportedModule>, devUsage: seq<ImportedModule>, pkg: Manifest, ignored: string -> bool): (r: seq<Entry>)
    ensures forall e :: e in r <==>
      exists m :: m in libUsage && !DeclaredForLib(pkg, m.name) && !ignored(m.name)
        && e == Entry(m.name, LibAndDevLocations(m, devUsage))
    decreases |libUsage|
  {
    if libUsage == [] then []
    else
      var m := libUsage[0];
      assert libUsage == [m] + libUsage[1..];
      (if !DeclaredForLib(pkg, m.name) && !ignored(m.name) then [Entry(m.name, LibAndDevLocations(m, devUsage))] else [])
        + MissingDependencyEntries(libUsage[1..], devUsage, pkg, ignored)
  }

  /** Findings against `devDependencies`: undeclared modules that only the
      development sources use. */
  function MissingDevDependencyEntries(libUsage: seq<ImportedModule>, devUsage: seq<ImportedModule>, pkg: Manifest, ignored: string -> bool): (r: seq<Entry>)
    ensures forall e :: e in r <==>
      exists m :: m in devUsage && m.name !in Names(libUsage) && !DeclaredForDev(pkg, m.name) && !ignored(m.name)
        && e == Entry(m.name, m.dependents)
    decreases |devUsage|
  {
    if devUsage == [] then []
    else
      var m := devUsage[0];
      assert devUsage == [m] + devUsage[1..];
      (if m.name !in Names(libUsage) && !DeclaredForDev(pkg, m.name) && !ignored(m.name) then [Entry(m.name, m.dependents)] else [])
        + MissingDevDependencyEntries(libUsage, devUsage[1..], pkg, ignored)
  }

  /** The check: both lists sorted by module name; `ignored` stands for the
      configured ignore patterns. */
  function FindMissingModules(libUsage: seq<ImportedModule>, devUsage: seq<ImportedModule>, pkg: Manifest, ignored: string -> bool): (r: Report)
    ensures SortedByName(r.dependencies) && SortedByName(r.devDependencies)
    ensures forall e :: e in r.dependencies <==>
      exists m :: m in libUsage && !DeclaredForLib(pkg, m.name) && !ignored(m.name)
        && e == Entry(m.name, LibAndDevLocations(m, devUsage))
    ensures forall e :: e in r.devDependencies <==>
      exists m :: m in devUsage && m.name !in Names(libUsage) && !DeclaredForDev(pkg, m.name) && !ignored(m.name)
        && e == Entry(m.name, m.dependents)
  {
    var deps := MissingDependencyEntries(libUsage, devUsage, pkg, ignored);
    var devDeps := MissingDevDependencyEntries(libUsage, devUsage, pkg, ignored);
    forall e ensures e in SortByName(deps) <==> e in deps {
      SortByNameMembership(deps, e);
    }
    forall e ensures e in SortByName(devDeps) <==> e in devDeps {
      SortByNameMembership(devDeps, e);
    }
    Report(SortByName(deps), SortByName(devDeps))
  }

  /** By name: an undeclared, not ignored module is reported against
      `dependencies` exactly when the library uses it. */
  lemma ReportedDependencyNames(libUsage: seq<ImportedModule>, devUsage: seq<ImportedModule>, pkg: Manifest, ignored: string -> bool, name: string)
    ensures name in EntryNames(FindMissingModules(libUsage, devUsage, pkg, ignored).dependencies) <==>
      name in Names(libUsage) && !DeclaredForLib(pkg, name) && !ignored(name)
  {
    var es := FindMissingModules(libUsage, devUsage, pkg, ignored).dependencies;
    if name in EntryNames(es) {
      var i :| 0 <= i < |es| && EntryNames(es)[i] == name;
      assert es[i] in es;
      var m :| m in libUsage && !DeclaredForLib(pkg, m.name) && !ignored(m.name)
        && es[i] == Entry(m.name, LibAndDevLocations(m, devUsage));
      InNames(libUsage, m);
    }
    if name in Names(libUsage) && !DeclaredForLib(pkg, name) && !ignored(name) {
      var m := FromNames(libUsage, name);
      InEntryNames(es, Entry(m.name, LibAndDevLocations(m, devUsage)));
    }
  }

  /** By name: an undeclared, not ignored module is reported against
      `devDependencies` exactly when the development sources use it and the
      library does not. */
  lemma ReportedDevDependencyNames(libUsage: seq<ImportedModule>, devUsage: seq<ImportedModule>, pkg: Manifest, ignored: string -> bool, name: string)
    ensures name in EntryNames(FindMissingModules(libUsage, devUsage, pkg, ignored).devDependencies) <==>
      name !in Names(libUsage) && name in Names(devUsage) && !DeclaredForDev(pkg, name) && !ignored(name)
  {
    var es := FindMissingModules(libUsage, devUsage, pkg, ignored).devDependencies;
    if name in EntryNames(es) {
      var i :| 0 <= i < |es| && EntryNames(es)[i] == name;
      assert es[i] in es;
      var m :| m in devUsage && m.name !in Names(libUsage) && !DeclaredForDev(pkg, m.name) && !ignored(m.name)
        && es[i] == Entry(m.name, m.dependents);
      InNames(devUsage, m);
    }
    if name !in Names(libUsage) && name in Names(devUsage) && !DeclaredForDev(pkg, name) && !ignored(name) {
      var m := FromNames(devUsage, name);
      InEntryNames(es, Entry(m.name, m.dependents));
    }
  }

  /** A module is reported in at most one of the two lists. */
  lemma ReportedOnce(libUsage: seq<ImportedModule>, devUsage: seq<ImportedModule>, pkg: Manifest, ignored: string -> bool, name: string)
    ensures var r := FindMissingModules(libUsage, devUsage, pkg, ignored);
      !(name in EntryNames(r.dependencies) && name in EntryNames(r.devDependencies))
  {
    ReportedDependencyNames(libUsage, devUsage, pkg, ignored, name);
    ReportedDevDependencyNames(libUsage, devUsage, pkg, ignored, name);
  }

  /** Ignored modules are never reported, nor are modules declared in every group. */
  lemma IgnoredOrDeclaredNotReported(libUsage: seq<ImportedModule>, devUsage: seq<ImportedModule>, pkg: Manifest, ignored: string -> bool, name: string)
    requires ignored(name) || (DeclaredForLib(pkg, name) && DeclaredForDev(pkg, name))
    ensures var r := FindMissingModules(libUsage, devUsage, pkg, ignored);
      name !in EntryNames(r.dependencies) && name !in EntryNames(r.devDependencies)
  {
    ReportedDependencyNames(libUsage, devUsage, pkg, ignored, name);
    ReportedDevDependencyNames(libUsage, devUsage, pkg, ignored, name);
  }

  /** Any library use is judged against `dependencies` and `peerDependencies`
      alone: a `devDependencies` declaration does not cover it, and the
      module never shows under `devDependencies`. */
  lemma LibUseJudgedByRuntimeGroups(libUsage: seq<ImportedModule>, devUsage: seq<ImportedModule>, pkg: Manifest, ignored: string -> bool, name: string)
    requires name in Names(libUsage) && !ignored(name)
    ensures var r := FindMissingModules(libUsage, devUsage, pkg, ignored);
      && (name in EntryNames(r.dependencies) <==> name !in pkg.dependencies && name !in pkg.peerDependencies)
      && name !in EntryNames(r.devDependencies)
  {
    ReportedDependencyNames(libUsage, devUsage, pkg, ignored, name);
    ReportedDevDependencyNames(libUsage, devUsage, pkg, ignored, name);
  }

  /** Use by development sources alone is covered only by `devDependencies`. */
  lemma DevOnlyUseJudgedByDevGroup(libUsage: seq<ImportedModule>, devUsage: seq<ImportedModule>, pkg: Manifest, ignored: string -> bool, name: string)
    requires name !in Names(libUsage) && name in Names(devUsage) && !ignored(name)
    ensures var r := FindMissingModules(libUsage, devUsage, pkg, ignored);
      && (name in EntryNames(r.devDependencies) <==> name !in pkg.devDependencies)
      && name !in EntryNames(r.dependencies)
  {
    ReportedDependencyNames(libUsage, devUsage, pkg, ignored, name);
    ReportedDevDependencyNames(libUsage, devUsage, pkg, ignored, name);
  }

  /** The locations of a `dependencies` finding: the module's library files
      first, then its development files, no file twice; when no file is in
      both partitions, simply the two lists one after the other. */
  lemma DependencyLocations(libUsage: seq<ImportedModule>, devUsage: seq<ImportedModule>, pkg: Manifest, ignored: string -> bool, e: Entry)
    requires WellFormed(libUsage) && WellFormed(devUsage)
    requires e in FindMissingModules(libUsage, devUsage, pkg, ignored).dependencies
    ensures DependentsOf(libUsage, e.moduleName) <= e.locations
    ensures NoDuplicates(e.locations)
    ensures forall f :: f in e.locations <==>
      f in DependentsOf(libUsage, e.moduleName) || f in DependentsOf(devUsage, e.moduleName)
    ensures (forall f :: f in DependentsOf(libUsage, e.moduleName) ==> f !in DependentsOf(devUsage, e.moduleName))
      ==> e.locations == DependentsOf(libUsage, e.moduleName) + DependentsOf(devUsage, e.moduleName)
  {
    var m :| m in libUsage && !DeclaredForLib(pkg, m.name) && !ignored(m.name)
      && e == Entry(m.name, LibAndDevLocations(m, devUsage));
    var i :| 0 <= i < |libUsage| && libUsage[i] == m;
    DependentsOfAt(libUsage, i);
    var devFiles := DependentsOf(devUsage, m.name);
    if m.name in Names(devUsage) {
      var j :| 0 <= j < |devUsage| && Names(devUsage)[j] == m.name;
      DependentsOfAt(devUsage, j);
    } else {
      DependentsOfAbsent(devUsage, m.name);
    }
    if forall f :: f in m.dependents ==> f !in devFiles {
      AppendNewDisjoint(m.dependents, devFiles);
    }
  }

  /** The locations of a `devDependencies` finding are its development files. */
  lemma DevDependencyLocations(libUsage: seq<ImportedModule>, devUsage: seq<ImportedModule>, pkg: Manifest, ignored: string -> bool, e: Entry)
    requires WellFormed(devUsage)
    requires e in FindMissingModules(libUsage, devUsage, pkg, ignored).devDependencies
    ensures e.locations == DependentsOf(devUsage, e.moduleName) && NoDuplicates(e.locations)
  {
    var m :| m in devUsage && m.name !in Names(libUsage) && !DeclaredForDev(pkg, m.name) && !ignored(m.name)
      && e == Entry(m.name, m.dependents);
    var i :| 0 <= i < |devUsage| && devUsage[i] == m;
    DependentsOfAt(devUsage, i);
  }

  /** With one record per library module, each name is listed at most once
      against `dependencies`. */
  lemma {:induction false} MissingDependencyEntriesDistinct(libUsage: seq<ImportedModule>, devUsage: seq<ImportedModule>, pkg: Manifest, ignored: string -> bool)
    requires NoDuplicates(Names(libUsage))
    ensures NoDuplicates(EntryNames(MissingDependencyEntries(libUsage, devUsage, pkg, ignored)))
    decreases |libUsage|
  {
    if libUsage != [] {
      var m, tail := libUsage[0], libUsage[1..];
      NamesTail(libUsage);
      NoDuplicatesTail(Names(libUsage));
      MissingDependencyEntriesDistinct(tail, devUsage, pkg, ignored);
      var rest := MissingDependencyEntries(tail, devUsage, pkg, ignored);
      forall x | x in rest ensures x.moduleName != m.name {
        var m' :| m' in tail && !DeclaredForLib(pkg, m'.name) && !ignored(m'.name)
          && x == Entry(m'.name, LibAndDevLocations(m', devUsage));
        InNames(tail, m');
        assert Names(libUsage)[0] == m.name;
      }
      if !DeclaredForLib(pkg, m.name) && !ignored(m.name) {
        assert MissingDependencyEntries(libUsage, devUsage, pkg, ignored) == [Entry(m.name, LibAndDevLocations(m, devUsage))] + rest;
        ConsDistinct(Entry(m.name, LibAndDevLocations(m, devUsage)), rest);
      } else {
        assert MissingDependencyEntries(libUsage, devUsage, pkg, ignored) == rest;
      }
    }
  }

  /** With one record per development module, each name is listed at most
      once against `devDependencies`. */
  lemma {:induction false} MissingDevDependencyEntriesDistinct(libUsage: seq<ImportedModule>, devUsage: seq<ImportedModule>, pkg: Manifest, ignored: string -> bool)
    requires NoDuplicates(Names(devUsage))
    ensures NoDuplicates(EntryNames(MissingDevDependencyEntries(libUsage, devUsage, pkg, ignored)))
    decreases |devUsage|
  {
    if devUsage != [] {
      var m, tail := devUsage[0], devUsage[1..];
      NamesTail(devUsage);
      NoDuplicatesTail(Names(devUsage));
      MissingDevDependencyEntriesDistinct(libUsage, tail, pkg, ignored);
      var rest := MissingDevDependencyEntries(libUsage, tail, pkg, ignored);
      forall x | x in rest ensures x.moduleName != m.name {
        var m' :| m' in tail && m'.name !in Names(libUsage) && !DeclaredForDev(pkg, m'.name) && !ignored(m'.name)
          && x == Entry(m'.name, m'.dependents);
        InNames(tail, m');
        assert Names(devUsage)[0] == m.name;
      }
      if m.name !in Names(libUsage) && !DeclaredForDev(pkg, m.name) && !ignored(m.name) {
        assert MissingDevDependencyEntries(libUsage, devUsage, pkg, ignored) == [Entry(m.name, m.dependents)] + rest;
        ConsDistinct(Entry(m.name, m.dependents), rest);
      } else {
        assert MissingDevDependencyEntries(libUsage, devUsage, pkg, ignored) == rest;
      }
    }
  }

  /** When each usage list holds one record per module, as the collector's
      does, no module is listed twice in either list of the report. */
  lemma ReportsEachModuleOnce(libUsage: seq<ImportedModule>, devUsage: seq<ImportedModule>, pkg: Manifest, ignored: string -> bool)
    requires NoDuplicates(Names(libUsage)) && NoDuplicates(Names(devUsage))
    ensures var r := FindMissingModules(libUsage, devUsage, pkg, ignored);
      NoDuplicates(EntryNames(r.dependencies)) && NoDuplicates(EntryNames(r.devDependencies))
  {
    MissingDependencyEntriesDistinct(libUsage, devUsage, pkg, ignored);
    SortByNameDistinct(MissingDependencyEntries(libUsage, devUsage, pkg, ignored));
    MissingDevDependencyEntriesDistinct(libUsage, devUsage, pkg, ignored);
    SortByNameDistinct(MissingDevDependencyEntries(libUsage, devUsage, pkg, ignored));
  }
}
