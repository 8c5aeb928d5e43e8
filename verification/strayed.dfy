/** The strayed-modules check: modules declared in a dependency group that
    does not match where the sources use them. */
module StrayedModules {
  import opened Sequences
  import opened Collector
  import opened Reports

  /** Which half of the check runs; both default to on. */
  datatype Options = Options(dependencies: bool, devDependencies: bool)

  const DefaultOptions := Options(true, true)

  /** A runtime-group declaration without runtime use: the module is used,
      only by development sources, and declared in `dependencies`, or as a
      peer that is not also a development dependency. */
  predicate StrayedFromDependencies(pkg: Manifest, name: string, usedInLib: bool, usedInDev: bool) {
    usedInDev && !usedInLib &&
    (name in pkg.dependencies || (name in pkg.peerDependencies && name !in pkg.devDependencies))
  }

  /** Library code uses a module declared for development only; a peer
      declaration excuses it. */
  predicate StrayedFromDevDependencies(pkg: Manifest, name: string, usedInLib: bool) {
    usedInLib && name in pkg.devDependencies && name !in pkg.peerDependencies
  }

  /** Findings against `dependencies`, located at the development files. */
  function StrayedDependencyEntries(libUsage: seq<ImportedModule>, devUsage: seq<ImportedModule>, pkg: Manifest): (r: seq<Entry>)
    ensures forall e :: e in r <==>
      exists m :: m in devUsage && e == Entry(m.name, m.dependents)
        && StrayedFromDependencies(pkg, m.name, m.name in Names(libUsage), true)
    decreases |devUsage|
  {
    if devUsage == [] then []
    else
      var m := devUsage[0];
      assert devUsage == [m] + devUsage[1..];
      (if StrayedFromDependencies(pkg, m.name, m.name in Names(libUsage), true) then [Entry(m.name, m.dependents)] else [])
        + StrayedDependencyEntries(libUsage, devUsage[1..], pkg)
  }

  /** Findings against `devDependencies`, located at the library files. */
  function StrayedDevDependencyEntries(libUsage: seq<ImportedModule>, pkg: Manifest): (r: seq<Entry>)
    ensures forall e :: e in r <==>
      exists m :: m in libUsage && e == Entry(m.name, m.dependents) && StrayedFromDevDependencies(pkg, m.name, true)
    decreases |libUsage|
  {
    if libUsage == [] then []
    else
      var m := libUsage[0];
      assert libUsage == [m] + libUsage[1..];
      (if StrayedFromDevDependencies(pkg, m.name, true) then [Entry(m.name, m.dependents)] else [])
        + StrayedDevDependencyEntries(libUsage[1..], pkg)
  }

  /** The check: each enabled half lists its findings sorted by module name. */
  function FindStrayedModules(libUsage: seq<ImportedModule>, devUsage: seq<ImportedModule>, pkg: Manifest, opts: Options): (r: Report)
    ensures SortedByName(r.dependencies) && SortedByName(r.devDependencies)
    ensures forall e :: e in r.dependencies <==>
      (opts.dependencies &&
       exists m :: m in devUsage && e == Entry(m.name, m.dependents)
         && StrayedFromDependencies(pkg, m.name, m.name in Names(libUsage), true))
    ensures forall e :: e in r.devDependencies <==>
      (opts.devDependencies &&
       exists m :: m in libUsage && e == Entry(m.name, m.dependents) && StrayedFromDevDependencies(pkg, m.name, true))
  {
    var deps := StrayedDependencyEntries(libUsage, devUsage, pkg);
    var devDeps := StrayedDevDependencyEntries(libUsage, pkg);
    forall e ensures e in SortByName(deps) <==> e in deps {
      SortByNameMembership(deps, e);
    }
    forall e ensures e in SortByName(devDeps) <==> e in devDeps {
      SortByNameMembership(devDeps, e);
    }
    Report(if opts.dependencies then SortByName(deps) else [],
           if opts.devDependencies then SortByName(devDeps) else [])
  }

  /** The `dependencies` half of the decision table, by name. */
  lemma ReportedDependencyNames(libUsage: seq<ImportedModule>, devUsage: seq<ImportedModule>, pkg: Manifest, opts: Options, name: string)
    ensures name in EntryNames(FindStrayedModules(libUsage, devUsage, pkg, opts).dependencies) <==>
      opts.dependencies && StrayedFromDependencies(pkg, name, name in Names(libUsage), name in Names(devUsage))
  {
    var es := FindStrayedModules(libUsage, devUsage, pkg, opts).dependencies;
    if name in EntryNames(es) {
      var i :| 0 <= i < |es| && EntryNames(es)[i] == name;
      assert es[i] in es;
      var m :| m in devUsage && es[i] == Entry(m.name, m.dependents)
        && StrayedFromDependencies(pkg, m.name, m.name in Names(libUsage), true);
      InNames(devUsage, m);
    }
    if opts.dependencies && StrayedFromDependencies(pkg, name, name in Names(libUsage), name in Names(devUsage)) {
      var m := FromNames(devUsage, name);
      InEntryNames(es, Entry(m.name, m.dependents));
    }
  }

  /** The `devDependencies` half of the decision table, by name. */
  lemma ReportedDevDependencyNames(libUsage: seq<ImportedModule>, devUsage: seq<ImportedModule>, pkg: Manifest, opts: Options, name: string)
    ensures name in EntryNames(FindStrayedModules(libUsage, devUsage, pkg, opts).devDependencies) <==>
      opts.devDependencies && StrayedFromDevDependencies(pkg, name, name in Names(libUsage))
  {
    var es := FindStrayedModules(libUsage, devUsage, pkg, opts).devDependencies;
    if name in EntryNames(es) {
      var i :| 0 <= i < |es| && EntryNames(es)[i] == name;
      assert es[i] in es;
      var m :| m in libUsage && es[i] == Entry(m.name, m.dependents)
        && StrayedFromDevDependencies(pkg, m.name, true);
      InNames(libUsage, m);
    }
    if opts.devDependencies && StrayedFromDevDependencies(pkg, name, name in Names(libUsage)) {
      var m := FromNames(libUsage, name);
      InEntryNames(es, Entry(m.name, m.dependents));
    }
  }

  /** The decision table, by name: a module is reported against a group
      exactly when that half is enabled and its usage and declarations make
      it strayed from that group. */
  lemma ReportedNames(libUsage: seq<ImportedModule>, devUsage: seq<ImportedModule>, pkg: Manifest, opts: Options, name: string)
    ensures var r := FindStrayedModules(libUsage, devUsage, pkg, opts);
      && (name in EntryNames(r.dependencies) <==>
            opts.dependencies && StrayedFromDependencies(pkg, name, name in Names(libUsage), name in Names(devUsage)))
      && (name in EntryNames(r.devDependencies) <==>
            opts.devDependencies && StrayedFromDevDependencies(pkg, name, name in Names(libUsage)))
  {
    ReportedDependencyNames(libUsage, devUsage, pkg, opts, name);
    ReportedDevDependencyNames(libUsage, devUsage, pkg, opts, name);
  }

  /** Missing (undeclared) and unused modules are never strayed. */
  lemma UndeclaredOrUnusedNotReported(libUsage: seq<ImportedModule>, devUsage: seq<ImportedModule>, pkg: Manifest, opts: Options, name: string)
    requires (name !in pkg.dependencies && name !in pkg.devDependencies && name !in pkg.peerDependencies)
          || (name !in Names(libUsage) && name !in Names(devUsage))
    ensures var r := FindStrayedModules(libUsage, devUsage, pkg, opts);
      name !in EntryNames(r.dependencies) && name !in EntryNames(r.devDependencies)
  {
    ReportedNames(libUsage, devUsage, pkg, opts, name);
  }

  /** Any library use justifies a runtime-group declaration. */
  lemma UsedInLibNotStrayedDependency(libUsage: seq<ImportedModule>, devUsage: seq<ImportedModule>, pkg: Manifest, opts: Options, name: string)
    requires name in Names(libUsage)
    ensures name !in EntryNames(FindStrayedModules(libUsage, devUsage, pkg, opts).dependencies)
  {
    ReportedNames(libUsage, devUsage, pkg, opts, name);
  }

  /** A `dependencies` module used only by development sources is reported. */
  lemma DevOnlyDependencyReported(libUsage: seq<ImportedModule>, devUsage: seq<ImportedModule>, pkg: Manifest, name: string)
    requires name in pkg.dependencies && name !in Names(libUsage) && name in Names(devUsage)
    ensures name in EntryNames(FindStrayedModules(libUsage, devUsage, pkg, DefaultOptions).dependencies)
  {
    ReportedNames(libUsage, devUsage, pkg, DefaultOptions, name);
  }

  /** A `devDependencies` module used by library sources is reported, whether
      or not development sources use it too, unless it is also a peer. */
  lemma LibUsedDevDependencyReported(libUsage: seq<ImportedModule>, devUsage: seq<ImportedModule>, pkg: Manifest, opts: Options, name: string)
    requires name in pkg.devDependencies && name in Names(libUsage)
    ensures name in EntryNames(FindStrayedModules(libUsage, devUsage, pkg, opts).devDependencies)
      <==> opts.devDependencies && name !in pkg.peerDependencies
  {
    ReportedNames(libUsage, devUsage, pkg, opts, name);
  }

  /** A peer declaration excuses library use: a peer is never reported against
      `devDependencies`. */
  lemma PeerExcusesLibUse(libUsage: seq<ImportedModule>, devUsage: seq<ImportedModule>, pkg: Manifest, opts: Options, name: string)
    requires name in pkg.peerDependencies
    ensures name !in EntryNames(FindStrayedModules(libUsage, devUsage, pkg, opts).devDependencies)
  {
    ReportedNames(libUsage, devUsage, pkg, opts, name);
  }

  /** A peer used only by development sources is reported against
      `dependencies` unless it is also a development dependency. */
  lemma DevOnlyPeerReported(libUsage: seq<ImportedModule>, devUsage: seq<ImportedModule>, pkg: Manifest, name: string)
    requires name in pkg.peerDependencies && name !in pkg.dependencies
    requires name !in Names(libUsage) && name in Names(devUsage)
    ensures name in EntryNames(FindStrayedModules(libUsage, devUsage, pkg, DefaultOptions).dependencies)
      <==> name !in pkg.devDependencies
  {
    ReportedNames(libUsage, devUsage, pkg, DefaultOptions, name);
  }

  /** Turning one half off empties its list and leaves the other list as it was. */
  lemma OptionsGateHalves(libUsage: seq<ImportedModule>, devUsage: seq<ImportedModule>, pkg: Manifest)
    ensures var full := FindStrayedModules(libUsage, devUsage, pkg, DefaultOptions);
      && FindStrayedModules(libUsage, devUsage, pkg, Options(true, false)) == Report(full.dependencies, [])
      && FindStrayedModules(libUsage, devUsage, pkg, Options(false, true)) == Report([], full.devDependencies)
  {
  }

  /** With one record per development module, each name is listed at most
      once against `dependencies`. */
  lemma {:induction false} StrayedDependencyEntriesDistinct(libUsage: seq<ImportedModule>, devUsage: seq<ImportedModule>, pkg: Manifest)
    requires NoDuplicates(Names(devUsage))
    ensures NoDuplicates(EntryNames(StrayedDependencyEntries(libUsage, devUsage, pkg)))
    decreases |devUsage|
  {
    if devUsage != [] {
      var m, tail := devUsage[0], devUsage[1..];
      NamesTail(devUsage);
      NoDuplicatesTail(Names(devUsage));
      StrayedDependencyEntriesDistinct(libUsage, tail, pkg);
      var rest := StrayedDependencyEntries(libUsage, tail, pkg);
      forall x | x in rest ensures x.moduleName != m.name {
        var m' :| m' in tail && x == Entry(m'.name, m'.dependents)
          && StrayedFromDependencies(pkg, m'.name, m'.name in Names(libUsage), true);
        InNames(tail, m');
        assert Names(devUsage)[0] == m.name;
      }
      if StrayedFromDependencies(pkg, m.name, m.name in Names(libUsage), true) {
        assert StrayedDependencyEntries(libUsage, devUsage, pkg) == [Entry(m.name, m.dependents)] + rest;
        ConsDistinct(Entry(m.name, m.dependents), rest);
      } else {
        assert StrayedDependencyEntries(libUsage, devUsage, pkg) == rest;
      }
    }
  }

  /** With one record per library module, each name is listed at most once
      against `devDependencies`. */
  lemma {:induction false} StrayedDevDependencyEntriesDistinct(libUsage: seq<ImportedModule>, pkg: Manifest)
    requires NoDuplicates(Names(libUsage))
    ensures NoDuplicates(EntryNames(StrayedDevDependencyEntries(libUsage, pkg)))
    decreases |libUsage|
  {
    if libUsage != [] {
      var m, tail := libUsage[0], libUsage[1..];
      NamesTail(libUsage);
      NoDuplicatesTail(Names(libUsage));
      StrayedDevDependencyEntriesDistinct(tail, pkg);
      var rest := StrayedDevDependencyEntries(tail, pkg);
      forall x | x in rest ensures x.moduleName != m.name {
        var m' :| m' in tail && x == Entry(m'.name, m'.dependents) && StrayedFromDevDependencies(pkg, m'.name, true);
        InNames(tail, m');
        assert Names(libUsage)[0] == m.name;
      }
      if StrayedFromDevDependencies(pkg, m.name, true) {
        assert StrayedDevDependencyEntries(libUsage, pkg) == [Entry(m.name, m.dependents)] + rest;
        ConsDistinct(Entry(m.name, m.dependents), rest);
      } else {
        assert StrayedDevDependencyEntries(libUsage, pkg) == rest;
      }
    }
  }

  /** When each usage list holds one record per module, as the collector's
      does, no module is listed twice in either list of the report. */
  lemma ReportsEachModuleOnce(libUsage: seq<ImportedModule>, devUsage: seq<ImportedModule>, pkg: Manifest, opts: Options)
    requires NoDuplicates(Names(libUsage)) && NoDuplicates(Names(devUsage))
    ensures var r := FindStrayedModules(libUsage, devUsage, pkg, opts);
      NoDuplicates(EntryNames(r.dependencies)) && NoDuplicates(EntryNames(r.devDependencies))
  {
    StrayedDependencyEntriesDistinct(libUsage, devUsage, pkg);
    SortByNameDistinct(StrayedDependencyEntries(libUsage, devUsage, pkg));
    StrayedDevDependencyEntriesDistinct(libUsage, pkg);
    SortByNameDistinct(StrayedDevDependencyEntries(libUsage, pkg));
  }
}
