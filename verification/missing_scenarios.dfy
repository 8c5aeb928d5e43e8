/** The end-to-end "unlisted" case: two library files and two development
    files, and a manifest and ignore patterns that leave the three fixture
    modules undeclared and unignored. Both library files import
    `ul_used-in-lib` and `ul_used-in-both`; both development files import
    `ul_used-in-dev` and `ul_used-in-both`. */
module MissingScenarios {
  import opened Strings
  import opened Sequences
  import opened Imports
  import opened Collector
  import opened Reports
  import opened MissingModules
  import opened CollectorScenarios

  const InLib := "ul_used-in-lib"
  const InDev := "ul_used-in-dev"
  const InBoth := "ul_used-in-both"

  const LibA := SourceFile(LibFile("lib/a.js"), [Default(InLib), Default(InBoth)])
  const LibB := SourceFile(LibFile("lib/sub/b.js"), [Default(InLib), Default(InBoth)])
  const DevA := SourceFile(DevFile("dev/a.js"), [Default(InDev), Default(InBoth)])
  const DevB := SourceFile(DevFile("dev/sub/b.js"), [Default(InDev), Default(InBoth)])

  /** The manifest declares none of the fixture modules for the use the
      fixtures make of them, and no ignore pattern matches them. */
  predicate Unlisted(pkg: Manifest, ignored: string -> bool) {
    !DeclaredForLib(pkg, InLib) && !DeclaredForLib(pkg, InBoth) && !DeclaredForDev(pkg, InDev)
    && !ignored(InLib) && !ignored(InDev) && !ignored(InBoth)
  }

  /** Recording two names is recording one, then the other. */
  lemma RecordTwo(ms: seq<ImportedModule>, x: string, y: string, file: FileInfo)
    ensures RecordImports(ms, [x, y], file) == WithDependent(WithDependent(ms, x, file), y, file)
  {
    assert [x, y][..1] == [x] && [x][..0] == [];
    assert RecordImports(ms, [x], file) == WithDependent(RecordImports(ms, [], file), x, file);
  }

  /** The first file: a record per module, each naming that file. */
  lemma FirstFileRecords(x: string, y: string, a: FileInfo)
    requires x != y
    ensures RecordImports([], [x, y], a) == [ImportedModule(x, [a]), ImportedModule(y, [a])]
  {
    RecordTwo([], x, y, a);
    assert WithDependent([], x, a) == [ImportedModule(x, [a])];
    assert [ImportedModule(x, [a])][1..] == [];
  }

  /** A second file importing the same modules joins both records. */
  lemma SecondFileRecords(x: string, y: string, a: FileInfo, b: FileInfo)
    requires x != y && a != b
    ensures RecordImports([ImportedModule(x, [a]), ImportedModule(y, [a])], [x, y], b)
      == [ImportedModule(x, [a, b]), ImportedModule(y, [a, b])]
  {
    RecordTwo([ImportedModule(x, [a]), ImportedModule(y, [a])], x, y, b);
    AppendNewOne([a], b);
    assert AppendNew([a], [b]) == [a, b];
    assert [ImportedModule(x, [a]), ImportedModule(y, [a])][1..] == [ImportedModule(y, [a])];
    assert WithDependent([ImportedModule(x, [a]), ImportedModule(y, [a])], x, b)
      == [ImportedModule(x, [a, b]), ImportedModule(y, [a])];
    assert [ImportedModule(x, [a, b]), ImportedModule(y, [a])][1..] == [ImportedModule(y, [a])];
    assert [ImportedModule(y, [a])][1..] == [];
    assert WithDependent([ImportedModule(x, [a, b]), ImportedModule(y, [a])], y, b)
      == [ImportedModule(x, [a, b]), ImportedModule(y, [a, b])];
  }

  /** Two files that import the same two modules: two records, each with both files. */
  lemma TwoFilesSameImports(builtins: set<string>, f0: SourceFile, f1: SourceFile, x: string, y: string)
    requires x != y && f0.file != f1.file
    requires ExternalModules(builtins, f0.imports) == [x, y]
    requires ExternalModules(builtins, f1.imports) == [x, y]
    ensures CollectAll(builtins, [f0, f1]) ==
      [ImportedModule(x, [f0.file, f1.file]), ImportedModule(y, [f0.file, f1.file])]
  {
    assert [f0, f1][..1] == [f0] && [f0][..0] == [];
    FirstFileRecords(x, y, f0.file);
    assert CollectAll(builtins, [f0]) == RecordImports(CollectAll(builtins, []), [x, y], f0.file);
    SecondFileRecords(x, y, f0.file, f1.file);
  }

  /** The three fixture names differ at their twelfth character. */
  lemma FixtureNamesDistinct()
    ensures InLib != InBoth && InDev != InBoth && InLib != InDev
  {
    assert InLib[11] != InBoth[11] && InDev[11] != InBoth[11] && InLib[11] != InDev[11];
  }

  lemma FixtureSpecifiers(builtins: set<string>)
    requires builtins !! {InLib, InDev, InBoth}
    ensures Plain(builtins, InLib) && Plain(builtins, InDev) && Plain(builtins, InBoth)
  {
  }

  /** What the collector finds in each partition. */
  lemma Usage(builtins: set<string>)
    requires builtins !! {InLib, InDev, InBoth}
    ensures CollectAll(builtins, [LibA, LibB]) ==
      [ImportedModule(InLib, [LibFile("lib/a.js"), LibFile("lib/sub/b.js")]),
       ImportedModule(InBoth, [LibFile("lib/a.js"), LibFile("lib/sub/b.js")])]
    ensures CollectAll(builtins, [DevA, DevB]) ==
      [ImportedModule(InDev, [DevFile("dev/a.js"), DevFile("dev/sub/b.js")]),
       ImportedModule(InBoth, [DevFile("dev/a.js"), DevFile("dev/sub/b.js")])]
  {
    FixtureSpecifiers(builtins);
    FixtureNamesDistinct();
    TwoPlainKept(builtins, InLib, InBoth);
    TwoPlainKept(builtins, InDev, InBoth);
    TwoFilesSameImports(builtins, LibA, LibB, InLib, InBoth);
    TwoFilesSameImports(builtins, DevA, DevB, InDev, InBoth);
  }

  /** "ul_used-in-both" sorts before "ul_used-in-lib": they first differ at 'b' and 'l'. */
  lemma BothBeforeLib()
    ensures Le(InBoth, InLib) && !Le(InLib, InBoth)
  {
    var p := "ul_used-in-";
    assert InBoth == p + "both" && InLib == p + "lib";
    CommonPrefix(p, "both", "lib");
    CommonPrefix(p, "lib", "both");
  }

  /** A shared prefix does not change the order. */
  lemma {:induction false} CommonPrefix(p: string, a: string, b: string)
    ensures Le(p + a, p + b) <==> Le(a, b)
    decreases |p|
  {
    if p != [] {
      assert (p + a)[1..] == p[1..] + a && (p + b)[1..] == p[1..] + b;
      CommonPrefix(p[1..], a, b);
    } else {
      assert p + a == a && p + b == b;
    }
  }

  /** Two entries out of order are swapped by the sort. */
  lemma SortTwoSwapped(e1: Entry, e2: Entry)
    requires !Le(e1.moduleName, e2.moduleName)
    ensures SortByName([e1, e2]) == [e2, e1]
  {
    assert [e1, e2][1..] == [e2] && [e2][1..] == [];
    assert SortByName([e2]) == [e2];
    assert [e2][1..] == [];
  }

  /** The `dependencies` findings before sorting: both library modules, the
      shared one with its development files after its library files. */
  lemma DependencyFindings(lib: seq<FileInfo>, dev: seq<FileInfo>, pkg: Manifest, ignored: string -> bool)
    requires Unlisted(pkg, ignored)
    requires NoDuplicates(lib) && NoDuplicates(dev) && (forall f :: f in dev ==> f !in lib)
    ensures MissingDependencyEntries(
              [ImportedModule(InLib, lib), ImportedModule(InBoth, lib)],
              [ImportedModule(InDev, dev), ImportedModule(InBoth, dev)], pkg, ignored)
      == [Entry(InLib, lib), Entry(InBoth, lib + dev)]
  {
    FixtureNamesDistinct();
    var libUsage := [ImportedModule(InLib, lib), ImportedModule(InBoth, lib)];
    var devUsage := [ImportedModule(InDev, dev), ImportedModule(InBoth, dev)];
    assert devUsage[1..] == [ImportedModule(InBoth, dev)] && devUsage[1..][1..] == [];
    assert DependentsOf(devUsage[1..], InLib) == DependentsOf([], InLib) == [];
    assert DependentsOf(devUsage, InLib) == [];
    assert DependentsOf(devUsage, InBoth) == dev;
    assert AppendNew(lib, []) == lib;
    AppendNewDisjoint(lib, dev);
    assert libUsage[1..] == [ImportedModule(InBoth, lib)] && libUsage[1..][1..] == [];
    var tail := MissingDependencyEntries(libUsage[1..], devUsage, pkg, ignored);
    assert MissingDependencyEntries([], devUsage, pkg, ignored) == [];
    assert tail == [Entry(InBoth, lib + dev)];
  }

  /** The `devDependencies` findings: only the module the library does not use. */
  lemma DevDependencyFindings(lib: seq<FileInfo>, dev: seq<FileInfo>, pkg: Manifest, ignored: string -> bool)
    requires Unlisted(pkg, ignored)
    ensures MissingDevDependencyEntries(
              [ImportedModule(InLib, lib), ImportedModule(InBoth, lib)],
              [ImportedModule(InDev, dev), ImportedModule(InBoth, dev)], pkg, ignored)
      == [Entry(InDev, dev)]
  {
    FixtureNamesDistinct();
    var libUsage := [ImportedModule(InLib, lib), ImportedModule(InBoth, lib)];
    var devUsage := [ImportedModule(InDev, dev), ImportedModule(InBoth, dev)];
    assert Names(libUsage) == [InLib, InBoth];
    assert devUsage[1..] == [ImportedModule(InBoth, dev)] && devUsage[1..][1..] == [];
    assert MissingDevDependencyEntries(libUsage, [], pkg, ignored) == [];
    assert MissingDevDependencyEntries(libUsage, devUsage[1..], pkg, ignored) == [];
  }

  /** The report for given usage: the shared module first, by name order. */
  lemma ReportFromUsage(lib: seq<FileInfo>, dev: seq<FileInfo>, pkg: Manifest, ignored: string -> bool)
    requires Unlisted(pkg, ignored)
    requires NoDuplicates(lib) && NoDuplicates(dev) && (forall f :: f in dev ==> f !in lib)
    ensures FindMissingModules(
              [ImportedModule(InLib, lib), ImportedModule(InBoth, lib)],
              [ImportedModule(InDev, dev), ImportedModule(InBoth, dev)], pkg, ignored)
      == Report([Entry(InBoth, lib + dev), Entry(InLib, lib)], [Entry(InDev, dev)])
  {
    DependencyFindings(lib, dev, pkg, ignored);
    DevDependencyFindings(lib, dev, pkg, ignored);
    BothBeforeLib();
    SortTwoSwapped(Entry(InLib, lib), Entry(InBoth, lib + dev));
    assert [Entry(InDev, dev)][1..] == [];
  }

  const LibFiles := [LibFile("lib/a.js"), LibFile("lib/sub/b.js")]
  const DevFiles := [DevFile("dev/a.js"), DevFile("dev/sub/b.js")]

  lemma FixtureFiles()
    ensures NoDuplicates(LibFiles) && NoDuplicates(DevFiles)
    ensures forall f :: f in DevFiles ==> f !in LibFiles
  {
  }

  /** The integration case: modules used but listed nowhere. `ul_used-in-both`
      is reported once, against `dependencies`, at the library files and then
      the development files; `ul_used-in-dev` against `devDependencies`. */
  lemma DetectsUnlistedModules(builtins: set<string>, pkg: Manifest, ignored: string -> bool)
    requires builtins !! {InLib, InDev, InBoth}
    requires Unlisted(pkg, ignored)
    ensures FindMissingModules(CollectAll(builtins, [LibA, LibB]), CollectAll(builtins, [DevA, DevB]), pkg, ignored)
      == Report([Entry(InBoth, LibFiles + DevFiles), Entry(InLib, LibFiles)], [Entry(InDev, DevFiles)])
  {
    Usage(builtins);
    FixtureFiles();
    ReportFromUsage(LibFiles, DevFiles, pkg, ignored);
  }
}
