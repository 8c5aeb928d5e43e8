/** The import collector's test cases, each as a lemma about one collection
    pass. `builtins` is any built-in list that holds the four known ones and
    none of the packages the cases import. */
module CollectorScenarios {
  import opened Strings
  import opened Imports
  import opened Sequences
  import opened Collector

  /** `import x from 'spec'`: the form the remaining cases use. */
  function Default(spec: string): ImportDecl {
    ImportDecl(DefaultBinding("x"), spec)
  }

  /** One declaration per import form, in the order of the test. */
  const EveryForm: seq<ImportDecl> := [
    ImportDecl(DefaultBinding("foo"), "foo"),
    ImportDecl(NamespaceBinding("bar"), "bar"),
    ImportDecl(NamedBindings([NamedSpecifier("member", "member")]), "module1"),
    ImportDecl(NamedBindings([NamedSpecifier("ronald", "ron")]), "module2"),
    ImportDecl(NamedBindings([NamedSpecifier("a", "a"), NamedSpecifier("b", "b"), NamedSpecifier("c", "C")]), "module3"),
    ImportDecl(DefaultAndNamed("almost", [NamedSpecifier("member", "member")]), "module4"),
    ImportDecl(DefaultAndNamespace("a", "b"), "module5"),
    ImportDecl(SideEffectOnly, "module6")
  ]

  /** A bare package name: no '/', not relative, not a built-in. */
  predicate Plain(builtins: set<string>, spec: string) {
    '/' !in spec && |spec| > 0 && spec[0] != '.' && spec !in builtins
  }

  function Sources(decls: seq<ImportDecl>): seq<string> {
    seq(|decls|, k requires 0 <= k < |decls| => decls[k].source)
  }

  /** Declarations of bare package names are all kept, as they are, in order. */
  lemma {:induction false} AllPlainKept(builtins: set<string>, decls: seq<ImportDecl>)
    requires forall s :: s in Sources(decls) ==> Plain(builtins, s)
    ensures ExternalModules(builtins, decls) == Sources(decls)
    decreases |decls|
  {
    if decls != [] {
      var d := decls[|decls| - 1];
      var decls' := decls[..|decls| - 1];
      assert Sources(decls) == Sources(decls') + [d.source];
      assert d.source in Sources(decls);
      AllPlainKept(builtins, decls');
      ExternalModulesPrefix(builtins, decls, |decls| - 1);
      TopSegmentOfPlainName(d.source);
    }
  }

  /** One pass over one file: the names it yields, in order. */
  lemma SingleFilePass(builtins: set<string>, file: FileInfo, decls: seq<ImportDecl>)
    ensures Names(CollectAll(builtins, [SourceFile(file, decls)])) == Dedup(ExternalModules(builtins, decls))
  {
    var files := [SourceFile(file, decls)];
    CollectAllNames(builtins, files);
    assert files[..0] == [] && files[0] == SourceFile(file, decls);
    assert ImportedNames(builtins, files) == [] + ExternalModules(builtins, decls);
    assert [] + ExternalModules(builtins, decls) == ExternalModules(builtins, decls);
  }

  lemma PlainFixtureNames(builtins: set<string>)
    requires builtins !! {"foo", "bar", "module1", "module2", "module3", "module4", "module5", "module6"}
    ensures Plain(builtins, "foo") && Plain(builtins, "bar")
    ensures Plain(builtins, "module1") && Plain(builtins, "module2") && Plain(builtins, "module3")
    ensures Plain(builtins, "module4") && Plain(builtins, "module5") && Plain(builtins, "module6")
  {
  }

  const EveryFormNames: seq<string> := ["foo", "bar", "module1", "module2", "module3", "module4", "module5", "module6"]

  lemma EveryFormNamesDistinct()
    ensures NoDuplicates(EveryFormNames)
  {
  }

  lemma EveryFormSources()
    ensures Sources(EveryForm) == EveryFormNames
  {
  }

  lemma RecognizesEveryImportForm(builtins: set<string>)
    requires builtins !! {"foo", "bar", "module1", "module2", "module3", "module4", "module5", "module6"}
    ensures Names(CollectAll(builtins, [SourceFile(AnonymousFile, EveryForm)])) == EveryFormNames
  {
    EveryFormSources();
    PlainFixtureNames(builtins);
    AllPlainKept(builtins, EveryForm);
    SingleFilePass(builtins, AnonymousFile, EveryForm);
    EveryFormNamesDistinct();
    DedupDistinct(EveryFormNames);
  }

  lemma DedupDistinct<T(!new)>(s: seq<T>)
    requires NoDuplicates(s)
    ensures Dedup(s) == s
  {
    AppendNewDisjoint([], s);
  }

  /** `names` without the elements of `dropped`, in order. */
  function Without(names: seq<string>, dropped: set<string>): seq<string>
    decreases |names|
  {
    if names == [] then []
    else
      var last := names[|names| - 1];
      Without(names[..|names| - 1], dropped) + (if last in dropped then [] else [last])
  }

  /** Declarations that are either bare package names or dropped: the names
      are the bare ones, in order. */
  lemma {:induction false} PlainOrDropped(builtins: set<string>, decls: seq<ImportDecl>, dropped: set<string>)
    requires forall s :: s in dropped ==> !IsExternal(builtins, s)
    requires forall s :: s in Sources(decls) ==> s in dropped || Plain(builtins, s)
    ensures ExternalModules(builtins, decls) == Without(Sources(decls), dropped)
    decreases |decls|
  {
    if decls != [] {
      var d := decls[|decls| - 1];
      var decls' := decls[..|decls| - 1];
      assert Sources(decls) == Sources(decls') + [d.source];
      assert d.source in Sources(decls);
      PlainOrDropped(builtins, decls', dropped);
      ExternalModulesPrefix(builtins, decls, |decls| - 1);
      if d.source !in dropped {
        TopSegmentOfPlainName(d.source);
      }
    }
  }

  const RelativeCase: seq<ImportDecl> :=
    [Default("foo"), Default("./bar"), Default("../baz"), Default("./some/dir/qux"), Default("../../../quux")]

  const RelativeDropped := {"./bar", "../baz", "./some/dir/qux", "../../../quux"}

  lemma RelativeCaseShape()
    ensures Sources(RelativeCase) == ["foo", "./bar", "../baz", "./some/dir/qux", "../../../quux"]
    ensures Without(Sources(RelativeCase), RelativeDropped) == ["foo"]
  {
    var ss := ["foo", "./bar", "../baz", "./some/dir/qux", "../../../quux"];
    assert Sources(RelativeCase) == ss;
    assert "foo" !in RelativeDropped by { assert "foo"[0] != '.'; }
    assert Without(ss[..1], RelativeDropped) == ["foo"] by { assert ss[..1][..0] == []; }
    assert Without(ss[..2], RelativeDropped) == ["foo"] by { assert ss[..2][..1] == ss[..1]; }
    assert Without(ss[..3], RelativeDropped) == ["foo"] by { assert ss[..3][..2] == ss[..2]; }
    assert Without(ss[..4], RelativeDropped) == ["foo"] by { assert ss[..4][..3] == ss[..3]; }
    assert ss[..4] == ss[..|ss| - 1];
  }

  lemma RelativeSpecifiers()
    ensures IsRelative("./bar") && IsRelative("../baz") && IsRelative("./some/dir/qux") && IsRelative("../../../quux")
  {
  }

  lemma IgnoresRelativePaths(builtins: set<string>)
    requires "foo" !in builtins
    ensures Names(CollectAll(builtins, [SourceFile(AnonymousFile, RelativeCase)])) == ["foo"]
  {
    RelativeCaseShape();
    RelativeSpecifiers();
    assert Plain(builtins, "foo");
    PlainOrDropped(builtins, RelativeCase, RelativeDropped);
    SingleFilePass(builtins, AnonymousFile, RelativeCase);
    AppendNewOne([], "foo");
  }

  const BuiltinCase: seq<ImportDecl> :=
    [Default("fs"), Default("foo"), Default("path"), Default("crypto"), Default("bar"), Default("assert"), Default("baz")]

  lemma BuiltinCaseSources()
    ensures Sources(BuiltinCase) == ["fs", "foo", "path", "crypto", "bar", "assert", "baz"]
  {
  }

  lemma BuiltinCaseShape()
    ensures Without(Sources(BuiltinCase), KnownBuiltins) == ["foo", "bar", "baz"]
  {
    var ss := ["fs", "foo", "path", "crypto", "bar", "assert", "baz"];
    BuiltinCaseSources();
    assert "foo" !in KnownBuiltins && "bar" !in KnownBuiltins && "baz" !in KnownBuiltins;
    assert Without(ss[..1], KnownBuiltins) == [] by { assert ss[..1][..0] == []; }
    assert Without(ss[..2], KnownBuiltins) == ["foo"] by { assert ss[..2][..1] == ss[..1]; }
    assert Without(ss[..3], KnownBuiltins) == ["foo"] by { assert ss[..3][..2] == ss[..2]; }
    assert Without(ss[..4], KnownBuiltins) == ["foo"] by { assert ss[..4][..3] == ss[..3]; }
    assert Without(ss[..5], KnownBuiltins) == ["foo", "bar"] by { assert ss[..5][..4] == ss[..4]; }
    assert Without(ss[..6], KnownBuiltins) == ["foo", "bar"] by { assert ss[..6][..5] == ss[..5]; }
    assert ss[..6] == ss[..|ss| - 1];
  }

  lemma KnownBuiltinsDropped(builtins: set<string>)
    requires KnownBuiltins <= builtins
    ensures forall s :: s in KnownBuiltins ==> !IsExternal(builtins, s)
  {
    forall s | s in KnownBuiltins ensures !IsExternal(builtins, s) {
      TopSegmentOfPlainName(s);
    }
  }

  lemma FooBarBazDistinct()
    ensures NoDuplicates(["foo", "bar", "baz"])
  {
  }

  lemma IgnoresBuiltinModules(builtins: set<string>)
    requires KnownBuiltins <= builtins && builtins !! {"foo", "bar", "baz"}
    ensures Names(CollectAll(builtins, [SourceFile(AnonymousFile, BuiltinCase)])) == ["foo", "bar", "baz"]
  {
    BuiltinCaseSources();
    BuiltinCaseShape();
    KnownBuiltinsDropped(builtins);
    assert Plain(builtins, "foo") && Plain(builtins, "bar") && Plain(builtins, "baz");
    PlainOrDropped(builtins, BuiltinCase, KnownBuiltins);
    SingleFilePass(builtins, AnonymousFile, BuiltinCase);
    FooBarBazDistinct();
    DedupDistinct(["foo", "bar", "baz"]);
  }

  const SubpathCase: seq<ImportDecl> :=
    [Default("foo"), Default("bar/sub/a"), Default("bar/sub/b"), Default("baz/inner/SomeClass")]

  /** The package of each declaration. */
  function Packages(decls: seq<ImportDecl>): seq<string> {
    seq(|decls|, k requires 0 <= k < |decls| => ModuleName(decls[k].source))
  }

  /** Declarations that are all kept: one name per declaration, its package. */
  lemma {:induction false} AllExternalKept(builtins: set<string>, decls: seq<ImportDecl>)
    requires forall s :: s in Sources(decls) ==> IsExternal(builtins, s)
    ensures ExternalModules(builtins, decls) == Packages(decls)
    decreases |decls|
  {
    if decls != [] {
      var d := decls[|decls| - 1];
      var decls' := decls[..|decls| - 1];
      assert Sources(decls) == Sources(decls') + [d.source];
      assert Packages(decls) == Packages(decls') + [ModuleName(d.source)];
      assert d.source in Sources(decls);
      AllExternalKept(builtins, decls');
      ExternalModulesPrefix(builtins, decls, |decls| - 1);
    }
  }

  lemma SubpathSpecifiers(builtins: set<string>)
    requires builtins !! {"foo", "bar", "baz"}
    ensures IsExternal(builtins, "foo") && ModuleName("foo") == "foo"
    ensures IsExternal(builtins, "bar/sub/a") && ModuleName("bar/sub/a") == "bar"
    ensures IsExternal(builtins, "bar/sub/b") && ModuleName("bar/sub/b") == "bar"
    ensures IsExternal(builtins, "baz/inner/SomeClass") && ModuleName("baz/inner/SomeClass") == "baz"
  {
    TopSegmentOfPlainName("foo");
    NotRelative("foo");
    assert "bar" + "/" + "sub/a" == "bar/sub/a";
    assert "bar" + "/" + "sub/b" == "bar/sub/b";
    assert "baz" + "/" + "inner/SomeClass" == "baz/inner/SomeClass";
    NotRelative("bar/sub/a");
    NotRelative("bar/sub/b");
    NotRelative("baz/inner/SomeClass");
    SubpathImportNamesPackage(builtins, "bar", "sub/a");
    SubpathImportNamesPackage(builtins, "bar", "sub/b");
    SubpathImportNamesPackage(builtins, "baz", "inner/SomeClass");
  }

  lemma SubpathSources()
    ensures Sources(SubpathCase) == ["foo", "bar/sub/a", "bar/sub/b", "baz/inner/SomeClass"]
  {
  }

  lemma SubpathPackages()
    requires ModuleName("foo") == "foo" && ModuleName("bar/sub/a") == "bar"
    requires ModuleName("bar/sub/b") == "bar" && ModuleName("baz/inner/SomeClass") == "baz"
    ensures Packages(SubpathCase) == ["foo", "bar", "bar", "baz"]
  {
  }

  lemma SubpathModules(builtins: set<string>)
    requires builtins !! {"foo", "bar", "baz"}
    ensures ExternalModules(builtins, SubpathCase) == ["foo", "bar", "bar", "baz"]
  {
    SubpathSpecifiers(builtins);
    SubpathSources();
    AllExternalKept(builtins, SubpathCase);
    SubpathPackages();
  }

  /** A specifier that does not start with '.' is not relative. */
  lemma NotRelative(s: string)
    requires |s| > 0 && s[0] != '.'
    ensures !IsRelative(s)
  {
    assert !StartsWith(s, "./") && !StartsWith(s, "../") by {
      assert "./"[0] == '.' && "../"[0] == '.';
    }
  }

  /** The second "bar" is dropped. */
  lemma DedupSubpathNames()
    ensures Dedup(["foo", "bar", "bar", "baz"]) == ["foo", "bar", "baz"]
  {
    var ss := ["foo", "bar", "bar", "baz"];
    assert ss[..3][..2] == ss[..2] && ss[..2][..1] == ss[..1] && ss[..1][..0] == [];
    assert ss[..3] == ss[..|ss| - 1];
    assert AppendNew([], ss[..1]) == ["foo"];
    assert AppendNew([], ss[..2]) == ["foo", "bar"];
    assert AppendNew([], ss[..3]) == ["foo", "bar"];
  }

  lemma IgnoresModulesInSubdirectories(builtins: set<string>)
    requires builtins !! {"foo", "bar", "baz"}
    ensures Names(CollectAll(builtins, [SourceFile(AnonymousFile, SubpathCase)])) == ["foo", "bar", "baz"]
  {
    SubpathModules(builtins);
    SingleFilePass(builtins, AnonymousFile, SubpathCase);
    DedupSubpathNames();
  }

  /** Three library files, each importing two of three modules. */
  const FileA := SourceFile(LibFile("a.js"), [Default("module1"), Default("module2")])
  const FileB := SourceFile(LibFile("b.js"), [Default("module1"), Default("module3")])
  const FileC := SourceFile(LibFile("c.js"), [Default("module2"), Default("module3")])

  lemma TwoPlainKept(builtins: set<string>, x: string, y: string)
    requires Plain(builtins, x) && Plain(builtins, y)
    ensures ExternalModules(builtins, [Default(x), Default(y)]) == [x, y]
  {
    assert Sources([Default(x), Default(y)]) == [x, y];
    AllPlainKept(builtins, [Default(x), Default(y)]);
  }

  lemma ThreeFilesModules(builtins: set<string>)
    requires builtins !! {"module1", "module2", "module3"}
    ensures ExternalModules(builtins, FileA.imports) == ["module1", "module2"]
    ensures ExternalModules(builtins, FileB.imports) == ["module1", "module3"]
    ensures ExternalModules(builtins, FileC.imports) == ["module2", "module3"]
  {
    assert Plain(builtins, "module1") && Plain(builtins, "module2") && Plain(builtins, "module3");
    TwoPlainKept(builtins, "module1", "module2");
    TwoPlainKept(builtins, "module1", "module3");
    TwoPlainKept(builtins, "module2", "module3");
  }

  /** Three searched files: the names imported are theirs, one after the other. */
  lemma ThreeImported(builtins: set<string>, f0: SourceFile, f1: SourceFile, f2: SourceFile)
    ensures ImportedNames(builtins, [f0, f1, f2]) ==
      ExternalModules(builtins, f0.imports) + ExternalModules(builtins, f1.imports) + ExternalModules(builtins, f2.imports)
  {
    var fs := [f0, f1, f2];
    assert fs[..2][..1] == [f0] && [f0][..0] == [];
    assert fs[..2] == fs[..|fs| - 1] == [f0, f1];
    assert ImportedNames(builtins, [f0]) == ExternalModules(builtins, f0.imports);
    assert ImportedNames(builtins, [f0, f1]) == ExternalModules(builtins, f0.imports) + ExternalModules(builtins, f1.imports);
  }

  /** Three searched files: the files importing `name`, in search order. */
  lemma ThreeImporting(builtins: set<string>, f0: SourceFile, f1: SourceFile, f2: SourceFile, name: string)
    ensures FilesImporting(builtins, [f0, f1, f2], name) ==
      (if name in ExternalModules(builtins, f0.imports) then [f0.file] else [])
      + (if name in ExternalModules(builtins, f1.imports) then [f1.file] else [])
      + (if name in ExternalModules(builtins, f2.imports) then [f2.file] else [])
  {
    var fs := [f0, f1, f2];
    assert fs[..2][..1] == [f0] && [f0][..0] == [];
    assert fs[..2] == fs[..|fs| - 1] == [f0, f1];
    assert FilesImporting(builtins, [f0], name) == if name in ExternalModules(builtins, f0.imports) then [f0.file] else [];
  }

  /** A module imported by exactly two of three files: its dependents are those two. */
  lemma TwoOfThree(builtins: set<string>, f0: SourceFile, f1: SourceFile, f2: SourceFile, name: string, first: FileInfo, second: FileInfo)
    requires first != second
    requires FilesImporting(builtins, [f0, f1, f2], name) == [first, second]
    ensures DependentsOf(CollectAll(builtins, [f0, f1, f2]), name) == [first, second]
  {
    CollectAllDependents(builtins, [f0, f1, f2], name);
    DedupDistinct([first, second]);
  }

  /** Appending two elements is appending one, then the other. */
  lemma AppendNewTwo<T(!new)>(acc: seq<T>, a: T, b: T)
    ensures AppendNew(acc, [a, b]) == AppendNew(AppendNew(acc, [a]), [b])
  {
    AppendNewConcat(acc, [a], [b]);
    assert [a] + [b] == [a, b];
  }

  lemma AddSecondPair<T(!new)>(x: T, y: T, z: T)
    requires x != z && y != z
    ensures AppendNew([x, y], [x, z]) == [x, y, z]
  {
    AppendNewTwo([x, y], x, z);
    AppendNewOne([x, y], x);
    AppendNewOne([x, y], z);
  }

  lemma AddThirdPair<T(!new)>(x: T, y: T, z: T)
    ensures AppendNew([x, y, z], [y, z]) == [x, y, z]
  {
    AppendNewTwo([x, y, z], y, z);
    AppendNewOne([x, y, z], y);
    AppendNewOne([x, y, z], z);
  }

  /** First-seen order over the three files' pairs of names. */
  lemma DedupThreePairs<T(!new)>(x: T, y: T, z: T)
    requires x != y && y != z && x != z
    ensures Dedup([x, y] + [x, z] + [y, z]) == [x, y, z]
  {
    AppendNewConcat([], [x, y] + [x, z], [y, z]);
    AppendNewConcat([], [x, y], [x, z]);
    DedupDistinct([x, y]);
    AddSecondPair(x, y, z);
    AddThirdPair(x, y, z);
  }

  lemma ThreeFilesNames(builtins: set<string>)
    requires builtins !! {"module1", "module2", "module3"}
    ensures Names(CollectAll(builtins, [FileA, FileB, FileC])) == ["module1", "module2", "module3"]
  {
    ThreeFilesModules(builtins);
    ThreeImported(builtins, FileA, FileB, FileC);
    CollectAllNames(builtins, [FileA, FileB, FileC]);
    DedupThreePairs("module1", "module2", "module3");
  }

  /** module1's dependents are a.js and b.js, in search order; c.js, which
      does not import it, is not one. */
  lemma Module1Dependents(builtins: set<string>)
    requires builtins !! {"module1", "module2", "module3"}
    ensures DependentsOf(CollectAll(builtins, [FileA, FileB, FileC]), "module1") == [LibFile("a.js"), LibFile("b.js")]
  {
    ThreeFilesModules(builtins);
    ThreeImporting(builtins, FileA, FileB, FileC, "module1");
    assert "module1" !in ["module2", "module3"];
    TwoOfThree(builtins, FileA, FileB, FileC, "module1", LibFile("a.js"), LibFile("b.js"));
  }

  lemma Module2Dependents(builtins: set<string>)
    requires builtins !! {"module1", "module2", "module3"}
    ensures DependentsOf(CollectAll(builtins, [FileA, FileB, FileC]), "module2") == [LibFile("a.js"), LibFile("c.js")]
  {
    ThreeFilesModules(builtins);
    ThreeImporting(builtins, FileA, FileB, FileC, "module2");
    assert "module2" !in ["module1", "module3"];
    TwoOfThree(builtins, FileA, FileB, FileC, "module2", LibFile("a.js"), LibFile("c.js"));
  }

  lemma Module3Dependents(builtins: set<string>)
    requires builtins !! {"module1", "module2", "module3"}
    ensures DependentsOf(CollectAll(builtins, [FileA, FileB, FileC]), "module3") == [LibFile("b.js"), LibFile("c.js")]
  {
    ThreeFilesModules(builtins);
    ThreeImporting(builtins, FileA, FileB, FileC, "module3");
    assert "module3" !in ["module1", "module2"];
    TwoOfThree(builtins, FileA, FileB, FileC, "module3", LibFile("b.js"), LibFile("c.js"));
  }
}
