/** The import collector: a reusable object that accumulates, across calls to
    SearchImports, the external modules that source files import and, for each
    module, the files that import it; ClearFoundModules starts a new pass. */
module Collector {
  import opened Sequences
  import opened Imports

  /** One external module and the files that import it, in first-import order. */
  datatype ImportedModule = ImportedModule(name: string, dependents: seq<FileInfo>)

  function Names(ms: seq<ImportedModule>): seq<string> {
    seq(|ms|, i requires 0 <= i < |ms| => ms[i].name)
  }

  /** A record's name is among the names, and every name has a record. */
  lemma InNames(ms: seq<ImportedModule>, m: ImportedModule)
    requires m in ms
    ensures m.name in Names(ms)
  {
    var i :| 0 <= i < |ms| && ms[i] == m;
    assert Names(ms)[i] == m.name;
  }

  lemma FromNames(ms: seq<ImportedModule>, name: string) returns (m: ImportedModule)
    requires name in Names(ms)
    ensures m in ms && m.name == name
  {
    var i :| 0 <= i < |ms| && Names(ms)[i] == name;
    m := ms[i];
  }

  /** One record per name, and every record holds at least one file, none twice. */
  predicate WellFormed(ms: seq<ImportedModule>) {
    NoDuplicates(Names(ms)) &&
    forall i :: 0 <= i < |ms| ==> ms[i].dependents != [] && NoDuplicates(ms[i].dependents)
  }

  /** The files recorded for `name`; empty when no record has that name. */
  function DependentsOf(ms: seq<ImportedModule>, name: string): seq<FileInfo> {
    if ms == [] then []
    else if ms[0].name == name then ms[0].dependents
    else DependentsOf(ms[1..], name)
  }

  lemma NamesTail(ms: seq<ImportedModule>)
    requires ms != []
    ensures Names(ms) == [ms[0].name] + Names(ms[1..])
  {
  }

  /** In a collection with one record per name, DependentsOf finds that record. */
  lemma {:induction false} DependentsOfAt(ms: seq<ImportedModule>, i: int)
    requires NoDuplicates(Names(ms)) && 0 <= i < |ms|
    ensures DependentsOf(ms, ms[i].name) == ms[i].dependents
    decreases |ms|
  {
    if i > 0 {
      NamesTail(ms);
      NoDuplicatesTail(Names(ms));
      assert Names(ms)[0] != Names(ms)[i];
      assert ms[1..][i - 1] == ms[i];
      DependentsOfAt(ms[1..], i - 1);
    }
  }

  lemma {:induction false} DependentsOfAbsent(ms: seq<ImportedModule>, name: string)
    requires name !in Names(ms)
    ensures DependentsOf(ms, name) == []
    decreases |ms|
  {
    if ms != [] {
      NamesTail(ms);
      DependentsOfAbsent(ms[1..], name);
    }
  }

  /** Obtain-or-create: `file` becomes a dependent of the record named `name`,
      which is appended at the end when there is none yet. */
  function WithDependent(ms: seq<ImportedModule>, name: string, file: FileInfo): seq<ImportedModule>
    decreases |ms|
  {
    if ms == [] then [ImportedModule(name, [file])]
    else if ms[0].name == name then [ms[0].(dependents := AppendNew(ms[0].dependents, [file]))] + ms[1..]
    else [ms[0]] + WithDependent(ms[1..], name, file)
  }

  /** A name is added to the names only the first time it is seen. */
  lemma {:induction false} WithDependentNames(ms: seq<ImportedModule>, name: string, file: FileInfo)
    ensures Names(WithDependent(ms, name, file)) == AppendNew(Names(ms), [name])
    decreases |ms|
  {
    AppendNewOne(Names(ms), name);
    var r := WithDependent(ms, name, file);
    if ms == [] {
    } else if ms[0].name == name {
      NamesTail(ms);
      NamesTail(r);
      assert r[1..] == ms[1..];
    } else {
      NamesTail(ms);
      NamesTail(r);
      assert r[1..] == WithDependent(ms[1..], name, file);
      WithDependentNames(ms[1..], name, file);
      AppendNewOne(Names(ms[1..]), name);
    }
  }

  /** Only the record named `name` gains a dependent; all others are unchanged. */
  lemma {:induction false} WithDependentDependents(ms: seq<ImportedModule>, name: string, file: FileInfo, k: string)
    ensures DependentsOf(WithDependent(ms, name, file), k) ==
      if k == name then AppendNew(DependentsOf(ms, k), [file]) else DependentsOf(ms, k)
    decreases |ms|
  {
    if ms == [] {
      AppendNewOne([], file);
    } else if ms[0].name != name {
      WithDependentDependents(ms[1..], name, file, k);
    }
  }

  /** Adding a dependent keeps one record per name and no file twice. */
  lemma {:induction false} WithDependentWellFormed(ms: seq<ImportedModule>, name: string, file: FileInfo)
    requires WellFormed(ms)
    ensures WellFormed(WithDependent(ms, name, file))
    decreases |ms|
  {
    WithDependentNames(ms, name, file);
    var r := WithDependent(ms, name, file);
    if ms == [] {
    } else if ms[0].name == name {
      AppendNewOne(ms[0].dependents, file);
      assert forall i :: 1 <= i < |r| ==> r[i] == ms[i];
    } else {
      NamesTail(ms);
      assert WellFormed(ms[1..]) by {
        NoDuplicatesTail(Names(ms));
        assert forall i :: 0 <= i < |ms| - 1 ==> ms[1..][i] == ms[i + 1];
      }
      WithDependentWellFormed(ms[1..], name, file);
      assert forall i :: 1 <= i < |r| ==> r[i] == WithDependent(ms[1..], name, file)[i - 1];
    }
  }

  /** When `i` is the record named `name`, only that record changes. */
  lemma {:induction false} WithDependentAt(ms: seq<ImportedModule>, name: string, file: FileInfo, i: int)
    requires 0 <= i < |ms| && ms[i].name == name
    requires forall j :: 0 <= j < i ==> ms[j].name != name
    ensures WithDependent(ms, name, file) == ms[i := ms[i].(dependents := AppendNew(ms[i].dependents, [file]))]
    decreases |ms|
  {
    if i > 0 {
      WithDependentAt(ms[1..], name, file, i - 1);
    }
  }

  /** When no record is named `name`, a new one-file record is appended. */
  lemma {:induction false} WithDependentNew(ms: seq<ImportedModule>, name: string, file: FileInfo)
    requires forall j :: 0 <= j < |ms| ==> ms[j].name != name
    ensures WithDependent(ms, name, file) == ms + [ImportedModule(name, [file])]
    decreases |ms|
  {
    if ms != [] {
      WithDependentNew(ms[1..], name, file);
    }
  }

  /** The records after `file`'s module names have been registered in order. */
  function RecordImports(ms: seq<ImportedModule>, names: seq<string>, file: FileInfo): seq<ImportedModule>
    decreases |names|
  {
    if names == [] then ms
    else WithDependent(RecordImports(ms, names[..|names| - 1], file), names[|names| - 1], file)
  }

  /** New names are appended in first-seen order, without repetition. */
  lemma {:induction false} RecordImportsNames(ms: seq<ImportedModule>, names: seq<string>, file: FileInfo)
    ensures Names(RecordImports(ms, names, file)) == AppendNew(Names(ms), names)
    decreases |names|
  {
    if names != [] {
      var names' := names[..|names| - 1];
      var last := names[|names| - 1];
      RecordImportsNames(ms, names', file);
      WithDependentNames(RecordImports(ms, names', file), last, file);
      AppendNewConcat(Names(ms), names', [last]);
      assert names' + [last] == names;
    }
  }

  /** `file` becomes a dependent, once, of exactly the modules it imports. */
  lemma {:induction false} RecordImportsDependents(ms: seq<ImportedModule>, names: seq<string>, file: FileInfo, k: string)
    ensures DependentsOf(RecordImports(ms, names, file), k) ==
      if k in names then AppendNew(DependentsOf(ms, k), [file]) else DependentsOf(ms, k)
    decreases |names|
  {
    if names != [] {
      var names' := names[..|names| - 1];
      var last := names[|names| - 1];
      RecordImportsDependents(ms, names', file, k);
      WithDependentDependents(RecordImports(ms, names', file), last, file, k);
      assert k in names <==> k in names' || k == last by {
        assert names == names' + [last];
      }
      if k == last && k in names' {
        AppendNewOne(DependentsOf(ms, k), file);
        AppendNewPresent(AppendNew(DependentsOf(ms, k), [file]), file);
      }
    }
  }

  lemma RecordImportsSnoc(ms: seq<ImportedModule>, names: seq<string>, name: string, file: FileInfo)
    ensures RecordImports(ms, names + [name], file) == WithDependent(RecordImports(ms, names, file), name, file)
  {
    assert (names + [name])[..|names|] == names;
  }

  lemma {:induction false} RecordImportsWellFormed(ms: seq<ImportedModule>, names: seq<string>, file: FileInfo)
    requires WellFormed(ms)
    ensures WellFormed(RecordImports(ms, names, file))
    decreases |names|
  {
    if names != [] {
      var names' := names[..|names| - 1];
      RecordImportsWellFormed(ms, names', file);
      WithDependentWellFormed(RecordImports(ms, names', file), names[|names| - 1], file);
    }
  }

  /** A source file handed to the collector: its identity and its imports. */
  datatype SourceFile = SourceFile(file: FileInfo, imports: seq<ImportDecl>)

  /** The records of one pass: a cleared collector that searched `files` in order. */
  function CollectAll(builtins: set<string>, files: seq<SourceFile>): seq<ImportedModule>
    decreases |files|
  {
    if files == [] then []
    else
      var last := files[|files| - 1];
      RecordImports(CollectAll(builtins, files[..|files| - 1]), ExternalModules(builtins, last.imports), last.file)
  }

  /** Every external module name imported by `files`, in order, repetitions included. */
  function ImportedNames(builtins: set<string>, files: seq<SourceFile>): seq<string>
    decreases |files|
  {
    if files == [] then []
    else ImportedNames(builtins, files[..|files| - 1]) + ExternalModules(builtins, files[|files| - 1].imports)
  }

  /** The files, in order, whose external imports include `name`. */
  function FilesImporting(builtins: set<string>, files: seq<SourceFile>, name: string): seq<FileInfo>
    decreases |files|
  {
    if files == [] then []
    else
      var last := files[|files| - 1];
      FilesImporting(builtins, files[..|files| - 1], name)
        + (if name in ExternalModules(builtins, last.imports) then [last.file] else [])
  }

  /** The collected names are the imported names in first-seen order, each once. */
  lemma {:induction false} CollectAllNames(builtins: set<string>, files: seq<SourceFile>)
    ensures Names(CollectAll(builtins, files)) == Dedup(ImportedNames(builtins, files))
    decreases |files|
  {
    if files != [] {
      var files' := files[..|files| - 1];
      var last := files[|files| - 1];
      CollectAllNames(builtins, files');
      RecordImportsNames(CollectAll(builtins, files'), ExternalModules(builtins, last.imports), last.file);
      AppendNewConcat([], ImportedNames(builtins, files'), ExternalModules(builtins, last.imports));
    }
  }

  /** The dependents of a module are the files that import it, in search order, each once. */
  lemma {:induction false} CollectAllDependents(builtins: set<string>, files: seq<SourceFile>, name: string)
    ensures DependentsOf(CollectAll(builtins, files), name) == Dedup(FilesImporting(builtins, files, name))
    decreases |files|
  {
    if files != [] {
      var files' := files[..|files| - 1];
      var last := files[|files| - 1];
      CollectAllDependents(builtins, files', name);
      RecordImportsDependents(CollectAll(builtins, files'), ExternalModules(builtins, last.imports), last.file, name);
      var opt := if name in ExternalModules(builtins, last.imports) then [last.file] else [];
      AppendNewConcat([], FilesImporting(builtins, files', name), opt);
    }
  }

  lemma {:induction false} CollectAllWellFormed(builtins: set<string>, files: seq<SourceFile>)
    ensures WellFormed(CollectAll(builtins, files))
    decreases |files|
  {
    if files != [] {
      var files' := files[..|files| - 1];
      var last := files[|files| - 1];
      CollectAllWellFormed(builtins, files');
      RecordImportsWellFormed(CollectAll(builtins, files'), ExternalModules(builtins, last.imports), last.file);
    }
  }

  lemma {:induction false} FilesImportingMembership(builtins: set<string>, files: seq<SourceFile>, name: string, f: FileInfo)
    ensures f in FilesImporting(builtins, files, name) <==>
      exists i :: 0 <= i < |files| && files[i].file == f && name in ExternalModules(builtins, files[i].imports)
    decreases |files|
  {
    if files != [] {
      var files' := files[..|files| - 1];
      FilesImportingMembership(builtins, files', name, f);
      assert forall i :: 0 <= i < |files'| ==> files'[i] == files[i];
    }
  }

  /** Each collected record: its dependents are exactly the files that import
      it, in search order, and a file that does not import it is not one. */
  lemma CollectedRecord(builtins: set<string>, files: seq<SourceFile>, i: int, f: FileInfo)
    requires 0 <= i < |CollectAll(builtins, files)|
    ensures var m := CollectAll(builtins, files)[i];
      && m.dependents == Dedup(FilesImporting(builtins, files, m.name))
      && (f in m.dependents <==>
            exists j :: 0 <= j < |files| && files[j].file == f && m.name in ExternalModules(builtins, files[j].imports))
  {
    var ms := CollectAll(builtins, files);
    CollectAllWellFormed(builtins, files);
    DependentsOfAt(ms, i);
    CollectAllDependents(builtins, files, ms[i].name);
    FilesImportingMembership(builtins, files, ms[i].name, f);
  }

  /** The mutable collector. The records live in `modules`, in first-seen order. */
  class ImportedModuleCollector {
    const builtins: set<string>
    var modules: seq<ImportedModule>

    ghost predicate Valid()
      reads this
    {
      KnownBuiltins <= builtins && WellFormed(modules)
    }

    constructor (builtins: set<string>)
      requires KnownBuiltins <= builtins
      ensures this.builtins == builtins && modules == [] && Valid()
    {
      this.builtins := builtins;
      modules := [];
    }

    /** Forget everything collected so far. */
    method ClearFoundModules()
      requires Valid()
      modifies this
      ensures modules == [] && Valid()
    {
      modules := [];
    }

    /** The position of the record named `name`, or -1 when there is none. */
    method IndexOf(name: string) returns (i: int)
      ensures -1 <= i < |modules|
      ensures 0 <= i ==> modules[i].name == name
      ensures forall j :: 0 <= j < |modules| && (i < 0 || j < i) ==> modules[j].name != name
    {
      i := 0;
      while i < |modules| && modules[i].name != name
        invariant 0 <= i <= |modules|
        invariant forall j :: 0 <= j < i ==> modules[j].name != name
      {
        i := i + 1;
      }
      if i == |modules| {
        i := -1;
      }
    }

    /** Obtain or create the record for `name` and add `file` to its dependents. */
    method AddDependent(name: string, file: FileInfo)
      requires Valid()
      modifies this
      ensures Valid()
      ensures modules == WithDependent(old(modules), name, file)
    {
      WithDependentWellFormed(modules, name, file);
      var i := IndexOf(name);
      if i < 0 {
        WithDependentNew(modules, name, file);
        modules := modules + [ImportedModule(name, [file])];
      } else {
        WithDependentAt(modules, name, file, i);
        AppendNewOne(modules[i].dependents, file);
        var m := modules[i];
        if file !in m.dependents {
          modules := modules[i := m.(dependents := m.dependents + [file])];
        }
      }
    }

    /** Register `file` as a dependent of every external module it imports. */
    method SearchImports(decls: seq<ImportDecl>, file: FileInfo)
      requires Valid()
      modifies this
      ensures Valid()
      ensures modules == RecordImports(old(modules), ExternalModules(builtins, decls), file)
    {
      var i := 0;
      while i < |decls|
        invariant 0 <= i <= |decls|
        invariant Valid()
        invariant modules == RecordImports(old(modules), ExternalModules(builtins, decls[..i]), file)
      {
        var spec := decls[i].source;
        ExternalModulesPrefix(builtins, decls, i);
        ghost var seen := ExternalModules(builtins, decls[..i]);
        if !IsRelative(spec) && ModuleName(spec) !in builtins {
          RecordImportsSnoc(old(modules), seen, ModuleName(spec), file);
          AddDependent(ModuleName(spec), file);
        } else {
          assert seen + [] == seen;
        }
        i := i + 1;
      }
      assert decls[..i] == decls;
    }

    /** The records collected since the last clear. */
    method CollectImportedModules() returns (ms: seq<ImportedModule>)
      requires Valid()
      ensures ms == modules && WellFormed(ms)
    {
      ms := modules;
    }

    /** One collection pass: clear, search every file in order, collect. */
    method CollectFiles(files: seq<SourceFile>) returns (ms: seq<ImportedModule>)
      requires Valid()
      modifies this
      ensures Valid()
      ensures ms == modules == CollectAll(builtins, files)
    {
      ClearFoundModules();
      var i := 0;
      while i < |files|
        invariant 0 <= i <= |files|
        invariant Valid()
        invariant modules == CollectAll(builtins, files[..i])
      {
        assert files[..i + 1][..i] == files[..i];
        SearchImports(files[i].imports, files[i].file);
        i := i + 1;
      }
      assert files[..i] == files;
      ms := CollectImportedModules();
    }
  }
}
