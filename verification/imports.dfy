/** Import declarations as a parser front end hands them to the collector,
    and the rules that decide which specifiers name external modules. */
module Imports {
  import opened Strings

  /** A source file: a library file, a development file, or synthetic input
      not tied to a path. */
  datatype FileInfo = LibFile(path: string) | DevFile(path: string) | AnonymousFile

  /** `imported as local` inside braces; `local == imported` when not renamed. */
  datatype NamedSpecifier = NamedSpecifier(imported: string, local: string)

  /** The binding part of a static import declaration. */
  datatype ImportClause =
    | DefaultBinding(local: string)                               // import foo from 'm'
    | NamespaceBinding(local: string)                             // import * as bar from 'm'
    | NamedBindings(names: seq<NamedSpecifier>)                   // import { a, b as c } from 'm'
    | DefaultAndNamed(local: string, names: seq<NamedSpecifier>)  // import d, { a } from 'm'
    | DefaultAndNamespace(local: string, namespace: string)       // import d, * as n from 'm'
    | SideEffectOnly                                              // import 'm'

  /** One static import declaration: its bindings and its specifier string. */
  datatype ImportDecl = ImportDecl(clause: ImportClause, source: string)

  /** Built-in modules that are never reported; the full list is larger. */
  const KnownBuiltins: set<string> := {"fs", "path", "crypto", "assert"}

  /** A specifier that points into the project itself: the current or the
      parent directory, or a path below either. */
  predicate IsRelative(spec: string)
    ensures IsRelative(spec) ==> |spec| > 0 && spec[0] == '.'
  {
    spec == "." || spec == ".." || StartsWith(spec, "./") || StartsWith(spec, "../")
  }

  /** The package a specifier belongs to: its first path segment. */
  function ModuleName(spec: string): (r: string)
    ensures r <= spec && '/' !in r
    ensures |r| < |spec| ==> spec[|r|] == '/'
  {
    TopSegment(spec)
  }

  /** A specifier the collector keeps: not relative, not a built-in. */
  predicate IsExternal(builtins: set<string>, spec: string) {
    !IsRelative(spec) && ModuleName(spec) !in builtins
  }

  /** The module names of the external imports of `decls`, in source order,
      repetitions included. */
  function ExternalModules(builtins: set<string>, decls: seq<ImportDecl>): (r: seq<string>)
    ensures |r| <= |decls|
    ensures forall n :: n in r ==> n !in builtins && '/' !in n
    decreases |decls|
  {
    if decls == [] then []
    else
      var d := decls[|decls| - 1];
      ExternalModules(builtins, decls[..|decls| - 1])
        + (if IsExternal(builtins, d.source) then [ModuleName(d.source)] else [])
  }

  /** Collecting one more declaration of a prefix. */
  lemma ExternalModulesPrefix(builtins: set<string>, decls: seq<ImportDecl>, i: int)
    requires 0 <= i < |decls|
    ensures ExternalModules(builtins, decls[..i + 1]) == ExternalModules(builtins, decls[..i])
      + (if IsExternal(builtins, decls[i].source) then [ModuleName(decls[i].source)] else [])
  {
    assert decls[..i + 1][..i] == decls[..i];
  }

  /** A name is collected exactly when some declaration has an external
      specifier whose package is that name. */
  lemma {:induction false} ExternalModulesMembership(builtins: set<string>, decls: seq<ImportDecl>, n: string)
    ensures n in ExternalModules(builtins, decls) <==>
      exists i :: 0 <= i < |decls| && IsExternal(builtins, decls[i].source) && ModuleName(decls[i].source) == n
    decreases |decls|
  {
    if decls != [] {
      var decls' := decls[..|decls| - 1];
      ExternalModulesMembership(builtins, decls', n);
      assert forall i :: 0 <= i < |decls'| ==> decls'[i] == decls[i];
    }
  }

  /** Collection distributes over concatenation, so the order of the
      declarations is the order of the names. */
  lemma {:induction false} ExternalModulesConcat(builtins: set<string>, a: seq<ImportDecl>, b: seq<ImportDecl>)
    ensures ExternalModules(builtins, a + b) == ExternalModules(builtins, a) + ExternalModules(builtins, b)
    decreases |b|
  {
    if b == [] {
      assert a + b == a;
    } else {
      var b' := b[..|b| - 1];
      assert (a + b)[..|a + b| - 1] == a + b';
      assert (a + b)[|a + b| - 1] == b[|b| - 1];
      ExternalModulesConcat(builtins, a, b');
    }
  }

  /** A relative or built-in import drops out and leaves the names around it
      in their order. */
  lemma DroppedImportVanishes(builtins: set<string>, before: seq<ImportDecl>, d: ImportDecl, after: seq<ImportDecl>)
    requires !IsExternal(builtins, d.source)
    ensures ExternalModules(builtins, before + [d] + after) == ExternalModules(builtins, before + after)
  {
    ExternalModulesConcat(builtins, before + [d], after);
    ExternalModulesConcat(builtins, before, [d]);
    ExternalModulesConcat(builtins, before, after);
    assert [d][..0] == [];
  }

  /** Only the specifier of a declaration matters, never its binding form. */
  lemma ImportFormIrrelevant(builtins: set<string>, before: seq<ImportDecl>, d: ImportDecl, after: seq<ImportDecl>, c: ImportClause)
    ensures ExternalModules(builtins, before + [d.(clause := c)] + after) == ExternalModules(builtins, before + [d] + after)
  {
    var d' := d.(clause := c);
    ExternalModulesConcat(builtins, before + [d], after);
    ExternalModulesConcat(builtins, before, [d]);
    ExternalModulesConcat(builtins, before + [d'], after);
    ExternalModulesConcat(builtins, before, [d']);
    assert [d][..0] == [] && [d'][..0] == [];
  }

  /** A subpath import is registered under its package. */
  lemma SubpathImportNamesPackage(builtins: set<string>, pkg: string, rest: string)
    requires '/' !in pkg && !IsRelative(pkg + "/" + rest) && pkg !in builtins
    ensures IsExternal(builtins, pkg + "/" + rest) && ModuleName(pkg + "/" + rest) == pkg
  {
    TopSegmentOfSubpath(pkg, rest);
  }
}
