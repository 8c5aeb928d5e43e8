# depcop: a model of its import collector and two of its checks

depcop compares what a JavaScript package's sources import with what its
`package.json` declares. It reads the library sources and the development
sources separately. It collects the external modules each side imports, and
it reports mismatches against the three dependency groups: `dependencies`,
`devDependencies` and `peerDependencies`. This project models three parts of
that in Dafny:

- **The import collector** (`Imports`, `Collector`):
  - `Imports` holds the specifier rules. A relative specifier (`.`, `..`, or one starting with `./` or `../`) is dropped. So is a built-in module. Any other specifier names the package given by its first path segment (`bar/sub/a` is `bar`).
  - `Collector.ImportedModuleCollector` is a class whose `modules` field is a sequence of records. Each record is a module name with the files that import it. `SearchImports` adds one file's imports and `ClearFoundModules` resets the collector.
  - The class's methods are proved against functions on values: `WithDependent`, `RecordImports` and `CollectAll`.
  - Lemmas about those functions state that names come in first-seen order without repetition. They also state that each module's dependents are exactly the files that import it, in search order, each file once.
- **The strayed-modules check** (`StrayedModules`):
  - A module is reported against `dependencies` when three things hold: the development sources use it, the library sources do not, and it is declared in `dependencies`, or as a peer that is not also a development dependency.
  - A module is reported against `devDependencies` when the library sources use it and it is declared in `devDependencies` but not as a peer.
  - Each half can be switched off, and both lists are sorted by module name.
- **The missing ("unlisted") check** (`MissingModules`):
  - A module the library sources use is reported against `dependencies` unless `dependencies` or `peerDependencies` declares it. Its locations are its library files, then the development files that also use it.
  - A module that only the development sources use is reported against `devDependencies` unless that group declares it.
  - A name-based predicate stands in for the configured ignore patterns.

Each test scenario of the three core test files is a lemma. They live in
`CollectorScenarios`, `StrayedScenarios` and `MissingScenarios`. `Strings`
and `Sequences` hold the helpers: the leading path segment, the name order
used for sorting, and the "append if new" fold.

The test at test/integration/depcop.spec.js:49-61 expects a module used by
both source sets (`ul_used-in-both`) to be reported once. It appears under
`dependencies`, at its library files followed by its development files, and
not under `devDependencies`. The model follows the test.

## Model

| member | source | states |
|---|---|---|
| Strings.TopSegment | test/lib/codeAnalyzer/ImportedModuleCollector.spec.js:58-66 | the package of a specifier is a prefix of it with no '/', followed by '/' when it is shorter |
| Strings.TopSegmentOfSubpath | test/lib/codeAnalyzer/ImportedModuleCollector.spec.js:58-66 | the package of `pkg/rest` is `pkg` |
| Strings.TopSegmentOfPlainName | test/lib/codeAnalyzer/ImportedModuleCollector.spec.js:18-35 | a specifier without '/' is its own package |
| Strings.Le | test/integration/depcop.spec.js:21-28 | character-wise lexicographic order: a proper prefix comes first, otherwise the first differing character decides |
| Strings.LeReflexive | test/integration/depcop.spec.js:21-28 | the name order relates every name to itself |
| Strings.LeTotal | test/integration/depcop.spec.js:21-28 | any two names are ordered one way or the other |
| Strings.LeTransitive | test/integration/depcop.spec.js:21-28 | the name order is transitive |
| Strings.LeAntisymmetric | test/integration/depcop.spec.js:21-28 | names ordered both ways are equal |
| Sequences.AppendNew | test/lib/codeAnalyzer/ImportedModuleCollector.spec.js:78-112 | appending-if-new keeps what was there as a prefix, holds exactly the old and new elements, and adds no duplicate |
| Sequences.Dedup | test/lib/codeAnalyzer/ImportedModuleCollector.spec.js:29-34 | the first-seen list has no duplicates and the same elements as its input |
| Sequences.AppendNewOne | test/lib/codeAnalyzer/ImportedModuleCollector.spec.js:58-66 | one element is appended at the end exactly when it is new |
| Sequences.AppendNewConcat | test/lib/codeAnalyzer/ImportedModuleCollector.spec.js:97-99 | folding batches one after the other equals folding their concatenation |
| Sequences.AppendNewDisjoint | test/integration/depcop.spec.js:49-54 | two duplicate-free lists with nothing in common join by plain concatenation |
| Imports.IsRelative | test/lib/codeAnalyzer/ImportedModuleCollector.spec.js:36-45 | a specifier is relative when it is `.` or `..` or starts with `./` or `../`; every relative specifier starts with a dot |
| Imports.ModuleName | test/lib/codeAnalyzer/ImportedModuleCollector.spec.js:58-66 | a specifier's package is its longest prefix without '/', which is the whole specifier or stops at a '/' |
| Imports.IsExternal | test/lib/codeAnalyzer/ImportedModuleCollector.spec.js:36-57 | a specifier is kept when it is not relative and its package is not a built-in |
| Imports.ExternalModules | test/lib/codeAnalyzer/ImportedModuleCollector.spec.js:17-66 | at most one name per declaration; no collected name is a built-in or contains '/' |
| Imports.ExternalModulesMembership | test/lib/codeAnalyzer/ImportedModuleCollector.spec.js:36-57 | a name is collected iff some non-relative, non-built-in declaration has it as its package |
| Imports.ExternalModulesConcat | test/lib/codeAnalyzer/ImportedModuleCollector.spec.js:46-57 | collection preserves declaration order across concatenation |
| Imports.DroppedImportVanishes | test/lib/codeAnalyzer/ImportedModuleCollector.spec.js:46-57 | a relative or built-in import drops out and leaves the other names in order |
| Imports.ImportFormIrrelevant | test/lib/codeAnalyzer/ImportedModuleCollector.spec.js:18-35 | replacing a declaration's binding form changes nothing collected |
| Imports.SubpathImportNamesPackage | test/lib/codeAnalyzer/ImportedModuleCollector.spec.js:58-66 | a non-relative subpath of a non-built-in package is kept under that package |
| Collector.DependentsOf | test/lib/codeAnalyzer/ImportedModuleCollector.spec.js:104-112 | the files of the first record with that name, none when no record has it; its properties are DependentsOfAt and DependentsOfAbsent |
| Collector.WithDependent | test/lib/codeAnalyzer/ImportedModuleCollector.spec.js:97-99 | a file imports a module: the module's record gains the file if it lacks it, and a module without a record gets a new one at the end; its properties are the WithDependent lemmas |
| Collector.RecordImports | test/lib/codeAnalyzer/ImportedModuleCollector.spec.js:68-69 | one file's search: the file is added, in turn, to each module name it imports; its properties are the RecordImports lemmas |
| Collector.CollectAll | test/lib/codeAnalyzer/ImportedModuleCollector.spec.js:97-99 | a reset followed by searching the files in order; its properties are the CollectAll lemmas |
| Collector.DependentsOfAt | test/lib/codeAnalyzer/ImportedModuleCollector.spec.js:100-105 | with one record per name, looking a name up returns that record's files |
| Collector.DependentsOfAbsent | test/lib/codeAnalyzer/ImportedModuleCollector.spec.js:100-105 | a name with no record has no files |
| Collector.WithDependentNames | test/lib/codeAnalyzer/ImportedModuleCollector.spec.js:58-66 | adding a dependent appends the name only when it has no record yet |
| Collector.WithDependentDependents | test/lib/codeAnalyzer/ImportedModuleCollector.spec.js:78-112 | only the named record gains the file, once; every other record is unchanged |
| Collector.WithDependentWellFormed | test/lib/codeAnalyzer/ImportedModuleCollector.spec.js:78-112 | one record per name, each with a non-empty duplicate-free file list, is preserved |
| Collector.RecordImportsNames | test/lib/codeAnalyzer/ImportedModuleCollector.spec.js:68-76 | one file's names extend the names in first-seen order |
| Collector.RecordImportsDependents | test/lib/codeAnalyzer/ImportedModuleCollector.spec.js:78-112 | one file's search adds that file, once, to exactly the modules it imports |
| Collector.RecordImportsWellFormed | test/lib/codeAnalyzer/ImportedModuleCollector.spec.js:78-112 | one file's search keeps the records well formed |
| Collector.CollectAllNames | test/lib/codeAnalyzer/ImportedModuleCollector.spec.js:68-76 | after a pass, the names are every imported name in first-seen order, each once |
| Collector.CollectAllDependents | test/lib/codeAnalyzer/ImportedModuleCollector.spec.js:78-112 | after a pass, a module's dependents are the files importing it, in search order, each once |
| Collector.CollectAllWellFormed | test/lib/codeAnalyzer/ImportedModuleCollector.spec.js:78-112 | after a pass, names are unique and file lists are non-empty and duplicate-free |
| Collector.FilesImportingMembership | test/lib/codeAnalyzer/ImportedModuleCollector.spec.js:108-112 | a file is listed for a module iff one of its searched declarations imports that module |
| Collector.CollectedRecord | test/lib/codeAnalyzer/ImportedModuleCollector.spec.js:78-112 | every collected record holds exactly the files that import it; a file that does not is never among them |
| Collector.ImportedModuleCollector.constructor | test/lib/codeAnalyzer/ImportedModuleCollector.spec.js:8-11 | a new collector is empty and knows the four built-ins |
| Collector.ImportedModuleCollector.ClearFoundModules | test/lib/codeAnalyzer/ImportedModuleCollector.spec.js:13-15 | resetting empties the records |
| Collector.ImportedModuleCollector.IndexOf | test/lib/codeAnalyzer/ImportedModuleCollector.spec.js:97-99 | the position of the record with that name, or -1 when no record has it |
| Collector.ImportedModuleCollector.AddDependent | test/lib/codeAnalyzer/ImportedModuleCollector.spec.js:97-99 | the records become WithDependent of the old records, and stay well formed |
| Collector.ImportedModuleCollector.SearchImports | test/lib/codeAnalyzer/ImportedModuleCollector.spec.js:68-69 | the records become RecordImports of the old records with the file's external modules |
| Collector.ImportedModuleCollector.CollectImportedModules | test/lib/codeAnalyzer/ImportedModuleCollector.spec.js:70-75 | returns the current records, which are well formed |
| Collector.ImportedModuleCollector.CollectFiles | test/lib/codeAnalyzer/ImportedModuleCollector.spec.js:13-15 | reset followed by searching files in order yields CollectAll of those files, whatever was collected before |
| CollectorScenarios.AllPlainKept | test/lib/codeAnalyzer/ImportedModuleCollector.spec.js:18-35 | declarations of bare package names are all kept, in order |
| CollectorScenarios.PlainOrDropped | test/lib/codeAnalyzer/ImportedModuleCollector.spec.js:36-57 | bare names are kept and relative or built-in specifiers are removed, order preserved |
| CollectorScenarios.AllExternalKept | test/lib/codeAnalyzer/ImportedModuleCollector.spec.js:58-66 | external declarations give their packages, one per declaration, in order |
| CollectorScenarios.SingleFilePass | test/lib/codeAnalyzer/ImportedModuleCollector.spec.js:68-76 | one pass over one file yields its external names in first-seen order |
| CollectorScenarios.RecognizesEveryImportForm | test/lib/codeAnalyzer/ImportedModuleCollector.spec.js:18-35 | all eight import forms contribute their module, in source order |
| CollectorScenarios.IgnoresRelativePaths | test/lib/codeAnalyzer/ImportedModuleCollector.spec.js:36-45 | only `foo` is collected from one bare and four relative imports |
| CollectorScenarios.IgnoresBuiltinModules | test/lib/codeAnalyzer/ImportedModuleCollector.spec.js:46-57 | `fs`, `path`, `crypto` and `assert` are dropped; `foo`, `bar`, `baz` remain in order |
| CollectorScenarios.SubpathModules | test/lib/codeAnalyzer/ImportedModuleCollector.spec.js:58-66 | the subpath imports name `bar`, `bar` and `baz` |
| CollectorScenarios.DedupSubpathNames | test/lib/codeAnalyzer/ImportedModuleCollector.spec.js:58-66 | the second `bar` is dropped |
| CollectorScenarios.IgnoresModulesInSubdirectories | test/lib/codeAnalyzer/ImportedModuleCollector.spec.js:58-66 | subpaths collapse to `foo`, `bar`, `baz` |
| CollectorScenarios.ThreeImporting | test/lib/codeAnalyzer/ImportedModuleCollector.spec.js:97-99 | over three searched files, a module's files are those whose imports name it, in search order |
| CollectorScenarios.DedupThreePairs | test/lib/codeAnalyzer/ImportedModuleCollector.spec.js:78-96 | three overlapping pairs of names give each name once, in first-seen order |
| CollectorScenarios.ThreeFilesNames | test/lib/codeAnalyzer/ImportedModuleCollector.spec.js:78-112 | the three files give `module1`, `module2`, `module3` |
| CollectorScenarios.Module1Dependents | test/lib/codeAnalyzer/ImportedModuleCollector.spec.js:109 | `module1` is imported by `a.js` then `b.js`, and not by `c.js` |
| CollectorScenarios.Module2Dependents | test/lib/codeAnalyzer/ImportedModuleCollector.spec.js:110 | `module2` is imported by `a.js` then `c.js` |
| CollectorScenarios.Module3Dependents | test/lib/codeAnalyzer/ImportedModuleCollector.spec.js:111 | `module3` is imported by `b.js` then `c.js` |
| Reports.Insert | test/integration/depcop.spec.js:21-28 | insertion adds exactly one entry and loses none |
| Reports.InsertSorted | test/integration/depcop.spec.js:21-28 | insertion into a name-sorted list keeps it sorted |
| Reports.SortByName | test/integration/depcop.spec.js:21-28 | the result is sorted by module name and is a permutation of the input |
| Reports.SortByNameSorted | test/integration/depcop.spec.js:21-28 | an already sorted list is left as it is |
| Reports.SortByNameMembership | test/integration/depcop.spec.js:21-28 | sorting keeps exactly the entries it was given |
| Reports.InsertDistinct | test/integration/depcop.spec.js:40-62 | inserting an entry under a name the list lacks keeps the names unique |
| Reports.SortByNameDistinct | test/integration/depcop.spec.js:40-62 | sorting keeps the names of the entries unique |
| StrayedModules.StrayedFromDependencies | test/lib/validators/findStrayedModules.spec.js:21-124 | strayed from `dependencies`: used only by development sources and declared in `dependencies`, or as a peer that is not a development dependency |
| StrayedModules.StrayedFromDevDependencies | test/lib/validators/findStrayedModules.spec.js:21-124 | strayed from `devDependencies`: used by the library, declared in `devDependencies` and not as a peer |
| StrayedModules.StrayedDependencyEntries | test/lib/validators/findStrayedModules.spec.js:86-98 | an entry is listed iff it is a module the development sources use that is strayed from `dependencies`, with its files |
| StrayedModules.StrayedDevDependencyEntries | test/lib/validators/findStrayedModules.spec.js:99-111 | an entry is listed iff it is a library-used module strayed from `devDependencies`, with its files |
| StrayedModules.FindStrayedModules | test/lib/validators/findStrayedModules.spec.js:14-16 | both lists are sorted; each holds exactly the strayed entries of its half, and is empty when that half is off |
| StrayedModules.ReportedDependencyNames | test/lib/validators/findStrayedModules.spec.js:21-124 | by name: listed under `dependencies` iff that half is on and the module is strayed from it |
| StrayedModules.ReportedDevDependencyNames | test/lib/validators/findStrayedModules.spec.js:21-124 | by name: listed under `devDependencies` iff that half is on and the module is strayed from it |
| StrayedModules.ReportedNames | test/lib/validators/findStrayedModules.spec.js:21-124 | the full decision table by name, both halves |
| StrayedModules.UndeclaredOrUnusedNotReported | test/lib/validators/findStrayedModules.spec.js:35-47 | an undeclared module, or one no source uses, is never listed |
| StrayedModules.UsedInLibNotStrayedDependency | test/lib/validators/findStrayedModules.spec.js:48-59 | library use always justifies a runtime declaration |
| StrayedModules.DevOnlyDependencyReported | test/lib/validators/findStrayedModules.spec.js:86-98 | a `dependencies` module used only by development sources is listed |
| StrayedModules.LibUsedDevDependencyReported | test/lib/validators/findStrayedModules.spec.js:99-111 | a library-used `devDependencies` module is listed iff that half is on and it is not a peer, whatever the development sources do |
| StrayedModules.PeerExcusesLibUse | test/lib/validators/findStrayedModules.spec.js:75-85 | a peer is never listed under `devDependencies` |
| StrayedModules.DevOnlyPeerReported | test/lib/validators/findStrayedModules.spec.js:112-124 | a peer outside `dependencies` used only by development sources is listed iff it is not a development dependency |
| StrayedModules.OptionsGateHalves | test/lib/validators/findStrayedModules.spec.js:127-165 | switching one half off empties its list and leaves the other list unchanged |
| StrayedModules.StrayedDependencyEntriesDistinct | test/lib/validators/findStrayedModules.spec.js:86-98 | with one record per development module, the `dependencies` findings name each module once |
| StrayedModules.StrayedDevDependencyEntriesDistinct | test/lib/validators/findStrayedModules.spec.js:99-111 | with one record per library module, the `devDependencies` findings name each module once |
| StrayedModules.ReportsEachModuleOnce | test/lib/validators/findStrayedModules.spec.js:21-124 | with one record per module in each usage list, neither list of the report names a module twice |
| StrayedScenarios.SortedPair | test/lib/validators/findStrayedModules.spec.js:95 | two fixture entries already in name order are left in that order |
| StrayedScenarios.AllUsedInCorrectPlaces | test/lib/validators/findStrayedModules.spec.js:22-34 | everything used where declared: both lists empty |
| StrayedScenarios.MissingAndUnusedIgnored | test/lib/validators/findStrayedModules.spec.js:35-47 | undeclared and unused modules: both lists empty |
| StrayedScenarios.DependencyUsedInBothNotReported | test/lib/validators/findStrayedModules.spec.js:48-59 | a runtime module used on both sides: both lists empty |
| StrayedScenarios.PeerUsedInLibNotReported | test/lib/validators/findStrayedModules.spec.js:60-74 | only `lib-b` is listed; the library-used peer and the dev-used peer-and-dev module are not |
| StrayedScenarios.PeerDevDependencyUsedInLibNotReported | test/lib/validators/findStrayedModules.spec.js:75-85 | a peer-and-dev module used by the library: both lists empty |
| StrayedScenarios.DevOnlyDependenciesReported | test/lib/validators/findStrayedModules.spec.js:86-98 | `lib-a` and `lib-b`, in that order, under `dependencies` |
| StrayedScenarios.LibUsedDevDependenciesReported | test/lib/validators/findStrayedModules.spec.js:99-111 | `dev-a` and `dev-b`, in that order, under `devDependencies` |
| StrayedScenarios.PeerUsedOnlyInDevReported | test/lib/validators/findStrayedModules.spec.js:112-124 | `per-a` under `dependencies` |
| StrayedScenarios.OnlyDependenciesTargeted | test/lib/validators/findStrayedModules.spec.js:127-145 | with the `devDependencies` half off: only `lib-b` |
| StrayedScenarios.OnlyDevDependenciesTargeted | test/lib/validators/findStrayedModules.spec.js:147-165 | with the `dependencies` half off: only `dev-a` |
| MissingModules.DeclaredForLib | test/integration/depcop.spec.js:44-54 | library use is covered by a `dependencies` or `peerDependencies` declaration |
| MissingModules.DeclaredForDev | test/integration/depcop.spec.js:56-61 | use by development sources alone is covered by a `devDependencies` declaration |
| MissingModules.LibAndDevLocations | test/integration/depcop.spec.js:49-54 | an undeclared library module shows at its library files, then at the development files that use it too, each file (partition and path) once; its properties are DependencyLocations |
| MissingModules.MissingDependencyEntries | test/integration/depcop.spec.js:44-54 | an entry is listed iff it is a library-used module not declared for library use and not ignored, with its library then development files |
| MissingModules.MissingDevDependencyEntries | test/integration/depcop.spec.js:56-61 | an entry is listed iff it is a development-only module not in `devDependencies` and not ignored, with its files |
| MissingModules.FindMissingModules | test/integration/depcop.spec.js:40-62 | both lists are sorted by name and hold exactly the findings of their group |
| MissingModules.ReportedDependencyNames | test/integration/depcop.spec.js:44-54 | by name: listed under `dependencies` iff library-used, not in `dependencies` or `peerDependencies`, not ignored |
| MissingModules.ReportedDevDependencyNames | test/integration/depcop.spec.js:56-61 | by name: listed under `devDependencies` iff used only by development sources, not in `devDependencies`, not ignored |
| MissingModules.ReportedOnce | test/integration/depcop.spec.js:49-61 | no module is listed in both groups |
| MissingModules.IgnoredOrDeclaredNotReported | test/integration/depcop.spec.js:40-62 | an ignored module, or one declared in every group, is never listed |
| MissingModules.LibUseJudgedByRuntimeGroups | test/integration/depcop.spec.js:49-54 | a library-used module is listed under `dependencies` iff neither runtime group declares it, and never under `devDependencies` |
| MissingModules.DevOnlyUseJudgedByDevGroup | test/integration/depcop.spec.js:56-61 | a development-only module is listed under `devDependencies` iff that group does not declare it, and never under `dependencies` |
| MissingModules.DependencyLocations | test/integration/depcop.spec.js:49-54 | locations start with the library files, hold the files of both sides each once (a file being its partition and path), and are library files followed by development files when the two are disjoint |
| MissingModules.DevDependencyLocations | test/integration/depcop.spec.js:56-61 | locations are the development files, each once |
| MissingModules.MissingDependencyEntriesDistinct | test/integration/depcop.spec.js:44-54 | with one record per library module, the `dependencies` findings name each module once |
| MissingModules.MissingDevDependencyEntriesDistinct | test/integration/depcop.spec.js:56-61 | with one record per development module, the `devDependencies` findings name each module once |
| MissingModules.ReportsEachModuleOnce | test/integration/depcop.spec.js:40-62 | with one record per module in each usage list, neither list of the report names a module twice |
| MissingScenarios.TwoFilesSameImports | test/integration/depcop.spec.js:45-47 | two files importing the same two modules give two records, each with both files in search order |
| MissingScenarios.Usage | test/integration/depcop.spec.js:9-13 | what the collector finds in the library and in the development fixture files |
| MissingScenarios.CommonPrefix | test/integration/depcop.spec.js:21-28 | a shared prefix does not change the name order |
| MissingScenarios.BothBeforeLib | test/integration/depcop.spec.js:21-28 | `ul_used-in-both` sorts before `ul_used-in-lib` |
| MissingScenarios.SortTwoSwapped | test/integration/depcop.spec.js:21-28 | two entries out of order are swapped |
| MissingScenarios.DependencyFindings | test/integration/depcop.spec.js:44-54 | for any manifest and ignore patterns that leave the fixture modules undeclared and unignored, before sorting: `ul_used-in-lib` at the library files, `ul_used-in-both` at library then development files |
| MissingScenarios.DevDependencyFindings | test/integration/depcop.spec.js:56-61 | under the same condition, only `ul_used-in-dev`, at the development files |
| MissingScenarios.ReportFromUsage | test/integration/depcop.spec.js:30-34 | under the same condition, the sorted report for the fixture usage |
| MissingScenarios.DetectsUnlistedModules | test/integration/depcop.spec.js:40-63 | the whole case, for any manifest and ignore patterns that leave `ul_used-in-lib` and `ul_used-in-both` undeclared for library use, `ul_used-in-dev` out of `devDependencies`, and all three unignored: the two `dependencies` findings in name order, and `ul_used-in-dev` alone under `devDependencies` |

## Left out

- Parsing JavaScript. The parser options (test/lib/codeAnalyzer/ImportedModuleCollector.spec.js:8-11) and parse errors are not modelled. The collector receives parsed import declarations: a binding form and a specifier.
- Dynamic `import()`, `require` and re-exports are left out. No core test uses them.
- Scoped specifiers (`@scope/name`) are left out. Their package is two segments, and no core test uses them.
- The built-in list is a constructor parameter that must contain `fs`, `path`, `crypto` and `assert`. The runtime's full list is not spelled out.
- Glob expansion, file reading and `path.resolve` are left out (test/integration/depcop.spec.js:5-19). Files are opaque values (`LibFile(path)`, `DevFile(path)`, `AnonymousFile`). File order is given, and the fixture paths are written relative to the fixture directory.
- The contents of the integration fixture files are not part of this model. `MissingScenarios` assumes each library file imports `ul_used-in-lib` and then `ul_used-in-both`, and each development file imports `ul_used-in-dev` and then `ul_used-in-both`. After sorting, that order does not affect the report.
- `configureDepcop`, `generateReport` and the assembly of the result list are plumbing and are left out. So are the mocha test runner and the validator test helper (`makePackageJson`, `makeValidatorTester`, `module`). A fixture module tagged `'lib'` counts as library use. Any other tag counts as development use, including the `'div'` at test/lib/validators/findStrayedModules.spec.js:90.
- The unused-modules check is left out. Its only test is a pending stub without assertions (test/integration/depcop.spec.js:65).
- Ignore patterns are regular expressions in the tool. Only `MissingModules.FindMissingModules` takes them here, as an arbitrary predicate on module names, because no regular-expression engine is modelled. The strayed-modules check takes none.
- Records are values here. Whether the tool hands out the collector's own record objects or copies of them cannot be told from the tests, so object identity is not modelled.
- Report entries are sorted by comparing characters. JavaScript's default sort compares UTF-16 code units, which agrees on every name the tests use.
- StrayedModules.StrayedFromDependencies: the fixtures do not pin a module that is declared in both `dependencies` and `devDependencies` and used only by development sources. Such a module is reported here.
- MissingModules.LibAndDevLocations: a file is identified by its partition and its path (`LibFile(p)` differs from `DevFile(p)`), so a path that falls under both the library and the development globs shows twice in a `dependencies` finding, once per partition; the tool's report, which shows paths only, may list it once. `MissingModules.DependencyLocations` states "each file once" of these tagged values, not of paths.
- MissingModules.FindMissingModules: the integration test does not show its manifest, and the three modules it reports are declared in no group, so the test does not decide which groups cover which use. Here `dependencies` and `peerDependencies` cover library use, and only `devDependencies` covers use by development sources alone.
