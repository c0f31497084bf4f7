# kmake: the project-to-CMake generator, modelled in Dafny

kmake is a single-file Python tool (`kmake.py`). From a project descriptor it
generates a CMake build for C and C++ projects that draw their dependencies
from vcpkg. The descriptor is the `build.py` file. It gives:

- the project name, language, language standard and compiler;
- a vcpkg triplet;
- an ordered map of targets, each with a type and dependencies.

This project models the deterministic core of that generator and proves what
it produces.

- `kmake run` (`handle_run`) is modelled as a class `Workspace.Project`. Its
  `files` map stands for the files written and its `dirs` set for the
  directories that exist, intermediate ones included. Each file is written by one step:
  - `CMakePresets.json` and `.clang-format`;
  - one `src/<target>/CMakeLists.txt` per target, in declaration order;
  - for the last (root) target, `CMakeCommons.cmake` and the root
    `CMakeLists.txt`, which includes every target directory.

  The run stops at the first target whose type is missing or unknown. It also
  stops at the root when the root's name is not `PROJECT_NAME`. Files written
  before the stop stay written.
- A target file (module `Generator`) holds, in this order:
  - a source glob;
  - the declaration chosen by the target type;
  - `PrecompileStdHeaders` for C++;
  - the vcpkg fragments of the external dependencies;
  - one `target_link_libraries` line for the dependencies that are targets
    of the project;
  - at the root only, a post-build copy of `compile_commands.json`.
- The preset document (module `Presets`) classifies the triplet as Android,
  web or native. It builds an insertion-ordered cache dictionary and emits
  four configure presets: Debug, Release, RelWithDebInfo and MinSizeRel.
- The resolver (module `Resolver`) scrapes the output of vcpkg. It keeps the
  lines that start with `find_` or `target_` and renames the placeholder
  target `main`.
- The root aggregator (module `Aggregator`).
- `kmake doctor` (module `Doctor`):
  - it collects the packages to check;
  - it groups a port's versions by major version;
  - it sorts the groups in descending string order and summarises at most
    five of them.
- `kmake unit` (module `Unit`) writes a header with an include guard and a
  source file that includes it.
- The helpers `_cmake_version` and `_cmake_find_package_str` (module `Utility`).

Support modules:

- `Text` models the Python string operations the tool relies on: `isspace`,
  `strip`, `startswith`, `in`, `replace`, `join`, `split(c)`, `split()`,
  `splitlines` and case mapping.
- `OrderedDict` models an insertion-ordered `dict` with `update`.
- `Wrappers` holds `Option` and `Result`.

Loops in the source are methods with loop invariants, each proved equal to a
specification function. Examples are the external-dependency loop with its
`try`, the link line built with a `first` flag, the aggregator text, the
preset list, the doctor's collection and grouping, and the token scan of
`_cmake_version`. The properties are proved about those functions.

Where the code's behaviour is surprising, the model follows the code:

- A `dynamic-library` target is declared with the keyword `DYNAMIC`.
- One resolver failure abandons the remaining external dependencies of that
  target only.
- The root-name check happens after the earlier targets' files, the preset
  file and `.clang-format` are written. It also happens after the root's
  directories are created.
- A target without a `type` key stops the run, because Python raises
  `KeyError`. A target without `deps` has no dependencies, because the
  `KeyError` is swallowed.
- The doctor's dependency collection includes dependencies that are targets
  of the project.
- The "." fallback for the major version cannot be taken, because `split`
  always yields at least one piece.
- An unknown compiler falls back to clang/clang++.

## Model

| member | source | states |
|---|---|---|
| Resolver.KeptMember | kmake.py:496-500 | a text is among the kept lines iff some output line, once stripped, starts with `find_` or `target_` and the text is that stripped line with every `main` replaced by the target |
| Resolver.KeptAppend | kmake.py:496-500 | the filter works line by line: filtering a concatenation is concatenating the filtered parts, so kept lines keep their output order |
| Resolver.KeptAreDirectives | kmake.py:496-500 | every kept line still starts with `find_` or `target_` after the rewriting |
| Resolver.RewriteKeepsPrefix | kmake.py:497-499 | replacing `main` cannot disturb a `find_`/`target_` prefix |
| Resolver.KeptWithoutPlaceholder | kmake.py:496-500 | when no directive line mentions `main` (other lines may), the consuming target's name does not affect the result |
| Resolver.NothingKept | kmake.py:496-500 | output without directives keeps no line |
| Resolver.FragmentWithoutDirectives | kmake.py:496-503 | output without directives (empty output included) yields exactly "\n\n\n" |
| OrderedDict.PutNew | kmake.py:541-559 | `update` with a new key appends it at the end |
| OrderedDict.PutExisting | kmake.py:548-554 | `update` of an existing key changes its value in place and keeps every key's position |
| OrderedDict.GetPut | kmake.py:541-559 | after an update the key maps to the new value and every other key is unchanged |
| OrderedDict.PutUnique | kmake.py:534-559 | updates keep the keys unique; the key list stays as it was, or gains the new key at the end |
| Presets.Classify | kmake.py:531-532 | Android iff the triplet starts with "arm" and contains "android"; otherwise web iff it contains "wasm" or "emscripten"; otherwise native; the three are exclusive and Android takes precedence |
| Presets.ClassifyAndroidExample | kmake.py:531 | "arm64-android" is Android |
| Presets.ClassifyWebExample | kmake.py:532 | "wasm32-emscripten" is web |
| Presets.ClassifyNativeExample | kmake.py:531-532 | "x64-windows", the default triplet, is native |
| Presets.CompilerPair | kmake.py:515-529 | gcc gives gcc/g++; emcc gives emcc/em++, or the `.bat` wrappers on Windows; clang and any other key give clang/clang++ |
| Presets.BeforeFirstIsFirst | kmake.py:543 | the NDK path is the prefix before the first "/build/cmake": no earlier occurrence, the marker right after it, the whole text when the marker is absent |
| Presets.BaseCacheContents | kmake.py:534-559 | the cache dictionary, entry by entry and in order, for each platform: Android adds system name, NDK, `c++_shared` and the triplet; web adds the triplet, both compilers and the chain-loaded Emscripten toolchain, and keeps the toolchain entry in second place; native adds the two compilers |
| Presets.Architecture | kmake.py:561 | "x64" iff the triplet contains "x64" or "arm64", otherwise "x86" |
| Presets.PresetNames | kmake.py:568-573 | exactly four presets, named `<triplet>-debug`, `-release`, `-relwithdebinfo`, `-minsizerel` and displayed as `<triplet> Debug` … `<triplet> MinSizeRel`, in that order |
| Presets.PresetNameAt | kmake.py:571-573 | the preset for a build type is named after the lower-cased build type and displayed with the build type itself |
| Presets.LowerBuildTypes | kmake.py:568-572 | the four build types lower-case to "debug", "release", "relwithdebinfo", "minsizerel" |
| Presets.PresetCaches | kmake.py:571-587 | each preset's `CMAKE_BUILD_TYPE` is its own build type, and every other cache variable has the same value in all four presets |
| Presets.PresetArchitecture | kmake.py:561-566 | the architecture block appears exactly for native triplets, and its value is the triplet's architecture |
| Presets.RenderAllAt | kmake.py:571-587 | one rendered entry per preset, in order: entry i is the rendering of preset i |
| Presets.PresetFileString | kmake.py:568-594 | the loop over the build types builds the document from the four presets in order |
| Generator.Names | kmake.py:846-848 | `project_names` lists the targets' names in declaration order |
| Generator.DeclarationCases | kmake.py:861-874 | a declaration exists iff the type is "static-library", "dynamic-library" or "binary"; a missing type is a missing-type error; any other type is an unknown-type error |
| Generator.Precompile | kmake.py:876-879 | the precompiled-headers call is emitted iff the language is "C++" |
| Generator.ExternalsStopAtFailure | kmake.py:880-885 | when an external dependency fails to resolve, the text is the fragments of the dependencies before it: the rest of that target's externals are skipped |
| Generator.ExternalsAppend | kmake.py:880-883 | while everything resolves, the fragments of a longer dependency list extend those of its prefix |
| Generator.ExternalsResolved | kmake.py:880-883 | when every external resolves, the text is the concatenation, in declaration order, of each dependency's part: its fragment when external, nothing when it is a declared target |
| Generator.InternalDepsMember | kmake.py:887-895 | a name is linked iff it is a declared target and a dependency of this target |
| Generator.InternalDepsAppend | kmake.py:890-895 | linked names keep dependency order |
| Generator.LinkLineEmpty | kmake.py:887-897 | no link line iff no dependency is a declared target |
| Generator.EmissionCases | kmake.py:857-914 | the type is checked first; only the root can fail on its name, and only when its name differs from PROJECT_NAME; a produced file is the header, declaration, precompile call, fragments and link line, with the post-build copy exactly at the root |
| Generator.ResolveExternals | kmake.py:880-885 | the loop with its enclosing `try` computes the externals' text, stopping at the first failure |
| Generator.LinkDirective | kmake.py:887-897 | the `first`-flag loop computes the link line |
| Generator.TargetText | kmake.py:857-914 | the step-by-step text of one target is its emission, or the error that stops the run |
| Aggregator.StandardLines | kmake.py:924-931 | the CXX standard lines for "C++", the C standard lines for "C", nothing for any other language |
| Aggregator.SubdirectoryLinesAt | kmake.py:933-937 | for the i-th target the aggregator has an empty line, `include_directories("src/<n>/include")` and `add_subdirectory("src/<n>")`, at lines 3i to 3i+2 of the loop's text |
| Aggregator.SubdirectoryLinesLength | kmake.py:933-937 | three lines per target |
| Aggregator.SubdirectoriesOfTargets | kmake.py:933-937 | the loop's `add_subdirectory` lines are exactly `add_subdirectory("src/<n>")` for each target, one per target, in declaration order |
| Aggregator.AggregatorSubdirectories | kmake.py:917-937 | the root file's `add_subdirectory` lines are exactly `add_subdirectory("src/<n>")` for each target, in declaration order, and no other line of the file is one |
| Aggregator.AggregatorReadBack | kmake.py:917-938 | read back with `splitlines`, the root file gives its lines: the preamble with `project(<root>)`, the standard lines, then the target lines |
| Aggregator.BuildAggregator | kmake.py:917-938 | the loop that grows the root file's text, appending `include_directories("src/<n>/include")` and `add_subdirectory("src/<n>")` per target, computes the aggregator text |
| Unit.SourceIncludesHeader | kmake.py:1269-1292 | the source file's only line includes `<project>/<unit>.hpp` (or `.h`), which is exactly where the header is written under the target's include directory |
| Unit.GuardUpperCase | kmake.py:1268-1283 | the include guard has no lower-case ASCII letter |
| Unit.HeaderStructure | kmake.py:1271-1290 | read back line by line, a C++ header has 8 lines and a C header 4; it opens with `#ifndef` and `#define` of the guard and closes with `#endif // ` and the guard; a C++ header's fourth line opens the target's namespace |
| Workspace.Emissions | kmake.py:850-915 | one outcome per target |
| Workspace.EmissionAt | kmake.py:850-915 | the outcome listed for each target is that target's own emission |
| Workspace.FirstFailure | kmake.py:850-906 | the first target whose emission fails: every earlier one succeeds |
| Workspace.FirstFailureSkips | kmake.py:850-906 | when the first targets all succeed, searching for the first failure may start after them |
| Workspace.DistinctNames | kmake.py:846-848 | target names are the keys of a dict, so no two coincide |
| Workspace.TargetPathInjective | kmake.py:915 | two targets share a CMakeLists path iff they share a name |
| Workspace.TargetFilesWritten | kmake.py:850-915 | every target before the stop has its file written with its emitted text |
| Workspace.TargetFilesOnly | kmake.py:850-915 | only those targets' files are written by the loop |
| Workspace.TargetFilesNotYet | kmake.py:850-915 | no file is written for the failing target or any later one |
| Workspace.TargetFilesUnderSrc | kmake.py:841-940 | no target's path string, `src/<n>/CMakeLists.txt`, equals the path of the presets, `.clang-format`, `CMakeCommons.cmake` or the root CMakeLists |
| Workspace.StoppedRunKeepsEarlierTargets | kmake.py:841-906 | after a stopped run, the setup files and the earlier targets' files are written with their texts; the failing and later targets' files, the commons file and the root CMakeLists are not |
| Workspace.ProjectNames | kmake.py:846-848 | the first loop collects the target names in order |
| Workspace.RootWrites | kmake.py:939-940 | writing the commons file then the root CMakeLists adds exactly the root files |
| Workspace.Project.Run | kmake.py:839-940 | `handle_run`: the run completes iff no target fails, and otherwise stops with the first failure's reason; the files are the old ones plus the setup files, the files of the targets before the stop and, when it completes with at least one target, the root files; the directories are those of every target reached, the failing one included |
| Workspace.Project.WriteSetup | kmake.py:840-845 | writes the preset document and `.clang-format` and nothing else |
| Workspace.Project.WriteTargets | kmake.py:850-940 | the target loop writes the files and creates the directories stated for `Run` |
| Workspace.Project.WriteTarget | kmake.py:850-940 | one pass creates the target's directories (`src`, `src/<n>`, `src/<n>/include`, `src/<n>/include/<n>`, `src/<n>/src`); a failing target writes no file; otherwise its file holds its text, and the root's pass adds the root files |
| Workspace.Project.WriteRoot | kmake.py:939-940 | the root's pass writes the commons file and the aggregator and nothing else |
| Workspace.Project.AddUnit | kmake.py:1263-1292 | `handle_unit` writes both files iff the header's and the source's directories exist; without the header directory it writes nothing, without the source directory only the header, and it reports the missing directory; it creates no directory |
| Workspace.UnitDirsReached | kmake.py:850-855 | every target a run reached has the header and source directories `kmake unit` writes into |
| Doctor.DedupSpec | kmake.py:1141-1145 | the packages to check are every declared dependency, none twice |
| Doctor.DedupOrder | kmake.py:1141-1145 | of two packages in the collected list, the earlier one occurs among the dependencies before the later one first does |
| Doctor.DedupDistinct | kmake.py:1143-1145 | dependencies declared once each are checked in declaration order |
| Doctor.CollectPackages | kmake.py:1141-1145 | the nested loop computes the first occurrences of all targets' dependencies, in order |
| Doctor.AddDeps | kmake.py:1143-1145 | the inner loop appends a target's dependencies that are not yet listed, in declaration order |
| Doctor.PackagesToCheck | kmake.py:1136-1145 | packages named on the command line are checked as given; otherwise every declared dependency, once each, in order of first occurrence |
| Doctor.VersionFile | kmake.py:1159-1163 | a port's version file is `versions/<lower-cased first letter>-/<port>.json`; a name without a first letter has none |
| Doctor.FirstEmpty | kmake.py:1158-1159 | the first package without a first letter, where `package[0]` raises: every earlier package has one |
| Doctor.DoctorLinesSpec | kmake.py:1158-1199 | the doctor prints one report per package before the first empty name, in order, each from that package's own version file, and none after it |
| Doctor.CheckPackages | kmake.py:1158-1199 | the package loop prints those reports and ends early iff some package name is empty |
| Doctor.MajorPrefix | kmake.py:1179-1181 | the major version is the longest prefix without a '.' |
| Doctor.GroupedSpec | kmake.py:1177-1185 | one group per major version, with distinct keys, each holding exactly the versions with that major version in input order, never empty |
| Doctor.GroupVersions | kmake.py:1177-1185 | the grouping loop computes the groups |
| Doctor.LessIrreflexive | kmake.py:1188 | string order: no string is below itself |
| Doctor.LessAsymmetric | kmake.py:1188 | string order: two strings are never below each other |
| Doctor.LessTotal | kmake.py:1188 | string order: of two different strings, one is below the other |
| Doctor.LessTransitive | kmake.py:1188 | string order is transitive |
| Doctor.InsertSpec | kmake.py:1188 | inserting a new key into a strictly descending list adds it once and keeps the list strictly descending |
| Doctor.SortDescendingSpec | kmake.py:1188 | sorting distinct keys in reverse gives them strictly descending, each exactly once |
| Doctor.BuildSummary | kmake.py:1187-1197 | the display loop computes the summary |
| Doctor.SummaryShape | kmake.py:1177-1197 | the keys are shown largest first, each group once and displayed from its own versions; at most five are joined by the bar separator, and the bar-and-ellipsis suffix follows exactly when there are more than five groups |
| Doctor.ReportShape | kmake.py:1165-1199 | every report line names its package right after its status mark: not found, no versions, or the summary |
| Utility.FirstVersionToken | kmake.py:54-55 | the first word that starts with a digit: no earlier word does |
| Utility.MajorMinorSpec | kmake.py:56 | `".".join(p.split(".")[:2])` is a prefix of the word with at most one '.': the whole word when it has at most one '.', otherwise up to its second '.' |
| Utility.MajorMinorOfWord | kmake.py:54-56 | the version of a digit-led word starts with that digit and has no space |
| Utility.VersionOfWordsSpec | kmake.py:52-58 | no version iff no word of the first line starts with a digit; otherwise the version is a prefix of the first such word, with at most one '.' and starting with a digit |
| Utility.ScanWords | kmake.py:53-57 | the word loop returns the major.minor of the first digit-led word, and none when no word starts with a digit |
| Utility.ReadCMakeVersion | kmake.py:43-60 | the scan returns the version of the first line's first digit-led word, and none without output or without a first line |
| Utility.FindPackageLineSpec | kmake.py:63-68 | the line is a `find_` directive the resolver keeps, stripping removes only its final line break, and capitalizing the name first changes nothing |

## Left out

- Tool installation, PATH and shell-profile changes, and self-install. These are downloads, archive extraction and environment side effects.
- Running vcpkg. `install_vcpkg_package` is the parameter `Install`: given the package, the triplet and the version ("" when none is given), it returns the raw output or None when the call raises. The vcpkg baseline lookup and the temporary manifest are not part of this model.
- The CMake and Ninja calls, the browser and dev-server path of `handle_build`, and the interactive prompts of `handle_init`.
- Loading `build.py` by `exec`. The descriptor is an input value, `Generator.Descriptor`. A non-dict `dep_detail`, whose `.get` would raise inside the external-dependency `try`, is not modelled: a dependency carries an optional version.
- The text of `CMakeCommons.cmake` is a parameter of `Run`. The `.clang-format` text is a constant.
- The toolchain paths of the kmake home are fields of `Presets.Host`. So is `platform.system() == "Windows"`. `os.path.join` is modelled with "/" separators, and paths are relative to the working directory.
- Printing: progress lines, the root-name error message and the doctor's headers are not modelled. Outcomes are values: `Workspace.Outcome` and the doctor's report line.
- The doctor's file lookups: whether the versions directory and a version file exist, reading and JSON-parsing it, and the "Error reading version file" path. `Doctor.Report` takes the parsed entries or None for a missing file. `get_build_file` failing (exit 1) and the empty package list are not modelled.
- Doctor.VersionFile: lower-cases only ASCII letters, where Python's `lower` maps every Unicode letter.
- TargetFilesUnderSrc: paths are compared as strings, not resolved. A target named `..` writes `src/../CMakeLists.txt`, which is the root CMakeLists on disk, and a name holding `/` reaches other directories. The model does not capture this aliasing. The same holds for `TargetPathInjective`, and for unit names holding `/` in `AddUnit`.
- Unit.GuardUpperCase: upper-casing is ASCII only, where Python's `upper` maps every Unicode letter. The same holds for `Text.Capitalize`, used by `Utility.FindPackageLineSpec`.
- Utility.ReadCMakeVersion: `isdigit` is the ASCII digits, where Python accepts every Unicode digit. Running `cmake --version` is the parameter `stdout`, with None when it cannot be run.
- Workspace.Project.Run: process exit. Stopping on a missing or unknown type (an uncaught exception) and on a root-name mismatch (`sys.exit(1)`) are all the outcome `Stopped`.
