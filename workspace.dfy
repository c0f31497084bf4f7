/** The project directory `kmake run` and `kmake unit` write into: a map from
    relative path to file text, and the set of directories created. */
module Workspace {
  import opened Wrappers
  import opened Presets
  import opened Resolver
  import opened Generator
  import opened Aggregator
  import opened Unit

  const PresetsPath := "CMakePresets.json"
  const ClangFormatPath := ".clang-format"
  const CommonsPath := "CMakeCommons.cmake"
  const RootListsPath := "CMakeLists.txt"
  const ClangFormat := "BasedOnStyle: Google\nIndentWidth: 4\nColumnLimit: 100\n"

  /** Where a target's `CMakeLists.txt` goes. */
  function TargetPath(name: string): string {
    "src/" + name + "/CMakeLists.txt"
  }

  /** The directories that exist after a target's three `makedirs` calls,
      which run before its type is checked: `src/<n>`, `src/<n>/include/<n>`
      and `src/<n>/src`, with the intermediate `src` and `src/<n>/include`. */
  function TargetDirs(name: string): set<string> {
    {"src", "src/" + name, IncludeRoot(name), HeaderDir(name), SourceDir(name)}
  }

  /** A target's directories hold the files `kmake unit` writes for it. */
  lemma UnitDirsOfTarget(name: string)
    ensures HeaderDir(name) in TargetDirs(name) && SourceDir(name) in TargetDirs(name)
    ensures IncludeRoot(name) in TargetDirs(name) && "src" in TargetDirs(name)
  {
  }

  /** How a run ends. */
  datatype Outcome = Completed | Stopped(reason: Error)

  /** How `kmake unit` ends: both files written, or `write_text` raising
      because the directory of the file it writes does not exist. */
  datatype UnitOutcome = UnitWritten | MissingDirectory(path: string)

  /** What `handle_run` makes of each target, in declaration order. */
  function Emissions(d: Descriptor, install: Install): (rs: seq<Result<string, Error>>)
    ensures |rs| == |d.targets|
  {
    EmissionsUpTo(d, install, |d.targets|)
  }

  /** What `handle_run` makes of the first `n` targets. */
  function EmissionsUpTo(d: Descriptor, install: Install, n: nat): (rs: seq<Result<string, Error>>)
    requires n <= |d.targets|
    ensures |rs| == n
  {
    if n == 0 then [] else EmissionsUpTo(d, install, n - 1) + [Emission(d, n - 1, install)]
  }

  /** The outcome listed for target `i` is that target's emission. */
  lemma {:induction false} EmissionAt(d: Descriptor, install: Install, n: nat, i: nat)
    requires i < n <= |d.targets|
    ensures EmissionsUpTo(d, install, n)[i] == Emission(d, i, install)
  {
    if i < n - 1 {
      EmissionAt(d, install, n - 1, i);
    }
  }

  /** The first result, from `i` on, that is an error, or the number of
      results when there is none. */
  function FirstFailure(rs: seq<Result<string, Error>>, i: nat): (k: nat)
    requires i <= |rs|
    ensures i <= k <= |rs|
    ensures forall j :: i <= j < k ==> rs[j].Ok?
    ensures k < |rs| ==> rs[k].Err?
    decreases |rs| - i
  {
    if i == |rs| then i
    else if rs[i].Err? then i
    else FirstFailure(rs, i + 1)
  }

  /** When the first `i` results succeed, the search may as well start at `i`. */
  lemma {:induction false} FirstFailureSkips(rs: seq<Result<string, Error>>, i: nat)
    requires i <= |rs| && forall j :: 0 <= j < i ==> rs[j].Ok?
    ensures FirstFailure(rs, 0) == FirstFailure(rs, i)
  {
    if i > 0 {
      FirstFailureSkips(rs, i - 1);
    }
  }

  /** The first `k` results succeed. */
  predicate SucceedUpTo(rs: seq<Result<string, Error>>, k: nat) {
    k <= |rs| && forall j :: 0 <= j < k ==> rs[j].Ok?
  }

  /** The target files written for the first `k` targets. */
  function TargetFiles(names: seq<string>, rs: seq<Result<string, Error>>, k: nat): map<string, string>
    requires |names| == |rs| && SucceedUpTo(rs, k)
  {
    if k == 0 then map[]
    else TargetFiles(names, rs, k - 1)[TargetPath(names[k - 1]) := rs[k - 1].value]
  }

  /** The directories created for the first `k` targets. */
  function TargetDirsUpTo(names: seq<string>, k: nat): set<string>
    requires k <= |names|
  {
    if k == 0 then {} else TargetDirsUpTo(names, k - 1) + TargetDirs(names[k - 1])
  }

  /** Every target among the first `k` has its unit directories, so
      `kmake unit` for it can write both files. */
  lemma {:induction false} UnitDirsReached(names: seq<string>, k: nat, j: nat)
    requires j < k <= |names|
    ensures HeaderDir(names[j]) in TargetDirsUpTo(names, k)
    ensures SourceDir(names[j]) in TargetDirsUpTo(names, k)
  {
    if j < k - 1 {
      UnitDirsReached(names, k - 1, j);
    } else {
      UnitDirsOfTarget(names[j]);
    }
  }

  /** The files written before the first target: the presets and the formatter settings. */
  function SetupFiles(d: Descriptor, host: Host): map<string, string> {
    map[PresetsPath := PresetDocument(d.compiler, d.platform, host, DefaultAndroidToolchain),
        ClangFormatPath := ClangFormat]
  }

  /** The files written with the root: the common CMake code and the aggregator. */
  function RootFiles(d: Descriptor, commons: string): map<string, string> {
    map[CommonsPath := commons,
        RootListsPath := AggregatorText(d.name, d.language, d.standard, Names(d.targets))]
  }

  /** No name occurs twice. */
  predicate Distinct(names: seq<string>) {
    forall i, j :: 0 <= i < j < |names| ==> names[i] != names[j]
  }

  lemma DistinctNames(ts: seq<Target>)
    requires UniqueNames(ts)
    ensures Distinct(Names(ts))
  {
  }

  /** Target paths tell the targets apart. */
  lemma TargetPathInjective(a: string, b: string)
    ensures TargetPath(a) == TargetPath(b) <==> a == b
  {
    if TargetPath(a) == TargetPath(b) {
      assert |a| == |b|;
      assert a == TargetPath(a)[4..4 + |a|];
      assert b == TargetPath(b)[4..4 + |b|];
    }
  }

  /** After `k` targets, the file of each of them holds exactly its text. */
  lemma {:induction false} TargetFilesWritten(names: seq<string>, rs: seq<Result<string, Error>>, k: nat, j: nat)
    requires |names| == |rs| && SucceedUpTo(rs, k) && Distinct(names)
    requires j < k
    ensures TargetPath(names[j]) in TargetFiles(names, rs, k)
    ensures TargetFiles(names, rs, k)[TargetPath(names[j])] == rs[j].value
  {
    if j < k - 1 {
      TargetFilesWritten(names, rs, k - 1, j);
      TargetPathInjective(names[j], names[k - 1]);
    }
  }

  /** Only the first `k` targets have a file after `k` targets. */
  lemma {:induction false} TargetFilesOnly(names: seq<string>, rs: seq<Result<string, Error>>, k: nat, p: string)
    requires |names| == |rs| && SucceedUpTo(rs, k)
    requires p in TargetFiles(names, rs, k)
    ensures exists j :: 0 <= j < k && p == TargetPath(names[j])
  {
    if p != TargetPath(names[k - 1]) {
      TargetFilesOnly(names, rs, k - 1, p);
    }
  }

  /** A later target has no file yet. */
  lemma TargetFilesNotYet(names: seq<string>, rs: seq<Result<string, Error>>, k: nat, j: nat)
    requires |names| == |rs| && SucceedUpTo(rs, k) && Distinct(names)
    requires k <= j < |names|
    ensures TargetPath(names[j]) !in TargetFiles(names, rs, k)
  {
    if TargetPath(names[j]) in TargetFiles(names, rs, k) {
      TargetFilesOnly(names, rs, k, TargetPath(names[j]));
      var i :| 0 <= i < k && TargetPath(names[j]) == TargetPath(names[i]);
      TargetPathInjective(names[j], names[i]);
    }
  }

  /** Every file a target writes lies under `src/`. */
  lemma TargetFilesUnderSrc(names: seq<string>, rs: seq<Result<string, Error>>, k: nat, p: string)
    requires |names| == |rs| && SucceedUpTo(rs, k)
    requires p in TargetFiles(names, rs, k)
    ensures p != PresetsPath && p != ClangFormatPath && p != CommonsPath && p != RootListsPath
  {
    TargetFilesOnly(names, rs, k, p);
    var j :| 0 <= j < k && p == TargetPath(names[j]);
    assert p[..4] == "src/";
  }

  /** A run that stops at target `k` keeps the files of every target before
      it, and writes neither target `k`'s file, nor a later one, nor the
      root files. */
  lemma StoppedRunKeepsEarlierTargets(setup: map<string, string>, names: seq<string>, rs: seq<Result<string, Error>>)
    requires |names| == |rs| && Distinct(names)
    requires FirstFailure(rs, 0) < |rs|
    requires setup.Keys <= {PresetsPath, ClangFormatPath}
    ensures var k := FirstFailure(rs, 0);
      var written := setup + TargetFiles(names, rs, k);
      && (forall j :: 0 <= j < k ==> TargetPath(names[j]) in written && written[TargetPath(names[j])] == rs[j].value)
      && (forall j :: k <= j < |names| ==> TargetPath(names[j]) !in written)
      && RootListsPath !in written && CommonsPath !in written
  {
    var k := FirstFailure(rs, 0);
    var written := setup + TargetFiles(names, rs, k);
    forall j | 0 <= j < k
      ensures TargetPath(names[j]) in written && written[TargetPath(names[j])] == rs[j].value
    {
      TargetFilesWritten(names, rs, k, j);
    }
    forall j | k <= j < |names| ensures TargetPath(names[j]) !in written {
      TargetFilesNotYet(names, rs, k, j);
      assert TargetPath(names[j])[0] == 's';
    }
    if RootListsPath in TargetFiles(names, rs, k) {
      TargetFilesUnderSrc(names, rs, k, RootListsPath);
    }
    if CommonsPath in TargetFiles(names, rs, k) {
      TargetFilesUnderSrc(names, rs, k, CommonsPath);
    }
  }

  /** `project_names`, collected by a first pass over the targets. */
  method ProjectNames(d: Descriptor) returns (names: seq<string>)
    ensures names == Names(d.targets)
  {
    names := [];
    for i := 0 to |d.targets|
      invariant names == Names(d.targets[..i])
    {
      names := names + [d.targets[i].name];
    }
    assert d.targets[..|d.targets|] == d.targets;
  }

  lemma UpdateUnion(m: map<string, string>, n: map<string, string>, p: string, v: string)
    ensures (m + n)[p := v] == m + n[p := v]
  {
  }

  lemma UnionEmpty(m: map<string, string>)
    ensures m + map[] == m
  {
  }

  /** Writing the common code and then the aggregator adds the root files. */
  lemma RootWrites(m: map<string, string>, d: Descriptor, commons: string, aggregator: string)
    requires aggregator == AggregatorText(d.name, d.language, d.standard, Names(d.targets))
    ensures m[CommonsPath := commons][RootListsPath := aggregator] == m + RootFiles(d, commons)
  {
  }

  lemma TargetFilesStep(names: seq<string>, rs: seq<Result<string, Error>>, i: nat)
    requires |names| == |rs| && i < |rs| && SucceedUpTo(rs, i + 1)
    ensures TargetFiles(names, rs, i + 1) == TargetFiles(names, rs, i)[TargetPath(names[i]) := rs[i].value]
  {
  }

  /** Writing the preset document, then `.clang-format`, adds exactly those two files. */
  lemma SetupWrites(m: map<string, string>, presets: string, format: string)
    ensures m[PresetsPath := presets][ClangFormatPath := format] == m + map[PresetsPath := presets, ClangFormatPath := format]
  {
  }

  class Project {
    var files: map<string, string>
    var dirs: set<string>

    constructor()
      ensures files == map[] && dirs == {}
    {
      files := map[];
      dirs := {};
    }

    /** `kmake run`: the presets and formatter settings first, then each
        target's directories and file in declaration order, and with the
        root the common CMake code and the aggregator. The run stops at the
        first target whose type is missing or unknown, or at a root whose
        name is not PROJECT_NAME; what was written before stays written. */
    method Run(d: Descriptor, install: Install, host: Host, commons: string) returns (outcome: Outcome)
      modifies this
      ensures var names, rs := Names(d.targets), Emissions(d, install);
        var k := FirstFailure(rs, 0);
        && (outcome == Completed <==> k == |rs|)
        && (k < |rs| ==> outcome == Stopped(rs[k].error))
        && files == old(files) + SetupFiles(d, host) + TargetFiles(names, rs, k)
             + (if k == |rs| && k > 0 then RootFiles(d, commons) else map[])
        && dirs == old(dirs) + TargetDirsUpTo(names, if k < |rs| then k + 1 else k)
    {
      WriteSetup(d, host);
      var names := ProjectNames(d);
      outcome := WriteTargets(d, install, names, commons);
    }

    /** The presets document, then the formatter settings. */
    method WriteSetup(d: Descriptor, host: Host)
      modifies this
      ensures files == old(files) + SetupFiles(d, host)
      ensures dirs == old(dirs)
    {
      var presets := PresetFileString(d.compiler, d.platform, host, DefaultAndroidToolchain);
      SetupWrites(files, presets, ClangFormat);
      files := files[PresetsPath := presets];
      files := files[ClangFormatPath := ClangFormat];
      assert SetupFiles(d, host) == map[PresetsPath := presets, ClangFormatPath := ClangFormat];
    }

    /** The target loop of `handle_run`. */
    method WriteTargets(d: Descriptor, install: Install, names: seq<string>, commons: string) returns (outcome: Outcome)
      requires names == Names(d.targets)
      modifies this
      ensures var rs := Emissions(d, install);
        var k := FirstFailure(rs, 0);
        && (outcome == Completed <==> k == |rs|)
        && (k < |rs| ==> outcome == Stopped(rs[k].error))
      ensures var rs := Emissions(d, install);
        var k := FirstFailure(rs, 0);
        files == old(files) + TargetFiles(names, rs, k) + (if k == |rs| && k > 0 then RootFiles(d, commons) else map[])
      ensures var rs := Emissions(d, install);
        var k := FirstFailure(rs, 0);
        dirs == old(dirs) + TargetDirsUpTo(names, if k < |rs| then k + 1 else k)
    {
      ghost var base, dirs0 := files, dirs;
      ghost var rs := Emissions(d, install);
      UnionEmpty(base);
      for i := 0 to |d.targets|
        invariant SucceedUpTo(rs, i)
        invariant files == base + TargetFiles(names, rs, i) + (if i == |rs| && i > 0 then RootFiles(d, commons) else map[])
        invariant dirs == dirs0 + TargetDirsUpTo(names, i)
      {
        UnionEmpty(base + TargetFiles(names, rs, i));
        var text := WriteTarget(d, install, names, commons, i, base, dirs0, rs);
        if text.Err? {
          FirstFailureSkips(rs, i);
          ghost var k := FirstFailure(rs, 0);
          assert k == i && k < |rs|;
          return Stopped(text.error);
        }
      }
      FirstFailureSkips(rs, |rs|);
      return Completed;
    }

    /** One pass of the target loop: the target's directories, then its
        file, then, at the root, the commons file and the aggregator. */
    method WriteTarget(d: Descriptor, install: Install, names: seq<string>, commons: string, i: nat,
                       ghost base: map<string, string>, ghost dirs0: set<string>, ghost rs: seq<Result<string, Error>>)
      returns (text: Result<string, Error>)
      requires names == Names(d.targets) && rs == Emissions(d, install)
      requires i < |rs| && SucceedUpTo(rs, i)
      requires files == base + TargetFiles(names, rs, i)
      requires dirs == dirs0 + TargetDirsUpTo(names, i)
      modifies this
      ensures text == rs[i]
      ensures dirs == dirs0 + TargetDirsUpTo(names, i + 1)
      ensures text.Err? ==> files == old(files)
      ensures text.Ok? ==> SucceedUpTo(rs, i + 1)
      ensures text.Ok? ==>
        files == base + TargetFiles(names, rs, i + 1) + (if i + 1 == |rs| && i + 1 > 0 then RootFiles(d, commons) else map[])
    {
      var t := d.targets[i];
      dirs := dirs + TargetDirs(t.name);
      text := TargetText(d, i, install);
      EmissionAt(d, install, |d.targets|, i);
      if text.Err? {
        return;
      }
      assert names[i] == t.name && rs[i].value == text.value;
      TargetFilesStep(names, rs, i);
      UpdateUnion(base, TargetFiles(names, rs, i), TargetPath(t.name), text.value);
      files := files[TargetPath(t.name) := text.value];
      if IsRoot(d, i) {
        WriteRoot(d, names, commons);
      } else {
        UnionEmpty(files);
      }
    }

    /** The root's extra files: the common CMake code, then the aggregator. */
    method WriteRoot(d: Descriptor, names: seq<string>, commons: string)
      requires names == Names(d.targets)
      modifies this
      ensures files == old(files) + RootFiles(d, commons)
      ensures dirs == old(dirs)
    {
      var aggregator := BuildAggregator(d.name, d.language, d.standard, names);
      RootWrites(files, d, commons, aggregator);
      files := files[CommonsPath := commons];
      files := files[RootListsPath := aggregator];
    }

    /** `kmake unit`: the header under the target's include directory, then
        the source file that includes it. Each write raises when its
        directory does not exist; a header written before the source file's
        write raises stays written. */
    method AddUnit(language: string, project: string, unit: string) returns (outcome: UnitOutcome)
      modifies this
      ensures outcome == UnitWritten <==> HeaderDir(project) in old(dirs) && SourceDir(project) in old(dirs)
      ensures HeaderDir(project) !in old(dirs) ==>
        outcome == MissingDirectory(HeaderDir(project)) && files == old(files)
      ensures HeaderDir(project) in old(dirs) && SourceDir(project) !in old(dirs) ==>
        && outcome == MissingDirectory(SourceDir(project))
        && files == old(files)[HeaderPath(language, project, unit) := HeaderText(language, project, unit)]
      ensures outcome == UnitWritten ==>
        files == old(files)[HeaderPath(language, project, unit) := HeaderText(language, project, unit)]
                           [SourcePath(language, project, unit) := SourceText(language, project, unit)]
      ensures dirs == old(dirs)
    {
      if HeaderDir(project) !in dirs {
        return MissingDirectory(HeaderDir(project));
      }
      files := files[HeaderPath(language, project, unit) := HeaderText(language, project, unit)];
      if SourceDir(project) !in dirs {
        return MissingDirectory(SourceDir(project));
      }
      files := files[SourcePath(language, project, unit) := SourceText(language, project, unit)];
      return UnitWritten;
    }
  }
}
