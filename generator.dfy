/** The text `kmake run` writes for each target (`src/<name>/CMakeLists.txt`)
    and for the root (`CMakeLists.txt`), computed from the project
    descriptor and the package resolver. */
module Generator {
  import opened Wrappers
  import opened Text
  import opened Resolver

  /** One entry of a target's `deps` map: the name, and its `version` when the entry has one. */
  datatype Dep = Dep(name: string, version: Option<string>)

  /** One entry of `PROJECT_STRUCTURE`: the target name, its `type` (None when the
      key is absent) and its dependencies in declaration order (empty when the
      `deps` key is absent). */
  datatype Target = Target(name: string, kind: Option<string>, deps: seq<Dep>)

  /** The project descriptor `build.py` defines. */
  datatype Descriptor = Descriptor(
    name: string,        // PROJECT_NAME
    language: string,    // PROJECT_LANGUAGE
    standard: string,    // PROJECT_LANGUAGE_STANDARD, as formatted into the text
    compiler: string,    // PROJECT_COMPILER
    platform: string,    // PROJECT_PLATFORM, the vcpkg triplet
    targets: seq<Target>)

  /** Why a run stops: a target without `type` (KeyError), a `type` that is
      none of the three known ones (ValueError), or a last target whose name is
      not PROJECT_NAME (exit status 1). */
  datatype Error =
    | MissingType(target: string)
    | UnknownType(target: string, kind: string)
    | RootNameMismatch(root: string, expected: string)

  /** The target names in declaration order (`project_names`). */
  function Names(ts: seq<Target>): (ns: seq<string>)
    ensures |ns| == |ts| && forall i :: 0 <= i < |ts| ==> ns[i] == ts[i].name
  {
    seq(|ts|, i requires 0 <= i < |ts| => ts[i].name)
  }

  /** `PROJECT_STRUCTURE` is a dictionary: no name occurs twice. */
  predicate UniqueNames(ts: seq<Target>) {
    forall i, j :: 0 <= i < j < |ts| ==> ts[i].name != ts[j].name
  }

  /** `dep_detail.get("version", "")`. */
  function VersionOf(dep: Dep): string {
    match dep.version
    case Some(v) => v
    case None => ""
  }

  const MinimumRequired := "cmake_minimum_required(VERSION 3.28)"
  const CommonsInclude := "\ninclude(\"../../CMakeCommons.cmake\")\nfile(GLOB_RECURSE "
  const GlobPatterns := "_SRC CONFIGURE_DEPENDS  \"${CMAKE_CURRENT_SOURCE_DIR}/*.cpp\" \"${CMAKE_CURRENT_SOURCE_DIR}/*.hpp\" \"${CMAKE_CURRENT_SOURCE_DIR}/*.c\" \"${CMAKE_CURRENT_SOURCE_DIR}/*.h\")\n"
  const PostBuildOpen := "add_custom_command(\n    TARGET "
  const PostBuildCopy := " POST_BUILD\n    COMMAND ${CMAKE_COMMAND} -E copy\n            \"${CMAKE_SOURCE_DIR}/out/build/${CMAKE_PRESET_NAME}/compile_commands.json\"\n            \"${CMAKE_SOURCE_DIR}/compile_commands.json\"\n)\n"

  /** The opening of every target file: the minimum version, the common
      include and the recursive source glob named `<name>_SRC`. */
  function Header(name: string): string {
    MinimumRequired + CommonsInclude + name + GlobPatterns
  }

  /** The target declaration chosen by `type`. */
  function Declaration(name: string, kind: Option<string>): Result<string, Error> {
    match kind
    case None => Err(MissingType(name))
    case Some(k) =>
      if k == "static-library" then Ok("\nadd_library(" + name + " STATIC ${" + name + "_SRC})\n")
      else if k == "dynamic-library" then Ok("\nadd_library(" + name + " DYNAMIC ${" + name + "_SRC})\n")
      else if k == "binary" then Ok("\nadd_executable(" + name + "  ${" + name + "_SRC})\n")
      else Err(UnknownType(name, k))
  }

  /** Exactly the three known types are accepted; a missing type is a
      KeyError and any other a ValueError naming it. */
  lemma DeclarationCases(name: string, kind: Option<string>)
    ensures Declaration(name, kind).Ok? <==>
      kind == Some("static-library") || kind == Some("dynamic-library") || kind == Some("binary")
    ensures kind.None? ==> Declaration(name, kind) == Err(MissingType(name))
    ensures kind.Some? && Declaration(name, kind).Err? ==> Declaration(name, kind) == Err(UnknownType(name, kind.value))
  {
  }

  /** The precompiled standard headers call, emitted for C++ only. */
  function Precompile(name: string, language: string): (r: string)
    ensures r != "" <==> language == "C++"
  {
    if language == "C++" then "\nPrecompileStdHeaders(" + name + ")\n" else ""
  }

  /** A dependency is resolved through vcpkg when it names no declared target. */
  predicate IsExternal(dep: Dep, names: seq<string>) {
    dep.name !in names
  }

  /** Running the resolver for one external dependency of `target`. */
  function Resolve(install: Install, dep: Dep, triplet: string): Option<string> {
    install(dep.name, triplet, VersionOf(dep))
  }

  /** The fragments of the external dependencies, in declaration order; the
      first resolver failure ends the loop and drops everything after it. */
  function Externals(deps: seq<Dep>, names: seq<string>, target: string, triplet: string, install: Install): string
    decreases |deps|
  {
    if deps == [] then ""
    else if !IsExternal(deps[0], names) then Externals(deps[1..], names, target, triplet, install)
    else
      match Resolve(install, deps[0], triplet)
      case None => ""
      case Some(output) => Fragment(output, target) + Externals(deps[1..], names, target, triplet, install)
  }

  /** Every external dependency among `deps` resolves. */
  predicate AllResolve(deps: seq<Dep>, names: seq<string>, triplet: string, install: Install) {
    forall i :: 0 <= i < |deps| && IsExternal(deps[i], names) ==> Resolve(install, deps[i], triplet).Some?
  }

  /** Nothing after a failing external dependency contributes: the fragments
      are those of the dependencies before it. */
  lemma {:induction false} ExternalsStopAtFailure(deps: seq<Dep>, names: seq<string>, target: string, triplet: string,
                                                  install: Install, j: nat)
    requires j < |deps| && IsExternal(deps[j], names) && Resolve(install, deps[j], triplet).None?
    ensures Externals(deps, names, target, triplet, install) == Externals(deps[..j], names, target, triplet, install)
  {
    if j == 0 {
      assert deps[..0] == [];
    } else {
      ExternalsStopAtFailure(deps[1..], names, target, triplet, install, j - 1);
      assert deps[1..][..j - 1] == deps[..j][1..];
      assert deps[..j][0] == deps[0];
    }
  }

  /** When a prefix resolves completely, its fragments come first and the rest follow. */
  lemma {:induction false} ExternalsAppend(a: seq<Dep>, b: seq<Dep>, names: seq<string>, target: string, triplet: string,
                                           install: Install)
    requires AllResolve(a, names, triplet, install)
    ensures Externals(a + b, names, target, triplet, install) ==
      Externals(a, names, target, triplet, install) + Externals(b, names, target, triplet, install)
  {
    if a == [] {
      assert a + b == b;
    } else {
      assert (a + b)[0] == a[0] && (a + b)[1..] == a[1..] + b;
      assert AllResolve(a[1..], names, triplet, install) by {
        forall i | 0 <= i < |a[1..]| && IsExternal(a[1..][i], names)
          ensures Resolve(install, a[1..][i], triplet).Some?
        {
          assert a[1..][i] == a[i + 1];
        }
      }
      ExternalsAppend(a[1..], b, names, target, triplet, install);
      if IsExternal(a[0], names) {
        assert Resolve(install, a[0], triplet).Some?;
        var f := Fragment(Resolve(install, a[0], triplet).value, target);
        var x, y := Externals(a[1..], names, target, triplet, install), Externals(b, names, target, triplet, install);
        assert Externals(a + b, names, target, triplet, install) == f + (x + y);
        assert f + (x + y) == (f + x) + y;
      }
    }
  }

  /** What one dependency contributes when it resolves: its fragment when it
      is external, nothing when it is a declared target. */
  function Part(dep: Dep, names: seq<string>, target: string, triplet: string, install: Install): string {
    if !IsExternal(dep, names) then ""
    else
      match Resolve(install, dep, triplet)
      case None => ""
      case Some(output) => Fragment(output, target)
  }

  /** The contributions of the dependencies, one per dependency, in declaration order. */
  function Parts(deps: seq<Dep>, names: seq<string>, target: string, triplet: string, install: Install): (r: seq<string>)
    ensures |r| == |deps|
  {
    if deps == [] then [] else [Part(deps[0], names, target, triplet, install)] + Parts(deps[1..], names, target, triplet, install)
  }

  /** The fragments when every external dependency resolves: one per external
      dependency, in declaration order, internal ones contributing nothing. */
  lemma {:induction false} ExternalsResolved(deps: seq<Dep>, names: seq<string>, target: string, triplet: string,
                                             install: Install)
    requires AllResolve(deps, names, triplet, install)
    ensures Externals(deps, names, target, triplet, install) == Concat(Parts(deps, names, target, triplet, install))
  {
    if deps != [] {
      var rest := deps[1..];
      assert AllResolve(rest, names, triplet, install) by {
        forall i | 0 <= i < |rest| && IsExternal(rest[i], names)
          ensures Resolve(install, rest[i], triplet).Some?
        {
          assert rest[i] == deps[i + 1];
        }
      }
      ExternalsResolved(rest, names, target, triplet, install);
      var parts := Parts(deps, names, target, triplet, install);
      assert parts[0] == Part(deps[0], names, target, triplet, install);
      assert parts[1..] == Parts(rest, names, target, triplet, install);
    }
  }

  /** The strings of `parts`, one after the other. */
  function Concat(parts: seq<string>): string {
    if parts == [] then "" else parts[0] + Concat(parts[1..])
  }

  /** The dependencies that are declared targets, in declaration order. */
  function InternalDeps(deps: seq<Dep>, names: seq<string>): seq<string> {
    if deps == [] then []
    else
      var last := deps[|deps| - 1];
      InternalDeps(deps[..|deps| - 1], names) + (if last.name in names then [last.name] else [])
  }

  /** The internal dependencies are exactly the dependencies whose name is a declared target. */
  lemma {:induction false} InternalDepsMember(deps: seq<Dep>, names: seq<string>, x: string)
    ensures x in InternalDeps(deps, names) <==> x in names && exists i :: 0 <= i < |deps| && deps[i].name == x
  {
    if deps != [] {
      var init := deps[..|deps| - 1];
      InternalDepsMember(init, names, x);
      if x in InternalDeps(init, names) {
        var i :| 0 <= i < |init| && init[i].name == x;
        assert deps[i] == init[i];
      }
      if x in names && (exists i :: 0 <= i < |deps| && deps[i].name == x) {
        var i :| 0 <= i < |deps| && deps[i].name == x;
        if i < |init| {
          assert init[i] == deps[i];
        }
      }
    }
  }

  /** Filtering distributes over concatenation: the relative order is kept. */
  lemma {:induction false} InternalDepsAppend(a: seq<Dep>, b: seq<Dep>, names: seq<string>)
    ensures InternalDeps(a + b, names) == InternalDeps(a, names) + InternalDeps(b, names)
    decreases |b|
  {
    if b == [] {
      assert a + b == a;
    } else {
      var binit := b[..|b| - 1];
      InternalDepsAppend(a, binit, names);
      assert (a + b)[..|a + b| - 1] == a + binit;
      assert (a + b)[|a + b| - 1] == b[|b| - 1];
    }
  }

  /** The `target_link_libraries` line: present exactly when some dependency
      is a declared target, listing those in declaration order. */
  function LinkLine(deps: seq<Dep>, names: seq<string>, target: string): (r: string)
  {
    var internal := InternalDeps(deps, names);
    if internal == [] then "" else "target_link_libraries(" + target + " " + Join(" ", internal) + ")\n"
  }

  /** There is no link line exactly when no dependency is a declared target. */
  lemma LinkLineEmpty(deps: seq<Dep>, names: seq<string>, target: string)
    ensures LinkLine(deps, names, target) == "" <==> forall i :: 0 <= i < |deps| ==> deps[i].name !in names
  {
    if InternalDeps(deps, names) == [] {
      forall i | 0 <= i < |deps| ensures deps[i].name !in names {
        InternalDepsMember(deps, names, deps[i].name);
      }
    } else {
      var x := InternalDeps(deps, names)[0];
      InternalDepsMember(deps, names, x);
    }
  }

  /** The post-build step of the root target: copy `compile_commands.json` to the source root. */
  function PostBuild(name: string): string {
    PostBuildOpen + name + PostBuildCopy
  }

  /** Everything of a target file except the root's post-build step. */
  function Body(d: Descriptor, t: Target, declaration: string, install: Install): string {
    var names := Names(d.targets);
    Header(t.name) + declaration + Precompile(t.name, d.language)
      + Externals(t.deps, names, t.name, d.platform, install) + LinkLine(t.deps, names, t.name)
  }

  /** The root is the last declared target. */
  predicate IsRoot(d: Descriptor, i: nat) {
    i == |d.targets| - 1
  }

  /** The `CMakeLists.txt` of target `i`, or why the run stops there. */
  function Emission(d: Descriptor, i: nat, install: Install): Result<string, Error>
    requires i < |d.targets|
  {
    var t := d.targets[i];
    match Declaration(t.name, t.kind)
    case Err(e) => Err(e)
    case Ok(decl) =>
      var body := Body(d, t, decl, install);
      if IsRoot(d, i) then
        if t.name != d.name then Err(RootNameMismatch(t.name, d.name)) else Ok(body + PostBuild(t.name))
      else Ok(body)
  }

  /** The type is checked before the dependencies are resolved and the root's
      name after them; only the root's file carries the post-build step. */
  lemma EmissionCases(d: Descriptor, i: nat, install: Install)
    requires i < |d.targets|
    ensures var t := d.targets[i];
      var r := Emission(d, i, install);
      && (Declaration(t.name, t.kind).Err? ==> r == Err(Declaration(t.name, t.kind).error))
      && (r.Err? <==> Declaration(t.name, t.kind).Err? || (IsRoot(d, i) && t.name != d.name))
      && (r.Err? && Declaration(t.name, t.kind).Ok? ==> r.error == RootNameMismatch(t.name, d.name))
      && (r.Ok? ==>
            r.value == Body(d, t, Declaration(t.name, t.kind).value, install)
              + (if IsRoot(d, i) then PostBuild(t.name) else ""))
  {
  }

  /** The resolver loop of one target: the try block around it ends at the
      first failure. */
  method ResolveExternals(deps: seq<Dep>, names: seq<string>, target: string, triplet: string, install: Install)
    returns (text: string)
    ensures text == Externals(deps, names, target, triplet, install)
  {
    text := "";
    var i := 0;
    while i < |deps|
      invariant 0 <= i <= |deps|
      invariant Externals(deps, names, target, triplet, install) == text + Externals(deps[i..], names, target, triplet, install)
    {
      assert deps[i..][1..] == deps[i + 1..];
      if deps[i].name !in names {
        var output := install(deps[i].name, triplet, VersionOf(deps[i]));
        if output.None? {
          return;
        }
        text := text + Fragment(output.value, target);
      }
      i := i + 1;
    }
  }

  /** The link loop of one target: the opening is written before the first
      internal dependency, the closing only if one was seen. */
  method LinkDirective(deps: seq<Dep>, names: seq<string>, target: string) returns (text: string)
    ensures text == LinkLine(deps, names, target)
  {
    text := "";
    var first := true;
    for i := 0 to |deps|
      invariant first <==> InternalDeps(deps[..i], names) == []
      invariant first ==> text == ""
      invariant !first ==> text == "target_link_libraries(" + target + " " + Join(" ", InternalDeps(deps[..i], names))
    {
      assert deps[..i + 1][..i] == deps[..i];
      assert InternalDeps(deps[..i + 1], names) ==
        InternalDeps(deps[..i], names) + (if deps[i].name in names then [deps[i].name] else []);
      var opening := "target_link_libraries(" + target + " ";
      if deps[i].name in names {
        if first {
          text := text + "target_link_libraries(" + target;
          first := false;
          assert InternalDeps(deps[..i + 1], names) == [deps[i].name];
          text := text + " " + deps[i].name;
          assert text == opening + Join(" ", [deps[i].name]);
        } else {
          var before := InternalDeps(deps[..i], names);
          JoinSnoc(" ", before, deps[i].name);
          assert InternalDeps(deps[..i + 1], names) == before + [deps[i].name];
          text := text + " " + deps[i].name;
          assert text == opening + (Join(" ", before) + " " + deps[i].name);
        }
      } else {
        assert InternalDeps(deps[..i + 1], names) == InternalDeps(deps[..i], names) + [];
        assert InternalDeps(deps[..i], names) + [] == InternalDeps(deps[..i], names);
      }
    }
    assert deps[..|deps|] == deps;
    if !first {
      text := text + ")\n";
    }
  }

  /** Builds one target file step by step as `handle_run` does. */
  method TargetText(d: Descriptor, i: nat, install: Install) returns (r: Result<string, Error>)
    requires i < |d.targets|
    ensures r == Emission(d, i, install)
  {
    var t := d.targets[i];
    var names := Names(d.targets);
    var text := Header(t.name);
    var declaration := Declaration(t.name, t.kind);
    if declaration.Err? {
      return Err(declaration.error);
    }
    text := text + declaration.value;
    text := text + Precompile(t.name, d.language);
    var externals := ResolveExternals(t.deps, names, t.name, d.platform, install);
    text := text + externals;
    var link := LinkDirective(t.deps, names, t.name);
    text := text + link;
    if IsRoot(d, i) {
      if t.name != d.name {
        return Err(RootNameMismatch(t.name, d.name));
      }
      text := text + PostBuild(t.name);
    }
    return Ok(text);
  }
}
