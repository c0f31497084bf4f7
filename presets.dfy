/** `get_cmake_preset_file_string`: the CMakePresets.json document with one
    configure preset per build type for the project's vcpkg triplet. */
module Presets {
  import opened Wrappers
  import opened Text
  import opened OrderedDict

  /** The three mutually exclusive platform classes of a triplet. */
  datatype Platform = Android | Web | Native

  /** What the host contributes: whether `platform.system()` is "Windows",
      and the toolchain files under the kmake home (as `str(Path)` gives them,
      so possibly with backslashes). */
  datatype Host = Host(isWindows: bool, vcpkgToolchain: string, emscriptenToolchain: string)

  /** The `android_toolchain` default, the value `handle_run` uses. */
  const DefaultAndroidToolchain := "C:/AndroidSDK/ndk/26.3.11579264/build/cmake/android.toolchain.cmake"

  const BuildTypes: seq<string> := ["Debug", "Release", "RelWithDebInfo", "MinSizeRel"]

  /** Android wins over web: an arm triplet mentioning android is Android even if it mentions wasm. */
  function Classify(triplet: string): (p: Platform)
    ensures p == Android <==> StartsWith(triplet, "arm") && Contains(triplet, "android")
    ensures p == Web <==> p != Android && (Contains(triplet, "wasm") || Contains(triplet, "emscripten"))
  {
    if StartsWith(triplet, "arm") && Contains(triplet, "android") then Android
    else if Contains(triplet, "wasm") || Contains(triplet, "emscripten") then Web
    else Native
  }

  /** Triplets the project template names fall into the expected classes. */
  lemma ClassifyAndroidExample()
    ensures Classify("arm64-android") == Android
  {
    assert OccursAt("arm64-android", "android", 6);
    ContainsIff("arm64-android", "android");
  }

  lemma ClassifyWebExample()
    ensures Classify("wasm32-emscripten") == Web
  {
    assert "wasm32-emscripten"[0] != "arm"[0];
    assert StartsWith("wasm32-emscripten", "wasm");
  }

  lemma ClassifyNativeExample(triplet: string)
    requires triplet == "x64-windows"
    ensures Classify(triplet) == Native
  {
    assert triplet[0] == 'x';
    AbsentChar(triplet, "wasm", 'a');
    AbsentChar(triplet, "emscripten", 'e');
  }

  /** `compilers.get(compiler, ("clang", "clang++"))`, with the Windows table
      naming the emscripten wrappers `.bat`. */
  function CompilerPair(compiler: string, isWindows: bool): (pair: (string, string))
    ensures compiler !in {"gcc", "emcc"} ==> pair == ("clang", "clang++")
    ensures compiler == "emcc" ==> pair == if isWindows then ("emcc.bat", "em++.bat") else ("emcc", "em++")
    ensures compiler == "gcc" ==> pair == ("gcc", "g++")
  {
    if compiler == "clang" then ("clang", "clang++")
    else if compiler == "gcc" then ("gcc", "g++")
    else if compiler == "emcc" then (if isWindows then ("emcc.bat", "em++.bat") else ("emcc", "em++"))
    else ("clang", "clang++")
  }

  /** `str(path).replace("\\", "/")`. */
  function ForwardSlashes(path: string): string {
    Replace(path, "\\", "/")
  }

  /** `s.split(pat)[0]`. */
  function BeforeFirst(s: string, pat: string): (r: string)
    requires pat != []
    ensures |r| <= |s| && r == s[..|r|]
    decreases |s|
  {
    if s == [] || StartsWith(s, pat) then [] else [s[0]] + BeforeFirst(s[1..], pat)
  }

  lemma OccursShift(s: string, pat: string, j: int)
    requires 1 <= j && s != []
    ensures OccursAt(s, pat, j) <==> OccursAt(s[1..], pat, j - 1)
  {
    if j + |pat| <= |s| {
      var a, b := s[j..j + |pat|], s[1..][j - 1..j - 1 + |pat|];
      forall k | 0 <= k < |pat| ensures a[k] == b[k] {
        assert a[k] == s[j + k] && b[k] == s[j + k];
      }
      assert a == b;
    }
  }

  /** `s.split(pat)[0]` stops at the first occurrence of `pat`, and is all of
      `s` when `pat` does not occur. */
  lemma {:induction false} BeforeFirstIsFirst(s: string, pat: string)
    requires pat != []
    ensures var r := BeforeFirst(s, pat);
      && (forall j :: 0 <= j < |r| ==> !OccursAt(s, pat, j))
      && (|r| < |s| ==> OccursAt(s, pat, |r|))
      && (!Contains(s, pat) ==> r == s)
    decreases |s|
  {
    ContainsIff(s, pat);
    if s != [] && !StartsWith(s, pat) {
      var r := BeforeFirst(s, pat);
      BeforeFirstIsFirst(s[1..], pat);
      ContainsIff(s[1..], pat);
      forall j | 1 <= j <= |r| {
        OccursShift(s, pat, j);
      }
      assert !OccursAt(s, pat, 0);
      if !Contains(s, pat) {
        forall j | 0 <= j ensures !OccursAt(s[1..], pat, j) {
          OccursShift(s, pat, j + 1);
        }
      }
    }
  }

  /** The base cache variables after the platform-specific `update`s. */
  function BaseCache(compiler: string, triplet: string, host: Host, androidToolchain: string): Dict {
    var (c, cxx) := CompilerPair(compiler, host.isWindows);
    var toolchain := ForwardSlashes(host.vcpkgToolchain);
    var base := [("CMAKE_PRESET_NAME", "${presetName}"), ("CMAKE_TOOLCHAIN_FILE", toolchain)];
    match Classify(triplet)
    case Android =>
      var d1 := Put(base, "CMAKE_SYSTEM_NAME", "Android");
      var d2 := Put(d1, "CMAKE_ANDROID_NDK", BeforeFirst(androidToolchain, "/build/cmake"));
      var d3 := Put(d2, "CMAKE_ANDROID_STL_TYPE", "c++_shared");
      Put(d3, "VCPKG_TARGET_TRIPLET", triplet)
    case Web =>
      var d1 := Put(base, "VCPKG_TARGET_TRIPLET", triplet);
      var d2 := Put(d1, "CMAKE_C_COMPILER", c);
      var d3 := Put(d2, "CMAKE_CXX_COMPILER", cxx);
      var d4 := Put(d3, "CMAKE_TOOLCHAIN_FILE", toolchain);
      Put(d4, "VCPKG_CHAINLOAD_TOOLCHAIN_FILE", ForwardSlashes(host.emscriptenToolchain))
    case Native =>
      var d1 := Put(base, "CMAKE_C_COMPILER", c);
      Put(d1, "CMAKE_CXX_COMPILER", cxx)
  }

  /** The cache variables of each class, in the order the document lists them:
      Android gets the system name, the NDK root (the toolchain path before
      "/build/cmake"), the STL and the triplet, and no compilers; the web gets
      the triplet, both compilers and the chain-loaded emscripten toolchain,
      the vcpkg toolchain keeping its second place; native gets only the two
      compilers. */
  lemma BaseCacheContents(compiler: string, triplet: string, host: Host, androidToolchain: string)
    ensures var (c, cxx) := CompilerPair(compiler, host.isWindows);
      var toolchain := ForwardSlashes(host.vcpkgToolchain);
      BaseCache(compiler, triplet, host, androidToolchain) ==
        match Classify(triplet)
        case Android =>
          [("CMAKE_PRESET_NAME", "${presetName}"), ("CMAKE_TOOLCHAIN_FILE", toolchain),
           ("CMAKE_SYSTEM_NAME", "Android"),
           ("CMAKE_ANDROID_NDK", BeforeFirst(androidToolchain, "/build/cmake")),
           ("CMAKE_ANDROID_STL_TYPE", "c++_shared"), ("VCPKG_TARGET_TRIPLET", triplet)]
        case Web =>
          [("CMAKE_PRESET_NAME", "${presetName}"), ("CMAKE_TOOLCHAIN_FILE", toolchain),
           ("VCPKG_TARGET_TRIPLET", triplet), ("CMAKE_C_COMPILER", c), ("CMAKE_CXX_COMPILER", cxx),
           ("VCPKG_CHAINLOAD_TOOLCHAIN_FILE", ForwardSlashes(host.emscriptenToolchain))]
        case Native =>
          [("CMAKE_PRESET_NAME", "${presetName}"), ("CMAKE_TOOLCHAIN_FILE", toolchain),
           ("CMAKE_C_COMPILER", c), ("CMAKE_CXX_COMPILER", cxx)]
  {
    var (c, cxx) := CompilerPair(compiler, host.isWindows);
    var toolchain := ForwardSlashes(host.vcpkgToolchain);
    match Classify(triplet)
    case Android =>
      AndroidEntries(toolchain, BeforeFirst(androidToolchain, "/build/cmake"), triplet);
    case Web =>
      WebEntries(toolchain, triplet, c, cxx, ForwardSlashes(host.emscriptenToolchain));
    case Native =>
      NativeEntries(toolchain, c, cxx);
  }

  lemma AndroidEntries(toolchain: string, ndk: string, triplet: string)
    ensures var base := [("CMAKE_PRESET_NAME", "${presetName}"), ("CMAKE_TOOLCHAIN_FILE", toolchain)];
      Put(Put(Put(Put(base, "CMAKE_SYSTEM_NAME", "Android"), "CMAKE_ANDROID_NDK", ndk),
              "CMAKE_ANDROID_STL_TYPE", "c++_shared"), "VCPKG_TARGET_TRIPLET", triplet) ==
        base + [("CMAKE_SYSTEM_NAME", "Android"), ("CMAKE_ANDROID_NDK", ndk),
                ("CMAKE_ANDROID_STL_TYPE", "c++_shared"), ("VCPKG_TARGET_TRIPLET", triplet)]
  {
    var base := [("CMAKE_PRESET_NAME", "${presetName}"), ("CMAKE_TOOLCHAIN_FILE", toolchain)];
    PutNew(base, "CMAKE_SYSTEM_NAME", "Android");
    var d1 := base + [("CMAKE_SYSTEM_NAME", "Android")];
    PutNew(d1, "CMAKE_ANDROID_NDK", ndk);
    var d2 := d1 + [("CMAKE_ANDROID_NDK", ndk)];
    AndroidLibraries(d2, triplet);
    assert d2 + [("CMAKE_ANDROID_STL_TYPE", "c++_shared"), ("VCPKG_TARGET_TRIPLET", triplet)] ==
      base + [("CMAKE_SYSTEM_NAME", "Android"), ("CMAKE_ANDROID_NDK", ndk),
              ("CMAKE_ANDROID_STL_TYPE", "c++_shared"), ("VCPKG_TARGET_TRIPLET", triplet)];
  }

  /** The STL type and the triplet are new keys after the NDK, appended in order. */
  lemma AndroidLibraries(d2: Dict, triplet: string)
    requires |d2| == 4 && d2[0].0 == "CMAKE_PRESET_NAME" && d2[1].0 == "CMAKE_TOOLCHAIN_FILE"
    requires d2[2].0 == "CMAKE_SYSTEM_NAME" && d2[3].0 == "CMAKE_ANDROID_NDK"
    ensures Put(Put(d2, "CMAKE_ANDROID_STL_TYPE", "c++_shared"), "VCPKG_TARGET_TRIPLET", triplet) ==
      d2 + [("CMAKE_ANDROID_STL_TYPE", "c++_shared"), ("VCPKG_TARGET_TRIPLET", triplet)]
  {
    PutNew(d2, "CMAKE_ANDROID_STL_TYPE", "c++_shared");
    var d3 := d2 + [("CMAKE_ANDROID_STL_TYPE", "c++_shared")];
    PutNew(d3, "VCPKG_TARGET_TRIPLET", triplet);
    assert d3 + [("VCPKG_TARGET_TRIPLET", triplet)] ==
      d2 + [("CMAKE_ANDROID_STL_TYPE", "c++_shared"), ("VCPKG_TARGET_TRIPLET", triplet)];
  }

  lemma WebEntries(toolchain: string, triplet: string, c: string, cxx: string, em: string)
    ensures var base := [("CMAKE_PRESET_NAME", "${presetName}"), ("CMAKE_TOOLCHAIN_FILE", toolchain)];
      Put(Put(Put(Put(Put(base, "VCPKG_TARGET_TRIPLET", triplet), "CMAKE_C_COMPILER", c),
                  "CMAKE_CXX_COMPILER", cxx), "CMAKE_TOOLCHAIN_FILE", toolchain),
          "VCPKG_CHAINLOAD_TOOLCHAIN_FILE", em) ==
        base + [("VCPKG_TARGET_TRIPLET", triplet), ("CMAKE_C_COMPILER", c), ("CMAKE_CXX_COMPILER", cxx),
                ("VCPKG_CHAINLOAD_TOOLCHAIN_FILE", em)]
  {
    var base := [("CMAKE_PRESET_NAME", "${presetName}"), ("CMAKE_TOOLCHAIN_FILE", toolchain)];
    WebCompilers(toolchain, triplet, c, cxx);
    var d3 := base + [("VCPKG_TARGET_TRIPLET", triplet), ("CMAKE_C_COMPILER", c), ("CMAKE_CXX_COMPILER", cxx)];
    WebToolchains(d3, toolchain, em);
    assert d3 + [("VCPKG_CHAINLOAD_TOOLCHAIN_FILE", em)] ==
      base + [("VCPKG_TARGET_TRIPLET", triplet), ("CMAKE_C_COMPILER", c), ("CMAKE_CXX_COMPILER", cxx),
              ("VCPKG_CHAINLOAD_TOOLCHAIN_FILE", em)];
  }

  /** The web triplet and compilers are new keys, appended in order. */
  lemma WebCompilers(toolchain: string, triplet: string, c: string, cxx: string)
    ensures var base := [("CMAKE_PRESET_NAME", "${presetName}"), ("CMAKE_TOOLCHAIN_FILE", toolchain)];
      Put(Put(Put(base, "VCPKG_TARGET_TRIPLET", triplet), "CMAKE_C_COMPILER", c), "CMAKE_CXX_COMPILER", cxx) ==
        base + [("VCPKG_TARGET_TRIPLET", triplet), ("CMAKE_C_COMPILER", c), ("CMAKE_CXX_COMPILER", cxx)]
  {
    var base := [("CMAKE_PRESET_NAME", "${presetName}"), ("CMAKE_TOOLCHAIN_FILE", toolchain)];
    PutNew(base, "VCPKG_TARGET_TRIPLET", triplet);
    var d1 := base + [("VCPKG_TARGET_TRIPLET", triplet)];
    PutNew(d1, "CMAKE_C_COMPILER", c);
    var d2 := d1 + [("CMAKE_C_COMPILER", c)];
    PutNew(d2, "CMAKE_CXX_COMPILER", cxx);
  }

  /** Re-assigning the vcpkg toolchain keeps it in second place with the same
      value; the chain-loaded toolchain is appended. */
  lemma WebToolchains(d3: Dict, toolchain: string, em: string)
    requires |d3| == 5 && d3[1] == ("CMAKE_TOOLCHAIN_FILE", toolchain)
    requires d3[0].0 == "CMAKE_PRESET_NAME" && d3[2].0 == "VCPKG_TARGET_TRIPLET"
    requires d3[3].0 == "CMAKE_C_COMPILER" && d3[4].0 == "CMAKE_CXX_COMPILER"
    ensures Put(Put(d3, "CMAKE_TOOLCHAIN_FILE", toolchain), "VCPKG_CHAINLOAD_TOOLCHAIN_FILE", em) ==
      d3 + [("VCPKG_CHAINLOAD_TOOLCHAIN_FILE", em)]
  {
    PutExisting(d3, "CMAKE_TOOLCHAIN_FILE", toolchain, 1);
    assert d3[1 := ("CMAKE_TOOLCHAIN_FILE", toolchain)] == d3;
    PutNew(d3, "VCPKG_CHAINLOAD_TOOLCHAIN_FILE", em);
  }

  lemma NativeEntries(toolchain: string, c: string, cxx: string)
    ensures var base := [("CMAKE_PRESET_NAME", "${presetName}"), ("CMAKE_TOOLCHAIN_FILE", toolchain)];
      Put(Put(base, "CMAKE_C_COMPILER", c), "CMAKE_CXX_COMPILER", cxx) ==
        base + [("CMAKE_C_COMPILER", c), ("CMAKE_CXX_COMPILER", cxx)]
  {
    var base := [("CMAKE_PRESET_NAME", "${presetName}"), ("CMAKE_TOOLCHAIN_FILE", toolchain)];
    PutNew(base, "CMAKE_C_COMPILER", c);
    var d1 := base + [("CMAKE_C_COMPILER", c)];
    PutNew(d1, "CMAKE_CXX_COMPILER", cxx);
  }

  /** The `arch` hint: "x64" when the triplet mentions x64 or arm64, else "x86". */
  function Architecture(triplet: string): (a: string)
    ensures a == "x64" <==> Contains(triplet, "x64") || Contains(triplet, "arm64")
    ensures a == "x64" || a == "x86"
  {
    if Contains(triplet, "x64") || Contains(triplet, "arm64") then "x64" else "x86"
  }

  /** One configure preset as the document describes it. */
  datatype Preset = Preset(
    name: string,
    displayName: string,
    architecture: Option<string>,
    baseCache: Dict,
    buildType: string)

  /** The `cacheVariables` object of a preset: the base cache, then the build type. */
  function CacheVariables(p: Preset): Dict {
    p.baseCache + [("CMAKE_BUILD_TYPE", p.buildType)]
  }

  /** The preset of one build type. */
  function PresetFor(triplet: string, platform: Platform, cache: Dict, buildType: string): Preset {
    Preset(
      triplet + "-" + Lower(buildType),
      triplet + " " + buildType,
      if platform == Native then Some(Architecture(triplet)) else None,
      cache,
      buildType)
  }

  /** The four configure presets, in build-type order. */
  function PresetList(compiler: string, triplet: string, host: Host, androidToolchain: string): seq<Preset> {
    var cache := BaseCache(compiler, triplet, host, androidToolchain);
    seq(|BuildTypes|, i requires 0 <= i < |BuildTypes| => PresetFor(triplet, Classify(triplet), cache, BuildTypes[i]))
  }

  lemma GetAppended(d: Dict, k: string, v: string, k': string)
    requires k !in Keys(d)
    ensures Get(d + [(k, v)], k') == if k' == k then Some(v) else Get(d, k')
  {
    PutNew(d, k, v);
    GetPut(d, k, v, k');
  }

  /** Exactly four presets, Debug, Release, RelWithDebInfo and MinSizeRel in
      that order, each named `<triplet>-<build type in lower case>` and shown
      as `<triplet> <build type>`. */
  lemma PresetNames(compiler: string, triplet: string, host: Host, androidToolchain: string)
    ensures var ps := PresetList(compiler, triplet, host, androidToolchain);
      && |ps| == 4
      && ps[0].name == triplet + "-" + "debug" && ps[0].displayName == triplet + " " + "Debug"
      && ps[1].name == triplet + "-" + "release" && ps[1].displayName == triplet + " " + "Release"
      && ps[2].name == triplet + "-" + "relwithdebinfo" && ps[2].displayName == triplet + " " + "RelWithDebInfo"
      && ps[3].name == triplet + "-" + "minsizerel" && ps[3].displayName == triplet + " " + "MinSizeRel"
  {
    LowerBuildTypes();
    PresetNameAt(compiler, triplet, host, androidToolchain, 0, "debug");
    PresetNameAt(compiler, triplet, host, androidToolchain, 1, "release");
    PresetNameAt(compiler, triplet, host, androidToolchain, 2, "relwithdebinfo");
    PresetNameAt(compiler, triplet, host, androidToolchain, 3, "minsizerel");
  }

  lemma PresetNameAt(compiler: string, triplet: string, host: Host, androidToolchain: string,
                     i: nat, lowered: string)
    requires i < |BuildTypes| && Lower(BuildTypes[i]) == lowered
    ensures var ps := PresetList(compiler, triplet, host, androidToolchain);
      |ps| == |BuildTypes| && ps[i].name == triplet + "-" + lowered && ps[i].displayName == triplet + " " + BuildTypes[i]
  {
    PresetListAt(compiler, triplet, host, androidToolchain, i);
  }

  lemma LowerBuildTypes()
    ensures |BuildTypes| == 4
    ensures Lower(BuildTypes[0]) == "debug" && Lower(BuildTypes[1]) == "release"
    ensures Lower(BuildTypes[2]) == "relwithdebinfo" && Lower(BuildTypes[3]) == "minsizerel"
  {
    LowerLiteral1();
    LowerLiteral2();
    LowerLiteral3();
  }

  lemma LowerLiteral1()
    ensures Lower("Debug") == "debug" && Lower("Release") == "release"
  {
  }

  lemma LowerLiteral2()
    ensures Lower("RelWithDebInfo") == "relwithdebinfo"
  {
    LowerPointwise("RelWithDebInfo", "relwithdebinfo");
  }

  lemma LowerLiteral3()
    ensures Lower("MinSizeRel") == "minsizerel"
  {
    LowerPointwise("MinSizeRel", "minsizerel");
  }

  /** Each preset sets CMAKE_BUILD_TYPE to its own build type, and every
      other cache variable has the same value in all four. */
  lemma PresetCaches(compiler: string, triplet: string, host: Host, androidToolchain: string)
    ensures var ps := PresetList(compiler, triplet, host, androidToolchain);
      && |ps| == 4
      && (forall i :: 0 <= i < 4 ==>
            ps[i].buildType == BuildTypes[i] &&
            Get(CacheVariables(ps[i]), "CMAKE_BUILD_TYPE") == Some(BuildTypes[i]))
      && (forall i, j, k :: 0 <= i < 4 && 0 <= j < 4 && k != "CMAKE_BUILD_TYPE" ==>
            Get(CacheVariables(ps[i]), k) == Get(CacheVariables(ps[j]), k))
  {
    var ps := PresetList(compiler, triplet, host, androidToolchain);
    var cache := BaseCache(compiler, triplet, host, androidToolchain);
    assert |BuildTypes| == 4;
    forall i | 0 <= i < 4
      ensures |ps| == 4 && ps[i].buildType == BuildTypes[i]
      ensures Get(CacheVariables(ps[i]), "CMAKE_BUILD_TYPE") == Some(BuildTypes[i])
    {
      PresetCache(compiler, triplet, host, androidToolchain, i, "CMAKE_BUILD_TYPE");
    }
    forall i, j, k | 0 <= i < 4 && 0 <= j < 4 && k != "CMAKE_BUILD_TYPE"
      ensures Get(CacheVariables(ps[i]), k) == Get(CacheVariables(ps[j]), k)
    {
      PresetCache(compiler, triplet, host, androidToolchain, i, k);
      PresetCache(compiler, triplet, host, androidToolchain, j, k);
    }
  }

  /** Preset `i`'s cache is the shared base cache with its own build type added. */
  lemma PresetCache(compiler: string, triplet: string, host: Host, androidToolchain: string, i: nat, k: string)
    requires i < |BuildTypes|
    ensures var ps := PresetList(compiler, triplet, host, androidToolchain);
      && |ps| == |BuildTypes| && ps[i].buildType == BuildTypes[i]
      && Get(CacheVariables(ps[i]), k) ==
           if k == "CMAKE_BUILD_TYPE" then Some(BuildTypes[i])
           else Get(BaseCache(compiler, triplet, host, androidToolchain), k)
  {
    var cache := BaseCache(compiler, triplet, host, androidToolchain);
    PresetListAt(compiler, triplet, host, androidToolchain, i);
    BuildTypeNotCached(compiler, triplet, host, androidToolchain);
    GetAppended(cache, "CMAKE_BUILD_TYPE", BuildTypes[i], k);
  }

  /** No platform puts CMAKE_BUILD_TYPE in the base cache. */
  lemma BuildTypeNotCached(compiler: string, triplet: string, host: Host, androidToolchain: string)
    ensures "CMAKE_BUILD_TYPE" !in Keys(BaseCache(compiler, triplet, host, androidToolchain))
  {
    BaseCacheContents(compiler, triplet, host, androidToolchain);
  }

  /** Only native triplets carry the architecture hint, and it is the triplet's `arch`. */
  lemma PresetArchitecture(compiler: string, triplet: string, host: Host, androidToolchain: string)
    ensures var ps := PresetList(compiler, triplet, host, androidToolchain);
      forall i :: 0 <= i < |ps| ==>
        (ps[i].architecture.Some? <==> Classify(triplet) == Native) &&
        (ps[i].architecture.Some? ==> ps[i].architecture.value == Architecture(triplet))
  {
  }

  // The fixed pieces of the preset template, in document order.
  const PresetOpen := "    {\n      \"name\": \""
  const DisplayNameKey := "\",\n      \"displayName\": \""
  const Directories := "\",\n      \"generator\": \"Ninja\",\n      \"binaryDir\": \"${sourceDir}/out/build/${presetName}\",\n      \"installDir\": \"${sourceDir}/out/install/${presetName}\""
  const ArchitectureOpen := ",\n      \"architecture\": {\n        \"value\": \""
  const ArchitectureClose := "\",\n        \"strategy\": \"external\"\n      }"
  const CacheOpen := ",\n      \"cacheVariables\": {\n        \""
  const CacheSeparator := "\",\n        \""
  const BuildTypeKey := "\",\n        \"CMAKE_BUILD_TYPE\": \""
  const PresetClose := "\"\n      }\n    }"
  const DocumentOpen := "{\n  \"version\": 3,\n  \"configurePresets\": [\n"
  const DocumentClose := "\n  ]\n}"

  /** The `"architecture"` member that follows `installDir`, present for native triplets only. */
  function ArchitectureBlock(architecture: Option<string>): string {
    match architecture
    case None => ""
    case Some(a) => ArchitectureOpen + a + ArchitectureClose
  }

  /** The base cache as `'",\n        "'.join(f'{k}": "{v}')`. */
  function CacheText(cache: Dict): string {
    Join(CacheSeparator, seq(|cache|, i requires 0 <= i < |cache| => cache[i].0 + "\": \"" + cache[i].1))
  }

  /** The text of one entry of `configurePresets`. */
  function RenderPreset(p: Preset): string {
    PresetOpen + p.name + DisplayNameKey + p.displayName + Directories +
    ArchitectureBlock(p.architecture) +
    CacheOpen + CacheText(p.baseCache) + BuildTypeKey + p.buildType + PresetClose
  }

  /** The whole file around the rendered presets. */
  function RenderDocument(presets: seq<string>): string {
    DocumentOpen + Join(",\n", presets) + DocumentClose
  }

  /** The rendered presets, in order. */
  function RenderAll(ps: seq<Preset>): (r: seq<string>)
    ensures |r| == |ps|
  {
    if ps == [] then [] else RenderAll(ps[..|ps| - 1]) + [RenderPreset(ps[|ps| - 1])]
  }

  /** Entry `i` of the rendered list is the rendering of preset `i`. */
  lemma {:induction false} RenderAllAt(ps: seq<Preset>, i: nat)
    requires i < |ps|
    ensures RenderAll(ps)[i] == RenderPreset(ps[i])
  {
    if i < |ps| - 1 {
      RenderAllAt(ps[..|ps| - 1], i);
    }
  }

  /** The text CMakePresets.json receives. */
  function PresetDocument(compiler: string, triplet: string, host: Host, androidToolchain: string): string {
    RenderDocument(RenderAll(PresetList(compiler, triplet, host, androidToolchain)))
  }

  lemma RenderAllSnoc(ps: seq<Preset>, i: nat)
    requires i < |ps|
    ensures RenderAll(ps[..i + 1]) == RenderAll(ps[..i]) + [RenderPreset(ps[i])]
  {
    assert ps[..i + 1][..i] == ps[..i];
  }

  lemma PresetListAt(compiler: string, triplet: string, host: Host, androidToolchain: string, i: nat)
    requires i < |BuildTypes|
    ensures |PresetList(compiler, triplet, host, androidToolchain)| == |BuildTypes|
    ensures PresetList(compiler, triplet, host, androidToolchain)[i] ==
      PresetFor(triplet, Classify(triplet), BaseCache(compiler, triplet, host, androidToolchain), BuildTypes[i])
  {
  }

  /** Builds the cache once, then renders one preset per build type in a loop. */
  method PresetFileString(compiler: string, triplet: string, host: Host, androidToolchain: string)
    returns (doc: string)
    ensures doc == PresetDocument(compiler, triplet, host, androidToolchain)
  {
    ghost var ps := PresetList(compiler, triplet, host, androidToolchain);
    var platform := Classify(triplet);
    var cache := BaseCache(compiler, triplet, host, androidToolchain);
    var presets: seq<string> := [];
    for i := 0 to |BuildTypes|
      invariant presets == RenderAll(ps[..i])
    {
      var preset := PresetFor(triplet, platform, cache, BuildTypes[i]);
      PresetListAt(compiler, triplet, host, androidToolchain, i);
      RenderAllSnoc(ps, i);
      presets := presets + [RenderPreset(preset)];
    }
    PresetListAt(compiler, triplet, host, androidToolchain, 0);
    assert ps[..|BuildTypes|] == ps;
    doc := RenderDocument(presets);
  }
}
