/** `kmake doctor`: the packages to check, and for each the one-line summary
    of the versions vcpkg knows, grouped by major version. */
module Doctor {
  import opened Wrappers
  import opened Text
  import opened Generator

  /** The dependency names of one target, in declaration order. */
  function DepNames(deps: seq<Dep>): seq<string> {
    seq(|deps|, i requires 0 <= i < |deps| => deps[i].name)
  }

  /** The dependency names of all targets, target by target. */
  function AllDeps(ts: seq<Target>): seq<string> {
    if ts == [] then [] else AllDeps(ts[..|ts| - 1]) + DepNames(ts[|ts| - 1].deps)
  }

  /** The first occurrence of each name, in order. */
  function Dedup(xs: seq<string>): seq<string> {
    if xs == [] then []
    else
      var d := Dedup(xs[..|xs| - 1]);
      if xs[|xs| - 1] in d then d else d + [xs[|xs| - 1]]
  }

  /** No name occurs twice. */
  predicate Distinct(xs: seq<string>) {
    forall i, j :: 0 <= i < j < |xs| ==> xs[i] != xs[j]
  }

  /** Deduplication keeps every name and repeats none. */
  lemma {:induction false} DedupSpec(xs: seq<string>)
    ensures forall x :: x in Dedup(xs) <==> x in xs
    ensures Distinct(Dedup(xs))
  {
    if xs != [] {
      var init := xs[..|xs| - 1];
      DedupSpec(init);
      assert xs == init + [xs[|xs| - 1]];
    }
  }

  /** Deduplication keeps first occurrences in order: of two kept names, the
      earlier one occurs in the input before the later one first does. */
  lemma {:induction false} DedupOrder(xs: seq<string>, i: nat, j: nat)
    requires i < j < |Dedup(xs)|
    ensures exists p :: 0 <= p < |xs| && xs[p] == Dedup(xs)[i] && Dedup(xs)[j] !in xs[..p + 1]
  {
    var init, y := xs[..|xs| - 1], xs[|xs| - 1];
    var d := Dedup(init);
    assert xs == init + [y];
    if j < |d| {
      DedupOrder(init, i, j);
      var p :| 0 <= p < |init| && init[p] == d[i] && d[j] !in init[..p + 1];
      assert xs[..p + 1] == init[..p + 1];
    } else {
      DedupSpec(init);
      assert d[i] in init;
      var p :| 0 <= p < |init| && init[p] == d[i];
      assert Dedup(xs)[j] == y && y !in init;
      assert xs[..p + 1] == init[..p + 1];
    }
  }

  /** A list without repetitions is kept as it is. */
  lemma {:induction false} DedupDistinct(xs: seq<string>)
    requires Distinct(xs)
    ensures Dedup(xs) == xs
  {
    if xs != [] {
      var init := xs[..|xs| - 1];
      DedupDistinct(init);
      assert xs == init + [xs[|xs| - 1]];
      assert xs[|xs| - 1] !in init by {
        forall i | 0 <= i < |init| ensures init[i] != xs[|xs| - 1] {
          assert init[i] == xs[i];
        }
      }
    }
  }

  lemma DedupSnoc(xs: seq<string>, x: string)
    ensures Dedup(xs + [x]) == if x in Dedup(xs) then Dedup(xs) else Dedup(xs) + [x]
  {
    assert (xs + [x])[..|xs|] == xs;
  }

  lemma AllDepsSnoc(ts: seq<Target>, i: nat)
    requires i < |ts|
    ensures AllDeps(ts[..i + 1]) == AllDeps(ts[..i]) + DepNames(ts[i].deps)
  {
    assert ts[..i + 1][..i] == ts[..i];
  }

  lemma DepNamesSnoc(deps: seq<Dep>, j: nat)
    requires j < |deps|
    ensures DepNames(deps[..j + 1]) == DepNames(deps[..j]) + [deps[j].name]
  {
  }

  /** The inner loop of the collection: the dependencies of one target,
      each appended unless already present. */
  method AddDeps(packages: seq<string>, ghost seen: seq<string>, deps: seq<Dep>) returns (result: seq<string>)
    requires packages == Dedup(seen)
    ensures result == Dedup(seen + DepNames(deps))
  {
    result := packages;
    ghost var acc := seen;
    assert DepNames(deps[..0]) == [];
    for j := 0 to |deps|
      invariant acc == seen + DepNames(deps[..j])
      invariant result == Dedup(acc)
    {
      var name := deps[j].name;
      DedupSnoc(acc, name);
      DepNamesSnoc(deps, j);
      if name !in result {
        result := result + [name];
      }
      acc := acc + [name];
    }
    assert deps[..|deps|] == deps;
  }

  /** `packages_to_check` when no package is named on the command line: every
      dependency of every target, first occurrence first, each once. */
  method CollectPackages(ts: seq<Target>) returns (packages: seq<string>)
    ensures packages == Dedup(AllDeps(ts))
  {
    packages := [];
    for i := 0 to |ts|
      invariant packages == Dedup(AllDeps(ts[..i]))
    {
      packages := AddDeps(packages, AllDeps(ts[..i]), ts[i].deps);
      AllDepsSnoc(ts, i);
    }
    assert ts[..|ts|] == ts;
  }

  /** One entry of a port's version file. */
  datatype VersionEntry = VersionEntry(version: Option<string>, versionString: Option<string>)

  /** `v.get("version", v.get("version-string", "."))`. */
  function VersionText(v: VersionEntry): string {
    match v.version
    case Some(s) => s
    case None => match v.versionString case Some(s) => s case None => "."
  }

  function VersionTexts(entries: seq<VersionEntry>): seq<string> {
    seq(|entries|, i requires 0 <= i < |entries| => VersionText(entries[i]))
  }

  /** The major version: the text before the first '.', or all of it. The
      source's fallback for an empty split cannot be taken, since a split
      always yields at least one piece. */
  function Major(version: string): string {
    Split(version, '.')[0]
  }

  /** The major version is the longest prefix without a '.'. */
  lemma MajorPrefix(version: string)
    ensures StartsWith(version, Major(version)) && '.' !in Major(version)
    ensures |Major(version)| == |version| || version[|Major(version)|] == '.'
  {
    var parts := Split(version, '.');
    JoinSplit(version, '.');
    if |parts| == 1 {
      assert Join(".", parts) == parts[0];
    } else {
      assert Join(".", parts) == parts[0] + "." + Join(".", parts[1..]);
      assert version[..|parts[0]|] == parts[0];
    }
  }

  /** The groups of `version_groups`, in insertion order: a major version and its versions. */
  type Groups = seq<(string, seq<string>)>

  /** Where `key` is among the groups. */
  function IndexOf(groups: Groups, key: string): (r: Option<nat>)
    ensures r.Some? ==> r.value < |groups| && groups[r.value].0 == key
    ensures r.None? ==> forall i :: 0 <= i < |groups| ==> groups[i].0 != key
  {
    if groups == [] then None
    else if groups[0].0 == key then Some(0)
    else match IndexOf(groups[1..], key)
      case None => None
      case Some(i) => Some(i + 1)
  }

  /** Appending a version to its group, opening the group at the end when it is new. */
  function AddVersion(groups: Groups, key: string, version: string): Groups {
    match IndexOf(groups, key)
    case Some(i) => groups[i := (key, groups[i].1 + [version])]
    case None => groups + [(key, [version])]
  }

  /** The groups of a list of versions. */
  function Grouped(versions: seq<string>): Groups {
    if versions == [] then []
    else
      var last := versions[|versions| - 1];
      AddVersion(Grouped(versions[..|versions| - 1]), Major(last), last)
  }

  /** The versions with a given major version, in input order. */
  function Members(versions: seq<string>, key: string): seq<string> {
    if versions == [] then []
    else
      var last := versions[|versions| - 1];
      Members(versions[..|versions| - 1], key) + (if Major(last) == key then [last] else [])
  }

  /** The keys of the groups. */
  function GroupKeys(groups: Groups): seq<string> {
    seq(|groups|, i requires 0 <= i < |groups| => groups[i].0)
  }

  /** `g` groups `versions`: distinct keys, each group holding exactly the
      versions with its key and never empty, and a group for every major
      version present. */
  ghost predicate GroupsOf(g: Groups, versions: seq<string>) {
    && Distinct(GroupKeys(g))
    && (forall i :: 0 <= i < |g| ==> g[i].1 == Members(versions, g[i].0) && g[i].1 != [])
    && (forall key :: key in GroupKeys(g) <==> Members(versions, key) != [])
  }

  lemma MembersSnoc(init: seq<string>, v: string, key: string)
    ensures Members(init + [v], key) == Members(init, key) + (if Major(v) == key then [v] else [])
  {
    assert (init + [v])[..|init|] == init;
  }

  /** A version whose group is open already joins it. */
  lemma JoinGroup(g0: Groups, init: seq<string>, v: string, i: nat)
    requires GroupsOf(g0, init)
    requires i < |g0| && g0[i].0 == Major(v)
    ensures GroupsOf(g0[i := (Major(v), g0[i].1 + [v])], init + [v])
  {
    var k := Major(v);
    var g := g0[i := (k, g0[i].1 + [v])];
    forall key ensures Members(init + [v], key) == Members(init, key) + (if k == key then [v] else []) {
      MembersSnoc(init, v, key);
    }
    assert GroupKeys(g) == GroupKeys(g0);
    forall j | 0 <= j < |g| ensures g[j].1 == Members(init + [v], g[j].0) && g[j].1 != [] {
      if j != i {
        assert GroupKeys(g0)[j] != GroupKeys(g0)[i];
      }
    }
  }

  /** A version of a new major version opens a group at the end. */
  lemma OpenGroup(g0: Groups, init: seq<string>, v: string)
    requires GroupsOf(g0, init)
    requires forall i :: 0 <= i < |g0| ==> g0[i].0 != Major(v)
    ensures GroupsOf(g0 + [(Major(v), [v])], init + [v])
  {
    var k := Major(v);
    var g := g0 + [(k, [v])];
    var vs := init + [v];
    var keys0 := GroupKeys(g0);
    assert GroupKeys(g) == keys0 + [k];
    assert k !in keys0;
    assert Members(init, k) == [];
    forall i | 0 <= i < |g| ensures g[i].1 == Members(vs, g[i].0) && g[i].1 != [] {
      MembersSnoc(init, v, g[i].0);
      if i < |g0| {
        assert g[i] == g0[i];
      }
    }
    forall key ensures key in GroupKeys(g) <==> Members(vs, key) != [] {
      MembersSnoc(init, v, key);
      assert key in GroupKeys(g) <==> key in keys0 || key == k;
    }
  }

  lemma {:induction false} GroupedGroups(versions: seq<string>)
    ensures GroupsOf(Grouped(versions), versions)
  {
    if versions != [] {
      var init := versions[..|versions| - 1];
      var v := versions[|versions| - 1];
      GroupedGroups(init);
      assert versions == init + [v];
      var g0 := Grouped(init);
      match IndexOf(g0, Major(v))
      case Some(i) => JoinGroup(g0, init, v, i);
      case None => OpenGroup(g0, init, v);
    }
  }

  /** Grouping opens one group per major version, in order of first
      appearance, each holding exactly the versions with that major version
      in input order. */
  lemma GroupedSpec(versions: seq<string>)
    ensures var g := Grouped(versions);
      && Distinct(GroupKeys(g))
      && (forall i :: 0 <= i < |g| ==> g[i].1 == Members(versions, g[i].0) && g[i].1 != [])
      && (forall key :: key in GroupKeys(g) <==> Members(versions, key) != [])
  {
    GroupedGroups(versions);
  }

  /** Python's `<` on strings: the first differing code point decides, and a
      proper prefix comes first. */
  predicate Less(a: string, b: string) {
    if b == [] then false
    else if a == [] then true
    else if a[0] != b[0] then a[0] < b[0]
    else Less(a[1..], b[1..])
  }

  lemma {:induction false} LessIrreflexive(a: string)
    ensures !Less(a, a)
  {
    if a != [] {
      LessIrreflexive(a[1..]);
    }
  }

  lemma {:induction false} LessTotal(a: string, b: string)
    ensures a == b || Less(a, b) || Less(b, a)
  {
    if a != [] && b != [] && a[0] == b[0] {
      LessTotal(a[1..], b[1..]);
      if a[1..] == b[1..] {
        assert a == [a[0]] + a[1..] && b == [b[0]] + b[1..];
      }
    }
  }

  lemma {:induction false} LessAsymmetric(a: string, b: string)
    ensures !(Less(a, b) && Less(b, a))
  {
    if a != [] && b != [] && a[0] == b[0] {
      LessAsymmetric(a[1..], b[1..]);
    }
  }

  lemma {:induction false} LessTransitive(a: string, b: string, c: string)
    requires Less(a, b) && Less(b, c)
    ensures Less(a, c)
  {
    if a != [] && a[0] == b[0] && b[0] == c[0] {
      LessTransitive(a[1..], b[1..], c[1..]);
    }
  }

  /** Strictly descending. */
  predicate Descending(s: seq<string>) {
    forall i, j :: 0 <= i < j < |s| ==> Less(s[j], s[i])
  }

  /** Inserting into a descending list before the first smaller element. */
  function Insert(x: string, s: seq<string>): seq<string> {
    if s == [] then [x]
    else if Less(s[0], x) then [x] + s
    else [s[0]] + Insert(x, s[1..])
  }

  /** `sorted(keys, reverse=True)`. */
  function SortDescending(keys: seq<string>): seq<string> {
    if keys == [] then [] else Insert(keys[0], SortDescending(keys[1..]))
  }

  /** Inserting adds exactly the one element. */
  lemma {:induction false} InsertMultiset(x: string, s: seq<string>)
    ensures multiset(Insert(x, s)) == multiset(s) + multiset{x}
  {
    if s != [] && !Less(s[0], x) {
      InsertMultiset(x, s[1..]);
      assert s == [s[0]] + s[1..];
    }
  }

  /** A head above every element of a descending list extends it. */
  lemma ConsDescending(h: string, t: seq<string>)
    requires Descending(t) && forall j :: 0 <= j < |t| ==> Less(t[j], h)
    ensures Descending([h] + t)
  {
    var r := [h] + t;
    forall i, j | 0 <= i < j < |r| ensures Less(r[j], r[i]) {
      assert r[j] == t[j - 1];
      if i > 0 {
        assert r[i] == t[i - 1];
      }
    }
  }

  lemma DescendingTail(s: seq<string>)
    requires s != [] && Descending(s)
    ensures Descending(s[1..])
  {
    var t := s[1..];
    forall i, j | 0 <= i < j < |t| ensures Less(t[j], t[i]) {
      assert t[i] == s[i + 1] && t[j] == s[j + 1];
    }
  }

  /** What is inserted after the head stays below it. */
  lemma InsertBelowHead(x: string, s: seq<string>)
    requires s != [] && Descending(s) && x !in s && !Less(s[0], x)
    ensures forall j :: 0 <= j < |Insert(x, s[1..])| ==> Less(Insert(x, s[1..])[j], s[0])
  {
    var tail := s[1..];
    var rest := Insert(x, tail);
    InsertMultiset(x, tail);
    LessTotal(x, s[0]);
    forall j | 0 <= j < |rest| ensures Less(rest[j], s[0]) {
      assert rest[j] in multiset(rest);
      if rest[j] != x {
        assert rest[j] in multiset(tail);
        var k :| 0 <= k < |tail| && tail[k] == rest[j];
        assert s[k + 1] == rest[j];
      }
    }
  }

  /** Inserting a new element keeps the list strictly descending. */
  lemma {:induction false} InsertDescending(x: string, s: seq<string>)
    requires Descending(s) && x !in s
    ensures Descending(Insert(x, s))
  {
    if s == [] {
    } else if Less(s[0], x) {
      forall j | 0 <= j < |s| ensures Less(s[j], x) {
        if j > 0 {
          LessTransitive(s[j], s[0], x);
        }
      }
      ConsDescending(x, s);
    } else {
      DescendingTail(s);
      InsertDescending(x, s[1..]);
      InsertBelowHead(x, s);
      ConsDescending(s[0], Insert(x, s[1..]));
    }
  }

  /** Inserting a new key into a strictly descending list adds it once and
      keeps the order. */
  lemma InsertSpec(x: string, s: seq<string>)
    requires Descending(s) && x !in s
    ensures multiset(Insert(x, s)) == multiset(s) + multiset{x}
    ensures Descending(Insert(x, s))
  {
    InsertMultiset(x, s);
    InsertDescending(x, s);
  }

  /** The tail of a list without repeats has none either, nor its head. */
  lemma DistinctTail(keys: seq<string>)
    requires keys != [] && Distinct(keys)
    ensures Distinct(keys[1..]) && keys[0] !in keys[1..]
  {
    var rest := keys[1..];
    forall i | 0 <= i < |rest| ensures rest[i] != keys[0] {
      assert rest[i] == keys[i + 1];
    }
    forall i, j | 0 <= i < j < |rest| ensures rest[i] != rest[j] {
      assert rest[i] == keys[i + 1] && rest[j] == keys[j + 1];
    }
  }

  /** Sorting a list of distinct keys gives them in strictly descending order,
      each exactly once. */
  lemma {:induction false} SortDescendingSpec(keys: seq<string>)
    requires Distinct(keys)
    ensures multiset(SortDescending(keys)) == multiset(keys)
    ensures Descending(SortDescending(keys))
  {
    if keys != [] {
      var rest := keys[1..];
      DistinctTail(keys);
      SortDescendingSpec(rest);
      assert keys[0] !in multiset(SortDescending(rest));
      InsertSpec(keys[0], SortDescending(rest));
      assert keys == [keys[0]] + rest;
    }
  }

  /** How a group is shown: in full when it has at most three versions,
      otherwise the first two, an ellipsis and the last. */
  function GroupDisplay(group: seq<string>): string {
    if |group| <= 3 then Join(", ", group)
    else group[0] + ", " + group[1] + ", ... " + group[|group| - 1]
  }

  /** The versions of the group with the given key. */
  function GroupOf(groups: Groups, key: string): seq<string> {
    match IndexOf(groups, key)
    case Some(i) => groups[i].1
    case None => []
  }

  /** The displays of all groups, largest major version first. */
  function DisplayParts(groups: Groups): seq<string> {
    var keys := SortDescending(GroupKeys(groups));
    seq(|keys|, i requires 0 <= i < |keys| => GroupDisplay(GroupOf(groups, keys[i])))
  }

  function Min(a: int, b: int): int {
    if a < b then a else b
  }

  /** The summary: at most five groups joined by " | ", and " | ..." when
      there are more than five. */
  function Summary(groups: Groups): string {
    var parts := DisplayParts(groups);
    Join(" | ", parts[..Min(5, |parts|)]) + (if |groups| > 5 then " | ..." else "")
  }

  /** Builds the summary as `handle_doctor` does: one display per sorted key. */
  method BuildSummary(groups: Groups) returns (display: string)
    ensures display == Summary(groups)
  {
    var keys := SortDescending(GroupKeys(groups));
    var parts := [];
    for i := 0 to |keys|
      invariant parts == DisplayParts(groups)[..i]
    {
      parts := parts + [GroupDisplay(GroupOf(groups, keys[i]))];
    }
    assert parts == DisplayParts(groups);
    display := Join(" | ", parts[..Min(5, |parts|)]);
    if |groups| > 5 {
      display := display + " | ...";
    }
  }

  /** The groups of a version list, built by the loop of `handle_doctor`. */
  method GroupVersions(entries: seq<VersionEntry>) returns (groups: Groups)
    ensures groups == Grouped(VersionTexts(entries))
  {
    groups := [];
    for i := 0 to |entries|
      invariant groups == Grouped(VersionTexts(entries)[..i])
    {
      var version := VersionText(entries[i]);
      var parts := Split(version, '.');
      var major := if |parts| > 0 then parts[0] else ".";
      assert VersionTexts(entries)[..i + 1][..i] == VersionTexts(entries)[..i];
      groups := AddVersion(groups, major, version);
    }
    assert VersionTexts(entries)[..|entries|] == VersionTexts(entries);
  }

  /** The summary shows the largest major versions first, at most five of
      them, each group once, and marks that more exist. */
  lemma SummaryShape(versions: seq<string>)
    ensures var g := Grouped(versions);
      var keys := SortDescending(GroupKeys(g));
      && multiset(keys) == multiset(GroupKeys(g))
      && Descending(keys)
      && |DisplayParts(g)| == |g|
      && (forall i :: 0 <= i < |keys| ==> DisplayParts(g)[i] == GroupDisplay(Members(versions, keys[i])))
      && (|g| > 5 ==> Summary(g) == Join(" | ", DisplayParts(g)[..5]) + " | ...")
      && (|g| <= 5 ==> Summary(g) == Join(" | ", DisplayParts(g)))
  {
    var g := Grouped(versions);
    GroupedSpec(versions);
    SortDescendingSpec(GroupKeys(g));
    var keys := SortDescending(GroupKeys(g));
    assert |keys| == |multiset(keys)| == |GroupKeys(g)|;
    forall i | 0 <= i < |keys| ensures GroupOf(g, keys[i]) == Members(versions, keys[i]) {
      assert keys[i] in multiset(GroupKeys(g));
      assert keys[i] in GroupKeys(g);
    }
    assert DisplayParts(g)[..|DisplayParts(g)|] == DisplayParts(g);
  }

  /** `packages_to_check`: the packages named on the command line, as given,
      or else the dependencies the descriptor declares. */
  method PackagesToCheck(requested: seq<string>, ts: seq<Target>) returns (packages: seq<string>)
    ensures requested != [] ==> packages == requested
    ensures requested == [] ==> packages == Dedup(AllDeps(ts))
    ensures requested == [] ==> forall x :: x in packages <==> x in AllDeps(ts)
    ensures requested == [] ==> Distinct(packages)
  {
    if requested != [] {
      packages := requested;
    } else {
      packages := CollectPackages(ts);
      DedupSpec(AllDeps(ts));
    }
  }

  /** Where vcpkg keeps a port's versions: under a directory named after the
      port's lower-cased first letter and a '-'. An empty name has no first
      letter: `package[0]` raises, which `CheckPackages` models as the end of
      the doctor's run. */
  function VersionFile(package: string): (r: Option<string>)
    ensures r.Some? <==> package != []
    ensures r.Some? ==> var f := r.value;
      && StartsWith(f, "versions/") && |f| == 17 + |package|
      && f[9] == LowerChar(package[0]) && f[10..12] == "-/"
      && f[12..12 + |package|] == package && f[12 + |package|..] == ".json"
  {
    if package == [] then None
    else Some("versions/" + [LowerChar(package[0]), '-'] + "/" + package + ".json")
  }

  /** The report line of one package: `found` holds the entries of its version
      file, or None when the port has no version file. */
  function Report(package: string, found: Option<seq<VersionEntry>>): string {
    match found
    case None => "\U{274C} " + package + ": Not found in vcpkg"
    case Some(entries) =>
      if entries == [] then "\U{26A0}\U{FE0F}  " + package + ": No versions available"
      else "\U{2705} " + package + ": " + Summary(Grouped(VersionTexts(entries)))
  }

  /** Every report line names its package right after its status mark, and a
      port with versions is reported with the summary of its groups. */
  lemma ReportShape(package: string, found: Option<seq<VersionEntry>>)
    ensures var mark := match found
        case None => "\U{274C} "
        case Some(entries) => if entries == [] then "\U{26A0}\U{FE0F}  " else "\U{2705} ";
      StartsWith(Report(package, found), mark + package + ": ")
  {
  }

  /** The position of the first empty name, or the number of names when none is empty. */
  function FirstEmpty(packages: seq<string>): (k: nat)
    ensures k <= |packages|
    ensures forall j :: 0 <= j < k ==> packages[j] != []
    ensures k < |packages| ==> packages[k] == []
  {
    if packages == [] || packages[0] == [] then 0
    else
      var k := FirstEmpty(packages[1..]);
      assert forall j :: 1 <= j < 1 + k ==> packages[j] == packages[1..][j - 1];
      1 + k
  }

  /** The report lines of the doctor's loop, given the parsed version file at
      each path (None when the file does not exist): one line per package up
      to the first empty name, where `package[0]` raises and the run ends. */
  function DoctorLines(packages: seq<string>, versions: string -> Option<seq<VersionEntry>>): seq<string> {
    if packages == [] || packages[0] == [] then []
    else [Report(packages[0], versions(VersionFile(packages[0]).value))] + DoctorLines(packages[1..], versions)
  }

  /** The doctor reports the packages before the first empty name, in order,
      each from its own version file, and nothing after it. */
  lemma {:induction false} DoctorLinesSpec(packages: seq<string>, versions: string -> Option<seq<VersionEntry>>)
    ensures |DoctorLines(packages, versions)| == FirstEmpty(packages)
    ensures forall k :: 0 <= k < FirstEmpty(packages) ==>
      DoctorLines(packages, versions)[k] == Report(packages[k], versions(VersionFile(packages[k]).value))
  {
    if packages != [] && packages[0] != [] {
      DoctorLinesSpec(packages[1..], versions);
      forall k | 1 <= k < FirstEmpty(packages)
        ensures DoctorLines(packages, versions)[k] == Report(packages[k], versions(VersionFile(packages[k]).value))
      {
        assert packages[1..][k - 1] == packages[k];
      }
    }
  }

  /** The loop over `packages_to_check`: the lines printed, and whether the run
      was cut short by an empty name. */
  method CheckPackages(packages: seq<string>, versions: string -> Option<seq<VersionEntry>>)
    returns (lines: seq<string>, aborted: bool)
    ensures lines == DoctorLines(packages, versions)
    ensures aborted <==> exists k :: 0 <= k < |packages| && packages[k] == []
  {
    lines := [];
    var i := 0;
    while i < |packages|
      invariant i <= FirstEmpty(packages)
      invariant lines + DoctorLines(packages[i..], versions) == DoctorLines(packages, versions)
    {
      var package := packages[i];
      if package == [] {
        return lines, true;
      }
      assert packages[i..][1..] == packages[i + 1..];
      lines := lines + [Report(package, versions(VersionFile(package).value))];
      i := i + 1;
    }
    assert packages[i..] == [];
    return lines, false;
  }
}
