/** The package-resolver adapter `install_vcpkg_package`: vcpkg is run for
    one package and the CMake usage lines it prints are scraped into a
    fragment for the consuming target's CMakeLists. */
module Resolver {
  import opened Wrappers
  import opened Text

  /** Running vcpkg for (package, triplet, version), with version "" when the
      descriptor gives none: the merged stdout and stderr, or None when the
      call raises. The exit status is not consulted by the caller. */
  type Install = (string, string, string) -> Option<string>

  /** The target name vcpkg uses in the usage text it prints. */
  const Placeholder := "main"

  /** A resolver line worth keeping: once stripped it starts with "find_" or "target_". */
  predicate IsDirective(line: string) {
    StartsWith(Strip(line), "find_") || StartsWith(Strip(line), "target_")
  }

  /** A kept line: stripped, and every "main" in it replaced by the consuming target. */
  function Rewrite(line: string, target: string): string {
    Replace(Strip(line), Placeholder, target)
  }

  /** A filtering list comprehension: `[f(x) for x in xs if keep(x)]`. */
  function FilterMap(keep: string -> bool, f: string -> string, xs: seq<string>): seq<string> {
    if xs == [] then []
    else (if keep(xs[0]) then [f(xs[0])] else []) + FilterMap(keep, f, xs[1..])
  }

  /** The list comprehension over the output lines. */
  function KeptLines(lines: seq<string>, target: string): seq<string> {
    FilterMap(IsDirective, line => Rewrite(line, target), lines)
  }

  /** The text `install_vcpkg_package` returns for the raw resolver output. */
  function Fragment(output: string, target: string): string {
    "\n" + Join("\n", KeptLines(SplitLines(output), target)) + "\n\n"
  }

  lemma {:induction false} FilterMapAppend(keep: string -> bool, f: string -> string, a: seq<string>, b: seq<string>)
    ensures FilterMap(keep, f, a + b) == FilterMap(keep, f, a) + FilterMap(keep, f, b)
  {
    if a == [] {
      assert a + b == b;
    } else {
      var head := if keep(a[0]) then [f(a[0])] else [];
      assert (a + b)[0] == a[0] && (a + b)[1..] == a[1..] + b;
      assert FilterMap(keep, f, a + b) == head + FilterMap(keep, f, a[1..] + b);
      FilterMapAppend(keep, f, a[1..], b);
      assert FilterMap(keep, f, a) == head + FilterMap(keep, f, a[1..]);
    }
  }

  lemma {:induction false} FilterMapOrigin(keep: string -> bool, f: string -> string, xs: seq<string>, x: string)
    requires x in FilterMap(keep, f, xs)
    ensures exists i :: 0 <= i < |xs| && keep(xs[i]) && f(xs[i]) == x
  {
    if !(keep(xs[0]) && f(xs[0]) == x) {
      FilterMapOrigin(keep, f, xs[1..], x);
      var i :| 0 <= i < |xs| - 1 && keep(xs[1..][i]) && f(xs[1..][i]) == x;
      assert xs[1..][i] == xs[i + 1];
    }
  }

  lemma {:induction false} FilterMapContains(keep: string -> bool, f: string -> string, xs: seq<string>, i: nat)
    requires i < |xs| && keep(xs[i])
    ensures f(xs[i]) in FilterMap(keep, f, xs)
  {
    if i > 0 {
      assert xs[1..][i - 1] == xs[i];
      FilterMapContains(keep, f, xs[1..], i - 1);
    }
  }

  lemma {:induction false} FilterMapNone(keep: string -> bool, f: string -> string, xs: seq<string>)
    requires forall i :: 0 <= i < |xs| ==> !keep(xs[i])
    ensures FilterMap(keep, f, xs) == []
  {
    if xs != [] {
      assert !keep(xs[0]);
      FilterMapNone(keep, f, xs[1..]);
    }
  }

  lemma {:induction false} FilterMapAgree(keep: string -> bool, f: string -> string, g: string -> string, xs: seq<string>)
    requires forall i :: 0 <= i < |xs| && keep(xs[i]) ==> f(xs[i]) == g(xs[i])
    ensures FilterMap(keep, f, xs) == FilterMap(keep, g, xs)
  {
    if xs != [] {
      FilterMapAgree(keep, f, g, xs[1..]);
    }
  }

  /** Filtering distributes over concatenation: kept lines keep their relative order. */
  lemma KeptAppend(a: seq<string>, b: seq<string>, target: string)
    ensures KeptLines(a + b, target) == KeptLines(a, target) + KeptLines(b, target)
  {
    FilterMapAppend(IsDirective, line => Rewrite(line, target), a, b);
  }

  /** A line is kept exactly when some input line is a directive that rewrites to it. */
  lemma KeptMember(lines: seq<string>, target: string, x: string)
    ensures x in KeptLines(lines, target) <==>
      exists i :: 0 <= i < |lines| && IsDirective(lines[i]) && x == Rewrite(lines[i], target)
  {
    var f := line => Rewrite(line, target);
    if x in KeptLines(lines, target) {
      FilterMapOrigin(IsDirective, f, lines, x);
    }
    if exists i :: 0 <= i < |lines| && IsDirective(lines[i]) && x == Rewrite(lines[i], target) {
      var i :| 0 <= i < |lines| && IsDirective(lines[i]) && x == Rewrite(lines[i], target);
      FilterMapContains(IsDirective, f, lines, i);
    }
  }

  /** The replacement cannot reach into the "find_"/"target_" prefix, since
      neither contains an 'm': a rewritten directive is still a directive. */
  lemma RewriteKeepsPrefix(line: string, target: string)
    requires IsDirective(line)
    ensures StartsWith(Rewrite(line, target), "find_") || StartsWith(Rewrite(line, target), "target_")
  {
    DirectiveKept(Strip(line), target);
  }

  /** The same, for the stripped line. */
  lemma DirectiveKept(s: string, target: string)
    requires StartsWith(s, "find_") || StartsWith(s, "target_")
    ensures StartsWith(Replace(s, Placeholder, target), "find_") || StartsWith(Replace(s, Placeholder, target), "target_")
  {
    if StartsWith(s, "find_") {
      ReplaceKeepsPrefix(s, "find_", Placeholder, target);
    } else {
      ReplaceKeepsPrefix(s, "target_", Placeholder, target);
    }
  }

  /** Every line of a fragment starts with "find_" or "target_". */
  lemma KeptAreDirectives(lines: seq<string>, target: string)
    ensures forall k :: 0 <= k < |KeptLines(lines, target)| ==>
      StartsWith(KeptLines(lines, target)[k], "find_") || StartsWith(KeptLines(lines, target)[k], "target_")
  {
    var kept := KeptLines(lines, target);
    forall k | 0 <= k < |kept|
      ensures StartsWith(kept[k], "find_") || StartsWith(kept[k], "target_")
    {
      KeptMember(lines, target, kept[k]);
      var i :| 0 <= i < |lines| && IsDirective(lines[i]) && kept[k] == Rewrite(lines[i], target);
      RewriteKeepsPrefix(lines[i], target);
    }
  }

  /** When no directive line mentions "main", the directives are kept exactly
      as stripped, whatever the other lines say. */
  lemma KeptWithoutPlaceholder(lines: seq<string>, target: string)
    requires forall k :: 0 <= k < |lines| && IsDirective(lines[k]) ==> !Contains(Strip(lines[k]), Placeholder)
    ensures KeptLines(lines, target) == KeptLines(lines, Placeholder)
  {
    var f, g := line => Rewrite(line, target), line => Rewrite(line, Placeholder);
    forall k | 0 <= k < |lines| && IsDirective(lines[k]) ensures f(lines[k]) == g(lines[k]) {
      ReplaceAbsent(Strip(lines[k]), Placeholder, target);
      ReplaceSelf(Strip(lines[k]), Placeholder);
    }
    FilterMapAgree(IsDirective, f, g, lines);
  }

  /** Output with no directive lines (including no output at all) gives "\n\n\n". */
  lemma FragmentWithoutDirectives(output: string, target: string)
    requires forall k :: 0 <= k < |SplitLines(output)| ==> !IsDirective(SplitLines(output)[k])
    ensures Fragment(output, target) == "\n\n\n"
  {
    NothingKept(SplitLines(output), target);
  }

  lemma NothingKept(lines: seq<string>, target: string)
    requires forall k :: 0 <= k < |lines| ==> !IsDirective(lines[k])
    ensures KeptLines(lines, target) == []
  {
    FilterMapNone(IsDirective, line => Rewrite(line, target), lines);
  }
}
