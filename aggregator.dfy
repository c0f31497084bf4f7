/** The root `CMakeLists.txt`, written while the last target is processed:
    the project declaration, the language standard and one
    `include_directories` / `add_subdirectory` pair per target. */
module Aggregator {
  import opened Text
  import opened Generator

  const CommonsLine := "include(\"CMakeCommons.cmake\")"
  const RunOnceLine := "RunOnce()"
  const SubdirectoryOpen := "add_subdirectory(\"src/"

  /** The opening lines: an empty line, the minimum version, `project(<root>)`,
      the common include and `RunOnce()`. */
  function Preamble(root: string): seq<string> {
    ["", MinimumRequired, "project(" + root + ")", CommonsLine, RunOnceLine]
  }

  /** The standard lines: CMAKE_CXX_STANDARD for "C++", CMAKE_C_STANDARD for "C", none otherwise. */
  function StandardLines(language: string, standard: string): (r: seq<string>)
    ensures language == "C++" ==> r == ["set(CMAKE_CXX_STANDARD " + standard + ")", "set(CMAKE_CXX_STANDARD_REQUIRED ON)"]
    ensures language == "C" ==> r == ["set(CMAKE_C_STANDARD " + standard + ")", "set(CMAKE_C_STANDARD_REQUIRED ON)"]
    ensures r == [] <==> language != "C++" && language != "C"
  {
    if language == "C++" then ["set(CMAKE_CXX_STANDARD " + standard + ")", "set(CMAKE_CXX_STANDARD_REQUIRED ON)"]
    else if language == "C" then ["set(CMAKE_C_STANDARD " + standard + ")", "set(CMAKE_C_STANDARD_REQUIRED ON)"]
    else []
  }

  function IncludeDirectory(name: string): string {
    "include_directories(\"src/" + name + "/include\")"
  }

  function AddSubdirectory(name: string): string {
    SubdirectoryOpen + name + "\")"
  }

  /** An empty line, then the include directory and the subdirectory of each target. */
  function SubdirectoryLines(names: seq<string>): seq<string> {
    if names == [] then []
    else
      var last := names[|names| - 1];
      SubdirectoryLines(names[..|names| - 1]) + ["", IncludeDirectory(last), AddSubdirectory(last)]
  }

  /** The lines of the root file. */
  function AggregatorLines(root: string, language: string, standard: string, names: seq<string>): seq<string> {
    Preamble(root) + StandardLines(language, standard) + SubdirectoryLines(names)
  }

  /** The root file: every line ends with a line break. */
  function AggregatorText(root: string, language: string, standard: string, names: seq<string>): string {
    Unlines(AggregatorLines(root, language, standard, names))
  }

  /** Target `i` owns lines 3i, 3i+1 and 3i+2 of the subdirectory part: an empty
      line, its include directory, its subdirectory. */
  lemma {:induction false} SubdirectoryLinesAt(names: seq<string>, i: nat)
    requires i < |names|
    ensures |SubdirectoryLines(names)| == 3 * |names|
    ensures SubdirectoryLines(names)[3 * i] == ""
    ensures SubdirectoryLines(names)[3 * i + 1] == IncludeDirectory(names[i])
    ensures SubdirectoryLines(names)[3 * i + 2] == AddSubdirectory(names[i])
    decreases |names|
  {
    var init := names[..|names| - 1];
    SubdirectoryLinesLength(init);
    if i < |init| {
      SubdirectoryLinesAt(init, i);
    }
  }

  lemma {:induction false} SubdirectoryLinesLength(names: seq<string>)
    ensures |SubdirectoryLines(names)| == 3 * |names|
    decreases |names|
  {
    if names != [] {
      SubdirectoryLinesLength(names[..|names| - 1]);
    }
  }

  /** A line that adds a subdirectory. */
  predicate IsSubdirectory(line: string) {
    StartsWith(line, SubdirectoryOpen)
  }

  /** The subdirectory lines of `lines`, in order. */
  function Subdirectories(lines: seq<string>): seq<string> {
    if lines == [] then []
    else
      var last := lines[|lines| - 1];
      Subdirectories(lines[..|lines| - 1]) + (if IsSubdirectory(last) then [last] else [])
  }

  lemma {:induction false} SubdirectoriesAppend(a: seq<string>, b: seq<string>)
    ensures Subdirectories(a + b) == Subdirectories(a) + Subdirectories(b)
    decreases |b|
  {
    if b == [] {
      assert a + b == a;
    } else {
      var binit := b[..|b| - 1];
      SubdirectoriesAppend(a, binit);
      assert (a + b)[..|a + b| - 1] == a + binit;
      assert (a + b)[|a + b| - 1] == b[|b| - 1];
    }
  }

  /** A line whose first character is not the `a` of `add_subdirectory`. */
  lemma NotSubdirectory(line: string)
    requires line == [] || line[0] != 'a'
    ensures !IsSubdirectory(line)
  {
  }

  /** The last entry of a non-empty list of lines of which none adds a subdirectory. */
  lemma {:induction false} NoSubdirectories(lines: seq<string>)
    requires forall k :: 0 <= k < |lines| ==> lines[k] == [] || lines[k][0] != 'a'
    ensures Subdirectories(lines) == []
    decreases |lines|
  {
    if lines != [] {
      NoSubdirectories(lines[..|lines| - 1]);
      NotSubdirectory(lines[|lines| - 1]);
    }
  }

  /** A target's block of three lines adds one subdirectory: its own. */
  lemma BlockSubdirectories(name: string)
    ensures Subdirectories(["", IncludeDirectory(name), AddSubdirectory(name)]) == [AddSubdirectory(name)]
  {
    assert IncludeDirectory(name)[0] == 'i';
    NoSubdirectories(["", IncludeDirectory(name)]);
    SubdirectoriesAppend(["", IncludeDirectory(name)], [AddSubdirectory(name)]);
    assert ["", IncludeDirectory(name)] + [AddSubdirectory(name)] == ["", IncludeDirectory(name), AddSubdirectory(name)];
    assert IsSubdirectory(AddSubdirectory(name)) by {
      assert AddSubdirectory(name)[..|SubdirectoryOpen|] == SubdirectoryOpen;
    }
    assert Subdirectories([AddSubdirectory(name)]) == [AddSubdirectory(name)] by {
      assert [AddSubdirectory(name)][..0] == [];
    }
  }

  /** The subdirectory lines of the subdirectory part: one per target, in declaration order. */
  lemma {:induction false} SubdirectoriesOfTargets(names: seq<string>)
    ensures Subdirectories(SubdirectoryLines(names)) == seq(|names|, i requires 0 <= i < |names| => AddSubdirectory(names[i]))
    decreases |names|
  {
    if names != [] {
      var init := names[..|names| - 1];
      var last := names[|names| - 1];
      SubdirectoriesOfTargets(init);
      SubdirectoriesAppend(SubdirectoryLines(init), ["", IncludeDirectory(last), AddSubdirectory(last)]);
      BlockSubdirectories(last);
    }
  }

  /** The root file adds exactly the declared targets as subdirectories, in
      declaration order, and nothing else. */
  lemma AggregatorSubdirectories(root: string, language: string, standard: string, names: seq<string>)
    ensures Subdirectories(AggregatorLines(root, language, standard, names)) ==
      seq(|names|, i requires 0 <= i < |names| => AddSubdirectory(names[i]))
  {
    var head := Preamble(root) + StandardLines(language, standard);
    assert MinimumRequired[0] == 'c' && ("project(" + root + ")")[0] == 'p';
    assert CommonsLine[0] == 'i' && RunOnceLine[0] == 'R';
    assert forall k :: 0 <= k < |StandardLines(language, standard)| ==> StandardLines(language, standard)[k][0] == 's';
    NoSubdirectories(head);
    SubdirectoriesAppend(head, SubdirectoryLines(names));
    SubdirectoriesOfTargets(names);
  }

  /** Reading the root file back line by line gives its lines, provided no
      name and no standard holds a line break. */
  lemma AggregatorReadBack(root: string, language: string, standard: string, names: seq<string>)
    requires NoLineBreak(root) && NoLineBreak(standard)
    requires forall i :: 0 <= i < |names| ==> NoLineBreak(names[i])
    ensures SplitLines(AggregatorText(root, language, standard, names)) == AggregatorLines(root, language, standard, names)
  {
    PreambleUnbroken(root);
    StandardUnbroken(language, standard);
    SubdirectoryLinesUnbroken(names);
    var a, b, c := Preamble(root), StandardLines(language, standard), SubdirectoryLines(names);
    var lines := a + b + c;
    forall k | 0 <= k < |lines| ensures NoLineBreak(lines[k]) {
      if k < |a| {
        assert lines[k] == a[k];
      } else if k < |a| + |b| {
        assert lines[k] == b[k - |a|];
      } else {
        assert lines[k] == c[k - |a| - |b|];
      }
    }
    SplitLinesUnlines(lines);
  }

  /** Every line in `lines` is free of line breaks. */
  predicate Unbroken(lines: seq<string>) {
    forall k :: 0 <= k < |lines| ==> NoLineBreak(lines[k])
  }

  lemma PreambleUnbroken(root: string)
    requires NoLineBreak(root)
    ensures Unbroken(Preamble(root))
  {
    var project := "project(" + root + ")";
    assert NoLineBreak(project) by {
      assert NoLineBreak("project(") && NoLineBreak(")");
      NoLineBreakConcat("project(", root);
      NoLineBreakConcat("project(" + root, ")");
    }
    MinimumRequiredUnbroken();
    CommonsLineUnbroken();
    RunOnceLineUnbroken();
    var p := Preamble(root);
    forall k | 0 <= k < |p| ensures NoLineBreak(p[k]) {
      if k == 2 {
        assert p[k] == project;
      }
    }
  }

  lemma MinimumRequiredUnbroken()
    ensures NoLineBreak(MinimumRequired)
  {
  }

  lemma CommonsLineUnbroken()
    ensures NoLineBreak(CommonsLine)
  {
  }

  lemma RunOnceLineUnbroken()
    ensures NoLineBreak(RunOnceLine)
  {
  }

  lemma StandardUnbroken(language: string, standard: string)
    requires NoLineBreak(standard)
    ensures Unbroken(StandardLines(language, standard))
  {
    if language == "C++" {
      CxxLinesUnbroken(standard);
    } else if language == "C" {
      CLinesUnbroken(standard);
    }
  }

  lemma CxxLinesUnbroken(standard: string)
    requires NoLineBreak(standard)
    ensures Unbroken(["set(CMAKE_CXX_STANDARD " + standard + ")", "set(CMAKE_CXX_STANDARD_REQUIRED ON)"])
  {
    SetLinesUnbroken("set(CMAKE_CXX_STANDARD ", standard, "set(CMAKE_CXX_STANDARD_REQUIRED ON)");
  }

  lemma CLinesUnbroken(standard: string)
    requires NoLineBreak(standard)
    ensures Unbroken(["set(CMAKE_C_STANDARD " + standard + ")", "set(CMAKE_C_STANDARD_REQUIRED ON)"])
  {
    SetLinesUnbroken("set(CMAKE_C_STANDARD ", standard, "set(CMAKE_C_STANDARD_REQUIRED ON)");
  }

  lemma SetLinesUnbroken(opening: string, standard: string, required: string)
    requires NoLineBreak(opening) && NoLineBreak(standard) && NoLineBreak(required)
    ensures Unbroken([opening + standard + ")", required])
  {
    assert NoLineBreak(")");
    NoLineBreakConcat(opening, standard);
    NoLineBreakConcat(opening + standard, ")");
  }

  lemma {:induction false} SubdirectoryLinesUnbroken(names: seq<string>)
    requires forall i :: 0 <= i < |names| ==> NoLineBreak(names[i])
    ensures Unbroken(SubdirectoryLines(names))
    decreases |names|
  {
    if names != [] {
      var init, n := names[..|names| - 1], names[|names| - 1];
      SubdirectoryLinesUnbroken(init);
      assert NoLineBreak("include_directories(\"src/") && NoLineBreak("/include\")");
      assert NoLineBreak(SubdirectoryOpen) && NoLineBreak("\")");
      NoLineBreakConcat("include_directories(\"src/", n);
      NoLineBreakConcat("include_directories(\"src/" + n, "/include\")");
      NoLineBreakConcat(SubdirectoryOpen, n);
      NoLineBreakConcat(SubdirectoryOpen + n, "\")");
      var x, y := SubdirectoryLines(init), ["", IncludeDirectory(n), AddSubdirectory(n)];
      forall k | 0 <= k < |x + y| ensures NoLineBreak((x + y)[k]) {
        if k >= |x| {
          assert (x + y)[k] == y[k - |x|];
        }
      }
    }
  }

  /** `Unlines` of one, two and three lines. */
  lemma UnlinesOne(a: string)
    ensures Unlines([a]) == a + "\n"
  {
    assert [a][1..] == [];
    assert Unlines([a]) == a + "\n" + "";
    assert a + "\n" + "" == a + "\n";
  }

  lemma UnlinesTwo(a: string, b: string)
    ensures Unlines([a, b]) == a + "\n" + b + "\n"
  {
    assert [a, b][1..] == [b];
    UnlinesOne(b);
    assert Unlines([a, b]) == a + "\n" + (b + "\n");
  }

  lemma UnlinesThree(a: string, b: string, c: string)
    ensures Unlines([a, b, c]) == a + "\n" + b + "\n" + c + "\n"
  {
    assert [a, b, c][1..] == [b, c];
    UnlinesTwo(b, c);
    assert Unlines([a, b, c]) == a + "\n" + (b + "\n" + c + "\n");
  }

  lemma UnlinesFive(a: string, b: string, c: string, d: string, e: string)
    ensures Unlines([a, b, c, d, e]) == a + "\n" + b + "\n" + c + "\n" + d + "\n" + e + "\n"
  {
    UnlinesTwo(a, b);
    UnlinesThree(c, d, e);
    UnlinesAppend([a, b], [c, d, e]);
    assert [a, b] + [c, d, e] == [a, b, c, d, e];
  }

  /** The text of the standard lines. */
  function StandardText(language: string, standard: string): string {
    if language == "C++" then "set(CMAKE_CXX_STANDARD " + standard + ")" + "\n" + "set(CMAKE_CXX_STANDARD_REQUIRED ON)" + "\n"
    else if language == "C" then "set(CMAKE_C_STANDARD " + standard + ")" + "\n" + "set(CMAKE_C_STANDARD_REQUIRED ON)" + "\n"
    else ""
  }

  /** The text of the opening lines. */
  function PreambleText(root: string): string {
    "\n" + MinimumRequired + "\n" + ("project(" + root + ")") + "\n" + CommonsLine + "\n" + RunOnceLine + "\n"
  }

  lemma PreambleLines(root: string)
    ensures Unlines(Preamble(root)) == PreambleText(root)
  {
    UnlinesFive("", MinimumRequired, "project(" + root + ")", CommonsLine, RunOnceLine);
    assert "" + "\n" == "\n";
  }

  lemma StandardLinesText(language: string, standard: string)
    ensures Unlines(StandardLines(language, standard)) == StandardText(language, standard)
  {
    if language == "C++" {
      UnlinesTwo("set(CMAKE_CXX_STANDARD " + standard + ")", "set(CMAKE_CXX_STANDARD_REQUIRED ON)");
    } else if language == "C" {
      UnlinesTwo("set(CMAKE_C_STANDARD " + standard + ")", "set(CMAKE_C_STANDARD_REQUIRED ON)");
    }
  }

  /** One more target adds its block of three lines at the end. */
  lemma SubdirectoryStep(head: seq<string>, names: seq<string>, i: nat)
    requires i < |names|
    ensures Unlines(head + SubdirectoryLines(names[..i + 1])) ==
      Unlines(head + SubdirectoryLines(names[..i])) + ("\n" + IncludeDirectory(names[i]) + "\n" + AddSubdirectory(names[i]) + "\n")
  {
    var block := ["", IncludeDirectory(names[i]), AddSubdirectory(names[i])];
    assert names[..i + 1][..i] == names[..i];
    assert SubdirectoryLines(names[..i + 1]) == SubdirectoryLines(names[..i]) + block;
    assert head + SubdirectoryLines(names[..i + 1]) == (head + SubdirectoryLines(names[..i])) + block;
    UnlinesAppend(head + SubdirectoryLines(names[..i]), block);
    UnlinesThree("", IncludeDirectory(names[i]), AddSubdirectory(names[i]));
  }

  /** Builds the root file as `handle_run` does: the opening text, the standard,
      then one block per target in declaration order. */
  method BuildAggregator(root: string, language: string, standard: string, names: seq<string>)
    returns (text: string)
    ensures text == AggregatorText(root, language, standard, names)
  {
    text := PreambleText(root);
    text := text + StandardText(language, standard);
    var head := Preamble(root) + StandardLines(language, standard);
    PreambleLines(root);
    StandardLinesText(language, standard);
    UnlinesAppend(Preamble(root), StandardLines(language, standard));
    assert names[..0] == [] && head + SubdirectoryLines([]) == head;
    for i := 0 to |names|
      invariant text == Unlines(head + SubdirectoryLines(names[..i]))
    {
      SubdirectoryStep(head, names, i);
      text := text + ("\n" + IncludeDirectory(names[i]) + "\n" + AddSubdirectory(names[i]) + "\n");
    }
    assert names[..|names|] == names;
  }
}
