/** The two files `kmake unit` creates for a translation unit of a target: a
    header with an include guard (and, for C++, an empty namespace named
    after the target) and a source file that includes it. */
module Unit {
  import opened Wrappers
  import opened Text

  /** The header and source extensions: `.hpp`/`.cpp` for "C++", `.h`/`.c` otherwise. */
  function HeaderExtension(language: string): string {
    if language == "C++" then ".hpp" else ".h"
  }

  function SourceExtension(language: string): string {
    if language == "C++" then ".cpp" else ".c"
  }

  /** `_<UNIT>_HPP_` for C++, `_<UNIT>_H_` otherwise. */
  function HeaderGuard(language: string, unit: string): string {
    "_" + Upper(unit) + (if language == "C++" then "_HPP_" else "_H_")
  }

  /** The name the source file includes, relative to the include directory. */
  function IncludeName(language: string, project: string, unit: string): string {
    project + "/" + unit + HeaderExtension(language)
  }

  /** The include directory of a target. */
  function IncludeRoot(project: string): string {
    "src/" + project + "/include"
  }

  /** The directory the header goes into, and the one the source file goes into. */
  function HeaderDir(project: string): string {
    IncludeRoot(project) + "/" + project
  }

  function SourceDir(project: string): string {
    "src/" + project + "/src"
  }

  function HeaderPath(language: string, project: string, unit: string): string {
    IncludeRoot(project) + "/" + IncludeName(language, project, unit)
  }

  function SourcePath(language: string, project: string, unit: string): string {
    "src/" + project + "/src/" + unit + SourceExtension(language)
  }

  /** Each file lies directly in its directory. */
  lemma UnitPaths(language: string, project: string, unit: string)
    ensures HeaderPath(language, project, unit) == HeaderDir(project) + "/" + unit + HeaderExtension(language)
    ensures SourcePath(language, project, unit) == SourceDir(project) + "/" + unit + SourceExtension(language)
  {
  }

  /** The header's lines: the guard opening, for C++ an empty namespace named
      after the target, and the guard closing. */
  function HeaderLines(language: string, project: string, unit: string): seq<string> {
    var guard := HeaderGuard(language, unit);
    var opening := ["#ifndef " + guard, "#define " + guard, ""];
    var namespace := if language == "C++" then ["namespace " + project + " {", "", "}", ""] else [];
    opening + namespace + ["#endif // " + guard]
  }

  /** The header text: each line ends with a line break. */
  function HeaderText(language: string, project: string, unit: string): string {
    Unlines(HeaderLines(language, project, unit))
  }

  /** The source text: a single include line without a final line break. */
  function SourceText(language: string, project: string, unit: string): string {
    "#include <" + IncludeName(language, project, unit) + ">"
  }

  /** The name inside an include line. */
  function Included(line: string): Option<string> {
    if StartsWith(line, "#include <") && |line| > 10 && line[|line| - 1] == '>' then Some(line[10..|line| - 1]) else None
  }

  /** The source file includes exactly the header `kmake unit` writes, as
      found under the include directory the root file adds. */
  lemma SourceIncludesHeader(language: string, project: string, unit: string)
    ensures Included(SourceText(language, project, unit)) == Some(IncludeName(language, project, unit))
    ensures HeaderPath(language, project, unit) == IncludeRoot(project) + "/" + Included(SourceText(language, project, unit)).value
  {
    var name := IncludeName(language, project, unit);
    var line := SourceText(language, project, unit);
    assert |name| >= 3;
    assert line[..10] == "#include <";
    assert line[10..|line| - 1] == name;
  }

  /** The guard holds no lower-case ASCII letter. */
  lemma GuardUpperCase(language: string, unit: string)
    ensures forall i :: 0 <= i < |HeaderGuard(language, unit)| ==> !('a' <= HeaderGuard(language, unit)[i] <= 'z')
  {
    var g := HeaderGuard(language, unit);
    var tail := if language == "C++" then "_HPP_" else "_H_";
    forall i | 0 <= i < |g| ensures !('a' <= g[i] <= 'z') {
      if 1 <= i < 1 + |unit| {
        assert g[i] == UpperChar(unit[i - 1]);
      } else if i >= 1 + |unit| {
        assert g[i] == tail[i - 1 - |unit|];
      }
    }
  }

  /** The guard has no line break when the unit name has none. */
  lemma GuardUnbroken(language: string, unit: string)
    requires NoLineBreak(unit)
    ensures NoLineBreak(HeaderGuard(language, unit))
  {
    var guard := HeaderGuard(language, unit);
    var tail := if language == "C++" then "_HPP_" else "_H_";
    assert NoLineBreak(tail);
    forall i | 0 <= i < |guard| ensures !IsLineBreak(guard[i]) {
      if 1 <= i < 1 + |unit| {
        assert guard[i] == UpperChar(unit[i - 1]);
      } else if i >= 1 + |unit| {
        assert guard[i] == tail[i - 1 - |unit|];
      }
    }
  }

  lemma HeaderLinesUnbroken(language: string, project: string, unit: string)
    requires NoLineBreak(project) && NoLineBreak(unit)
    ensures forall k :: 0 <= k < |HeaderLines(language, project, unit)| ==> NoLineBreak(HeaderLines(language, project, unit)[k])
  {
    var guard := HeaderGuard(language, unit);
    GuardUnbroken(language, unit);
    assert NoLineBreak("#ifndef ") && NoLineBreak("#define ") && NoLineBreak("#endif // ");
    assert NoLineBreak(" {") && NoLineBreak("namespace ") && NoLineBreak("}");
    NoLineBreakConcat("#ifndef ", guard);
    NoLineBreakConcat("#define ", guard);
    NoLineBreakConcat("#endif // ", guard);
    NoLineBreakConcat("namespace ", project);
    NoLineBreakConcat("namespace " + project, " {");
  }

  /** Read back line by line, the header opens with `#ifndef` and `#define`
      of the guard and closes with `#endif // ` and the guard; for C++ its
      fourth line opens the target's namespace. */
  lemma HeaderStructure(language: string, project: string, unit: string)
    requires NoLineBreak(project) && NoLineBreak(unit)
    ensures var lines := SplitLines(HeaderText(language, project, unit));
      var guard := HeaderGuard(language, unit);
      && |lines| == (if language == "C++" then 8 else 4)
      && lines[0] == "#ifndef " + guard && lines[1] == "#define " + guard
      && lines[|lines| - 1] == "#endif // " + guard
      && (language == "C++" ==> lines[3] == "namespace " + project + " {")
  {
    HeaderLinesUnbroken(language, project, unit);
    SplitLinesUnlines(HeaderLines(language, project, unit));
  }
}
