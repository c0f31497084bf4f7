/** The two small helpers of kmake's utility commands: reading the local
    CMake's major.minor version out of `cmake --version`, and the
    `find_package` line for a package. */
module Utility {
  import opened Wrappers
  import opened Text
  import opened Resolver

  /** `c.isdigit()`, for ASCII digits. */
  predicate IsDigit(c: char) {
    '0' <= c <= '9'
  }

  /** A token that starts with a digit. */
  predicate StartsWithDigit(token: string) {
    token != [] && IsDigit(token[0])
  }

  /** The position of the first token that starts with a digit, or |tokens| when none does. */
  function FirstVersionToken(tokens: seq<string>): (i: nat)
    ensures i <= |tokens|
    ensures forall k :: 0 <= k < i ==> !StartsWithDigit(tokens[k])
    ensures i < |tokens| ==> StartsWithDigit(tokens[i])
  {
    if tokens == [] || StartsWithDigit(tokens[0]) then 0 else 1 + FirstVersionToken(tokens[1..])
  }

  /** `".".join(p.split(".")[:2])`: the first two dot-separated pieces. */
  function MajorMinor(token: string): string {
    var pieces := Split(token, '.');
    Join(".", pieces[..if |pieces| < 2 then |pieces| else 2])
  }

  /** At most one '.' in `s`. */
  predicate AtMostOneDot(s: string) {
    forall i, j :: 0 <= i < j < |s| && s[i] == '.' ==> s[j] != '.'
  }

  /** The major.minor text is a prefix of the token with at most one '.';
      it is the whole token when the token has at most one '.', and
      otherwise it stops right before the token's second '.'. */
  lemma MajorMinorSpec(token: string)
    ensures StartsWith(token, MajorMinor(token))
    ensures AtMostOneDot(MajorMinor(token))
    ensures AtMostOneDot(token) ==> MajorMinor(token) == token
    ensures !AtMostOneDot(token) ==> |MajorMinor(token)| < |token| && token[|MajorMinor(token)|] == '.'
  {
    var pieces := Split(token, '.');
    var r := MajorMinor(token);
    JoinSplit(token, '.');
    if |pieces| == 1 {
      assert r == pieces[0] == token;
    } else {
      var a, b := pieces[0], pieces[1];
      assert pieces[..2] == [a, b];
      assert r == Join(".", [a, b]) == a + "." + b;
      var rest := Join(".", pieces[1..]);
      assert token == a + "." + rest;
      if |pieces| == 2 {
        assert rest == b;
        assert r == token;
      } else {
        assert pieces[1..][1..] == pieces[2..];
        assert rest == b + "." + Join(".", pieces[2..]);
        assert token == r + "." + Join(".", pieces[2..]);
        assert token[..|r|] == r;
        assert token[|r|] == '.';
        assert !AtMostOneDot(token) by {
          assert token[|a|] == '.';
        }
      }
      forall i, j | 0 <= i < j < |r| && r[i] == '.' ensures r[j] != '.' {
        assert i == |a|;
        assert r[j] == b[j - |a| - 1];
      }
      if AtMostOneDot(token) {
        assert |pieces| == 2;
      }
    }
  }

  /** `_cmake_version`: `stdout` is what `cmake --version` printed, or None
      when the program could not be found or run. The first word of the
      first line that starts with a digit gives the version. */
  function CMakeVersion(stdout: Option<string>): Option<string> {
    match stdout
    case None => None
    case Some(out) =>
      var lines := SplitLines(out);
      if lines == [] then None
      else
        VersionOfWords(Words(Strip(lines[0])))
  }

  /** The major.minor of the first digit-led word, if any. */
  function VersionOfWords(tokens: seq<string>): Option<string> {
    var i := FirstVersionToken(tokens);
    if i == |tokens| then None else Some(MajorMinor(tokens[i]))
  }

  /** The scan of `_cmake_version` over the words of the first line. */
  method ReadCMakeVersion(stdout: Option<string>) returns (version: Option<string>)
    ensures version == CMakeVersion(stdout)
  {
    if stdout.None? {
      return None;
    }
    var lines := SplitLines(stdout.value);
    if |lines| == 0 {
      return None;
    }
    var parts := Words(Strip(lines[0]));
    version := ScanWords(parts);
  }

  /** The loop of `_cmake_version` over the words of the first line. */
  method ScanWords(parts: seq<string>) returns (version: Option<string>)
    requires forall m :: 0 <= m < |parts| ==> parts[m] != []
    ensures version == VersionOfWords(parts)
  {
    for k := 0 to |parts|
      invariant forall m :: 0 <= m < k ==> !StartsWithDigit(parts[m])
    {
      if IsDigit(parts[k][0]) {
        FirstAt(parts, k);
        return Some(MajorMinor(parts[k]));
      }
    }
    FirstAt(parts, |parts|);
    return None;
  }

  /** The first digit-led token is the one no earlier token beats. */
  lemma FirstAt(tokens: seq<string>, k: nat)
    requires k <= |tokens|
    requires forall m :: 0 <= m < k ==> !StartsWithDigit(tokens[m])
    requires k < |tokens| ==> StartsWithDigit(tokens[k])
    ensures FirstVersionToken(tokens) == k
  {
    var i := FirstVersionToken(tokens);
    if i < k {
    } else if k < i {
    }
  }

  /** A digit-led word keeps its first digit in its major.minor text. */
  lemma MajorMinorOfWord(token: string)
    requires StartsWithDigit(token) && NoSpace(token)
    ensures var v := MajorMinor(token);
      StartsWith(token, v) && AtMostOneDot(v) && StartsWithDigit(v) && NoSpace(v)
  {
    var v := MajorMinor(token);
    MajorMinorSpec(token);
    assert v != [];
    assert v[0] == token[0];
    forall j | 0 <= j < |v| ensures !IsSpace(v[j]) {
      assert v[j] == token[j];
    }
  }

  /** The version found among the words of a line is the leading
      major.minor of the first digit-led word; there is none exactly when no
      word starts with a digit. */
  lemma VersionOfWordsSpec(tokens: seq<string>)
    requires forall k :: 0 <= k < |tokens| ==> NoSpace(tokens[k])
    ensures VersionOfWords(tokens).None? <==> forall k :: 0 <= k < |tokens| ==> !StartsWithDigit(tokens[k])
    ensures var i := FirstVersionToken(tokens);
      VersionOfWords(tokens).Some? ==>
        var v := VersionOfWords(tokens).value;
        && i < |tokens| && StartsWith(tokens[i], v)
        && AtMostOneDot(v) && NoSpace(v) && StartsWithDigit(v)
  {
    var i := FirstVersionToken(tokens);
    if i < |tokens| {
      MajorMinorOfWord(tokens[i]);
    }
  }

  /** `_cmake_find_package_str`. */
  function FindPackageLine(package: string, required: bool): string {
    "find_package(" + Capitalize(package) + (if required then " REQUIRED" else "") + ")\n"
  }

  /** Stripping a line that starts and ends its text with a non-space takes
      off only its final line break. */
  lemma StripLine(line: string)
    requires |line| >= 2 && line[|line| - 1] == '\n'
    requires !IsSpace(line[0]) && !IsSpace(line[|line| - 2])
    ensures Strip(line) == line[..|line| - 1]
  {
    var u := TrimStart(line);
    assert u == line;
    var r := TrimEnd(line);
    assert |r| == |line| - 1;
  }

  /** The line is a `find_` directive the resolver keeps; stripping takes
      off exactly its final line break; and the package name may be given
      capitalized or not. */
  lemma FindPackageLineSpec(package: string, required: bool)
    ensures var line := FindPackageLine(package, required);
      && Strip(line) == line[..|line| - 1]
      && IsDirective(line)
      && FindPackageLine(Capitalize(package), required) == line
  {
    var rest := Capitalize(package) + (if required then " REQUIRED" else "") + ")";
    var line := FindPackageLine(package, required);
    assert line == "find_package(" + rest + "\n";
    assert line[|line| - 2] == ')';
    StripLine(line);
    assert Strip(line) == "find_package(" + rest;
    assert Strip(line)[..5] == "find_";
    CapitalizeIdempotent(package);
  }
}
