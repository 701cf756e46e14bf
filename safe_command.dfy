/**
 * The guarded layer for running external processes: the validators that
 * run before any process exists, the path sanitizer, the single-quote
 * encoder, and the option and result rules of the buffered executor
 * (`safeExecute`).  The operating system is an oracle: `os` maps what is
 * handed to `execFile` to what `execFile` reports.
 */
module SafeCommand {
  import opened Wrappers
  import opened Strings
  import opened JsValue
  import opened PosixPath

  /** What the module throws, one constructor per message it builds. */
  datatype SafeError =
    | InvalidCommand(command: string)
    | InvalidArgumentType(typeName: string)
    | DirectoryTraversal(filePath: string)
    | OutsideBaseDirectory(filePath: string)
    | InvalidPackageName(packageName: string)

  /** A check that passes or throws. */
  datatype Check = Pass | Fail(error: SafeError)

  // =====================================================================
  // Shell syntax (POSIX Shell Command Language, section 2.2 of XCU)
  // =====================================================================

  /**
   * The characters that section 2.2 of the POSIX Shell Command Language
   * says must, or in some positions must, be quoted to stand for themselves.
   */
  predicate IsShellSpecial(c: char)
  {
    c == '|' || c == '&' || c == ';' || c == '<' || c == '>' || c == '(' || c == ')' ||
    c == '$' || c == '`' || c == '\\' || c == '"' || c == '\'' || c == ' ' || c == '\t' || c == '\n' ||
    c == '*' || c == '?' || c == '[' || c == '#' || c == '~' || c == '=' || c == '%'
  }

  function Prepend(c: char, o: Option<string>): Option<string>
  {
    match o
    case None => None
    case Some(s) => Some([c] + s)
  }

  /**
   * The value of one shell word made of unquoted ordinary characters,
   * backslash escapes and single-quoted runs (section 2.2.1 and 2.2.2 of
   * the POSIX Shell Command Language); `None` when the word is not one
   * literal word (an unquoted special character, an unterminated quote).
   * `quoted` says whether a single-quoted run is open.
   */
  function Unquote(w: string, quoted: bool): (r: Option<string>)
    ensures r.Some? ==> |r.value| <= |w|
    decreases |w|
  {
    if w == [] then (if quoted then None else Some(""))
    else if quoted then
      if w[0] == '\'' then Unquote(w[1..], false) else Prepend(w[0], Unquote(w[1..], true))
    else if w[0] == '\'' then Unquote(w[1..], true)
    else if w[0] == '\\' then
      if |w| < 2 || w[1] == '\n' then None else Prepend(w[1], Unquote(w[2..], false))
    else if IsShellSpecial(w[0]) then None
    else Prepend(w[0], Unquote(w[1..], false))
  }

  // =====================================================================
  // Validators
  // =====================================================================

  /** `[a-zA-Z0-9._/-]` */
  predicate IsCommandChar(c: char)
  {
    'a' <= c <= 'z' || 'A' <= c <= 'Z' || '0' <= c <= '9' || c == '.' || c == '_' || c == '/' || c == '-'
  }

  /** `validateCommand`: the name must match `^[a-zA-Z0-9._/-]+$`. */
  function ValidateCommand(command: string): (r: Check)
    ensures r.Pass? <==> command != [] && forall i :: 0 <= i < |command| ==> IsCommandChar(command[i])
    ensures r.Pass? ==> forall i :: 0 <= i < |command| ==> !IsShellSpecial(command[i])
    ensures r.Fail? ==> r.error == InvalidCommand(command)
  {
    if command != [] && forall i :: 0 <= i < |command| ==> IsCommandChar(command[i]) then Pass
    else Fail(InvalidCommand(command))
  }

  /** An accepted command name is one literal shell word standing for itself. */
  lemma {:induction false} ValidCommandIsLiteralWord(command: string)
    requires ValidateCommand(command).Pass?
    ensures Unquote(command, false) == Some(command)
  {
    LiteralWord(command);
  }

  lemma {:induction false} LiteralWord(w: string)
    requires forall i :: 0 <= i < |w| ==> IsCommandChar(w[i])
    ensures Unquote(w, false) == Some(w)
  {
    if w != [] {
      assert forall i :: 0 <= i < |w[1..]| ==> IsCommandChar(w[1..][i]) by {
        forall i | 0 <= i < |w[1..]| ensures IsCommandChar(w[1..][i]) {
          assert w[1..][i] == w[i + 1];
        }
      }
      LiteralWord(w[1..]);
      assert IsCommandChar(w[0]);
      assert [w[0]] + w[1..] == w;
    }
  }

  /** The names from the command tests. */
  lemma CommandExamples()
    ensures ValidateCommand("echo; ls") == Fail(InvalidCommand("echo; ls"))
    ensures ValidateCommand("echo").Pass? && ValidateCommand("/usr/bin/env").Pass? && ValidateCommand("my-tool.sh").Pass?
  {
    assert !IsCommandChar("echo; ls"[4]);
  }

  /** What `validateArguments` decides: the first non-string argument is reported by its `typeof`. */
  function ArgumentsCheck(args: seq<Value>): (r: Check)
    ensures r.Pass? <==> forall i :: 0 <= i < |args| ==> args[i].Str?
    ensures r.Fail? ==> exists i :: 0 <= i < |args| && !args[i].Str? &&
                         (forall j :: 0 <= j < i ==> args[j].Str?) &&
                         r.error == InvalidArgumentType(TypeOf(args[i]))
  {
    if args == [] then Pass
    else if !args[0].Str? then Fail(InvalidArgumentType(TypeOf(args[0])))
    else
      var rest := ArgumentsCheck(args[1..]);
      assert rest.Pass? <==> forall i :: 1 <= i < |args| ==> args[i].Str? by {
        assert forall i :: 1 <= i < |args| ==> args[i] == args[1..][i - 1];
      }
      if rest.Fail? then
        var i :| 0 <= i < |args[1..]| && !args[1..][i].Str? &&
                 (forall j :: 0 <= j < i ==> args[1..][j].Str?) &&
                 rest.error == InvalidArgumentType(TypeOf(args[1..][i]));
        assert !args[i + 1].Str? && forall j :: 0 <= j < i + 1 ==> args[j].Str? by {
          forall j | 0 <= j < i + 1 ensures args[j].Str? {
            if j > 0 { assert args[j] == args[1..][j - 1]; }
          }
        }
        rest
      else rest
  }

  /** `validateArguments`: the loop that throws on the first argument that is not a string. */
  method ValidateArguments(args: seq<Value>) returns (r: Check)
    ensures r == ArgumentsCheck(args)
  {
    var i := 0;
    while i < |args|
      invariant 0 <= i <= |args|
      invariant forall j :: 0 <= j < i ==> args[j].Str?
      invariant ArgumentsCheck(args) == ArgumentsCheck(args[i..])
    {
      assert args[i..][1..] == args[i + 1..];
      if !args[i].Str? {
        return Fail(InvalidArgumentType(TypeOf(args[i])));
      }
      i := i + 1;
    }
    return Pass;
  }

  /** The strings of an argument list that passed `validateArguments`. */
  function ArgStrings(args: seq<Value>): (r: seq<string>)
    requires forall i :: 0 <= i < |args| ==> args[i].Str?
    ensures |r| == |args| && forall i :: 0 <= i < |args| ==> args[i] == Str(r[i])
  {
    seq(|args|, i requires 0 <= i < |args| => args[i].s)
  }

  /** `[a-z0-9-~]`, the first character of a scope or a name. */
  predicate IsNameStart(c: char)
  {
    'a' <= c <= 'z' || '0' <= c <= '9' || c == '-' || c == '~'
  }

  /** `[a-z0-9-._~]`, the later characters of a scope or a name. */
  predicate IsNameChar(c: char)
  {
    IsNameStart(c) || c == '.' || c == '_'
  }

  predicate IsNamePart(t: string)
  {
    |t| > 0 && IsNameStart(t[0]) && forall i :: 1 <= i < |t| ==> IsNameChar(t[i])
  }

  /** The language of `^(@[a-z0-9-~][a-z0-9-._~]*\/)?[a-z0-9-~][a-z0-9-._~]*$`. */
  ghost predicate PackageNamePattern(s: string)
  {
    IsNamePart(s) ||
    exists k :: 1 < k < |s| && s[0] == '@' && s[k] == '/' && IsNamePart(s[1..k]) && IsNamePart(s[k + 1..])
  }

  /** A scoped name is split at its first slash. */
  lemma ScopedNameSplit(s: string)
    requires s != [] && s[0] == '@'
    ensures PackageNamePattern(s) <==>
              IndexOf(s, "/").Some? && IsNamePart(s[1..IndexOf(s, "/").value]) && IsNamePart(s[IndexOf(s, "/").value + 1..])
  {
    assert !IsNameStart(s[0]);
    IndexOfChar(s, '/');
    assert "/" == ['/'];
    match IndexOf(s, "/") {
      case None =>
      case Some(k) =>
        ScopedAt(s, k);
    }
  }

  /** With the first slash at `k`, a scoped name fits the pattern iff both sides are name parts. */
  lemma ScopedAt(s: string, k: nat)
    requires s != [] && s[0] == '@' && k < |s| && s[k] == '/'
    requires forall j :: 0 <= j < k ==> s[j] != '/'
    ensures PackageNamePattern(s) <==> IsNamePart(s[1..k]) && IsNamePart(s[k + 1..])
  {
    assert !IsNameStart(s[0]);
    if PackageNamePattern(s) {
      var m :| 1 < m < |s| && s[0] == '@' && s[m] == '/' && IsNamePart(s[1..m]) && IsNamePart(s[m + 1..]);
      assert m == k;
    }
  }

  /** `isValidPackageName`: an optional `@scope/` before a name, scanned up to the first slash. */
  function IsValidPackageName(s: string): (b: bool)
    ensures b <==> PackageNamePattern(s)
  {
    if s != [] && s[0] == '@' then
      ScopedNameSplit(s);
      match IndexOf(s, "/")
      case None => false
      case Some(k) => IsNamePart(s[1..k]) && IsNamePart(s[k + 1..])
    else IsNamePart(s)
  }

  /** Unscoped names from the package-name tests. */
  lemma PlainPackageExamples()
    ensures IsValidPackageName("express") && IsValidPackageName("body-parser")
    ensures !IsValidPackageName("Express") && !IsValidPackageName("")
  {
  }

  /** Scoped names from the package-name tests. */
  lemma ScopedPackageExample(s: string)
    requires s == "@types/node"
    ensures IsValidPackageName(s)
  {
    assert StartsWith(s[6..], "/") by { assert s[6..][..1] == "/"; }
    assert forall j :: 0 <= j < 6 ==> s[j] != '/';
    match IndexOf(s, "/") {
      case Some(v) =>
        assert s[v..v + 1][0] == s[v];
      case None =>
    }
    assert IndexOf(s, "/") == Some(6);
    assert s[1..6] == "types" && s[7..] == "node";
  }

  /** Names with shell syntax or path syntax from the package-name tests. */
  lemma HostilePackageExamples()
    ensures !IsValidPackageName("../etc/passwd")
    ensures !IsValidPackageName("package; rm -rf") && !IsValidPackageName("package&& ls")
  {
    assert !IsNameChar("package; rm -rf"[7]);
    assert !IsNameChar("package&& ls"[7]);
    assert !IsNameChar("../etc/passwd"[2]);
  }

  /** `[a-zA-Z0-9._-]` */
  predicate IsFilenameChar(c: char)
  {
    'a' <= c <= 'z' || 'A' <= c <= 'Z' || '0' <= c <= '9' || c == '.' || c == '_' || c == '-'
  }

  /** `isValidFilename`: `^[a-zA-Z0-9._-]+$` and no `..` anywhere. */
  predicate IsValidFilename(f: string)
    ensures IsValidFilename(f) ==> '/' !in f && f != ".."
  {
    DotDotHasDotDot();
    f != [] && (forall i :: 0 <= i < |f| ==> IsFilenameChar(f[i])) && !HasDotDot(f)
  }

  /** A valid filename is a single path segment that the path sanitizer hands back unchanged. */
  lemma ValidFilenameIsSafePath(f: string, cwd: string)
    requires IsAbsolute(cwd)
    requires IsValidFilename(f)
    ensures '/' !in f
    ensures SanitizeFilePath(f, None, cwd) == Ok(f)
  {
    assert forall i :: 0 <= i < |f| ==> f[i] != '/';
    if f == "." {
      SplitNoSlash(".");
    } else {
      DotDotHasDotDot();
      assert Plain(f);
      RelativePlainNormal([f]);
      assert Join([f]) == f;
    }
  }

  lemma DotDotHasDotDot()
    ensures HasDotDot("..")
  {
    assert ".."[0] == '.' && ".."[1] == '.';
  }

  /** The filenames from the filename tests. */
  lemma FilenameExamples()
    ensures IsValidFilename("file.txt") && IsValidFilename("my-file_2.json") && IsValidFilename("data.csv")
    ensures !IsValidFilename("../etc/passwd") && !IsValidFilename("file/with/path")
    ensures !IsValidFilename("file;rm") && !IsValidFilename("file&ls") && !IsValidFilename("file|cat")
  {
    forall f | f in ["file.txt", "my-file_2.json", "data.csv"] ensures !HasDotDot(f) {
      NoDotDotWithoutAdjacentDots(f);
    }
    assert !IsFilenameChar("../etc/passwd"[2]);
    assert !IsFilenameChar("file/with/path"[4]);
    assert !IsFilenameChar("file;rm"[4]);
    assert !IsFilenameChar("file&ls"[4]);
    assert !IsFilenameChar("file|cat"[4]);
  }

  lemma NoDotDotWithoutAdjacentDots(s: string)
    requires forall i :: 0 <= i < |s| - 1 ==> s[i] != '.' || s[i + 1] != '.'
    ensures !HasDotDot(s)
  {
  }

  // =====================================================================
  // escapeShellArg
  // =====================================================================

  /** `str.replace(/'/g, "'\\''")`: every single quote becomes close-quote, escaped quote, open-quote. */
  function EscapeQuotes(s: string): string
  {
    if s == [] then ""
    else (if s[0] == '\'' then "'\\''" else [s[0]]) + EscapeQuotes(s[1..])
  }

  /** `escapeShellArg`: the argument wrapped in single quotes. */
  function EscapeShellArg(s: string): (r: string)
    ensures |r| >= 2 && r[0] == '\'' && r[|r| - 1] == '\''
    ensures (forall i :: 0 <= i < |s| ==> s[i] != '\'') ==> r == "'" + s + "'"
  {
    var r := "'" + EscapeQuotes(s) + "'";
    assert (forall i :: 0 <= i < |s| ==> s[i] != '\'') ==> r == "'" + s + "'" by {
      if forall i :: 0 <= i < |s| ==> s[i] != '\'' {
        EscapeQuotesNoQuote(s);
      }
    }
    r
  }

  /** The number of single quotes in `s`. */
  function QuoteCount(s: string): nat
  {
    if s == [] then 0 else (if s[0] == '\'' then 1 else 0) + QuoteCount(s[1..])
  }

  /** Inside an open single-quoted run, the escaped text reads back as the original. */
  lemma {:induction false} EscapeQuotesUnquote(s: string, rest: string, u: string)
    requires Unquote(rest, true) == Some(u)
    ensures Unquote(EscapeQuotes(s) + rest, true) == Some(s + u)
  {
    if s == [] {
      assert EscapeQuotes(s) + rest == rest && s + u == u;
    } else {
      EscapeQuotesUnquote(s[1..], rest, u);
      EscapeQuotesStep(s[0], s[1..], rest, u);
      assert s == [s[0]] + s[1..];
    }
  }

  /** The induction step of `EscapeQuotesUnquote`: one more character in front. */
  lemma EscapeQuotesStep(c: char, t: string, rest: string, u: string)
    requires Unquote(EscapeQuotes(t) + rest, true) == Some(t + u)
    ensures Unquote(EscapeQuotes([c] + t) + rest, true) == Some([c] + t + u)
  {
    var tail := EscapeQuotes(t) + rest;
    var piece := if c == '\'' then "'\\''" else [c];
    assert ([c] + t)[0] == c && ([c] + t)[1..] == t;
    assert EscapeQuotes([c] + t) + rest == piece + tail;
    if c == '\'' {
      EscapedQuoteReads(tail);
    } else {
      QuotedCharReads(c, tail);
    }
    assert [c] + (t + u) == [c] + t + u;
  }

  /** In a quoted run, an ordinary character stands for itself. */
  lemma QuotedCharReads(c: char, tail: string)
    requires c != '\''
    ensures Unquote([c] + tail, true) == Prepend(c, Unquote(tail, true))
  {
    assert ([c] + tail)[0] == c && ([c] + tail)[1..] == tail;
  }

  /** In a quoted run, `'\''` closes the run, reads an escaped quote and reopens it. */
  lemma EscapedQuoteReads(tail: string)
    ensures Unquote("'\\''" + tail, true) == Prepend('\'', Unquote(tail, true))
  {
    var w := "'\\''" + tail;
    var x := "\\''" + tail;
    var y := "'" + tail;
    assert w[0] == '\'' && w[1..] == x;
    assert Unquote(w, true) == Unquote(x, false);
    assert x[0] == '\\' && |x| >= 2 && x[1] == '\'' && x[2..] == y;
    assert Unquote(x, false) == Prepend('\'', Unquote(y, false));
    assert y[0] == '\'' && y[1..] == tail;
  }

  /** A POSIX shell reads the escaped argument back as exactly the original string. */
  lemma EscapeShellArgRoundTrip(s: string)
    ensures Unquote(EscapeShellArg(s), false) == Some(s)
  {
    assert Unquote("'", true) == Some("") by {
      assert "'"[1..] == "";
    }
    EscapeQuotesUnquote(s, "'", "");
    var w := EscapeShellArg(s);
    assert w[1..] == EscapeQuotes(s) + "'";
    assert s + "" == s;
  }

  lemma {:induction false} EscapeQuotesLength(s: string)
    ensures |EscapeQuotes(s)| == |s| + 3 * QuoteCount(s)
  {
    if s != [] {
      EscapeQuotesLength(s[1..]);
    }
  }

  /** Escaping adds the two outer quotes and three characters per embedded quote. */
  lemma EscapeShellArgLength(s: string)
    ensures |EscapeShellArg(s)| == |s| + 2 + 3 * QuoteCount(s)
  {
    EscapeQuotesLength(s);
  }

  /** Escaping an escaped argument wraps it again: the encoder is not idempotent. */
  lemma EscapeShellArgNotIdempotent(s: string)
    ensures EscapeShellArg(EscapeShellArg(s)) != EscapeShellArg(s)
  {
    EscapeShellArgLength(EscapeShellArg(s));
  }

  /** The quoted argument from the escaping tests. */
  lemma EscapeQuoteExample()
    ensures EscapeShellArg("it's") == "'it'\\''s'"
  {
    assert EscapeQuotes("s") == "s";
    assert EscapeQuotes("'s") == "'\\''s" by { assert "'s"[1..] == "s"; }
    assert EscapeQuotes("t's") == "t'\\''s" by { assert "t's"[1..] == "'s"; }
    assert EscapeQuotes("it's") == "it'\\''s" by { assert "it's"[1..] == "t's"; }
  }

  /** The argument with a space from the escaping tests. */
  lemma EscapeSpaceExample(arg: string)
    requires arg == "hello world"
    ensures EscapeShellArg(arg) == "'hello world'"
  {
    EscapeQuotesNoQuote(arg);
  }

  lemma {:induction false} EscapeQuotesNoQuote(s: string)
    requires forall i :: 0 <= i < |s| ==> s[i] != '\''
    ensures EscapeQuotes(s) == s
  {
    if s != [] {
      EscapeQuotesNoQuote(s[1..]);
      assert [s[0]] + s[1..] == s;
    }
  }

  // =====================================================================
  // sanitizeFilePath
  // =====================================================================

  /** `if (baseDir)`: a base directory is in force when given and not empty. */
  predicate HasBase(baseDir: Option<string>)
  {
    baseDir.Some? && baseDir.value != ""
  }

  /** `path` is `base` itself or lies below it, segment by segment. */
  predicate Within(path: string, base: string)
  {
    StartsWith(path, base) &&
    (|path| == |base| || (base != [] && base[|base| - 1] == '/') || path[|base|] == '/')
  }

  /** `sanitizeFilePath`: normalize, refuse `..`, and confine to the base directory with a string-prefix test. */
  function SanitizeFilePath(filePath: string, baseDir: Option<string>, cwd: string): (r: Result<string, SafeError>)
    requires IsAbsolute(cwd)
    ensures r == Err(DirectoryTraversal(filePath)) <==> HasDotDot(Normalize(filePath))
    ensures r.Err? ==> r.error == DirectoryTraversal(filePath) || (HasBase(baseDir) && r.error == OutsideBaseDirectory(filePath))
    ensures r.Ok? && !HasBase(baseDir) ==> r.value == Normalize(filePath) && !HasDotDot(r.value)
    ensures r.Ok? && HasBase(baseDir) ==>
              IsAbsolute(r.value) && StartsWith(r.value, Resolve(cwd, [baseDir.value]))
    ensures HasBase(baseDir) && !HasDotDot(Normalize(filePath)) ==>
              (r.Ok? <==> StartsWith(Resolve(cwd, [Resolve(cwd, [baseDir.value]), Normalize(filePath)]),
                                     Resolve(cwd, [baseDir.value])))
    ensures r.Ok? && HasBase(baseDir) ==>
              r.value == Resolve(cwd, [Resolve(cwd, [baseDir.value]), Normalize(filePath)])
  {
    var normalized := Normalize(filePath);
    if HasDotDot(normalized) then Err(DirectoryTraversal(filePath))
    else if HasBase(baseDir) then
      var absoluteBase := Resolve(cwd, [baseDir.value]);
      var absolutePath := Resolve(cwd, [absoluteBase, normalized]);
      if !StartsWith(absolutePath, absoluteBase) then Err(OutsideBaseDirectory(filePath))
      else Ok(absolutePath)
    else Ok(normalized)
  }

  /**
   * The containment test the sanitizer evidently intends: the same steps,
   * with the prefix test replaced by segment-wise containment.
   */
  function SanitizeFilePathContained(filePath: string, baseDir: Option<string>, cwd: string): (r: Result<string, SafeError>)
    requires IsAbsolute(cwd)
    ensures r == Err(DirectoryTraversal(filePath)) <==> HasDotDot(Normalize(filePath))
    ensures r.Err? ==> r.error == DirectoryTraversal(filePath) || (HasBase(baseDir) && r.error == OutsideBaseDirectory(filePath))
    ensures r.Ok? && !HasBase(baseDir) ==> r.value == Normalize(filePath) && !HasDotDot(r.value)
    ensures r.Ok? && HasBase(baseDir) ==> IsAbsolute(r.value) && Within(r.value, Resolve(cwd, [baseDir.value]))
    ensures HasBase(baseDir) && !HasDotDot(Normalize(filePath)) ==>
              (r.Ok? <==> Within(Resolve(cwd, [Resolve(cwd, [baseDir.value]), Normalize(filePath)]),
                                 Resolve(cwd, [baseDir.value])))
    ensures r.Ok? && HasBase(baseDir) ==>
              r.value == Resolve(cwd, [Resolve(cwd, [baseDir.value]), Normalize(filePath)])
  {
    var normalized := Normalize(filePath);
    if HasDotDot(normalized) then Err(DirectoryTraversal(filePath))
    else if HasBase(baseDir) then
      var absoluteBase := Resolve(cwd, [baseDir.value]);
      var absolutePath := Resolve(cwd, [absoluteBase, normalized]);
      if !Within(absolutePath, absoluteBase) then Err(OutsideBaseDirectory(filePath))
      else Ok(absolutePath)
    else Ok(normalized)
  }

  /** Every resolved path is a slash followed by plain segments. */
  lemma ResolvedSegments(cwd: string, paths: seq<string>) returns (segs: seq<string>)
    requires IsAbsolute(cwd)
    ensures Resolve(cwd, paths) == "/" + Join(segs)
    ensures forall i :: 0 <= i < |segs| ==> Plain(segs[i])
  {
    var (raw, absolute) := Gather(paths, "");
    var full := if absolute then raw else cwd + "/" + raw;
    segs := Collapse([], Split(full), false);
    assert Collapsed(segs, false);
  }

  /** The segments of a slash followed by plain segments: an empty one, then those. */
  lemma ResolvedSplit(segs: seq<string>)
    requires forall i :: 0 <= i < |segs| ==> Plain(segs[i])
    ensures Plains(Split("/" + Join(segs))) == segs
    ensures forall i :: 0 <= i < |Split("/" + Join(segs))| ==> Split("/" + Join(segs))[i] != ".."
  {
    SplitSlash("", Join(segs));
    assert "" + "/" + Join(segs) == "/" + Join(segs);
    if segs == [] {
      assert Split("/" + Join(segs)) == [""] + [""];
      assert ([""] + [""])[1..] == [""];
      assert Plains([""]) == [];
    } else {
      assert NoSlash(segs);
      SplitJoin(segs);
      PlainsOfPlain(segs);
      assert Split("/" + Join(segs)) == [""] + segs;
      assert ([""] + segs)[1..] == segs;
    }
  }

  /** The segments of a string without `..` hold no `..`. */
  lemma SplitClean(s: string)
    requires !HasDotDot(s)
    ensures forall i :: 0 <= i < |Split(s)| ==> !HasDotDot(Split(s)[i]) && Split(s)[i] != ".."
  {
    JoinSplit(s);
    JoinDotDot(Split(s));
    DotDotHasDotDot();
  }

  /** The raw path `path.resolve` builds for `(a, n)` with a relative `n` collapses to the plain segments of both. */
  lemma CollapseJoined(a: string, n: string)
    requires forall i :: 0 <= i < |Split(a)| ==> Split(a)[i] != ".."
    requires forall i :: 0 <= i < |Split(n)| ==> Split(n)[i] != ".."
    ensures Collapse([], Split(a + "/" + (n + "/" + "")), false) == Plains(Split(a)) + Plains(Split(n))
  {
    SplitSlash(a, n + "/" + "");
    SplitSlash(n, "");
    var tail := Split(n) + [""];
    var all := Split(a) + tail;
    assert Split(a + "/" + (n + "/" + "")) == all;
    NoParentAppend(Split(n), [""]);
    NoParentAppend(Split(a), tail);
    CollapseNoParent([], all, false);
    PlainsAppend(Split(a), tail);
    PlainsAppend(Split(n), [""]);
    assert [] + Plains(all) == Plains(all);
  }

  /** Two segment lists without `..` concatenate to one without. */
  lemma NoParentAppend(x: seq<string>, y: seq<string>)
    requires forall i :: 0 <= i < |x| ==> x[i] != ".."
    requires forall i :: 0 <= i < |y| ==> y[i] != ".."
    ensures forall i :: 0 <= i < |x + y| ==> (x + y)[i] != ".."
  {
    forall i | 0 <= i < |x + y| ensures (x + y)[i] != ".." {
      if i >= |x| {
        assert (x + y)[i] == y[i - |x|];
      }
    }
  }

  /** The raw path `path.resolve` builds for an absolute `n` collapses to the plain segments of `n`. */
  lemma CollapseAbsolute(n: string)
    requires forall i :: 0 <= i < |Split(n)| ==> Split(n)[i] != ".."
    ensures Collapse([], Split(n + "/" + ""), false) == Plains(Split(n))
  {
    SplitSlash(n, "");
    var all := Split(n) + [""];
    assert Split(n + "/" + "") == all;
    forall i | 0 <= i < |all| ensures all[i] != ".." {
      if i < |Split(n)| { assert all[i] == Split(n)[i]; } else { assert all[i] == ""; }
    }
    CollapseNoParent([], all, false);
    PlainsAppend(Split(n), [""]);
    assert [] + Plains(all) == Plains(all);
  }

  /** The raw path `path.resolve(absoluteBase, normalized)` collapses. */
  lemma GatherBaseThenPath(base: string, n: string)
    requires IsAbsolute(base) && n != ""
    ensures Gather([base, n], "") ==
              if IsAbsolute(n) then (n + "/" + "", true) else (base + "/" + (n + "/" + ""), true)
  {
    assert [base, n][1] == n && [base, n][..1] == [base];
    assert [base][0] == base && [base][..0] == [];
  }

  /** A plain segment list prefixed by a slash lies within that path extended by more plain segments. */
  lemma WithinExtension(bs: seq<string>, xs: seq<string>)
    ensures Within("/" + Join(bs + xs), "/" + Join(bs))
  {
    var ab := "/" + Join(bs);
    var ap := "/" + Join(bs + xs);
    if bs == [] {
      assert bs + xs == xs;
      assert ab == "/";
      assert ap[..1] == "/";
    } else if xs == [] {
      assert bs + xs == bs;
      assert ap[..|ab|] == ab;
    } else {
      JoinAppend(bs, xs);
      assert ap == ab + "/" + Join(xs);
      assert ap[..|ab|] == ab;
      assert ap[|ab|] == '/';
    }
  }

  /**
   * A relative input that passes the traversal test always lands inside the
   * base: the outside-base error can only come from an absolute input.
   */
  lemma RelativeLandsInside(n: string, base: string, cwd: string)
    requires IsAbsolute(cwd) && base != ""
    requires n != "" && !IsAbsolute(n) && !HasDotDot(n)
    ensures Within(Resolve(cwd, [Resolve(cwd, [base]), n]), Resolve(cwd, [base]))
  {
    var ab := Resolve(cwd, [base]);
    var bs := ResolvedSegments(cwd, [base]);
    ResolvedSplit(bs);
    SplitClean(n);
    GatherBaseThenPath(ab, n);
    CollapseJoined(ab, n);
    var xs := Plains(Split(n));
    assert Resolve(cwd, [ab, n]) == "/" + Join(bs + xs);
    WithinExtension(bs, xs);
  }

  /**
   * Under a base whose resolved form is a slash and the plain segments `bs`,
   * a relative input resolves to those segments followed by its own.
   */
  lemma RelativeUnderBase(n: string, base: string, bs: seq<string>, cwd: string)
    requires IsAbsolute(cwd) && base != ""
    requires n != "" && !IsAbsolute(n) && !HasDotDot(n)
    requires forall i :: 0 <= i < |bs| ==> Plain(bs[i])
    requires Resolve(cwd, [base]) == "/" + Join(bs)
    ensures Resolve(cwd, [Resolve(cwd, [base]), n]) == "/" + Join(bs + Plains(Split(n)))
  {
    var ab := "/" + Join(bs);
    ResolvedSplit(bs);
    SplitClean(n);
    GatherBaseThenPath(ab, n);
    CollapseJoined(ab, n);
  }

  /**
   * The relative input of the sanitizer tests under `/home/user/safe`: it is
   * accepted, and lands in the base's `documents` directory.
   */
  lemma RelativeUnderBaseExample(cwd: string, p: string, q: string)
    requires IsAbsolute(cwd)
    requires p == "documents/file.txt" && q == "/home/user/safe/documents/file.txt"
    ensures SanitizeFilePath(p, Some("/home/user/safe"), cwd) == Ok(q)
    ensures SanitizeFilePathContained(p, Some("/home/user/safe"), cwd) == Ok(q)
  {
    var bs := ["home", "user", "safe"];
    var xs := ["documents", "file.txt"];
    SafeBase(cwd);
    SafeBaseSegments(bs);
    DocumentsPath(p, xs);
    RelativeAccepted(p, "/home/user/safe", bs, xs, cwd);
    SlashJoinAppend(bs, xs);
    DocumentsTarget(q, "/" + Join(bs), Join(xs));
  }

  lemma SlashJoinAppend(bs: seq<string>, xs: seq<string>)
    requires bs != [] && xs != []
    ensures "/" + Join(bs + xs) == ("/" + Join(bs)) + "/" + Join(xs)
  {
    JoinAppend(bs, xs);
  }

  /**
   * A normal relative input of plain segments `xs` under a base resolving to
   * the plain segments `bs` passes both containment tests and comes back as
   * `bs` followed by `xs`.
   */
  lemma RelativeAccepted(n: string, base: string, bs: seq<string>, xs: seq<string>, cwd: string)
    requires IsAbsolute(cwd) && base != ""
    requires n != "" && !IsAbsolute(n) && !HasDotDot(n) && Normalize(n) == n
    requires forall i :: 0 <= i < |bs| ==> Plain(bs[i])
    requires Resolve(cwd, [base]) == "/" + Join(bs)
    requires Plains(Split(n)) == xs
    ensures SanitizeFilePath(n, Some(base), cwd) == Ok("/" + Join(bs + xs))
    ensures SanitizeFilePathContained(n, Some(base), cwd) == Ok("/" + Join(bs + xs))
  {
    RelativeUnderBase(n, base, bs, cwd);
    WithinExtension(bs, xs);
    assert StartsWith("/" + Join(bs + xs), "/" + Join(bs));
  }

  /** `/home/user/safe` is a slash and three plain segments. */
  lemma SafeBaseSegments(bs: seq<string>)
    requires bs == ["home", "user", "safe"]
    ensures "/home/user/safe" == "/" + Join(bs)
    ensures forall i :: 0 <= i < |bs| ==> Plain(bs[i])
  {
    SafeBaseText("/home/user/safe");
    SlashSegmentsOf3(bs, "home", "user", "safe", "/home/user/safe");
    SafeBasePlain(bs);
  }

  lemma SafeBasePlain(bs: seq<string>)
    requires bs == ["home", "user", "safe"]
    ensures forall i :: 0 <= i < |bs| ==> Plain(bs[i])
  {
    PlainWord("home");
    PlainWord("user");
    PlainWord("safe");
  }

  /** A slash in front of three segments joined by slashes. */
  lemma SlashSegmentsOf3(segs: seq<string>, a: string, b: string, c: string, p: string)
    requires segs == [a, b, c] && p == "/" + (a + "/" + (b + "/" + c))
    ensures p == "/" + Join(segs)
  {
    SegmentsOf3(segs, a, b, c);
  }

  /** `documents/file.txt` is normal, relative, free of `..`, and made of two plain segments. */
  lemma DocumentsPath(p: string, xs: seq<string>)
    requires p == "documents/file.txt" && xs == ["documents", "file.txt"]
    ensures p == Join(xs) && Normalize(p) == p && p != "" && !IsAbsolute(p) && !HasDotDot(p)
    ensures forall i :: 0 <= i < |xs| ==> Plain(xs[i])
    ensures Plains(Split(p)) == xs
  {
    assert Join(xs) == "documents/file.txt" by {
      assert xs == ["documents"] + ["file.txt"];
      JoinCons("documents", ["file.txt"]);
    }
    PlainWord("documents");
    assert Plain("file.txt");
    NoDotDotWithoutAdjacentDots(p);
    RelativePlainNormal(xs);
    PlainFacts(xs, false);
    PlainsOfPlain(xs);
  }

  lemma DocumentsTarget(q: string, b: string, x: string)
    requires q == "/home/user/safe/documents/file.txt" && b == "/home/user/safe" && x == "documents/file.txt"
    ensures q == b + "/" + x
  {
  }

  /** The outside-base error of the sanitizer is only ever raised for an absolute input. */
  lemma OutsideBaseOnlyForAbsolute(filePath: string, baseDir: Option<string>, cwd: string)
    requires IsAbsolute(cwd)
    ensures SanitizeFilePath(filePath, baseDir, cwd) == Err(OutsideBaseDirectory(filePath)) ==> IsAbsolute(Normalize(filePath))
    ensures SanitizeFilePathContained(filePath, baseDir, cwd) == Err(OutsideBaseDirectory(filePath)) ==> IsAbsolute(Normalize(filePath))
  {
    var n := Normalize(filePath);
    if HasBase(baseDir) && !HasDotDot(n) && !IsAbsolute(n) {
      RelativeLandsInside(n, baseDir.value, cwd);
    }
  }

  /**
   * What the sanitizer returns holds no `..`, provided the resolved base
   * directory holds none itself.
   */
  lemma SanitizedHasNoDotDot(filePath: string, baseDir: Option<string>, cwd: string)
    requires IsAbsolute(cwd)
    requires HasBase(baseDir) ==> !HasDotDot(Resolve(cwd, [baseDir.value]))
    ensures SanitizeFilePath(filePath, baseDir, cwd).Ok? ==> !HasDotDot(SanitizeFilePath(filePath, baseDir, cwd).value)
    ensures SanitizeFilePathContained(filePath, baseDir, cwd).Ok? ==> !HasDotDot(SanitizeFilePathContained(filePath, baseDir, cwd).value)
  {
    var n := Normalize(filePath);
    if !HasDotDot(n) && HasBase(baseDir) {
      var ab := Resolve(cwd, [baseDir.value]);
      GatherBaseThenPath(ab, n);
      SplitClean(n);
      var segs: seq<string>;
      if IsAbsolute(n) {
        CollapseAbsolute(n);
        segs := Split(n);
      } else {
        SplitClean(ab);
        CollapseJoined(ab, n);
        segs := Split(ab) + Split(n);
        forall i | 0 <= i < |segs| ensures !HasDotDot(segs[i]) {
          if i < |Split(ab)| { assert segs[i] == Split(ab)[i]; } else { assert segs[i] == Split(n)[i - |Split(ab)|]; }
        }
        PlainsAppend(Split(ab), Split(n));
      }
      assert Resolve(cwd, [ab, n]) == "/" + Join(Plains(segs));
      CleanPlains(segs);
    }
  }

  /** Joining the plain segments of a list without `..` gives a path without `..`. */
  lemma CleanPlains(segs: seq<string>)
    requires forall i :: 0 <= i < |segs| ==> !HasDotDot(segs[i])
    ensures !HasDotDot("/" + Join(Plains(segs)))
  {
    PlainsFrom(segs);
    var p := Plains(segs);
    forall i | 0 <= i < |p| ensures !HasDotDot(p[i]) {
      assert p[i] in segs;
    }
    JoinDotDot(p);
    SlashPrefixDotDot(Join(p));
  }

  /** An already normalized path without `..` comes back unchanged when no base is given. */
  lemma NormalPathUnchanged(p: string, cwd: string)
    requires IsAbsolute(cwd)
    requires !HasDotDot(Normalize(p))
    ensures SanitizeFilePath(Normalize(p), None, cwd) == Ok(Normalize(p))
  {
    NormalizeIdempotent(p);
  }

  /** An absolute, already normal input inside the base is returned as it is. */
  lemma AbsoluteInsideBaseUnchanged(segs: seq<string>, baseDir: string, cwd: string)
    requires IsAbsolute(cwd) && baseDir != ""
    requires segs != [] && forall i :: 0 <= i < |segs| ==> Plain(segs[i]) && !HasDotDot(segs[i])
    requires StartsWith("/" + Join(segs), Resolve(cwd, [baseDir]))
    ensures SanitizeFilePath("/" + Join(segs), Some(baseDir), cwd) == Ok("/" + Join(segs))
  {
    AbsolutePlainNormal(cwd, segs);
    JoinDotDot(segs);
    SlashPrefixDotDot(Join(segs));
  }

  /**
   * An input starting with `../` is always refused as a traversal, base
   * directory or not: `..` survives normalization of a relative path.
   */
  lemma ParentInputIsTraversal(rest: string, baseDir: Option<string>, cwd: string)
    requires IsAbsolute(cwd)
    ensures SanitizeFilePath("../" + rest, baseDir, cwd) == Err(DirectoryTraversal("../" + rest))
  {
    var p := "../" + rest;
    assert p == ".." + "/" + rest;
    SplitSlash("..", rest);
    SplitNoSlash("..");
    var segs := [".."] + Split(rest);
    assert Split(p) == segs;
    assert segs[0] == ".." && segs[1..] == Split(rest);
    var empty: seq<string> := [];
    assert empty + [".."] == [".."];
    assert Collapse([], segs, true) == Collapse([".."], Split(rest), true);
    CollapseKeepsLeadingParent([".."], Split(rest));
    var stack := Collapse([], Split(p), true);
    NormalizeParts(p);
    JoinFirst(stack);
    assert Normalize(p) == Join(stack) + (if p[|p| - 1] == '/' then "/" else "");
    assert Join(stack)[..2] == ".." by {
      if |stack| == 1 {
        assert Join(stack) == "..";
      } else {
        assert Join(stack) == ".." + "/" + Join(stack[1..]);
      }
    }
    assert Normalize(p)[0] == '.' && Normalize(p)[1] == '.';
  }

  /** A relative path from the sanitizer tests. */
  lemma RelativePathExample(cwd: string)
    requires IsAbsolute(cwd)
    ensures SanitizeFilePath("folder/file.txt", None, cwd) == Ok("folder/file.txt")
  {
    var rel := ["folder", "file.txt"];
    assert Join(rel) == "folder/file.txt";
    assert !HasDotDot("folder/file.txt") by { NoDotDotWithoutAdjacentDots("folder/file.txt"); }
    RelativePlainNormal(rel);
  }

  /** The traversal attempt from the sanitizer tests, without a base directory. */
  lemma TraversalExample(cwd: string, p: string)
    requires IsAbsolute(cwd)
    requires p == "../etc/passwd"
    ensures SanitizeFilePath(p, None, cwd) == Err(DirectoryTraversal(p))
  {
    ParentFirst(p, None, cwd);
  }

  /**
   * The traversal attempt from the sanitizer tests, under a base directory:
   * the code refuses it as a traversal, not as lying outside the base.
   */
  lemma TraversalUnderBaseExample(cwd: string, q: string)
    requires IsAbsolute(cwd)
    requires q == "../../../etc/passwd"
    ensures SanitizeFilePath(q, Some("/home/user/safe"), cwd) == Err(DirectoryTraversal(q))
  {
    ParentFirst(q, Some("/home/user/safe"), cwd);
  }

  /** `ParentInputIsTraversal` for a path given whole. */
  lemma ParentFirst(p: string, baseDir: Option<string>, cwd: string)
    requires IsAbsolute(cwd)
    requires |p| >= 3 && p[0] == '.' && p[1] == '.' && p[2] == '/'
    ensures SanitizeFilePath(p, baseDir, cwd) == Err(DirectoryTraversal(p))
  {
    assert p == "../" + p[3..];
    ParentInputIsTraversal(p[3..], baseDir, cwd);
  }

  /** `/home/user/safe` as a segment list. */
  lemma SafeBase(cwd: string)
    requires IsAbsolute(cwd)
    ensures Resolve(cwd, ["/home/user/safe"]) == "/home/user/safe"
  {
    var base := ["home", "user", "safe"];
    SegmentsOf3(base, "home", "user", "safe");
    SafeBaseText("/home/user/safe");
    AbsolutePlainNormal(cwd, base);
  }

  lemma SafeBaseText(p: string)
    requires p == "/home/user/safe"
    ensures p == "/" + ("home" + "/" + ("user" + "/" + "safe"))
  {
  }

  lemma InsideBaseText(p: string)
    requires p == "/home/user/safe/file.txt"
    ensures p == "/" + ("home" + "/" + ("user" + "/" + ("safe" + "/" + "file.txt")))
  {
  }

  lemma SiblingText(p: string)
    requires p == "/home/user/safe-evil/x"
    ensures p == "/" + ("home" + "/" + ("user" + "/" + ("safe-evil" + "/" + "x")))
  {
  }

  /** A path of three segments. */
  lemma SegmentsOf3(segs: seq<string>, a: string, b: string, c: string)
    requires segs == [a, b, c]
    ensures Join(segs) == a + "/" + (b + "/" + c)
  {
    assert segs == [a] + [b, c] && [b, c] == [b] + [c];
    JoinCons(a, [b, c]);
    JoinCons(b, [c]);
  }

  /** A path of four segments. */
  lemma SegmentsOf4(segs: seq<string>, a: string, b: string, c: string, d: string)
    requires segs == [a, b, c, d]
    ensures Join(segs) == a + "/" + (b + "/" + (c + "/" + d))
  {
    assert segs == [a] + [b, c, d];
    JoinCons(a, [b, c, d]);
    SegmentsOf3([b, c, d], b, c, d);
  }

  /** An absolute path inside the base from the sanitizer tests. */
  lemma InsideBaseExample(cwd: string, p: string)
    requires IsAbsolute(cwd)
    requires p == "/home/user/safe/file.txt"
    ensures SanitizeFilePath(p, Some("/home/user/safe"), cwd) == Ok(p)
  {
    var file := ["home", "user", "safe", "file.txt"];
    InsideBasePath(p, file);
    InsideBaseSegments(file);
    SafeBase(cwd);
    AbsoluteInsideBaseUnchanged(file, "/home/user/safe", cwd);
  }

  /** `/home/user/safe/file.txt` as a segment list. */
  lemma InsideBasePath(path: string, segs: seq<string>)
    requires path == "/home/user/safe/file.txt" && segs == ["home", "user", "safe", "file.txt"]
    ensures path == "/" + Join(segs)
  {
    SegmentsOf4(segs, "home", "user", "safe", "file.txt");
    InsideBaseText(path);
  }

  /** The segments of `/home/user/safe/file.txt` are plain. */
  lemma InsideBaseSegments(segs: seq<string>)
    requires segs == ["home", "user", "safe", "file.txt"]
    ensures segs != [] && forall i :: 0 <= i < |segs| ==> Plain(segs[i]) && !HasDotDot(segs[i])
  {
    PlainWord("home");
    PlainWord("user");
    PlainWord("safe");
    assert Plain("file.txt");
    NoDotDotWithoutAdjacentDots("file.txt");
  }

  /** `/home/user/safe-evil/x` as a segment list. */
  lemma SiblingPath(path: string, segs: seq<string>)
    requires path == "/home/user/safe-evil/x" && segs == ["home", "user", "safe-evil", "x"]
    ensures path == "/" + Join(segs)
  {
    SegmentsOf4(segs, "home", "user", "safe-evil", "x");
    SiblingText(path);
  }

  /** The segments of `/home/user/safe-evil/x` are plain. */
  lemma SiblingSegments(segs: seq<string>)
    requires segs == ["home", "user", "safe-evil", "x"]
    ensures segs != [] && forall i :: 0 <= i < |segs| ==> Plain(segs[i]) && !HasDotDot(segs[i])
  {
    PlainWord("home");
    PlainWord("user");
    PlainWord("safe-evil");
    PlainWord("x");
  }

  /** A non-empty word of lower-case letters and hyphens is a plain segment without `..`. */
  lemma PlainWord(w: string)
    requires w != [] && forall i :: 0 <= i < |w| ==> 'a' <= w[i] <= 'z' || w[i] == '-'
    ensures Plain(w) && !HasDotDot(w)
  {
    assert w != "." && w != ".." by {
      assert w[0] != '.';
    }
    NoDotDotWithoutAdjacentDots(w);
  }

  /**
   * The prefix test lets a sibling directory through: with base
   * `/home/user/safe`, the absolute input `/home/user/safe-evil/x` is
   * accepted although it lies outside; the segment-wise test refuses it.
   */
  lemma SiblingPrefixAccepted(cwd: string, path: string, base: string)
    requires IsAbsolute(cwd)
    requires path == "/home/user/safe-evil/x" && base == "/home/user/safe"
    ensures SanitizeFilePath(path, Some(base), cwd) == Ok(path)
    ensures !Within(path, base)
    ensures SanitizeFilePathContained(path, Some(base), cwd) == Err(OutsideBaseDirectory(path))
  {
    var segs := ["home", "user", "safe-evil", "x"];
    SiblingPath(path, segs);
    SiblingSegments(segs);
    SafeBase(cwd);
    assert StartsWith(path, base) by {
      assert path[..|base|] == base;
    }
    assert !Within(path, base) by {
      assert path[|base|] == '-';
    }
    PrefixNotWithin(segs, base, cwd);
  }

  /** An absolute plain path that has the base as a string prefix but is not inside it passes one test and fails the other. */
  lemma PrefixNotWithin(segs: seq<string>, base: string, cwd: string)
    requires IsAbsolute(cwd) && base != ""
    requires segs != [] && forall i :: 0 <= i < |segs| ==> Plain(segs[i]) && !HasDotDot(segs[i])
    requires Resolve(cwd, [base]) == base
    requires StartsWith("/" + Join(segs), base) && !Within("/" + Join(segs), base)
    ensures SanitizeFilePath("/" + Join(segs), Some(base), cwd) == Ok("/" + Join(segs))
    ensures SanitizeFilePathContained("/" + Join(segs), Some(base), cwd) == Err(OutsideBaseDirectory("/" + Join(segs)))
  {
    AbsoluteInsideBaseUnchanged(segs, base, cwd);
    AbsolutePlainNormal(cwd, segs);
    JoinDotDot(segs);
    SlashPrefixDotDot(Join(segs));
  }

  // =====================================================================
  // safeExecute
  // =====================================================================

  type Env = map<string, string>

  /** `SafeCommandOptions`; `None` is a key that was not given. */
  datatype Options = Options(cwd: Option<string>, env: Option<Env>, timeout: Option<int>, maxBuffer: Option<int>)

  /** The options handed to `execFile`. */
  datatype ExecOptions = ExecOptions(cwd: Option<string>, env: Env, timeout: int, maxBuffer: int, encoding: string)

  const DefaultTimeout: int := 30000
  const DefaultMaxBuffer: int := 1024 * 1024

  /** `n || d` on an optional number. */
  function NumberOr(n: Option<int>, d: int): int
  {
    if n.Some? && n.value != 0 then n.value else d
  }

  /** The `execOptions` object: defaults fill an absent or zero timeout and buffer, and a missing `env`. */
  function ResolveExecOptions(options: Options, processEnv: Env): (r: ExecOptions)
    ensures r.timeout != 0 && r.maxBuffer != 0
    ensures options.timeout.Some? && options.timeout.value != 0 ==> r.timeout == options.timeout.value
    ensures options.timeout.None? || options.timeout.value == 0 ==> r.timeout == 30000
    ensures options.maxBuffer.Some? && options.maxBuffer.value != 0 ==> r.maxBuffer == options.maxBuffer.value
    ensures options.maxBuffer.None? || options.maxBuffer.value == 0 ==> r.maxBuffer == 1048576
    ensures r.env == GetOr(options.env, processEnv) && r.cwd == options.cwd && r.encoding == "utf-8"
  {
    ExecOptions(options.cwd, GetOr(options.env, processEnv), NumberOr(options.timeout, DefaultTimeout),
                NumberOr(options.maxBuffer, DefaultMaxBuffer), "utf-8")
  }

  /** The error object `execFile` rejects with, kept opaque. */
  datatype ErrorInfo = ErrorInfo(message: string)

  /** What `execFile` reports: a zero exit, or a rejection carrying what was captured and `error.code`. */
  datatype ExecOutcome =
    | Exited(stdout: string, stderr: string)
    | Failed(capturedStdout: Option<string>, capturedStderr: Option<string>, code: Value, error: ErrorInfo)

  /** `CommandResult`; `exitCode` is whatever value the source puts there. */
  datatype CommandResult = CommandResult(stdout: string, stderr: string, exitCode: Value, error: Option<ErrorInfo>)

  /** The process to create: `execFile(file, argv, options)`, never through a shell. */
  datatype Invocation = Invocation(file: string, argv: seq<string>, options: ExecOptions)

  /** The `try`/`catch` of `safeExecute`: a failure becomes data, never an exception. */
  function ShapeResult(outcome: ExecOutcome): (r: CommandResult)
    ensures r.error.Some? <==> outcome.Failed?
    ensures Truthy(r.exitCode) <==> outcome.Failed?
    ensures r.exitCode == Num(0) <==> outcome.Exited?
    ensures outcome.Exited? ==> r.stdout == outcome.stdout && r.stderr == outcome.stderr
    ensures outcome.Failed? ==> r.stdout == GetOr(outcome.capturedStdout, "") && r.stderr == GetOr(outcome.capturedStderr, "")
    ensures outcome.Failed? && Truthy(outcome.code) ==> r.exitCode == outcome.code
    ensures outcome.Failed? && !Truthy(outcome.code) ==> r.exitCode == Num(1)
  {
    match outcome
    case Exited(out, err) => CommandResult(out, err, Num(0), None)
    case Failed(out, err, code, error) =>
      CommandResult(GetOr(out, ""), GetOr(err, ""), if Truthy(code) then code else Num(1), Some(error))
  }

  /**
   * `safeExecute`: validates the command and the arguments before any
   * process exists, then runs `execFile` (the oracle `os`) and shapes its
   * outcome into a result.
   */
  method SafeExecute(command: string, args: seq<Value>, options: Options, processEnv: Env,
                     os: Invocation -> ExecOutcome)
    returns (r: Result<CommandResult, SafeError>)
    ensures ValidateCommand(command).Fail? ==> r == Err(InvalidCommand(command))
    ensures ValidateCommand(command).Pass? && ArgumentsCheck(args).Fail? ==> r == Err(ArgumentsCheck(args).error)
    ensures r.Err? ==> r.error.InvalidCommand? || r.error.InvalidArgumentType?
    ensures r.Ok? <==> ValidateCommand(command).Pass? && ArgumentsCheck(args).Pass?
    ensures r.Ok? ==> r.value == ShapeResult(os(Invocation(command, ArgStrings(args), ResolveExecOptions(options, processEnv))))
  {
    var commandCheck := ValidateCommand(command);
    if commandCheck.Fail? {
      return Err(commandCheck.error);
    }
    var argsCheck := ValidateArguments(args);
    if argsCheck.Fail? {
      return Err(argsCheck.error);
    }
    var execOptions := ResolveExecOptions(options, processEnv);
    var outcome := os(Invocation(command, ArgStrings(args), execOptions));
    return Ok(ShapeResult(outcome));
  }

  /** `safeNpmInstall`: `npm install <name>` for a valid package name only. */
  method SafeNpmInstall(packageName: string, options: Options, processEnv: Env, os: Invocation -> ExecOutcome)
    returns (r: Result<CommandResult, SafeError>)
    ensures r.Err? <==> !IsValidPackageName(packageName)
    ensures r.Err? ==> r.error == InvalidPackageName(packageName)
    ensures r.Ok? ==> r.value == ShapeResult(os(Invocation("npm", ["install", packageName], ResolveExecOptions(options, processEnv))))
  {
    if !IsValidPackageName(packageName) {
      return Err(InvalidPackageName(packageName));
    }
    assert ArgStrings([Str("install"), Str(packageName)]) == ["install", packageName];
    r := SafeExecute("npm", [Str("install"), Str(packageName)], options, processEnv, os);
  }

  /**
   * `safeReadFile`: `cat <path>` on the path `sanitizeFilePath` hands back,
   * string-prefix test and all (see SiblingPrefixAccepted).
   */
  method SafeReadFile(filename: string, baseDir: Option<string>, options: Options, cwd: string,
                      processEnv: Env, os: Invocation -> ExecOutcome)
    returns (r: Result<CommandResult, SafeError>)
    requires IsAbsolute(cwd)
    ensures SanitizeFilePath(filename, baseDir, cwd).Err? ==>
              r == Err(SanitizeFilePath(filename, baseDir, cwd).error)
    ensures SanitizeFilePath(filename, baseDir, cwd).Ok? ==>
              r == Ok(ShapeResult(os(Invocation("cat", [SanitizeFilePath(filename, baseDir, cwd).value],
                                                ResolveExecOptions(options, processEnv)))))
  {
    var safePath := SanitizeFilePath(filename, baseDir, cwd);
    if safePath.Err? {
      return Err(safePath.error);
    }
    assert ArgStrings([Str(safePath.value)]) == [safePath.value];
    r := SafeExecute("cat", [Str(safePath.value)], options, processEnv, os);
  }

  /** `safeReadFile` over the segment-wise containment test: `cat` only ever sees a path inside the base. */
  method SafeReadFileContained(filename: string, baseDir: Option<string>, options: Options, cwd: string,
                               processEnv: Env, os: Invocation -> ExecOutcome)
    returns (r: Result<CommandResult, SafeError>)
    requires IsAbsolute(cwd)
    ensures SanitizeFilePathContained(filename, baseDir, cwd).Err? ==>
              r == Err(SanitizeFilePathContained(filename, baseDir, cwd).error)
    ensures SanitizeFilePathContained(filename, baseDir, cwd).Ok? ==>
              r == Ok(ShapeResult(os(Invocation("cat", [SanitizeFilePathContained(filename, baseDir, cwd).value],
                                                ResolveExecOptions(options, processEnv)))))
  {
    var safePath := SanitizeFilePathContained(filename, baseDir, cwd);
    if safePath.Err? {
      return Err(safePath.error);
    }
    assert ArgStrings([Str(safePath.value)]) == [safePath.value];
    r := SafeExecute("cat", [Str(safePath.value)], options, processEnv, os);
  }
}
