/**
 * POSIX path handling as Node's `path.posix` does it: `normalize` and
 * `resolve` are modelled on the segment list of the path (`p.split('/')`):
 * empty and `.` segments are dropped, `x/..` cancels, and a `..` that has
 * nothing to cancel is kept only on relative paths.
 */
module PosixPath {
  import opened Strings

  predicate IsAbsolute(p: string)
  {
    |p| > 0 && p[0] == '/'
  }

  /** `s.split('/')` */
  function Split(s: string): (segs: seq<string>)
    ensures |segs| >= 1
    ensures forall i :: 0 <= i < |segs| ==> '/' !in segs[i]
  {
    if s == [] then [""]
    else if s[0] == '/' then [""] + Split(s[1..])
    else
      var rest := Split(s[1..]);
      [[s[0]] + rest[0]] + rest[1..]
  }

  /** `segs.join('/')` */
  function Join(segs: seq<string>): (r: string)
    ensures segs != [] && segs[0] != "" ==> r != ""
  {
    if segs == [] then ""
    else if |segs| == 1 then segs[0]
    else segs[0] + "/" + Join(segs[1..])
  }

  /** A segment that names a directory entry: not empty, not `.`, not `..`. */
  predicate Plain(seg: string)
  {
    seg != "" && seg != "." && seg != ".." && '/' !in seg
  }

  /**
   * The shape of what `Collapse` leaves: plain segments, preceded by a run
   * of `..` only when the path may climb above its start.
   */
  predicate Collapsed(stack: seq<string>, allowAboveRoot: bool)
  {
    forall i :: 0 <= i < |stack| ==>
      Plain(stack[i]) ||
      (stack[i] == ".." && allowAboveRoot && forall j :: 0 <= j < i ==> stack[j] == "..")
  }

  predicate NoSlash(segs: seq<string>)
  {
    forall i :: 0 <= i < |segs| ==> '/' !in segs[i]
  }

  /**
   * Node's `normalizeString`, on segments: `stack` holds what has been
   * kept so far and `segs` what is still to be read.
   */
  function Collapse(stack: seq<string>, segs: seq<string>, allowAboveRoot: bool): (r: seq<string>)
    ensures Collapsed(stack, allowAboveRoot) && NoSlash(segs) ==> Collapsed(r, allowAboveRoot)
    decreases |segs|
  {
    if segs == [] then stack
    else
      var s := segs[0];
      var next :=
        if s == "" || s == "." then stack
        else if s == ".." then
          if |stack| > 0 && stack[|stack| - 1] != ".." then stack[..|stack| - 1]
          else if allowAboveRoot then stack + [".."]
          else stack
        else stack + [s];
      assert Collapsed(stack, allowAboveRoot) && NoSlash(segs) ==> Collapsed(next, allowAboveRoot) by {
        if Collapsed(stack, allowAboveRoot) && NoSlash(segs) && s == ".." && allowAboveRoot
           && !(|stack| > 0 && stack[|stack| - 1] != "..") {
          forall j | 0 <= j < |stack| ensures stack[j] == ".." {
            assert stack[|stack| - 1] == "..";
          }
        }
      }
      Collapse(next, segs[1..], allowAboveRoot)
  }

  /** `path.normalize(p)` */
  function Normalize(p: string): (r: string)
    ensures r != ""
    ensures IsAbsolute(r) <==> IsAbsolute(p)
  {
    if p == "" then "."
    else
      var absolute := p[0] == '/';
      var trailing := p[|p| - 1] == '/';
      var stack := Collapse([], Split(p), !absolute);
      if stack == [] then (if absolute then "/" else if trailing then "./" else ".")
      else
        assert Collapsed(stack, !absolute);
        assert !absolute ==> (Join(stack) + (if trailing then "/" else ""))[0] == Join(stack)[0] != '/' by {
          if !absolute { JoinFirst(stack); }
        }
        (if absolute then "/" else "") + Join(stack) + (if trailing then "/" else "")
  }

  /**
   * The loop of `path.resolve(...paths)`: walks `paths` from the right,
   * prefixing each non-empty one, and stops after the first absolute one.
   */
  function Gather(paths: seq<string>, acc: string): (r: (string, bool))
    ensures r.1 ==> IsAbsolute(r.0)
    ensures !r.1 ==> forall i :: 0 <= i < |paths| ==> !IsAbsolute(paths[i])
  {
    if paths == [] then (acc, false)
    else
      var p := paths[|paths| - 1];
      if p == "" then Gather(paths[..|paths| - 1], acc)
      else if p[0] == '/' then (p + "/" + acc, true)
      else Gather(paths[..|paths| - 1], p + "/" + acc)
  }

  /** `path.resolve(...paths)` when the working directory is `cwd`. */
  function Resolve(cwd: string, paths: seq<string>): (r: string)
    requires IsAbsolute(cwd)
    ensures IsAbsolute(r)
  {
    var (raw, absolute) := Gather(paths, "");
    var full := if absolute then raw else cwd + "/" + raw;
    "/" + Join(Collapse([], Split(full), false))
  }

  /** The plain segments of `segs`, in order: what `Collapse` keeps when no `..` occurs. */
  function Plains(segs: seq<string>): (r: seq<string>)
  {
    if segs == [] then []
    else if segs[0] == "" || segs[0] == "." then Plains(segs[1..])
    else [segs[0]] + Plains(segs[1..])
  }

  // ---------------------------------------------------------------------
  // Split and Join
  // ---------------------------------------------------------------------

  /** Joining the pieces of a split gives back the string. */
  lemma {:induction false} JoinSplit(s: string)
    ensures Join(Split(s)) == s
  {
    if s == [] {
    } else if s[0] == '/' {
      JoinSplit(s[1..]);
      assert Split(s) == [""] + Split(s[1..]);
      assert |Split(s)| >= 2;
      assert Join(Split(s)) == "" + "/" + Join(Split(s[1..]));
    } else {
      var rest := Split(s[1..]);
      JoinSplit(s[1..]);
      var segs := [[s[0]] + rest[0]] + rest[1..];
      assert Split(s) == segs;
      if |rest| == 1 {
        assert Join(segs) == [s[0]] + rest[0];
        assert Join(rest) == rest[0];
      } else {
        assert segs[1..] == rest[1..];
        assert Join(segs) == ([s[0]] + rest[0]) + "/" + Join(rest[1..]);
        assert Join(rest) == rest[0] + "/" + Join(rest[1..]);
      }
      assert s == [s[0]] + s[1..];
    }
  }

  /** One step of `Split`, on a string written as its first character and the rest. */
  lemma SplitCons(c: char, t: string)
    ensures Split([c] + t) ==
      if c == '/' then [""] + Split(t) else [[c] + Split(t)[0]] + Split(t)[1..]
  {
    var s := [c] + t;
    assert s[0] == c && s[1..] == t;
  }

  /** Splitting distributes over a separator. */
  lemma {:induction false} SplitSlash(a: string, b: string)
    ensures Split(a + "/" + b) == Split(a) + Split(b)
  {
    if a == [] {
      assert a + "/" + b == ['/'] + b;
      SplitCons('/', b);
    } else {
      SplitSlash(a[1..], b);
      assert a == [a[0]] + a[1..];
      SplitSlashStep(a[0], a[1..], b);
    }
  }

  /** The induction step of `SplitSlash`: one more character in front. */
  lemma SplitSlashStep(c: char, t: string, b: string)
    requires Split(t + "/" + b) == Split(t) + Split(b)
    ensures Split([c] + t + "/" + b) == Split([c] + t) + Split(b)
  {
    var u := t + "/" + b;
    assert [c] + t + "/" + b == [c] + u;
    var rt, rb := Split(t), Split(b);
    SplitCons(c, u);
    SplitCons(c, t);
    if c == '/' {
      ConsAssoc([""], rt, rb);
    } else {
      ConsHead([c], rt, rb);
    }
  }

  lemma ConsAssoc(x: seq<string>, y: seq<string>, z: seq<string>)
    ensures x + (y + z) == (x + y) + z
  {
  }

  /** List algebra for the non-separator step of `Split`. */
  lemma ConsHead(c: string, rt: seq<string>, rb: seq<string>)
    requires |rt| >= 1
    ensures [c + (rt + rb)[0]] + (rt + rb)[1..] == ([c + rt[0]] + rt[1..]) + rb
  {
    assert (rt + rb)[0] == rt[0];
    assert (rt + rb)[1..] == rt[1..] + rb;
  }

  lemma {:induction false} SplitNoSlash(a: string)
    requires '/' !in a
    ensures Split(a) == [a]
  {
    if a != [] {
      assert '/' !in a[1..] by {
        forall i | 0 <= i < |a[1..]| ensures a[1..][i] != '/' {
          assert a[1..][i] == a[i + 1];
        }
      }
      SplitNoSlash(a[1..]);
      assert [a[0]] + a[1..] == a;
    }
  }

  /** Splitting a join of slash-free segments gives back the segments. */
  lemma {:induction false} SplitJoin(segs: seq<string>)
    requires |segs| >= 1 && NoSlash(segs)
    ensures Split(Join(segs)) == segs
  {
    if |segs| == 1 {
      SplitNoSlash(segs[0]);
    } else {
      SplitJoin(segs[1..]);
      SplitSlash(segs[0], Join(segs[1..]));
      SplitNoSlash(segs[0]);
      assert [segs[0]] + segs[1..] == segs;
    }
  }

  /** One step of `Join` on a list of at least two segments. */
  lemma JoinCons(a: string, rest: seq<string>)
    requires rest != []
    ensures Join([a] + rest) == a + "/" + Join(rest)
  {
    assert ([a] + rest)[1..] == rest;
  }

  lemma {:induction false} JoinAppend(a: seq<string>, b: seq<string>)
    requires a != [] && b != []
    ensures Join(a + b) == Join(a) + "/" + Join(b)
  {
    if |a| == 1 {
      assert (a + b)[1..] == b;
    } else {
      JoinAppend(a[1..], b);
      assert (a + b)[1..] == a[1..] + b;
    }
  }

  lemma JoinFirst(segs: seq<string>)
    requires segs != [] && segs[0] != ""
    ensures Join(segs) != "" && Join(segs)[0] == segs[0][0]
  {
  }

  lemma {:induction false} JoinLast(segs: seq<string>)
    requires segs != [] && segs[|segs| - 1] != ""
    ensures Join(segs) != ""
    ensures Join(segs)[|Join(segs)| - 1] == segs[|segs| - 1][|segs[|segs| - 1]| - 1]
  {
    if |segs| > 1 {
      JoinLast(segs[1..]);
    }
  }

  /** `..` occurs in a join exactly when it occurs in one of the segments. */
  lemma {:induction false} JoinDotDot(segs: seq<string>)
    ensures HasDotDot(Join(segs)) <==> exists i :: 0 <= i < |segs| && HasDotDot(segs[i])
  {
    if |segs| == 1 {
    } else if |segs| > 1 {
      var j := Join(segs[1..]);
      JoinDotDot(segs[1..]);
      HasDotDotAppend(segs[0] + "/", j);
      HasDotDotAppend(segs[0], "/");
      if HasDotDot(Join(segs)) {
        var k :| 0 <= k < |Join(segs)| - 1 && Join(segs)[k] == '.' && Join(segs)[k + 1] == '.';
        var n := |segs[0]|;
        if k < n - 1 {
          assert segs[0][k] == '.' && segs[0][k + 1] == '.';
        } else if k > n {
          assert j[k - n - 1] == '.' && j[k - n] == '.';
          var i :| 0 <= i < |segs[1..]| && HasDotDot(segs[1..][i]);
          assert HasDotDot(segs[i + 1]);
        } else {
          assert false;
        }
      }
      if exists i :: 0 <= i < |segs| && HasDotDot(segs[i]) {
        var i :| 0 <= i < |segs| && HasDotDot(segs[i]);
        if i > 0 {
          assert HasDotDot(segs[1..][i - 1]);
        }
      }
    }
  }

  lemma SlashPrefixDotDot(s: string)
    ensures HasDotDot("/" + s) <==> HasDotDot(s)
  {
    HasDotDotAppend("/", s);
    if HasDotDot("/" + s) {
      var k :| 0 <= k < |"/" + s| - 1 && ("/" + s)[k] == '.' && ("/" + s)[k + 1] == '.';
      assert s[k - 1] == '.' && s[k] == '.';
    }
  }

  // ---------------------------------------------------------------------
  // Collapse
  // ---------------------------------------------------------------------

  lemma {:induction false} CollapseAppend(stack: seq<string>, a: seq<string>, b: seq<string>, allow: bool)
    ensures Collapse(stack, a + b, allow) == Collapse(Collapse(stack, a, allow), b, allow)
    decreases |a|
  {
    if a != [] {
      assert (a + b)[0] == a[0];
      assert (a + b)[1..] == a[1..] + b;
      var s := a[0];
      var next :=
        if s == "" || s == "." then stack
        else if s == ".." then
          if |stack| > 0 && stack[|stack| - 1] != ".." then stack[..|stack| - 1]
          else if allow then stack + [".."]
          else stack
        else stack + [s];
      CollapseAppend(next, a[1..], b, allow);
    } else {
      assert a + b == b;
    }
  }

  /** An already collapsed list of segments is kept as it is. */
  lemma {:induction false} CollapseCanonical(acc: seq<string>, rest: seq<string>, allow: bool)
    requires Collapsed(acc + rest, allow)
    ensures Collapse(acc, rest, allow) == acc + rest
    decreases |rest|
  {
    if rest != [] {
      var s := rest[0];
      assert (acc + rest)[|acc|] == s;
      assert (acc + [s]) + rest[1..] == acc + rest;
      if s == ".." {
        assert allow;
        assert forall j :: 0 <= j < |acc| ==> acc[j] == (acc + rest)[j] == "..";
      }
      CollapseCanonical(acc + [s], rest[1..], allow);
    } else {
      assert acc + rest == acc;
    }
  }

  /** Without any `..`, collapsing just drops the empty and `.` segments. */
  lemma {:induction false} CollapseNoParent(acc: seq<string>, segs: seq<string>, allow: bool)
    requires forall i :: 0 <= i < |segs| ==> segs[i] != ".."
    ensures Collapse(acc, segs, allow) == acc + Plains(segs)
    decreases |segs|
  {
    if segs != [] {
      var next := if segs[0] == "" || segs[0] == "." then acc else acc + [segs[0]];
      CollapseNoParent(next, segs[1..], allow);
      if !(segs[0] == "" || segs[0] == ".") {
        assert acc + [segs[0]] + Plains(segs[1..]) == acc + ([segs[0]] + Plains(segs[1..]));
      }
    }
  }

  lemma {:induction false} PlainsAppend(a: seq<string>, b: seq<string>)
    ensures Plains(a + b) == Plains(a) + Plains(b)
  {
    if a != [] {
      assert (a + b)[0] == a[0];
      assert (a + b)[1..] == a[1..] + b;
      PlainsAppend(a[1..], b);
    } else {
      assert a + b == b;
    }
  }

  lemma {:induction false} PlainsFrom(segs: seq<string>)
    ensures forall x :: x in Plains(segs) ==> x in segs && x != "" && x != "."
  {
    if segs != [] {
      PlainsFrom(segs[1..]);
    }
  }

  lemma {:induction false} PlainsOfPlain(segs: seq<string>)
    requires forall i :: 0 <= i < |segs| ==> Plain(segs[i])
    ensures Plains(segs) == segs
  {
    if segs != [] {
      PlainsOfPlain(segs[1..]);
    }
  }

  /** A `..` at the bottom of a relative stack is never cancelled. */
  lemma {:induction false} CollapseKeepsLeadingParent(stack: seq<string>, segs: seq<string>)
    requires stack != [] && stack[0] == ".."
    ensures var r := Collapse(stack, segs, true); r != [] && r[0] == ".."
    decreases |segs|
  {
    if segs != [] {
      var s := segs[0];
      var next :=
        if s == "" || s == "." then stack
        else if s == ".." then
          if |stack| > 0 && stack[|stack| - 1] != ".." then stack[..|stack| - 1]
          else stack + [".."]
        else stack + [s];
      CollapseKeepsLeadingParent(next, segs[1..]);
    }
  }

  // ---------------------------------------------------------------------
  // Normalize
  // ---------------------------------------------------------------------

  /** The pieces `Normalize` puts together, for a non-empty path whose stack is not empty. */
  lemma NormalizeParts(p: string)
    requires p != ""
    requires Collapse([], Split(p), p[0] != '/') != []
    ensures var stack := Collapse([], Split(p), p[0] != '/');
            Normalize(p) == (if p[0] == '/' then "/" else "") + Join(stack) + (if p[|p| - 1] == '/' then "/" else "")
  {
  }

  /** The segments of a normalized path with a non-empty stack. */
  lemma SplitOfNormal(stack: seq<string>, absolute: bool, trailing: bool)
    requires stack != [] && NoSlash(stack)
    ensures var n := (if absolute then "/" else "") + Join(stack) + (if trailing then "/" else "");
            Split(n) == (if absolute then [""] else []) + stack + (if trailing then [""] else [])
  {
    var j := Join(stack);
    SplitJoin(stack);
    var tail := j + (if trailing then "/" else "");
    assert Split(tail) == stack + (if trailing then [""] else []) by {
      if trailing {
        SplitSlash(j, "");
        assert j + "/" + "" == tail;
      } else {
        assert tail == j;
      }
    }
    if absolute {
      SplitSlash("", tail);
      assert "" + "/" + tail == (if absolute then "/" else "") + Join(stack) + (if trailing then "/" else "");
    } else {
      assert tail == (if absolute then "/" else "") + Join(stack) + (if trailing then "/" else "");
    }
  }

  /** A path put together from a collapsed stack collapses back to that stack. */
  lemma NormalFormFixed(stack: seq<string>, absolute: bool, trailing: bool)
    requires stack != [] && Collapsed(stack, !absolute)
    ensures var n := (if absolute then "/" else "") + Join(stack) + (if trailing then "/" else "");
            n != "" && (n[0] == '/' <==> absolute) && (n[|n| - 1] == '/' <==> trailing) &&
            Collapse([], Split(n), !absolute) == stack
  {
    var j := Join(stack);
    var n := (if absolute then "/" else "") + j + (if trailing then "/" else "");
    assert stack[0] != "" && '/' !in stack[0];
    JoinFirst(stack);
    assert n != "" && (n[0] == '/' <==> absolute) by {
      assert j != "" && j[0] != '/';
    }
    assert n[|n| - 1] == '/' <==> trailing by {
      if !trailing { JoinLast(stack); }
    }
    CollapseOfNormal(stack, absolute, trailing);
  }

  /** The segments of a normal form collapse back to its stack. */
  lemma CollapseOfNormal(stack: seq<string>, absolute: bool, trailing: bool)
    requires stack != [] && Collapsed(stack, !absolute)
    ensures var n := (if absolute then "/" else "") + Join(stack) + (if trailing then "/" else "");
            Collapse([], Split(n), !absolute) == stack
  {
    assert NoSlash(stack);
    SplitOfNormal(stack, absolute, trailing);
    CollapseFramed(stack, if absolute then [""] else [], if trailing then [""] else [], !absolute);
  }

  /** Empty segments around a collapsed stack collapse away. */
  lemma CollapseFramed(stack: seq<string>, lead: seq<string>, tail: seq<string>, allow: bool)
    requires Collapsed(stack, allow)
    requires lead == [] || lead == [""]
    requires tail == [] || tail == [""]
    ensures Collapse([], lead + stack + tail, allow) == stack
  {
    CollapseAppend([], lead + stack, tail, allow);
    CollapseAppend([], lead, stack, allow);
    assert Collapse([], lead, allow) == [];
    CollapseCanonical([], stack, allow);
    assert [] + stack == stack;
    assert Collapse(stack, tail, allow) == stack;
  }

  /** Normalizing twice is normalizing once. */
  lemma NormalizeIdempotent(p: string)
    ensures Normalize(Normalize(p)) == Normalize(p)
  {
    var n := Normalize(p);
    if p == "" {
      NormalizeDot(n);
    } else {
      var absolute := p[0] == '/';
      var trailing := p[|p| - 1] == '/';
      var stack := Collapse([], Split(p), !absolute);
      if stack == [] {
        if absolute {
          NormalizeRoot(n);
        } else if trailing {
          NormalizeDotSlash(n);
        } else {
          NormalizeDot(n);
        }
      } else {
        NormalizeParts(p);
        NormalFormFixed(stack, absolute, trailing);
        NormalizeParts(n);
      }
    }
  }

  lemma NormalizeRoot(r: string)
    requires r == "/"
    ensures Normalize(r) == r
  {
    SplitSlash("", "");
    assert "" + "/" + "" == r;
    assert Split(r) == ["", ""];
    assert Collapse([], ["", ""], false) == [];
  }

  lemma NormalizeDotSlash(r: string)
    requires r == "./"
    ensures Normalize(r) == r
  {
    SplitSlash(".", "");
    assert "." + "/" + "" == r;
    SplitNoSlash(".");
    assert Split(r) == [".", ""];
    assert Collapse([], [".", ""], true) == [];
  }

  lemma NormalizeDot(r: string)
    requires r == "."
    ensures Normalize(r) == r
  {
    SplitNoSlash(r);
    assert Collapse([], ["."], true) == [];
  }

  /** What `Normalize` reads off a path made of plain segments. */
  lemma PlainFacts(segs: seq<string>, allow: bool)
    requires segs != [] && forall i :: 0 <= i < |segs| ==> Plain(segs[i])
    ensures Join(segs) != "" && Join(segs)[0] != '/' && Join(segs)[|Join(segs)| - 1] != '/'
    ensures Split(Join(segs)) == segs
    ensures Collapse([], segs, allow) == segs
  {
    assert Collapsed(segs, allow);
    SplitJoin(segs);
    JoinFirst(segs);
    JoinLast(segs);
    CollapseCanonical([], segs, allow);
    assert [] + segs == segs;
  }

  /** A relative path made of plain segments is already normal. */
  lemma RelativePlainNormal(segs: seq<string>)
    requires segs != [] && forall i :: 0 <= i < |segs| ==> Plain(segs[i])
    ensures Normalize(Join(segs)) == Join(segs)
  {
    var p := Join(segs);
    PlainFacts(segs, true);
    NormalizeParts(p);
  }

  /** What `Normalize` and `Resolve` read off an absolute path made of plain segments. */
  lemma AbsolutePlainFacts(segs: seq<string>)
    requires segs != [] && forall i :: 0 <= i < |segs| ==> Plain(segs[i])
    ensures var p := "/" + Join(segs);
            p[|p| - 1] != '/' &&
            Collapse([], Split(p), false) == segs &&
            Collapse([], Split(p + "/" + ""), false) == segs
  {
    var p := "/" + Join(segs);
    PlainFacts(segs, false);
    SplitSlash("", Join(segs));
    assert "" + "/" + Join(segs) == p;
    assert Split(p) == [""] + segs;
    assert ([""] + segs)[1..] == segs;
    assert Collapse([], Split(p), false) == segs;
    SplitSlash(p, "");
    assert Split(p + "/" + "") == ([""] + segs) + [""];
    CollapseAppend([], [""] + segs, [""], false);
  }

  /** An absolute path made of plain segments is already normal, and resolves to itself. */
  lemma AbsolutePlainNormal(cwd: string, segs: seq<string>)
    requires IsAbsolute(cwd)
    requires segs != [] && forall i :: 0 <= i < |segs| ==> Plain(segs[i])
    ensures Normalize("/" + Join(segs)) == "/" + Join(segs)
    ensures Resolve(cwd, ["/" + Join(segs)]) == "/" + Join(segs)
    ensures forall base :: Resolve(cwd, [base, "/" + Join(segs)]) == "/" + Join(segs)
  {
    var p := "/" + Join(segs);
    AbsolutePlainFacts(segs);
    NormalizeParts(p);
    assert Gather([p], "") == (p + "/" + "", true);
    forall base ensures Resolve(cwd, [base, p]) == p {
      assert [base, p][1] == p;
      assert Gather([base, p], "") == (p + "/" + "", true);
    }
  }
}
