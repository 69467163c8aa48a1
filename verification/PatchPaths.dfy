/** Patch file paths: the worker's own guard, the resolution of a path in a workspace. */
module PatchPaths {
  import opened Prelude
  import opened JsStrings

  datatype Unsafe = EmptyPath | AbsolutePath | Traversal | HomeReference | GitInternals | NodeModules | EnvFile

  predicate IsSlash(c: char) {
    c == '/' || c == '\\'
  }

  predicate IsLetter(c: char) {
    'a' <= c <= 'z' || 'A' <= c <= 'Z'
  }

  predicate IsAbsolute(p: string) {
    (p != "" && IsSlash(p[0])) || (|p| >= 3 && IsLetter(p[0]) && p[1] == ':' && IsSlash(p[2]))
  }

  predicate HasDotDot(s: string) {
    exists i :: 0 <= i && i + 1 < |s| && s[i] == '.' && s[i + 1] == '.'
  }

  function ToPosix(s: string): (r: string)
    ensures |r| == |s| && forall i | 0 <= i < |s| :: r[i] == if s[i] == '\\' then '/' else s[i]
  {
    if s == "" then "" else [if s[0] == '\\' then '/' else s[0]] + ToPosix(s[1..])
  }

  function Split(s: string): (r: seq<string>)
    ensures |r| > 0
  {
    if s == "" then [""]
    else
      var rest := Split(s[1..]);
      if s[0] == '/' then [""] + rest else [[s[0]] + rest[0]] + rest[1..]
  }

  predicate HasSegment(p: string, segment: string) {
    segment in Split(ToPosix(p))
  }

  function BaseName(p: string): string {
    var segments := Split(ToPosix(p));
    segments[|segments| - 1]
  }

  predicate IsEnvName(base: string) {
    base == ".env" || ".env." <= base
  }

  // The worker's guard, reasons in the order they are tested.
  function UnsafeReason(rel: string): Option<Unsafe> {
    var p := Trim(rel);
    if p == "" then Some(EmptyPath)
    else if IsAbsolute(p) then Some(AbsolutePath)
    else if HasDotDot(p) then Some(Traversal)
    else if '~' in p then Some(HomeReference)
    else if HasSegment(p, ".git") then Some(GitInternals)
    else if HasSegment(p, "node_modules") then Some(NodeModules)
    else if IsEnvName(BaseName(p)) then Some(EnvFile)
    else None
  }

  // path.resolve: empty and `.` segments vanish, `..` pops, a leading slash starts at the top.
  function Walk(stack: seq<string>, segments: seq<string>): seq<string>
    decreases |segments|
  {
    if segments == [] then stack
    else if segments[0] == "" || segments[0] == "." then Walk(stack, segments[1..])
    else if segments[0] == ".." then Walk(if stack == [] then [] else stack[..|stack| - 1], segments[1..])
    else Walk(stack + [segments[0]], segments[1..])
  }

  function Resolve(root: seq<string>, p: string): seq<string> {
    Walk(if p != "" && p[0] == '/' then [] else root, Split(p))
  }

  predicate Inside(root: seq<string>, target: seq<string>) {
    root <= target
  }

  // The path of a file relative to the workspace.
  function Key(p: string): seq<string> {
    Walk([], Split(p))
  }

  // A path written as the repository names the file: no empty or `.` segment.
  predicate Clean(p: string) {
    Split(p) == Key(p)
  }

  lemma {:induction false} SegmentDots(s: string, k: nat)
    requires k < |Split(s)| && HasDotDot(Split(s)[k])
    ensures HasDotDot(s)
  {
    if s != "" {
      var rest := Split(s[1..]);
      if s[0] == '/' || k > 0 {
        var tail := if s[0] == '/' then k - 1 else k;
        assert s[0] == '/' ==> k > 0;
        assert Split(s)[k] == rest[tail];
        SegmentDots(s[1..], tail);
        var i :| 0 <= i && i + 1 < |s[1..]| && s[1..][i] == '.' && s[1..][i + 1] == '.';
        assert s[i + 1] == '.' && s[(i + 1) + 1] == '.';
      } else {
        var seg := Split(s)[0];
        var i :| 0 <= i && i + 1 < |seg| && seg[i] == '.' && seg[i + 1] == '.';
        if i == 0 {
          FirstChar(s[1..]);
          assert s[0] == '.' && s[0 + 1] == '.';
        } else {
          assert rest[0][i - 1] == '.' && rest[0][(i - 1) + 1] == '.';
          SegmentDots(s[1..], 0);
          var j :| 0 <= j && j + 1 < |s[1..]| && s[1..][j] == '.' && s[1..][j + 1] == '.';
          assert s[j + 1] == '.' && s[(j + 1) + 1] == '.';
        }
      }
    }
  }

  lemma FirstChar(s: string)
    ensures Split(s)[0] != "" ==> s != "" && s[0] == Split(s)[0][0]
  {
  }

  lemma {:induction false} WalkFrom(root: seq<string>, stack: seq<string>, segments: seq<string>)
    requires ".." !in segments
    ensures Walk(root + stack, segments) == root + Walk(stack, segments)
    decreases |segments|
  {
    if segments != [] {
      if segments[0] == "" || segments[0] == "." {
        WalkFrom(root, stack, segments[1..]);
      } else {
        assert (root + stack) + [segments[0]] == root + (stack + [segments[0]]);
        WalkFrom(root, stack + [segments[0]], segments[1..]);
      }
    }
  }

  lemma {:induction false} TrimKeepsFront(s: string)
    requires s != "" && !IsSpace(s[0])
    ensures Trim(s) != "" && Trim(s)[0] == s[0]
  {
    TrimEndAfter([s[0]], s[1..]);
    assert [s[0]] + s[1..] == s;
  }

  lemma DotsBetween(a: string, b: string)
    ensures HasDotDot((a + "..") + b)
  {
    var s := (a + "..") + b;
    assert s[|a|] == '.' && s[|a| + 1] == '.';
  }

  lemma TrimAroundDots(a: string, b: string)
    ensures HasDotDot(Trim(a + (".." + b)))
  {
    TrimStartBefore(a, ".." + b);
    var front := TrimStart(a) + "..";
    assert TrimStart(a) + (".." + b) == front + b;
    TrimEndAfter(front, b);
    DotsBetween(TrimStart(a), TrimEnd(b));
  }

  lemma TrimKeepsDots(s: string)
    requires HasDotDot(s)
    ensures HasDotDot(Trim(s))
  {
    var i :| 0 <= i && i + 1 < |s| && s[i] == '.' && s[i + 1] == '.';
    TrimAroundDots(s[..i], s[i + 2..]);
    assert s == s[..i] + (".." + s[i + 2..]);
  }

  /** A path the guard lets through resolves to its own place under the workspace root. */
  lemma SafePathsStayInside(root: seq<string>, p: string)
    requires UnsafeReason(p) == None
    ensures Resolve(root, p) == root + Key(p) && root <= Resolve(root, p) && Inside(root, Resolve(root, p))
  {
    assert p != "" by { assert p == "" ==> Trim(p) == ""; }
    assert p[0] != '/' by { if p[0] == '/' { TrimKeepsFront(p); } }
    assert ".." !in Split(p) by {
      if ".." in Split(p) {
        var k :| 0 <= k < |Split(p)| && Split(p)[k] == "..";
        assert Split(p)[k][0] == '.' && Split(p)[k][0 + 1] == '.';
        SegmentDots(p, k);
        TrimKeepsDots(p);
      }
    }
    WalkFrom(root, [], Split(p));
    assert root + [] == root;
  }

  ghost predicate Names(segment: string) {
    segment != "" && segment != "." && segment != ".."
  }

  lemma {:induction false} WalkKeepsNames(stack: seq<string>, segments: seq<string>)
    ensures |Walk(stack, segments)| <= |stack| + |segments|
    ensures if forall s <- segments :: Names(s) then Walk(stack, segments) == stack + segments
            else |Walk(stack, segments)| < |stack| + |segments|
    decreases |segments|
  {
    if segments != [] {
      var s, rest := segments[0], segments[1..];
      assert segments == [s] + rest;
      if Names(s) {
        WalkKeepsNames(stack + [s], rest);
        assert (stack + [s]) + rest == stack + segments;
      } else if s == ".." && stack != [] {
        WalkKeepsNames(stack[..|stack| - 1], rest);
      } else {
        WalkKeepsNames(stack, rest);
      }
    }
  }

  /** A path is written as the repository names its file iff every segment is a name: none empty, `.` or `..`. */
  lemma CleanIff(p: string)
    ensures Clean(p) <==> forall s <- Split(p) :: Names(s)
  {
    WalkKeepsNames([], Split(p));
    assert [] + Split(p) == Split(p);
  }

  // `..` takes back the name before it, and stops at the top.
  lemma DotDotTakesBack(stack: seq<string>, name: string, rest: seq<string>)
    requires Names(name)
    ensures Walk(stack, [name] + ([".."] + rest)) == Walk(stack, rest)
    ensures Walk([], [".."] + rest) == Walk([], rest)
  {
    assert ([".."] + rest)[1..] == rest && ([name] + ([".."] + rest))[1..] == [".."] + rest;
    assert (stack + [name])[..|stack + [name]| - 1] == stack;
  }

  lemma {:induction false} OneSegment(s: string)
    requires '/' !in s
    ensures Split(s) == [s]
  {
    if s != "" {
      OneSegment(s[1..]);
      assert [s[0]] + s[1..] == s;
    }
  }

  /** What the guard prevents: from any workspace but the root of the disk, `..` leads out of it. */
  lemma DotDotLeaves(root: seq<string>)
    requires root != []
    ensures Resolve(root, "..") == root[..|root| - 1] && !(root <= Resolve(root, ".."))
  {
    OneSegment("..");
    assert [".."][1..] == [];
    assert Walk(root, [".."]) == Walk(root[..|root| - 1], []);
  }

  // ---- The guard, said of the characters of a path ----

  // `segment` stands at `i` between slashes of either kind, or the ends of the path.
  ghost predicate SegmentAt(p: string, segment: string, i: nat) {
    && i + |segment| <= |p| && p[i..i + |segment|] == segment
    && (i == 0 || IsSlash(p[i - 1])) && (i + |segment| == |p| || IsSlash(p[i + |segment|]))
  }

  ghost predicate HoldsSegment(p: string, segment: string) {
    exists i :: SegmentAt(p, segment, i)
  }

  // The part of the path after its last slash begins at `i`.
  ghost predicate LastFrom(p: string, i: nat) {
    i <= |p| && (i == 0 || IsSlash(p[i - 1])) && forall j :: i <= j < |p| ==> !IsSlash(p[j])
  }

  // The same between forward slashes only.
  ghost predicate PosixAt(s: string, segment: string, i: nat) {
    && i + |segment| <= |s| && s[i..i + |segment|] == segment
    && (i == 0 || s[i - 1] == '/') && (i + |segment| == |s| || s[i + |segment|] == '/')
  }

  lemma PosixAtTail(s: string, segment: string, i: nat)
    requires s != ""
    ensures i > 0 && s[0] != '/' && PosixAt(s, segment, i) ==> i > 1
    ensures i > 0 && (i > 1 || s[0] == '/') ==> (PosixAt(s, segment, i) <==> PosixAt(s[1..], segment, i - 1))
  {
    if i > 0 && i + |segment| <= |s| { assert s[1..][i - 1..i - 1 + |segment|] == s[i..i + |segment|]; }
  }

  lemma {:induction false} FirstSegment(s: string, segment: string)
    requires '/' !in segment
    ensures Split(s)[0] == segment <==> PosixAt(s, segment, 0)
  {
    if s != "" {
      if s[0] == '/' {
        assert segment != "" ==> segment[0] != '/';
      } else {
        if segment != "" {
          assert forall c <- segment[1..] :: c in segment;
          FirstSegment(s[1..], segment[1..]);
          assert Split(s)[0][1..] == Split(s[1..])[0];
          assert |segment| <= |s| ==> s[..|segment|][1..] == s[1..][..|segment| - 1];
          assert segment == [segment[0]] + segment[1..];
          assert |segment| <= |s| ==> s[..|segment|] == [s[0]] + s[..|segment|][1..];
        }
      }
    }
  }

  lemma {:induction false} LaterSegmentStands(s: string, segment: string, k: nat) returns (i: nat)
    requires '/' !in segment && 0 < k < |Split(s)| && Split(s)[k] == segment
    ensures i > 0 && PosixAt(s, segment, i)
  {
    var r := if s[0] == '/' then k - 1 else k;
    assert Split(s[1..])[r] == segment;
    i := 1;
    if r == 0 {
      FirstSegment(s[1..], segment);
    } else {
      i := LaterSegmentStands(s[1..], segment, r);
      i := i + 1;
    }
    PosixAtTail(s, segment, i);
  }

  lemma {:induction false} StandsAsLaterSegment(s: string, segment: string, i: nat) returns (k: nat)
    requires '/' !in segment && i > 0 && PosixAt(s, segment, i)
    ensures 0 < k < |Split(s)| && Split(s)[k] == segment
  {
    PosixAtTail(s, segment, i);
    k := 1;
    if i == 1 {
      FirstSegment(s[1..], segment);
    } else {
      var r := StandsAsLaterSegment(s[1..], segment, i - 1);
      k := if s[0] == '/' then r + 1 else r;
    }
  }

  lemma PosixAtIsSegmentAt(p: string, segment: string, i: nat)
    requires forall c <- segment :: !IsSlash(c)
    ensures PosixAt(ToPosix(p), segment, i) <==> SegmentAt(p, segment, i)
  {
    var q := ToPosix(p);
    if i + |segment| <= |p| {
      if q[i..i + |segment|] == segment {
        forall j | 0 <= j < |segment| ensures p[i + j] == segment[j] {
          assert q[i..i + |segment|][j] == segment[j] && segment[j] in segment;
        }
        assert p[i..i + |segment|] == segment;
      }
      if p[i..i + |segment|] == segment {
        forall j | 0 <= j < |segment| ensures q[i + j] == segment[j] {
          assert p[i..i + |segment|][j] == segment[j] && segment[j] in segment;
        }
        assert q[i..i + |segment|] == segment;
      }
    }
  }

  /** A path has a segment iff it stands somewhere in it between slashes of either kind or the ends. */
  lemma SegmentsStandBetweenSlashes(p: string, segment: string)
    requires forall c <- segment :: !IsSlash(c)
    ensures HasSegment(p, segment) <==> HoldsSegment(p, segment)
  {
    var q := ToPosix(p);
    FirstSegment(q, segment);
    if HasSegment(p, segment) {
      var k: nat :| k < |Split(q)| && Split(q)[k] == segment;
      var i := 0;
      if k > 0 { i := LaterSegmentStands(q, segment, k); }
      PosixAtIsSegmentAt(p, segment, i);
    }
    if i :| SegmentAt(p, segment, i) {
      PosixAtIsSegmentAt(p, segment, i);
      if i > 0 { var k := StandsAsLaterSegment(q, segment, i); }
    }
  }

  lemma {:induction false} LastSegment(s: string) returns (i: nat)
    ensures i <= |s| && Split(s)[|Split(s)| - 1] == s[i..] && (i == 0 || s[i - 1] == '/') && '/' !in s[i..]
    ensures i == 0 <==> |Split(s)| == 1
  {
    i := 0;
    if s != "" {
      var rest := LastSegment(s[1..]);
      if s[0] != '/' && rest == 0 {
        assert s == [s[0]] + s[1..] && s[1..][0..] == s[1..];
      } else {
        i := rest + 1;
        assert s[1..][rest..] == s[i..];
      }
    }
  }

  lemma SameTail(a: string, b: string, i: nat)
    requires i <= |a| == |b| && forall j :: i <= j < |a| ==> a[j] == b[j]
    ensures a[i..] == b[i..]
  {
  }

  /** The base name is what follows the last slash of either kind. */
  lemma BaseNameIsLast(p: string) returns (i: nat)
    ensures LastFrom(p, i) && BaseName(p) == p[i..]
  {
    var q := ToPosix(p);
    i := LastSegment(q);
    forall j | i <= j < |p| ensures !IsSlash(p[j]) && q[j] == p[j] {
      assert q[j] == q[i..][j - i] && q[i..][j - i] in q[i..];
    }
    SameTail(q, p, i);
  }

  // What each refusal means for the trimmed path.
  ghost predicate Offends(p: string, why: Unsafe) {
    match why
    case EmptyPath => p == ""
    case AbsolutePath => p != "" && (p[0] == '/' || p[0] == '\\' || (|p| >= 3 && ('a' <= p[0] <= 'z' || 'A' <= p[0] <= 'Z') && p[1] == ':' && (p[2] == '/' || p[2] == '\\')))
    case Traversal => exists i :: 0 <= i && i + 1 < |p| && p[i] == '.' && p[i + 1] == '.'
    case HomeReference => '~' in p
    case GitInternals => HoldsSegment(p, ".git")
    case NodeModules => HoldsSegment(p, "node_modules")
    case EnvFile => exists i: nat :: LastFrom(p, i) && (p[i..] == ".env" || (|p| >= i + 5 && p[i..i + 5] == ".env."))
  }

  function Turn(why: Unsafe): nat {
    match why
    case EmptyPath => 0 case AbsolutePath => 1 case Traversal => 2 case HomeReference => 3
    case GitInternals => 4 case NodeModules => 5 case EnvFile => 6
  }

  lemma LastNotAfter(p: string, i: nat, j: nat)
    requires LastFrom(p, i) && LastFrom(p, j)
    ensures i <= j
  {
  }

  lemma EnvNames(p: string)
    ensures IsEnvName(BaseName(p)) <==> Offends(p, EnvFile)
  {
    var i := BaseNameIsLast(p);
    forall j: nat | LastFrom(p, j) ensures j == i {
      LastNotAfter(p, i, j);
      LastNotAfter(p, j, i);
    }
    assert ".env." <= p[i..] <==> |p| >= i + 5 && p[i..i + 5] == ".env." by {
      if |p| >= i + 5 { assert p[i..][..5] == p[i..i + 5]; }
    }
  }

  // The first refusal that holds, in the order in which they are asked.
  ghost predicate FirstOf(holds: Unsafe -> bool, why: Option<Unsafe>) {
    match why
    case None => forall x :: !holds(x)
    case Some(x) => holds(x) && forall earlier :: Turn(earlier) < Turn(x) ==> !holds(earlier)
  }

  lemma FirstInTurn(holds: Unsafe -> bool)
    ensures FirstOf(holds,
              if holds(EmptyPath) then Some(EmptyPath) else if holds(AbsolutePath) then Some(AbsolutePath)
              else if holds(Traversal) then Some(Traversal) else if holds(HomeReference) then Some(HomeReference)
              else if holds(GitInternals) then Some(GitInternals) else if holds(NodeModules) then Some(NodeModules)
              else if holds(EnvFile) then Some(EnvFile) else None)
  {
    if !(holds(EmptyPath) || holds(AbsolutePath) || holds(Traversal) || holds(HomeReference) || holds(GitInternals) || holds(NodeModules) || holds(EnvFile)) {
      forall x ensures !holds(x) {
        match x
        case EmptyPath => case AbsolutePath => case Traversal => case HomeReference =>
        case GitInternals => case NodeModules => case EnvFile =>
      }
    }
  }

  /** The guard refuses a path with the first reason, in the order it asks, that holds of the trimmed path; else it lets it through. */
  lemma GuardRefusesIff(rel: string)
    ensures FirstOf(why => Offends(Trim(rel), why), UnsafeReason(rel))
  {
    var p := Trim(rel);
    SegmentsStandBetweenSlashes(p, ".git");
    SegmentsStandBetweenSlashes(p, "node_modules");
    EnvNames(p);
    assert IsAbsolute(p) <==> Offends(p, AbsolutePath);
    assert HasDotDot(p) <==> Offends(p, Traversal);
    FirstInTurn(why => Offends(p, why));
  }

  lemma ClearsIff(rel: string)
    ensures UnsafeReason(rel) == None <==> forall why :: !Offends(Trim(rel), why)
  {
    GuardRefusesIff(rel);
    var holds := why => Offends(Trim(rel), why);
    assert forall why :: holds(why) <==> Offends(Trim(rel), why);
  }
}
