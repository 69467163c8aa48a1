/** Patch validation: which rules a file breaks, when a patch passes, and what passing guarantees. */
module PatchValidator {
  import opened Prelude
  import opened JsStrings
  import opened PatchPaths
  import B = PatchBranch
  import A = PatchApplier

  datatype Violation =
    | AbsolutePathUsed | PathTraversal | HomeUsed | InsideGit | InsideNodeModules | EnvFileTouched
    | PackageLockTouched | ProductionDeploy | DeleteNeedsRole | ContentRequired | DestructiveMigration | SecretInPatch

  // The pattern-based checks are parameters; `deploys` sees the POSIX path and the content.
  datatype Rules = Rules(
    redact: string -> string,
    moreSecrets: string -> bool,
    deploys: (string, string) -> bool,
    destructive: string -> bool,
    commandAllowed: string -> bool,
    canDelete: bool,
    packageLockApproved: bool)

  predicate ContainsSecret(r: Rules, text: string) {
    text != "" && (r.redact(text) != text || r.moreSecrets(text))
  }

  predicate Breaks(r: Rules, f: B.FileSpec, v: Violation) {
    var path, content := Trim(f.path), B.Content(f);
    match v
    case AbsolutePathUsed => IsAbsolute(path)
    case PathTraversal => HasDotDot(path)
    case HomeUsed => '~' in path
    case InsideGit => HasSegment(path, ".git")
    case InsideNodeModules => HasSegment(path, "node_modules")
    case EnvFileTouched => IsEnvName(BaseName(path))
    case PackageLockTouched => BaseName(path) == "package-lock.json" && !r.packageLockApproved
    case ProductionDeploy => r.deploys(ToPosix(path), content)
    case DeleteNeedsRole => f.action == B.Delete && !r.canDelete
    case ContentRequired => f.action != B.Delete && Trim(content) == ""
    case DestructiveMigration => r.destructive(content)
    case SecretInPatch => ContainsSecret(r, content) || ContainsSecret(r, f.reason)
  }

  // The order in which the rules are tested.
  const RULE_ORDER := [
    AbsolutePathUsed, PathTraversal, HomeUsed, InsideGit, InsideNodeModules, EnvFileTouched,
    PackageLockTouched, ProductionDeploy, DeleteNeedsRole, ContentRequired, DestructiveMigration, SecretInPatch]

  function BrokenBy(r: Rules, f: B.FileSpec): Violation -> bool {
    v => Breaks(r, f, v)
  }

  // The broken ones among the first `n` rules, in order.
  function Select(broken: Violation -> bool, n: nat): seq<Violation>
    requires n <= |RULE_ORDER|
  {
    if n == 0 then []
    else Select(broken, n - 1) + if broken(RULE_ORDER[n - 1]) then [RULE_ORDER[n - 1]] else []
  }

  function FileErrors(r: Rules, f: B.FileSpec): seq<Violation> {
    Select(BrokenBy(r, f), |RULE_ORDER|)
  }

  function Rank(v: Violation): nat {
    match v
    case AbsolutePathUsed => 0 case PathTraversal => 1 case HomeUsed => 2 case InsideGit => 3
    case InsideNodeModules => 4 case EnvFileTouched => 5 case PackageLockTouched => 6 case ProductionDeploy => 7
    case DeleteNeedsRole => 8 case ContentRequired => 9 case DestructiveMigration => 10 case SecretInPatch => 11
  }

  lemma RankIsIndex(k: nat, v: Violation)
    requires k < |RULE_ORDER|
    ensures Rank(RULE_ORDER[k]) == k && RULE_ORDER[Rank(v)] == v
  {
  }

  lemma {:induction false} Selected(broken: Violation -> bool, n: nat, v: Violation)
    requires n <= |RULE_ORDER|
    ensures v in Select(broken, n) <==> Rank(v) < n && broken(v)
  {
    if n > 0 {
      Selected(broken, n - 1, v);
      RankIsIndex(n - 1, v);
    }
  }

  /** The errors of a file are exactly the rules it breaks. */
  lemma FileErrorsAreBrokenRules(r: Rules, f: B.FileSpec)
    ensures forall v :: v in FileErrors(r, f) <==> Breaks(r, f, v)
  {
    forall v ensures v in FileErrors(r, f) <==> BrokenBy(r, f)(v) { Selected(BrokenBy(r, f), |RULE_ORDER|, v); }
  }

  // What each rule forbids, said of the characters of the trimmed path, the action and the content.
  ghost predicate Forbidden(r: Rules, f: B.FileSpec, v: Violation) {
    var path, content := Trim(f.path), if f.content.Some? then f.content.value else "";
    match v
    case AbsolutePathUsed => Offends(path, AbsolutePath)
    case PathTraversal => Offends(path, Traversal)
    case HomeUsed => '~' in path
    case InsideGit => HoldsSegment(path, ".git")
    case InsideNodeModules => HoldsSegment(path, "node_modules")
    case EnvFileTouched => Offends(path, EnvFile)
    case PackageLockTouched => !r.packageLockApproved && exists i: nat :: LastFrom(path, i) && path[i..] == "package-lock.json"
    case ProductionDeploy => r.deploys(ToPosix(path), content)
    case DeleteNeedsRole => f.action == B.Delete && !r.canDelete
    case ContentRequired => (f.action == B.Create || f.action == B.Modify) && AllSpace(content)
    case DestructiveMigration => r.destructive(content)
    case SecretInPatch => (content != "" && (r.redact(content) != content || r.moreSecrets(content)))
                          || (f.reason != "" && (r.redact(f.reason) != f.reason || r.moreSecrets(f.reason)))
  }

  lemma PackageLockNames(p: string)
    ensures BaseName(p) == "package-lock.json" <==> exists i: nat :: LastFrom(p, i) && p[i..] == "package-lock.json"
  {
    var i := BaseNameIsLast(p);
    forall j: nat | LastFrom(p, j) ensures j == i {
      LastNotAfter(p, i, j);
      LastNotAfter(p, j, i);
    }
  }

  lemma BlankTrims(s: string)
    ensures Trim(s) == "" <==> AllSpace(s)
  {
    var lo, hi := TrimIs(s);
    if Trim(s) == "" {
      assert s == s[..lo] + s[hi..];
    } else {
      assert s[lo] in s;
    }
  }

  lemma BreaksIsForbidden(r: Rules, f: B.FileSpec, v: Violation)
    ensures Breaks(r, f, v) <==> Forbidden(r, f, v)
  {
    var path := Trim(f.path);
    match v
    case InsideGit => SegmentsStandBetweenSlashes(path, ".git");
    case InsideNodeModules => SegmentsStandBetweenSlashes(path, "node_modules");
    case EnvFileTouched => EnvNames(path);
    case PackageLockTouched => PackageLockNames(path);
    case ContentRequired => BlankTrims(B.Content(f));
    case _ =>
  }

  lemma {:induction false} SelectedInOrder(broken: Violation -> bool, n: nat)
    requires n <= |RULE_ORDER|
    ensures forall i, j :: 0 <= i < j < |Select(broken, n)| ==> Rank(Select(broken, n)[i]) < Rank(Select(broken, n)[j])
  {
    if n > 0 {
      SelectedInOrder(broken, n - 1);
      RankIsIndex(n - 1, RULE_ORDER[n - 1]);
      forall v | v in Select(broken, n - 1) ensures Rank(v) < n - 1 { Selected(broken, n - 1, v); }
    }
  }

  datatype Finding = Finding(path: string, action: B.Action, errors: seq<Violation>)
  datatype Error = FileError(path: string, violation: Violation) | CommandNotAllowed(command: string)
  datatype Validation = Validation(ok: bool, errors: seq<Error>, findings: seq<Finding>)

  function Labelled(path: string, errors: seq<Violation>): (r: seq<Error>)
    ensures |r| == |errors| && forall i | 0 <= i < |r| :: r[i] == FileError(path, errors[i])
  {
    seq(|errors|, i requires 0 <= i < |errors| => FileError(path, errors[i]))
  }

  ghost predicate Clears(r: Rules, files: seq<B.FileSpec>, commands: seq<string>) {
    (forall f <- files, v :: !Breaks(r, f, v)) && (forall c <- commands :: r.commandAllowed(c))
  }

  // The error list says which file broke which rule and which command is unknown, and nothing else.
  ghost predicate Reports(r: Rules, files: seq<B.FileSpec>, commands: seq<string>, errors: seq<Error>) {
    && (forall f <- files, v | Breaks(r, f, v) :: FileError(Trim(f.path), v) in errors)
    && (forall c <- commands | !r.commandAllowed(c) :: CommandNotAllowed(c) in errors)
    && (forall e <- errors ::
          match e
          case FileError(path, v) => exists f <- files :: Trim(f.path) == path && Breaks(r, f, v)
          case CommandNotAllowed(c) => c in commands && !r.commandAllowed(c))
  }

  lemma ReportFile(r: Rules, files: seq<B.FileSpec>, f: B.FileSpec, errors: seq<Error>, own: seq<Violation>)
    requires Reports(r, files, [], errors) && forall v :: v in own <==> Breaks(r, f, v)
    ensures Reports(r, files + [f], [], errors + Labelled(Trim(f.path), own))
  {
    var more := Labelled(Trim(f.path), own);
    forall v | Breaks(r, f, v) ensures FileError(Trim(f.path), v) in more {
      var i :| 0 <= i < |own| && own[i] == v;
      assert more[i] == FileError(Trim(f.path), v);
    }
    assert f in files + [f];
    assert forall x <- files :: x in files + [f];
    forall e <- more ensures e.FileError? && e.path == Trim(f.path) && Breaks(r, f, e.violation) {
      var i :| 0 <= i < |more| && more[i] == e;
      assert own[i] in own;
    }
  }

  lemma ReportCommand(r: Rules, files: seq<B.FileSpec>, commands: seq<string>, c: string, errors: seq<Error>)
    requires Reports(r, files, commands, errors)
    ensures Reports(r, files, commands + [c], errors + if r.commandAllowed(c) then [] else [CommandNotAllowed(c)])
  {
    assert forall x :: x in commands + [c] <==> x in commands || x == c;
  }

  lemma NothingToReport(r: Rules, files: seq<B.FileSpec>, commands: seq<string>, errors: seq<Error>)
    requires Reports(r, files, commands, errors)
    ensures errors == [] <==> Clears(r, files, commands)
  {
    if errors != [] {
      assert errors[0] in errors;
    }
  }

  // The rules that a file breaks, each once, in the order they are checked.
  ghost predicate NamesTheBroken(r: Rules, f: B.FileSpec, errors: seq<Violation>) {
    && (forall v :: v in errors <==> Forbidden(r, f, v))
    && forall i, j :: 0 <= i < j < |errors| ==> Rank(errors[i]) < Rank(errors[j])
  }

  method ValidateFile(r: Rules, f: B.FileSpec) returns (errors: seq<Violation>)
    ensures errors == FileErrors(r, f)
    ensures forall v :: v in errors <==> Breaks(r, f, v)
    ensures NamesTheBroken(r, f, errors)
  {
    errors := [];
    for i := 0 to |RULE_ORDER|
      invariant errors == Select(BrokenBy(r, f), i)
    {
      if BrokenBy(r, f)(RULE_ORDER[i]) { errors := errors + [RULE_ORDER[i]]; }
    }
    FileErrorsAreBrokenRules(r, f);
    forall v ensures Breaks(r, f, v) <==> Forbidden(r, f, v) { BreaksIsForbidden(r, f, v); }
    SelectedInOrder(BrokenBy(r, f), |RULE_ORDER|);
  }

  method ValidateFiles(r: Rules, files: seq<B.FileSpec>) returns (errors: seq<Error>, findings: seq<Finding>)
    ensures Reports(r, files, [], errors)
    ensures |findings| == |files|
    ensures forall i | 0 <= i < |files| :: findings[i] == Finding(files[i].path, files[i].action, FileErrors(r, files[i]))
  {
    errors, findings := [], [];
    for i := 0 to |files|
      invariant Reports(r, files[..i], [], errors)
      invariant |findings| == i
      invariant forall k | 0 <= k < i :: findings[k] == Finding(files[k].path, files[k].action, FileErrors(r, files[k]))
    {
      var fileErrors := ValidateFile(r, files[i]);
      ReportFile(r, files[..i], files[i], errors, fileErrors);
      assert files[..i] + [files[i]] == files[..i + 1];
      errors := errors + Labelled(Trim(files[i].path), fileErrors);
      findings := findings + [Finding(files[i].path, files[i].action, fileErrors)];
    }
    assert files[..|files|] == files;
  }

  method CheckCommands(r: Rules, files: seq<B.FileSpec>, commands: seq<string>, fileErrors: seq<Error>)
    returns (errors: seq<Error>)
    requires Reports(r, files, [], fileErrors)
    ensures Reports(r, files, commands, errors)
  {
    errors := fileErrors;
    for i := 0 to |commands|
      invariant Reports(r, files, commands[..i], errors)
    {
      ReportCommand(r, files, commands[..i], commands[i], errors);
      assert commands[..i] + [commands[i]] == commands[..i + 1];
      errors := errors + if r.commandAllowed(commands[i]) then [] else [CommandNotAllowed(commands[i])];
    }
    assert commands[..|commands|] == commands;
  }

  /** A patch passes iff no file breaks a rule and every command is known; the errors say what was broken. */
  method ValidatePatch(r: Rules, files: seq<B.FileSpec>, commands: seq<string>) returns (result: Validation)
    ensures result.ok <==> Clears(r, files, commands)
    ensures result.ok <==> (forall f <- files, v :: !Forbidden(r, f, v)) && forall c <- commands :: r.commandAllowed(c)
    ensures Reports(r, files, commands, result.errors)
    ensures |result.findings| == |files|
    ensures forall i | 0 <= i < |files| :: result.findings[i] == Finding(files[i].path, files[i].action, FileErrors(r, files[i]))
  {
    var fileErrors, findings := ValidateFiles(r, files);
    var errors := CheckCommands(r, files, commands, fileErrors);
    NothingToReport(r, files, commands, errors);
    forall f <- files, v ensures Breaks(r, f, v) <==> Forbidden(r, f, v) { BreaksIsForbidden(r, f, v); }
    return Validation(errors == [], errors, findings);
  }

  // ---- What passing guarantees downstream ----

  /** Redaction changes nothing in a file that passed, so what is stored is what was reviewed. */
  lemma PassedContentIsStoredVerbatim(r: Rules, files: seq<B.FileSpec>, commands: seq<string>,
                                      f: B.FileSpec, baseHash: string -> Option<A.Digest>)
    requires Clears(r, files, commands) && f in files
    ensures f.action == B.Delete <==> B.Stored(f, r.redact, baseHash).newContent == None
    ensures f.action != B.Delete ==> B.Content(f) != "" && B.Stored(f, r.redact, baseHash).newContent == Some(B.Content(f))
  {
    assert !Breaks(r, f, SecretInPatch) && !Breaks(r, f, ContentRequired);
    assert Trim("") == "";
  }

  /** The worker's own path guard refuses a validated path only when it is blank. */
  lemma PassedPathsAreSafeUnlessBlank(r: Rules, files: seq<B.FileSpec>, commands: seq<string>, f: B.FileSpec)
    requires Clears(r, files, commands) && f in files
    ensures UnsafeReason(f.path) == if Trim(f.path) == "" then Some(EmptyPath) else None
  {
    assert !Breaks(r, f, AbsolutePathUsed) && !Breaks(r, f, PathTraversal) && !Breaks(r, f, HomeUsed);
    assert !Breaks(r, f, InsideGit) && !Breaks(r, f, InsideNodeModules) && !Breaks(r, f, EnvFileTouched);
  }

  /** A file named by a blank passes validation and is then refused by the worker. */
  lemma BlankPathPassesValidation(r: Rules)
    requires r.redact("x") == "x" && !r.moreSecrets("x") && !r.destructive("x") && !r.deploys("", "x")
    ensures var f := B.FileSpec(" ", B.Create, Some("x"), "");
            Clears(r, [f], []) && UnsafeReason(f.path) == Some(EmptyPath)
  {
    var f := B.FileSpec(" ", B.Create, Some("x"), "");
    assert Trim(" ") == "" by { assert " "[1..] == ""; assert TrimStart("") == ""; }
    assert Trim("x") == "x";
    assert ToPosix("") == "" && Split("") == [""];
  }
}
