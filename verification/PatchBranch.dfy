/**
 * The second application of a patch: file by file to a fresh branch, each write
 * carrying the blob digest that the base branch has. Compared with the sandbox.
 */
module PatchBranch {
  import opened Prelude
  import opened PatchPaths
  import A = PatchApplier
  import L = LineEndings

  type Blob = nat

  datatype Action = Create | Modify | Delete
  datatype FileSpec = FileSpec(path: string, action: Action, content: Option<string>, reason: string)

  // `blobOf` is the digest the host checks a write against; `sha` the one that is reported.
  datatype Host = Host(blobOf: string -> Blob, sha: string -> A.Digest)

  datatype BranchError = AlreadyExists | DoesNotExist | StaleWrite
  datatype AppliedFile = AppliedFile(path: string, action: Action, oldHash: Option<A.Digest>, newHash: Option<A.Digest>)

  function Content(f: FileSpec): string {
    if f.content.Some? then f.content.value else ""
  }

  // ---- Storing a patch set ----

  function ChangeOf(action: Action): A.ChangeType {
    match action
    case Create => A.Create
    case Modify => A.Modify
    case Delete => A.Delete
  }

  // `baseHash` answers None when the base file could not be hashed.
  function Stored(f: FileSpec, redact: string -> string, baseHash: string -> Option<A.Digest>): A.Row {
    A.Row(f.path, ChangeOf(f.action), if f.action == Create then None else baseHash(f.path),
          if f.action == Delete then None else Some(redact(Content(f))))
  }

  function StoredRows(specs: seq<FileSpec>, redact: string -> string, baseHash: string -> Option<A.Digest>)
    : (rows: seq<A.Row>)
    ensures |rows| == |specs| && forall i | 0 <= i < |specs| :: rows[i] == Stored(specs[i], redact, baseHash)
  {
    seq(|specs|, i requires 0 <= i < |specs| => Stored(specs[i], redact, baseHash))
  }

  // A stored row keeps path and action, the redacted content, and the hash of the base file it changes.
  ghost predicate StoredAs(f: FileSpec, redact: string -> string, baseHash: string -> Option<A.Digest>, row: A.Row) {
    && row.path == f.path
    && (f.action == Create ==> row.change == A.Create && row.oldHash == None)
    && (f.action == Modify ==> row.change == A.Modify && row.oldHash == baseHash(f.path))
    && (f.action == Delete ==> row.change == A.Delete && row.oldHash == baseHash(f.path) && row.newContent == None)
    && (f.action != Delete ==> row.newContent == Some(redact(if f.content.Some? then f.content.value else "")))
  }

  // ---- The branch ----

  // The host accepts a write with a digest only over exactly that content, one without only over nothing.
  predicate HostAccepts(h: Host, branch: A.Tree, path: string, expected: Option<Blob>) {
    if expected == None then Split(path) !in branch
    else Split(path) in branch && h.blobOf(branch[Split(path)]) == expected.value
  }

  function Rejection(h: Host, base: A.Tree, branch: A.Tree, f: FileSpec): Option<BranchError> {
    var key := Split(f.path);
    if f.action == Create && key in base then Some(AlreadyExists)
    else if f.action != Create && key !in base then Some(DoesNotExist)
    else if HostAccepts(h, branch, f.path, if key in base then Some(h.blobOf(base[key])) else None) then None
    else Some(StaleWrite)
  }

  function Put(branch: A.Tree, f: FileSpec): A.Tree {
    if f.action == Delete then branch - {Split(f.path)} else branch[Split(f.path) := Content(f)]
  }

  function Record(h: Host, base: A.Tree, f: FileSpec): AppliedFile {
    AppliedFile(f.path, f.action,
                if Split(f.path) in base && f.action != Create then Some(h.sha(base[Split(f.path)])) else None,
                if f.action == Delete then None else Some(h.sha(Content(f))))
  }

  function Records(h: Host, base: A.Tree, specs: seq<FileSpec>, n: nat): (r: seq<AppliedFile>)
    requires n <= |specs|
    ensures |r| == n && forall i | 0 <= i < n :: r[i] == Record(h, base, specs[i])
  {
    seq(n, i requires 0 <= i < n => Record(h, base, specs[i]))
  }

  function PutAll(branch: A.Tree, specs: seq<FileSpec>, n: nat): A.Tree
    requires n <= |specs|
  {
    if n == 0 then branch else Put(PutAll(branch, specs, n - 1), specs[n - 1])
  }

  // Every one of the first `n` files is accepted when its turn comes.
  ghost predicate Accepted(h: Host, base: A.Tree, specs: seq<FileSpec>, n: nat)
    requires n <= |specs|
  {
    n > 0 ==> Accepted(h, base, specs, n - 1) && Rejection(h, base, PutAll(base, specs, n - 1), specs[n - 1]) == None
  }

  // Why the branch refuses a file, said of the base and of what the branch holds by then.
  ghost predicate Refuses(h: Host, base: A.Tree, branch: A.Tree, f: FileSpec, error: BranchError) {
    var key := Split(f.path);
    match error
    case AlreadyExists => f.action == Create && key in base
    case DoesNotExist => (f.action == Modify || f.action == Delete) && key !in base
    case StaleWrite =>
      if f.action == Create then key !in base && key in branch
      else key in base && (key !in branch || h.blobOf(branch[key]) != h.blobOf(base[key]))
  }

  lemma RejectionMeans(h: Host, base: A.Tree, branch: A.Tree, f: FileSpec, error: BranchError)
    ensures Rejection(h, base, branch, f) == Some(error) <==> Refuses(h, base, branch, f, error)
  {
  }

  lemma {:induction false} NoneRefused(h: Host, base: A.Tree, specs: seq<FileSpec>, n: nat, i: nat, error: BranchError)
    requires i < n <= |specs| && Accepted(h, base, specs, n)
    ensures !Refuses(h, base, PutAll(base, specs, i), specs[i], error)
  {
    RejectionMeans(h, base, PutAll(base, specs, i), specs[i], error);
    if i < n - 1 { NoneRefused(h, base, specs, n - 1, i, error); }
  }

  lemma NoneRefusedYet(h: Host, base: A.Tree, specs: seq<FileSpec>, n: nat)
    requires n <= |specs| && Accepted(h, base, specs, n)
    ensures forall i, error | 0 <= i < n :: !Refuses(h, base, PutAll(base, specs, i), specs[i], error)
  {
    forall i, error | 0 <= i < n ensures !Refuses(h, base, PutAll(base, specs, i), specs[i], error) {
      NoneRefused(h, base, specs, n, i, error);
    }
  }

  // What is recorded of an applied file: digests of the base content it replaces and of the content it puts there.
  ghost predicate RecordFits(h: Host, base: A.Tree, f: FileSpec, a: AppliedFile) {
    && a.path == f.path && a.action == f.action
    && (f.action == Create ==> a.oldHash == None)
    && (f.action != Create ==> a.oldHash == if Split(f.path) in base then Some(h.sha(base[Split(f.path)])) else None)
    && (f.action == Delete ==> a.newHash == None)
    && (f.action != Delete ==> a.newHash == Some(h.sha(if f.content.Some? then f.content.value else "")))
  }

  datatype Outcome = Applied(files: seq<AppliedFile>) | Threw(error: BranchError)

  class Branch {
    var tree: A.Tree

    constructor (base: A.Tree)
      ensures tree == base
    {
      tree := base;
    }

    method PutFile(h: Host, path: string, content: string, expected: Option<Blob>) returns (ok: bool)
      modifies this
      ensures ok <==> HostAccepts(h, old(tree), path, expected)
      ensures tree == if ok then old(tree)[Split(path) := content] else old(tree)
    {
      ok := HostAccepts(h, tree, path, expected);
      if ok { tree := tree[Split(path) := content]; }
    }

    method DeleteFile(h: Host, path: string, expected: Blob) returns (ok: bool)
      modifies this
      ensures ok <==> HostAccepts(h, old(tree), path, Some(expected))
      ensures tree == if ok then old(tree) - {Split(path)} else old(tree)
    {
      ok := HostAccepts(h, tree, path, Some(expected));
      if ok { tree := tree - {Split(path)}; }
    }

    method ApplyFile(h: Host, base: A.Tree, f: FileSpec) returns (error: Option<BranchError>)
      modifies this
      ensures error == Rejection(h, base, old(tree), f)
      ensures tree == if error == None then Put(old(tree), f) else old(tree)
    {
      var key := Split(f.path);
      var ok;
      match f.action {
        case Create =>
          if key in base { return Some(AlreadyExists); }
          ok := PutFile(h, f.path, Content(f), None);
        case Modify =>
          if key !in base { return Some(DoesNotExist); }
          ok := PutFile(h, f.path, Content(f), Some(h.blobOf(base[key])));
        case Delete =>
          if key !in base { return Some(DoesNotExist); }
          ok := DeleteFile(h, f.path, h.blobOf(base[key]));
      }
      error := if ok then None else Some(StaleWrite);
    }

    /** All files in order, or an exception at the first one the base or the host refuses. */
    method ApplyPatchFiles(h: Host, specs: seq<FileSpec>) returns (r: Outcome, ghost n: nat)
      modifies this
      ensures n <= |specs| && Accepted(h, old(tree), specs, n) && tree == PutAll(old(tree), specs, n)
      ensures r.Applied? <==> n == |specs|
      ensures r.Applied? ==> r.files == Records(h, old(tree), specs, n)
      ensures r.Threw? ==> Rejection(h, old(tree), tree, specs[n]) == Some(r.error) && Refuses(h, old(tree), tree, specs[n], r.error)
      ensures forall i, error | 0 <= i < n :: !Refuses(h, old(tree), PutAll(old(tree), specs, i), specs[i], error)
      ensures r.Applied? ==> |r.files| == |specs| && forall i | 0 <= i < |specs| :: RecordFits(h, old(tree), specs[i], r.files[i])
    {
      var base := tree;
      var applied := [];
      n := 0;
      for i := 0 to |specs|
        invariant n == i && Accepted(h, base, specs, i) && tree == PutAll(base, specs, i)
        invariant applied == Records(h, base, specs, i)
      {
        var error := ApplyFile(h, base, specs[i]);
        if error.Some? {
          RejectionMeans(h, base, tree, specs[i], error.value);
          NoneRefusedYet(h, base, specs, i);
          return Threw(error.value), i;
        }
        applied := applied + [Record(h, base, specs[i])];
        n := i + 1;
      }
      NoneRefusedYet(h, base, specs, |specs|);
      return Applied(applied), |specs|;
    }
  }

  // ---- Sandbox and branch compared ----

  ghost predicate Injective(blobOf: string -> Blob) {
    forall a, b :: blobOf(a) == blobOf(b) ==> a == b
  }

  // What validation and the repository's own path notation guarantee of a patch file.
  ghost predicate Sound(redact: string -> string, f: FileSpec) {
    Clean(f.path) && (f.action != Delete ==> redact(Content(f)) == Content(f))
  }

  // Each file but the last at its path is a modify that writes back what the base holds.
  ghost predicate NoOverlap(base: A.Tree, specs: seq<FileSpec>) {
    forall i, j :: 0 <= i < j < |specs| && Split(specs[i].path) == Split(specs[j].path) ==> WritesBack(base, specs[i])
  }

  predicate WritesBack(base: A.Tree, f: FileSpec) {
    f.action == Modify && Split(f.path) in base && Content(f) == base[Split(f.path)]
  }

  // The sandbox's list of files for a stored patch set.
  function SandboxFiles(root: seq<string>, specs: seq<FileSpec>,
                        redact: string -> string, baseHash: string -> Option<A.Digest>): (r: seq<A.File>)
    ensures |r| == |specs|
  {
    A.Locate(root, StoredRows(specs, redact, baseHash))
  }

  // One file on one tree: what the sandbox checked and wrote, in the branch's terms.
  lemma SameWrite(g: A.Guard, tree: A.Tree, f: FileSpec, file: A.File,
                  redact: string -> string, oldHash: Option<A.Digest>)
    requires Sound(redact, f) && file == A.File(A.Row(f.path, ChangeOf(f.action), oldHash, file.row.newContent), A.PlaceOf(g.root, file.row))
    requires file.row.newContent == if f.action == Delete then None else Some(redact(Content(f)))
    requires A.Blocker(g, tree, file) == None
    ensures A.Write(tree, file) == Put(tree, f)
    ensures f.action == Create <==> Split(f.path) !in tree
  {
  }

  lemma {:induction false} SameWrites(g: A.Guard, base: A.Tree, specs: seq<FileSpec>,
                                      redact: string -> string, baseHash: string -> Option<A.Digest>, n: nat)
    requires forall f <- specs :: Sound(redact, f)
    requires n <= |specs| && A.Clear(g, base, SandboxFiles(g.root, specs, redact, baseHash), n)
    ensures A.WriteAll(base, SandboxFiles(g.root, specs, redact, baseHash), n) == PutAll(base, specs, n)
    ensures n > 0 ==> (specs[n - 1].action == Create <==> Split(specs[n - 1].path) !in PutAll(base, specs, n - 1))
  {
    if n > 0 {
      SameWrites(g, base, specs, redact, baseHash, n - 1);
      var f, file := specs[n - 1], SandboxFiles(g.root, specs, redact, baseHash)[n - 1];
      SameWrite(g, PutAll(base, specs, n - 1), f, file, redact, file.row.oldHash);
    }
  }

  // While earlier files at a path write back the base, the path still looks as in the base.
  lemma {:induction false} StillAsBase(base: A.Tree, specs: seq<FileSpec>, n: nat, key: seq<string>)
    requires n <= |specs| && forall i | 0 <= i < n && Split(specs[i].path) == key :: WritesBack(base, specs[i])
    ensures key in PutAll(base, specs, n) <==> key in base
    ensures key in base ==> PutAll(base, specs, n)[key] == base[key]
  {
    if n > 0 {
      StillAsBase(base, specs, n - 1, key);
      if Split(specs[n - 1].path) == key { assert WritesBack(base, specs[n - 1]); }
    }
  }

  lemma {:induction false} AcceptedAt(h: Host, base: A.Tree, specs: seq<FileSpec>, n: nat, i: nat)
    requires i < n <= |specs| && Accepted(h, base, specs, n)
    ensures Accepted(h, base, specs, i) && Rejection(h, base, PutAll(base, specs, i), specs[i]) == None
  {
    if i < n - 1 { AcceptedAt(h, base, specs, n - 1, i); }
  }

  // From file `i` on, a path no later file names keeps what file `i` left there.
  lemma {:induction false} KeptSince(base: A.Tree, specs: seq<FileSpec>, i: nat, j: nat)
    requires i < j <= |specs| && forall k | i < k < j :: Split(specs[k].path) != Split(specs[i].path)
    ensures var key, f := Split(specs[i].path), specs[i];
            && (key in PutAll(base, specs, j) <==> f.action != Delete)
            && (f.action != Delete ==> PutAll(base, specs, j)[key] == Content(f))
  {
    if j > i + 1 { KeptSince(base, specs, i, j - 1); }
  }

  lemma {:induction false} AcceptedMeansNoOverlap(h: Host, base: A.Tree, specs: seq<FileSpec>, i: nat, j: nat)
    requires Injective(h.blobOf) && Accepted(h, base, specs, |specs|)
    requires i < j < |specs| && Split(specs[i].path) == Split(specs[j].path)
    ensures WritesBack(base, specs[i])
    decreases j
  {
    if k :| i < k < j && Split(specs[k].path) == Split(specs[i].path) {
      AcceptedMeansNoOverlap(h, base, specs, i, k);
    } else {
      KeptSince(base, specs, i, j);
      AcceptedAt(h, base, specs, |specs|, i);
      AcceptedAt(h, base, specs, |specs|, j);
    }
  }

  lemma AcceptedAsBase(h: Host, base: A.Tree, branch: A.Tree, f: FileSpec)
    requires var key := Split(f.path); (key in branch <==> key in base) && (key in base ==> branch[key] == base[key])
    requires f.action == Create <==> Split(f.path) !in branch
    ensures Rejection(h, base, branch, f) == None
  {
  }

  // File `k` creates exactly when nothing is at its path yet, which the sandbox has checked.
  ghost predicate ActionFits(base: A.Tree, specs: seq<FileSpec>, k: nat)
    requires k < |specs|
  {
    specs[k].action == Create <==> Split(specs[k].path) !in PutAll(base, specs, k)
  }

  lemma {:induction false} NoOverlapMeansAccepted(h: Host, base: A.Tree, specs: seq<FileSpec>, n: nat)
    requires NoOverlap(base, specs) && n <= |specs| && forall k | 0 <= k < n :: ActionFits(base, specs, k)
    ensures Accepted(h, base, specs, n)
  {
    if n > 0 {
      NoOverlapMeansAccepted(h, base, specs, n - 1);
      StillAsBase(base, specs, n - 1, Split(specs[n - 1].path));
      assert ActionFits(base, specs, n - 1);
      AcceptedAsBase(h, base, PutAll(base, specs, n - 1), specs[n - 1]);
    }
  }

  lemma ClearThrough(g: A.Guard, base: A.Tree, files: seq<A.File>, n: nat)
    requires n <= |files| && A.Clear(g, base, files, |files|)
    ensures A.Clear(g, base, files, n)
  {
    if n < |files| { A.ClearAt(g, base, files, |files|, n); }
  }

  lemma ActionsFit(g: A.Guard, base: A.Tree, specs: seq<FileSpec>,
                   redact: string -> string, baseHash: string -> Option<A.Digest>, k: nat)
    requires forall f <- specs :: Sound(redact, f)
    requires k < |specs| && A.Clear(g, base, SandboxFiles(g.root, specs, redact, baseHash), |specs|)
    ensures ActionFits(base, specs, k)
  {
    ClearThrough(g, base, SandboxFiles(g.root, specs, redact, baseHash), k + 1);
    SameWrites(g, base, specs, redact, baseHash, k + 1);
  }

  /**
   * Tested tree equals proposed tree. When the sandbox has applied a stored patch set to the base,
   * applying the patch to a branch of the same base succeeds iff no file overwrites an earlier
   * effect on its path; and whenever it succeeds, both trees are the same.
   */
  lemma TestedTreeIsProposedTree(g: A.Guard, h: Host, base: A.Tree, specs: seq<FileSpec>,
                                 redact: string -> string, baseHash: string -> Option<A.Digest>)
    requires Injective(h.blobOf) && forall f <- specs :: Sound(redact, f)
    requires A.Clear(g, base, SandboxFiles(g.root, specs, redact, baseHash), |specs|)
    ensures Accepted(h, base, specs, |specs|) <==> NoOverlap(base, specs)
    ensures A.WriteAll(base, SandboxFiles(g.root, specs, redact, baseHash), |specs|) == PutAll(base, specs, |specs|)
  {
    SameWrites(g, base, specs, redact, baseHash, |specs|);
    if NoOverlap(base, specs) {
      forall k | 0 <= k < |specs| ensures ActionFits(base, specs, k) { ActionsFit(g, base, specs, redact, baseHash, k); }
      NoOverlapMeansAccepted(h, base, specs, |specs|);
    }
    if Accepted(h, base, specs, |specs|) {
      forall i, j | 0 <= i < j < |specs| && Split(specs[i].path) == Split(specs[j].path) ensures WritesBack(base, specs[i]) {
        AcceptedMeansNoOverlap(h, base, specs, i, j);
      }
    }
  }

  ghost predicate DistinctPaths(specs: seq<FileSpec>) {
    forall i, j :: 0 <= i < j < |specs| ==> Split(specs[i].path) != Split(specs[j].path)
  }

  /** Distinct paths suffice: every patch the sandbox applied then also applies to the branch, with the same tree. */
  lemma DistinctPathsNeverDiverge(g: A.Guard, h: Host, base: A.Tree, specs: seq<FileSpec>,
                                  redact: string -> string, baseHash: string -> Option<A.Digest>)
    requires Injective(h.blobOf) && DistinctPaths(specs) && forall f <- specs :: Sound(redact, f)
    requires A.ApplySet(g, base, Some(A.Validated), StoredRows(specs, redact, baseHash)).1.patchApplied
    ensures Accepted(h, base, specs, |specs|)
    ensures A.ApplySet(g, base, Some(A.Validated), StoredRows(specs, redact, baseHash)).0 == PutAll(base, specs, |specs|)
  {
    A.AppliesAPrefix(g, base, Some(A.Validated), StoredRows(specs, redact, baseHash));
    TestedTreeIsProposedTree(g, h, base, specs, redact, baseHash);
  }

  // The base digests a validation captures from the tree it saw.
  function HashIn(sha: string -> A.Digest, seen: A.Tree): string -> Option<A.Digest> {
    path => if Split(path) in seen then Some(L.DriftHash(sha, seen[Split(path)])) else None
  }

  lemma UntouchedBefore(root: seq<string>, base: A.Tree, specs: seq<FileSpec>,
                        redact: string -> string, baseHash: string -> Option<A.Digest>, i: nat)
    requires i < |specs| && DistinctPaths(specs) && forall f <- specs :: Sound(redact, f)
    ensures var key, before := Split(specs[i].path), A.WriteAll(base, SandboxFiles(root, specs, redact, baseHash), i);
            (key in before <==> key in base) && (key in base ==> before[key] == base[key])
  {
    var files := SandboxFiles(root, specs, redact, baseHash);
    forall k | 0 <= k < i ensures files[k].place != A.At(Split(specs[i].path)) {
      assert Sound(redact, specs[k]) && Split(specs[k].path) != Split(specs[i].path);
    }
    A.OtherPathsUntouched(base, files, i, Split(specs[i].path));
  }

  /**
   * Drift is caught: when a strict sandbox applies a patch hashed against one tree to another, every
   * modified or deleted file has the same lines in both.
   */
  lemma StrictApplyMeansNoDrift(g: A.Guard, seen: A.Tree, base: A.Tree,
                                specs: seq<FileSpec>, redact: string -> string, i: nat)
    requires g.strict && (forall a, b :: g.sha(a) == g.sha(b) ==> a == b)
    requires DistinctPaths(specs) && forall f <- specs :: Sound(redact, f)
    requires A.Clear(g, base, SandboxFiles(g.root, specs, redact, HashIn(g.sha, seen)), |specs|)
    requires i < |specs| && specs[i].action != Create
    ensures var key := Split(specs[i].path);
            key in base && key in seen && L.Lines(base[key]) == L.Lines(seen[key])
  {
    var files, key := SandboxFiles(g.root, specs, redact, HashIn(g.sha, seen)), Split(specs[i].path);
    assert Sound(redact, specs[i]);
    A.ClearMeansHashesMatch(g, base, files, i);
    assert files[i].place.key == key;
    UntouchedBefore(g.root, base, specs, redact, HashIn(g.sha, seen), i);
    assert files[i].row.oldHash == HashIn(g.sha, seen)(specs[i].path);
    L.DriftHashMeansSameLines(g.sha, base[key], seen[key]);
  }

  function Unhashed(path: string): Option<A.Digest> {
    None
  }

  lemma OneLetterPath(root: seq<string>)
    ensures Split("f") == ["f"] && Key("f") == ["f"]
    ensures UnsafeReason("f") == None
  {
    assert "f"[1..] == "" && Split("") == [""];
    assert Split("f") == [['f'] + ""] + [];
    assert ["f"][0] == "f" && ["f"][1..] == [];
    assert ToPosix("f") == "f";
  }

  /** Two modifies of one file: the sandbox applies both, the branch refuses the second as stale. */
  lemma RepeatedPathDiverges(g: A.Guard, h: Host, redact: string -> string)
    requires Injective(h.blobOf) && !g.strict && redact("b") == "b" && redact("c") == "c"
    ensures var base, specs := map[["f"] := "a"], [FileSpec("f", Modify, Some("b"), ""), FileSpec("f", Modify, Some("c"), "")];
            && A.Clear(g, base, SandboxFiles(g.root, specs, redact, Unhashed), 2)
            && Rejection(h, base, PutAll(base, specs, 1), specs[1]) == Some(StaleWrite)
  {
    var base: A.Tree := map[["f"] := "a"];
    var specs := [FileSpec("f", Modify, Some("b"), ""), FileSpec("f", Modify, Some("c"), "")];
    OneLetterPath(g.root);
    SafePathsStayInside(g.root, "f");
    var files := SandboxFiles(g.root, specs, redact, Unhashed);
    assert files[0] == A.File(A.Row("f", A.Modify, None, Some("b")), A.At(["f"]));
    assert files[1] == A.File(A.Row("f", A.Modify, None, Some("c")), A.At(["f"]));
    assert A.WriteAll(base, files, 0) == base && A.Clear(g, base, files, 0);
    assert A.WriteAll(base, files, 1) == A.Write(base, files[0]) && A.Clear(g, base, files, 1);
    assert PutAll(base, specs, 0) == base && PutAll(base, specs, 1) == Put(base, specs[0]);
  }
}
