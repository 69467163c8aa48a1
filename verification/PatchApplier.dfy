/** Applying a stored patch set to a workspace, file by file, with the base-drift guard. */
module PatchApplier {
  import opened Prelude
  import opened JobTypes
  import opened JsStrings
  import opened PatchPaths
  import L = LineEndings

  type Digest = nat
  // Files by their path relative to the workspace root.
  type Tree = map<seq<string>, string>

  datatype SetStatus = Draft | Validated | Applied | SetFailed | Superseded
  datatype ChangeType = Create | Modify | Delete | Rename

  datatype Row = Row(path: string, change: ChangeType, oldHash: Option<Digest>, newContent: Option<string>)

  // `sha` is the digest of a text; `root` the absolute path of the workspace.
  datatype Guard = Guard(root: seq<string>, strict: bool, sha: string -> Digest)

  datatype ApplyResult = ApplyResult(patchApplied: bool, changedFiles: seq<string>, baseHashChecked: bool, errors: seq<ApplyError>)

  predicate Applyable(status: SetStatus) {
    status == Validated || status == Applied || status == Draft
  }

  // ---- One file ----

  // Where a file lands, or why its path or kind is refused before the tree is looked at.
  datatype Place = At(key: seq<string>) | Refused(code: ErrorCode)

  function PlaceOf(root: seq<string>, row: Row): Place {
    if UnsafeReason(row.path).Some? then Refused(PathUnsafe)
    else if row.change == Rename then Refused(RenameNotSupported)
    else if !Inside(root, Resolve(root, row.path)) then Refused(EscapesWorkspace)
    else At(Key(row.path))
  }

  // A row together with its place.
  datatype File = File(row: Row, place: Place)

  function Locate(root: seq<string>, rows: seq<Row>): (files: seq<File>)
    ensures |files| == |rows| && forall i | 0 <= i < |rows| :: files[i] == File(rows[i], PlaceOf(root, rows[i]))
  {
    seq(|rows|, i requires 0 <= i < |rows| => File(rows[i], PlaceOf(root, rows[i])))
  }

  function CheckBaseHash(g: Guard, oldHash: Option<Digest>, current: string): Option<ErrorCode> {
    if oldHash.Some? then if L.DriftHash(g.sha, current) != oldHash.value then Some(BaseHashMismatch) else None
    else if g.strict then Some(MissingOldContentHash)
    else None
  }

  // The reason a file cannot be applied to this tree, if there is one.
  function Blocker(g: Guard, tree: Tree, f: File): Option<ErrorCode> {
    if f.place.Refused? then Some(f.place.code)
    else if f.row.change == Create then if f.place.key in tree then Some(CreateExistingFile) else None
    else if f.place.key !in tree then Some(if f.row.change == Modify then ModifyMissingFile else DeleteMissingFile)
    else
      var drift := CheckBaseHash(g, f.row.oldHash, tree[f.place.key]);
      if drift.Some? then drift
      else if f.row.change == Modify && f.row.newContent == None then Some(MissingNewContent)
      else None
  }

  // The tree with one file changed as its row says.
  function Write(tree: Tree, f: File): Tree {
    if f.place.Refused? then tree
    else if f.row.change == Delete then tree - {f.place.key}
    else tree[f.place.key := if f.row.newContent.Some? then f.row.newContent.value else ""]
  }

  predicate Hashed(row: Row) {
    row.change == Create || row.oldHash.Some?
  }

  // A row that changes what is there carries the hash of it.
  ghost predicate CarriesHash(row: Row) {
    row.change != Create ==> row.oldHash.Some?
  }

  // ---- The loop ----

  // Where the loop from file `i` on ends: the tree, the number of files applied, the blocker, the hash flag.
  datatype End = End(tree: Tree, n: nat, blocker: Option<ErrorCode>, hashed: bool)

  function ApplyFrom(g: Guard, tree: Tree, files: seq<File>, i: nat, hashed: bool): (e: End)
    requires i <= |files|
    ensures i <= e.n <= |files| && (e.blocker == None <==> e.n == |files|)
    decreases |files| - i
  {
    if i == |files| then End(tree, i, None, hashed)
    else
      var blocker := Blocker(g, tree, files[i]);
      var hashed' := hashed && (Hashed(files[i].row) || (blocker.Some? && blocker != Some(MissingNewContent)));
      if blocker.Some? then End(tree, i, blocker, hashed') else ApplyFrom(g, Write(tree, files[i]), files, i + 1, hashed')
  }

  function Paths(files: seq<File>, n: nat): (r: seq<string>)
    requires n <= |files|
    ensures |r| == n && forall i | 0 <= i < n :: r[i] == files[i].row.path
  {
    seq(n, k requires 0 <= k < n => files[k].row.path)
  }

  function Report(files: seq<File>, e: End): ApplyResult
    requires e.n <= |files| && (e.blocker.Some? ==> e.n < |files|)
  {
    ApplyResult(e.blocker == None, Paths(files, e.n), e.hashed,
                if e.blocker == None then [] else [ApplyError(e.blocker.value, Some(files[e.n].row.path))])
  }

  // Why a set is not even started on.
  function Refusal(status: Option<SetStatus>, rows: seq<Row>): Option<ErrorCode> {
    if status == None then Some(PatchSetNotFound)
    else if !Applyable(status.value) then Some(PatchSetNotApplyable)
    else if rows == [] then Some(PatchSetNoFiles)
    else None
  }

  function ApplySet(g: Guard, base: Tree, status: Option<SetStatus>, rows: seq<Row>): (Tree, ApplyResult) {
    if Refusal(status, rows).Some? then (base, ApplyResult(false, [], false, [ApplyError(Refusal(status, rows).value, None)]))
    else
      var files := Locate(g.root, rows);
      var e := ApplyFrom(g, base, files, 0, true);
      (e.tree, Report(files, e))
  }

  class Workspace {
    var tree: Tree

    constructor (base: Tree)
      ensures tree == base
    {
      tree := base;
    }

    // The loop over the files: the first one that is blocked ends it.
    method ApplyFiles(g: Guard, files: seq<File>) returns (r: ApplyResult)
      modifies this
      ensures var e := ApplyFrom(g, old(tree), files, 0, true); tree == e.tree && r == Report(files, e)
    {
      ghost var end := ApplyFrom(g, tree, files, 0, true);
      var changedFiles, baseHashChecked := [], true;
      for i := 0 to |files|
        invariant ApplyFrom(g, tree, files, i, baseHashChecked) == end
        invariant changedFiles == Paths(files, i)
      {
        var row := files[i].row;
        var blocker := Blocker(g, tree, files[i]);
        if !Hashed(row) && (blocker == None || blocker == Some(MissingNewContent)) {
          baseHashChecked := false;
        }
        if blocker.Some? {
          return ApplyResult(false, changedFiles, baseHashChecked, [ApplyError(blocker.value, Some(row.path))]);
        }
        tree := Write(tree, files[i]);
        changedFiles := changedFiles + [row.path];
      }
      return ApplyResult(true, changedFiles, baseHashChecked, []);
    }

    method ApplyPatchSet(g: Guard, status: Option<SetStatus>, rows: seq<Row>) returns (r: ApplyResult)
      modifies this
      ensures (tree, r) == ApplySet(g, old(tree), status, rows)
      ensures Answers(g, old(tree), status, rows, tree, r)
    {
      AnswersRightly(g, tree, status, rows);
      if status == None { return ApplyResult(false, [], false, [ApplyError(PatchSetNotFound, None)]); }
      if !Applyable(status.value) { return ApplyResult(false, [], false, [ApplyError(PatchSetNotApplyable, None)]); }
      if rows == [] { return ApplyResult(false, [], false, [ApplyError(PatchSetNoFiles, None)]); }
      r := ApplyFiles(g, Locate(g.root, rows));
    }
  }

  // ---- What the loop leaves behind ----

  // The tree after the first `n` files.
  function WriteAll(tree: Tree, files: seq<File>, n: nat): Tree
    requires n <= |files|
  {
    if n == 0 then tree else Write(WriteAll(tree, files, n - 1), files[n - 1])
  }

  // Each of the first `n` files was applicable when its turn came.
  ghost predicate Clear(g: Guard, base: Tree, files: seq<File>, n: nat)
    requires n <= |files|
  {
    n > 0 ==> Clear(g, base, files, n - 1) && Blocker(g, WriteAll(base, files, n - 1), files[n - 1]) == None
  }

  lemma {:induction false} ClearAt(g: Guard, base: Tree, files: seq<File>, n: nat, i: nat)
    requires i < n <= |files| && Clear(g, base, files, n)
    ensures Clear(g, base, files, i) && Blocker(g, WriteAll(base, files, i), files[i]) == None
  {
    if i < n - 1 { ClearAt(g, base, files, n - 1, i); }
  }

  lemma {:induction false} PrefixFrom(g: Guard, base: Tree, files: seq<File>, i: nat, hashed: bool)
    requires i <= |files| && Clear(g, base, files, i)
    ensures var e := ApplyFrom(g, WriteAll(base, files, i), files, i, hashed);
            && Clear(g, base, files, e.n) && e.tree == WriteAll(base, files, e.n)
            && (e.blocker.Some? ==> Blocker(g, e.tree, files[e.n]) == e.blocker)
    decreases |files| - i
  {
    if i < |files| && Blocker(g, WriteAll(base, files, i), files[i]) == None {
      PrefixFrom(g, base, files, i + 1, hashed && Hashed(files[i].row));
    }
  }

  /**
   * Partial application is a prefix: the tree is the base with the reported files written in
   * order, all of them or those before the first blocked one; each was applicable in its turn.
   */
  lemma AppliesAPrefix(g: Guard, base: Tree, status: Option<SetStatus>, rows: seq<Row>)
    requires Refusal(status, rows) == None
    ensures var (tree, r) := ApplySet(g, base, status, rows);
            var files, n := Locate(g.root, rows), |r.changedFiles|;
            && n <= |rows| && (forall i | 0 <= i < n :: r.changedFiles[i] == rows[i].path)
            && Clear(g, base, files, n) && tree == WriteAll(base, files, n)
            && (r.patchApplied <==> n == |rows|)
            && (r.patchApplied ==> r.errors == [])
            && (!r.patchApplied ==> Blocker(g, tree, files[n]).Some?)
            && (!r.patchApplied ==> r.errors == [ApplyError(Blocker(g, tree, files[n]).value, Some(rows[n].path))])
  {
    PrefixFrom(g, base, Locate(g.root, rows), 0, true);
  }

  /** Writing files touches no path that none of them lands on. */
  lemma {:induction false} OtherPathsUntouched(base: Tree, files: seq<File>, n: nat, key: seq<string>)
    requires n <= |files| && forall i | 0 <= i < n :: files[i].place != At(key)
    ensures key in WriteAll(base, files, n) <==> key in base
    ensures key in base ==> WriteAll(base, files, n)[key] == base[key]
  {
    if n > 0 {
      OtherPathsUntouched(base, files, n - 1, key);
    }
  }

  /** An applied modify or delete carries, when hashed, the drift hash of what it replaced; strict mode hashes all. */
  lemma ClearMeansHashesMatch(g: Guard, base: Tree, files: seq<File>, i: nat)
    requires i < |files| && Clear(g, base, files, |files|) && files[i].row.change != Create
    ensures files[i].place.At?
    ensures var before, f := WriteAll(base, files, i), files[i];
            && f.place.key in before
            && (f.row.oldHash.Some? ==> f.row.oldHash.value == L.DriftHash(g.sha, before[f.place.key]))
            && (g.strict ==> f.row.oldHash.Some?)
  {
    ClearAt(g, base, files, |files|, i);
  }

  /** A path is never refused for leaving the workspace: the path guard has refused it before. */
  lemma NeverEscapes(root: seq<string>, row: Row)
    ensures PlaceOf(root, row) != Refused(EscapesWorkspace)
    ensures PlaceOf(root, row).At? ==> Resolve(root, row.path) == root + PlaceOf(root, row).key
  {
    if UnsafeReason(row.path) == None { SafePathsStayInside(root, row.path); }
  }

  // ---- What is applied, said of rows and trees ----

  // Nothing offends in the path.
  ghost predicate PathClears(row: Row) {
    forall why :: !Offends(Trim(row.path), why)
  }

  ghost predicate HashFits(g: Guard, oldHash: Option<Digest>, current: string) {
    (oldHash.Some? ==> oldHash.value == L.DriftHash(g.sha, current)) && (g.strict ==> oldHash.Some?)
  }

  // The row can be applied to this tree.
  ghost predicate Fits(g: Guard, tree: Tree, row: Row) {
    var key := Key(row.path);
    && PathClears(row)
    && match row.change
       case Create => key !in tree
       case Modify => key in tree && HashFits(g, row.oldHash, tree[key]) && row.newContent.Some?
       case Delete => key in tree && HashFits(g, row.oldHash, tree[key])
       case Rename => false
  }

  // What the code of a refusal says about the row and the tree it met.
  ghost predicate Explains(code: ErrorCode, g: Guard, tree: Tree, row: Row) {
    var key := Key(row.path);
    match code
    case PathUnsafe => !PathClears(row)
    case RenameNotSupported => PathClears(row) && row.change == Rename
    case CreateExistingFile => PathClears(row) && row.change == Create && key in tree
    case ModifyMissingFile => PathClears(row) && row.change == Modify && key !in tree
    case DeleteMissingFile => PathClears(row) && row.change == Delete && key !in tree
    case BaseHashMismatch => PathClears(row) && (row.change == Modify || row.change == Delete) && key in tree
                             && row.oldHash.Some? && row.oldHash.value != L.DriftHash(g.sha, tree[key])
    case MissingOldContentHash => PathClears(row) && (row.change == Modify || row.change == Delete) && key in tree
                                  && row.oldHash == None && g.strict
    case MissingNewContent => PathClears(row) && row.change == Modify && key in tree
                              && HashFits(g, row.oldHash, tree[key]) && row.newContent == None
    case _ => false
  }

  // The tree with one more row: a delete takes its file away, everything else puts its content there.
  function With(tree: Tree, row: Row): Tree {
    if row.change == Delete then tree - {Key(row.path)}
    else tree[Key(row.path) := if row.newContent.Some? then row.newContent.value else ""]
  }

  // The tree after the first `n` rows.
  function TreeAfter(base: Tree, rows: seq<Row>, n: nat): Tree
    requires n <= |rows|
  {
    if n == 0 then base else With(TreeAfter(base, rows, n - 1), rows[n - 1])
  }

  ghost predicate FitsInTurn(g: Guard, base: Tree, rows: seq<Row>, i: nat)
    requires i < |rows|
  {
    Fits(g, TreeAfter(base, rows, i), rows[i])
  }

  ghost predicate FitUpTo(g: Guard, base: Tree, rows: seq<Row>, n: nat)
    requires n <= |rows|
  {
    forall i | 0 <= i < n :: FitsInTurn(g, base, rows, i)
  }

  // Row `n` is the first that does not fit; the rows before it are applied, and it is reported.
  ghost predicate StopsAt(g: Guard, base: Tree, rows: seq<Row>, n: nat, tree: Tree, r: ApplyResult) {
    && n < |rows| && FitUpTo(g, base, rows, n) && tree == TreeAfter(base, rows, n)
    && |r.changedFiles| == n && (forall i | 0 <= i < n :: r.changedFiles[i] == rows[i].path)
    && |r.errors| == 1 && r.errors[0].path == Some(rows[n].path) && Explains(r.errors[0].code, g, tree, rows[n])
    && (r.baseHashChecked <==> (forall i | 0 <= i < n :: CarriesHash(rows[i])) && (r.errors[0].code == MissingNewContent ==> CarriesHash(rows[n])))
  }

  /**
   * Applied iff the set may be applied, has rows, and each of them fits the tree it meets; then the tree is the base with
   * all of them. Otherwise the answer says which of these failed, and the rows before the first misfit are applied.
   */
  ghost predicate Answers(g: Guard, base: Tree, status: Option<SetStatus>, rows: seq<Row>, tree: Tree, r: ApplyResult) {
    var usable := status == Some(Validated) || status == Some(Applied) || status == Some(Draft);
    && (r.patchApplied <==> usable && rows != [] && FitUpTo(g, base, rows, |rows|))
    && (r.patchApplied ==>
          && tree == TreeAfter(base, rows, |rows|) && r.errors == [] && |r.changedFiles| == |rows|
          && (forall i | 0 <= i < |rows| :: r.changedFiles[i] == rows[i].path)
          && (r.baseHashChecked <==> forall i | 0 <= i < |rows| :: CarriesHash(rows[i])))
    && (!usable || rows == [] ==>
          && tree == base && r.changedFiles == [] && !r.baseHashChecked
          && r.errors == [ApplyError(if status == None then PatchSetNotFound else if !usable then PatchSetNotApplyable else PatchSetNoFiles, None)])
    && (usable && rows != [] && !r.patchApplied ==> exists n :: StopsAt(g, base, rows, n, tree, r))
  }

  lemma PlaceMeans(g: Guard, row: Row)
    ensures PlaceOf(g.root, row) == if !PathClears(row) then Refused(PathUnsafe)
                                    else if row.change == Rename then Refused(RenameNotSupported)
                                    else At(Key(row.path))
  {
    ClearsIff(row.path);
    NeverEscapes(g.root, row);
  }

  lemma BlockerMeans(g: Guard, tree: Tree, row: Row)
    ensures var b := Blocker(g, tree, File(row, PlaceOf(g.root, row)));
            && (b == None <==> Fits(g, tree, row))
            && (b.Some? ==> Explains(b.value, g, tree, row))
  {
    PlaceMeans(g, row);
  }

  lemma WriteIsWith(g: Guard, tree: Tree, row: Row)
    requires PathClears(row) && row.change != Rename
    ensures Write(tree, File(row, PlaceOf(g.root, row))) == With(tree, row)
  {
    PlaceMeans(g, row);
  }

  lemma OneRow(g: Guard, tree: Tree, row: Row, f: File)
    requires f == File(row, PlaceOf(g.root, row)) && Blocker(g, tree, f) == None
    ensures Fits(g, tree, row) && Write(tree, f) == With(tree, row)
  {
    BlockerMeans(g, tree, row);
    WriteIsWith(g, tree, row);
  }

  // The loop has gone through the first `n` rows, in its own terms and in those of rows and trees; quantified
  // so that a proof unfolds them only where it names the guard.
  ghost predicate Cleared(g: Guard, base: Tree, rows: seq<Row>, n: nat)
    requires n <= |rows|
  {
    forall q: Guard :: q == g ==> Clear(q, base, Locate(q.root, rows), n)
  }

  ghost predicate Fitted(g: Guard, base: Tree, rows: seq<Row>, n: nat)
    requires n <= |rows|
  {
    forall q: Guard :: q == g ==> FitUpTo(q, base, rows, n) && WriteAll(base, Locate(q.root, rows), n) == TreeAfter(base, rows, n)
  }

  lemma ClearedBefore(g: Guard, base: Tree, rows: seq<Row>, n: nat)
    requires 0 < n <= |rows| && Cleared(g, base, rows, n)
    ensures Cleared(g, base, rows, n - 1)
  {
    assert Clear(g, base, Locate(g.root, rows), n);
  }

  lemma FittedNext(g: Guard, base: Tree, rows: seq<Row>, n: nat)
    requires 0 < n <= |rows| && Cleared(g, base, rows, n) && Fitted(g, base, rows, n - 1)
    ensures Fitted(g, base, rows, n)
  {
    var files := Locate(g.root, rows);
    assert Clear(g, base, files, n) && FitUpTo(g, base, rows, n - 1);
    OneRow(g, TreeAfter(base, rows, n - 1), rows[n - 1], files[n - 1]);
    assert FitsInTurn(g, base, rows, n - 1);
    assert FitUpTo(g, base, rows, n);
  }

  lemma {:induction false} ClearedFits(g: Guard, base: Tree, rows: seq<Row>, n: nat)
    requires n <= |rows| && Cleared(g, base, rows, n)
    ensures Fitted(g, base, rows, n)
  {
    if n > 0 {
      ClearedBefore(g, base, rows, n);
      ClearedFits(g, base, rows, n - 1);
      FittedNext(g, base, rows, n);
    }
  }

  lemma {:induction false} FlagOfEnd(g: Guard, tree: Tree, files: seq<File>, i: nat, hashed: bool)
    requires i <= |files|
    ensures var e := ApplyFrom(g, tree, files, i, hashed);
            e.hashed <==> && hashed && (forall k | i <= k < e.n :: Hashed(files[k].row))
                          && (e.blocker == Some(MissingNewContent) ==> Hashed(files[e.n].row))
    decreases |files| - i
  {
    if i < |files| && Blocker(g, tree, files[i]) == None { FlagOfEnd(g, Write(tree, files[i]), files, i + 1, hashed && Hashed(files[i].row)); }
  }

  lemma EndIsRight(g: Guard, base: Tree, rows: seq<Row>)
    ensures var e := ApplyFrom(g, base, Locate(g.root, rows), 0, true);
            && FitUpTo(g, base, rows, e.n) && e.tree == TreeAfter(base, rows, e.n)
            && (e.blocker.Some? ==> !FitsInTurn(g, base, rows, e.n) && Explains(e.blocker.value, g, e.tree, rows[e.n]))
            && (e.hashed <==> (forall k | 0 <= k < e.n :: CarriesHash(rows[k])) && (e.blocker == Some(MissingNewContent) ==> CarriesHash(rows[e.n])))
  {
    var files := Locate(g.root, rows);
    PrefixFrom(g, base, files, 0, true);
    var e := ApplyFrom(g, base, files, 0, true);
    ClearedFits(g, base, rows, e.n);
    assert FitUpTo(g, base, rows, e.n) && WriteAll(base, files, e.n) == TreeAfter(base, rows, e.n);
    FlagOfEnd(g, base, files, 0, true);
    if e.blocker.Some? { BlockerMeans(g, e.tree, rows[e.n]); }
  }

  lemma ReportIsRight(g: Guard, base: Tree, rows: seq<Row>, e: End)
    requires e == ApplyFrom(g, base, Locate(g.root, rows), 0, true) && rows != []
    ensures var r := Report(Locate(g.root, rows), e);
            && (r.patchApplied <==> FitUpTo(g, base, rows, |rows|))
            && (r.patchApplied ==>
                  && e.tree == TreeAfter(base, rows, |rows|) && r.errors == [] && |r.changedFiles| == |rows|
                  && (forall i | 0 <= i < |rows| :: r.changedFiles[i] == rows[i].path)
                  && (r.baseHashChecked <==> forall i | 0 <= i < |rows| :: CarriesHash(rows[i])))
            && (!r.patchApplied ==> StopsAt(g, base, rows, e.n, e.tree, r))
  {
    EndIsRight(g, base, rows);
  }

  /** Applying a stored set answers rightly, for every guard, tree, status and list of rows. */
  lemma AnswersRightly(g: Guard, base: Tree, status: Option<SetStatus>, rows: seq<Row>)
    ensures var (tree, r) := ApplySet(g, base, status, rows); Answers(g, base, status, rows, tree, r)
  {
    if rows != [] {
      var e := ApplyFrom(g, base, Locate(g.root, rows), 0, true);
      ReportIsRight(g, base, rows, e);
    }
  }

  /** A successful application reports its hashes checked iff every modified or deleted file carried one. */
  lemma HashFlagIsExact(g: Guard, base: Tree, status: Option<SetStatus>, rows: seq<Row>)
    requires ApplySet(g, base, status, rows).1.patchApplied
    ensures ApplySet(g, base, status, rows).1.baseHashChecked <==> forall row <- rows :: CarriesHash(row)
  {
    AnswersRightly(g, base, status, rows);
    var r := ApplySet(g, base, status, rows).1;
    if forall i | 0 <= i < |rows| :: CarriesHash(rows[i]) {
      assert r.baseHashChecked;
    } else {
      var i :| 0 <= i < |rows| && !CarriesHash(rows[i]);
      assert rows[i] in rows && !r.baseHashChecked;
    }
  }
}
