/** Capture of every reviewed directory, and what a capture followed by a restore preserves. */
module SnapshotRoundTrip {
  import opened Results
  import opened SnapshotPaths
  import opened ProjectTree
  import opened SnapshotCapture
  import opened SnapshotFraming
  import opened SnapshotContract
  import opened SnapshotRestore
  import opened SortedNames
  import opened Text

  ghost function Limit(root: string): nat { |Split(root)| + MAX_DEPTH }

  ghost function RootVisit(t: Tree, root: string): seq<Path> {
    Visit(t, Split(root), Limit(root))
  }

  /** Every path visited when the roots are collected one after the other. */
  ghost function Visited(t: Tree, roots: seq<string>): seq<Path> {
    if roots == [] then []
    else Visited(t, roots[..|roots| - 1]) + RootVisit(t, roots[|roots| - 1])
  }

  ghost predicate RootRecordable(t: Tree, root: string) {
    AllRecordable(t, RootVisit(t, root), Limit(root))
  }

  /** All the roots together stay within the path, depth, file and byte limits. */
  ghost predicate RootsFit(t: Tree, roots: seq<string>) {
    && (forall i | 0 <= i < |roots| :: RootRecordable(t, roots[i]))
    && |Visited(t, roots)| <= MAX_FILES
    && Size(t, Visited(t, roots)) <= MAX_DATA_BYTES
  }

  /** What fits: paths that are there, at most 32 levels below their root and safe; 4096 of them; 256 MiB. */
  lemma RootsFitMeans(t: Tree, roots: seq<string>)
    ensures RootsFit(t, roots) <==>
      && (forall r, i | 0 <= r < |roots| && 0 <= i < |RootVisit(t, roots[r])| ::
            var p := RootVisit(t, roots[r])[i];
            p in t && |p| <= |Split(roots[r])| + 32 && SafeRelative(Join(p)))
      && |Visited(t, roots)| <= 4096 && Size(t, Visited(t, roots)) <= 268435456
  {
    hide Split, Join, SafeRelative, Size, Visited, RootVisit;
  }

  lemma VisitedStep(t: Tree, roots: seq<string>, root: string)
    ensures Visited(t, roots + [root]) == Visited(t, roots) + RootVisit(t, root)
    ensures Size(t, Visited(t, roots + [root])) == Size(t, Visited(t, roots)) + Size(t, RootVisit(t, root))
  {
    hide Size, RootVisit;
    assert (roots + [root])[..|roots|] == roots;
    SizeConcat(t, Visited(t, roots), RootVisit(t, root));
  }

  lemma RootsFitStep(t: Tree, roots: seq<string>, root: string)
    requires RootsFit(t, roots)
    ensures RootsFit(t, roots + [root])
       <==> Fits(t, RootVisit(t, root), Limit(root), |Visited(t, roots)|, Size(t, Visited(t, roots)))
  {
    hide Size, RootVisit, AllRecordable, Visited, Limit;
    VisitedStep(t, roots, root);
    var all := roots + [root];
    assert all[|roots|] == root && forall i | 0 <= i < |roots| :: all[i] == roots[i];
  }

  lemma {:induction false} RootsFitPrefix(t: Tree, roots: seq<string>, k: nat)
    requires RootsFit(t, roots) && k <= |roots|
    ensures RootsFit(t, roots[..k])
    decreases |roots|
  {
    hide Size, RootRecordable, Visited;
    if k == |roots| {
      assert roots[..k] == roots;
    } else {
      var front := roots[..|roots| - 1];
      assert roots == front + [roots[|roots| - 1]];
      VisitedStep(t, front, roots[|roots| - 1]);
      RootsFitPrefix(t, front, k);
      assert front[..k] == roots[..k];
    }
  }

  /** The reviewed bind directories, and the credentials file when there is one. */
  ghost function Roots(t: Tree, contract: Contract): seq<string> {
    contract.bindDirectories + if Split(SECRETS_FILE) in t then [SECRETS_FILE] else []
  }

  /** Captures all app data, or refuses because some limit is exceeded or a path is unsafe or missing. */
  method CaptureFiles(project: Project, contract: Contract, hash: seq<byte> -> string)
    returns (ok: bool, files: seq<Entry>, total: nat)
    requires WellFormed(project.nodes)
    ensures ok <==> RootsFit(project.nodes, Roots(project.nodes, contract))
    ensures ok ==>
      && files == EntriesAt(project.nodes, Visited(project.nodes, Roots(project.nodes, contract)), hash)
      && total == Size(project.nodes, Visited(project.nodes, Roots(project.nodes, contract)))
  {
    hide Fits, EntriesAt, Size, Visited, RootRecordable, Split, WellFormed, RootsFit;
    ghost var t := project.nodes;
    ghost var roots := Roots(t, contract);
    var capture := new Capture(hash);
    files, total := [], 0;
    CaptureBegins(t, hash);
    for i := 0 to |contract.bindDirectories|
      invariant CapturedRoots(t, roots[..i], hash, capture.State())
      invariant Bounded(capture.State())
      invariant fresh(capture) && capture.hash == hash
      invariant project.nodes == t
    {
      ghost var s := capture.State();
      ok := capture.Collect(project, contract.bindDirectories[i], 0);
      CaptureGoesOn(t, roots, i, hash, s, capture.State(), ok);
      if !ok {
        return;
      }
    }
    if Split(SECRETS_FILE) in project.nodes {
      ghost var s := capture.State();
      ok := capture.Collect(project, SECRETS_FILE, 0);
      CaptureGoesOn(t, roots, |contract.bindDirectories|, hash, s, capture.State(), ok);
      if !ok {
        return;
      }
    }
    assert roots[..|roots|] == roots;
    CaptureEnds(t, roots, hash, capture.State());
    ok, files, total := true, capture.entries, capture.total;
  }

  ghost predicate CapturedRoots(t: Tree, roots: seq<string>, hash: seq<byte> -> string, s: Progress) {
    && RootsFit(t, roots)
    && s == Progress(EntriesAt(t, Visited(t, roots), hash), Size(t, Visited(t, roots)))
  }

  lemma CaptureBegins(t: Tree, hash: seq<byte> -> string)
    ensures CapturedRoots(t, [], hash, Progress([], 0))
  {
  }

  lemma CaptureEnds(t: Tree, roots: seq<string>, hash: seq<byte> -> string, s: Progress)
    requires CapturedRoots(t, roots, hash, s)
    ensures RootsFit(t, roots)
    ensures s.entries == EntriesAt(t, Visited(t, roots), hash) && s.total == Size(t, Visited(t, roots))
    ensures Bounded(s)
  {
  }

  lemma CaptureGoesOn(t: Tree, roots: seq<string>, i: nat, hash: seq<byte> -> string,
                      s: Progress, s': Progress, ok: bool)
    requires i < |roots| && CapturedRoots(t, roots[..i], hash, s)
    requires Captures(t, RootVisit(t, roots[i]), Limit(roots[i]), hash, s, s', ok)
    ensures ok ==> CapturedRoots(t, roots[..i + 1], hash, s')
    ensures !ok ==> !RootsFit(t, roots)
  {
    hide Fits, EntriesAt, Size, Visited, RootVisit, RootsFit;
    assert roots[..i + 1] == roots[..i] + [roots[i]];
    RootsFitStep(t, roots[..i], roots[i]);
    VisitedStep(t, roots[..i], roots[i]);
    EntriesConcat(t, Visited(t, roots[..i]), RootVisit(t, roots[i]), hash);
    if RootsFit(t, roots) {
      RootsFitPrefix(t, roots, i + 1);
    }
  }

  /** A walk that stays within its depth limit misses nothing below its root. */
  lemma RootVisitIsSubtree(t: Tree, root: string, q: Path)
    requires WellFormed(t) && RootRecordable(t, root)
    ensures Split(root) in t
    ensures q in RootVisit(t, root) <==> q in t && Split(root) <= q
  {
    hide Split, WellFormed, Recordable;
    var p, walk := Split(root), RootVisit(t, root);
    assert walk[0] == p;
    assert Recordable(t, walk[0], Limit(root));
    assert p in t by { RecordableExists(t, p, Limit(root)); }
    WalkIsSubtree(t, p, Limit(root) + 2 - |p|, q);
    if q in t && p <= q && |q| > Limit(root) {
      var deep := q[..Limit(root) + 1];
      if deep != q {
        AncestorsAreFolders(t, deep, q);
      }
      WalkIsSubtree(t, p, Limit(root) + 2 - |p|, deep);
      var i :| 0 <= i < |walk| && walk[i] == deep;
      RecordableExists(t, walk[i], Limit(root));
    }
  }

  lemma RecordableExists(t: Tree, p: Path, limit: nat)
    requires Recordable(t, p, limit)
    ensures p in t && |p| <= limit
  {
  }

  ghost predicate UnderSome(roots: seq<string>, q: Path) {
    exists i | 0 <= i < |roots| :: Split(roots[i]) <= q
  }

  lemma {:induction false} VisitedIsSubtrees(t: Tree, roots: seq<string>, q: Path)
    requires WellFormed(t) && forall i | 0 <= i < |roots| :: RootRecordable(t, roots[i])
    ensures q in Visited(t, roots) <==> q in t && UnderSome(roots, q)
  {
    hide Split, WellFormed, RootRecordable, RootVisit;
    if roots != [] {
      var n := |roots| - 1;
      VisitedIsSubtrees(t, roots[..n], q);
      RootVisitIsSubtree(t, roots[n], q);
      if UnderSome(roots[..n], q) {
        var i :| 0 <= i < n && Split(roots[..n][i]) <= q;
        assert Split(roots[i]) <= q;
      }
      if i :| 0 <= i < |roots| && Split(roots[i]) <= q {
        assert i == n || Split(roots[..n][i]) <= q;
      }
    }
  }

  /** A captured path is spelled by its components. */
  lemma EntryIsAt(t: Tree, p: Path, hash: seq<byte> -> string)
    requires WellFormed(t) && p in t && p != []
    ensures At(EntryAt(t, p, hash)) == p && NodeOf(EntryAt(t, p, hash)) == t[p]
  {
    assert Attached(t, p);
    SplitJoin(p);
  }

  /**
   * What the capture of a project under a supported contract yields: one entry for every path at
   * or below a bind directory, and for the credentials file, with no other entry.
   */
  lemma CaptureIsComplete(t: Tree, contract: Contract, hash: seq<byte> -> string, q: Path)
    requires WellFormed(t) && RootsFit(t, Roots(t, contract)) && q != []
    ensures var files := EntriesAt(t, Visited(t, Roots(t, contract)), hash);
      && ((exists e | e in files :: At(e) == q)
          <==> q in t && (UnderSome(contract.bindDirectories, q) || [SECRETS_FILE] <= q))
      && (forall e | e in files && At(e) == q :: NodeOf(e) == t[q] && e == EntryAt(t, q, hash))
  {
    hide Split, WellFormed, Size, RootRecordable, Visited, EntryAt;
    var roots := Roots(t, contract);
    var paths := Visited(t, roots);
    var files := EntriesAt(t, paths, hash);
    SecretsPath();
    VisitedIsSubtrees(t, roots, q);
    RootsSplit(t, contract, q);
    forall e | e in files && At(e) == q ensures q in paths && e == EntryAt(t, q, hash) && NodeOf(e) == t[q] {
      var i :| 0 <= i < |files| && files[i] == e;
      VisitedIsSubtrees(t, roots, paths[i]);
      NonEmptyVisited(t, roots, i);
      EntryIsAt(t, paths[i], hash);
    }
    if q in paths {
      var i :| 0 <= i < |paths| && paths[i] == q;
      EntryIsAt(t, q, hash);
      assert files[i] in files;
    }
  }

  lemma RootsSplit(t: Tree, contract: Contract, q: Path)
    requires WellFormed(t)
    ensures q in t ==>
      (UnderSome(Roots(t, contract), q) <==> UnderSome(contract.bindDirectories, q) || [SECRETS_FILE] <= q)
  {
    hide Split, Attached;
    SecretsPath();
    var binds, roots := contract.bindDirectories, Roots(t, contract);
    assert forall i | 0 <= i < |binds| :: roots[i] == binds[i];
    if q in t && [SECRETS_FILE] <= q {
      if [SECRETS_FILE] != q {
        AncestorsAreFolders(t, [SECRETS_FILE], q);
      }
      assert roots[|binds|] == SECRETS_FILE;
    }
    if UnderSome(binds, q) {
      var i :| 0 <= i < |binds| && Split(binds[i]) <= q;
      assert Split(roots[i]) <= q;
    }
  }

  lemma NonEmptyVisited(t: Tree, roots: seq<string>, i: nat)
    requires WellFormed(t) && (forall i | 0 <= i < |roots| :: RootRecordable(t, roots[i]))
    requires i < |Visited(t, roots)|
    ensures Visited(t, roots)[i] in t && Visited(t, roots)[i] != []
  {
    hide WellFormed, RootRecordable, Visited;
    VisitedIsSubtrees(t, roots, Visited(t, roots)[i]);
  }

  ghost predicate Apart(roots: seq<string>) {
    forall i, j | 0 <= i < |roots| && 0 <= j < |roots| && i != j :: !(Split(roots[i]) <= Split(roots[j]))
  }

  /** Roots that do not overlap are captured without repetition. */
  lemma {:induction false} VisitedDistinct(t: Tree, roots: seq<string>)
    requires WellFormed(t) && Apart(roots) && forall i | 0 <= i < |roots| :: RootRecordable(t, roots[i])
    ensures Distinct(Visited(t, roots))
  {
    hide Split, WellFormed, RootRecordable, RootVisit, Distinct;
    if roots == [] {
      EmptyDistinct();
    } else {
      var n := |roots| - 1;
      var front := roots[..n];
      VisitedDistinct(t, front);
      RootVisitIsSubtree(t, roots[n], Split(roots[n]));
      RootVisitDistinct(t, roots[n]);
      forall q | q in Visited(t, front) ensures q !in RootVisit(t, roots[n]) {
        VisitedIsSubtrees(t, front, q);
        RootVisitIsSubtree(t, roots[n], q);
        var i :| 0 <= i < n && Split(front[i]) <= q;
        if Split(roots[n]) <= q {
          PrefixesCompare(Split(roots[i]), Split(roots[n]), q);
        }
      }
      DistinctConcat(Visited(t, front), RootVisit(t, roots[n]));
    }
  }

  lemma EmptyDistinct()
    ensures Distinct([])
  {
  }

  lemma RootVisitDistinct(t: Tree, root: string)
    requires WellFormed(t) && Split(root) in t
    ensures Distinct(RootVisit(t, root))
  {
    WalkDistinct(t, Split(root), Limit(root) + 2 - |Split(root)|);
  }

  lemma PrefixesCompare(a: Path, b: Path, q: Path)
    requires a <= q && b <= q
    ensures a <= b || b <= a
  {
    if |a| <= |b| {
      assert a == q[..|a|] == b[..|a|];
    } else {
      assert b == q[..|b|] == a[..|b|];
    }
  }

  /**
   * Under the contract of a plan no path is captured twice: its bind directories are disjoint, and
   * none of them can overlap the credentials file.
   */
  lemma PlanCapturedOnce(t: Tree, contract: Contract)
    requires WellFormed(t) && RootsFit(t, Roots(t, contract))
    requires Increasing(contract.bindDirectories) && Disjoint(set d | d in contract.bindDirectories)
    requires forall i | 0 <= i < |contract.bindDirectories| :: IsFolder(t, Split(contract.bindDirectories[i]))
    requires [SECRETS_FILE] in t ==> t[[SECRETS_FILE]].File?
    ensures Distinct(Visited(t, Roots(t, contract)))
  {
    hide Split, WellFormed, RootRecordable, Visited, Size, Below;
    SecretsPath();
    var binds, roots := contract.bindDirectories, Roots(t, contract);
    forall i, j | 0 <= i < |roots| && 0 <= j < |roots| && i != j ensures !(Split(roots[i]) <= Split(roots[j])) {
      if i < |binds| && j < |binds| {
        if binds[i] == binds[j] {
          IncreasingDistinct(binds, i, j);
        }
        assert !Under(binds[j], binds[i]);
      } else if i < |binds| {
        SecretsNotInside(t, Split(binds[i]));
      } else {
        SecretsNotAbove(t, Split(binds[j]));
      }
    }
    VisitedDistinct(t, roots);
  }

  lemma SecretsNotInside(t: Tree, d: Path)
    requires IsFile(t, [SECRETS_FILE]) && IsFolder(t, d) && d != []
    ensures !(d <= [SECRETS_FILE])
  {
    assert d <= [SECRETS_FILE] ==> d == [] || d == [SECRETS_FILE];
  }

  lemma SecretsNotAbove(t: Tree, d: Path)
    requires WellFormed(t) && IsFile(t, [SECRETS_FILE]) && IsFolder(t, d)
    ensures !([SECRETS_FILE] <= d)
  {
    hide WellFormed;
    assert [SECRETS_FILE] <= d ==> [SECRETS_FILE] == d || [SECRETS_FILE] < d;
    if [SECRETS_FILE] < d {
      AncestorsAreFolders(t, [SECRETS_FILE], d);
    }
  }

  /** The credentials path is a file, or an empty folder, or absent. */
  ghost predicate Solitary(t: Tree) { forall q | q in t :: !([SECRETS_FILE] < q) }

  /** A snapshot assembled from a capture that succeeded. */
  ghost predicate CapturedFrom(checks: Checks, t: Tree, s: Snapshot) {
    && WellFormed(t)
    && s.schemaVersion == 1 && s.engine.ManagedWsl? && Supported(s.contract)
    && RootsFit(t, Roots(t, s.contract))
    && s.files == EntriesAt(t, Visited(t, Roots(t, s.contract)), checks.hash)
  }

  /** What capturing does not look at and restoring insists on. */
  ghost predicate Restorable(checks: Checks, t: Tree, s: Snapshot) {
    && (forall i | 0 <= i < |s.contract.bindDirectories| :: IsFolder(t, Split(s.contract.bindDirectories[i])))
    && Solitary(t)
    && FoldsDistinct(checks, s.files)
  }

  ghost predicate Captured(checks: Checks, t: Tree, s: Snapshot) { CapturedFrom(checks, t, s) && Restorable(checks, t, s) }

  /** The archives of the named volumes, captured separately within the same byte budget. */
  ghost predicate VolumesReady(checks: Checks, s: Snapshot) {
    && (forall i | 0 <= i < |s.volumes| :: VolumeSound(checks, s.contract, s.volumes[i]))
    && (forall i | 0 <= i < |s.volumes| :: s.volumes[i].length == |s.volumes[i].bytes|)
    && NamesDistinct(s.volumes) && |s.volumes| == |s.contract.namedVolumes| <= MAX_VOLUMES
    && Sum(s.files) + VolumeSum(s.volumes) <= MAX_DATA_BYTES
  }

  lemma CapturedEntry(checks: Checks, t: Tree, s: Snapshot, e: Entry)
    requires Captured(checks, t, s) && e in s.files
    ensures At(e) in t && NodeOf(e) == t[At(e)] && e == EntryAt(t, At(e), checks.hash) && At(e) != []
    ensures UnderSome(s.contract.bindDirectories, At(e)) || At(e) == [SECRETS_FILE]
    ensures SafeRelative(e.path)
  {
    hide Split, WellFormed, Size, RootRecordable, Visited, FoldsDistinct, SafeRelative, EntryAt;
    var roots := Roots(t, s.contract);
    var paths := Visited(t, roots);
    var i :| 0 <= i < |s.files| && s.files[i] == e;
    NonEmptyVisited(t, roots, i);
    EntryIsAt(t, paths[i], checks.hash);
    CaptureIsComplete(t, s.contract, checks.hash, paths[i]);
    assert !([SECRETS_FILE] < paths[i]);
    VisitedSafe(t, roots, i);
    EntryPath(t, paths[i], checks.hash);
  }

  lemma EntryPath(t: Tree, p: Path, hash: seq<byte> -> string)
    ensures EntryAt(t, p, hash).path == Join(p)
  {
  }

  lemma {:induction false} VisitedSafe(t: Tree, roots: seq<string>, i: nat)
    requires (forall i | 0 <= i < |roots| :: RootRecordable(t, roots[i])) && i < |Visited(t, roots)|
    ensures SafeRelative(Join(Visited(t, roots)[i]))
  {
    hide SafeRelative, RootVisit;
    var n := |roots| - 1;
    var front := Visited(t, roots[..n]);
    if i < |front| {
      VisitedSafe(t, roots[..n], i);
    } else {
      assert RootRecordable(t, roots[n]);
      assert Recordable(t, RootVisit(t, roots[n])[i - |front|], Limit(roots[n]));
    }
  }

  /** Every path of the project that the contract covers is in the capture. */
  lemma CapturedPath(checks: Checks, t: Tree, s: Snapshot, q: Path) returns (e: Entry)
    requires Captured(checks, t, s) && q in t && q != []
    requires UnderSome(s.contract.bindDirectories, q) || q == [SECRETS_FILE]
    ensures e in s.files && At(e) == q && NodeOf(e) == t[q]
  {
    hide Split, WellFormed, Size, RootRecordable, Visited, FoldsDistinct, EntryAt;
    CaptureIsComplete(t, s.contract, checks.hash, q);
    e :| e in s.files && At(e) == q;
  }

  lemma CapturedFileSound(checks: Checks, t: Tree, s: Snapshot, e: Entry)
    requires Captured(checks, t, s) && e in s.files
    ensures FileSound(checks, s.contract, e)
    ensures e.length == |e.bytes|
  {
    hide Split, WellFormed, RootsFit, Visited, FoldsDistinct, SafeRelative, Roots;
    CapturedEntry(checks, t, s, e);
    SecretsPath();
    if At(e) == [SECRETS_FILE] {
      SplitInjective(e.path, SECRETS_FILE);
    } else {
      var i :| 0 <= i < |s.contract.bindDirectories| && Split(s.contract.bindDirectories[i]) <= At(e);
      assert Under(e.path, s.contract.bindDirectories[i]);
    }
  }

  lemma CapturedShadowsNothing(checks: Checks, t: Tree, s: Snapshot, e: Entry, f: Entry)
    requires Captured(checks, t, s) && e in s.files && f in s.files
    ensures !Shadows(e, f)
  {
    hide Split, RootsFit, Visited, FoldsDistinct, SafeRelative, Roots, EntryAt, Attached;
    CapturedEntry(checks, t, s, e);
    CapturedEntry(checks, t, s, f);
    if Shadows(e, f) {
      if At(f) == At(e) {
        SplitInjective(f.path, e.path);
      } else {
        AncestorsAreFolders(t, At(f), At(e));
      }
    }
  }

  /** A capture passes the structural check and can be framed. */
  lemma CapturedIsAccepted(checks: Checks, t: Tree, s: Snapshot)
    requires Captured(checks, t, s) && VolumesReady(checks, s)
    ensures Accepted(checks, s) && Countable(s) && Consistent(s)
  {
    hide Split, WellFormed, Visited, SafeRelative, FileSound, VolumeSound, Shadows, Size, Sum, VolumeSum, RootRecordable,
      UnderSome, FoldsDistinct, EntryAt, NodeOf;
    forall i | 0 <= i < |s.files|
      ensures FileSound(checks, s.contract, s.files[i]) && s.files[i].length == |s.files[i].bytes|
    {
      CapturedFileSound(checks, t, s, s.files[i]);
    }
    forall i, j | 0 <= i < |s.files| && 0 <= j < |s.files| ensures !Shadows(s.files[i], s.files[j]) {
      CapturedShadowsNothing(checks, t, s, s.files[i], s.files[j]);
    }
    forall i | 0 <= i < |s.contract.bindDirectories|
      ensures HoldsDirectory(s.files, s.contract.bindDirectories[i])
    {
      CapturedBind(checks, t, s, i);
    }
  }

  /** An entry of the capture stands for the node that its path spells. */
  lemma CapturedNode(checks: Checks, t: Tree, s: Snapshot, j: nat)
    requires CapturedFrom(checks, t, s) && j < |s.files|
    ensures At(s.files[j]) in t && NodeOf(s.files[j]) == t[At(s.files[j])]
  {
    hide Split, WellFormed, Size, RootRecordable, Visited, EntryAt, At, NodeOf;
    var roots := Roots(t, s.contract);
    var p := Visited(t, roots)[j];
    NonEmptyVisited(t, roots, j);
    VisitedIsSubtrees(t, roots, p);
    assert p in Visited(t, roots);
    EntryIsAt(t, p, checks.hash);
  }

  lemma AcceptedBind(checks: Checks, t: Tree, s: Snapshot, i: nat)
    requires CapturedFrom(checks, t, s) && i < |s.contract.bindDirectories|
    requires HoldsDirectory(s.files, s.contract.bindDirectories[i])
    ensures IsFolder(t, Split(s.contract.bindDirectories[i]))
  {
    hide CapturedFrom, Split;
    var j :| 0 <= j < |s.files| && s.files[j].path == s.contract.bindDirectories[i] && s.files[j].directory;
    CapturedNode(checks, t, s, j);
  }

  /** A path below the credentials is captured twice if a bind directory covers it, and is not admitted otherwise. */
  lemma AcceptedSolitary(checks: Checks, t: Tree, s: Snapshot, q: Path)
    requires CapturedFrom(checks, t, s) && Accepted(checks, s) && q in t
    ensures !([SECRETS_FILE] < q)
  {
    hide Split, WellFormed, Size, RootRecordable, Visited, EntryAt, SafeRelative, Shadows, FoldsDistinct, VolumeSound,
      Sum, VolumeSum, RootVisit;
    if [SECRETS_FILE] < q {
      SecretsPath();
      AncestorsAreFolders(t, [SECRETS_FILE], q);
      CaptureIsComplete(t, s.contract, checks.hash, q);
      var e :| e in s.files && At(e) == q;
      var i :| 0 <= i < |s.files| && s.files[i] == e;
      assert FileSound(checks, s.contract, s.files[i]);
      var j :| 0 <= j < |s.contract.bindDirectories| && Under(e.path, s.contract.bindDirectories[j]);
      CapturedTwice(checks, t, s, q, j);
    }
  }

  lemma CapturedTwice(checks: Checks, t: Tree, s: Snapshot, q: Path, j: nat)
    requires CapturedFrom(checks, t, s) && q in t && Split(SECRETS_FILE) in t && Split(SECRETS_FILE) <= q
    requires j < |s.contract.bindDirectories| && Split(s.contract.bindDirectories[j]) <= q
    ensures !FoldsDistinct(checks, s.files)
  {
    hide Split, WellFormed, Size, RootRecordable, Visited, EntryAt, RootVisit;
    var binds, roots := s.contract.bindDirectories, Roots(t, s.contract);
    assert roots == binds + [SECRETS_FILE] && roots[..|binds|] == binds;
    assert forall i | 0 <= i < |binds| :: roots[i] == binds[i];
    VisitedStep(t, binds, SECRETS_FILE);
    VisitedIsSubtrees(t, binds, q);
    assert RootRecordable(t, roots[|binds|]);
    RootVisitIsSubtree(t, SECRETS_FILE, q);
    var first, second := Visited(t, binds), RootVisit(t, SECRETS_FILE);
    assert q in first && q in second;
    var a :| 0 <= a < |first| && first[a] == q;
    var b :| 0 <= b < |second| && second[b] == q;
    var paths := Visited(t, roots);
    assert paths[a] == q && paths[|first| + b] == q;
    assert s.files[a] == s.files[|first| + b];
  }

  /**
   * A capture that succeeded passes the check of restore if and only if its bind roots are folders, nothing
   * lies below the credentials path, and no two captured paths fold together. Other backups succeed and
   * can never be restored.
   */
  lemma RestorableExactly(checks: Checks, t: Tree, s: Snapshot)
    requires CapturedFrom(checks, t, s) && VolumesReady(checks, s)
    ensures Accepted(checks, s) <==> Restorable(checks, t, s)
  {
    hide WellFormed, RootsFit, VolumesReady, Visited, Roots, EntriesAt, FileSound, FoldsDistinct, Shadows, Split;
    if Restorable(checks, t, s) {
      CapturedIsAccepted(checks, t, s);
    }
    if Accepted(checks, s) {
      forall i | 0 <= i < |s.contract.bindDirectories| ensures IsFolder(t, Split(s.contract.bindDirectories[i])) {
        AcceptedBind(checks, t, s, i);
      }
      forall q | q in t ensures !([SECRETS_FILE] < q) {
        AcceptedSolitary(checks, t, s, q);
      }
    }
  }

  lemma CapturedBind(checks: Checks, t: Tree, s: Snapshot, i: nat)
    requires Captured(checks, t, s) && i < |s.contract.bindDirectories|
    ensures HoldsDirectory(s.files, s.contract.bindDirectories[i])
  {
    hide Split, WellFormed, Visited, Size, RootRecordable, FoldsDistinct, EntryAt;
    var directory := s.contract.bindDirectories[i];
    var e := CapturedPath(checks, t, s, Split(directory));
    SplitInjective(e.path, directory);
    var j :| 0 <= j < |s.files| && s.files[j] == e;
  }

  /**
   * How the restored project `after` relates to the captured project `t` and to the target `before`
   * at one path: covered paths are exactly as captured, everything else is as it was, and the only
   * other additions are folders leading to a bind directory.
   */
  ghost predicate Reproduced(t: Tree, contract: Contract, before: Tree, after: Tree, q: Path) {
    if UnderSome(contract.bindDirectories, q) || q == [SECRETS_FILE] then
      (q in after <==> q in t) && (q in t ==> after[q] == t[q])
    else
      && (q in before ==> q in after && after[q] == before[q])
      && (q in after && q !in before ==>
           after[q] == Folder && exists i | 0 <= i < |contract.bindDirectories| :: q < Split(contract.bindDirectories[i]))
  }

  lemma RestoredIsCaptured(checks: Checks, t: Tree, s: Snapshot, before: Tree, after: Tree, q: Path)
    requires Captured(checks, t, s)
    requires WellFormed(before) && Admissible(before, s) && Overlaid(before, (set e | e in s.files), after)
    ensures Reproduced(t, s.contract, before, after, q)
  {
    hide Split, WellFormed, RootsFit, Visited, SafeRelative, Roots, EntryAt, FoldsDistinct, NodeOf, At, Captured, Vacant;
    var written := set e | e in s.files;
    SecretsPath();
    if UnderSome(s.contract.bindDirectories, q) || q == [SECRETS_FILE] {
      if q in t {
        CoveredNotRoot(s.contract, q);
        var e := CapturedPath(checks, t, s, q);
        assert e in written;
      } else if q in after {
        CoveredAndOld(checks, t, s, before, q);
        assert Touched(written, q);
        var e :| e in written && q <= At(e);
        CapturedAncestor(checks, t, s, e, q);
      }
    } else if q in after && q !in before {
      assert Touched(written, q);
      var e :| e in written && q <= At(e);
      CapturedAncestor(checks, t, s, e, q);
      forall f | f in written ensures At(f) != q {
        CapturedEntry(checks, t, s, f);
      }
      LeadsToBind(checks, t, s, before, e, q);
    }
  }

  lemma CoveredNotRoot(contract: Contract, q: Path)
    requires UnderSome(contract.bindDirectories, q) || q == [SECRETS_FILE]
    ensures q != []
  {
  }

  lemma CapturedAncestor(checks: Checks, t: Tree, s: Snapshot, e: Entry, q: Path)
    requires Captured(checks, t, s) && e in s.files && q <= At(e)
    ensures q in t
  {
    hide Split, RootsFit, Visited, SafeRelative, Roots, EntryAt, FoldsDistinct, NodeOf, Attached;
    CapturedEntry(checks, t, s, e);
    if q != At(e) {
      AncestorsAreFolders(t, q, At(e));
    }
  }

  /** Nothing below a bind directory existed before an admissible restore. */
  lemma CoveredAndOld(checks: Checks, t: Tree, s: Snapshot, before: Tree, q: Path)
    requires Captured(checks, t, s) && WellFormed(before) && Admissible(before, s) && q !in t
    requires UnderSome(s.contract.bindDirectories, q) || q == [SECRETS_FILE]
    ensures q !in before
  {
    hide Split, WellFormed, RootsFit, Visited, SafeRelative, Roots, EntryAt, FoldsDistinct, NodeOf, Vacant;
    SecretsPath();
    if q != [SECRETS_FILE] && q in before {
      var i :| 0 <= i < |s.contract.bindDirectories| && Split(s.contract.bindDirectories[i]) <= q;
      assert IsFolder(t, Split(s.contract.bindDirectories[i]));
      assert Split(s.contract.bindDirectories[i]) == q || Split(s.contract.bindDirectories[i]) < q;
      VacantBelow(before, s.contract.bindDirectories[i], q);
    }
  }

  lemma LeadsToBind(checks: Checks, t: Tree, s: Snapshot, before: Tree, e: Entry, q: Path)
    requires Captured(checks, t, s) && WellFormed(before) && e in s.files && q <= At(e) && q !in before
    requires !UnderSome(s.contract.bindDirectories, q) && q != [SECRETS_FILE]
    ensures exists i | 0 <= i < |s.contract.bindDirectories| :: q < Split(s.contract.bindDirectories[i])
  {
    hide Split, RootsFit, Visited, SafeRelative, Roots, EntryAt, FoldsDistinct, NodeOf, Attached, Captured;
    CapturedEntry(checks, t, s, e);
    assert q != [];
    if At(e) != [SECRETS_FILE] {
      var i :| 0 <= i < |s.contract.bindDirectories| && Split(s.contract.bindDirectories[i]) <= At(e);
      PrefixesCompare(Split(s.contract.bindDirectories[i]), q, At(e));
    }
  }

  /** The snapshot assembled from a capture. */
  ghost function Assembled(checks: Checks, t: Tree, contract: Contract, daemon: string, volumes: seq<Volume>): Snapshot {
    Snapshot(1, contract, ManagedWsl, daemon, EntriesAt(t, Visited(t, Roots(t, contract)), checks.hash), volumes)
  }

  ghost predicate TrueLengths(volumes: seq<Volume>) {
    forall i | 0 <= i < |volumes| :: volumes[i].length == |volumes[i].bytes|
  }

  /** When a backup of `t` can be restored into `before`. */
  ghost predicate RoundTrips(checks: Checks, codec: Codec, t: Tree, before: Tree, s: Snapshot) {
    && Captured(checks, t, s) && VolumesReady(checks, s) && |codec.Metadata(s)| <= MAX_METADATA_BYTES
    && Admissible(before, s) && Clear(before, s)
  }

  /**
   * The whole pipeline: capture, encode, decode, check and restore into another project. It restores
   * exactly when the capture is within its limits and restorable and the target passes admission with
   * nothing in the way, and then the target has exactly the captured data under every bind directory.
   */
  method BackUpAndRestore(checks: Checks, codec: Codec, source: Project, target: Project, contract: Contract,
                          daemon: string, volumes: seq<Volume>, windows: bool) returns (r: Outcome)
    requires source != target && codec.Lawful()
    requires WellFormed(source.nodes) && WellFormed(target.nodes)
    modifies target
    ensures Preserves(old(target.nodes), target.nodes)
    ensures var s := Assembled(checks, source.nodes, contract, daemon, volumes);
      TrueLengths(volumes) ==>
        && (r == Restored <==> RoundTrips(checks, codec, source.nodes, old(target.nodes), s))
        && (r == Restored ==> forall q :: Reproduced(source.nodes, contract, old(target.nodes), target.nodes, q))
  {
    hide Captured, VolumesReady, Accepted, Admissible, Clear, WellFormed, RootsFit, Visited, Overlaid, Frames,
      Encoding, Reproduced, EntriesAt, Preserves, Consistent, Countable, TrueLengths;
    ghost var t, before := source.nodes, target.nodes;
    ghost var s := Assembled(checks, t, contract, daemon, volumes);
    ghost var ready := && Captured(checks, t, s) && VolumesReady(checks, s)
                       && |codec.Metadata(s)| <= MAX_METADATA_BYTES;
    var captured, files, total := CaptureFiles(source, contract, checks.hash);
    if ready {
      ReadyFacts(checks, codec, t, s);
    }
    PreservesItself(before);
    if !captured {
      return Refused;
    }
    var encoded := Encode(codec, Snapshot(1, contract, ManagedWsl, daemon, files, volumes));
    if encoded.Err? {
      return Refused;
    }
    var decoded := DecodePlain(codec, encoded.value);
    if decoded.Err? {
      return Refused;
    }
    if TrueLengths(volumes) {
      AssembledConsistent(checks, t, contract, daemon, volumes);
      DecodedIsEncoded(codec, s, decoded.value);
      if Accepted(checks, s) {
        AcceptedIsReady(checks, t, s);
      }
    }
    r := RestoreFiles(target, checks, decoded.value, windows);
    if TrueLengths(volumes) && r == Restored {
      forall q ensures Reproduced(t, contract, before, target.nodes, q) {
        RestoredIsCaptured(checks, t, s, before, target.nodes, q);
      }
    }
  }

  lemma AssembledConsistent(checks: Checks, t: Tree, contract: Contract, daemon: string, volumes: seq<Volume>)
    requires TrueLengths(volumes)
    ensures Consistent(Assembled(checks, t, contract, daemon, volumes))
  {
    hide Roots, Visited;
  }

  /** What decodes from an encoding with true lengths is what was encoded. */
  lemma DecodedIsEncoded(codec: Codec, s: Snapshot, d: Snapshot)
    requires codec.Lawful() && |codec.Metadata(s)| <= MAX_METADATA_BYTES && Consistent(s)
    requires Frames(codec, Encoding(codec, s), d)
    ensures d == s && Countable(s)
  {
    hide Flatten, Total, FromLittleEndian, Consistent;
    var text := codec.Metadata(s);
    var bytes := Encoding(codec, s);
    LittleEndianInverse(|text|);
    assert bytes[..4] == LittleEndian(|text|);
    assert bytes[4..4 + |text|] == text;
    assert Blank(d) == Blank(s);
    assert |d.files| == |Blank(d).files| && |s.files| == |Blank(s).files|;
    EncodingFrames(codec, s);
    FrameUnique(codec, bytes, s, d);
  }

  /** A capture that the check of restore accepts was restorable, and so were its volumes. */
  lemma AcceptedIsReady(checks: Checks, t: Tree, s: Snapshot)
    requires Accepted(checks, s) && Countable(s) && WellFormed(t) && TrueLengths(s.volumes)
    requires s == Assembled(checks, t, s.contract, s.daemonIdSha256, s.volumes) && RootsFit(t, Roots(t, s.contract))
    ensures Captured(checks, t, s) && VolumesReady(checks, s)
  {
    hide WellFormed, RootsFit, Roots, Visited, VolumeSound, FileSound, FoldsDistinct, Shadows, Restorable;
    RestorableExactly(checks, t, s);
  }

  lemma PreservesItself(t: Tree)
    ensures Preserves(t, t)
  {
  }

  lemma ReadyFacts(checks: Checks, codec: Codec, t: Tree, s: Snapshot)
    requires codec.Lawful() && Captured(checks, t, s) && VolumesReady(checks, s)
    requires |codec.Metadata(s)| <= MAX_METADATA_BYTES
    ensures RootsFit(t, Roots(t, s.contract)) && Accepted(checks, s)
    ensures Frames(codec, Encoding(codec, s), s) && |Encoding(codec, s)| <= MAX_ENCODED_BYTES
  {
    hide Frames, Encoding, Accepted, RootsFit, Consistent, Countable;
    CapturedIsAccepted(checks, t, s);
    EncodingFrames(codec, s);
    DataWithinLimit(checks, s);
    EncodingSizeNeverExceeds(codec, s);
  }

  lemma DataWithinLimit(checks: Checks, s: Snapshot)
    requires Consistent(s) && Sum(s.files) + VolumeSum(s.volumes) <= MAX_DATA_BYTES
    ensures Total(Lengths(s)) <= MAX_DATA_BYTES
  {
    TotalConcat(FileLengths(s.files), VolumeLengths(s.volumes));
    hide Sum, Total, VolumeSum;
    forall i | 0 <= i < |s.files| ensures s.files[i].length == |s.files[i].bytes| {
      assert Bodies(s)[i] == s.files[i].bytes && Lengths(s)[i] == s.files[i].length;
    }
    forall i | 0 <= i < |s.volumes| ensures s.volumes[i].length == |s.volumes[i].bytes| {
      assert Bodies(s)[|s.files| + i] == s.volumes[i].bytes && Lengths(s)[|s.files| + i] == s.volumes[i].length;
    }
    FileTotal(s.files);
    VolumeTotal(s.volumes);
  }

  lemma {:induction false} FileTotal(files: seq<Entry>)
    requires forall i | 0 <= i < |files| :: files[i].length == |files[i].bytes|
    ensures Total(FileLengths(files)) == Sum(files)
  {
    if files != [] {
      FileTotal(files[1..]);
      assert FileLengths(files)[1..] == FileLengths(files[1..]);
    }
  }

  lemma {:induction false} VolumeTotal(volumes: seq<Volume>)
    requires forall i | 0 <= i < |volumes| :: volumes[i].length == |volumes[i].bytes|
    ensures Total(VolumeLengths(volumes)) == VolumeSum(volumes)
  {
    if volumes != [] {
      var front, last := volumes[..|volumes| - 1], volumes[|volumes| - 1];
      VolumeTotal(front);
      assert VolumeLengths(volumes) == VolumeLengths(front) + [last.length];
      TotalConcat(VolumeLengths(front), [last.length]);
    }
  }
}
