/** Replaying an accepted snapshot into an existing project. */
module SnapshotRestore {
  import opened Text
  import opened SnapshotPaths
  import opened ProjectTree
  import opened SnapshotCapture
  import opened SnapshotFraming
  import opened SnapshotContract
  import opened StableSort

  datatype Outcome = Restored | Refused | Interrupted

  function At(e: Entry): Path { Split(e.path) }

  function NodeOf(e: Entry): Node { if e.directory then Folder else File(e.bytes) }

  /** Shallow entries first, folders before files at the same depth. */
  function Order(e: Entry): int {
    2 * Slashes(e.path) + if e.directory then 0 else 1
  }

  /** Nothing that existed was overwritten or removed. */
  ghost predicate Preserves(t: Tree, t': Tree) {
    forall p | p in t :: p in t' && t'[p] == t[p]
  }

  ghost predicate Touched(written: set<Entry>, p: Path) {
    exists e | e in written :: p <= At(e)
  }

  /** `t'` is `t` with exactly the written entries added, and folders leading to them. */
  ghost predicate Overlaid(t: Tree, written: set<Entry>, t': Tree) {
    && Preserves(t, t')
    && (forall e | e in written :: At(e) in t' && t'[At(e)] == NodeOf(e))
    && (forall p | p in t' :: p in t || Touched(written, p))
    && (forall e, k | e in written && 0 <= k <= |At(e)| :: At(e)[..k] in t')
    && (forall p | p in t' && p !in t && (forall e | e in written :: At(e) != p) :: t'[p] == Folder)
  }

  /** The admission checks made before the first write. */
  ghost predicate Vacant(t: Tree, directory: string) {
    Split(directory) in t ==> t[Split(directory)].Folder? && Children(t, Split(directory)) == {}
  }

  ghost predicate Admissible(t: Tree, s: Snapshot) {
    && (forall i | 0 <= i < |s.contract.bindDirectories| :: Vacant(t, s.contract.bindDirectories[i]))
    && Split(SECRETS_FILE) !in t
  }

  /** No bind directory has a file of the project as an ancestor. */
  ghost predicate Clear(t: Tree, s: Snapshot) {
    forall i | 0 <= i < |s.contract.bindDirectories| :: !FileAbove(t, Split(s.contract.bindDirectories[i]))
  }

  /** One step of the replay: the folders leading to an entry, then the entry. */
  ghost function Put(t: Tree, e: Entry): Tree
    requires At(e) != []
  {
    if e.directory then WithFolders(t, At(e))
    else WithFolders(t, At(e)[..|At(e)| - 1])[At(e) := File(e.bytes)]
  }

  /** The step can be carried out. */
  ghost predicate Open(t: Tree, e: Entry) {
    !FileAbove(t, At(e)) && (e.directory || At(e) !in t)
  }

  lemma PutFacts(t: Tree, e: Entry)
    requires Open(t, e)
    ensures forall p :: p in Put(t, e) <==> p in t || p <= At(e)
    ensures forall p | p in t :: Put(t, e)[p] == t[p]
    ensures At(e) in Put(t, e) && Put(t, e)[At(e)] == NodeOf(e)
    ensures forall p | p in Put(t, e) && p !in t && p != At(e) :: Put(t, e)[p] == Folder
  {
    hide Split;
    var p := At(e);
    assert p[..|p|] == p;
    assert p[..|p| - 1] + [p[|p| - 1]] == p;
    forall q | q <= p ensures q == p[..|q|] {}
    assert forall k | 0 <= k < |p| :: p[..|p| - 1][..k] == p[..k];
  }

  lemma OverlaidNothing(t: Tree)
    ensures Overlaid(t, {}, t)
  {
  }

  lemma OverlaidStep(t: Tree, written: set<Entry>, t': Tree, e: Entry)
    requires Overlaid(t, written, t') && Open(t', e) && forall f | f in written :: At(f) != At(e)
    ensures Overlaid(t, written + {e}, Put(t', e))
  {
    hide Split, Put, Open, NodeOf;
    PutFacts(t', e);
    var all, t'' := written + {e}, Put(t', e);
    assert Preserves(t, t'');
    assert forall f | f in all :: At(f) in t'' && t''[At(f)] == NodeOf(f);
    forall p | p in t'' ensures p in t || Touched(all, p) {
      if p in t' && p !in t {
        assert Touched(written, p);
        var f :| f in written && p <= At(f);
        assert f in all;
      } else if p !in t' {
        assert e in all;
      }
    }
    forall f, k | f in all && 0 <= k <= |At(f)| ensures At(f)[..k] in t'' {
      if f in written {
        assert At(f)[..k] in t';
      } else {
        assert At(e)[..k] <= At(e);
      }
    }
    forall p | p in t'' && p !in t && (forall f | f in all :: At(f) != p) ensures t''[p] == Folder {
      assert e in all && At(e) != p;
      if p in t' {
        assert forall f | f in written :: f in all;
        assert t'[p] == Folder;
      }
    }
  }

  lemma SamePath(checks: Checks, files: seq<Entry>, e: Entry, f: Entry)
    requires FoldsDistinct(checks, files) && e in files && f in files && At(e) == At(f)
    ensures e == f
  {
    hide Split;
    SplitInjective(e.path, f.path);
    var i, j :| 0 <= i < |files| && 0 <= j < |files| && files[i] == e && files[j] == f;
  }

  lemma UnderVacant(t: Tree, directory: string, p: Path, k: nat)
    requires WellFormed(t) && Vacant(t, directory) && !FileAbove(t, Split(directory))
    requires Split(directory) <= p && k <= |p|
    ensures !IsFile(t, p[..k])
    ensures p in t ==> p == Split(directory)
  {
    hide Split, WellFormed;
    var d := Split(directory);
    if p[..k] in t {
      VacantBelow(t, directory, p[..k]);
      if k <= |d| {
        assert d[..k] == p[..k];
      }
    }
    if p in t {
      VacantBelow(t, directory, p);
    }
  }

  lemma SecretsPath()
    ensures Split(SECRETS_FILE) == [SECRETS_FILE]
  {
    hide Split;
    SplitName(SECRETS_FILE);
  }

  lemma AtSecrets(t: Tree, k: nat)
    requires WellFormed(t) && Split(SECRETS_FILE) !in t && k <= |Split(SECRETS_FILE)|
    ensures !IsFile(t, Split(SECRETS_FILE)[..k])
  {
    hide Split, Attached;
    SecretsPath();
    var p := Split(SECRETS_FILE);
    assert p[..0] == [] && p[..1] == p;
  }

  /** An accepted entry never meets a file of an admissible project, and a file entry meets nothing at all. */
  lemma ProjectGivesWay(checks: Checks, t: Tree, s: Snapshot, e: Entry, k: nat)
    requires Accepted(checks, s) && WellFormed(t) && Admissible(t, s) && Clear(t, s)
    requires e in s.files && k <= |At(e)|
    ensures !IsFile(t, At(e)[..k])
    ensures !e.directory ==> At(e) !in t
  {
    hide Split, SafeRelative, Shadows, FoldsDistinct, Sum, VolumeSum, VolumeSound, NamesDistinct, WellFormed, Vacant, FileAbove;
    var i :| 0 <= i < |s.files| && s.files[i] == e;
    assert FileSound(checks, s.contract, s.files[i]);
    if e.path == SECRETS_FILE {
      AtSecrets(t, k);
    } else {
      var j :| 0 <= j < |s.contract.bindDirectories| && Under(e.path, s.contract.bindDirectories[j]);
      var directory := s.contract.bindDirectories[j];
      UnderVacant(t, directory, At(e), k);
      if At(e) in t && !e.directory {
        assert HoldsDirectory(s.files, directory);
        var h :| 0 <= h < |s.files| && s.files[h].path == directory && s.files[h].directory;
        SamePath(checks, s.files, e, s.files[h]);
      }
    }
  }

  lemma VacantBelow(t: Tree, directory: string, q: Path)
    requires WellFormed(t) && Vacant(t, directory) && q in t
    ensures !(Split(directory) < q)
  {
    hide Split, Attached;
    if Split(directory) < q {
      AncestorsAreFolders(t, Split(directory), q);
      BelowIsUnderChild(t, Split(directory), q);
    }
  }

  /** Entries already written never stand in the way of a later one. */
  lemma EntriesGiveWay(checks: Checks, s: Snapshot, f: Entry, e: Entry)
    requires Accepted(checks, s) && e in s.files && f in s.files && e != f
    ensures At(f) <= At(e) ==> f.directory
    ensures At(e) <= At(f) ==> e.directory
    ensures At(e) != At(f)
  {
    hide Split, SafeRelative, Sum, VolumeSum, VolumeSound, NamesDistinct, FileSound, HoldsDirectory, FoldsDistinct;
    if At(e) == At(f) {
      SamePath(checks, s.files, e, f);
    }
    var i, j :| 0 <= i < |s.files| && 0 <= j < |s.files| && s.files[i] == e && s.files[j] == f;
    assert !Shadows(s.files[i], s.files[j]) && !Shadows(s.files[j], s.files[i]);
  }

  /** Every step of the replay of an accepted snapshot can be carried out. */
  lemma StepOpen(checks: Checks, t: Tree, s: Snapshot, written: set<Entry>, t': Tree, e: Entry)
    requires Accepted(checks, s) && WellFormed(t) && Admissible(t, s) && Clear(t, s)
    requires Overlaid(t, written, t') && (forall f | f in written :: f in s.files)
    requires e in s.files && e !in written
    ensures Open(t', e)
  {
    hide Split, Accepted, Admissible, Clear, WellFormed;
    var p := At(e);
    forall k | 0 <= k <= |p| ensures !IsFile(t', p[..k]) {
      ProjectGivesWay(checks, t, s, e, k);
      if p[..k] in t' && p[..k] !in t {
        if f :| f in written && At(f) == p[..k] {
          EntriesGiveWay(checks, s, f, e);
        }
      }
    }
    if !e.directory && p in t' {
      ProjectGivesWay(checks, t, s, e, |p|);
      var f :| f in written && p <= At(f);
      EntriesGiveWay(checks, s, f, e);
    }
  }

  lemma {:induction false} AncestorSortsFirst(e: Entry, f: Entry)
    requires At(e) < At(f)
    ensures Order(e) < Order(f)
  {
    hide Split, Slashes;
    SlashesCountDepth(e.path);
    SlashesCountDepth(f.path);
  }

  /** In the replay order no entry comes after something that lies inside it. */
  lemma AncestorsComeFirst(files: seq<Entry>, sorted: seq<Entry>, i: nat, j: nat)
    requires sorted == SortBy(Order, files) && i < |sorted| && j < |sorted|
    requires At(sorted[i]) < At(sorted[j])
    ensures i < j
  {
    hide At, Order, SortBy;
    AncestorSortsFirst(sorted[i], sorted[j]);
    assert SortedBy(Order, sorted);
  }

  /** At the same depth folders come before files. */
  lemma FoldersComeFirst(files: seq<Entry>, sorted: seq<Entry>, i: nat, j: nat)
    requires sorted == SortBy(Order, files) && i < |sorted| && j < |sorted|
    requires |At(sorted[i])| == |At(sorted[j])| && sorted[i].directory && !sorted[j].directory
    ensures i < j
  {
    hide SortBy, Split, Slashes;
    SlashesCountDepth(sorted[i].path);
    SlashesCountDepth(sorted[j].path);
    assert SortedBy(Order, sorted);
  }

  method WriteEntry(project: Project, e: Entry) returns (ok: bool)
    modifies project
    ensures ok <==> Open(old(project.nodes), e)
    ensures ok ==> project.nodes == Put(old(project.nodes), e)
    ensures !ok && (e.directory || At(e) !in old(project.nodes)) ==>
      project.nodes == old(project.nodes) && FileAbove(old(project.nodes), At(e))
    ensures Preserves(old(project.nodes), project.nodes)
  {
    hide Split;
    ghost var t := project.nodes;
    var target := At(e);
    assert target[..|target|] == target;
    if e.directory {
      ok := project.CreateDirAll(target);
    } else {
      var parent := target[..|target| - 1];
      assert forall k | 0 <= k <= |parent| :: parent[..k] == target[..k];
      assert parent[..|parent|] == parent;
      ok := project.CreateDirAll(parent);
      if ok {
        ok := project.CreateNew(target, e.bytes);
      }
    }
  }

  lemma OpenMeansNoFile(t: Tree, t': Tree, e: Entry)
    requires Preserves(t, t') && Open(t', e)
    ensures !FileAbove(t, At(e))
  {
    hide Split;
  }

  lemma FilesDistinct(checks: Checks, files: seq<Entry>)
    requires FoldsDistinct(checks, files)
    ensures AllDistinct(SortBy(Order, files))
  {
    hide Order;
    DistinctPermutation(files, SortBy(Order, files));
  }

  lemma PreservesTransitive(t: Tree, t': Tree, t'': Tree)
    requires Preserves(t, t') && Preserves(t', t'')
    ensures Preserves(t, t'')
  {
  }

  lemma NotYetWritten(entries: seq<Entry>, i: nat)
    requires AllDistinct(entries) && i < |entries|
    ensures entries[i] !in (set e | e in entries[..i])
  {
  }

  /** A file entry meets nothing in an admissible project, whatever stands above the bind directories. */
  lemma FileVacant(checks: Checks, t: Tree, s: Snapshot, e: Entry)
    requires Accepted(checks, s) && WellFormed(t) && Admissible(t, s) && e in s.files && !e.directory
    ensures At(e) !in t
  {
    hide Split, SafeRelative, Shadows, FoldsDistinct, Sum, VolumeSum, VolumeSound, NamesDistinct, WellFormed, Vacant, FileAbove;
    var i :| 0 <= i < |s.files| && s.files[i] == e;
    assert FileSound(checks, s.contract, s.files[i]);
    if e.path != SECRETS_FILE && At(e) in t {
      var j :| 0 <= j < |s.contract.bindDirectories| && Under(e.path, s.contract.bindDirectories[j]);
      var directory := s.contract.bindDirectories[j];
      VacantBelow(t, directory, At(e));
      assert HoldsDirectory(s.files, directory);
      var h :| 0 <= h < |s.files| && s.files[h].path == directory && s.files[h].directory;
      SamePath(checks, s.files, e, s.files[h]);
    }
  }

  /** Nor does it meet anything written before it. */
  lemma FileStillVacant(checks: Checks, t: Tree, s: Snapshot, written: set<Entry>, t': Tree, e: Entry)
    requires Accepted(checks, s) && WellFormed(t) && Admissible(t, s)
    requires Overlaid(t, written, t') && (forall f | f in written :: f in s.files)
    requires e in s.files && e !in written && !e.directory
    ensures At(e) !in t'
  {
    hide Split, Accepted, Admissible, WellFormed;
    FileVacant(checks, t, s, e);
    if At(e) in t' {
      var f :| f in written && At(e) <= At(f);
      EntriesGiveWay(checks, s, f, e);
    }
  }

  /** A file in the way of an entry stood there from the start. */
  lemma BlockedFromStart(checks: Checks, t: Tree, s: Snapshot, written: set<Entry>, t': Tree, e: Entry)
    requires Accepted(checks, s) && Overlaid(t, written, t') && (forall f | f in written :: f in s.files)
    requires e in s.files && e !in written && FileAbove(t', At(e))
    ensures FileAbove(t, At(e))
  {
    hide Split, Accepted;
    var p := At(e);
    var k :| 0 <= k <= |p| && IsFile(t', p[..k]);
    if p[..k] !in t {
      var f :| f in written && At(f) == p[..k];
      EntriesGiveWay(checks, s, f, e);
    }
    assert IsFile(t, p[..k]);
  }

  /**
   * What a stopped replay leaves: exactly the first `k` entries of the replay order, none of which a project
   * file was in the way of, and a project file in the way of the next.
   */
  ghost predicate StoppedAt(t: Tree, s: Snapshot, k: nat, t': Tree) {
    var entries := SortBy(Order, s.files);
    && k < |entries| && Overlaid(t, (set e | e in entries[..k]), t')
    && FileAbove(t, At(entries[k])) && forall i | 0 <= i < k :: !FileAbove(t, At(entries[i]))
  }

  /** The write loop. A failure leaves exactly the entries before it. */
  method Replay(project: Project, checks: Checks, s: Snapshot) returns (ok: bool)
    requires WellFormed(project.nodes) && Accepted(checks, s) && Admissible(project.nodes, s)
    modifies project
    ensures Preserves(old(project.nodes), project.nodes)
    ensures ok <==> Clear(old(project.nodes), s)
    ensures ok ==> Overlaid(old(project.nodes), (set e | e in s.files), project.nodes)
    ensures !ok ==> exists k | 0 <= k < |s.files| :: StoppedAt(old(project.nodes), s, k, project.nodes)
  {
    hide Split, Accepted, Overlaid, Put, WellFormed, Open, FileAbove, Order, Admissible, SortedBy, AllDistinct, SortBy, At, Preserves;
    ghost var t := project.nodes;
    var entries := SortBy(Order, s.files);
    SortMembers(checks, s, entries);
    SameLength(s.files, entries);
    OverlaidNothing(t);
    ghost var written: set<Entry> := {};
    for i := 0 to |entries|
      invariant written == set e | e in entries[..i]
      invariant Overlaid(t, written, project.nodes)
      invariant Preserves(t, project.nodes)
      invariant forall e | e in written :: e in s.files && !FileAbove(t, At(e))
      invariant forall j | 0 <= j < i :: entries[j] in written
    {
      var e := entries[i];
      ghost var t' := project.nodes;
      NotYetWritten(entries, i);
      if Clear(t, s) {
        StepOpen(checks, t, s, written, t', e);
      }
      ok := WriteEntry(project, e);
      PreservesTransitive(t, t', project.nodes);
      if !ok {
        if !e.directory {
          FileStillVacant(checks, t, s, written, t', e);
        }
        BlockedFromStart(checks, t, s, written, t', e);
        assert StoppedAt(t, s, i, project.nodes);
        return;
      }
      forall f | f in written ensures At(f) != At(e) {
        EntriesGiveWay(checks, s, f, e);
      }
      OverlaidStep(t, written, t', e);
      OpenMeansNoFile(t, t', e);
      written := written + {e};
      assert entries[..i + 1] == entries[..i] + [e];
    }
    assert entries[..|entries|] == entries;
    assert written == set e | e in s.files;
    forall i | 0 <= i < |s.contract.bindDirectories|
      ensures !FileAbove(t, Split(s.contract.bindDirectories[i]))
    {
      var e := BindEntry(checks, s, i);
    }
    ok := true;
  }

  lemma VacantUnobstructed(t: Tree, directory: string)
    requires Vacant(t, directory)
    ensures FileAbove(t, Split(directory)) <==> Obstructed(t, Split(directory))
  {
    hide Split;
    var p := Split(directory);
    assert p[..|p|] == p;
  }

  /** The look at every entry's path, once the bind directories have been looked at, finds nothing new. */
  method ConfinedEntries(project: Project, checks: Checks, s: Snapshot, windows: bool) returns (ok: bool)
    requires WellFormed(project.nodes) && Accepted(checks, s) && Admissible(project.nodes, s)
    requires windows || Clear(project.nodes, s)
    ensures ok
  {
    hide Split, Accepted, Admissible, Clear, WellFormed;
    ok := true;
    for i := 0 to |s.files|
      invariant ok
    {
      var target := At(s.files[i]);
      var confined := project.Confined(target, windows);
      if !windows {
        forall k | 0 <= k < |target| ensures !IsFile(project.nodes, target[..k]) {
          ProjectGivesWay(checks, project.nodes, s, s.files[i], k);
        }
      }
      ok := ok && confined;
    }
  }

  /**
   * Restores an accepted snapshot into an admissible project. Whatever the outcome nothing that
   * existed is changed; a refusal writes nothing. On Windows the replay stops half-way exactly when a
   * file of the project stands where a folder leading to a bind directory is needed; elsewhere the
   * path checks refuse such a project before the first write.
   */
  method RestoreFiles(project: Project, checks: Checks, s: Snapshot, windows: bool) returns (r: Outcome)
    requires WellFormed(project.nodes)
    modifies project
    ensures Preserves(old(project.nodes), project.nodes)
    ensures r.Refused? <==>
      !(Accepted(checks, s) && Admissible(old(project.nodes), s) && (windows || Clear(old(project.nodes), s)))
    ensures r.Refused? ==> project.nodes == old(project.nodes)
    ensures r.Restored? <==>
      Accepted(checks, s) && Admissible(old(project.nodes), s) && Clear(old(project.nodes), s)
    ensures r.Restored? ==> Overlaid(old(project.nodes), (set e | e in s.files), project.nodes)
    ensures r.Restored? ==> forall i | 0 <= i < |s.files| && !s.files[i].directory ::
      && Split(s.files[i].path) in project.nodes && project.nodes[Split(s.files[i].path)].File?
      && checks.hash(project.nodes[Split(s.files[i].path)].data) == s.files[i].sha256
    ensures r.Interrupted? ==> exists k | 0 <= k < |s.files| :: StoppedAt(old(project.nodes), s, k, project.nodes)
  {
    hide Split, Accepted, Overlaid, WellFormed, FileAbove, Obstructed, StoppedAt;
    ghost var t := project.nodes;
    var accepted := ValidateEntries(checks, s);
    if !accepted {
      return Refused;
    }
    for i := 0 to |s.contract.bindDirectories|
      invariant project.nodes == t
      invariant forall j | 0 <= j < i :: Vacant(t, s.contract.bindDirectories[j])
      invariant forall j | 0 <= j < i :: windows || !FileAbove(t, Split(s.contract.bindDirectories[j]))
    {
      var target := Split(s.contract.bindDirectories[i]);
      var confined := project.Confined(target, windows);
      if target in project.nodes && (project.nodes[target].File? || Children(project.nodes, target) != {}) {
        return Refused;
      }
      VacantUnobstructed(t, s.contract.bindDirectories[i]);
      if !confined {
        return Refused;
      }
    }
    if Split(SECRETS_FILE) in project.nodes {
      return Refused;
    }
    var confined := ConfinedEntries(project, checks, s, windows);
    if confined {
      var complete := Replay(project, checks, s);
      if complete {
        IntactFiles(checks, s, t, project.nodes);
      }
      r := if complete then Restored else Interrupted;
    } else {
      r := Refused;
    }
  }

  /** Every file that was written has the hash that the snapshot records. */
  lemma IntactFiles(checks: Checks, s: Snapshot, t: Tree, t': Tree)
    requires Accepted(checks, s) && Overlaid(t, (set e | e in s.files), t')
    ensures forall i | 0 <= i < |s.files| && !s.files[i].directory ::
      && Split(s.files[i].path) in t' && t'[Split(s.files[i].path)].File?
      && checks.hash(t'[Split(s.files[i].path)].data) == s.files[i].sha256
  {
    hide Split, SafeRelative, Shadows, VolumeSound, HoldsDirectory, Sum, VolumeSum, FoldsDistinct, Under, Preserves;
    forall i | 0 <= i < |s.files| && !s.files[i].directory
      ensures At(s.files[i]) in t' && t'[At(s.files[i])] == File(s.files[i].bytes)
      ensures checks.hash(s.files[i].bytes) == s.files[i].sha256
    {
      assert FileSound(checks, s.contract, s.files[i]);
      assert s.files[i] in (set e | e in s.files);
    }
  }

  lemma SameLength(files: seq<Entry>, sorted: seq<Entry>)
    requires sorted == SortBy(Order, files)
    ensures |sorted| == |files|
  {
    hide Order;
    assert |multiset(sorted)| == |multiset(files)|;
  }

  lemma SortMembers(checks: Checks, s: Snapshot, sorted: seq<Entry>)
    requires Accepted(checks, s) && sorted == SortBy(Order, s.files)
    ensures forall e :: e in sorted <==> e in s.files
    ensures AllDistinct(sorted)
  {
    AcceptedFolds(checks, s);
    hide Accepted, Order;
    FilesDistinct(checks, s.files);
    assert forall e :: e in sorted <==> e in multiset(sorted);
    assert forall e :: e in s.files <==> e in multiset(s.files);
  }

  lemma AcceptedFolds(checks: Checks, s: Snapshot)
    requires Accepted(checks, s)
    ensures FoldsDistinct(checks, s.files)
  {
  }

  lemma BindEntry(checks: Checks, s: Snapshot, i: nat) returns (e: Entry)
    requires Accepted(checks, s) && i < |s.contract.bindDirectories|
    ensures e in s.files && e.directory && e.path == s.contract.bindDirectories[i]
    ensures At(e) == Split(s.contract.bindDirectories[i])
  {
    assert HoldsDirectory(s.files, s.contract.bindDirectories[i]);
    var j :| 0 <= j < |s.files| && s.files[j].path == s.contract.bindDirectories[i] && s.files[j].directory;
    e := s.files[j];
  }

  lemma NestedPath()
    ensures Split("a/b") == ["a", "b"] && Slashes("a/b") == 1 && SafeRelative("a/b")
  {
    hide SafePart;
    SplitName("a");
    SplitChild("a", "b");
    assert "a/b" == "a" + "/" + "b";
    ExampleParts();
    hide Split;
    SlashesCountDepth("a/b");
    assert Bytes("a/b") == 3 by {
      assert "a/b"[1..] == "/b" && "/b"[1..] == "b";
    }
  }

  lemma PlainPath()
    ensures Split("c") == ["c"] && Slashes("c") == 0 && SafeRelative("c")
  {
    hide SafePart;
    SplitName("c");
    ExampleParts();
    hide Split;
    SlashesCountDepth("c");
  }

  lemma ExampleParts()
    ensures SafePart("a") && SafePart("b") && SafePart("c")
  {
  }

  lemma ExamplePaths()
    ensures Split("a/b") == ["a", "b"] && SafeRelative("a/b") && Slashes("a/b") == 1
    ensures Split("c") == ["c"] && SafeRelative("c") && Slashes("c") == 0
  {
    hide Split, SafeRelative, Slashes;
    NestedPath();
    PlainPath();
  }

  const LATE := "a/b"
  const EARLY := "c"

  function FolderEntry(checks: Checks, path: string): Entry { Entry(path, true, checks.hash([]), 0, []) }

  /** A snapshot of two empty bind directories. */
  function TwoFolders(checks: Checks): Snapshot {
    Snapshot(1, Contract("", "", [LATE, EARLY], [], false), ManagedWsl, "",
             [FolderEntry(checks, LATE), FolderEntry(checks, EARLY)], [])
  }

  /** A project with a plain file `a`. */
  const BLOCKED: Tree := map[[] := Folder, ["a"] := File([])]

  lemma TwoFoldersAccepted(checks: Checks)
    requires checks.fold(LATE) != checks.fold(EARLY)
    ensures Accepted(checks, TwoFolders(checks))
  {
    hide Split, SafeRelative;
    ExamplePaths();
    var s := TwoFolders(checks);
    assert s.files[0].path == LATE && s.files[1].path == EARLY;
    assert Under(LATE, s.contract.bindDirectories[0]) && Under(EARLY, s.contract.bindDirectories[1]);
    assert forall i | 0 <= i < 2 :: FileSound(checks, s.contract, s.files[i]);
    assert s.files[..1] == [s.files[0]] && s.files[..1][..0] == [];
    assert Sum(s.files[..1]) == 0;
    SumConcat([s.files[0]], [s.files[1]]);
    assert s.files == [s.files[0]] + [s.files[1]];
    VolumeSumEmpty(s.volumes);
    assert s.volumes[..0] == s.volumes;
  }

  lemma TwoFoldersOrder(checks: Checks)
    ensures var s := TwoFolders(checks); SortBy(Order, s.files) == [s.files[1], s.files[0]]
  {
    ExamplePaths();
    var s := TwoFolders(checks);
    assert s.files[..1][..0] == [];
    assert SortBy(Order, s.files[..1]) == [s.files[0]];
  }

  lemma BlockedTree()
    ensures WellFormed(BLOCKED) && ["c"] !in BLOCKED && ["a", "b"] !in BLOCKED && [SECRETS_FILE] !in BLOCKED
    ensures !FileAbove(BLOCKED, ["c"]) && FileAbove(BLOCKED, ["a", "b"])
  {
    assert Attached(BLOCKED, []) && Attached(BLOCKED, ["a"]);
    assert SECRETS_FILE[0] != 'a' && "a"[0] == 'a' && "c"[0] == 'c';
    assert ["c"][..0] == [] && ["c"][..1] == ["c"] && ["a", "b"][..1] == ["a"];
    assert IsFile(BLOCKED, ["a", "b"][..1]);
  }

  /** The replay of the two folders can stop only at the second, with the first made. */
  lemma StopsAtSecond(checks: Checks, k: nat, t': Tree)
    requires StoppedAt(BLOCKED, TwoFolders(checks), k, t')
    ensures k == 1 && [EARLY] in t'
  {
    hide Split, SortBy, Order, SafeRelative, Slashes, WellFormed, FileAbove;
    ExamplePaths();
    BlockedTree();
    TwoFoldersOrder(checks);
    var s := TwoFolders(checks);
    var entries := SortBy(Order, s.files);
    var first := s.files[1];
    assert At(first) == [EARLY] && At(s.files[0]) == ["a", "b"] && entries[0] == first;
    assert first in entries[..1] && first in (set e | e in entries[..1]);
  }

  /**
   * On Windows admission does not exclude an interrupted restore: a plain file `a` is in the way of `a/b`, and
   * when the replay stops there the folder `c` has been made already.
   */
  lemma AdmissionIsNotEnough(checks: Checks)
    requires checks.fold(LATE) != checks.fold(EARLY)
    ensures var s := TwoFolders(checks);
      && WellFormed(BLOCKED) && Accepted(checks, s) && Admissible(BLOCKED, s) && !Clear(BLOCKED, s)
      && [EARLY] !in BLOCKED && forall k: nat, t' | StoppedAt(BLOCKED, s, k, t') :: k == 1 && [EARLY] in t'
  {
    hide Split, SafeRelative, Accepted, StoppedAt, WellFormed, FileAbove;
    ExamplePaths();
    SecretsPath();
    BlockedTree();
    TwoFoldersAccepted(checks);
    var s := TwoFolders(checks);
    assert s.contract.bindDirectories[0] == LATE && s.contract.bindDirectories[1] == EARLY;
    forall k: nat, t' | StoppedAt(BLOCKED, s, k, t') ensures k == 1 && [EARLY] in t' {
      StopsAtSecond(checks, k, t');
    }
  }
}
