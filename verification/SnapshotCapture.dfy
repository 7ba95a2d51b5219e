/** The bounded depth-first capture of a quiesced project. */
module SnapshotCapture {
  import opened Text
  import opened SnapshotPaths
  import opened ProjectTree
  import opened SortedNames

  const MAX_DATA_BYTES := 256 * 1024 * 1024
  const MAX_FILES := 4096
  const MAX_DEPTH := 32

  datatype Entry = Entry(path: string, directory: bool, sha256: string, length: nat, bytes: seq<byte>)

  function Sum(entries: seq<Entry>): nat {
    if entries == [] then 0 else |entries[0].bytes| + Sum(entries[1..])
  }

  lemma {:induction false} SumConcat(a: seq<Entry>, b: seq<Entry>)
    ensures Sum(a + b) == Sum(a) + Sum(b)
  {
    if a == [] {
      assert a + b == b;
    } else {
      assert (a + b)[1..] == a[1..] + b;
      SumConcat(a[1..], b);
    }
  }

  /** The paths at and below `p`, parents first and siblings in name order, down to `fuel` levels. */
  ghost function Walk(t: Tree, p: Path, fuel: nat): seq<Path>
    decreases fuel, 0
  {
    if fuel == 0 then []
    else [p] + if IsFolder(t, p) then WalkAll(t, p, Ordered(Children(t, p)), fuel - 1) else []
  }

  ghost function WalkAll(t: Tree, p: Path, names: seq<string>, fuel: nat): seq<Path>
    decreases fuel, 1 + |names|
  {
    if names == [] then [] else Walk(t, p + [names[0]], fuel) + WalkAll(t, p, names[1..], fuel)
  }

  lemma {:induction false} WalkAllConcat(t: Tree, p: Path, a: seq<string>, b: seq<string>, fuel: nat)
    ensures WalkAll(t, p, a + b, fuel) == WalkAll(t, p, a, fuel) + WalkAll(t, p, b, fuel)
  {
    if a == [] {
      assert a + b == b;
    } else {
      assert (a + b)[1..] == a[1..] + b;
      WalkAllConcat(t, p, a[1..], b, fuel);
    }
  }

  lemma WalkAllSplit(t: Tree, p: Path, names: seq<string>, i: nat, fuel: nat)
    requires i < |names|
    ensures WalkAll(t, p, names[..i + 1], fuel) == WalkAll(t, p, names[..i], fuel) + Walk(t, p + [names[i]], fuel)
    ensures WalkAll(t, p, names[..i + 1], fuel) <= WalkAll(t, p, names, fuel)
  {
    var one := [names[i]];
    assert names[..i + 1] == names[..i] + one;
    assert names == names[..i + 1] + names[i + 1..];
    WalkAllConcat(t, p, names[..i], one, fuel);
    WalkAllConcat(t, p, names[..i + 1], names[i + 1..], fuel);
    assert WalkAll(t, p, one, fuel) == Walk(t, p + [names[i]], fuel);
  }

  ghost function NodeAt(t: Tree, p: Path): Node {
    if p in t then t[p] else Folder
  }

  /** What `collect` records for one path. */
  ghost function EntryAt(t: Tree, p: Path, hash: seq<byte> -> string): Entry {
    match NodeAt(t, p)
    case Folder => Entry(Join(p), true, hash([]), 0, [])
    case File(data) => Entry(Join(p), false, hash(data), |data|, data)
  }

  ghost function EntriesAt(t: Tree, ps: seq<Path>, hash: seq<byte> -> string): (entries: seq<Entry>)
    ensures |entries| == |ps|
    ensures forall i | 0 <= i < |ps| :: entries[i] == EntryAt(t, ps[i], hash)
  {
    if ps == [] then [] else [EntryAt(t, ps[0], hash)] + EntriesAt(t, ps[1..], hash)
  }

  lemma EntriesConcat(t: Tree, a: seq<Path>, b: seq<Path>, hash: seq<byte> -> string)
    ensures EntriesAt(t, a + b, hash) == EntriesAt(t, a, hash) + EntriesAt(t, b, hash)
  {
    hide EntriesAt, EntryAt;
    var whole, parts := EntriesAt(t, a + b, hash), EntriesAt(t, a, hash) + EntriesAt(t, b, hash);
    forall i | 0 <= i < |whole| ensures whole[i] == parts[i] {
      assert (a + b)[i] == if i < |a| then a[i] else b[i - |a|];
    }
  }

  ghost function Weight(n: Node): nat {
    match n
    case Folder => 0
    case File(data) => |data|
  }

  /** The bytes that the listed paths hold. */
  ghost function Size(t: Tree, ps: seq<Path>): nat {
    if ps == [] then 0 else Weight(NodeAt(t, ps[0])) + Size(t, ps[1..])
  }

  lemma {:induction false} SizeConcat(t: Tree, a: seq<Path>, b: seq<Path>)
    ensures Size(t, a + b) == Size(t, a) + Size(t, b)
  {
    if a == [] {
      assert a + b == b;
    } else {
      assert (a + b)[1..] == a[1..] + b;
      SizeConcat(t, a[1..], b);
    }
  }

  /** The captured bytes are the bytes held. */
  lemma {:induction false} SumIsSize(t: Tree, ps: seq<Path>, hash: seq<byte> -> string)
    ensures Sum(EntriesAt(t, ps, hash)) == Size(t, ps)
  {
    if ps != [] {
      SumIsSize(t, ps[1..], hash);
    }
  }

  /** The exact subtree that a walk visits. */
  lemma {:induction false} WalkIsSubtree(t: Tree, p: Path, fuel: nat, q: Path)
    requires WellFormed(t) && p in t
    ensures q in Walk(t, p, fuel) <==> q in t && p <= q && |q| < |p| + fuel
    decreases fuel, 0
  {
    if fuel > 0 && q != p {
      if IsFolder(t, p) {
        var names := Ordered(Children(t, p));
        WalkAllIsSubtrees(t, p, names, fuel - 1, q);
        if q in t && p <= q {
          BelowIsUnderChild(t, p, q);
        }
      } else if q in t && p <= q {
        AncestorsAreFolders(t, p, q);
      }
    }
  }

  lemma {:induction false} WalkAllIsSubtrees(t: Tree, p: Path, names: seq<string>, fuel: nat, q: Path)
    requires WellFormed(t) && forall n | n in names :: n in Children(t, p)
    ensures q in WalkAll(t, p, names, fuel)
       <==> q in t && p < q && q[|p|] in names && |q| < |p| + 1 + fuel
    decreases fuel, 1 + |names|
  {
    if names != [] {
      var child := p + [names[0]];
      ChildExists(t, p, names[0]);
      WalkIsSubtree(t, child, fuel, q);
      WalkAllIsSubtrees(t, p, names[1..], fuel, q);
      assert child <= q <==> p < q && q[|p|] == names[0];
    }
  }

  lemma ChildExists(t: Tree, p: Path, name: string)
    requires name in Children(t, p)
    ensures p + [name] in t
  {
    var q :| q in t && |q| == |p| + 1 && p <= q && q[|p|] == name;
    assert q == p + [name];
  }

  ghost predicate Distinct(ps: seq<Path>) {
    forall i, j | 0 <= i < j < |ps| :: ps[i] != ps[j]
  }

  lemma DistinctConcat(a: seq<Path>, b: seq<Path>)
    requires Distinct(a) && Distinct(b) && forall q | q in a :: q !in b
    ensures Distinct(a + b)
  {
    forall i, j | 0 <= i < j < |a + b| ensures (a + b)[i] != (a + b)[j] {
      if i < |a| <= j {
        assert a[i] in a;
      }
    }
  }

  /** No path is visited twice. */
  lemma {:induction false} WalkDistinct(t: Tree, p: Path, fuel: nat)
    requires WellFormed(t) && p in t
    ensures Distinct(Walk(t, p, fuel))
    decreases fuel, 0
  {
    hide WalkAll, WellFormed, Children;
    if fuel > 0 && IsFolder(t, p) {
      var names := Ordered(Children(t, p));
      WalkAllDistinct(t, p, names, fuel - 1);
      WalkAllIsSubtrees(t, p, names, fuel - 1, p);
      DistinctConcat([p], WalkAll(t, p, names, fuel - 1));
    }
  }

  lemma {:induction false} WalkAllDistinct(t: Tree, p: Path, names: seq<string>, fuel: nat)
    requires WellFormed(t) && Increasing(names) && forall n | n in names :: n in Children(t, p)
    ensures Distinct(WalkAll(t, p, names, fuel))
    decreases fuel, 1 + |names|
  {
    if names != [] {
      var child := p + [names[0]];
      ChildExists(t, p, names[0]);
      WalkDistinct(t, child, fuel);
      WalkAllDistinct(t, p, names[1..], fuel);
      var here, later := Walk(t, child, fuel), WalkAll(t, p, names[1..], fuel);
      forall q | q in here ensures q !in later {
        WalkIsSubtree(t, child, fuel, q);
        WalkAllIsSubtrees(t, p, names[1..], fuel, q);
        if q in later {
          var j :| 1 <= j < |names| && names[j] == q[|p|];
          IncreasingDistinct(names, 0, j);
        }
      }
      DistinctConcat(here, later);
    }
  }

  ghost predicate Recordable(t: Tree, p: Path, limit: nat) {
    p in t && |p| <= limit && SafeRelative(Join(p))
  }

  ghost predicate AllRecordable(t: Tree, ps: seq<Path>, limit: nat) {
    forall i | 0 <= i < |ps| :: Recordable(t, ps[i], limit)
  }

  lemma AllRecordableConcat(t: Tree, a: seq<Path>, b: seq<Path>, limit: nat)
    ensures AllRecordable(t, a + b, limit) <==> AllRecordable(t, a, limit) && AllRecordable(t, b, limit)
  {
    if AllRecordable(t, a + b, limit) {
      assert forall i | 0 <= i < |a| :: (a + b)[i] == a[i];
      forall i | 0 <= i < |b| ensures Recordable(t, b[i], limit) {
        assert (a + b)[|a| + i] == b[i];
      }
    }
  }

  /** Recording these paths stays within every limit when `count` entries and `total` bytes are already used. */
  ghost predicate Fits(t: Tree, ps: seq<Path>, limit: nat, count: nat, total: nat) {
    && AllRecordable(t, ps, limit)
    && count + |ps| <= MAX_FILES
    && total + Size(t, ps) <= MAX_DATA_BYTES
  }

  /** Budgets are spent in order: a list fits exactly when its head fits and its tail fits in what is left. */
  lemma FitsConcat(t: Tree, a: seq<Path>, b: seq<Path>, limit: nat, count: nat, total: nat)
    ensures Fits(t, a + b, limit, count, total)
       <==> Fits(t, a, limit, count, total) && Fits(t, b, limit, count + |a|, total + Size(t, a))
  {
    hide AllRecordable, Size;
    AllRecordableConcat(t, a, b, limit);
    SizeConcat(t, a, b);
  }

  /** The walk that a call of `collect` performs when paths may have at most `limit` components. */
  ghost function Visit(t: Tree, p: Path, limit: nat): seq<Path>
    requires |p| <= limit + 1
  {
    Walk(t, p, limit + 2 - |p|)
  }

  lemma ChildNamePlain(t: Tree, p: Path, name: string)
    requires WellFormed(t) && name in Children(t, p)
    ensures '/' !in name
  {
    ChildExists(t, p, name);
    assert Attached(t, p + [name]);
    assert (p + [name])[|p|] == name;
  }

  lemma FitsPrefix(t: Tree, a: seq<Path>, whole: seq<Path>, limit: nat, count: nat, total: nat)
    requires a <= whole && Fits(t, whole, limit, count, total)
    ensures Fits(t, a, limit, count, total)
  {
    assert whole == a + whole[|a|..];
    FitsConcat(t, a, whole[|a|..], limit, count, total);
  }

  /** What has been captured so far. */
  datatype Progress = Progress(entries: seq<Entry>, total: nat)

  ghost predicate Bounded(s: Progress) {
    |s.entries| <= MAX_FILES && s.total <= MAX_DATA_BYTES
  }

  /**
   * The capture of the listed paths, taking progress `s` to `s'`: it succeeds exactly when they
   * fit in the remaining budgets, and then appends one faithful entry for each of them.
   */
  ghost predicate Captures(t: Tree, ps: seq<Path>, limit: nat, hash: seq<byte> -> string,
                           s: Progress, s': Progress, ok: bool)
  {
    && Bounded(s) && Bounded(s')
    && ok == Fits(t, ps, limit, |s.entries|, s.total)
    && (ok ==> s' == Progress(s.entries + EntriesAt(t, ps, hash), s.total + Size(t, ps)))
  }

  lemma CapturesNothing(t: Tree, limit: nat, hash: seq<byte> -> string, s: Progress)
    requires Bounded(s)
    ensures Captures(t, [], limit, hash, s, s, true)
  {
  }

  lemma CapturesThen(t: Tree, a: seq<Path>, b: seq<Path>, limit: nat, hash: seq<byte> -> string,
                     s: Progress, s': Progress, s'': Progress, ok: bool)
    requires Captures(t, a, limit, hash, s, s', true) && Captures(t, b, limit, hash, s', s'', ok)
    ensures Captures(t, a + b, limit, hash, s, s'', ok)
  {
    hide AllRecordable, Size, EntriesAt;
    FitsConcat(t, a, b, limit, |s.entries|, s.total);
    EntriesConcat(t, a, b, hash);
    SizeConcat(t, a, b);
  }

  lemma CaptureFails(t: Tree, a: seq<Path>, whole: seq<Path>, limit: nat, hash: seq<byte> -> string,
                     s: Progress, s': Progress)
    requires a <= whole && Captures(t, a, limit, hash, s, s', false)
    ensures Captures(t, whole, limit, hash, s, s', false)
  {
    if Fits(t, whole, limit, |s.entries|, s.total) {
      FitsPrefix(t, a, whole, limit, |s.entries|, s.total);
    }
  }

  lemma CapturesOne(t: Tree, p: Path, limit: nat, hash: seq<byte> -> string, s: Progress, ok: bool)
    requires Bounded(s) && p != []
    requires ok <==> Recordable(t, p, limit)
                     && |s.entries| < MAX_FILES && s.total + Weight(NodeAt(t, p)) <= MAX_DATA_BYTES
    ensures !ok ==> Captures(t, [p], limit, hash, s, s, false)
    ensures ok ==> Captures(t, [p], limit, hash, s,
                            Progress(s.entries + [EntryAt(t, p, hash)], s.total + Weight(NodeAt(t, p))), true)
  {
    assert EntriesAt(t, [p], hash) == [EntryAt(t, p, hash)];
    assert Size(t, [p]) == Weight(NodeAt(t, p));
  }

  /** A visit begins with its root and goes on with the children of a folder in order. */
  lemma VisitBegins(t: Tree, p: Path, limit: nat)
    requires |p| <= limit + 1
    ensures [p] <= Visit(t, p, limit)
    ensures Visit(t, p, limit)
         == [p] + if IsFolder(t, p) then WalkAll(t, p, Ordered(Children(t, p)), limit + 1 - |p|) else []
  {
  }

  class Capture {
    var entries: seq<Entry>
    var total: nat
    const hash: seq<byte> -> string

    ghost function State(): Progress
      reads this
    {
      Progress(entries, total)
    }

    constructor (hash: seq<byte> -> string)
      ensures this.hash == hash && State() == Progress([], 0)
    {
      this.hash := hash;
      entries, total := [], 0;
    }

    method Collect(project: Project, relative: string, depth: nat) returns (ok: bool)
      requires depth <= MAX_DEPTH + 1 && depth < |Split(relative)|
      requires WellFormed(project.nodes) && Bounded(State())
      modifies this
      ensures var limit := |Split(relative)| - depth + MAX_DEPTH;
        Captures(project.nodes, Visit(project.nodes, Split(relative), limit), limit, hash, old(State()), State(), ok)
      decreases MAX_DEPTH + 1 - depth, 1
    {
      hide Captures, SafeRelative, Joined, WellFormed, Split, Walk, WalkAll, Ordered;
      ghost var t, p, s := project.nodes, Split(relative), State();
      ghost var limit := |p| - depth + MAX_DEPTH;
      JoinSplit(relative);
      var path := Split(relative);
      if depth > MAX_DEPTH || |entries| >= MAX_FILES || !SafeRelative(relative) || path !in project.nodes {
        CapturesOne(t, p, limit, hash, s, false);
        VisitBegins(t, p, limit);
        CaptureFails(t, [p], Visit(t, p, limit), limit, hash, s, s);
        return false;
      }
      match project.nodes[path]
      case Folder =>
        entries := entries + [Entry(relative, true, hash([]), 0, [])];
        CapturesOne(t, p, limit, hash, s, true);
        ghost var s' := State();
        var listed := project.ReadDir(path);
        var children := SortNames(listed);
        ok := CollectChildren(project, relative, children, depth);
        VisitBegins(t, p, limit);
        assert children == Ordered(Children(t, p));
        CapturesThen(t, [p], WalkAll(t, p, children, limit + 1 - |p|), limit, hash, s, s', State(), ok);
      case File(data) =>
        ok := |data| <= MAX_DATA_BYTES - total;
        CapturesOne(t, p, limit, hash, s, ok);
        VisitBegins(t, p, limit);
        assert Visit(t, p, limit) == [p];
        if ok {
          total := total + |data|;
          entries := entries + [Entry(relative, false, hash(data), |data|, data)];
        }
    }

    /** The loop of `collect` over the sorted children of a folder. */
    method CollectChildren(project: Project, relative: string, children: seq<string>, depth: nat) returns (ok: bool)
      requires depth <= MAX_DEPTH && depth < |Split(relative)|
      requires WellFormed(project.nodes) && Bounded(State())
      requires forall n | n in children :: n in Children(project.nodes, Split(relative))
      modifies this
      ensures var limit := |Split(relative)| - depth + MAX_DEPTH;
        var visited := WalkAll(project.nodes, Split(relative), children, limit + 1 - |Split(relative)|);
        Captures(project.nodes, visited, limit, hash, old(State()), State(), ok)
      decreases MAX_DEPTH + 1 - depth, 0
    {
      hide Fits, Size, EntriesAt, Split;
      ghost var t, p, s := project.nodes, Split(relative), State();
      ghost var limit := |p| - depth + MAX_DEPTH;
      ghost var fuel := limit + 1 - |p|;
      CapturesNothing(t, limit, hash, s);
      for i := 0 to |children|
        invariant Captures(t, WalkAll(t, p, children[..i], fuel), limit, hash, s, State(), true)
      {
        ghost var done, next := WalkAll(t, p, children[..i], fuel), Walk(t, p + [children[i]], fuel);
        ghost var s' := State();
        ChildNamePlain(t, p, children[i]);
        SplitChild(relative, children[i]);
        WalkAllSplit(t, p, children, i, fuel);
        ok := Collect(project, relative + "/" + children[i], depth + 1);
        CapturesThen(t, done, next, limit, hash, s, s', State(), ok);
        if !ok {
          CaptureFails(t, done + next, WalkAll(t, p, children, fuel), limit, hash, s, State());
          return;
        }
      }
      assert children[..|children|] == children;
      ok := true;
    }
  }
}
