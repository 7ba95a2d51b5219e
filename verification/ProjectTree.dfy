/**
 * A project directory with ordinary files and folders only. Paths are relative to the
 * project root, which is the empty path.
 */
module ProjectTree {
  import opened Text
  import opened SnapshotPaths

  datatype Node = Folder | File(data: seq<byte>)

  type Tree = map<Path, Node>

  /** The root is a folder, names are single components and everything lies inside a folder. */
  ghost predicate WellFormed(t: Tree) {
    && [] in t && t[[]].Folder?
    && forall p {:trigger Attached(t, p)} | p in t :: Attached(t, p)
  }

  ghost predicate Attached(t: Tree, p: Path) {
    && (p != [] ==> IsFolder(t, p[..|p| - 1]))
    && forall i | 0 <= i < |p| :: p[i] != "" && '/' !in p[i]
  }

  ghost predicate IsFolder(t: Tree, p: Path) { p in t && t[p].Folder? }

  ghost predicate IsFile(t: Tree, p: Path) { p in t && t[p].File? }

  function Children(t: Tree, p: Path): set<string> {
    set q | q in t && |q| == |p| + 1 && p <= q :: q[|p|]
  }

  /** Every proper ancestor of something that exists is a folder. */
  lemma {:induction false} AncestorsAreFolders(t: Tree, p: Path, q: Path)
    requires WellFormed(t) && q in t && p < q
    ensures IsFolder(t, p)
    decreases |q|
  {
    assert Attached(t, q);
    var parent := q[..|q| - 1];
    if p != parent {
      assert p < parent;
      AncestorsAreFolders(t, p, parent);
    }
  }

  /** Whatever lies strictly below a folder lies under one of its children. */
  lemma BelowIsUnderChild(t: Tree, p: Path, q: Path)
    requires WellFormed(t) && q in t && p < q
    ensures q[|p|] in Children(t, p)
    ensures p + [q[|p|]] in t && p + [q[|p|]] <= q
  {
    var child := q[..|p| + 1];
    assert child == p + [q[|p|]];
    if child != q {
      AncestorsAreFolders(t, child, q);
    }
  }

  ghost predicate FileAbove(t: Tree, p: Path) {
    exists k | 0 <= k <= |p| :: IsFile(t, p[..k])
  }

  /** A proper ancestor of the path is a plain file. */
  ghost predicate Obstructed(t: Tree, p: Path) {
    exists k | 0 <= k < |p| :: IsFile(t, p[..k])
  }

  /** The tree after `create_dir_all` succeeds. */
  ghost function WithFolders(t: Tree, p: Path): Tree {
    t + (map k | 0 <= k <= |p| && p[..k] !in t :: p[..k] := Folder)
  }

  class Project {
    var nodes: Tree

    constructor (nodes: Tree)
      ensures this.nodes == nodes
    {
      this.nodes := nodes;
    }

    /** Directory entries come in no particular order. */
    method ReadDir(p: Path) returns (names: seq<string>)
      ensures (set n | n in names) == Children(nodes, p)
      ensures forall i, j | 0 <= i < j < |names| :: names[i] != names[j]
    {
      var rest := Children(nodes, p);
      names := [];
      while rest != {}
        invariant (set n | n in names) + rest == Children(nodes, p)
        invariant forall n | n in names :: n !in rest
        invariant forall i, j | 0 <= i < j < |names| :: names[i] != names[j]
        decreases rest
      {
        var name :| name in rest;
        names := names + [name];
        rest := rest - {name};
      }
    }

    /**
     * The walk down to a path that looks at every component. Below a plain file Windows reports that
     * nothing is found, which the walk accepts; other systems report another error, which it does not.
     */
    method Confined(p: Path, windows: bool) returns (ok: bool)
      ensures ok <==> windows || !Obstructed(nodes, p)
    {
      ok := true;
      for k := 0 to |p|
        invariant ok <==> windows || !exists j | 0 <= j < k :: IsFile(nodes, p[..j])
      {
        if p[..k] in nodes && nodes[p[..k]].File? && !windows {
          ok := false;
        }
      }
    }

    method CreateDirAll(p: Path) returns (ok: bool)
      modifies this
      ensures ok == !FileAbove(old(nodes), p)
      ensures nodes == if ok then WithFolders(old(nodes), p) else old(nodes)
    {
      ok := true;
      for k := 0 to |p| + 1
        invariant nodes == old(nodes)
        invariant ok == !exists j | 0 <= j < k :: IsFile(nodes, p[..j])
      {
        if p[..k] in nodes && nodes[p[..k]].File? {
          ok := false;
        }
      }
      if ok {
        nodes := nodes + (map k | 0 <= k <= |p| && p[..k] !in nodes :: p[..k] := Folder);
      }
    }

    /** `OpenOptions::create_new` followed by a complete write. */
    method CreateNew(p: Path, data: seq<byte>) returns (ok: bool)
      requires p != []
      modifies this
      ensures ok == (p !in old(nodes) && IsFolder(old(nodes), p[..|p| - 1]))
      ensures nodes == if ok then old(nodes)[p := File(data)] else old(nodes)
    {
      var parent := p[..|p| - 1];
      ok := p !in nodes && parent in nodes && nodes[parent].Folder?;
      if ok {
        nodes := nodes[p := File(data)];
      }
    }
  }
}
