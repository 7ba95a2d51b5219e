/** Projects whose backup succeeds and whose restore is refused. */
module UnrestorableBackups {
  import opened Text
  import opened SortedNames
  import opened SnapshotPaths
  import opened ProjectTree
  import opened SnapshotCapture
  import opened SnapshotFraming
  import opened SnapshotContract
  import opened SnapshotRestore
  import opened SnapshotRoundTrip

  function BindOnly(directory: string): Contract { Contract("app", "", [directory], [], false) }

  /** A capture without volumes succeeds and is refused. */
  ghost predicate Unrestorable(checks: Checks, t: Tree, contract: Contract, daemon: string) {
    var s := Assembled(checks, t, contract, daemon, []);
    CapturedFrom(checks, t, s) && VolumesReady(checks, s) && !Accepted(checks, s)
  }

  /** Capturing one bind directory, without credentials, records the paths below it. */
  lemma OneDirectory(checks: Checks, t: Tree, directory: string, ps: seq<Path>, daemon: string)
    requires WellFormed(t) && Split(SECRETS_FILE) !in t && RootVisit(t, directory) == ps
    requires AllRecordable(t, ps, Limit(directory)) && |ps| <= MAX_FILES && Size(t, ps) <= MAX_DATA_BYTES
    ensures var s := Assembled(checks, t, BindOnly(directory), daemon, []);
      CapturedFrom(checks, t, s) && VolumesReady(checks, s) && s.files == EntriesAt(t, ps, checks.hash)
  {
    hide Split, WellFormed, AllRecordable, Recordable, RootVisit;
    var roots := Roots(t, BindOnly(directory));
    assert roots == [directory] && roots[..0] == [];
    assert Visited(t, roots) == [] + ps == ps;
    SumIsSize(t, ps, checks.hash);
  }

  predicate Letter(name: string) { |name| == 1 && ('a' <= name[0] <= 'z' || 'A' <= name[0] <= 'Z') }

  /** A letter is a safe name. */
  lemma LetterName(name: string)
    requires Letter(name)
    ensures Split(name) == [name] && SafeRelative(name) && Join([name]) == name
  {
    SplitName(name);
    assert (name[0] as int) < 0x80 && name[1..] == "" && Stem(name) == name;
    assert Bytes(name[1..]) == 0;
    assert Bytes(name) == 1;
    assert |Upper(name)| == 1 && !DeviceName(name) && SafePart(name);
    hide Upper, Split, Stem, Bytes, SafePart;
    assert forall part :: part in [name] ==> part == name;
    assert NormalComponents(name);
  }

  /** A bind mount whose source is a plain file. */
  lemma BoundFile(checks: Checks, daemon: string) returns (t: Tree)
    ensures t == map[[] := Folder, ["c"] := File([])]
    ensures Unrestorable(checks, t, BindOnly("c"), daemon)
  {
    hide Walk, SafeRelative, Split, Join, Accepted, CapturedFrom, VolumesReady;
    t := map[[] := Folder, ["c"] := File([])];
    LetterName("c");
    SecretsPath();
    assert WellFormed(t) by {
      assert ["c"][..0] == [];
    }
    FileVisit(t, "c");
    OneDirectory(checks, t, "c", [["c"]], daemon);
    RestorableExactly(checks, t, Assembled(checks, t, BindOnly("c"), daemon, []));
  }

  lemma FileVisit(t: Tree, name: string)
    requires Split(name) == [name] && IsFile(t, [name])
    ensures RootVisit(t, name) == [[name]]
  {
  }

  /** One letter below another is a safe path. */
  lemma LetterPath(folder: string, name: string)
    requires Letter(folder) && Letter(name)
    ensures Split(folder + "/" + name) == [folder, name] && Join([folder, name]) == folder + "/" + name
    ensures SafeRelative(folder + "/" + name)
  {
    var path := folder + "/" + name;
    LetterName(folder);
    LetterName(name);
    SplitConcat(folder, name);
    assert SafePart(folder) && SafePart(name);
    hide SafePart, Split;
    assert (name[0] as int) < 0x80 && (folder[0] as int) < 0x80;
    assert path[1..][1..] == name && path[1..][0] == '/' && path[0] == folder[0];
    assert name[1..] == "" && Bytes(name) == 1;
    assert Bytes(path[1..]) == 2;
    assert Joined("/", [folder, name][1..]) == name;
    hide Bytes, Join;
    assert forall part :: part in [folder, name] ==> part == folder || part == name;
    assert NormalComponents(path);
  }

  /** Two names that Windows and macOS hold to be the same. */
  lemma FoldedNames(checks: Checks, daemon: string) returns (t: Tree)
    requires checks.fold("d/A") == checks.fold("d/a")
    ensures t == map[[] := Folder, ["d"] := Folder, ["d", "A"] := File([]), ["d", "a"] := File([])]
    ensures Unrestorable(checks, t, BindOnly("d"), daemon)
  {
    hide Walk, SafeRelative, Split, Join, Accepted, CapturedFrom, VolumesReady;
    t := map[[] := Folder, ["d"] := Folder, ["d", "A"] := File([]), ["d", "a"] := File([])];
    LetterName("d");
    LetterPath("d", "A");
    LetterPath("d", "a");
    SecretsPath();
    assert WellFormed(t) by {
      assert ["d"][..0] == [] && ["d", "A"][..1] == ["d"] && ["d", "a"][..1] == ["d"];
    }
    FolderVisit(t);
    var ps := [["d"], ["d", "A"], ["d", "a"]];
    OneDirectory(checks, t, "d", ps, daemon);
    var s := Assembled(checks, t, BindOnly("d"), daemon, []);
    assert s.files[1].path == "d/A" && s.files[2].path == "d/a";
    RestorableExactly(checks, t, s);
  }

  lemma FolderVisit(t: Tree)
    requires t == map[[] := Folder, ["d"] := Folder, ["d", "A"] := File([]), ["d", "a"] := File([])]
    requires Split("d") == ["d"]
    ensures RootVisit(t, "d") == [["d"], ["d", "A"], ["d", "a"]]
  {
    hide Split, Ordered;
    var names := Ordered(Children(t, ["d"]));
    assert ["d", "A"][1] == "A" && ["d", "a"][1] == "a";
    assert ["d"] <= ["d", "A"] && ["d"] <= ["d", "a"];
    assert Children(t, ["d"]) == {"A", "a"};
    IncreasingUnique(names, ["A", "a"]);
    assert ["d"] + ["A"] == ["d", "A"] && ["d"] + ["a"] == ["d", "a"];
    assert names[1..] == ["a"] && names[1..][1..] == [];
    assert WalkAll(t, ["d"], ["a"], Limit("d")) == [["d", "a"]];
    assert WalkAll(t, ["d"], names, Limit("d")) == [["d", "A"], ["d", "a"]];
  }
}
