/** What a snapshot that is let through is certain to be, and what restoring it can touch. */
module SnapshotSafety {
  import opened Text
  import opened SnapshotPaths
  import opened ProjectTree
  import opened SnapshotCapture
  import opened SnapshotFraming
  import opened SnapshotContract
  import opened SnapshotRestore

  // ---------- safe paths by their components ----------

  const NUMBERED: set<string> := set port, digit | port in {"COM", "LPT"} && digit in "123456789" :: port + [digit]

  const DEVICES: set<string> := {"CON", "PRN", "AUX", "NUL"} + NUMBERED

  /** The name of a device, in any case, alone or before a dot. */
  predicate NamesDevice(name: string) {
    exists d | d in DEVICES :: Upper(name) == d || (|d| < |name| && Upper(name[..|d|]) == d && name[|d|] == '.')
  }

  /** A name that every system takes for an ordinary file or folder of that very name. */
  predicate Ordinary(name: string) {
    && name != "" && name[|name| - 1] != '.' && name[|name| - 1] != ' '
    && (forall c | c in name :: c != '/' && c != '\\' && c != ':' && c as int >= 0x20 && !(0x7f <= c as int <= 0x9f))
    && !NamesDevice(name)
  }

  lemma {:induction false} StemIsFront(name: string)
    ensures Stem(name) <= name && '.' !in Stem(name)
    ensures |Stem(name)| < |name| ==> name[|Stem(name)|] == '.'
  {
    if name != "" && name[0] != '.' {
      StemIsFront(name[1..]);
    }
  }

  lemma {:induction false} StemOf(front: string, name: string)
    requires front <= name && '.' !in front && (|front| < |name| ==> name[|front|] == '.')
    ensures Stem(name) == front
  {
    if front != "" {
      assert front[0] in front && name[0] == front[0];
      assert forall c | c in front[1..] :: c in front;
      StemOf(front[1..], name[1..]);
    }
  }

  lemma UpperDot(s: string)
    ensures |Upper(s)| == |s| && ('.' in Upper(s) <==> '.' in s)
  {
    assert forall i | 0 <= i < |s| :: Upper(s)[i] == '.' <==> s[i] == '.';
  }

  lemma NumberedStems(u: string)
    ensures |u| == 4 && u[..3] in {"COM", "LPT"} && '1' <= u[3] <= '9' <==> u in NUMBERED
  {
    if |u| == 4 && u[..3] in {"COM", "LPT"} && '1' <= u[3] <= '9' {
      assert u == u[..3] + [u[3]];
      assert u[3] == "123456789"[u[3] as int - '1' as int];
    }
  }

  /** The rule on stems is the rule on names. */
  lemma DeviceExactly(name: string)
    ensures DeviceName(name) <==> NamesDevice(name)
  {
    var stem := Stem(name);
    StemIsFront(name);
    NumberedStems(Upper(stem));
    UpperDot(stem);
    if DeviceName(name) {
      assert Upper(stem) in DEVICES && name[..|stem|] == stem;
      assert |stem| == |name| ==> stem == name;
    }
    if d :| d in DEVICES && (Upper(name) == d || (|d| < |name| && Upper(name[..|d|]) == d && name[|d|] == '.')) {
      var front := if Upper(name) == d then name else name[..|d|];
      UpperDot(front);
      NoDots(d);
      StemOf(front, name);
    }
  }

  lemma NoDots(d: string)
    requires d in DEVICES
    ensures '.' !in d
  {
  }

  predicate CharOk(c: char) { c !in "\\:" && !Control(c) }

  predicate CharsOk(s: string) { forall c | c in s :: CharOk(c) }

  lemma PartExactly(part: string)
    requires '/' !in part
    ensures SafePart(part) && CharsOk(part) <==> Ordinary(part)
  {
    DeviceExactly(part);
    hide DeviceName, NamesDevice;
  }

  lemma CharsExactly(parts: Path)
    requires parts != []
    ensures CharsOk(Join(parts)) <==> forall part | part in parts :: CharsOk(part)
  {
    hide CharOk, Join;
    JoinedChars(parts);
    assert CharOk('/') by { SlashOk(); }
  }

  lemma SlashOk()
    ensures CharOk('/')
  {
  }

  lemma SafeUnfolded(path: string)
    ensures SafeRelative(path)
      <==> && path != "" && Bytes(path) <= 1024 && CharsOk(path)
           && (forall part | part in Split(path) :: SafePart(part)) && NormalComponents(path)
  {
    hide Split, Bytes, SafePart, NormalComponents;
    assert forall i | 0 <= i < |path| :: path[i] in path;
  }

  lemma NormalIsImplied(parts: Path)
    requires parts != [] && Split(Join(parts)) == parts && forall part | part in parts :: SafePart(part) && '/' !in part
    ensures Join(parts) != "" && NormalComponents(Join(parts))
  {
    JoinedChars(parts);
    assert parts[0] in parts && !SafePart(".") && !SafePart("..");
    hide SafePart, Split, Join;
  }

  /** A stored path is safe exactly when it is short and all its components are ordinary names. */
  lemma SafeExactly(parts: Path)
    requires parts != [] && forall part | part in parts :: '/' !in part
    ensures SafeRelative(Join(parts)) <==> Bytes(Join(parts)) <= 1024 && forall part | part in parts :: Ordinary(part)
  {
    hide SafeRelative, NormalComponents, CharsOk, SafePart, Ordinary, Bytes, Split, Join;
    SplitJoin(parts);
    SafeUnfolded(Join(parts));
    CharsExactly(parts);
    forall part | part in parts ensures SafePart(part) && CharsOk(part) <==> Ordinary(part) {
      PartExactly(part);
    }
    if forall part | part in parts :: SafePart(part) {
      NormalIsImplied(parts);
    }
  }

  /** The characters of a path are those of its components and the separators. */
  lemma {:induction false} JoinedChars(parts: Path)
    requires parts != []
    ensures forall part, c | part in parts && c in part :: c in Join(parts)
    ensures forall c | c in Join(parts) && c != '/' :: exists part | part in parts :: c in part
    ensures parts[0] <= Join(parts) && (|parts| > 1 ==> '/' in Join(parts))
    ensures Join(parts) == "" ==> parts == [""]
  {
    if |parts| > 1 {
      JoinedChars(parts[1..]);
      assert parts == [parts[0]] + parts[1..];
      assert Join(parts) == parts[0] + "/" + Join(parts[1..]);
    }
  }

  // ---------- what is let through ----------

  /** No corrupt file passes: every file has the recorded hash, a folder has no bytes, and the budgets hold. */
  lemma AcceptedFilesIntact(checks: Checks, s: Snapshot, i: nat)
    requires Accepted(checks, s) && i < |s.files|
    ensures var e := s.files[i];
      && checks.hash(e.bytes) == e.sha256 && (e.directory ==> e.bytes == [])
      && (forall j | 0 <= j < |s.files| && j != i :: checks.fold(s.files[j].path) != checks.fold(e.path))
    ensures |s.files| <= 4096 && Sum(s.files) + VolumeSum(s.volumes) <= 268435456
    ensures s.schemaVersion == 1 && s.engine == ManagedWsl
    ensures !s.contract.sharedHostFolders && (s.contract.bindDirectories != [] || s.contract.namedVolumes != [])
  {
    hide SafeRelative, Shadows, VolumeSound, HoldsDirectory, Sum, VolumeSum, Under;
    assert FileSound(checks, s.contract, s.files[i]);
  }

  /** Nor a corrupt archive: each has the recorded hash and passes the archive check. */
  lemma AcceptedVolumesIntact(checks: Checks, s: Snapshot, i: nat)
    requires Accepted(checks, s) && i < |s.volumes|
    ensures var v := s.volumes[i];
      && checks.hash(v.bytes) == v.sha256 && checks.tarValid(v.bytes) && v.name in s.contract.namedVolumes
      && forall j | 0 <= j < |s.volumes| && j != i :: s.volumes[j].name != v.name
  {
    hide FileSound, Shadows, HoldsDirectory, Sum, VolumeSum, FoldsDistinct;
    assert VolumeSound(checks, s.contract, s.volumes[i]);
  }

  function NamesOf(volumes: seq<Volume>): (names: seq<string>)
    ensures |names| == |volumes| && forall i | 0 <= i < |volumes| :: names[i] == volumes[i].name
  {
    seq(|volumes|, i requires 0 <= i < |volumes| => volumes[i].name)
  }

  /** When the contract names each volume once, there is an archive for every one. */
  lemma EveryVolumeArchived(checks: Checks, s: Snapshot, name: string)
    requires Accepted(checks, s) && AllNamesDistinct(s.contract.namedVolumes)
    ensures name in s.contract.namedVolumes <==> exists i | 0 <= i < |s.volumes| :: s.volumes[i].name == name
  {
    var names := NamesOf(s.volumes);
    AcceptedNames(checks, s);
    hide Accepted, AllNamesDistinct;
    SameMembers(names, s.contract.namedVolumes);
    assert name in names <==> exists i | 0 <= i < |names| :: names[i] == name;
  }

  lemma SameMembers(a: seq<string>, b: seq<string>)
    requires AllNamesDistinct(a) && AllNamesDistinct(b) && |a| == |b| && forall n | n in a :: n in b
    ensures forall n :: n in a <==> n in b
  {
    hide AllNamesDistinct;
    DistinctSize(a);
    DistinctSize(b);
    var x, y := set n | n in a, set n | n in b;
    SameSize(x, y);
    assert forall n :: (n in a <==> n in x) && (n in b <==> n in y);
  }

  lemma AcceptedNames(checks: Checks, s: Snapshot)
    requires Accepted(checks, s)
    ensures var names := NamesOf(s.volumes);
      && AllNamesDistinct(names) && |names| == |s.contract.namedVolumes|
      && forall n | n in names :: n in s.contract.namedVolumes
  {
    hide FileSound, Shadows, HoldsDirectory, Sum, VolumeSum, FoldsDistinct;
    assert forall i | 0 <= i < |s.volumes| :: VolumeSound(checks, s.contract, s.volumes[i]);
  }

  ghost predicate AllNamesDistinct(names: seq<string>) { forall i, j | 0 <= i < j < |names| :: names[i] != names[j] }

  lemma {:induction false} DistinctSize(names: seq<string>)
    requires AllNamesDistinct(names)
    ensures |set n | n in names| == |names|
  {
    if names != [] {
      var rest := names[1..];
      DistinctSize(rest);
      assert names[0] !in rest;
      assert (set n | n in names) == {names[0]} + set n | n in rest by {
        assert names == [names[0]] + rest;
      }
    }
  }

  lemma SameSize(a: set<string>, b: set<string>)
    requires a <= b && |a| == |b|
    ensures a == b
  {
    assert |b - a| == 0;
  }

  /** Every stored path is made of ordinary names. */
  lemma AcceptedPathsOrdinary(checks: Checks, s: Snapshot, i: nat, name: string)
    requires Accepted(checks, s) && i < |s.files| && name in At(s.files[i])
    ensures Ordinary(name) && Bytes(s.files[i].path) <= 1024
  {
    hide Split, Shadows, VolumeSound, HoldsDirectory, Sum, VolumeSum, FoldsDistinct, Ordinary, Bytes, Join;
    var path := s.files[i].path;
    assert FileSound(checks, s.contract, s.files[i]);
    JoinSplit(path);
    SplitPartsPlain(path);
    SafeExactly(Split(path));
  }

  /** Restoring adds the credentials file, what lies in the bind directories, and folders leading there. */
  lemma AddedInside(checks: Checks, s: Snapshot, before: Tree, after: Tree, p: Path)
    requires Accepted(checks, s) && Overlaid(before, (set e | e in s.files), after)
    requires p in after && p !in before && p != []
    ensures p == Split(SECRETS_FILE) || InBinds(s.contract, after, p)
  {
    hide Split, Accepted, Overlaid, Order;
    var e := WhatCovers(before, s.files, after, p);
    AcceptedAdmitted(checks, s, e);
    if e.path == SECRETS_FILE {
      SecretsPath();
    } else {
      var i :| 0 <= i < |s.contract.bindDirectories| && Under(e.path, s.contract.bindDirectories[i]);
      var root := Split(s.contract.bindDirectories[i]);
      if !(root <= p) {
        Shorter(p, root, At(e));
        FolderThere(checks, s, before, after, p, e);
      }
    }
  }

  lemma WhatCovers(before: Tree, files: seq<Entry>, after: Tree, p: Path) returns (e: Entry)
    requires Overlaid(before, (set e | e in files), after) && p in after && p !in before
    ensures e in files && p <= At(e)
  {
    hide Split;
    e :| e in files && p <= At(e);
  }

  lemma FolderThere(checks: Checks, s: Snapshot, before: Tree, after: Tree, p: Path, e: Entry)
    requires Accepted(checks, s) && Overlaid(before, (set e | e in s.files), after)
    requires p in after && p !in before && e in s.files && p < At(e)
    ensures after[p] == Folder
  {
    hide Split, Accepted, Preserves;
    if f :| f in s.files && At(f) == p {
      EntriesGiveWay(checks, s, f, e);
      assert f in (set e | e in s.files);
    }
  }

  /** The path lies in a bind directory or is a folder leading to one. */
  ghost predicate InBinds(contract: Contract, t: Tree, p: Path) {
    exists i | 0 <= i < |contract.bindDirectories| ::
      Split(contract.bindDirectories[i]) <= p || (p < Split(contract.bindDirectories[i]) && p in t && t[p] == Folder)
  }

  lemma Shorter(a: Path, b: Path, q: Path)
    requires a <= q && b <= q && !(b <= a)
    ensures a < b
  {
    assert a == q[..|a|] && b == q[..|b|];
  }

  lemma AcceptedAdmitted(checks: Checks, s: Snapshot, e: Entry)
    requires Accepted(checks, s) && e in s.files
    ensures e.path == SECRETS_FILE
      || exists i | 0 <= i < |s.contract.bindDirectories| :: Under(e.path, s.contract.bindDirectories[i])
  {
    hide SafeRelative, Shadows, VolumeSound, HoldsDirectory, Sum, VolumeSum, FoldsDistinct, Under;
    var i :| 0 <= i < |s.files| && s.files[i] == e;
    assert FileSound(checks, s.contract, s.files[i]);
  }
}
