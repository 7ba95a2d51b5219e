/** Which app data a snapshot must hold, and the structural check of a decoded snapshot. */
module SnapshotContract {
  import opened Results
  import opened Text
  import opened SortedNames
  import opened SnapshotPaths
  import opened ProjectTree
  import opened SnapshotCapture
  import opened SnapshotFraming

  const SECRETS_FILE := "local-store-secrets.json"

  datatype Mount = DirectoryMount(source: string) | HostMount | VolumeMount

  /** A reviewed plan; `composeSha256` is absent when the plan cannot be rendered. */
  datatype Plan = Plan(id: string, valid: bool, mounts: seq<Mount>, namedVolumes: seq<string>, composeSha256: Option<string>)

  ghost function Sources(mounts: seq<Mount>): set<string> {
    set m | m in mounts && m.DirectoryMount? :: m.source
  }

  /** No directory lies inside another. */
  ghost predicate Disjoint(directories: set<string>) {
    forall a, b | a in directories && b in directories && a != b :: !Under(a, b)
  }

  lemma {:induction false} JoinPrefix(p: Path, q: Path)
    requires p != [] && p < q
    ensures Join(p) < Join(q)
  {
    if |p| == 1 {
      assert Join(q) == p[0] + "/" + Join(q[1..]);
    } else {
      JoinPrefix(p[1..], q[1..]);
    }
  }

  /** A directory inside another sorts after it, so checking later directories only misses nothing. */
  lemma InsideSortsAfter(outer: string, inner: string)
    requires outer != inner && Under(inner, outer)
    ensures Below(outer, inner)
  {
    hide Split, Join;
    JoinSplit(outer);
    JoinSplit(inner);
    assert Split(outer) < Split(inner) by {
      if Split(outer) == Split(inner) { SplitInjective(outer, inner); }
    }
    JoinPrefix(Split(outer), Split(inner));
    PrefixBelow(outer, inner);
  }

  lemma LaterCheckSuffices(sorted: seq<string>)
    requires Increasing(sorted)
    ensures Disjoint(set d | d in sorted) <==> forall i, j | 0 <= i < j < |sorted| :: !Under(sorted[j], sorted[i])
  {
    hide Under, Below;
    if forall i, j | 0 <= i < j < |sorted| :: !Under(sorted[j], sorted[i]) {
      forall a, b | a in sorted && b in sorted && a != b ensures !Under(a, b) {
        var i, j :| 0 <= i < |sorted| && 0 <= j < |sorted| && sorted[i] == a && sorted[j] == b;
        if i < j && Under(a, b) {
          InsideSortsAfter(b, a);
          BelowTransitive(a, b, a);
          BelowIrreflexive(a);
        }
      }
    }
    if Disjoint(set d | d in sorted) {
      forall i, j | 0 <= i < j < |sorted| ensures !Under(sorted[j], sorted[i]) {
        BelowIrreflexive(sorted[i]);
      }
    }
  }

  /** The contract of a plan: its distinct bind directories in order, refused when two of them overlap. */
  method FromPlan(plan: Plan) returns (r: Result<Contract, string>)
    ensures r.Ok? <==>
      && plan.valid
      && (forall d | d in Sources(plan.mounts) :: SafeRelative(d))
      && Disjoint(Sources(plan.mounts))
      && plan.composeSha256.Some?
    ensures r.Ok? ==> r.value == Contract(plan.id, plan.composeSha256.value, Ordered(Sources(plan.mounts)),
                                          plan.namedVolumes, HostMount in plan.mounts)
  {
    hide SafeRelative, Under, Below;
    if !plan.valid {
      return Err("Invalid plan.");
    }
    var directories: seq<string>, shared := [], false;
    for i := 0 to |plan.mounts|
      invariant Increasing(directories)
      invariant forall d :: d in directories <==> d in Sources(plan.mounts[..i])
      invariant forall d | d in directories :: SafeRelative(d)
      invariant shared <==> HostMount in plan.mounts[..i]
    {
      assert plan.mounts[..i + 1] == plan.mounts[..i] + [plan.mounts[i]];
      match plan.mounts[i]
      case DirectoryMount(source) =>
        if !SafeRelative(source) {
          assert source in Sources(plan.mounts);
          return Err("Invalid snapshot bind path.");
        }
        directories := Insert(directories, source);
      case HostMount => shared := true;
      case VolumeMount =>
    }
    assert plan.mounts[..|plan.mounts|] == plan.mounts;
    IncreasingUnique(directories, Ordered(Sources(plan.mounts)));
    assert Sources(plan.mounts) == set d | d in directories;
    LaterCheckSuffices(directories);
    var overlapping := false;
    for i := 0 to |directories|
      invariant overlapping <==> exists a, b | 0 <= a < i && a < b < |directories| :: Under(directories[b], directories[a])
    {
      if exists b | i < b < |directories| :: Under(directories[b], directories[i]) {
        overlapping := true;
      }
    }
    if overlapping {
      return Err("Overlapping snapshot bind directories are unsupported.");
    }
    if plan.composeSha256.None? {
      return Err("The plan cannot be rendered.");
    }
    return Ok(Contract(plan.id, plan.composeSha256.value, directories, plan.namedVolumes, shared));
  }

  predicate Supported(contract: Contract) {
    !contract.sharedHostFolders && (contract.bindDirectories != [] || contract.namedVolumes != [])
  }

  /** SHA-256, Unicode lower-casing and the archive check of named volumes. */
  datatype Checks = Checks(hash: seq<byte> -> string, fold: string -> string, tarValid: seq<byte> -> bool)

  predicate Admitted(contract: Contract, path: string) {
    path == SECRETS_FILE || exists i | 0 <= i < |contract.bindDirectories| :: Under(path, contract.bindDirectories[i])
  }

  predicate FileSound(checks: Checks, contract: Contract, e: Entry) {
    && SafeRelative(e.path)
    && Admitted(contract, e.path)
    && e.sha256 == checks.hash(e.bytes)
    && (e.directory ==> e.bytes == [])
  }

  predicate VolumeSound(checks: Checks, contract: Contract, v: Volume) {
    v.name in contract.namedVolumes && v.sha256 == checks.hash(v.bytes) && checks.tarValid(v.bytes)
  }

  function VolumeSum(volumes: seq<Volume>): nat {
    if volumes == [] then 0 else VolumeSum(volumes[..|volumes| - 1]) + |volumes[|volumes| - 1].bytes|
  }

  lemma {:induction false} VolumeSumMonotone(volumes: seq<Volume>, i: nat)
    requires i <= |volumes|
    ensures VolumeSum(volumes[..i]) <= VolumeSum(volumes)
  {
    if i < |volumes| {
      VolumeSumMonotone(volumes[..|volumes| - 1], i);
      assert volumes[..|volumes| - 1][..i] == volumes[..i];
    } else {
      assert volumes[..i] == volumes;
    }
  }

  lemma VolumeSumEmpty(volumes: seq<Volume>)
    ensures VolumeSum(volumes[..0]) == 0
  {
  }

  lemma VolumeSumStep(volumes: seq<Volume>, i: nat)
    requires i < |volumes|
    ensures VolumeSum(volumes[..i + 1]) == VolumeSum(volumes[..i]) + |volumes[i].bytes|
  {
    assert volumes[..i + 1][..i] == volumes[..i];
  }

  lemma SumMonotone(files: seq<Entry>, i: nat)
    requires i <= |files|
    ensures Sum(files[..i]) <= Sum(files)
  {
    assert files == files[..i] + files[i..];
    SumConcat(files[..i], files[i..]);
  }

  ghost predicate FoldsDistinct(checks: Checks, files: seq<Entry>) {
    forall i, j | 0 <= i < j < |files| :: checks.fold(files[i].path) != checks.fold(files[j].path)
  }

  ghost predicate NamesDistinct(volumes: seq<Volume>) {
    forall i, j | 0 <= i < j < |volumes| :: volumes[i].name != volumes[j].name
  }

  predicate HoldsDirectory(files: seq<Entry>, directory: string) {
    exists i | 0 <= i < |files| :: files[i].path == directory && files[i].directory
  }

  predicate Shadows(e: Entry, other: Entry) {
    !other.directory && other.path != e.path && Under(e.path, other.path)
  }

  /** The structural contract of a snapshot. */
  ghost predicate Accepted(checks: Checks, s: Snapshot) {
    && Supported(s.contract) && s.schemaVersion == 1 && |s.files| <= MAX_FILES && s.engine.ManagedWsl?
    && (forall i | 0 <= i < |s.files| :: FileSound(checks, s.contract, s.files[i]))
    && FoldsDistinct(checks, s.files)
    && Sum(s.files) + VolumeSum(s.volumes) <= MAX_DATA_BYTES
    && (forall i | 0 <= i < |s.contract.bindDirectories| :: HoldsDirectory(s.files, s.contract.bindDirectories[i]))
    && (forall i | 0 <= i < |s.volumes| :: VolumeSound(checks, s.contract, s.volumes[i]))
    && NamesDistinct(s.volumes) && |s.volumes| == |s.contract.namedVolumes|
    && (forall i, j | 0 <= i < |s.files| && 0 <= j < |s.files| :: !Shadows(s.files[i], s.files[j]))
  }

  method ValidateFiles(checks: Checks, s: Snapshot) returns (ok: bool)
    ensures ok <==>
      && (forall i | 0 <= i < |s.files| :: FileSound(checks, s.contract, s.files[i]))
      && FoldsDistinct(checks, s.files)
      && Sum(s.files) <= MAX_DATA_BYTES
  {
    hide FileSound;
    var paths: set<string>, total := {}, 0;
    for i := 0 to |s.files|
      invariant forall j | 0 <= j < i :: FileSound(checks, s.contract, s.files[j])
      invariant FoldsDistinct(checks, s.files[..i])
      invariant forall p :: p in paths <==> exists j | 0 <= j < i :: checks.fold(s.files[j].path) == p
      invariant total == Sum(s.files[..i]) <= MAX_DATA_BYTES
    {
      var e := s.files[i];
      total := total + |e.bytes|;
      assert s.files[..i + 1] == s.files[..i] + [e];
      SumConcat(s.files[..i], [e]);
      SumMonotone(s.files, i + 1);
      if !FileSound(checks, s.contract, e) || checks.fold(e.path) in paths || total > MAX_DATA_BYTES {
        return false;
      }
      paths := paths + {checks.fold(e.path)};
    }
    assert s.files[..|s.files|] == s.files;
    ok := true;
  }

  method ValidateVolumes(checks: Checks, s: Snapshot) returns (ok: bool)
    requires Sum(s.files) <= MAX_DATA_BYTES
    ensures ok <==>
      && (forall i | 0 <= i < |s.volumes| :: VolumeSound(checks, s.contract, s.volumes[i]))
      && NamesDistinct(s.volumes) && |s.volumes| == |s.contract.namedVolumes|
      && Sum(s.files) + VolumeSum(s.volumes) <= MAX_DATA_BYTES
  {
    hide VolumeSound, VolumeSum, Sum;
    assert VolumeSum(s.volumes[..0]) == 0 by { VolumeSumEmpty(s.volumes); }
    var names: set<string>, total := {}, Sum(s.files);
    for i := 0 to |s.volumes|
      invariant forall j | 0 <= j < i :: VolumeSound(checks, s.contract, s.volumes[j])
      invariant NamesDistinct(s.volumes[..i])
      invariant forall n :: n in names <==> exists j | 0 <= j < i :: s.volumes[j].name == n
      invariant |names| == i
      invariant total == Sum(s.files) + VolumeSum(s.volumes[..i]) <= MAX_DATA_BYTES
    {
      var v := s.volumes[i];
      total := total + |v.bytes|;
      assert s.volumes[..i + 1] == s.volumes[..i] + [v];
      VolumeSumStep(s.volumes, i);
      VolumeSumMonotone(s.volumes, i + 1);
      if !VolumeSound(checks, s.contract, v) || v.name in names || total > MAX_DATA_BYTES {
        return false;
      }
      names := names + {v.name};
    }
    assert s.volumes[..|s.volumes|] == s.volumes;
    ok := |names| == |s.contract.namedVolumes|;
  }

  /** `validate_entries` accepts exactly the snapshots that meet the contract. */
  method ValidateEntries(checks: Checks, s: Snapshot) returns (ok: bool)
    ensures ok <==> Accepted(checks, s)
  {
    hide FileSound, VolumeSound, FoldsDistinct, NamesDistinct, HoldsDirectory, Shadows;
    if !Supported(s.contract) || s.schemaVersion != 1 || |s.files| > MAX_FILES || !s.engine.ManagedWsl? {
      return false;
    }
    ok := ValidateFiles(checks, s);
    if !ok {
      return;
    }
    for i := 0 to |s.contract.bindDirectories|
      invariant forall j | 0 <= j < i :: HoldsDirectory(s.files, s.contract.bindDirectories[j])
    {
      if !HoldsDirectory(s.files, s.contract.bindDirectories[i]) {
        return false;
      }
    }
    ok := ValidateVolumes(checks, s);
    if !ok {
      return;
    }
    for i := 0 to |s.files|
      invariant forall a, b | 0 <= a < i && 0 <= b < |s.files| :: !Shadows(s.files[a], s.files[b])
    {
      if exists j | 0 <= j < |s.files| :: Shadows(s.files[i], s.files[j]) {
        return false;
      }
    }
  }
}
