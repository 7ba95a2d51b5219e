/** Relative snapshot paths: the safety check and the component view that `Path::starts_with` compares. */
module SnapshotPaths {
  import opened Text

  /** A path as its components; the empty sequence is the project directory itself. */
  type Path = seq<string>

  /** `str::split('/')`. */
  function Split(s: string): (parts: Path)
    ensures |parts| >= 1
  {
    if s == "" then [""]
    else
      var rest := Split(s[1..]);
      if s[0] == '/' then [""] + rest else [[s[0]] + rest[0]] + rest[1..]
  }

  function Join(parts: Path): string { Joined("/", parts) }

  /** `matches('/').count()`, the first sort key of a restore. */
  function Slashes(s: string): nat {
    if s == "" then 0 else (if s[0] == '/' then 1 else 0) + Slashes(s[1..])
  }

  /** The part before the first dot. */
  function Stem(part: string): string {
    if part == "" || part[0] == '.' then "" else [part[0]] + Stem(part[1..])
  }

  /** Names that Windows reserves for devices, whatever their extension. */
  predicate DeviceName(part: string) {
    var stem := Upper(Stem(part));
    || stem in {"CON", "PRN", "AUX", "NUL"}
    || (|stem| == 4 && stem[..3] in {"COM", "LPT"} && '1' <= stem[3] <= '9')
  }

  predicate SafePart(part: string) {
    part != "" && part[|part| - 1] !in " ." && !DeviceName(part)
  }

  /** Every component is an ordinary name: not the root, `.` or `..`. */
  predicate NormalComponents(path: string) {
    && path != "" && path[0] != '/'
    && Split(path)[0] != "."
    && ".." !in Split(path)
  }

  predicate SafeRelative(path: string) {
    && path != ""
    && Bytes(path) <= 1024
    && (forall i | 0 <= i < |path| :: path[i] !in "\\:" && !Control(path[i]))
    && (forall part | part in Split(path) :: SafePart(part))
    && NormalComponents(path)
  }

  /** `Path::starts_with`: whole components, never part of a name. */
  predicate Under(path: string, root: string) {
    Split(root) <= Split(path)
  }

  lemma {:induction false} SplitConcat(a: string, b: string)
    ensures Split(a + "/" + b) == Split(a) + Split(b)
  {
    var whole := a + "/" + b;
    if a == "" {
      assert whole[1..] == b;
    } else {
      assert whole[1..] == a[1..] + "/" + b;
      SplitConcat(a[1..], b);
    }
  }

  lemma {:induction false} SplitName(name: string)
    requires '/' !in name
    ensures Split(name) == [name]
  {
    if name != "" {
      assert forall c | c in name[1..] :: c in name;
      SplitName(name[1..]);
      assert [name[0]] + name[1..] == name;
    }
  }

  /** Splitting loses nothing, so distinct strings have distinct component lists. */
  lemma {:induction false} JoinSplit(s: string)
    ensures Join(Split(s)) == s
  {
    if s != "" {
      JoinSplit(s[1..]);
      var rest := Split(s[1..]);
      assert s == [s[0]] + s[1..];
      if s[0] == '/' {
        assert ([""] + rest)[1..] == rest;
      } else {
        var here := [[s[0]] + rest[0]] + rest[1..];
        assert here[1..] == rest[1..];
        if |rest| > 1 {
          assert Join(rest) == rest[0] + "/" + Join(rest[1..]);
          assert Join(here) == [s[0]] + rest[0] + "/" + Join(rest[1..]);
        }
      }
    }
  }

  lemma SplitInjective(a: string, b: string)
    requires Split(a) == Split(b)
    ensures a == b
  {
    JoinSplit(a);
    JoinSplit(b);
  }

  lemma {:induction false} SplitJoin(p: Path)
    requires p != [] && forall name | name in p :: '/' !in name
    ensures Split(Join(p)) == p
  {
    SplitName(p[0]);
    if |p| > 1 {
      SplitJoin(p[1..]);
      SplitConcat(p[0], Join(p[1..]));
    }
  }

  /** Appending one directory entry appends one component. */
  lemma SplitChild(relative: string, name: string)
    requires '/' !in name
    ensures Split(relative + "/" + name) == Split(relative) + [name]
  {
    SplitConcat(relative, name);
    SplitName(name);
  }

  /** The restore's sort key is the depth of the path. */
  lemma {:induction false} SlashesCountDepth(s: string)
    ensures Slashes(s) == |Split(s)| - 1
  {
    if s != "" {
      SlashesCountDepth(s[1..]);
    }
  }

  lemma {:induction false} SplitPartsPlain(s: string)
    ensures forall part | part in Split(s) :: '/' !in part
  {
    if s != "" {
      SplitPartsPlain(s[1..]);
    }
  }
}
