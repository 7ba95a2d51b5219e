/** Grouping of catalog records: an incremental union-find over canonical keys and names. */
module CatalogGroups {
  import opened Results

  /**
   * What grouping looks at: the canonical keys of the two addresses, the name stripped to its
   * letters and digits, and the first-party host families.
   */
  datatype Record = Record(sourceUrl: string, sourceKey: Option<string>, siteKey: Option<string>,
                           name: string, nameKey: string, hosts: set<string>)

  function Keys(r: Record): set<string> {
    (if r.sourceKey.Some? then {r.sourceKey.value} else {}) + (if r.siteKey.Some? then {r.siteKey.value} else {})
  }

  predicate SharesKey(a: Record, b: Record) { Keys(a) * Keys(b) != {} }

  predicate SharesNameAndHost(a: Record, b: Record) { a.nameKey == b.nameKey && a.hosts * b.hosts != {} }

  /** The list of groups, some emptied by merges, and the group that each key leads to. */
  datatype Catalog = Catalog(groups: seq<seq<Record>>, index: map<string, nat>)

  predicate NameMatch(group: seq<Record>, r: Record) {
    exists i | 0 <= i < |group| :: SharesNameAndHost(group[i], r)
  }

  function KeyMatches(c: Catalog, r: Record): set<nat> {
    set k | k in Keys(r) && k in c.index :: c.index[k]
  }

  function NameMatches(c: Catalog, r: Record): set<nat> {
    set i: nat | i < |c.groups| && NameMatch(c.groups[i], r)
  }

  /** Names are consulted only when no key is known. */
  function Matches(c: Catalog, r: Record): set<nat> {
    if KeyMatches(c, r) != {} then KeyMatches(c, r) else NameMatches(c, r)
  }

  /** The members of a set below `n`, in ascending order. */
  function Ascending(s: set<nat>, n: nat): (r: seq<nat>)
    ensures forall i :: i in r <==> i in s && i < n
    ensures forall i | 0 <= i < |r| :: r[i] < n
    ensures forall i, j | 0 <= i < j < |r| :: r[i] < r[j]
  {
    if n == 0 then []
    else if n - 1 in s then Ascending(s, n - 1) + [n - 1]
    else Ascending(s, n - 1)
  }

  predicate InRange(c: Catalog) { forall k | k in c.index :: c.index[k] < |c.groups| }

  /** Moves one group into another and leaves it empty. */
  function Merge(c: Catalog, first: nat, other: nat): Catalog
    requires first < |c.groups| && other < |c.groups|
  {
    Catalog(c.groups[first := c.groups[first] + c.groups[other]][other := []],
            map k | k in c.index :: if c.index[k] == other then first else c.index[k])
  }

  function MergeAll(c: Catalog, first: nat, others: seq<nat>): (c': Catalog)
    requires first < |c.groups| && forall i | 0 <= i < |others| :: others[i] < |c.groups|
    ensures |c'.groups| == |c.groups|
    decreases |others|
  {
    if others == [] then c else MergeAll(Merge(c, first, others[0]), first, others[1..])
  }

  function Indexed(index: map<string, nat>, keys: set<string>, g: nat): map<string, nat> {
    index + map k | k in keys :: g
  }

  /** The catalog after one more record. */
  function Added(c: Catalog, r: Record): Catalog
    requires InRange(c)
  {
    var n := |c.groups|;
    var matches := Ascending(Matches(c, r), n);
    if matches == [] then Catalog(c.groups + [[r]], Indexed(c.index, Keys(r), n))
    else
      var first := matches[0];
      var merged := MergeAll(c, first, matches[1..]);
      Catalog(merged.groups[first := merged.groups[first] + [r]], Indexed(merged.index, Keys(r), first))
  }

  class Grouping {
    var groups: seq<seq<Record>>
    var index: map<string, nat>

    constructor ()
      ensures State() == Catalog([], map[])
    {
      groups, index := [], map[];
    }

    ghost function State(): Catalog
      reads this
    {
      Catalog(groups, index)
    }

    method Add(r: Record)
      requires InRange(State())
      modifies this
      ensures State() == Added(old(State()), r)
    {
      hide SharesNameAndHost, Ascending, MergeAll, Indexed, Keys;
      var c := Catalog(groups, index);
      var matches := KeyMatches(c, r);
      if matches == {} {
        for number := 0 to |groups|
          invariant State() == c
          invariant matches == set i: nat | i < number && NameMatch(c.groups[i], r)
        {
          if exists i | 0 <= i < |groups[number]| :: SharesNameAndHost(groups[number][i], r) {
            matches := matches + {number};
          }
        }
      }
      assert matches == Matches(c, r);
      var sorted := Ascending(matches, |groups|);
      var target := |groups|;
      if sorted != [] {
        target := sorted[0];
        MergeInto(target, sorted[1..]);
      } else {
        groups := groups + [[]];
        assert groups[target] + [r] == [r] && groups[target := [r]] == c.groups + [[r]];
      }
      groups := groups[target := groups[target] + [r]];
      index := Indexed(index, Keys(r), target);
    }

    /** Moves every listed group into `target`, in the given order. */
    method MergeInto(target: nat, others: seq<nat>)
      requires target < |groups| && forall i | 0 <= i < |others| :: others[i] < |groups|
      modifies this
      ensures State() == MergeAll(old(State()), target, others)
    {
      ghost var c := State();
      for i := 0 to |others|
        invariant |groups| == |c.groups|
        invariant MergeAll(State(), target, others[i..]) == MergeAll(c, target, others)
      {
        var other := others[i];
        assert others[i..][0] == other && others[i..][1..] == others[i + 1..];
        groups := groups[target := groups[target] + groups[other]][other := []];
        index := map k | k in index :: if index[k] == other then target else index[k];
      }
    }
  }

  // ---------- the partition ----------

  ghost predicate Holds(group: seq<Record>, key: string) {
    exists i | 0 <= i < |group| :: key in Keys(group[i])
  }

  ghost predicate IndexLeads(c: Catalog) {
    forall k | k in c.index :: c.index[k] < |c.groups| && Holds(c.groups[c.index[k]], k)
  }

  ghost predicate Indexes(c: Catalog, g: nat, r: Record) {
    forall k | k in Keys(r) :: k in c.index && c.index[k] == g
  }

  ghost predicate KeysLead(c: Catalog) {
    forall g, i | 0 <= g < |c.groups| && 0 <= i < |c.groups[g]| :: Indexes(c, g, c.groups[g][i])
  }

  /** Every indexed key leads to a group that holds it, and every key of every record leads to its group. */
  ghost predicate Sound(c: Catalog) { IndexLeads(c) && KeysLead(c) }

  /** All records, with their multiplicities. */
  ghost function Everything(groups: seq<seq<Record>>): multiset<Record> {
    if groups == [] then multiset{} else Everything(groups[..|groups| - 1]) + multiset(groups[|groups| - 1])
  }

  lemma {:induction false} EverythingConcat(a: seq<seq<Record>>, b: seq<seq<Record>>)
    ensures Everything(a + b) == Everything(a) + Everything(b)
  {
    if b == [] {
      assert a + b == a;
    } else {
      var n := |b| - 1;
      assert (a + b)[..|a + b| - 1] == a + b[..n] && (a + b)[|a + b| - 1] == b[n];
      EverythingConcat(a, b[..n]);
    }
  }

  lemma EverythingOne(group: seq<Record>)
    ensures Everything([group]) == multiset(group)
  {
    assert [group][..0] == [];
  }

  lemma Exchange(before: multiset<Record>, gone: multiset<Record>, come: multiset<Record>, rest: multiset<Record>)
    ensures gone <= before + gone + rest
    ensures before + gone + rest - gone + come == before + come + rest
  {
  }

  lemma EverythingUpdated(groups: seq<seq<Record>>, g: nat, group: seq<Record>)
    requires g < |groups|
    ensures multiset(groups[g]) <= Everything(groups)
    ensures Everything(groups[g := group]) == Everything(groups) - multiset(groups[g]) + multiset(group)
  {
    hide Everything;
    var before, rest := groups[..g], groups[g + 1..];
    assert groups == before + [groups[g]] + rest && groups[g := group] == before + [group] + rest;
    EverythingConcat(before + [groups[g]], rest);
    EverythingConcat(before, [groups[g]]);
    EverythingConcat(before + [group], rest);
    EverythingConcat(before, [group]);
    EverythingOne(groups[g]);
    EverythingOne(group);
    Exchange(Everything(before), multiset(groups[g]), multiset(group), Everything(rest));
  }

  lemma MergeKeepsEverything(c: Catalog, first: nat, other: nat)
    requires first < |c.groups| && other < |c.groups| && first != other
    ensures Everything(Merge(c, first, other).groups) == Everything(c.groups)
  {
    hide Everything;
    var joined := c.groups[first] + c.groups[other];
    var half := c.groups[first := joined];
    EverythingUpdated(c.groups, first, joined);
    EverythingUpdated(half, other, []);
    assert multiset(joined) == multiset(c.groups[first]) + multiset(c.groups[other]);
  }

  lemma JoinedMember(a: seq<Record>, b: seq<Record>, i: nat)
    requires i < |a + b|
    ensures (a + b)[i] == if i < |a| then a[i] else b[i - |a|]
  {
  }

  lemma HoldsJoined(a: seq<Record>, b: seq<Record>, key: string)
    ensures Holds(a + b, key) <==> Holds(a, key) || Holds(b, key)
  {
    if Holds(a, key) {
      var i :| 0 <= i < |a| && key in Keys(a[i]);
      assert key in Keys((a + b)[i]);
    }
    if Holds(b, key) {
      var i :| 0 <= i < |b| && key in Keys(b[i]);
      assert key in Keys((a + b)[|a| + i]);
    }
  }

  lemma MergeKeepsSound(c: Catalog, first: nat, other: nat)
    requires Sound(c) && first < |c.groups| && other < |c.groups| && first != other
    ensures Sound(Merge(c, first, other))
  {
    hide Holds, Keys;
    var c' := Merge(c, first, other);
    forall k | k in c'.index ensures c'.index[k] < |c'.groups| && Holds(c'.groups[c'.index[k]], k) {
      HoldsJoined(c.groups[first], c.groups[other], k);
    }
    forall g, i | 0 <= g < |c'.groups| && 0 <= i < |c'.groups[g]| ensures Indexes(c', g, c'.groups[g][i]) {
      if g == first {
        JoinedMember(c.groups[first], c.groups[other], i);
        if i < |c.groups[first]| {
          assert Indexes(c, first, c.groups[first][i]);
        } else {
          assert Indexes(c, other, c.groups[other][i - |c.groups[first]|]);
        }
      } else {
        assert Indexes(c, g, c.groups[g][i]);
      }
    }
  }

  ghost predicate InSome(groups: seq<seq<Record>>, gs: set<nat>, r: Record) {
    exists g | g in gs && g < |groups| :: r in groups[g]
  }

  function Members(others: seq<nat>): set<nat> { set g | g in others }

  /** What merging a list of groups does to each of them. */
  lemma {:induction false} MergeAllFacts(c: Catalog, first: nat, others: seq<nat>)
    requires Sound(c) && first < |c.groups|
    requires forall i | 0 <= i < |others| :: others[i] < |c.groups| && others[i] != first
    requires forall i, j | 0 <= i < j < |others| :: others[i] != others[j]
    ensures var c' := MergeAll(c, first, others);
      && Sound(c') && Everything(c'.groups) == Everything(c.groups)
      && c'.index.Keys == c.index.Keys
      && (forall k | k in c.index :: c'.index[k] == if c.index[k] in others then first else c.index[k])
      && (forall g | 0 <= g < |c.groups| && g != first :: c'.groups[g] == if g in others then [] else c.groups[g])
    ensures var c' := MergeAll(c, first, others);
      forall r :: r in c'.groups[first] <==> r in c.groups[first] || InSome(c.groups, Members(others), r)
    decreases |others|
  {
    hide Sound, Everything;
    if others != [] {
      var c1 := Merge(c, first, others[0]);
      MergeKeepsSound(c, first, others[0]);
      MergeKeepsEverything(c, first, others[0]);
      MergeAllFacts(c1, first, others[1..]);
      var c' := MergeAll(c, first, others);
      forall r ensures r in c'.groups[first] <==> r in c.groups[first] || InSome(c.groups, Members(others), r) {
        MergedMember(c, first, others, r);
      }
    }
  }

  lemma MergedMember(c: Catalog, first: nat, others: seq<nat>, r: Record)
    requires first < |c.groups| && others != []
    requires forall i | 0 <= i < |others| :: others[i] < |c.groups| && others[i] != first
    requires forall i, j | 0 <= i < j < |others| :: others[i] != others[j]
    ensures var c1 := Merge(c, first, others[0]);
      r in c1.groups[first] || InSome(c1.groups, Members(others[1..]), r)
      <==> r in c.groups[first] || InSome(c.groups, Members(others), r)
  {
    var c1 := Merge(c, first, others[0]);
    assert r in c1.groups[first] <==> r in c.groups[first] || r in c.groups[others[0]];
    assert others[0] in Members(others);
    if InSome(c1.groups, Members(others[1..]), r) {
      var g :| g in Members(others[1..]) && r in c1.groups[g];
      var i :| 0 <= i < |others[1..]| && others[1..][i] == g;
      assert others[i + 1] == g && g in Members(others) && r in c.groups[g];
    }
    if InSome(c.groups, Members(others), r) {
      var g :| g in Members(others) && g < |c.groups| && r in c.groups[g];
      var i :| 0 <= i < |others| && others[i] == g;
      if i > 0 {
        assert others[1..][i - 1] == g && g in Members(others[1..]) && r in c1.groups[g];
      }
    }
  }

  lemma SoundInRange(c: Catalog)
    requires Sound(c)
    ensures InRange(c)
  {
  }

  /** The group that receives a new record. */
  function Target(c: Catalog, r: Record): nat {
    var matches := Ascending(Matches(c, r), |c.groups|);
    if matches == [] then |c.groups| else matches[0]
  }

  lemma AscendingMembers(s: set<nat>, n: nat)
    requires forall g | g in s :: g < n
    ensures Members(Ascending(s, n)) == s
    ensures Ascending(s, n) == [] <==> s == {}
  {
    hide Ascending;
    var r := Ascending(s, n);
    assert forall g :: g in r <==> g in s;
    if r != [] {
      assert r[0] in s;
    }
  }

  lemma MatchesInRange(c: Catalog, r: Record)
    requires InRange(c)
    ensures forall g | g in Matches(c, r) :: g < |c.groups|
  {
    hide NameMatch, Keys;
  }

  /**
   * What one more record does: the target group receives everything the matching groups held and the
   * record, the other matching groups are emptied, and every other group stays as it is.
   */
  ghost predicate Extends(c: Catalog, r: Record, matches: set<nat>, target: nat, c': Catalog) {
    && target < |c'.groups|
    && |c'.groups| == (if matches == {} then |c.groups| + 1 else |c.groups|)
    && (if matches == {} then target == |c.groups| else target in matches)
    && (forall x :: x in c'.groups[target] <==> x == r || InSome(c.groups, matches, x))
    && (forall g | 0 <= g < |c'.groups| && g != target :: c'.groups[g] == if g in matches then [] else c.groups[g])
    && c'.index.Keys == c.index.Keys + Keys(r)
    && (forall k | k in c'.index :: c'.index[k] ==
          if k in Keys(r) || c.index[k] in matches then target else c.index[k])
  }

  lemma AddedExtends(c: Catalog, r: Record)
    requires Sound(c)
    ensures InRange(c) && (forall g | g in Matches(c, r) :: g < |c.groups|)
    ensures Extends(c, r, Matches(c, r), Target(c, r), Added(c, r))
    ensures Everything(Added(c, r).groups) == Everything(c.groups) + multiset{r}
  {
    hide Sound, Everything, Matches, MergeAll, Extends, Ascending, Keys;
    SoundInRange(c);
    MatchesInRange(c, r);
    var m := Matches(c, r);
    AscendingMembers(m, |c.groups|);
    var matches := Ascending(m, |c.groups|);
    if matches == [] {
      EverythingAdded(c.groups, r);
      StartsGroup(c, r);
    } else {
      var first, others := matches[0], matches[1..];
      MergeAllFacts(c, first, others);
      var merged := MergeAll(c, first, others);
      EverythingUpdated(merged.groups, first, merged.groups[first] + [r]);
      JoinsGroup(c, r, m, first, others, merged);
    }
  }

  lemma StartsGroup(c: Catalog, r: Record)
    requires InRange(c)
    ensures Extends(c, r, {}, |c.groups|, Catalog(c.groups + [[r]], Indexed(c.index, Keys(r), |c.groups|)))
  {
  }

  lemma JoinsGroup(c: Catalog, r: Record, m: set<nat>, first: nat, others: seq<nat>, merged: Catalog)
    requires InRange(c) && first < |c.groups| == |merged.groups| && m == Members([first] + others) && first !in others
    requires merged.index.Keys == c.index.Keys
    requires forall k | k in c.index :: merged.index[k] == if c.index[k] in others then first else c.index[k]
    requires forall g | 0 <= g < |c.groups| && g != first :: merged.groups[g] == if g in others then [] else c.groups[g]
    requires forall x :: x in merged.groups[first] <==> x in c.groups[first] || InSome(c.groups, Members(others), x)
    ensures Extends(c, r, m, first,
                    Catalog(merged.groups[first := merged.groups[first] + [r]], Indexed(merged.index, Keys(r), first)))
  {
    hide InSome, Keys;
    assert forall g :: g in m <==> g == first || g in others;
    forall x ensures x in c.groups[first] || InSome(c.groups, Members(others), x) <==> InSome(c.groups, m, x) {
      SomeOf(c.groups, first, others, x);
    }
  }

  lemma SomeOf(groups: seq<seq<Record>>, first: nat, others: seq<nat>, x: Record)
    requires first < |groups|
    ensures x in groups[first] || InSome(groups, Members(others), x) <==> InSome(groups, Members([first] + others), x)
  {
    var m := Members([first] + others);
    assert first in m && forall g :: g in m <==> g == first || g in Members(others);
  }

  lemma EverythingAdded(groups: seq<seq<Record>>, r: Record)
    ensures Everything(groups + [[r]]) == Everything(groups) + multiset{r}
  {
    assert (groups + [[r]])[..|groups|] == groups;
  }

  lemma KeyMatchIn(c: Catalog, r: Record, k: string)
    requires k in Keys(r) && k in c.index
    ensures c.index[k] in Matches(c, r)
  {
    assert c.index[k] in KeyMatches(c, r);
  }

  lemma HoldsMember(group: seq<Record>, key: string, x: Record)
    requires x in group && key in Keys(x)
    ensures Holds(group, key)
  {
    var i :| 0 <= i < |group| && group[i] == x;
    assert key in Keys(group[i]);
  }

  lemma HolderOf(group: seq<Record>, key: string) returns (x: Record)
    requires Holds(group, key)
    ensures x in group && key in Keys(x)
  {
    var i :| 0 <= i < |group| && key in Keys(group[i]);
    x := group[i];
  }

  lemma IndexesMember(c: Catalog, g: nat, x: Record)
    requires KeysLead(c) && g < |c.groups| && x in c.groups[g]
    ensures Indexes(c, g, x)
  {
    var i :| 0 <= i < |c.groups[g]| && c.groups[g][i] == x;
  }

  /** Adding a record keeps the index faithful. */
  lemma ExtendsKeepsSound(c: Catalog, r: Record, target: nat, c': Catalog)
    requires Sound(c) && Extends(c, r, Matches(c, r), target, c') && forall g | g in Matches(c, r) :: g < |c.groups|
    ensures Sound(c')
  {
    hide Matches, Keys, Holds;
    var m := Matches(c, r);
    forall k | k in c'.index ensures c'.index[k] < |c'.groups| && Holds(c'.groups[c'.index[k]], k) {
      if k in Keys(r) {
        HoldsMember(c'.groups[target], k, r);
      } else if c.index[k] in m {
        var x := HolderOf(c.groups[c.index[k]], k);
        assert InSome(c.groups, m, x);
        HoldsMember(c'.groups[target], k, x);
      } else {
        assert Holds(c.groups[c.index[k]], k);
      }
    }
    forall g, i | 0 <= g < |c'.groups| && 0 <= i < |c'.groups[g]| ensures Indexes(c', g, c'.groups[g][i]) {
      var x := c'.groups[g][i];
      assert x in c'.groups[g];
      if g == target && x != r {
        var h :| h in m && h < |c.groups| && x in c.groups[h];
        IndexesMember(c, h, x);
      } else if g != target {
        IndexesMember(c, g, x);
        forall k | k in Keys(x) ensures c'.index[k] == g {
          if k in Keys(r) {
            KeyMatchIn(c, r, k);
          }
        }
      }
    }
  }

  // ---------- chains of links ----------

  /** A direct link; with `keyOnly` names do not count. */
  predicate Link(keyOnly: bool, a: Record, b: Record) {
    SharesKey(a, b) || (!keyOnly && SharesNameAndHost(a, b))
  }

  /** One of the two canonical keys of the record. */
  predicate HasKey(r: Record, key: string) { r.sourceKey == Some(key) || r.siteKey == Some(key) }

  /** Records are linked by a key of both, or by their name with a host of both. */
  lemma LinkMeans(a: Record, b: Record)
    ensures Link(true, a, b) <==> exists key :: HasKey(a, key) && HasKey(b, key)
    ensures Link(false, a, b)
      <==> Link(true, a, b) || (a.nameKey == b.nameKey && exists host :: host in a.hosts && host in b.hosts)
  {
    if key :| key in Keys(a) * Keys(b) {
      assert HasKey(a, key) && HasKey(b, key);
    }
    if key :| HasKey(a, key) && HasKey(b, key) {
      assert key in Keys(a) * Keys(b);
    }
    if host :| host in a.hosts && host in b.hosts {
      assert host in a.hosts * b.hosts;
    }
    if host :| host in a.hosts * b.hosts {
      assert host in a.hosts && host in b.hosts;
    }
  }

  ghost predicate IsPath(keyOnly: bool, within: set<Record>, p: seq<Record>) {
    && p != []
    && (forall i | 0 <= i < |p| :: p[i] in within)
    && forall i | 0 <= i < |p| - 1 :: Link(keyOnly, p[i], p[i + 1])
  }

  ghost predicate Chained(keyOnly: bool, within: set<Record>, a: Record, b: Record) {
    exists p: seq<Record> | IsPath(keyOnly, within, p) :: p[0] == a && p[|p| - 1] == b
  }

  lemma LinkSymmetric(keyOnly: bool, a: Record, b: Record)
    requires Link(keyOnly, a, b)
    ensures Link(keyOnly, b, a)
  {
    if SharesKey(a, b) {
      assert Keys(a) * Keys(b) == Keys(b) * Keys(a);
    }
    if SharesNameAndHost(a, b) {
      assert a.hosts * b.hosts == b.hosts * a.hosts;
    }
  }

  lemma ChainedSelf(keyOnly: bool, within: set<Record>, a: Record)
    requires a in within
    ensures Chained(keyOnly, within, a, a)
  {
    assert IsPath(keyOnly, within, [a]);
  }

  lemma ChainedLink(keyOnly: bool, within: set<Record>, a: Record, b: Record)
    requires a in within && b in within && Link(keyOnly, a, b)
    ensures Chained(keyOnly, within, a, b) && Chained(keyOnly, within, b, a)
  {
    hide Link;
    LinkSymmetric(keyOnly, a, b);
    assert IsPath(keyOnly, within, [a, b]);
    assert IsPath(keyOnly, within, [b, a]);
  }

  lemma ChainedThrough(keyOnly: bool, within: set<Record>, a: Record, b: Record, c: Record)
    requires Chained(keyOnly, within, a, b) && Chained(keyOnly, within, b, c)
    ensures Chained(keyOnly, within, a, c)
  {
    hide Link;
    var p :| IsPath(keyOnly, within, p) && p[0] == a && p[|p| - 1] == b;
    var q :| IsPath(keyOnly, within, q) && q[0] == b && q[|q| - 1] == c;
    var w := p + q[1..];
    forall i | 0 <= i < |w| - 1 ensures Link(keyOnly, w[i], w[i + 1]) {
      if i >= |p| - 1 {
        assert w[i] == q[i - |p| + 1] && w[i + 1] == q[i - |p| + 2];
      }
    }
    assert IsPath(keyOnly, within, w);
    assert w[|w| - 1] == c;
  }

  lemma ChainedMonotone(keyOnly: bool, within: set<Record>, larger: set<Record>, a: Record, b: Record)
    requires Chained(keyOnly, within, a, b) && within <= larger
    ensures Chained(keyOnly, larger, a, b)
  {
    hide Link;
    var p :| IsPath(keyOnly, within, p) && p[0] == a && p[|p| - 1] == b;
    assert IsPath(keyOnly, larger, p);
  }

  /** Any two records of the group are joined by a chain inside the group. */
  ghost predicate Connected(keyOnly: bool, group: seq<Record>) {
    forall a, b | a in group && b in group :: Chained(keyOnly, RecordsOf(group), a, b)
  }

  ghost function RecordsOf(group: seq<Record>): set<Record> { set r | r in group }

  ghost predicate AllConnected(keyOnly: bool, c: Catalog) {
    forall g | 0 <= g < |c.groups| :: Connected(keyOnly, c.groups[g])
  }

  /** Every matching group holds a record linked to the new one. */
  lemma MatchIsLinked(c: Catalog, r: Record, g: nat) returns (y: Record)
    requires IndexLeads(c) && g in Matches(c, r)
    ensures g < |c.groups| && y in c.groups[g] && Link(false, y, r)
    ensures KeyMatches(c, r) != {} ==> Link(true, y, r)
  {
    if KeyMatches(c, r) != {} {
      var k :| k in Keys(r) && k in c.index && c.index[k] == g;
      y := HolderOf(c.groups[g], k);
      assert k in Keys(y) * Keys(r);
    } else {
      var i :| 0 <= i < |c.groups[g]| && SharesNameAndHost(c.groups[g][i], r);
      y := c.groups[g][i];
    }
  }

  /** Every record of the enlarged group is chained to the new record. */
  lemma ChainedToNew(keyOnly: bool, c: Catalog, r: Record, target: nat, c': Catalog, x: Record)
    requires IndexLeads(c) && AllConnected(keyOnly, c) && Extends(c, r, Matches(c, r), target, c')
    requires keyOnly ==> KeyMatches(c, r) != {} || Matches(c, r) == {}
    requires x in c'.groups[target]
    ensures Chained(keyOnly, RecordsOf(c'.groups[target]), x, r) && Chained(keyOnly, RecordsOf(c'.groups[target]), r, x)
  {
    hide Link, Matches, KeyMatches, IndexLeads, Chained;
    var within := RecordsOf(c'.groups[target]);
    assert r in within;
    if x == r {
      ChainedSelf(keyOnly, within, r);
    } else {
      var g :| g in Matches(c, r) && g < |c.groups| && x in c.groups[g];
      var y := MatchIsLinked(c, r, g);
      WeakerLink(keyOnly, y, r);
      assert forall z | z in c.groups[g] :: InSome(c.groups, Matches(c, r), z);
      assert RecordsOf(c.groups[g]) <= within;
      assert Connected(keyOnly, c.groups[g]);
      ChainedMonotone(keyOnly, RecordsOf(c.groups[g]), within, x, y);
      ChainedMonotone(keyOnly, RecordsOf(c.groups[g]), within, y, x);
      ChainedLink(keyOnly, within, y, r);
      ChainedThrough(keyOnly, within, x, y, r);
      ChainedThrough(keyOnly, within, r, y, x);
    }
  }

  lemma WeakerLink(keyOnly: bool, a: Record, b: Record)
    ensures Link(true, a, b) ==> Link(keyOnly, a, b)
    ensures Link(keyOnly, a, b) ==> Link(false, a, b)
  {
  }

  lemma ExtendsKeepsConnected(keyOnly: bool, c: Catalog, r: Record, target: nat, c': Catalog)
    requires IndexLeads(c) && AllConnected(keyOnly, c) && Extends(c, r, Matches(c, r), target, c')
    requires keyOnly ==> KeyMatches(c, r) != {} || Matches(c, r) == {}
    ensures AllConnected(keyOnly, c')
  {
    hide Matches, KeyMatches, IndexLeads, Chained;
    forall g | 0 <= g < |c'.groups| ensures Connected(keyOnly, c'.groups[g]) {
      if g == target {
        forall a, b | a in c'.groups[g] && b in c'.groups[g] ensures Chained(keyOnly, RecordsOf(c'.groups[g]), a, b) {
          ChainedToNew(keyOnly, c, r, target, c', a);
          ChainedToNew(keyOnly, c, r, target, c', b);
          ChainedThrough(keyOnly, RecordsOf(c'.groups[g]), a, r, b);
        }
      } else if c'.groups[g] != [] {
        assert Connected(keyOnly, c.groups[g]);
      }
    }
  }

  // ---------- whole catalogs ----------

  /** The catalog after adding the records one by one. */
  ghost function Build(records: seq<Record>): (c: Catalog)
    ensures Sound(c)
  {
    if records == [] then Catalog([], map[])
    else
      var front, r := Build(records[..|records| - 1]), records[|records| - 1];
      AddedExtends(front, r);
      ExtendsKeepsSound(front, r, Target(front, r), Added(front, r));
      Added(front, r)
  }

  lemma BuildStep(records: seq<Record>, r: Record)
    ensures Build(records + [r]) == Added(Build(records), r)
    ensures Extends(Build(records), r, Matches(Build(records), r), Target(Build(records), r), Build(records + [r]))
  {
    hide Extends, Added, Matches;
    assert (records + [r])[..|records|] == records;
    AddedExtends(Build(records), r);
  }

  /** Grouping loses no record and duplicates none. */
  lemma {:induction false} GroupsPartitionRecords(records: seq<Record>)
    ensures Everything(Build(records).groups) == multiset(records)
  {
    hide Sound, Extends, Matches, Build, Added, Everything;
    if records == [] {
      EmptyPartition();
    } else {
      var front, r := records[..|records| - 1], records[|records| - 1];
      GroupsPartitionRecords(front);
      AddedExtends(Build(front), r);
      BuildStep(front, r);
      assert records == front + [r];
    }
  }

  lemma EmptyPartition()
    ensures Everything(Build([]).groups) == multiset([])
  {
  }

  /** No record so far joined a group by name. */
  ghost predicate NoNameJoin(records: seq<Record>) {
    records != [] ==>
      var front, r := records[..|records| - 1], records[|records| - 1];
      NoNameJoin(front) && (KeyMatches(Build(front), r) != {} || NameMatches(Build(front), r) == {})
  }

  /** Every group is connected by shared keys and shared names with a common host; without name joins by keys alone. */
  lemma {:induction false} GroupsConnected(records: seq<Record>)
    ensures AllConnected(false, Build(records))
    ensures NoNameJoin(records) ==> AllConnected(true, Build(records))
  {
    hide Extends, AllConnected;
    if records == [] {
      NothingConnected();
    } else {
      var front, r := records[..|records| - 1], records[|records| - 1];
      GroupsConnected(front);
      AddedExtends(Build(front), r);
      ExtendsKeepsConnected(false, Build(front), r, Target(Build(front), r), Build(records));
      if NoNameJoin(records) {
        ExtendsKeepsConnected(true, Build(front), r, Target(Build(front), r), Build(records));
      }
    }
  }

  lemma NothingConnected()
    ensures AllConnected(false, Catalog([], map[])) && AllConnected(true, Catalog([], map[]))
  {
  }

  ghost predicate Together(c: Catalog, a: Record, b: Record) {
    exists g | 0 <= g < |c.groups| :: a in c.groups[g] && b in c.groups[g]
  }

  /** Every added record is in some group, and nothing else is. */
  lemma {:induction false} EverythingMember(groups: seq<seq<Record>>, r: Record)
    ensures r in Everything(groups) <==> exists g | 0 <= g < |groups| :: r in groups[g]
  {
    if groups != [] {
      var n := |groups| - 1;
      EverythingMember(groups[..n], r);
      if g :| 0 <= g < |groups| && r in groups[g] {
        assert g < n ==> r in groups[..n][g];
      }
    }
  }

  lemma InSomeGroup(records: seq<Record>, r: Record)
    ensures r in records <==> exists g | 0 <= g < |Build(records).groups| :: r in Build(records).groups[g]
  {
    hide Build;
    GroupsPartitionRecords(records);
    EverythingMember(Build(records).groups, r);
    assert r in records <==> r in multiset(records);
  }

  lemma {:induction false} PathStaysInGroup(c: Catalog, within: set<Record>, p: seq<Record>, g: nat)
    requires Sound(c) && IsPath(true, within, p) && g < |c.groups| && p[0] in c.groups[g]
    requires forall x | x in within :: exists h | 0 <= h < |c.groups| :: x in c.groups[h]
    ensures p[|p| - 1] in c.groups[g]
    decreases |p|
  {
    if |p| > 1 {
      assert p[1] in within && Link(true, p[0], p[1]);
      var h: nat :| h < |c.groups| && p[1] in c.groups[h];
      var k :| k in Keys(p[0]) * Keys(p[1]);
      IndexesMember(c, g, p[0]);
      IndexesMember(c, h, p[1]);
      assert IsPath(true, within, p[1..]);
      PathStaysInGroup(c, within, p[1..], g);
    }
  }

  /** Records joined by a chain of shared keys are grouped together, in whatever order the records arrive. */
  lemma KeyChainsTogether(records: seq<Record>, a: Record, b: Record)
    requires Chained(true, RecordsOf(records), a, b)
    ensures Together(Build(records), a, b)
  {
    hide Build, Link, Sound;
    var within, c := RecordsOf(records), Build(records);
    var p :| IsPath(true, within, p) && p[0] == a && p[|p| - 1] == b;
    forall x | x in within ensures exists h | 0 <= h < |c.groups| :: x in c.groups[h] {
      InSomeGroup(records, x);
    }
    assert p[0] in within;
    var g: nat :| g < |c.groups| && a in c.groups[g];
    PathStaysInGroup(c, within, p, g);
  }

  /** Records grouped together are joined by a chain of shared keys and shared names with a common host. */
  lemma TogetherIsChained(keyOnly: bool, records: seq<Record>, a: Record, b: Record)
    requires Together(Build(records), a, b) && (keyOnly ==> NoNameJoin(records))
    ensures Chained(keyOnly, RecordsOf(records), a, b)
  {
    hide Build, Link, Sound, Chained, NoNameJoin;
    var c := Build(records);
    var g :| 0 <= g < |c.groups| && a in c.groups[g] && b in c.groups[g];
    GroupsConnected(records);
    assert Connected(keyOnly, c.groups[g]);
    forall x | x in RecordsOf(c.groups[g]) ensures x in RecordsOf(records) {
      InSomeGroup(records, x);
    }
    ChainedMonotone(keyOnly, RecordsOf(c.groups[g]), RecordsOf(records), a, b);
  }

  /** As long as no record joins by name, the groups are exactly the connected components of shared keys. */
  lemma GroupsAreComponents(records: seq<Record>, a: Record, b: Record)
    requires NoNameJoin(records)
    ensures Together(Build(records), a, b) <==> Chained(true, RecordsOf(records), a, b)
  {
    hide Build, Chained, NoNameJoin, Together;
    if Together(Build(records), a, b) {
      TogetherIsChained(true, records, a, b);
    }
    if Chained(true, RecordsOf(records), a, b) {
      KeyChainsTogether(records, a, b);
    }
  }

  /** A record that matches nothing opens a group of its own. */
  lemma OpensGroup(records: seq<Record>, r: Record)
    requires Matches(Build(records), r) == {}
    ensures var c, c' := Build(records), Build(records + [r]);
      && |c'.groups| == |c.groups| + 1 && (forall g | 0 <= g < |c.groups| :: c'.groups[g] == c.groups[g])
      && (forall x :: x in c'.groups[|c.groups|] <==> x == r)
  {
    hide Build, Matches;
    BuildStep(records, r);
  }

  /** A record that matches one group joins it and changes no other. */
  lemma JoinsOne(records: seq<Record>, r: Record, g: nat)
    requires Matches(Build(records), r) == {g} && g < |Build(records).groups|
    ensures var c, c' := Build(records), Build(records + [r]);
      && |c'.groups| == |c.groups| && (forall h | 0 <= h < |c.groups| && h != g :: c'.groups[h] == c.groups[h])
      && (forall x :: x in c'.groups[g] <==> x == r || x in c.groups[g])
  {
    hide Build, Matches;
    BuildStep(records, r);
    var c := Build(records);
    assert forall x :: InSome(c.groups, {g}, x) <==> x in c.groups[g];
  }

  /** What a record matches, when only one group could hold any of its keys or its name. */
  lemma MatchesOnly(c: Catalog, r: Record, g: nat)
    requires Sound(c) && g < |c.groups|
    requires forall h, x | 0 <= h < |c.groups| && h != g && x in c.groups[h] :: !SharesKey(x, r) && !SharesNameAndHost(x, r)
    ensures Matches(c, r) <= {g}
    ensures (exists x | x in c.groups[g] :: SharesKey(x, r)) ==> Matches(c, r) == {g}
    ensures (exists x | x in c.groups[g] :: SharesNameAndHost(x, r)) ==> Matches(c, r) == {g}
    ensures (forall x | x in c.groups[g] :: !SharesKey(x, r) && !SharesNameAndHost(x, r)) ==> Matches(c, r) == {}
  {
    hide SharesKey, SharesNameAndHost, Link;
    forall h | h in Matches(c, r) ensures h < |c.groups| && exists x | x in c.groups[h] :: SharesKey(x, r) || SharesNameAndHost(x, r) {
      var y := MatchIsLinked(c, r, h);
      LinkKinds(y, r);
    }
    if x :| x in c.groups[g] && SharesKey(x, r) {
      IndexesMember(c, g, x);
      SharedKeyMatches(c, r, g, x);
    }
    if x :| x in c.groups[g] && SharesNameAndHost(x, r) {
      var i :| 0 <= i < |c.groups[g]| && c.groups[g][i] == x;
      assert g in NameMatches(c, r);
      if h :| h in KeyMatches(c, r) {
        assert h in Matches(c, r);
      }
    }
  }

  lemma LinkKinds(a: Record, b: Record)
    ensures Link(false, a, b) <==> SharesKey(a, b) || SharesNameAndHost(a, b)
  {
  }

  lemma SharedKeyMatches(c: Catalog, r: Record, g: nat, x: Record)
    requires SharesKey(x, r) && Indexes(c, g, x)
    ensures g in Matches(c, r)
  {
    var k :| k in Keys(x) * Keys(r);
    KeyMatchIn(c, r, k);
  }

  /**
   * Name joins make grouping depend on the order of the sources: a record whose key is already known
   * never looks at names, so the same three records form one group or two.
   */
  lemma OrderMatters() returns (a: Record, b: Record, c: Record)
    ensures Together(Build([a, b, c]), a, c) && !Together(Build([c, a, b]), a, c)
  {
    a := Record("a", Some("a"), None, "X", "x", {"h"});
    b := Record("b", Some("b"), None, "X", "x", {"h"});
    c := Record("c", Some("b"), None, "Y", "y", {});
    assert SharesNameAndHost(a, b) by { assert "h" in a.hosts * b.hosts; }
    assert SharesKey(b, c) && SharesKey(c, b) by { assert "b" in Keys(b) * Keys(c) && "b" in Keys(c) * Keys(b); }
    assert !SharesKey(a, b) && !SharesKey(a, c) && !SharesKey(c, a);
    assert !SharesNameAndHost(c, a) && !SharesNameAndHost(a, c) && !SharesNameAndHost(c, b);
    TogetherInOrder(a, b, c);
    ApartInOrder(a, b, c);
  }

  lemma TogetherInOrder(a: Record, b: Record, c: Record)
    requires SharesNameAndHost(a, b) && SharesKey(b, c)
    ensures Together(Build([a, b, c]), a, c)
  {
    hide Build, SharesKey, SharesNameAndHost, Matches, Extends;
    assert [] + [a] == [a] && [a] + [b] == [a, b] && [a, b] + [c] == [a, b, c];
    EmptyBuild(a);
    OpensGroup([], a);
    MatchesOnly(Build([a]), b, 0);
    JoinsOne([a], b, 0);
    MatchesOnly(Build([a, b]), c, 0);
    JoinsOne([a, b], c, 0);
  }

  lemma ApartInOrder(a: Record, b: Record, c: Record)
    requires a != c && a != b && !SharesKey(c, a) && !SharesNameAndHost(c, a)
    requires SharesKey(c, b) && !SharesKey(a, b)
    ensures !Together(Build([c, a, b]), a, c)
  {
    hide Build, SharesKey, SharesNameAndHost, Extends, Matches;
    assert [] + [c] == [c] && [c] + [a] == [c, a] && [c, a] + [b] == [c, a, b];
    EmptyBuild(c);
    OpensGroup([], c);
    MatchesOnly(Build([c]), a, 0);
    OpensGroup([c], a);
    KeyWins(Build([c, a]), b, 0, c);
    JoinsOne([c, a], b, 0);
  }

  /** A known key decides alone, when all records that share it are in one group. */
  lemma KeyWins(c: Catalog, r: Record, g: nat, x: Record)
    requires Sound(c) && g < |c.groups| && x in c.groups[g] && SharesKey(x, r)
    requires forall h, y | 0 <= h < |c.groups| && h != g && y in c.groups[h] :: !SharesKey(y, r)
    ensures Matches(c, r) == {g}
  {
    hide Holds;
    var k :| k in Keys(x) * Keys(r);
    IndexesMember(c, g, x);
    assert c.index[k] in KeyMatches(c, r);
    forall h | h in KeyMatches(c, r) ensures h == g {
      var l :| l in Keys(r) && l in c.index && c.index[l] == h;
      var y := HolderOf(c.groups[h], l);
      assert l in Keys(y) * Keys(r);
      assert SharesKey(y, r) && y in c.groups[h];
    }
  }

  lemma EmptyBuild(r: Record)
    ensures Build([]) == Catalog([], map[]) && Matches(Build([]), r) == {}
  {
  }
}
