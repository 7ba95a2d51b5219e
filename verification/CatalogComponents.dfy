/** Exactly when grouping yields the connected components of shared keys. */
module CatalogComponents {
  import opened CatalogGroups

  /** Joining group `g` by name brings together only what keys chain together anyway. */
  ghost predicate Covered(group: seq<Record>, r: Record, within: set<Record>) {
    forall x | x in group :: Chained(true, within, x, r)
  }

  /**
   * Every record that joined groups by name was joined, by a chain of shared keys among all records, with
   * everything those groups held at that moment.
   */
  ghost predicate Backed(records: seq<Record>, within: set<Record>) {
    records != [] ==>
      var front, r := records[..|records| - 1], records[|records| - 1];
      var c := Build(front);
      && Backed(front, within)
      && (KeyMatches(c, r) == {} ==>
           forall g | g in NameMatches(c, r) && g < |c.groups| :: Covered(c.groups[g], r, within))
  }

  /** The groups hold together by keys alone, through any of the given records. */
  ghost predicate ChainedGroups(c: Catalog, within: set<Record>) {
    forall a, b | Together(c, a, b) :: Chained(true, within, a, b)
  }

  ghost predicate AreComponents(records: seq<Record>) {
    forall a, b :: Together(Build(records), a, b) <==> Chained(true, RecordsOf(records), a, b)
  }

  lemma {:induction false} PathReversed(within: set<Record>, p: seq<Record>)
    requires IsPath(true, within, p)
    ensures Chained(true, within, p[|p| - 1], p[0])
    decreases |p|
  {
    hide Link, Chained;
    if |p| == 1 {
      ChainedSelf(true, within, p[0]);
    } else {
      var rest := p[1..];
      assert forall i | 0 <= i < |rest| :: rest[i] == p[i + 1];
      assert IsPath(true, within, rest);
      PathReversed(within, rest);
      ChainedLink(true, within, p[0], p[1]);
      ChainedThrough(true, within, p[|p| - 1], p[1], p[0]);
    }
  }

  lemma ChainedSymmetric(within: set<Record>, a: Record, b: Record)
    requires Chained(true, within, a, b)
    ensures Chained(true, within, b, a)
  {
    var p :| IsPath(true, within, p) && p[0] == a && p[|p| - 1] == b;
    PathReversed(within, p);
  }

  /** Everything in the enlarged group is chained to the new record, given that name joins are backed. */
  lemma MemberChained(c: Catalog, r: Record, target: nat, c': Catalog, within: set<Record>, x: Record)
    requires IndexLeads(c) && Extends(c, r, Matches(c, r), target, c') && ChainedGroups(c, within)
    requires r in within && (forall g, y | 0 <= g < |c.groups| && y in c.groups[g] :: y in within)
    requires KeyMatches(c, r) == {} ==>
      forall g | g in NameMatches(c, r) && g < |c.groups| :: Covered(c.groups[g], r, within)
    requires x in c'.groups[target]
    ensures Chained(true, within, x, r)
  {
    hide Chained, KeyMatches, NameMatches, IndexLeads, Link;
    if x == r {
      ChainedSelf(true, within, r);
    } else {
      var g :| g in Matches(c, r) && g < |c.groups| && x in c.groups[g];
      if KeyMatches(c, r) == {} {
        assert Covered(c.groups[g], r, within);
      } else {
        var y := MatchIsLinked(c, r, g);
        assert Together(c, x, y);
        ChainedLink(true, within, y, r);
        ChainedThrough(true, within, x, y, r);
      }
    }
  }

  lemma ExtendsKeepsChained(c: Catalog, r: Record, target: nat, c': Catalog, within: set<Record>)
    requires IndexLeads(c) && Extends(c, r, Matches(c, r), target, c') && ChainedGroups(c, within)
    requires r in within && (forall g, y | 0 <= g < |c.groups| && y in c.groups[g] :: y in within)
    requires KeyMatches(c, r) == {} ==>
      forall g | g in NameMatches(c, r) && g < |c.groups| :: Covered(c.groups[g], r, within)
    ensures ChainedGroups(c', within)
  {
    hide Chained, Matches, KeyMatches, NameMatches, IndexLeads;
    forall a, b | Together(c', a, b) ensures Chained(true, within, a, b) {
      var g: nat :| g < |c'.groups| && a in c'.groups[g] && b in c'.groups[g];
      if g == target {
        MemberChained(c, r, target, c', within, a);
        MemberChained(c, r, target, c', within, b);
        ChainedSymmetric(within, b, r);
        ChainedThrough(true, within, a, r, b);
      } else {
        assert c'.groups[g] == c.groups[g];
        assert Together(c, a, b);
      }
    }
  }

  /** Backed name joins keep every group inside one component. */
  lemma {:induction false} BackedIsChained(records: seq<Record>, within: set<Record>)
    requires Backed(records, within) && RecordsOf(records) <= within
    ensures ChainedGroups(Build(records), within)
  {
    hide Build, Extends, Matches, KeyMatches, NameMatches, Covered, Chained, Sound;
    if records == [] {
      NothingChained(within);
    } else {
      var front, r := records[..|records| - 1], records[|records| - 1];
      BackedIsChained(front, within);
      assert records == front + [r] && r in records;
      BuildStep(front, r);
      SoundParts(front);
      forall g, y | 0 <= g < |Build(front).groups| && y in Build(front).groups[g] ensures y in within {
        InSomeGroup(front, y);
        assert y in records;
      }
      ExtendsKeepsChained(Build(front), r, Target(Build(front), r), Build(records), within);
    }
  }

  lemma SoundParts(records: seq<Record>)
    ensures IndexLeads(Build(records))
  {
    assert Sound(Build(records));
  }

  lemma NothingChained(within: set<Record>)
    ensures ChainedGroups(Build([]), within)
  {
  }

  /** What is together stays together. */
  lemma TogetherStays(records: seq<Record>, r: Record, a: Record, b: Record)
    requires Together(Build(records), a, b)
    ensures Together(Build(records + [r]), a, b)
  {
    hide Build, Matches;
    BuildStep(records, r);
    var c, c' := Build(records), Build(records + [r]);
    var g: nat :| g < |c.groups| && a in c.groups[g] && b in c.groups[g];
    var target := Target(c, r);
    if g in Matches(c, r) {
      assert InSome(c.groups, Matches(c, r), a) && InSome(c.groups, Matches(c, r), b);
      assert a in c'.groups[target] && b in c'.groups[target];
    } else {
      assert c'.groups[g] == c.groups[g];
    }
  }

  /** A record is grouped with everything in the groups it matches. */
  lemma TogetherWithNew(records: seq<Record>, r: Record, g: nat, x: Record)
    requires g in Matches(Build(records), r) && g < |Build(records).groups| && x in Build(records).groups[g]
    ensures Together(Build(records + [r]), x, r)
  {
    hide Build, Matches;
    BuildStep(records, r);
    var c := Build(records);
    assert InSome(c.groups, Matches(c, r), x);
    var target := Target(c, r);
    assert x in Build(records + [r]).groups[target] && r in Build(records + [r]).groups[target];
  }

  /** Groups inside components are the work of backed name joins only. */
  lemma {:induction false} ChainedIsBacked(records: seq<Record>, within: set<Record>)
    requires ChainedGroups(Build(records), within)
    ensures Backed(records, within)
  {
    hide Build, Chained, KeyMatches, NameMatches, Together;
    if records != [] {
      var front, r := records[..|records| - 1], records[|records| - 1];
      assert records == front + [r];
      var c := Build(front);
      forall a, b | Together(c, a, b) ensures Chained(true, within, a, b) {
        TogetherStays(front, r, a, b);
      }
      ChainedIsBacked(front, within);
      if KeyMatches(c, r) == {} {
        forall g, x | g in NameMatches(c, r) && g < |c.groups| && x in c.groups[g] ensures Chained(true, within, x, r) {
          TogetherWithNew(front, r, g, x);
        }
      }
    }
  }

  /** The groups are the connected components of shared keys if and only if every name join was backed by keys. */
  lemma ComponentsExactly(records: seq<Record>)
    ensures AreComponents(records) <==> Backed(records, RecordsOf(records))
  {
    hide Build, Chained, Backed, Together;
    var within := RecordsOf(records);
    if Backed(records, within) {
      BackedIsChained(records, within);
      forall a, b ensures Together(Build(records), a, b) <==> Chained(true, within, a, b) {
        if Chained(true, within, a, b) {
          KeyChainsTogether(records, a, b);
        }
      }
    }
    if AreComponents(records) {
      ChainedIsBacked(records, within);
    }
  }
}
