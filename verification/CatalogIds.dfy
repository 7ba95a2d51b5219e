/** Stable catalog identifiers: saved ids are kept, new ones are derived from names. */
module CatalogIds {
  import opened Results
  import opened SortedNames
  import opened Text
  import opened CatalogGroups

  /** Slugs and hash prefixes, and the curated display names. */
  datatype Naming = Naming(slug: string -> string, hash12: string -> string, hash8: string -> string,
                           names: map<string, string>)

  function GroupKeys(group: seq<Record>): set<string> {
    set i, k | 0 <= i < |group| && k in Keys(group[i]) :: k
  }

  /** The canonical key of the first record, or its address when there is none. */
  function LeadKey(group: seq<Record>): string
    requires group != []
  {
    var first := group[0];
    if first.sourceKey.Some? && first.sourceKey.value != "" then first.sourceKey.value else first.sourceUrl
  }

  /** The saved id of the first listed key that has one. */
  function FirstSaved(saved: map<string, string>, keys: seq<string>): Option<string> {
    if keys == [] then None
    else if keys[0] in saved then Some(saved[keys[0]])
    else FirstSaved(saved, keys[1..])
  }

  /** The id a group already has; an empty id counts as none. */
  function Known(saved: map<string, string>, lead: string, keys: seq<string>): Option<string> {
    if lead in saved && saved[lead] != "" then Some(saved[lead])
    else match FirstSaved(saved, keys)
      case Some(id) => if id != "" then Some(id) else None
      case None => None
  }

  function Fresh(naming: Naming, lead: string, name: string): string {
    var display := if lead in naming.names then naming.names[lead] else name;
    if naming.slug(display) != "" then naming.slug(display) else "app-" + naming.hash12(lead)
  }

  /** The id of one group given the ids already used, or a refusal when a saved id would be split. */
  function Choose(saved: map<string, string>, naming: Naming, group: seq<Record>, keys: seq<string>,
                  used: set<string>): Option<string>
    requires group != []
  {
    var lead := LeadKey(group);
    match Known(saved, lead, keys)
    case Some(id) => if id in used then None else Some(id)
    case None =>
      var id := Fresh(naming, lead, group[0].name);
      Some(if id in used || id in saved.Values then id + "-" + naming.hash8(lead) else id)
  }

  function Noted(next: map<string, string>, group: seq<Record>, id: string): map<string, string>
    requires group != []
  {
    next + (map k | k in GroupKeys(group) :: id) + map[LeadKey(group) := id]
  }

  datatype Assigned = Assigned(ids: seq<string>, next: map<string, string>)

  function Used(ids: seq<string>): set<string> { set id | id in ids }

  predicate NonEmpty(groups: seq<seq<Record>>) { forall i | 0 <= i < |groups| :: groups[i] != [] }

  /** The ids of all groups in order, and the id map to be saved. */
  ghost function Assign(saved: map<string, string>, naming: Naming, groups: seq<seq<Record>>): (r: Option<Assigned>)
    requires NonEmpty(groups)
    ensures r.Some? ==> |r.value.ids| == |groups|
  {
    if groups == [] then Some(Assigned([], saved))
    else
      var n := |groups| - 1;
      match Assign(saved, naming, groups[..n])
      case None => None
      case Some(a) =>
        match Choose(saved, naming, groups[n], Ordered(GroupKeys(groups[n])), Used(a.ids))
        case None => None
        case Some(id) => Some(Assigned(a.ids + [id], Noted(a.next, groups[n], id)))
  }

  method SortedKeys(keys: set<string>) returns (sorted: seq<string>)
    ensures sorted == Ordered(keys)
  {
    var listed, rest := [], keys;
    while rest != {}
      invariant (set k | k in listed) + rest == keys
      decreases rest
    {
      var k :| k in rest;
      listed, rest := listed + [k], rest - {k};
    }
    assert (set k | k in listed) == keys;
    sorted := SortNames(listed);
  }

  method AssignIds(saved: map<string, string>, naming: Naming, groups: seq<seq<Record>>) returns (r: Option<Assigned>)
    requires NonEmpty(groups)
    ensures r == Assign(saved, naming, groups)
  {
    hide Choose, Noted, GroupKeys, Ordered;
    var ids, used, next := [], {}, saved;
    for i := 0 to |groups|
      invariant used == Used(ids)
      invariant Assign(saved, naming, groups[..i]) == Some(Assigned(ids, next))
      invariant Assign(saved, naming, groups).Some? ==> Assign(saved, naming, groups[..i]).Some?
    {
      var keys := SortedKeys(GroupKeys(groups[i]));
      assert groups[..i + 1][..i] == groups[..i];
      var id := Choose(saved, naming, groups[i], keys, used);
      if id.None? {
        AssignPrefix(saved, naming, groups, i + 1);
        return None;
      }
      ids, used, next := ids + [id.value], used + {id.value}, Noted(next, groups[i], id.value);
    }
    assert groups[..|groups|] == groups;
    return Some(Assigned(ids, next));
  }

  /** A refusal for the first groups is a refusal for all of them. */
  lemma {:induction false} AssignPrefix(saved: map<string, string>, naming: Naming, groups: seq<seq<Record>>, k: nat)
    requires NonEmpty(groups) && k <= |groups| && Assign(saved, naming, groups[..k]).None?
    ensures Assign(saved, naming, groups).None?
  {
    hide Choose, Noted, Ordered;
    if k == |groups| {
      assert groups[..k] == groups;
    } else {
      var front := groups[..|groups| - 1];
      assert front[..k] == groups[..k];
      AssignPrefix(saved, naming, front, k);
    }
  }

  // ---------- a second run with the saved ids ----------

  /** Groups of a faithful catalog share no key. */
  ghost predicate KeysApart(groups: seq<seq<Record>>) {
    forall i, j | 0 <= i < j < |groups| :: GroupKeys(groups[i]) !! GroupKeys(groups[j])
  }

  /** The first record of every group has a canonical key. */
  predicate Leads(groups: seq<seq<Record>>) {
    forall i | 0 <= i < |groups| :: groups[i] != [] && groups[i][0].sourceKey.Some? && groups[i][0].sourceKey.value != ""
  }

  ghost predicate AllDifferent(ids: seq<string>) {
    forall i, j | 0 <= i < j < |ids| :: ids[i] != ids[j]
  }

  lemma LeadIsKey(group: seq<Record>)
    requires group != [] && group[0].sourceKey.Some? && group[0].sourceKey.value != ""
    ensures LeadKey(group) in GroupKeys(group)
  {
    assert LeadKey(group) in Keys(group[0]);
  }

  lemma FirstSavedIsSaved(saved: map<string, string>, keys: seq<string>)
    ensures FirstSaved(saved, keys).Some? <==> exists k | k in keys :: k in saved
    ensures FirstSaved(saved, keys).Some? ==> FirstSaved(saved, keys).value in saved.Values
  {
    if keys != [] {
      FirstSavedIsSaved(saved, keys[1..]);
      if keys[0] in saved {
        assert saved[keys[0]] in saved.Values;
      }
    }
  }

  /** A group with a saved key keeps a saved id unchanged, or the run refuses. */
  lemma SavedIdIsKept(saved: map<string, string>, naming: Naming, group: seq<Record>, used: set<string>, key: string)
    requires group != [] && (key in GroupKeys(group) || key == LeadKey(group)) && key in saved
    requires forall k | k in saved :: saved[k] != ""
    ensures var id := Choose(saved, naming, group, Ordered(GroupKeys(group)), used);
      id.Some? ==> id.value in saved.Values && id.value !in used
  {
    hide LeadKey, GroupKeys;
    var keys := Ordered(GroupKeys(group));
    FirstSavedIsSaved(saved, keys);
    assert key in GroupKeys(group) ==> key in keys;
    if LeadKey(group) in saved {
      assert saved[LeadKey(group)] in saved.Values;
    }
    var found := FirstSaved(saved, keys);
    if found.Some? {
      var k :| k in saved && saved[k] == found.value;
      assert found.value != "";
    }
  }

  /** The smallest key of the group that has a saved id. */
  ghost predicate FirstKnown(saved: map<string, string>, group: seq<Record>, key: string) {
    key in saved && key in GroupKeys(group)
    && forall k | k in saved && k in GroupKeys(group) && k != key :: Below(key, k)
  }

  lemma {:induction false} FirstSavedIsFirst(saved: map<string, string>, keys: seq<string>, key: string)
    requires Increasing(keys) && key in keys && key in saved && forall k | k in keys && k in saved && k != key :: Below(key, k)
    ensures FirstSaved(saved, keys) == Some(saved[key])
  {
    if keys[0] != key {
      var i :| 0 < i < |keys| && keys[i] == key;
      assert Below(keys[0], keys[i]) && key in keys[1..];
      if keys[0] in saved {
        BelowTransitive(key, keys[0], key);
        BelowIrreflexive(key);
      }
      FirstSavedIsFirst(saved, keys[1..], key);
    }
  }

  lemma {:induction false} NoneSaved(saved: map<string, string>, keys: seq<string>)
    requires forall k | k in keys :: k !in saved
    ensures FirstSaved(saved, keys) == None
  {
    if keys != [] {
      NoneSaved(saved, keys[1..]);
    }
  }

  /**
   * The id of a group is the one saved for its lead key, or else for its smallest saved key, and the run refuses
   * when it is in use; a group without a saved id gets one from its curated or given name, or from the hash of
   * its lead key, with a suffix when that id is in use or saved.
   */
  lemma IdExactly(saved: map<string, string>, naming: Naming, group: seq<Record>, used: set<string>)
    requires group != [] && forall k | k in saved :: saved[k] != ""
    ensures var key := group[0].sourceKey;
      var lead := if key.Some? && key.value != "" then key.value else group[0].sourceUrl;
      var id := Choose(saved, naming, group, Ordered(GroupKeys(group)), used);
      && (lead in saved ==> id == if saved[lead] in used then None else Some(saved[lead]))
      && (forall key | lead !in saved && FirstKnown(saved, group, key) ::
            id == if saved[key] in used then None else Some(saved[key]))
      && (lead !in saved && (forall k | k in GroupKeys(group) :: k !in saved) ==>
            var slug := naming.slug(if lead in naming.names then naming.names[lead] else group[0].name);
            var base := if slug == "" then "app-" + naming.hash12(lead) else slug;
            id == Some(if base in used || base in saved.Values then base + "-" + naming.hash8(lead) else base))
  {
    hide GroupKeys, Ordered;
    var keys := Ordered(GroupKeys(group));
    forall key | FirstKnown(saved, group, key) ensures FirstSaved(saved, keys) == Some(saved[key]) {
      FirstSavedIsFirst(saved, keys, key);
    }
    if forall k | k in GroupKeys(group) :: k !in saved {
      NoneSaved(saved, keys);
    }
  }

  lemma ChosenNotEmpty(saved: map<string, string>, naming: Naming, group: seq<Record>, keys: seq<string>, used: set<string>)
    requires group != [] && Choose(saved, naming, group, keys, used).Some?
    ensures Choose(saved, naming, group, keys, used).value != ""
  {
  }

  /** An id is saved under the lead key and every other key of its group; no other saved id changes. */
  lemma NotedExactly(next: map<string, string>, group: seq<Record>, id: string, key: string)
    requires group != []
    ensures var lead := if group[0].sourceKey.Some? && group[0].sourceKey.value != "" then group[0].sourceKey.value
                        else group[0].sourceUrl;
      if key == lead || (exists r | r in group :: HasKey(r, key)) then
        key in Noted(next, group, id) && Noted(next, group, id)[key] == id
      else (key in Noted(next, group, id) <==> key in next) && (key in next ==> Noted(next, group, id)[key] == next[key])
  {
    if r :| r in group && HasKey(r, key) {
      var i :| 0 <= i < |group| && group[i] == r;
      assert key in Keys(group[i]);
      assert key in GroupKeys(group);
    }
    if key in GroupKeys(group) {
      var i :| 0 <= i < |group| && key in Keys(group[i]);
      assert HasKey(group[i], key);
    }
  }

  /** The map gives every key of group `i` the id of that group. */
  ghost predicate MapsKeys(next: map<string, string>, ids: seq<string>, groups: seq<seq<Record>>, i: nat)
    requires i < |groups| && |ids| == |groups|
  {
    && ids[i] != ""
    && forall k | k in GroupKeys(groups[i]) :: k in next && next[k] == ids[i]
  }

  /** The saved map gives every key of every group the id of its group. */
  lemma {:induction false} NextMapsKeys(saved: map<string, string>, naming: Naming, groups: seq<seq<Record>>, i: nat)
    requires NonEmpty(groups) && Leads(groups) && KeysApart(groups) && Assign(saved, naming, groups).Some?
    requires i < |groups|
    ensures var a := Assign(saved, naming, groups).value; MapsKeys(a.next, a.ids, groups, i)
    decreases |groups|
  {
    hide Choose, Ordered, GroupKeys, LeadKey;
    var n := |groups| - 1;
    var a := Assign(saved, naming, groups).value;
    var front := groups[..n];
    var before := Assign(saved, naming, front).value;
    LeadIsKey(groups[n]);
    if i < n {
      NextMapsKeys(saved, naming, front, i);
      assert front[i] == groups[i] && before.ids[i] == a.ids[i];
      forall k | k in GroupKeys(groups[i]) ensures k in a.next && a.next[k] == a.ids[i] {
        assert k !in GroupKeys(groups[n]);
      }
    } else {
      ChosenNotEmpty(saved, naming, groups[n], Ordered(GroupKeys(groups[n])), Used(before.ids));
    }
  }

  /** Choosing again, with the group's own id saved for its leading key, gives the same id. */
  lemma ChosenAgain(next: map<string, string>, naming: Naming, group: seq<Record>, used: set<string>, id: string)
    requires group != [] && LeadKey(group) in next && next[LeadKey(group)] == id != "" && id !in used
    ensures Choose(next, naming, group, Ordered(GroupKeys(group)), used) == Some(id)
  {
  }

  lemma NotedAgain(next: map<string, string>, group: seq<Record>, id: string)
    requires group != [] && LeadKey(group) in GroupKeys(group)
    requires forall k | k in GroupKeys(group) :: k in next && next[k] == id
    ensures Noted(next, group, id) == next
  {
  }

  lemma {:induction false} AssignAgainUpTo(saved: map<string, string>, naming: Naming, groups: seq<seq<Record>>, k: nat)
    requires NonEmpty(groups) && Leads(groups) && KeysApart(groups) && k <= |groups|
    requires Assign(saved, naming, groups).Some? && AllDifferent(Assign(saved, naming, groups).value.ids[..k])
    ensures var a := Assign(saved, naming, groups).value;
      Assign(a.next, naming, groups[..k]) == Some(Assigned(a.ids[..k], a.next))
  {
    hide Choose, Ordered, GroupKeys, LeadKey, Noted;
    if k > 0 {
      var a := Assign(saved, naming, groups).value;
      var n := k - 1;
      AssignAgainUpTo(saved, naming, groups, n);
      NextMapsKeys(saved, naming, groups, n);
      LeadIsKey(groups[n]);
      assert groups[..k][..n] == groups[..n] && groups[..k][n] == groups[n];
      assert a.ids[n] !in Used(a.ids[..n]) by {
        assert forall i | 0 <= i < n :: a.ids[..k][i] != a.ids[..k][n];
      }
      ChosenAgain(a.next, naming, groups[n], Used(a.ids[..n]), a.ids[n]);
      NotedAgain(a.next, groups[n], a.ids[n]);
      assert a.ids[..k] == a.ids[..n] + [a.ids[n]];
    }
  }

  /** The first position whose id appeared before, when there is one. */
  lemma {:induction false} FirstRepeat(ids: seq<string>) returns (n: nat)
    requires !AllDifferent(ids)
    ensures n < |ids| && AllDifferent(ids[..n]) && ids[n] in Used(ids[..n])
  {
    var m := |ids| - 1;
    if AllDifferent(ids[..m]) {
      var i :| 0 <= i < m && ids[i] == ids[m];
      assert ids[..m][i] == ids[m];
      n := m;
    } else {
      n := FirstRepeat(ids[..m]);
      assert ids[..m][..n] == ids[..n];
    }
  }

  /** Two groups that were given one id make the next run refuse. */
  lemma RepeatRefuses(saved: map<string, string>, naming: Naming, groups: seq<seq<Record>>)
    requires NonEmpty(groups) && Leads(groups) && KeysApart(groups)
    requires Assign(saved, naming, groups).Some? && !AllDifferent(Assign(saved, naming, groups).value.ids)
    ensures Assign(Assign(saved, naming, groups).value.next, naming, groups).None?
  {
    hide Choose, Ordered, GroupKeys, LeadKey, Noted, AllDifferent;
    var a := Assign(saved, naming, groups).value;
    var n := FirstRepeat(a.ids);
    AssignAgainUpTo(saved, naming, groups, n);
    NextMapsKeys(saved, naming, groups, n);
    LeadIsKey(groups[n]);
    ChosenTaken(a.next, naming, groups[n], Used(a.ids[..n]), a.ids[n]);
    assert groups[..n + 1][..n] == groups[..n] && groups[..n + 1][n] == groups[n];
    AssignPrefix(a.next, naming, groups, n + 1);
  }

  lemma ChosenTaken(next: map<string, string>, naming: Naming, group: seq<Record>, used: set<string>, id: string)
    requires group != [] && LeadKey(group) in next && next[LeadKey(group)] == id != "" && id in used
    ensures Choose(next, naming, group, Ordered(GroupKeys(group)), used).None?
  {
  }

  // ---------- when two groups get one id ----------

  /**
   * The missing guard: a new name that is in use gets a suffix, and the suffixed name is in use too. `ids` are
   * those of the groups before.
   */
  ghost predicate SuffixTaken(saved: map<string, string>, naming: Naming, group: seq<Record>, ids: seq<string>)
    requires group != []
  {
    var lead := LeadKey(group);
    var base := Fresh(naming, lead, group[0].name);
    && Known(saved, lead, Ordered(GroupKeys(group))).None?
    && (base in ids || base in saved.Values)
    && base + "-" + naming.hash8(lead) in ids
  }

  /** The guard would hold at every group. */
  ghost predicate SuffixesFree(saved: map<string, string>, naming: Naming, groups: seq<seq<Record>>, ids: seq<string>)
    requires NonEmpty(groups) && |ids| == |groups|
  {
    forall n | 0 <= n < |groups| :: !SuffixTaken(saved, naming, groups[n], ids[..n])
  }

  /** An id is chosen twice only by way of the suffix. */
  lemma ChosenTwice(saved: map<string, string>, naming: Naming, group: seq<Record>, ids: seq<string>)
    requires group != [] && Choose(saved, naming, group, Ordered(GroupKeys(group)), Used(ids)).Some?
    ensures Choose(saved, naming, group, Ordered(GroupKeys(group)), Used(ids)).value in ids
      <==> SuffixTaken(saved, naming, group, ids)
  {
    hide LeadKey, Fresh, Known, Ordered, GroupKeys;
  }

  lemma DifferentAppended(ids: seq<string>, id: string)
    ensures AllDifferent(ids + [id]) <==> AllDifferent(ids) && id !in ids
  {
    var all := ids + [id];
    if AllDifferent(all) {
      assert forall i | 0 <= i < |ids| :: all[i] == ids[i] && all[i] != all[|ids|];
    }
  }

  lemma FreeAppended(saved: map<string, string>, naming: Naming, groups: seq<seq<Record>>, ids: seq<string>)
    requires NonEmpty(groups) && groups != [] && |ids| == |groups|
    ensures var n := |groups| - 1;
      SuffixesFree(saved, naming, groups, ids)
      <==> SuffixesFree(saved, naming, groups[..n], ids[..n]) && !SuffixTaken(saved, naming, groups[n], ids[..n])
  {
    hide SuffixTaken;
    var n := |groups| - 1;
    assert forall i | 0 <= i < n :: ids[..n][..i] == ids[..i] && groups[..n][i] == groups[i];
  }

  /** All entries get ids of their own if and only if no suffixed name is in use when it is given. */
  lemma {:induction false} DistinctExactly(saved: map<string, string>, naming: Naming, groups: seq<seq<Record>>)
    requires NonEmpty(groups) && Assign(saved, naming, groups).Some?
    ensures var ids := Assign(saved, naming, groups).value.ids;
      AllDifferent(ids) <==> SuffixesFree(saved, naming, groups, ids)
  {
    hide Choose, Ordered, GroupKeys, LeadKey, Noted, SuffixTaken, AllDifferent, SuffixesFree;
    if groups == [] {
      NothingRepeats(saved, naming);
    } else {
      var n := |groups| - 1;
      var front, ids := groups[..n], Assign(saved, naming, groups).value.ids;
      var before := Assign(saved, naming, front).value;
      DistinctExactly(saved, naming, front);
      assert ids == before.ids + [ids[n]] && ids[..n] == before.ids;
      ChosenTwice(saved, naming, groups[n], before.ids);
      DifferentAppended(before.ids, ids[n]);
      FreeAppended(saved, naming, groups, ids);
    }
  }

  lemma NothingRepeats(saved: map<string, string>, naming: Naming)
    ensures AllDifferent([]) && SuffixesFree(saved, naming, [], [])
  {
  }

  /**
   * Assigning ids is a fixpoint exactly when no suffixed name was in use: then a second run on the same
   * groups with the saved map changes nothing, and otherwise it refuses.
   */
  lemma AssignAgain(saved: map<string, string>, naming: Naming, groups: seq<seq<Record>>)
    requires NonEmpty(groups) && Leads(groups) && KeysApart(groups) && Assign(saved, naming, groups).Some?
    ensures var first := Assign(saved, naming, groups);
      Assign(first.value.next, naming, groups)
        == if SuffixesFree(saved, naming, groups, first.value.ids) then first else None
  {
    hide Assign, AllDifferent, SuffixesFree;
    var a := Assign(saved, naming, groups).value;
    assert groups[..|groups|] == groups && a.ids[..|groups|] == a.ids;
    DistinctExactly(saved, naming, groups);
    if AllDifferent(a.ids) {
      AssignAgainUpTo(saved, naming, groups, |groups|);
    } else {
      RepeatRefuses(saved, naming, groups);
    }
  }

  lemma ChosenFresh(naming: Naming, group: seq<Record>, used: set<string>)
    requires group != []
    ensures var id := Fresh(naming, LeadKey(group), group[0].name);
      Choose(map[], naming, group, Ordered(GroupKeys(group)), used)
        == Some(if id in used then id + "-" + naming.hash8(LeadKey(group)) else id)
  {
    hide Ordered, GroupKeys, LeadKey, Fresh;
    FirstSavedIsSaved(map[], Ordered(GroupKeys(group)));
  }

  function Named(key: string, name: string): seq<Record> { [Record(key, Some(key), None, name, name, {})] }

  lemma NamedKeys(key: string, name: string)
    ensures GroupKeys(Named(key, name)) == {key}
  {
    assert Keys(Named(key, name)[0]) == {key};
  }

  /** One more group with a fresh name. */
  lemma AssignFresh(naming: Naming, groups: seq<seq<Record>>, key: string, name: string, ids: seq<string>)
    requires naming.names == map[] && naming.slug(name) != "" && NonEmpty(groups)
    requires Assign(map[], naming, groups).Some? && Assign(map[], naming, groups).value.ids == ids
    ensures NonEmpty(groups + [Named(key, name)]) && Assign(map[], naming, groups + [Named(key, name)]).Some?
    ensures var id := naming.slug(name);
      Assign(map[], naming, groups + [Named(key, name)]).value.ids
        == ids + [if id in ids then id + "-" + naming.hash8(key) else id]
  {
    hide Choose, Ordered, Noted, Fresh, GroupKeys;
    var group := Named(key, name);
    assert (groups + [group])[..|groups|] == groups;
    FreshName(naming, group);
    ChosenFresh(naming, group, Used(ids));
  }

  /**
   * The first run can give two groups one id: the suffixed id is not looked up among those used. Here an
   * entry is called "a-h", two others "a", and the hash of the last one's key starts with "h".
   */
  lemma SuffixCanRepeat() returns (naming: Naming, groups: seq<seq<Record>>)
    ensures NonEmpty(groups) && Leads(groups) && KeysApart(groups)
    ensures Assign(map[], naming, groups).Some? && !AllDifferent(Assign(map[], naming, groups).value.ids)
  {
    hide Assign, KeysApart, Leads, NonEmpty;
    naming := Naming(s => s, s => "h", s => "h", map[]);
    NoGroups(naming);
    AssignFresh(naming, [], "1", "a-h", []);
    var one := [] + [Named("1", "a-h")];
    assert Assign(map[], naming, one).value.ids == ["a-h"];
    AssignFresh(naming, one, "2", "a", ["a-h"]);
    var two := one + [Named("2", "a")];
    assert Assign(map[], naming, two).value.ids == ["a-h", "a"];
    AssignFresh(naming, two, "3", "a", ["a-h", "a"]);
    groups := two + [Named("3", "a")];
    var ids := Assign(map[], naming, groups).value.ids;
    assert ids == ["a-h", "a", "a" + "-" + "h"];
    assert ids[0] == ids[2];
    ThreeNamed("a-h", "a", "a");
    assert groups == [Named("1", "a-h"), Named("2", "a"), Named("3", "a")];
  }

  lemma ThreeNamed(a: string, b: string, c: string)
    ensures var groups := [Named("1", a), Named("2", b), Named("3", c)]; KeysApart(groups) && Leads(groups)
  {
    hide GroupKeys;
    NamedKeys("1", a);
    NamedKeys("2", b);
    NamedKeys("3", c);
  }

  lemma NoGroups(naming: Naming)
    ensures NonEmpty([]) && Assign(map[], naming, []) == Some(Assigned([], map[]))
  {
  }

  lemma FreshName(naming: Naming, group: seq<Record>)
    requires group != [] && naming.names == map[] && naming.slug(group[0].name) != ""
    ensures Fresh(naming, LeadKey(group), group[0].name) == naming.slug(group[0].name)
  {
  }

  /** `filter(None, groups)`. */
  function Remaining(groups: seq<seq<Record>>): (r: seq<seq<Record>>)
    ensures NonEmpty(r)
  {
    if groups == [] then []
    else (if groups[0] != [] then [groups[0]] else []) + Remaining(groups[1..])
  }

  lemma {:induction false} RemainingFrom(groups: seq<seq<Record>>, j: nat) returns (i: nat)
    requires j < |Remaining(groups)|
    ensures i < |groups| && groups[i] == Remaining(groups)[j]
  {
    if groups[0] != [] && j == 0 {
      i := 0;
    } else {
      i := RemainingFrom(groups[1..], if groups[0] != [] then j - 1 else j);
      i := i + 1;
    }
  }

  lemma {:induction false} RemainingApart(groups: seq<seq<Record>>)
    requires KeysApart(groups)
    ensures KeysApart(Remaining(groups))
  {
    hide GroupKeys;
    if groups != [] {
      RemainingApart(groups[1..]);
      var rest := Remaining(groups[1..]);
      forall j | 0 <= j < |rest| ensures GroupKeys(groups[0]) !! GroupKeys(rest[j]) {
        var i := RemainingFrom(groups[1..], j);
        assert groups[i + 1] == rest[j];
      }
    }
  }

  lemma SoundKeysApart(c: Catalog)
    requires Sound(c)
    ensures KeysApart(c.groups)
  {
    hide Keys;
    forall i, j | 0 <= i < j < |c.groups| ensures GroupKeys(c.groups[i]) !! GroupKeys(c.groups[j]) {
      forall k | k in GroupKeys(c.groups[i]) && k in GroupKeys(c.groups[j]) ensures false {
        KeyLeads(c, i, k);
        KeyLeads(c, j, k);
      }
    }
  }

  lemma KeyLeads(c: Catalog, g: nat, k: string)
    requires Sound(c) && g < |c.groups| && k in GroupKeys(c.groups[g])
    ensures k in c.index && c.index[k] == g
  {
    var i :| 0 <= i < |c.groups[g]| && k in Keys(c.groups[g][i]);
    assert Indexes(c, g, c.groups[g][i]);
  }

  /**
   * Regenerating the catalog from the same records with the ids it saved yields the same ids for every
   * entry and saves the same map, exactly when no suffixed name was in use when it was given; otherwise the
   * run refuses.
   */
  lemma RegenerationIsStable(records: seq<Record>, saved: map<string, string>, naming: Naming)
    requires var groups := Remaining(Build(records).groups); Leads(groups) && Assign(saved, naming, groups).Some?
    ensures var groups := Remaining(Build(records).groups);
      var first := Assign(saved, naming, groups);
      Assign(first.value.next, naming, groups)
        == if SuffixesFree(saved, naming, groups, first.value.ids) then first else None
  {
    hide Build, Assign, Remaining, Sound, SuffixesFree;
    var c := Build(records);
    SoundKeysApart(c);
    RemainingApart(c.groups);
    AssignAgain(saved, naming, Remaining(c.groups));
  }
}
