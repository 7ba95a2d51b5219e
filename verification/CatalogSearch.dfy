/** Catalog search: filters, facets, three-bucket ranking and pages. */
module CatalogSearch {
  import opened Results
  import opened StableSort
  import opened Text

  /** The fields of a project that search looks at, and its prepared search text. */
  datatype Entry = Entry(id: string, name: string, aliases: seq<string>, category: string, tags: seq<string>,
                         licenses: seq<string>, architectures: seq<string>, warning: bool, webUi: bool, text: string)

  datatype Filters = Filters(capability: string, license: string, architecture: string, collection: string,
                             hideWarnings: bool)

  /** Lower-casing, trimming, and splitting at white space; and the entries that can be installed. */
  datatype Library = Library(lower: string -> string, trim: string -> string, words: string -> seq<string>,
                             recipes: map<string, string>)

  predicate Contains(text: string, part: string) {
    exists i | 0 <= i <= |text| :: part <= text[i..]
  }

  function Capability(lib: Library, e: Entry): string {
    if e.id in lib.recipes then "preview_install" else if e.webUi then "connect" else "discover"
  }

  function Terms(collection: string): Option<seq<string>> {
    match collection
    case "writing" => Some(["note-taking", "wiki", "document", "office"])
    case "automation" => Some(["automation", "workflow", "integration"])
    case "media" => Some(["photo", "media", "video", "audio", "ebook"])
    case "developer" => Some(["development", "developer", "source code", "ide", "api"])
    case _ => None
  }

  predicate InCollection(lib: Library, e: Entry, collection: string) {
    collection == "" ||
    match Terms(collection)
    case None => false
    case Some(terms) =>
      exists i | 0 <= i < |terms| :: Contains(lib.lower(e.category + " " + Joined(" ", e.tags)), terms[i])
  }

  function Query(lib: Library, query: string): string { lib.lower(lib.trim(query)) }

  /** Everything but the category. */
  predicate Matches(lib: Library, query: string, filters: Filters, e: Entry) {
    var terms := lib.words(query);
    && (forall i | 0 <= i < |terms| :: Contains(e.text, terms[i]))
    && (filters.capability == "" || Capability(lib, e) == filters.capability || (filters.capability == "connect" && e.webUi))
    && (filters.license == "" || filters.license in e.licenses)
    && (filters.architecture == "" || filters.architecture in e.architectures)
    && (!filters.hideWarnings || !e.warning)
    && InCollection(lib, e, filters.collection)
  }

  predicate InCategory(category: string, e: Entry) { category == "" || e.category == category }

  /** An exact name or alias, a name that starts with the query, or anything else. */
  function Rank(lib: Library, query: string, e: Entry): (r: int)
    ensures 0 <= r <= 2
  {
    var name := lib.lower(e.name);
    if name == query || (exists i | 0 <= i < |e.aliases| :: lib.lower(e.aliases[i]) == query) then 0
    else if query <= name then 1
    else 2
  }

  // ---------- what a page is ----------

  function Keeps(lib: Library, query: string, filters: Filters): Entry -> bool { e => Matches(lib, query, filters, e) }

  function Within(category: string): Entry -> bool { e => InCategory(category, e) }

  function Ranks(lib: Library, query: string): Entry -> int { e => Rank(lib, query, e) }

  function Filter(keep: Entry -> bool, entries: seq<Entry>): seq<Entry> {
    if entries == [] then []
    else
      var kept, last := Filter(keep, entries[..|entries| - 1]), entries[|entries| - 1];
      if keep(last) then kept + [last] else kept
  }

  /** The matches before the category filter, in catalog order. */
  function Matching(lib: Library, query: string, filters: Filters, catalog: seq<Entry>): seq<Entry> {
    Filter(Keeps(lib, query, filters), catalog)
  }

  function Selected(lib: Library, query: string, category: string, filters: Filters, catalog: seq<Entry>): seq<Entry> {
    Filter(Within(category), Matching(lib, query, filters, catalog))
  }

  /** The whole result in the order it is shown. */
  function Ranked(lib: Library, query: string, category: string, filters: Filters, catalog: seq<Entry>): seq<Entry> {
    var selected := Selected(lib, query, category, filters, catalog);
    if query == "" then selected else SortBy(Ranks(lib, query), selected)
  }

  function Clamp(limit: nat): (r: nat)
    ensures 1 <= r <= 48
  {
    if limit < 1 then 1 else if limit > 48 then 48 else limit
  }

  function Slice(all: seq<Entry>, offset: nat, limit: nat): seq<Entry> {
    if offset >= |all| then [] else if |all| - offset <= limit then all[offset..] else all[offset..offset + limit]
  }

  datatype Page = Page(entries: seq<Entry>, total: nat, offset: nat, limit: nat, counts: map<string, nat>)

  function Counts(entries: seq<Entry>): map<string, nat> {
    if entries == [] then map[]
    else
      var before, c := Counts(entries[..|entries| - 1]), entries[|entries| - 1].category;
      before[c := if c in before then before[c] + 1 else 1]
  }

  method Search(lib: Library, catalog: seq<Entry>, query: string, category: string, offset: nat, limit: nat,
                filters: Filters)
    returns (page: Page)
    ensures var q := Query(lib, query);
      page == Page(Slice(Ranked(lib, q, category, filters, catalog), offset, Clamp(limit)),
                   |Ranked(lib, q, category, filters, catalog)|, offset, Clamp(limit),
                   Counts(Matching(lib, q, filters, catalog)))
  {
    hide Matches, InCategory;
    var query := Query(lib, query);
    var counts: map<string, nat> := map[];
    var entries: seq<Entry> := [];
    for i := 0 to |catalog|
      invariant counts == Counts(Matching(lib, query, filters, catalog[..i]))
      invariant entries == Selected(lib, query, category, filters, catalog[..i])
    {
      var entry := catalog[i];
      MatchingStep(lib, query, filters, catalog[..i], entry);
      SelectedStep(lib, query, category, filters, catalog[..i], entry);
      assert catalog[..i + 1] == catalog[..i] + [entry];
      if Matches(lib, query, filters, entry) {
        var c := entry.category;
        counts := counts[c := if c in counts then counts[c] + 1 else 1];
        if InCategory(category, entry) {
          entries := entries + [entry];
        }
      }
    }
    assert catalog[..|catalog|] == catalog;
    var total := |entries|;
    if query != "" {
      entries := SortBy(Ranks(lib, query), entries);
      SortKeepsLength(Ranks(lib, query), Selected(lib, query, category, filters, catalog));
    }
    return Page(Slice(entries, offset, Clamp(limit)), total, offset, Clamp(limit), counts);
  }

  lemma SortKeepsLength(key: Entry -> int, s: seq<Entry>)
    ensures |SortBy(key, s)| == |s|
  {
    assert |multiset(SortBy(key, s))| == |multiset(s)|;
  }

  lemma FilterStep(keep: Entry -> bool, entries: seq<Entry>, e: Entry)
    ensures Filter(keep, entries + [e]) == if keep(e) then Filter(keep, entries) + [e] else Filter(keep, entries)
  {
    assert (entries + [e])[..|entries|] == entries;
  }

  lemma MatchingStep(lib: Library, query: string, filters: Filters, catalog: seq<Entry>, e: Entry)
    ensures var before, after := Matching(lib, query, filters, catalog), Matching(lib, query, filters, catalog + [e]);
      && after == (if Matches(lib, query, filters, e) then before + [e] else before)
      && Counts(after) == if Matches(lib, query, filters, e) then
        Counts(before)[e.category := if e.category in Counts(before) then Counts(before)[e.category] + 1 else 1]
      else Counts(before)
  {
    hide Matches;
    FilterStep(Keeps(lib, query, filters), catalog, e);
    var before := Matching(lib, query, filters, catalog);
    assert (before + [e])[..|before|] == before;
  }

  lemma SelectedStep(lib: Library, query: string, category: string, filters: Filters, catalog: seq<Entry>, e: Entry)
    ensures Selected(lib, query, category, filters, catalog + [e])
      == if Matches(lib, query, filters, e) && InCategory(category, e)
         then Selected(lib, query, category, filters, catalog) + [e] else Selected(lib, query, category, filters, catalog)
  {
    hide Matches, InCategory, Counts;
    MatchingStep(lib, query, filters, catalog, e);
    FilterStep(Within(category), Matching(lib, query, filters, catalog), e);
  }

  // ---------- ranking ----------

  lemma BucketFirst(key: Entry -> int, s: seq<Entry>, k: int)
    requires s != []
    ensures Bucket(key, s, k) == (if key(s[0]) == k then [s[0]] else []) + Bucket(key, s[1..], k)
  {
  }

  /** Sorting by a key of three values lines up its three buckets. */
  lemma {:induction false} ThreeBuckets(key: Entry -> int, s: seq<Entry>)
    requires SortedBy(key, s) && forall i | 0 <= i < |s| :: 0 <= key(s[i]) <= 2
    ensures s == Bucket(key, s, 0) + Bucket(key, s, 1) + Bucket(key, s, 2)
  {
    hide Bucket;
    if s == [] {
      BucketEmpty(key, s, 0);
      BucketEmpty(key, s, 1);
      BucketEmpty(key, s, 2);
    } else {
      var rest := s[1..];
      assert SortedBy(key, rest);
      assert forall i | 0 <= i < |rest| :: rest[i] == s[i + 1] && key(s[0]) <= key(rest[i]);
      hide SortedBy;
      ThreeBuckets(key, rest);
      BucketFirst(key, s, 0);
      BucketFirst(key, s, 1);
      BucketFirst(key, s, 2);
      if key(s[0]) > 0 {
        BucketEmpty(key, rest, 0);
      }
      if key(s[0]) > 1 {
        BucketEmpty(key, rest, 1);
      }
      PutFirst(s[0], Bucket(key, rest, 0), Bucket(key, rest, 1), Bucket(key, rest, 2));
      assert s == [s[0]] + rest;
    }
  }

  lemma PutFirst(x: Entry, a: seq<Entry>, b: seq<Entry>, c: seq<Entry>)
    ensures [x] + (a + b + c) == ([x] + a) + ([] + b) + ([] + c)
    ensures a == [] ==> [x] + (a + b + c) == ([] + a) + ([x] + b) + ([] + c)
    ensures a == [] && b == [] ==> [x] + (a + b + c) == ([] + a) + ([] + b) + ([x] + c)
  {
  }

  /**
   * A query puts exact names first, then names that start with it, then the rest, each in catalog order;
   * without a query the catalog order stays.
   */
  lemma RankedInBuckets(lib: Library, query: string, category: string, filters: Filters, catalog: seq<Entry>)
    ensures var selected := Selected(lib, query, category, filters, catalog);
      var rank := Ranks(lib, query);
      Ranked(lib, query, category, filters, catalog)
      == if query == "" then selected
         else Bucket(rank, selected, 0) + Bucket(rank, selected, 1) + Bucket(rank, selected, 2)
    ensures multiset(Ranked(lib, query, category, filters, catalog))
      == multiset(Selected(lib, query, category, filters, catalog))
  {
    hide Selected;
    var selected := Selected(lib, query, category, filters, catalog);
    var rank := Ranks(lib, query);
    if query != "" {
      var sorted := SortBy(rank, selected);
      ThreeBuckets(rank, sorted);
      SortByStable(rank, selected, 0);
      SortByStable(rank, selected, 1);
      SortByStable(rank, selected, 2);
    }
  }

  // ---------- facets ----------

  function SumOver(counts: map<string, nat>, keys: seq<string>): nat {
    if keys == [] then 0
    else SumOver(counts, keys[..|keys| - 1]) + if keys[|keys| - 1] in counts then counts[keys[|keys| - 1]] else 0
  }

  /** How many entries the category filter leaves. */
  function InCategoryCount(entries: seq<Entry>, category: string): nat {
    |Filter(Within(category), entries)|
  }

  /** Each facet counts what selecting its category would show. */
  lemma {:induction false} FacetsCountCategories(entries: seq<Entry>, category: string)
    requires category != ""
    ensures category in Counts(entries) <==> InCategoryCount(entries, category) > 0
    ensures category in Counts(entries) ==> Counts(entries)[category] == InCategoryCount(entries, category)
  {
    if entries != [] {
      FacetsCountCategories(entries[..|entries| - 1], category);
    }
  }

  ghost predicate Lists(counts: map<string, nat>, keys: seq<string>) {
    AllDistinct(keys) && forall k :: k in counts <==> k in keys
  }

  lemma {:induction false} SumBumped(counts: map<string, nat>, keys: seq<string>, c: string, n: nat)
    requires AllDistinct(keys) && c in keys && n == (if c in counts then counts[c] else 0)
    ensures SumOver(counts[c := n + 1], keys) == SumOver(counts, keys) + 1
  {
    var m := |keys| - 1;
    var front := keys[..m];
    if keys[m] == c {
      assert c !in front;
      SumUntouched(counts, front, c, n + 1);
    } else {
      assert c in front;
      SumBumped(counts, front, c, n);
    }
  }

  lemma {:induction false} SumUntouched(counts: map<string, nat>, keys: seq<string>, c: string, n: nat)
    requires c !in keys
    ensures SumOver(counts[c := n], keys) == SumOver(counts, keys)
  {
    if keys != [] {
      SumUntouched(counts, keys[..|keys| - 1], c, n);
    }
  }

  lemma {:induction false} SumOfNothing(keys: seq<string>)
    ensures SumOver(map[], keys) == 0
  {
    if keys != [] {
      SumOfNothing(keys[..|keys| - 1]);
    }
  }

  lemma {:induction false} FacetSum(entries: seq<Entry>, keys: seq<string>)
    requires AllDistinct(keys) && forall i | 0 <= i < |entries| :: entries[i].category in keys
    ensures SumOver(Counts(entries), keys) == |entries|
  {
    if entries == [] {
      SumOfNothing(keys);
    } else {
      var front, c := entries[..|entries| - 1], entries[|entries| - 1].category;
      FacetSum(front, keys);
      SumBumped(Counts(front), keys, c, if c in Counts(front) then Counts(front)[c] else 0);
    }
  }

  lemma {:induction false} CountsCategories(entries: seq<Entry>, i: nat)
    requires i < |entries|
    ensures entries[i].category in Counts(entries)
  {
    if i < |entries| - 1 {
      CountsCategories(entries[..|entries| - 1], i);
    }
  }

  /** The facets, listed in any order without repetition, add up to the matches before the category filter. */
  lemma FacetsSumToMatches(lib: Library, query: string, filters: Filters, catalog: seq<Entry>, keys: seq<string>)
    requires Lists(Counts(Matching(lib, query, filters, catalog)), keys)
    ensures SumOver(Counts(Matching(lib, query, filters, catalog)), keys) == |Matching(lib, query, filters, catalog)|
  {
    hide Matching;
    var matching := Matching(lib, query, filters, catalog);
    forall i | 0 <= i < |matching| ensures matching[i].category in keys {
      CountsCategories(matching, i);
    }
    FacetSum(matching, keys);
  }

  /** The total of a page is the facet of its category, when one is chosen. */
  lemma TotalIsFacet(lib: Library, query: string, category: string, filters: Filters, catalog: seq<Entry>)
    requires category != ""
    ensures var counts := Counts(Matching(lib, query, filters, catalog));
      |Ranked(lib, query, category, filters, catalog)| == if category in counts then counts[category] else 0
  {
    hide Matching, Counts;
    FacetsCountCategories(Matching(lib, query, filters, catalog), category);
    if query != "" {
      SortKeepsLength(Ranks(lib, query), Selected(lib, query, category, filters, catalog));
    }
  }

  // ---------- paging ----------

  /** Where the command line says the next page starts. */
  function NextOffset(page: Page): Option<nat> {
    var end := page.offset + |page.entries|;
    if end < page.total then Some(end) else None
  }

  /** All pages from an offset on, following the next offset of each. */
  ghost function Follow(all: seq<Entry>, offset: nat, limit: nat): seq<Entry>
    requires 1 <= limit
    decreases |all| - offset
  {
    var page := Page(Slice(all, offset, limit), |all|, offset, limit, map[]);
    match NextOffset(page)
    case None => page.entries
    case Some(next) => page.entries + Follow(all, next, limit)
  }

  /** Following the next offsets ends, and shows what is left of the result without hole or repeat. */
  lemma {:induction false} FollowShowsRest(all: seq<Entry>, offset: nat, limit: nat)
    requires 1 <= limit && offset <= |all|
    ensures Follow(all, offset, limit) == all[offset..]
    decreases |all| - offset
  {
    if offset + limit < |all| {
      FollowShowsRest(all, offset + limit, limit);
      assert Slice(all, offset, limit) == all[offset..offset + limit];
      assert all[offset..] == all[offset..offset + limit] + all[offset + limit..];
    } else {
      assert Slice(all, offset, limit) == all[offset..];
    }
  }

  /** From the start, all pages together are the whole ranked result. */
  lemma FollowShowsEverything(all: seq<Entry>, limit: nat)
    requires 1 <= limit
    ensures Follow(all, 0, limit) == all
  {
    FollowShowsRest(all, 0, limit);
    assert all[0..] == all;
  }

  // ---------- what each filter does ----------

  lemma {:induction false} FilterMembers(keep: Entry -> bool, entries: seq<Entry>)
    ensures forall e :: e in Filter(keep, entries) <==> e in entries && keep(e)
  {
    if entries != [] {
      FilterMembers(keep, entries[..|entries| - 1]);
      assert entries == entries[..|entries| - 1] + [entries[|entries| - 1]];
    }
  }

  /** Two filters whose conditions are those of one are one. */
  lemma {:induction false} FilterTwice(one: Entry -> bool, a: Entry -> bool, b: Entry -> bool, entries: seq<Entry>)
    requires forall e :: one(e) <==> a(e) && b(e)
    ensures Filter(one, entries) == Filter(a, Filter(b, entries))
  {
    if entries != [] {
      var front, last := entries[..|entries| - 1], entries[|entries| - 1];
      FilterTwice(one, a, b, front);
      if b(last) {
        FilterStep(a, Filter(b, front), last);
      }
    }
  }

  function Licensed(license: string): Entry -> bool { (e: Entry) => license in e.licenses }

  function RunsOn(architecture: string): Entry -> bool { (e: Entry) => architecture in e.architectures }

  function Unwarned(): Entry -> bool { (e: Entry) => !e.warning }

  function Installable(lib: Library): Entry -> bool { (e: Entry) => e.id in lib.recipes }

  function HasPage(): Entry -> bool { (e: Entry) => e.webUi }

  function OnlyListed(lib: Library): Entry -> bool { (e: Entry) => e.id !in lib.recipes && !e.webUi }

  /** Choosing a filter narrows the result, in its order, to the entries that the filter names. */
  lemma FiltersNarrow(lib: Library, query: string, filters: Filters, catalog: seq<Entry>)
    ensures filters.license != "" ==>
      Matching(lib, query, filters, catalog)
      == Filter(Licensed(filters.license), Matching(lib, query, filters.(license := ""), catalog))
    ensures filters.architecture != "" ==>
      Matching(lib, query, filters, catalog)
      == Filter(RunsOn(filters.architecture), Matching(lib, query, filters.(architecture := ""), catalog))
    ensures filters.hideWarnings ==>
      Matching(lib, query, filters, catalog)
      == Filter(Unwarned(), Matching(lib, query, filters.(hideWarnings := false), catalog))
  {
    hide Contains, InCollection, Capability;
    if filters.license != "" {
      FilterTwice(Keeps(lib, query, filters), Licensed(filters.license),
                  Keeps(lib, query, filters.(license := "")), catalog);
    }
    if filters.architecture != "" {
      FilterTwice(Keeps(lib, query, filters), RunsOn(filters.architecture),
                  Keeps(lib, query, filters.(architecture := "")), catalog);
    }
    if filters.hideWarnings {
      FilterTwice(Keeps(lib, query, filters), Unwarned(), Keeps(lib, query, filters.(hideWarnings := false)), catalog);
    }
  }

  /** By capability: what can be installed, what has a page to connect to, or what is only listed. */
  lemma CapabilityNarrows(lib: Library, query: string, filters: Filters, catalog: seq<Entry>)
    ensures var open := Matching(lib, query, filters.(capability := ""), catalog);
      && (filters.capability == "preview_install" ==>
            Matching(lib, query, filters, catalog) == Filter(Installable(lib), open))
      && (filters.capability == "connect" ==> Matching(lib, query, filters, catalog) == Filter(HasPage(), open))
      && (filters.capability == "discover" ==>
            Matching(lib, query, filters, catalog) == Filter(OnlyListed(lib), open))
  {
    hide Contains, InCollection;
    var open := Keeps(lib, query, filters.(capability := ""));
    if filters.capability == "preview_install" {
      FilterTwice(Keeps(lib, query, filters), Installable(lib), open, catalog);
    } else if filters.capability == "connect" {
      FilterTwice(Keeps(lib, query, filters), HasPage(), open, catalog);
    } else if filters.capability == "discover" {
      FilterTwice(Keeps(lib, query, filters), OnlyListed(lib), open, catalog);
    }
  }

  /** A collection shows the entries that mention one of its terms in their category or tags; other names show nothing. */
  lemma CollectionNarrows(lib: Library, query: string, filters: Filters, catalog: seq<Entry>)
    requires filters.collection != ""
    ensures var open := Matching(lib, query, filters.(collection := ""), catalog);
      forall e :: e in Matching(lib, query, filters, catalog) <==>
        && e in open && Terms(filters.collection).Some?
        && exists term | term in Terms(filters.collection).value ::
             Contains(lib.lower(e.category + " " + Joined(" ", e.tags)), term)
    ensures filters.collection !in {"writing", "automation", "media", "developer"} ==>
      Matching(lib, query, filters, catalog) == []
  {
    hide Contains, Capability;
    FilterMembers(Keeps(lib, query, filters), catalog);
    FilterMembers(Keeps(lib, query, filters.(collection := "")), catalog);
    var matching := Matching(lib, query, filters, catalog);
    assert matching != [] ==> matching[0] in matching;
  }

  ghost predicate Mentions(text: string, word: string) { exists i, j | 0 <= i <= j <= |text| :: text[i..j] == word }

  const UNFILTERED := Filters("", "", "", "", false)

  /** Without filters the result is every entry that mentions all words of the query. */
  lemma WordsMatch(lib: Library, query: string, catalog: seq<Entry>)
    ensures forall e :: e in Matching(lib, query, UNFILTERED, catalog) <==>
      e in catalog && forall word | word in lib.words(query) :: Mentions(e.text, word)
  {
    FilterMembers(Keeps(lib, query, UNFILTERED), catalog);
    forall e: Entry
      ensures Matches(lib, query, UNFILTERED, e) <==> forall word | word in lib.words(query) :: Mentions(e.text, word)
    {
      WordsOf(lib, query, e);
    }
    hide Matches, Mentions;
  }

  lemma WordsOf(lib: Library, query: string, e: Entry)
    ensures Matches(lib, query, UNFILTERED, e) <==> forall word | word in lib.words(query) :: Mentions(e.text, word)
  {
    var words := lib.words(query);
    forall i | 0 <= i < |words| ensures Contains(e.text, words[i]) <==> Mentions(e.text, words[i]) {
      ContainsSlice(e.text, words[i]);
    }
    hide Contains, Mentions;
  }

  /** A category narrows the result to its entries; no category is all of them. */
  lemma CategoryNarrows(lib: Library, query: string, category: string, filters: Filters, catalog: seq<Entry>)
    ensures forall e :: e in Selected(lib, query, category, filters, catalog) <==>
      e in Matching(lib, query, filters, catalog) && (category != "" ==> e.category == category)
    ensures category == "" ==> Selected(lib, query, category, filters, catalog) == Matching(lib, query, filters, catalog)
  {
    var matching := Matching(lib, query, filters, catalog);
    FilterMembers(Within(category), matching);
    if category == "" {
      FilterAll(Within(category), matching);
    }
  }

  lemma {:induction false} FilterAll(keep: Entry -> bool, entries: seq<Entry>)
    requires forall e :: keep(e)
    ensures Filter(keep, entries) == entries
  {
    if entries != [] {
      FilterAll(keep, entries[..|entries| - 1]);
    }
  }

  lemma ContainsSlice(text: string, word: string)
    ensures Contains(text, word) <==> Mentions(text, word)
  {
    if i :| 0 <= i <= |text| && word <= text[i..] {
      assert text[i..i + |word|] == word;
    }
    if i, j :| 0 <= i <= j <= |text| && text[i..j] == word {
      assert word <= text[i..];
    }
  }

  /** The three buckets: the name or an alias is the query, the name begins with it, or neither. */
  lemma BucketsMean(lib: Library, query: string, e: Entry)
    ensures var name, named := lib.lower(e.name), exists a | a in e.aliases :: lib.lower(a) == query;
      && (Rank(lib, query, e) == 0 <==> name == query || named)
      && (Rank(lib, query, e) == 1 <==> name != query && !named && query <= name)
  {
    if a :| a in e.aliases && lib.lower(a) == query {
      var i :| 0 <= i < |e.aliases| && e.aliases[i] == a;
    }
  }

  /** A page holds up to 48 entries from its offset on, one when none is asked for. */
  lemma PageHolds(all: seq<Entry>, offset: nat, limit: nat)
    ensures var size := if limit == 0 then 1 else if limit > 48 then 48 else limit;
      var page := Slice(all, offset, Clamp(limit));
      && |page| == (if offset >= |all| then 0 else if |all| - offset < size then |all| - offset else size)
      && forall i | 0 <= i < |page| :: page[i] == all[offset + i]
  {
  }
}
