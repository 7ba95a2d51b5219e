/** Ordered sets of names, held as strictly increasing sequences. */
module SortedNames {
  import opened Text

  ghost predicate Increasing(s: seq<string>) {
    forall i, j | 0 <= i < j < |s| :: Below(s[i], s[j])
  }

  /** Ordered-set insertion; inserting a member changes nothing. */
  function Insert(s: seq<string>, x: string): (r: seq<string>)
    requires Increasing(s)
    ensures Increasing(r)
    ensures forall y :: y in r <==> y in s || y == x
  {
    if s == [] then [x]
    else if s[0] == x then s
    else if Below(x, s[0]) then
      assert forall j | 0 <= j < |s| :: Below(x, s[j]) by {
        forall j | 0 < j < |s| ensures Below(x, s[j]) { BelowTransitive(x, s[0], s[j]); }
      }
      [x] + s
    else
      BelowTotal(x, s[0]);
      var rest := Insert(s[1..], x);
      assert forall y | y in rest :: Below(s[0], y);
      [s[0]] + rest
  }

  /** The members of a set in increasing order. */
  ghost function Ordered(names: set<string>): (s: seq<string>)
    ensures Increasing(s)
    ensures forall y :: y in s <==> y in names
  {
    if names == {} then []
    else
      var x :| x in names;
      Insert(Ordered(names - {x}), x)
  }

  lemma {:induction false} IncreasingDistinct(s: seq<string>, i: nat, j: nat)
    requires Increasing(s) && i < |s| && j < |s| && s[i] == s[j]
    ensures i == j
  {
    BelowIrreflexive(s[i]);
  }

  /** An increasing sequence is determined by its members. */
  lemma {:induction false} IncreasingUnique(s: seq<string>, t: seq<string>)
    requires Increasing(s) && Increasing(t)
    requires forall y :: y in s <==> y in t
    ensures s == t
  {
    if s == [] {
      assert forall i | 0 <= i < |t| :: t[i] in t;
    } else {
      assert s[0] in t && t != [] && t[0] in s;
      if s[0] != t[0] {
        BelowIrreflexive(s[0]);
        BelowTransitive(s[0], t[0], s[0]);
      }
      forall y ensures y in s[1..] <==> y in t[1..] {
        BelowIrreflexive(s[0]);
        assert y in s <==> y == s[0] || y in s[1..];
        assert y in t <==> y == t[0] || y in t[1..];
      }
      IncreasingUnique(s[1..], t[1..]);
    }
  }

  /** The ordered set of the names pushed so far, as a directory listing is sorted after it is read. */
  method SortNames(names: seq<string>) returns (sorted: seq<string>)
    ensures sorted == Ordered(set n | n in names)
  {
    sorted := [];
    for i := 0 to |names|
      invariant Increasing(sorted)
      invariant forall y :: y in sorted <==> y in names[..i]
    {
      sorted := Insert(sorted, names[i]);
      assert names[..i + 1] == names[..i] + [names[i]];
    }
    assert names[..|names|] == names;
    IncreasingUnique(sorted, Ordered(set n | n in names));
  }
}
