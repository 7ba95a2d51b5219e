/** The licence expression evaluator: a recursive descent parser that answers while it reads. */
module LicenseExpressions {
  import opened Results
  import opened Text

  const PERMISSIVE: set<string> := {
    "MIT", "MIT-0", "Apache-2.0", "BSD-2-Clause", "BSD-3-Clause", "ISC", "Zlib", "Unlicense", "0BSD", "CC0-1.0",
    "Unicode-3.0", "Unicode-DFS-2016"
  }

  const WEAK_COPYLEFT: set<string> := {"MPL-2.0"}

  const ACCEPTED: set<string> := PERMISSIVE + WEAK_COPYLEFT

  /** No character but an ASCII letter has one of A, D, N, O, R as its upper case. */
  predicate IsOr(token: string) { Upper(token) == "OR" }

  predicate IsAnd(token: string) { Upper(token) == "AND" }

  predicate OrAt(tokens: seq<string>, p: nat) { p < |tokens| && IsOr(tokens[p]) }

  predicate AndAt(tokens: seq<string>, p: nat) { p < |tokens| && IsAnd(tokens[p]) }

  predicate CloseAt(tokens: seq<string>, p: nat) { p < |tokens| && tokens[p] == ")" }

  // ---------- what the parser computes ----------

  /** The answer and the position reached, or the index error of reading past the last token. */
  datatype Outcome = Parsed(value: bool, position: nat) | Raised

  /** Alternatives read from `p` on, `value` being the answer for those before. */
  function Alternatives(tokens: seq<string>, accepted: set<string>, p: nat, value: bool): (r: Outcome)
    requires p <= |tokens|
    ensures r.Parsed? ==> p < r.position <= |tokens|
    decreases |tokens| - p, 2
  {
    match Parts(tokens, accepted, p, true)
    case Raised => Raised
    case Parsed(part, q) => MoreAlternatives(tokens, accepted, q, part || value)
  }

  function MoreAlternatives(tokens: seq<string>, accepted: set<string>, q: nat, value: bool): (r: Outcome)
    requires q <= |tokens|
    ensures r.Parsed? ==> q <= r.position <= |tokens|
    decreases |tokens| - q, 3
  {
    if OrAt(tokens, q) then Alternatives(tokens, accepted, q + 1, value) else Parsed(value, q)
  }

  /** Parts joined by AND read from `p` on, `value` being the answer for those before. */
  function Parts(tokens: seq<string>, accepted: set<string>, p: nat, value: bool): (r: Outcome)
    requires p <= |tokens|
    ensures r.Parsed? ==> p < r.position <= |tokens|
    decreases |tokens| - p, 1
  {
    match Atom(tokens, accepted, p)
    case Raised => Raised
    case Parsed(atom, q) => MoreParts(tokens, accepted, q, atom && value)
  }

  function MoreParts(tokens: seq<string>, accepted: set<string>, q: nat, value: bool): (r: Outcome)
    requires q <= |tokens|
    ensures r.Parsed? ==> q <= r.position <= |tokens|
    decreases |tokens| - q, 2
  {
    if AndAt(tokens, q) then Parts(tokens, accepted, q + 1, value) else Parsed(value, q)
  }

  function Atom(tokens: seq<string>, accepted: set<string>, p: nat): (r: Outcome)
    requires p <= |tokens|
    ensures r.Parsed? ==> p < r.position <= |tokens|
    decreases |tokens| - p, 0
  {
    if p == |tokens| then Raised
    else if tokens[p] == "(" then
      match Alternatives(tokens, accepted, p + 1, false)
      case Raised => Raised
      case Parsed(value, q) => Parsed(value, if CloseAt(tokens, q) then q + 1 else q)
    else Parsed(tokens[p] in accepted, p + 1)
  }

  /** The parsers share one position, which each advances past what it read. */
  class Parser {
    const tokens: seq<string>
    const accepted: set<string>
    var position: nat

    constructor (tokens: seq<string>, accepted: set<string>)
      ensures this.tokens == tokens && this.accepted == accepted && position == 0
    {
      this.tokens, this.accepted, position := tokens, accepted, 0;
    }

    ghost predicate Yields(r: Option<bool>, expected: Outcome)
      reads this
    {
      match expected
      case Parsed(value, p) => r == Some(value) && position == p
      case Raised => r == None
    }

    method ParseOr() returns (r: Option<bool>)
      requires position <= |tokens|
      modifies this
      ensures Yields(r, Alternatives(tokens, accepted, old(position), false))
      decreases |tokens| - position, 2
    {
      r := ParseAnd();
      if r.None? {
        return;
      }
      var value := r.value;
      while position < |tokens| && IsOr(tokens[position])
        invariant old(position) < position <= |tokens|
        invariant Alternatives(tokens, accepted, old(position), false)
          == MoreAlternatives(tokens, accepted, position, value)
        decreases |tokens| - position
      {
        position := position + 1;
        var part := ParseAnd();
        if part.None? {
          return None;
        }
        value := part.value || value;
      }
      return Some(value);
    }

    method ParseAnd() returns (r: Option<bool>)
      requires position <= |tokens|
      modifies this
      ensures Yields(r, Parts(tokens, accepted, old(position), true))
      decreases |tokens| - position, 1
    {
      r := ParseAtom();
      if r.None? {
        return;
      }
      var value := r.value;
      while position < |tokens| && IsAnd(tokens[position])
        invariant old(position) < position <= |tokens|
        invariant Parts(tokens, accepted, old(position), true) == MoreParts(tokens, accepted, position, value)
        decreases |tokens| - position
      {
        position := position + 1;
        var atom := ParseAtom();
        if atom.None? {
          return None;
        }
        value := atom.value && value;
      }
      return Some(value);
    }

    method ParseAtom() returns (r: Option<bool>)
      requires position <= |tokens|
      modifies this
      ensures Yields(r, Atom(tokens, accepted, old(position)))
      decreases |tokens| - position, 0
    {
      if position < |tokens| && tokens[position] == "(" {
        position := position + 1;
        r := ParseOr();
        if r.Some? && position < |tokens| && tokens[position] == ")" {
          position := position + 1;
        }
        return;
      }
      if position == |tokens| {
        return None;
      }
      var token := tokens[position];
      position := position + 1;
      return Some(token in accepted);
    }
  }

  /** No tokens are never satisfiable; otherwise the answer of the parser, or the index error. */
  function Answer(tokens: seq<string>, accepted: set<string>): Option<bool> {
    if tokens == [] then Some(false)
    else
      match Alternatives(tokens, accepted, 0, false)
      case Parsed(value, _) => Some(value)
      case Raised => None
  }

  method Satisfiable(tokens: seq<string>, accepted: set<string>) returns (r: Option<bool>)
    ensures r == Answer(tokens, accepted)
  {
    if tokens == [] {
      return Some(false);
    }
    var parser := new Parser(tokens, accepted);
    r := parser.ParseOr();
  }

  // ---------- expressions ----------

  /** Operators keep their spelling; a group may lack its closing parenthesis. */
  datatype Expr =
    | Licence(id: string)
    | Either(left: Expr, op: string, right: Expr)
    | Both(left: Expr, op: string, right: Expr)
    | Group(inner: Expr, closed: bool)

  function Render(e: Expr): (tokens: seq<string>)
    ensures tokens != []
  {
    match e
    case Licence(id) => [id]
    case Either(left, op, right) => Render(left) + [op] + Render(right)
    case Both(left, op, right) => Render(left) + [op] + Render(right)
    case Group(inner, closed) => ["("] + Render(inner) + if closed then [")"] else []
  }

  /** OR stands inside AND only in parentheses; the parser takes any token but `(` for a licence. */
  predicate Readable(e: Expr) {
    match e
    case Licence(id) => id != "("
    case Either(left, op, right) => IsOr(op) && Readable(left) && Readable(right)
    case Both(left, op, right) => IsAnd(op) && Readable(left) && Readable(right) && !left.Either? && !right.Either?
    case Group(inner, _) => Readable(inner)
  }

  predicate Closed(e: Expr) {
    match e
    case Licence(_) => true
    case Either(left, _, right) => Closed(left) && Closed(right)
    case Both(left, _, right) => Closed(left) && Closed(right)
    case Group(inner, closed) => closed && Closed(inner)
  }

  predicate IsName(token: string) { token != "(" && token != ")" && !IsAnd(token) && !IsOr(token) }

  /** The specification has its operators in capitals. */
  predicate Capital(token: string) { token == "AND" || token == "OR" }

  /** Operators are in capitals, and no parenthesis and no operator stands where a licence belongs. */
  predicate Exact(e: Expr) {
    match e
    case Licence(id) => IsName(id)
    case Either(left, op, right) => op == "OR" && Exact(left) && Exact(right)
    case Both(left, op, right) => op == "AND" && Exact(left) && Exact(right)
    case Group(inner, _) => Exact(inner)
  }

  /** An expression as the specification of licence expressions has it. */
  predicate WellFormed(e: Expr) { Readable(e) && Closed(e) && Exact(e) }

  /** What an expression asks: OR lets us choose, AND asks for every part. */
  predicate Holds(e: Expr, accepted: set<string>) {
    match e
    case Licence(id) => id in accepted
    case Either(left, _, right) => Holds(left, accepted) || Holds(right, accepted)
    case Both(left, _, right) => Holds(left, accepted) && Holds(right, accepted)
    case Group(inner, _) => Holds(inner, accepted)
  }

  /** The combinations of licences that satisfy an expression: its disjunctive normal form. */
  ghost function Choices(e: Expr): set<set<string>> {
    match e
    case Licence(id) => {{id}}
    case Either(left, _, right) => Choices(left) + Choices(right)
    case Both(left, _, right) => set a, b | a in Choices(left) && b in Choices(right) :: a + b
    case Group(inner, _) => Choices(inner)
  }

  /** An expression holds exactly when all licences of some combination are accepted. */
  lemma {:induction false} HoldsByChoice(e: Expr, accepted: set<string>)
    ensures Holds(e, accepted) <==> exists c | c in Choices(e) :: c <= accepted
  {
    match e
    case Licence(id) =>
      assert {id} in Choices(e);
    case Either(left, _, right) =>
      HoldsByChoice(left, accepted);
      HoldsByChoice(right, accepted);
      assert forall c :: c in Choices(e) <==> c in Choices(left) || c in Choices(right);
    case Both(left, _, right) =>
      HoldsByChoice(left, accepted);
      HoldsByChoice(right, accepted);
      HoldsBoth(e, accepted);
    case Group(inner, _) =>
      HoldsByChoice(inner, accepted);
  }

  /** A combination for both operands is one for each, put together. */
  lemma HoldsBoth(e: Expr, accepted: set<string>)
    requires e.Both?
    ensures (exists c | c in Choices(e) :: c <= accepted)
      <==> (exists a | a in Choices(e.left) :: a <= accepted) && exists b | b in Choices(e.right) :: b <= accepted
  {
    if a, b :| a in Choices(e.left) && a <= accepted && b in Choices(e.right) && b <= accepted {
      assert a + b in Choices(e) && a + b <= accepted;
    }
    if c :| c in Choices(e) && c <= accepted {
      var a, b :| a in Choices(e.left) && b in Choices(e.right) && c == a + b;
      assert a <= accepted && b <= accepted;
    }
  }

  // ---------- reading what was rendered ----------

  ghost predicate Spells(tokens: seq<string>, p: nat, e: Expr) {
    p + |Render(e)| <= |tokens| && tokens[p..p + |Render(e)|] == Render(e)
  }

  lemma SliceOfSlice(s: seq<string>, p: nat, q: nat, i: nat, j: nat)
    requires p <= q <= |s| && i <= j <= q - p
    ensures s[p..q][i..j] == s[p + i..p + j]
  {
    assert forall k | 0 <= k < j - i :: s[p..q][i..j][k] == s[p + i..p + j][k];
  }

  lemma Between(tokens: seq<string>, p: nat, a: seq<string>, op: string, b: seq<string>)
    requires p + |a| + 1 + |b| <= |tokens| && tokens[p..p + |a| + 1 + |b|] == a + [op] + b
    ensures tokens[p..p + |a|] == a && tokens[p + |a|] == op && tokens[p + |a| + 1..p + |a| + 1 + |b|] == b
  {
    var k, n := |a|, |a| + 1 + |b|;
    var part := tokens[p..p + n];
    SliceOfSlice(tokens, p, p + n, 0, k);
    SliceOfSlice(tokens, p, p + n, k + 1, n);
    assert part[..k] == a && part[k] == op && part[k + 1..n] == b;
  }

  lemma RenderOperands(e: Expr)
    requires e.Either? || e.Both?
    ensures Render(e) == Render(e.left) + [e.op] + Render(e.right)
  {
  }

  lemma SpellsOperands(tokens: seq<string>, p: nat, e: Expr)
    requires Spells(tokens, p, e) && (e.Either? || e.Both?)
    ensures Spells(tokens, p, e.left) && Spells(tokens, p + |Render(e.left)| + 1, e.right)
    ensures |Render(e)| == |Render(e.left)| + 1 + |Render(e.right)|
    ensures p + |Render(e.left)| < |tokens| && tokens[p + |Render(e.left)|] == e.op
  {
    hide Render;
    RenderOperands(e);
    Between(tokens, p, Render(e.left), e.op, Render(e.right));
  }

  lemma SpellsGroup(tokens: seq<string>, p: nat, e: Expr)
    requires Spells(tokens, p, e) && e.Group? && e.closed
    ensures p < |tokens| && tokens[p] == "(" && Spells(tokens, p + 1, e.inner)
    ensures |Render(e)| == |Render(e.inner)| + 2 && CloseAt(tokens, p + 1 + |Render(e.inner)|)
  {
    var inner := Render(e.inner);
    assert Render(e) == [] + ["("] + (inner + [")"]);
    Between(tokens, p, [], "(", inner + [")"]);
    assert inner + [")"] == inner + [")"] + [];
    Between(tokens, p + 1, inner, ")", []);
  }

  lemma SpellsLicence(tokens: seq<string>, p: nat, e: Expr)
    requires Spells(tokens, p, e) && e.Licence?
    ensures p < |tokens| && |Render(e)| == 1 && tokens[p] == e.id
  {
    assert tokens[p..p + 1][0] == e.id;
  }

  lemma CloseIsNoOperator(tokens: seq<string>, q: nat)
    requires CloseAt(tokens, q)
    ensures !OrAt(tokens, q) && !AndAt(tokens, q)
  {
    assert |Upper(")")| == 1;
  }

  lemma OrIsNotAnd(token: string)
    requires IsOr(token)
    ensures !IsAnd(token)
  {
  }

  /** Atoms are read whole. */
  lemma {:induction false} ReadsAtom(tokens: seq<string>, accepted: set<string>, p: nat, e: Expr)
    requires Readable(e) && Closed(e) && Spells(tokens, p, e) && (e.Licence? || e.Group?)
    ensures Atom(tokens, accepted, p) == Parsed(Holds(e, accepted), p + |Render(e)|)
    decreases e, 0
  {
    hide Render, Spells;
    if e.Licence? {
      SpellsLicence(tokens, p, e);
    } else {
      SpellsGroup(tokens, p, e);
      CloseIsNoOperator(tokens, p + 1 + |Render(e.inner)|);
      ReadsAlternatives(tokens, accepted, p + 1, e.inner, false);
    }
  }

  /** Reading a chain of AND adds its truth to the answer so far. */
  lemma {:induction false} ReadsParts(tokens: seq<string>, accepted: set<string>, p: nat, e: Expr, value: bool)
    requires Readable(e) && Closed(e) && Spells(tokens, p, e) && !e.Either?
    ensures Parts(tokens, accepted, p, value)
      == MoreParts(tokens, accepted, p + |Render(e)|, Holds(e, accepted) && value)
    decreases e, 1
  {
    hide Render, Spells, Atom, IsOr, IsAnd;
    if e.Both? {
      SpellsOperands(tokens, p, e);
      ReadsParts(tokens, accepted, p, e.left, value);
      ReadsParts(tokens, accepted, p + |Render(e.left)| + 1, e.right, Holds(e.left, accepted) && value);
    } else {
      ReadsAtom(tokens, accepted, p, e);
    }
  }

  /** Reading a chain of OR adds its truth to the answer so far. */
  lemma {:induction false} ReadsAlternatives(tokens: seq<string>, accepted: set<string>, p: nat, e: Expr, value: bool)
    requires Readable(e) && Closed(e) && Spells(tokens, p, e) && !AndAt(tokens, p + |Render(e)|)
    ensures Alternatives(tokens, accepted, p, value)
      == MoreAlternatives(tokens, accepted, p + |Render(e)|, Holds(e, accepted) || value)
    decreases e, 2
  {
    hide Render, Spells, Atom, IsOr, IsAnd;
    if e.Either? {
      SpellsOperands(tokens, p, e);
      OrIsNotAnd(e.op);
      ReadsAlternatives(tokens, accepted, p, e.left, value);
      ReadsAlternatives(tokens, accepted, p + |Render(e.left)| + 1, e.right, Holds(e.left, accepted) || value);
    } else {
      ReadsParts(tokens, accepted, p, e, true);
    }
  }

  /** For every well-formed expression the parser reads all tokens and answers what the expression asks. */
  lemma ParserEvaluates(e: Expr, accepted: set<string>)
    requires Readable(e) && Closed(e)
    ensures Alternatives(Render(e), accepted, 0, false) == Parsed(Holds(e, accepted), |Render(e)|)
    ensures Answer(Render(e), accepted) == Some(exists c | c in Choices(e) :: c <= accepted)
  {
    var tokens := Render(e);
    assert tokens[0..|tokens|] == tokens;
    ReadsAlternatives(tokens, accepted, 0, e, false);
    HoldsByChoice(e, accepted);
  }

  // ---------- one pass with a counter ----------

  /** Where a single pass stops, the groups open there, and whether licences and operators were as specified. */
  datatype Stop = MissingOperand | At(position: nat, depth: nat, exact: bool)

  /** A one-counter automaton: it waits for an operand or for what may follow one. */
  function Scan(tokens: seq<string>, p: nat, depth: nat, operand: bool, exact: bool): Stop
    requires p <= |tokens|
    decreases |tokens| - p
  {
    if operand then
      if p == |tokens| then MissingOperand
      else if tokens[p] == "(" then Scan(tokens, p + 1, depth + 1, true, exact)
      else Scan(tokens, p + 1, depth, false, exact && IsName(tokens[p]))
    else if AndAt(tokens, p) || OrAt(tokens, p) then Scan(tokens, p + 1, depth, true, exact && Capital(tokens[p]))
    else if CloseAt(tokens, p) && depth > 0 then Scan(tokens, p + 1, depth - 1, false, exact)
    else At(p, depth, exact)
  }

  lemma CapitalOperators(token: string)
    ensures IsOr(token) && Capital(token) <==> token == "OR"
    ensures IsAnd(token) && Capital(token) <==> token == "AND"
  {
    assert Upper("OR") == "OR" && Upper("AND") == "AND";
  }

  /** The pass walks over a rendered expression and comes back to the same depth. */
  lemma {:induction false} ScanSpelled(tokens: seq<string>, p: nat, depth: nat, exact: bool, e: Expr)
    requires Readable(e) && Closed(e) && Spells(tokens, p, e)
    ensures Scan(tokens, p, depth, true, exact) == Scan(tokens, p + |Render(e)|, depth, false, exact && Exact(e))
    decreases e
  {
    hide IsAnd, IsOr, Render, Spells, IsName;
    match e
    case Licence(_) =>
      SpellsLicence(tokens, p, e);
    case Group(inner, _) =>
      SpellsGroup(tokens, p, e);
      CloseIsNoOperator(tokens, p + 1 + |Render(inner)|);
      ScanSpelled(tokens, p + 1, depth + 1, exact, inner);
    case _ =>
      SpellsOperands(tokens, p, e);
      ScanSpelled(tokens, p, depth, exact, e.left);
      var q := p + |Render(e.left)|;
      CapitalOperators(e.op);
      var flag := exact && Exact(e.left) && Capital(e.op);
      assert Scan(tokens, q, depth, false, exact && Exact(e.left)) == Scan(tokens, q + 1, depth, true, flag);
      ScanSpelled(tokens, q + 1, depth, flag, e.right);
  }

  // ---------- explaining every answer ----------

  /** Whether the chain read so far, and the operator after it, are as specified. */
  predicate ExactSoFar(tokens: seq<string>, p: nat, exact: bool, before: Option<(Expr, nat)>) {
    exact && (before.Some? ==> 0 < p <= |tokens| && Capital(tokens[p - 1]) && Exact(before.value.0))
  }

  /**
   * The pass agrees with a reading from `p` to `q` that completes `e`, or it stopped at `q` inside a group
   * left open.
   */
  ghost predicate Ends(tokens: seq<string>, p: nat, q: nat, depth: nat, exact: bool, before: Option<(Expr, nat)>, e: Expr)
    requires p <= |tokens| && q <= |tokens|
  {
    var stop := Scan(tokens, p, depth, true, ExactSoFar(tokens, p, exact, before));
    if Closed(e) then stop == Scan(tokens, q, depth, false, exact && Exact(e))
    else
      && stop.At? && stop.position == q && stop.depth > depth
      && !OrAt(tokens, q) && !AndAt(tokens, q) && !CloseAt(tokens, q)
  }

  /** A chain from `start` to the operator before `p`, and one more operand from `p` to `q`. */
  lemma ChainRendered(tokens: seq<string>, start: nat, p: nat, q: nat, left: Expr, right: Expr)
    requires start < p - 1 && p < q <= |tokens|
    requires tokens[start..p - 1] == Render(left) && tokens[p..q] == Render(right)
    ensures Render(Either(left, tokens[p - 1], right)) == tokens[start..q]
    ensures Render(Both(left, tokens[p - 1], right)) == tokens[start..q]
  {
  }

  lemma {:induction false} ExplainAtom(tokens: seq<string>, accepted: set<string>, p: nat, depth: nat, exact: bool)
    returns (e: Expr)
    requires p <= |tokens| && Atom(tokens, accepted, p).Parsed?
    ensures var r := Atom(tokens, accepted, p);
      && Readable(e) && !e.Either? && !e.Both? && Render(e) == tokens[p..r.position] && Holds(e, accepted) == r.value
      && Ends(tokens, p, r.position, depth, exact, None, e)
    decreases |tokens| - p, 0
  {
    hide IsAnd, IsOr, MoreAlternatives, Parts, Alternatives;
    if tokens[p] == "(" {
      var inner := ExplainAlternatives(tokens, accepted, p + 1, false, None, depth + 1, exact);
      var q := Alternatives(tokens, accepted, p + 1, false).position;
      e := Group(inner, CloseAt(tokens, q));
    } else {
      e := Licence(tokens[p]);
    }
  }

  /** `before` is the chain read so far with its starting position, its operator just before `p`. */
  ghost predicate Carries(before: Option<(Expr, nat)>, tokens: seq<string>, accepted: set<string>, p: nat, value: bool,
                          unit: bool) {
    match before
    case None => value == unit
    case Some((e, start)) =>
      && start < p <= |tokens| && Readable(e) && Closed(e)
      && Render(e) == tokens[start..p - 1] && Holds(e, accepted) == value
  }

  lemma {:induction false} ExplainParts(tokens: seq<string>, accepted: set<string>, p: nat, value: bool,
                                        before: Option<(Expr, nat)>, depth: nat, exact: bool) returns (e: Expr)
    requires p <= |tokens| && Parts(tokens, accepted, p, value).Parsed? && Carries(before, tokens, accepted, p, value, true)
    requires before.Some? ==> IsAnd(tokens[p - 1]) && !before.value.0.Either?
    ensures var r := Parts(tokens, accepted, p, value);
      && Readable(e) && !e.Either? && Holds(e, accepted) == r.value
      && Render(e) == tokens[if before.Some? then before.value.1 else p..r.position]
      && Ends(tokens, p, r.position, depth, exact, before, e) && !AndAt(tokens, r.position)
    decreases |tokens| - p, 1
  {
    hide IsAnd, IsOr, IsName, CloseAt, Render, Atom, Alternatives, MoreAlternatives;
    var atom := ExplainAtom(tokens, accepted, p, depth, ExactSoFar(tokens, p, exact, before));
    var r := Atom(tokens, accepted, p);
    var q, start := r.position, if before.Some? then before.value.1 else p;
    e := if before.Some? then Both(before.value.0, tokens[p - 1], atom) else atom;
    if before.Some? {
      CapitalOperators(tokens[p - 1]);
      ChainRendered(tokens, start, p, q, before.value.0, atom);
    }
    if AndAt(tokens, q) {
      e := ExplainParts(tokens, accepted, q + 1, r.value && value, Some((e, start)), depth, exact);
    }
  }

  lemma {:induction false} ExplainAlternatives(tokens: seq<string>, accepted: set<string>, p: nat, value: bool,
                                               before: Option<(Expr, nat)>, depth: nat, exact: bool) returns (e: Expr)
    requires p <= |tokens| && Alternatives(tokens, accepted, p, value).Parsed?
    requires Carries(before, tokens, accepted, p, value, false) && (before.Some? ==> IsOr(tokens[p - 1]))
    ensures var r := Alternatives(tokens, accepted, p, value);
      && Readable(e) && Holds(e, accepted) == r.value
      && Render(e) == tokens[if before.Some? then before.value.1 else p..r.position]
      && Ends(tokens, p, r.position, depth, exact, before, e) && !AndAt(tokens, r.position) && !OrAt(tokens, r.position)
    decreases |tokens| - p, 2
  {
    hide IsAnd, IsOr, IsName, Atom, Parts, MoreParts, CloseAt, Render;
    var part := ExplainParts(tokens, accepted, p, true, None, depth, ExactSoFar(tokens, p, exact, before));
    var r := Parts(tokens, accepted, p, true);
    var q, start := r.position, if before.Some? then before.value.1 else p;
    e := if before.Some? then Either(before.value.0, tokens[p - 1], part) else part;
    if before.Some? {
      CapitalOperators(tokens[p - 1]);
      ChainRendered(tokens, start, p, q, before.value.0, part);
    }
    if OrAt(tokens, q) {
      e := ExplainAlternatives(tokens, accepted, q + 1, r.value || value, Some((e, start)), depth, exact);
    }
  }

  /**
   * Whatever the tokens, an answer is the truth of an expression spelled by the tokens read, a longest one:
   * closing parentheses may be missing from it, and licences and operators need not be as specified.
   */
  lemma AnswerIsExplained(tokens: seq<string>, accepted: set<string>) returns (e: Expr)
    requires tokens != [] && Answer(tokens, accepted).Some?
    ensures var n := Alternatives(tokens, accepted, 0, false).position;
      && Readable(e) && Render(e) == tokens[..n] && Answer(tokens, accepted) == Some(Holds(e, accepted))
      && !AndAt(tokens, n) && !OrAt(tokens, n)
  {
    e := ExplainAlternatives(tokens, accepted, 0, false, None, 0, true);
  }

  // ---------- the set of accepted licences ----------

  /** A wider set moves the parser to the same position and never turns an answer to no. */
  predicate NoWorse(narrow: Outcome, wide: Outcome) {
    if narrow.Raised? then wide.Raised?
    else wide.Parsed? && narrow.position == wide.position && (narrow.value ==> wide.value)
  }

  lemma {:induction false} AtomMonotone(tokens: seq<string>, narrow: set<string>, wide: set<string>, p: nat)
    requires narrow <= wide && p <= |tokens|
    ensures NoWorse(Atom(tokens, narrow, p), Atom(tokens, wide, p))
    decreases |tokens| - p, 0
  {
    if p < |tokens| && tokens[p] == "(" {
      AlternativesMonotone(tokens, narrow, wide, p + 1, false, false);
    }
  }

  lemma {:induction false} PartsMonotone(tokens: seq<string>, narrow: set<string>, wide: set<string>, p: nat, v: bool, w: bool)
    requires narrow <= wide && p <= |tokens| && (v ==> w)
    ensures NoWorse(Parts(tokens, narrow, p, v), Parts(tokens, wide, p, w))
    decreases |tokens| - p, 1
  {
    AtomMonotone(tokens, narrow, wide, p);
    var a, b := Atom(tokens, narrow, p), Atom(tokens, wide, p);
    if a.Raised? {
      assert Parts(tokens, wide, p, w).Raised?;
    } else if AndAt(tokens, a.position) {
      assert Parts(tokens, narrow, p, v) == Parts(tokens, narrow, a.position + 1, a.value && v);
      assert Parts(tokens, wide, p, w) == Parts(tokens, wide, b.position + 1, b.value && w);
      PartsMonotone(tokens, narrow, wide, a.position + 1, a.value && v, b.value && w);
    } else {
      assert Parts(tokens, narrow, p, v) == Parsed(a.value && v, a.position);
      assert Parts(tokens, wide, p, w) == Parsed(b.value && w, b.position);
    }
  }

  lemma {:induction false} AlternativesMonotone(tokens: seq<string>, narrow: set<string>, wide: set<string>, p: nat,
                                                v: bool, w: bool)
    requires narrow <= wide && p <= |tokens| && (v ==> w)
    ensures NoWorse(Alternatives(tokens, narrow, p, v), Alternatives(tokens, wide, p, w))
    decreases |tokens| - p, 2
  {
    PartsMonotone(tokens, narrow, wide, p, true, true);
    var a, b := Parts(tokens, narrow, p, true), Parts(tokens, wide, p, true);
    if a.Raised? {
      assert Alternatives(tokens, wide, p, w).Raised?;
    } else if OrAt(tokens, a.position) {
      assert Alternatives(tokens, narrow, p, v) == Alternatives(tokens, narrow, a.position + 1, a.value || v);
      assert Alternatives(tokens, wide, p, w) == Alternatives(tokens, wide, b.position + 1, b.value || w);
      AlternativesMonotone(tokens, narrow, wide, a.position + 1, a.value || v, b.value || w);
    } else {
      assert Alternatives(tokens, narrow, p, v) == Parsed(a.value || v, a.position);
      assert Alternatives(tokens, wide, p, w) == Parsed(b.value || w, b.position);
    }
  }

  /** Answers are monotone in the accepted set, and whether the parser fails does not depend on it. */
  lemma AnswerMonotone(tokens: seq<string>, narrow: set<string>, wide: set<string>)
    requires narrow <= wide
    ensures Answer(tokens, narrow).Some? <==> Answer(tokens, wide).Some?
    ensures Answer(tokens, narrow) == Some(true) ==> Answer(tokens, wide) == Some(true)
  {
    AlternativesMonotone(tokens, narrow, wide, 0, false, false);
  }

  /** Every crate that permissive licences satisfy is accepted. */
  lemma PermissiveIsAccepted(tokens: seq<string>)
    ensures Answer(tokens, PERMISSIVE) == Some(true) ==> Answer(tokens, ACCEPTED) == Some(true)
  {
    AnswerMonotone(tokens, PERMISSIVE, ACCEPTED);
  }

  // ---------- where the parser is lenient ----------

  lemma {:induction false} AtomRaises(tokens: seq<string>, accepted: set<string>, p: nat, depth: nat, exact: bool)
    requires p <= |tokens| && Atom(tokens, accepted, p).Raised?
    ensures Scan(tokens, p, depth, true, exact) == MissingOperand
    decreases |tokens| - p, 0
  {
    if p < |tokens| {
      AlternativesRaise(tokens, accepted, p + 1, false, depth + 1, exact);
    }
  }

  lemma {:induction false} PartsRaise(tokens: seq<string>, accepted: set<string>, p: nat, value: bool, depth: nat, exact: bool)
    requires p <= |tokens| && Parts(tokens, accepted, p, value).Raised?
    ensures Scan(tokens, p, depth, true, exact) == MissingOperand
    decreases |tokens| - p, 1
  {
    var r := Atom(tokens, accepted, p);
    if r.Raised? {
      AtomRaises(tokens, accepted, p, depth, exact);
    } else {
      var atom := ExplainAtom(tokens, accepted, p, depth, exact);
      PartsRaise(tokens, accepted, r.position + 1, r.value && value, depth,
                 exact && Exact(atom) && Capital(tokens[r.position]));
    }
  }

  lemma {:induction false} AlternativesRaise(tokens: seq<string>, accepted: set<string>, p: nat, value: bool, depth: nat,
                                             exact: bool)
    requires p <= |tokens| && Alternatives(tokens, accepted, p, value).Raised?
    ensures Scan(tokens, p, depth, true, exact) == MissingOperand
    decreases |tokens| - p, 2
  {
    var r := Parts(tokens, accepted, p, true);
    if r.Raised? {
      PartsRaise(tokens, accepted, p, true, depth, exact);
    } else {
      var part := ExplainParts(tokens, accepted, p, true, None, depth, exact);
      AlternativesRaise(tokens, accepted, r.position + 1, r.value || value, depth,
                        exact && Exact(part) && Capital(tokens[r.position]));
    }
  }

  /** The parser fails with an index error exactly when the pass misses an operand; else both stop together. */
  lemma ParserStopsWithScan(tokens: seq<string>, accepted: set<string>)
    ensures match Alternatives(tokens, accepted, 0, false)
      case Raised => Scan(tokens, 0, 0, true, true) == MissingOperand
      case Parsed(_, n) => Scan(tokens, 0, 0, true, true).At? && Scan(tokens, 0, 0, true, true).position == n
  {
    if Alternatives(tokens, accepted, 0, false).Raised? {
      AlternativesRaise(tokens, accepted, 0, false, 0, true);
    } else {
      var _ := ExplainAlternatives(tokens, accepted, 0, false, None, 0, true);
    }
  }

  /**
   * The tokens are exactly one well-formed expression if and only if the pass reaches their end with no
   * group open and has met only names for licences and only capitals for operators. Then the answer is the
   * expression's; on all other tokens the parser judges a part of them, takes a parenthesis or an operator
   * for a licence, or takes a word like `or` for an operator.
   */
  lemma WholeExpressionExactly(tokens: seq<string>)
    ensures (exists e :: WellFormed(e) && Render(e) == tokens)
      <==> Scan(tokens, 0, 0, true, true) == At(|tokens|, 0, true)
  {
    hide Render, Readable, Closed, Exact, Scan;
    if e :| WellFormed(e) && Render(e) == tokens {
      ScanWhole(e);
    }
    if Scan(tokens, 0, 0, true, true) == At(|tokens|, 0, true) {
      var e := ScannedExpression(tokens);
    }
  }

  lemma ScanWhole(e: Expr)
    requires WellFormed(e)
    ensures Scan(Render(e), 0, 0, true, true) == At(|Render(e)|, 0, true)
  {
    hide Render, Readable, Closed, Exact;
    var tokens := Render(e);
    assert tokens[0..|tokens|] == tokens;
    ScanSpelled(tokens, 0, 0, true, e);
  }

  lemma ScannedExpression(tokens: seq<string>) returns (e: Expr)
    requires Scan(tokens, 0, 0, true, true) == At(|tokens|, 0, true)
    ensures WellFormed(e) && Render(e) == tokens
  {
    hide Render, Readable, Closed, Exact, Alternatives, Holds;
    ParserStopsWithScan(tokens, {});
    e := ExplainAlternatives(tokens, {}, 0, false, None, 0, true);
    assert tokens[0..|tokens|] == tokens;
    assert Scan(tokens, |tokens|, 0, false, Exact(e)) == At(|tokens|, 0, Exact(e));
  }

  /** One licence that no operator follows decides the answer, whatever stands after it. */
  lemma RestIsIgnored(id: string, rest: seq<string>, accepted: set<string>)
    requires id != "(" && !AndAt([id] + rest, 1) && !OrAt([id] + rest, 1)
    ensures Answer([id] + rest, accepted) == Some(id in accepted)
  {
    var tokens := [id] + rest;
    assert tokens[0] == id && tokens != [];
    assert Atom(tokens, accepted, 0) == Parsed(id in accepted, 1);
    assert Parts(tokens, accepted, 0, true) == Parsed(id in accepted, 1);
    assert Alternatives(tokens, accepted, 0, false) == Parsed(id in accepted, 1);
  }

  /**
   * The parser does not insist on reading all tokens, on closing parentheses or on names: two licences
   * without an operator are judged by the first, an unclosed group by its contents, and a parenthesis in the
   * place of a licence counts as one that is not accepted. It takes `or` for an operator. No
   * tokens at all are answered no.
   */
  lemma LenientAnswers()
    ensures Answer(["MIT", "GPL-3.0-only"], ACCEPTED) == Some(true)
    ensures Answer(["MIT", ")", "AND", "GPL-3.0-only"], ACCEPTED) == Some(true)
    ensures Answer(["(", "MIT"], ACCEPTED) == Some(true)
    ensures Answer(["MIT", "OR", ")"], ACCEPTED) == Some(true)
    ensures Answer(["MIT", "or", "GPL-3.0-only"], ACCEPTED) == Some(true)
    ensures Answer([], ACCEPTED) == Some(false)
  {
    assert |Upper("GPL-3.0-only")| == 12 && |Upper(")")| == 1;
    assert ["MIT", "GPL-3.0-only"] == ["MIT"] + ["GPL-3.0-only"];
    RestIsIgnored("MIT", ["GPL-3.0-only"], ACCEPTED);
    assert ["MIT", ")", "AND", "GPL-3.0-only"] == ["MIT"] + [")", "AND", "GPL-3.0-only"];
    RestIsIgnored("MIT", [")", "AND", "GPL-3.0-only"], ACCEPTED);
    var open := ["(", "MIT"];
    assert Atom(open, ACCEPTED, 1) == Parsed(true, 2);
    assert Parts(open, ACCEPTED, 1, true) == Parsed(true, 2);
    assert Alternatives(open, ACCEPTED, 1, false) == Parsed(true, 2);
    assert Atom(open, ACCEPTED, 0) == Parsed(true, 2);
    assert Parts(open, ACCEPTED, 0, true) == Parsed(true, 2);
    OneAlternative(["MIT", "OR", ")"]);
    assert Upper("or") == "OR";
    OneAlternative(["MIT", "or", "GPL-3.0-only"]);
  }

  lemma OneAlternative(tokens: seq<string>)
    requires |tokens| == 3 && tokens[0] == "MIT" && IsOr(tokens[1]) && tokens[2] != "("
    ensures Answer(tokens, ACCEPTED) == Some(true)
  {
    var other := tokens[2] in ACCEPTED;
    assert !IsAnd(tokens[1]);
    hide IsAnd, IsOr;
    assert Atom(tokens, ACCEPTED, 2) == Parsed(other, 3);
    assert Parts(tokens, ACCEPTED, 2, true) == Parsed(other, 3);
    assert Alternatives(tokens, ACCEPTED, 2, true) == Parsed(true, 3);
    assert Atom(tokens, ACCEPTED, 0) == Parsed(true, 1);
    assert Parts(tokens, ACCEPTED, 0, true) == Parsed(true, 1);
    assert Alternatives(tokens, ACCEPTED, 0, false) == Parsed(true, 3);
  }
}
