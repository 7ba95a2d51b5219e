/** What a stored request says, told from what was asked of it and saved. */
module RequestHistory {
  import opened Results
  import opened Text
  import opened MutationQueue
  import opened MutationRuns

  ghost predicate Withdrew(log: seq<Fact>, id: string) { exists f | f in log :: f.Withdrawn? && f.id == id }

  ghost predicate WasGranted(log: seq<Fact>, id: string) { exists f | f in log :: f.Granted? && f.id == id }

  ghost predicate Unfinished(log: seq<Fact>, id: string) { forall f | f in log && f.Finished? :: f.id != id }

  /** A cancellation was saved after the claim and before any finish. */
  ghost predicate CancelAsked(log: seq<Fact>, id: string) {
    exists j | 0 <= j < |log| :: log[j].Withdrawn? && log[j].id == id && !Untaken(log[..j], id) && Unfinished(log[..j], id)
  }

  /** The stage that was recorded last. */
  function StageOf(log: seq<Fact>, id: string): Option<string> {
    if log == [] then None
    else
      var last := log[|log| - 1];
      if last.Staged? && last.id == id then last.stage else StageOf(log[..|log| - 1], id)
  }

  ghost predicate StateTold(r: Request, log: seq<Fact>) {
    && (r.state.Succeeded? <==> Finished(r.id, Completed) in log)
    && (r.state.Failed? <==> Finished(r.id, RuntimeError) in log)
    && (r.state.Denied? <==> Refused(r.id) in log)
    && (r.state.Running? <==> !Untaken(log, r.id) && Unfinished(log, r.id))
    && (!Untaken(log, r.id) ==> (r.state.Cancelled? <==> Finished(r.id, CancelledByUser) in log))
    && (Untaken(log, r.id) ==>
         && Unfinished(log, r.id)
         && (r.state.Cancelled? ==> Withdrew(log, r.id))
         && (Withdrew(log, r.id) ==> !r.state.Pending? && !r.state.Approved?)
         && (r.state.Pending? ==> !WasGranted(log, r.id)) && (r.state.Approved? ==> WasGranted(log, r.id)))
  }

  ghost predicate FieldsTold(r: Request, log: seq<Fact>) {
    && (r.failure == if r.state.Failed? then Some(RuntimeFailed) else None)
    && (r.approvedUntil.Some? <==> WasGranted(log, r.id))
    && (forall f | f in log && f.Taken? && f.id == r.id :: r.startedAt == Some(f.at) && r.operationId == Some(f.operation))
    && (Untaken(log, r.id) ==> r.startedAt.None? && r.operationId.None?)
    && (r.cancelRequested <==> CancelAsked(log, r.id))
    && r.stage == StageOf(log, r.id)
  }

  ghost predicate Told(r: Request, log: seq<Fact>) { StateTold(r, log) && FieldsTold(r, log) }

  ghost predicate AllTold(w: World) { forall i | 0 <= i < |w.rows| :: Told(w.rows[i].request, w.log) }

  /** One more fact, taken apart. */
  lemma OneMore(log: seq<Fact>, f: Fact, id: string)
    ensures forall g :: g in log + [f] <==> g in log || g == f
    ensures Untaken(log + [f], id) <==> Untaken(log, id) && !(f.Taken? && f.id == id)
    ensures Unfinished(log + [f], id) <==> Unfinished(log, id) && !(f.Finished? && f.id == id)
    ensures Withdrew(log + [f], id) <==> Withdrew(log, id) || (f.Withdrawn? && f.id == id)
    ensures WasGranted(log + [f], id) <==> WasGranted(log, id) || (f.Granted? && f.id == id)
    ensures CancelAsked(log + [f], id)
      <==> CancelAsked(log, id) || (f.Withdrawn? && f.id == id && !Untaken(log, id) && Unfinished(log, id))
    ensures StageOf(log + [f], id) == if f.Staged? && f.id == id then f.stage else StageOf(log, id)
  {
    assert forall g :: g in log + [f] <==> g in log || g == f;
    MoreAsked(log, f, id);
    assert (log + [f])[..|log|] == log;
  }

  lemma MoreAsked(log: seq<Fact>, f: Fact, id: string)
    ensures CancelAsked(log + [f], id)
      <==> CancelAsked(log, id) || (f.Withdrawn? && f.id == id && !Untaken(log, id) && Unfinished(log, id))
  {
    hide Untaken, Unfinished;
    var more := log + [f];
    assert more[|log|] == f && more[..|log|] == log;
    assert forall j | 0 <= j < |log| :: more[j] == log[j] && more[..j] == log[..j];
  }

  lemma ToldOther(r: Request, log: seq<Fact>, f: Fact)
    requires Told(r, log) && f.id != r.id
    ensures Told(r, log + [f])
  {
    hide Untaken, Unfinished, Withdrew, WasGranted, CancelAsked, StageOf;
    OneMore(log, f, r.id);
  }

  ghost predicate Calls(row: Row, rows: seq<Row>, call: Call) {
    !call.Submit? && !call.Look? && rows == [row] && row.request.id == call.id && Apply(rows, call).Ok?
  }

  lemma OneFact(row: Row, rows: seq<Row>, call: Call)
    requires Calls(row, rows, call)
    ensures var r := Apply(rows, call).value.1;
      Facts(call, r) == [FactOf(call, r)] && r.id == call.id && FactOf(call, r).id == call.id
  {
  }

  ghost function FactOf(call: Call, r: Request): Fact
    requires Facts(call, r) != []
  {
    Facts(call, r)[0]
  }

  /** The edge that each call takes, and where it may be taken. */
  lemma CallEdge(row: Row, rows: seq<Row>, call: Call)
    requires Calls(row, rows, call)
    ensures var a, b := row.request.state, Apply(rows, call).value.1.state;
      match call
      case Decide(_, _, _, approve, _) => a == Pending && b == if approve then Approved else Denied
      case Claim(_, _, _, _, _, _) => a == Approved && b == Running
      case Cancel(_, _, _) =>
        if a == Pending || a == Approved then b == Cancelled
        else b == a && (a == Running ==> row.request.target.kind == Install)
      case Finish(_, completion) =>
        a == Running && b == (match completion
                              case Completed => Succeeded
                              case CancelledByUser => Cancelled
                              case RuntimeError => Failed)
      case _ => b == a
  {
    hide Find;
  }

  /** The same edges, by the facts they leave. */
  predicate FactEdge(a: State, b: State, f: Fact) {
    match f
    case Granted(_, _, _, _, _) => a == Pending && b == Approved
    case Refused(_) => a == Pending && b == Denied
    case Taken(_, _, _, _, _, _) => a == Approved && b == Running
    case Withdrawn(_, _, _) => if a == Pending || a == Approved then b == Cancelled else b == a
    case Finished(_, completion) =>
      a == Running && b == (match completion
                            case Completed => Succeeded
                            case CancelledByUser => Cancelled
                            case RuntimeError => Failed)
    case Staged(_, _) => b == a
    case _ => false
  }

  lemma StateToldFact(r: Request, r': Request, log: seq<Fact>, f: Fact)
    requires StateTold(r, log) && r'.id == r.id == f.id && FactEdge(r.state, r'.state, f)
    requires r.state.Pending? || r.state.Approved? ==> Untaken(log, r.id)
    ensures StateTold(r', log + [f])
  {
    OneMore(log, f, r.id);
    hide Untaken, Withdrew, WasGranted, CancelAsked, StageOf;
  }

  /** A call changes the state of one request as the fact that it leaves says. */
  lemma StateToldCall(row: Row, log: seq<Fact>, rows: seq<Row>, call: Call)
    requires Calls(row, rows, call) && Told(row.request, log) && Traced(row, log)
    ensures var r := Apply(rows, call).value.1;
      Facts(call, r) != [] && StateTold(r, log + [FactOf(call, r)])
  {
    OneFact(row, rows, call);
    CallEdge(row, rows, call);
    hide StateTold, FieldsTold, Apply, GrantedAs, Untaken;
    var r := Apply(rows, call).value.1;
    StateToldFact(row.request, r, log, FactOf(call, r));
  }

  /** What else changes, by the facts. */
  predicate FactFields(a: Request, b: Request, f: Fact) {
    && b.failure == (if f == Finished(a.id, RuntimeError) then Some(RuntimeFailed) else a.failure)
    && (if f.Granted? then b.approvedUntil == Some(f.until) else b.approvedUntil == a.approvedUntil)
    && (if f.Taken? then b.startedAt == Some(f.at) && b.operationId == Some(f.operation)
        else b.startedAt == a.startedAt && b.operationId == a.operationId)
    && b.cancelRequested == (a.cancelRequested || (f.Withdrawn? && a.state == Running))
    && b.stage == (if f.Staged? then f.stage else a.stage)
  }

  lemma CallFields(row: Row, rows: seq<Row>, call: Call)
    requires Calls(row, rows, call)
    ensures var r := Apply(rows, call).value.1;
      Facts(call, r) != [] && FactFields(row.request, r, FactOf(call, r))
  {
    hide Find, ApprovalEnd;
  }

  lemma FieldsToldFact(a: Request, b: Request, log: seq<Fact>, f: Fact)
    requires StateTold(a, log) && FieldsTold(a, log) && b.id == a.id == f.id
    requires FactEdge(a.state, b.state, f) && FactFields(a, b, f)
    requires a.state.Pending? || a.state.Approved? ==> Untaken(log, a.id)
    ensures FieldsTold(b, log + [f])
  {
    OneMore(log, f, a.id);
    hide Untaken, Unfinished, Withdrew, WasGranted, CancelAsked, StageOf;
  }

  lemma FieldsToldCall(row: Row, log: seq<Fact>, rows: seq<Row>, call: Call)
    requires Calls(row, rows, call) && Told(row.request, log) && Traced(row, log)
    ensures var r := Apply(rows, call).value.1;
      Facts(call, r) != [] && FieldsTold(r, log + [FactOf(call, r)])
  {
    OneFact(row, rows, call);
    CallEdge(row, rows, call);
    CallFields(row, rows, call);
    hide StateTold, FieldsTold, FactFields, Apply, GrantedAs, Untaken;
    var r := Apply(rows, call).value.1;
    FieldsToldFact(row.request, r, log, FactOf(call, r));
  }

  // ---------- whole steps ----------

  /** In a sound log nothing is said of a request before it is submitted. */
  lemma {:induction false} NothingBeforeSubmission(log: seq<Fact>, id: string)
    requires Sound(log) && NeverSubmitted(log, id)
    ensures forall f | f in log :: f.id != id
  {
    if log != [] {
      var front, last := log[..|log| - 1], log[|log| - 1];
      assert forall f | f in front :: f in log;
      NothingBeforeSubmission(front, id);
      assert log == front + [last];
    }
  }

  lemma {:induction false} NothingStaged(log: seq<Fact>, id: string)
    requires forall f | f in log :: f.id != id
    ensures StageOf(log, id) == None
  {
    if log != [] {
      assert forall f | f in log[..|log| - 1] :: f in log;
      NothingStaged(log[..|log| - 1], id);
    }
  }

  lemma NothingSaid(log: seq<Fact>, f: Fact, id: string)
    requires (forall g | g in log :: g.id != id) && f.Submitted?
    ensures var all := log + [f];
      && Untaken(all, id) && Unfinished(all, id) && !Withdrew(all, id) && !WasGranted(all, id) && !CancelAsked(all, id)
      && StageOf(all, id) == None && (forall g | g in all :: g.Submitted? || g.id != id)
  {
    NothingStaged(log, id);
    OneMore(log, f, id);
    assert !CancelAsked(log, id);
    hide CancelAsked, StageOf;
  }

  lemma ToldNew(log: seq<Fact>, call: Call)
    requires Sound(log) && call.Submit? && NeverSubmitted(log, call.id) && call.now + REQUEST_SECONDS <= U64_MAX
    ensures Told(NewRequest(call.id, call.client, call.target, call.now),
                 log + [Submitted(call.id, call.client, call.generation, call.target, call.now)])
  {
    NothingBeforeSubmission(log, call.id);
    NothingSaid(log, Submitted(call.id, call.client, call.generation, call.target, call.now), call.id);
    hide CancelAsked, StageOf, Untaken, Unfinished, Withdrew, WasGranted, Sound;
  }

  lemma ToldExpired(row: Row, log: seq<Fact>, now: u64)
    requires Told(row.request, log) && Traced(row, log)
    ensures Told(ExpireRow(row, now).request, log)
  {
    hide Unfinished, Withdrew, WasGranted, CancelAsked, StageOf, GrantedAs, Untaken;
  }

  lemma OpenedTold(w: World, now: u64)
    requires Inv(w) && AllTold(w)
    ensures AllTold(World(Expire(w.rows, now), w.log))
  {
    hide Told;
    forall i | 0 <= i < |w.rows| ensures Told(Expire(w.rows, now)[i].request, w.log) {
      RowWasSubmitted(w, i);
      ToldExpired(w.rows[i], w.log, now);
    }
  }

  lemma SubmitTold(w: World, call: Call)
    requires Inv(w) && AllTold(w) && Allowed(w, call) && call.Submit? && Apply(w.rows, call).Ok?
    ensures AllTold(World(Apply(w.rows, call).value.0, w.log + Facts(call, Apply(w.rows, call).value.1)))
  {
    hide Told, Kept, Apply;
    SubmittedRows(w.rows, call);
    InvSound(w);
    ToldNew(w.log, call);
    var f := Submitted(call.id, call.client, call.generation, call.target, call.now);
    var kept := Kept(w.rows);
    forall j | 0 <= j < |kept| ensures Told(kept[j].request, w.log + [f]) {
      var i := KeptRow(w.rows, j);
      RowWasSubmitted(w, i);
      ToldOther(kept[j].request, w.log, f);
    }
  }

  /** A call on the queue does to the row it finds what it does to that row alone. */
  lemma AloneSame(rows: seq<Row>, call: Call) returns (k: nat)
    requires Apply(rows, call).Ok? && !call.Submit?
    ensures k < |rows| && rows[k].request.id == call.id && Apply([rows[k]], call).Ok?
    ensures Apply(rows, call).value.1 == Apply([rows[k]], call).value.1
    ensures Apply(rows, call).value.0 == rows[k := rows[k].(request := Apply(rows, call).value.1)]
  {
    k := Find(rows, call.id).value;
    assert Find([rows[k]], call.id) == Some(0);
    hide Find;
  }

  lemma OtherTold(w: World, call: Call)
    requires Inv(w) && AllTold(w) && !call.Submit? && !call.Look? && Apply(w.rows, call).Ok?
    ensures AllTold(World(Apply(w.rows, call).value.0, w.log + Facts(call, Apply(w.rows, call).value.1)))
  {
    hide StateTold, FieldsTold, Apply, Traced, RecordValid, WithinQuotas, Sound;
    var k := AloneSame(w.rows, call);
    var row, rows, r := w.rows[k], [w.rows[k]], Apply(w.rows, call).value.1;
    RowWasSubmitted(w, k);
    OneFact(row, rows, call);
    StateToldCall(row, w.log, rows, call);
    FieldsToldCall(row, w.log, rows, call);
    var after := Apply(w.rows, call).value.0;
    forall i | 0 <= i < |after| ensures Told(after[i].request, w.log + [FactOf(call, r)]) {
      if i != k {
        assert w.rows[i].request.id != w.rows[k].request.id;
        ToldOther(after[i].request, w.log, FactOf(call, r));
      }
    }
  }

  lemma StepTold(w: World, e: Event)
    requires Inv(w) && AllTold(w) && Allowed(w, e.call)
    ensures AllTold(Step(w, e))
  {
    hide Inv, AllTold, Apply, FileValid;
    var current := World(Expire(w.rows, e.openedAt), w.log);
    OpenKeepsInv(w, e.openedAt);
    OpenedTold(w, e.openedAt);
    if Apply(current.rows, e.call).Ok? {
      match e.call
      case Submit(_, _, _, _, _) => SubmitTold(current, e.call);
      case Look(id) =>
        LookedTold(current, e.call);
      case _ => OtherTold(current, e.call);
    }
  }

  lemma LookedTold(w: World, call: Call)
    requires AllTold(w) && call.Look? && Apply(w.rows, call).Ok?
    ensures AllTold(World(Apply(w.rows, call).value.0, w.log + Facts(call, Apply(w.rows, call).value.1)))
  {
    LookChangesNothing(w.rows, call.id);
    assert w.log + [] == w.log;
  }

  /**
   * In every run each stored request says what was asked of it and saved: it succeeded, failed or was denied
   * exactly when that was recorded, a claimed one runs until a finish is recorded and is cancelled exactly by
   * a finish that says so; it keeps when and as what operation it was claimed, whether a cancellation came
   * while it ran, and the last stage.
   */
  lemma {:induction false} RowsTellHistory(events: seq<Event>)
    requires Proper(events)
    ensures AllTold(Run(events))
  {
    hide Inv, Step, Allowed, AllTold;
    if events == [] {
      NothingTold();
    } else {
      RowsTellHistory(events[..|events| - 1]);
      RunKeepsInv(events[..|events| - 1]);
      StepTold(Run(events[..|events| - 1]), events[|events| - 1]);
    }
  }

  lemma NothingTold()
    ensures AllTold(World([], []))
  {
  }

  // ---------- which calls are refused ----------

  /** A call about a stored request is refused for exactly these reasons. */
  lemma RefusedExactly(rows: seq<Row>, i: nat, call: Call)
    requires DistinctIds(rows) && i < |rows| && rows[i].request.id == call.id && !call.Submit?
    ensures var row, r := rows[i], rows[i].request;
      match call
      case Decide(_, generation, target, approve, _) =>
        Apply(rows, call).Err? <==> r.state != Pending || (approve && (generation != row.generation || target != r.target))
      case Claim(_, client, generation, target, _, now) =>
        Apply(rows, call).Err? <==>
          || r.state != Approved || r.approvedUntil.None? || r.approvedUntil.value <= now
          || client != r.clientId || generation != row.generation || target != r.target
      case Cancel(_, client, generation) =>
        Apply(rows, call).Err? <==>
          || client != r.clientId || generation != row.generation
          || (r.state == Running && r.target.kind == UninstallKeepData)
      case Finish(_, _) => Apply(rows, call).Err? <==> r.state != Running
      case _ => Apply(rows, call).Ok?
    ensures Apply(rows, call) != Err(NotFound)
  {
    assert Find(rows, call.id) == Some(i);
    hide Find;
  }

  lemma UnknownRefused(rows: seq<Row>, call: Call)
    requires !call.Submit? && forall i | 0 <= i < |rows| :: rows[i].request.id != call.id
    ensures Apply(rows, call) == Err(NotFound)
  {
  }

  ghost function ActiveRows(rows: seq<Row>): set<Row> {
    set row | row in rows && row.request.state in {Pending, Approved, Running}
  }

  ghost function ActiveOf(rows: seq<Row>, client: string): set<Row> {
    set row | row in ActiveRows(rows) && row.request.clientId == client
  }

  lemma ActiveStep(row: Row, rest: seq<Row>, client: string)
    ensures var active := row.request.state in {Pending, Approved, Running};
      && ActiveRows([row] + rest) == (if active then {row} else {}) + ActiveRows(rest)
      && ActiveOf([row] + rest, client)
         == (if active && row.request.clientId == client then {row} else {}) + ActiveOf(rest, client)
    ensures row !in rest ==> row !in ActiveRows(rest) && row !in ActiveOf(rest, client)
  {
    assert forall r :: r in [row] + rest <==> r == row || r in rest;
    var active := row.request.state in {Pending, Approved, Running};
    assert ActiveRows([row] + rest) == (if active then {row} else {}) + ActiveRows(rest);
    hide ActiveRows;
  }

  lemma SizeStep(rows: set<Row>, rest: set<Row>, row: Row, more: bool)
    requires rows == (if more then {row} else {}) + rest && row !in rest
    ensures |rows| == |rest| + if more then 1 else 0
  {
  }

  lemma CountStep(row: Row, rest: seq<Row>, client: string)
    ensures var active := row.request.state in {Pending, Approved, Running};
      && CountActive([row] + rest) == CountActive(rest) + (if active then 1 else 0)
      && CountClient([row] + rest, client)
         == CountClient(rest, client) + (if active && row.request.clientId == client then 1 else 0)
  {
    assert ([row] + rest)[1..] == rest;
  }

  lemma NoneActive(client: string)
    ensures CountActive([]) == |ActiveRows([])| && CountClient([], client) == |ActiveOf([], client)|
  {
    assert ActiveRows([]) == {} && ActiveOf([], client) == {};
  }

  lemma FirstIsApart(rows: seq<Row>)
    requires DistinctIds(rows) && rows != []
    ensures rows[0] !in rows[1..] && rows == [rows[0]] + rows[1..] && DistinctIds(rows[1..])
  {
  }

  lemma {:induction false} CountsAreSizes(rows: seq<Row>, client: string)
    requires DistinctIds(rows)
    ensures CountActive(rows) == |ActiveRows(rows)| && CountClient(rows, client) == |ActiveOf(rows, client)|
  {
    hide ActiveRows, ActiveOf, CountActive, CountClient, DistinctIds;
    if rows == [] {
      NoneActive(client);
    } else {
      var row, rest := rows[0], rows[1..];
      FirstIsApart(rows);
      CountsAreSizes(rest, client);
      ActiveStep(row, rest, client);
      CountStep(row, rest, client);
      var active := row.request.state in {Pending, Approved, Running};
      SizeStep(ActiveRows(rows), ActiveRows(rest), row, active);
      SizeStep(ActiveOf(rows, client), ActiveOf(rest, client), row, active && row.request.clientId == client);
    }
  }

  /** A submission is refused exactly with 32 active requests, 8 of its client, or a day that the clock has not got. */
  lemma SubmitRefusedExactly(rows: seq<Row>, call: Call)
    requires DistinctIds(rows) && call.Submit?
    ensures Apply(rows, call).Err? <==>
      |ActiveRows(rows)| >= 32 || |ActiveOf(rows, call.client)| >= 8 || call.now + 86400 > 0xFFFF_FFFF_FFFF_FFFF
  {
    CountsAreSizes(rows, call.client);
    QueueFullUnreachable(rows, call.id, call.client, call.generation, call.target, call.now);
  }

  // ---------- opening ----------

  /** When a waiting request ends: with its approval, or else with the request. */
  function EndOf(r: Request): u64 {
    if r.approvedUntil.Some? && r.approvedUntil.value < r.expiresAt then r.approvedUntil.value else r.expiresAt
  }

  /** Opening leaves no waiting request that has ended, and touches only those. */
  lemma OpeningExpires(rows: seq<Row>, now: u64, i: nat)
    requires i < |rows|
    ensures var before, after := rows[i].request, Expire(rows, now)[i].request;
      && (after.state in {Pending, Approved} ==> now < EndOf(after))
      && (Expire(rows, now)[i] == rows[i]
          || (before.state in {Pending, Approved} && EndOf(before) <= now
              && Expire(rows, now)[i] == rows[i].(request := before.(state := Expired))))
  {
  }

  predicate HexDigits(s: string) { |s| == 64 && forall c | c in s :: c in "0123456789abcdef" }

  /** What a file that opens is certain to hold, whoever wrote it. */
  lemma OpenedMeans(rows: seq<Row>, i: nat)
    requires FileValid(rows) && i < |rows|
    ensures |rows| <= 256
    ensures var row, r := rows[i], rows[i].request;
      && HexDigits(r.id) && HexDigits(row.generation) && HexDigits(r.target.fingerprint)
      && HexDigits(r.target.engineFingerprint) && r.target.engine.valid
      && 0 < |r.clientId| <= 128 && 0 < |r.target.appId| <= 128 && 0 < Bytes(r.target.displayName) <= 256
      && r.requestedAt < r.expiresAt <= r.requestedAt + 86400
      && (r.approvedUntil.Some? ==> r.approvedUntil.value <= r.expiresAt)
      && (r.state in {Approved, Running, Succeeded} ==> r.approvedUntil.Some?)
      && (r.state == Running ==> r.startedAt.Some? && r.operationId.Some?)
      && forall j | 0 <= j < |rows| && j != i :: rows[j].request.id != r.id
  {
    assert RecordValid(rows[i]);
  }
}
