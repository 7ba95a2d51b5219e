/**
 * Whole runs of the mutation queue: every call opens the file afresh, and any write may fail or be
 * cut off by a crash. A ghost log keeps what was durably decided.
 */
module MutationRuns {
  import opened Results
  import opened Text
  import opened MutationQueue

  datatype Call =
    | Submit(id: string, client: string, generation: string, target: Target, now: u64)
    | Decide(id: string, generation: string, target: Target, approve: bool, now: u64)
    | Claim(id: string, client: string, generation: string, target: Target, operationId: u64, now: u64)
    | Cancel(id: string, client: string, generation: string)
    | Finish(id: string, completion: Completion)
    | Progress(id: string, stage: Option<string>)
    | Look(id: string)

  function Apply(rows: seq<Row>, call: Call): Change {
    match call
    case Submit(id, client, generation, target, now) => SubmitRows(rows, id, client, generation, target, now)
    case Decide(id, generation, target, approve, now) => DecideRows(rows, id, generation, target, approve, now)
    case Claim(id, client, generation, target, operation, now) =>
      ClaimRows(rows, id, client, generation, target, operation, now)
    case Cancel(id, client, generation) => CancelRows(rows, id, client, generation)
    case Finish(id, completion) => FinishRows(rows, id, completion)
    case Progress(id, stage) => ProgressRows(rows, id, stage)
    case Look(id) => LookRows(rows, id)
  }

  /** One durable fact: what was asked of a request, and saved. Reading one leaves no trace. */
  datatype Fact =
    | Submitted(id: string, client: string, generation: string, target: Target, at: u64)
    | Granted(id: string, generation: string, target: Target, at: u64, until: u64)
    | Refused(id: string)
    | Taken(id: string, client: string, generation: string, target: Target, at: u64, operation: u64)
    | Withdrawn(id: string, client: string, generation: string)
    | Finished(id: string, completion: Completion)
    | Staged(id: string, stage: Option<string>)

  function Facts(call: Call, request: Request): seq<Fact> {
    match call
    case Submit(id, client, generation, target, now) => [Submitted(id, client, generation, target, now)]
    case Decide(id, generation, target, approve, now) =>
      if !approve then [Refused(id)]
      else if request.approvedUntil.Some? then [Granted(id, generation, target, now, request.approvedUntil.value)] else []
    case Claim(id, client, generation, target, operation, now) => [Taken(id, client, generation, target, now, operation)]
    case Cancel(id, client, generation) => [Withdrawn(id, client, generation)]
    case Finish(id, completion) => [Finished(id, completion)]
    case Progress(id, stage) => [Staged(id, stage)]
    case Look(_) => []
  }

  datatype World = World(rows: seq<Row>, log: seq<Fact>)

  /** A call: when the file was current, and whether the two writes it may make succeed. */
  datatype Event = Event(openedAt: u64, openSaves: bool, call: Call, saves: bool)

  ghost function Step(w: World, e: Event): World {
    var current := Expire(w.rows, e.openedAt);
    if !FileValid(w.rows) || (current != w.rows && !e.openSaves) then w
    else match Apply(current, e.call)
      case Err(_) => World(current, w.log)
      case Ok((rows, request)) =>
        if e.saves then World(rows, w.log + Facts(e.call, request)) else World(current, w.log)
  }

  ghost function Run(events: seq<Event>): World {
    if events == [] then World([], []) else Step(Run(events[..|events| - 1]), events[|events| - 1])
  }

  ghost predicate NeverSubmitted(log: seq<Fact>, id: string) {
    forall f | f in log && f.Submitted? :: f.id != id
  }

  /**
   * Request ids that are never drawn twice, and arguments that a stored row may have. The callers check all
   * of these but the length of the display name; `SubmissionValidExactly` says what that costs.
   */
  ghost predicate Allowed(w: World, call: Call) {
    match call
    case Submit(id, client, generation, target, _) =>
      && DigestValid(id) && IdValid(client) && DigestValid(generation) && TargetValid(target)
      && NeverSubmitted(w.log, id)
    case Progress(_, stage) => StageValid(stage)
    case _ => true
  }

  ghost predicate Proper(events: seq<Event>) {
    events != [] ==>
      var front, last := events[..|events| - 1], events[|events| - 1];
      Proper(front) && Allowed(Run(front), last.call)
  }

  // ---------- the invariant ----------

  ghost predicate Untaken(log: seq<Fact>, id: string) {
    forall f | f in log && f.Taken? :: f.id != id
  }

  ghost predicate GrantedAs(log: seq<Fact>, id: string, generation: string, target: Target, until: u64, expiresAt: u64) {
    exists f | f in log :: f.Granted? && f.id == id && f.generation == generation && f.target == target
                           && f.until == until == ApprovalEnd(f.at, expiresAt)
  }

  /** A row is what the log says it should be. */
  ghost predicate Traced(row: Row, log: seq<Fact>) {
    var r := row.request;
    && r.expiresAt == r.requestedAt + REQUEST_SECONDS
    && Submitted(r.id, r.clientId, row.generation, r.target, r.requestedAt) in log
    && (r.approvedUntil.Some? ==>
         GrantedAs(log, r.id, row.generation, r.target, r.approvedUntil.value, r.expiresAt))
    && (r.state.Pending? || r.state.Approved? ==> Untaken(log, r.id))
  }

  /** What must have come before a fact. */
  ghost predicate Justified(log: seq<Fact>, f: Fact) {
    match f
    case Submitted(id, _, _, _, _) => NeverSubmitted(log, id)
    case Granted(id, generation, target, at, until) =>
      exists s | s in log :: s.Submitted? && s.id == id && s.generation == generation && s.target == target
                             && s.at + REQUEST_SECONDS <= U64_MAX && until == ApprovalEnd(at, s.at + REQUEST_SECONDS)
    case Taken(id, client, generation, target, at, _) =>
      && Untaken(log, id)
      && exists s, g | s in log && g in log ::
           && s.Submitted? && g.Granted?
           && s == Submitted(id, client, generation, target, s.at) && s.at + REQUEST_SECONDS <= U64_MAX
           && g == Granted(id, generation, target, g.at, g.until)
           && at < g.until == ApprovalEnd(g.at, s.at + REQUEST_SECONDS)
    case Withdrawn(id, client, generation) =>
      exists s | s in log :: s.Submitted? && s.id == id && s.client == client && s.generation == generation
    case _ => !NeverSubmitted(log, f.id)
  }

  ghost predicate Sound(log: seq<Fact>) {
    log != [] ==> Sound(log[..|log| - 1]) && Justified(log[..|log| - 1], log[|log| - 1])
  }

  /** At most 32 active requests, 8 of them per client. */
  ghost predicate WithinQuotas(rows: seq<Row>) {
    CountActive(rows) <= MAX_ACTIVE && forall client :: CountClient(rows, client) <= MAX_CLIENT_ACTIVE
  }

  ghost predicate Inv(w: World) {
    && FileValid(w.rows)
    && WithinQuotas(w.rows)
    && Sound(w.log)
    && forall i | 0 <= i < |w.rows| :: Traced(w.rows[i], w.log)
  }

  /** One call on the real queue object does to the file what a step of a run does. */
  method Serve(file: QueueFile, e: Event, ghost log: seq<Fact>)
    modifies file
    ensures file.rows == Step(World(old(file.rows), log), e).rows
  {
    hide FileValid, Expire;
    var queue := Queue.Open(file, e.openedAt, e.openSaves);
    if queue.Some? {
      match e.call {
        case Submit(id, client, generation, target, now) =>
          var _ := queue.value.Submit(id, client, generation, target, now, e.saves);
        case Decide(id, generation, target, approve, now) =>
          var _ := queue.value.Decide(id, generation, target, approve, now, e.saves);
        case Claim(id, client, generation, target, operation, now) =>
          var _ := queue.value.Claim(id, client, generation, target, operation, now, e.saves);
        case Cancel(id, client, generation) =>
          var _ := queue.value.Cancel(id, client, generation, e.saves);
        case Finish(id, completion) =>
          var _ := queue.value.Finish(id, completion, e.saves);
        case Progress(id, stage) =>
          var _ := queue.value.RecordProgress(id, stage, e.saves);
        case Look(id) =>
          LookChangesNothing(queue.value.rows, id);
          var _ := queue.value.Look(id);
      }
    }
  }

  // ---------- counting ----------

  lemma {:induction false} CountsConcat(a: seq<Row>, b: seq<Row>, client: string)
    ensures CountActive(a + b) == CountActive(a) + CountActive(b)
    ensures CountClient(a + b, client) == CountClient(a, client) + CountClient(b, client)
  {
    if a == [] {
      assert a + b == b;
    } else {
      assert (a + b)[0] == a[0] && (a + b)[1..] == a[1..] + b;
      CountsConcat(a[1..], b, client);
    }
  }

  lemma {:induction false} AllActiveCount(rows: seq<Row>)
    requires forall i | 0 <= i < |rows| :: Active(rows[i].request.state)
    ensures CountActive(rows) == |rows|
  {
    if rows != [] {
      AllActiveCount(rows[1..]);
    }
  }

  /** Below the quota of active requests a full queue always has a row to evict: `QueueFull` cannot happen. */
  lemma QueueFullUnreachable(rows: seq<Row>, id: string, client: string, generation: string, target: Target, now: u64)
    ensures SubmitRows(rows, id, client, generation, target, now) != Err(QueueFull)
  {
    if FirstInactive(rows).None? {
      AllActiveCount(rows);
    }
  }

  /** The rows shrink, or a row loses its claim to be active. */
  lemma {:induction false} CountsFall(rows: seq<Row>, rows': seq<Row>, client: string)
    requires |rows| == |rows'|
    requires forall i | 0 <= i < |rows| :: rows'[i].request.clientId == rows[i].request.clientId
    requires forall i | 0 <= i < |rows| :: Active(rows'[i].request.state) ==> Active(rows[i].request.state)
    ensures CountActive(rows') <= CountActive(rows)
    ensures CountClient(rows', client) <= CountClient(rows, client)
  {
    if rows != [] {
      CountsFall(rows[1..], rows'[1..], client);
    }
  }

  lemma QuotasFall(rows: seq<Row>, rows': seq<Row>)
    requires WithinQuotas(rows) && |rows| == |rows'|
    requires forall i | 0 <= i < |rows| :: rows'[i].request.clientId == rows[i].request.clientId
    requires forall i | 0 <= i < |rows| :: Active(rows'[i].request.state) ==> Active(rows[i].request.state)
    ensures WithinQuotas(rows')
  {
    CountsFall(rows, rows', "");
    forall client ensures CountClient(rows', client) <= MAX_CLIENT_ACTIVE {
      CountsFall(rows, rows', client);
    }
  }

  // ---------- preservation ----------

  lemma OpenKeepsInv(w: World, now: u64)
    requires Inv(w)
    ensures Inv(World(Expire(w.rows, now), w.log))
  {
    hide Sound, GrantedAs, Untaken, TargetValid, WithinQuotas, DigestValid, IdValid;
    var rows := Expire(w.rows, now);
    forall i | 0 <= i < |rows| ensures RecordValid(rows[i]) && Traced(rows[i], w.log) {
      assert RecordValid(w.rows[i]) && Traced(w.rows[i], w.log);
    }
    QuotasFall(w.rows, rows);
  }

  /** New facts about one id leave the rows of every other id traced. */
  lemma TracedAfter(row: Row, log: seq<Fact>, facts: seq<Fact>, id: string)
    requires Traced(row, log) && row.request.id != id && forall f | f in facts :: f.id == id
    ensures Traced(row, log + facts)
  {
    assert forall f :: f in log + facts <==> f in log || f in facts;
  }

  lemma SoundAfter(log: seq<Fact>, f: Fact)
    requires Sound(log) && Justified(log, f)
    ensures Sound(log + [f])
  {
    assert (log + [f])[..|log|] == log;
  }

  /** Replacing the request of one row, without reviving it, keeps the invariant. */
  lemma UpdateKeepsInv(w: World, i: nat, request: Request, facts: seq<Fact>)
    requires Inv(w) && i < |w.rows|
    requires var row := w.rows[i].(request := request);
      && request.id == w.rows[i].request.id && request.clientId == w.rows[i].request.clientId
      && (Active(request.state) ==> Active(w.rows[i].request.state))
      && RecordValid(row) && Traced(row, w.log + facts)
    requires Sound(w.log + facts) && forall f | f in facts :: f.id == request.id
    ensures Inv(World(w.rows[i := w.rows[i].(request := request)], w.log + facts))
  {
    hide Sound, Traced, RecordValid, WithinQuotas;
    var rows := w.rows[i := w.rows[i].(request := request)];
    forall j | 0 <= j < |rows| ensures RecordValid(rows[j]) && Traced(rows[j], w.log + facts) {
      if j != i {
        assert rows[j].request.id != request.id;
        TracedAfter(rows[j], w.log, facts, request.id);
      }
    }
    QuotasFall(w.rows, rows);
  }

  ghost predicate Keeps(w: World, call: Call) {
    var change := Apply(w.rows, call);
    change.Ok? ==> Inv(World(change.value.0, w.log + Facts(call, change.value.1)))
  }

  lemma FindsRow(w: World, id: string) returns (i: nat)
    requires Inv(w) && Find(w.rows, id).Some?
    ensures i == Find(w.rows, id).value < |w.rows| && w.rows[i].request.id == id
    ensures RecordValid(w.rows[i]) && Traced(w.rows[i], w.log)
  {
    i := Find(w.rows, id).value;
  }

  /** A fact that concerns no approval or claim keeps the row it is about traced. */
  lemma NotedKeepsInv(w: World, i: nat, request: Request, f: Fact)
    requires Inv(w) && i < |w.rows| && (f.Refused? || f.Withdrawn? || f.Finished? || f.Staged?)
    requires var row := w.rows[i].(request := request);
      && f.id == request.id == w.rows[i].request.id && request.clientId == w.rows[i].request.clientId
      && (Active(request.state) ==> Active(w.rows[i].request.state))
      && RecordValid(row) && Traced(row, w.log) && (f.Withdrawn? ==> f.client == request.clientId && f.generation == row.generation)
    ensures Inv(World(w.rows[i := w.rows[i].(request := request)], w.log + [f]))
  {
    hide Sound, GrantedAs, TargetValid, DigestValid, IdValid, WithinQuotas;
    var row := w.rows[i].(request := request);
    var s := Submitted(request.id, request.clientId, row.generation, request.target, request.requestedAt);
    assert s in w.log && s.Submitted?;
    assert forall g :: g in w.log + [f] <==> g in w.log || g == f;
    NotedKeepsTraced(row, w.log, f);
    InvSound(w);
    SoundAfter(w.log, f);
    UpdateKeepsInv(w, i, request, [f]);
  }

  lemma NotedKeepsTraced(row: Row, log: seq<Fact>, f: Fact)
    requires Traced(row, log) && !f.Granted? && !f.Taken?
    ensures Traced(row, log + [f])
  {
    assert forall g :: g in log + [f] <==> g in log || g == f;
  }

  lemma CancelKeepsInv(w: World, call: Call)
    requires Inv(w) && call.Cancel?
    ensures Keeps(w, call)
  {
    hide Inv, Sound, GrantedAs, Untaken, TargetValid, DigestValid, IdValid;
    if Apply(w.rows, call).Ok? {
      var i := FindsRow(w, call.id);
      NotedKeepsInv(w, i, Apply(w.rows, call).value.1, Withdrawn(call.id, call.client, call.generation));
    }
  }

  lemma FinishKeepsInv(w: World, call: Call)
    requires Inv(w) && call.Finish?
    ensures Keeps(w, call)
  {
    hide Inv, Sound, GrantedAs, Untaken, TargetValid, DigestValid, IdValid;
    if Apply(w.rows, call).Ok? {
      var i := FindsRow(w, call.id);
      NotedKeepsInv(w, i, Apply(w.rows, call).value.1, Finished(call.id, call.completion));
    }
  }

  lemma ProgressKeepsInv(w: World, call: Call)
    requires Inv(w) && call.Progress? && StageValid(call.stage)
    ensures Keeps(w, call)
  {
    hide Inv, Sound, GrantedAs, Untaken, TargetValid, DigestValid, IdValid, StageValid;
    if Apply(w.rows, call).Ok? {
      var i := FindsRow(w, call.id);
      NotedKeepsInv(w, i, Apply(w.rows, call).value.1, Staged(call.id, call.stage));
    }
  }

  lemma LookKeepsInv(w: World, call: Call)
    requires Inv(w) && call.Look?
    ensures Keeps(w, call)
  {
    hide Inv;
    if Apply(w.rows, call).Ok? {
      LookChangesNothing(w.rows, call.id);
      assert w.log + [] == w.log;
    }
  }

  lemma DecideKeepsInv(w: World, call: Call)
    requires Inv(w) && call.Decide?
    ensures Keeps(w, call)
  {
    hide Inv, Sound, TargetValid, DigestValid, IdValid, StageValid;
    if Apply(w.rows, call).Ok? {
      var i := FindsRow(w, call.id);
      var before, request := w.rows[i], Apply(w.rows, call).value.1;
      if !call.approve {
        NotedKeepsInv(w, i, request, Refused(call.id));
      } else {
        var f := Granted(call.id, call.generation, call.target, call.now, request.approvedUntil.value);
        var s := Submitted(call.id, before.request.clientId, call.generation, call.target, before.request.requestedAt);
        assert s in w.log;
        InvSound(w);
        SoundAfter(w.log, f);
        assert f in w.log + [f] && s in w.log + [f];
        assert Untaken(w.log + [f], call.id);
        assert GrantedAs(w.log + [f], call.id, call.generation, call.target, f.until, request.expiresAt);
        UpdateKeepsInv(w, i, request, [f]);
      }
    }
  }

  lemma InvSound(w: World)
    requires Inv(w)
    ensures Sound(w.log)
  {
  }

  lemma ClaimKeepsInv(w: World, call: Call)
    requires Inv(w) && call.Claim?
    ensures Keeps(w, call)
  {
    hide Inv, Sound, TargetValid, DigestValid, IdValid, StageValid;
    if Apply(w.rows, call).Ok? {
      var i := FindsRow(w, call.id);
      var before, request := w.rows[i].request, Apply(w.rows, call).value.1;
      var f := Taken(call.id, call.client, call.generation, call.target, call.now, call.operationId);
      var s := Submitted(call.id, call.client, call.generation, call.target, before.requestedAt);
      var g :| g in w.log && g.Granted? && g.id == call.id && g.generation == call.generation
               && g.target == call.target && g.until == before.approvedUntil.value
               && g.until == ApprovalEnd(g.at, before.expiresAt);
      assert s in w.log;
      InvSound(w);
      SoundAfter(w.log, f);
      assert g in w.log + [f] && s in w.log + [f];
      assert GrantedAs(w.log + [f], call.id, call.generation, call.target, g.until, request.expiresAt);
      UpdateKeepsInv(w, i, request, [f]);
    }
  }

  /** The rows that stay when a new one is filed. */
  ghost function Kept(rows: seq<Row>): seq<Row>
    requires |rows| == MAX_ROWS ==> FirstInactive(rows).Some?
  {
    if |rows| == MAX_ROWS then var i := FirstInactive(rows).value; rows[..i] + rows[i + 1..] else rows
  }

  /** Making room evicts one row that is not active and keeps the others in their order. */
  lemma EvictionIsHarmless(rows: seq<Row>, client: string)
    requires |rows| <= MAX_ROWS && (|rows| == MAX_ROWS ==> FirstInactive(rows).Some?)
    ensures |Kept(rows)| < MAX_ROWS
    ensures CountActive(Kept(rows)) == CountActive(rows) && CountClient(Kept(rows), client) == CountClient(rows, client)
    ensures |rows| == MAX_ROWS ==> exists i | 0 <= i < |rows| ::
      !Active(rows[i].request.state) && Kept(rows) == rows[..i] + rows[i + 1..]
  {
    if |rows| == MAX_ROWS {
      var i := FirstInactive(rows).value;
      var gone := [rows[i]];
      assert rows == rows[..i] + (gone + rows[i + 1..]);
      CountsConcat(rows[..i], gone + rows[i + 1..], client);
      CountsConcat(gone, rows[i + 1..], client);
      CountsConcat(rows[..i], rows[i + 1..], client);
      assert CountActive(gone) == 0 && CountClient(gone, client) == 0;
    }
  }

  lemma KeptRow(rows: seq<Row>, j: nat) returns (i: nat)
    requires |rows| == MAX_ROWS ==> FirstInactive(rows).Some?
    requires j < |Kept(rows)|
    ensures i < |rows| && Kept(rows)[j] == rows[i]
    ensures i == if |rows| == MAX_ROWS && j >= FirstInactive(rows).value then j + 1 else j
  {
    i := if |rows| == MAX_ROWS && j >= FirstInactive(rows).value then j + 1 else j;
  }

  lemma SubmitKeepsInv(w: World, call: Call)
    requires Inv(w) && call.Submit? && Allowed(w, call)
    ensures Keeps(w, call)
  {
    hide Sound, TargetValid, DigestValid, IdValid, StageValid, Traced, CountActive, CountClient, Kept, RecordValid;
    if Apply(w.rows, call).Ok? {
      var kept := Kept(w.rows);
      var row := Row(NewRequest(call.id, call.client, call.target, call.now), call.generation);
      var f := Submitted(call.id, call.client, call.generation, call.target, call.now);
      SubmittedRows(w.rows, call);
      NewRowFits(w, call);
      SoundAfter(w.log, f);
      forall client ensures CountClient(kept + [row], client) <= MAX_CLIENT_ACTIVE && CountActive(kept + [row]) <= MAX_ACTIVE {
        NewRowWithinQuotas(w.rows, kept, row, call.client, client);
      }
      forall j | 0 <= j < |kept + [row]|
        ensures RecordValid((kept + [row])[j]) && Traced((kept + [row])[j], w.log + [f])
        ensures j < |kept| ==> kept[j].request.id != call.id
      {
        if j < |kept| {
          var i := KeptRow(w.rows, j);
          RowWasSubmitted(w, i);
          TracedAfter(w.rows[i], w.log, [f], call.id);
        }
      }
      forall j, k | 0 <= j < k < |kept + [row]|
        ensures (kept + [row])[j].request.id != (kept + [row])[k].request.id
      {
        if k < |kept| {
          var a := KeptRow(w.rows, j);
          var b := KeptRow(w.rows, k);
        }
      }
      EvictionIsHarmless(w.rows, call.client);
      assert DistinctIds(kept + [row]);
      assert FileValid(kept + [row]);
      assert WithinQuotas(kept + [row]) by { var c := ""; assert CountClient(kept + [row], c) <= MAX_CLIENT_ACTIVE; }
      assert Inv(World(kept + [row], w.log + [f]));
      assert Facts(call, row.request) == [f];
    }
  }

  lemma SubmittedRows(rows: seq<Row>, call: Call)
    requires call.Submit? && Apply(rows, call).Ok?
    ensures call.now + REQUEST_SECONDS <= U64_MAX
    ensures |rows| == MAX_ROWS ==> FirstInactive(rows).Some?
    ensures CountActive(rows) < MAX_ACTIVE && CountClient(rows, call.client) < MAX_CLIENT_ACTIVE
    ensures var request := NewRequest(call.id, call.client, call.target, call.now);
      Apply(rows, call).value == (Kept(rows) + [Row(request, call.generation)], request)
  {
  }

  lemma NewRowFits(w: World, call: Call)
    requires call.Submit? && Allowed(w, call) && call.now + REQUEST_SECONDS <= U64_MAX
    ensures var row := Row(NewRequest(call.id, call.client, call.target, call.now), call.generation);
      RecordValid(row)
      && (Inv(w) ==> Traced(row, w.log + [Submitted(call.id, call.client, call.generation, call.target, call.now)]))
  {
    hide TargetValid, DigestValid, IdValid, FileValid, WithinQuotas, GrantedAs;
    if Inv(w) {
      InvSound(w);
      NoClaimBeforeSubmission(w.log, call.id);
    }
  }

  lemma RowWasSubmitted(w: World, i: nat)
    requires Inv(w) && i < |w.rows|
    ensures RecordValid(w.rows[i]) && Traced(w.rows[i], w.log)
    ensures !NeverSubmitted(w.log, w.rows[i].request.id)
  {
    assert Traced(w.rows[i], w.log);
  }

  lemma NewRowWithinQuotas(rows: seq<Row>, kept: seq<Row>, row: Row, filer: string, client: string)
    requires |rows| <= MAX_ROWS && (|rows| == MAX_ROWS ==> FirstInactive(rows).Some?) && kept == Kept(rows)
    requires CountActive(rows) < MAX_ACTIVE && CountClient(rows, filer) < MAX_CLIENT_ACTIVE
    requires CountClient(rows, client) <= MAX_CLIENT_ACTIVE && row.request.clientId == filer
    ensures CountClient(kept + [row], client) <= MAX_CLIENT_ACTIVE && CountActive(kept + [row]) <= MAX_ACTIVE
  {
    EvictionIsHarmless(rows, client);
    CountsConcat(kept, [row], client);
    hide Kept;
    assert CountActive([row]) <= 1 && CountClient([row], client) <= if client == filer then 1 else 0;
  }

  /** In a sound log nobody takes a request before it is submitted. */
  lemma {:induction false} NoClaimBeforeSubmission(log: seq<Fact>, id: string)
    requires Sound(log) && NeverSubmitted(log, id)
    ensures Untaken(log, id)
  {
    if log != [] {
      var front, last := log[..|log| - 1], log[|log| - 1];
      assert forall f | f in front :: f in log;
      NoClaimBeforeSubmission(front, id);
      assert log == front + [last];
    }
  }

  lemma StepKeepsInv(w: World, e: Event)
    requires Inv(w) && Allowed(w, e.call)
    ensures Inv(Step(w, e))
  {
    hide Inv, Apply, FileValid;
    var current := World(Expire(w.rows, e.openedAt), w.log);
    OpenKeepsInv(w, e.openedAt);
    match e.call
    case Submit(_, _, _, _, _) => SubmitKeepsInv(current, e.call);
    case Decide(_, _, _, _, _) => DecideKeepsInv(current, e.call);
    case Claim(_, _, _, _, _, _) => ClaimKeepsInv(current, e.call);
    case Cancel(_, _, _) => CancelKeepsInv(current, e.call);
    case Finish(_, _) => FinishKeepsInv(current, e.call);
    case Progress(_, _) => ProgressKeepsInv(current, e.call);
    case Look(_) => LookKeepsInv(current, e.call);
  }

  /**
   * A saved submission leaves a file that can be opened again exactly when its target is one that opening
   * admits. After any other, every call leaves the file as it is.
   */
  lemma SubmissionValidExactly(w: World, call: Call)
    requires Inv(w) && call.Submit? && Apply(w.rows, call).Ok? && NeverSubmitted(w.log, call.id)
    requires DigestValid(call.id) && IdValid(call.client) && DigestValid(call.generation)
    ensures var rows := Apply(w.rows, call).value.0;
      && (FileValid(rows) <==> TargetValid(call.target))
      && (!TargetValid(call.target) ==> forall e, log :: Step(World(rows, log), e) == World(rows, log))
  {
    hide Inv, TargetValid, DigestValid, IdValid;
    if TargetValid(call.target) {
      SubmitKeepsInv(w, call);
      KeptIsValid(w, call);
    } else {
      SubmittedRows(w.rows, call);
      var rows := Apply(w.rows, call).value.0;
      assert !RecordValid(rows[|rows| - 1]);
      hide Apply, RecordValid, Kept;
      assert !FileValid(rows);
    }
  }

  lemma KeptIsValid(w: World, call: Call)
    requires Apply(w.rows, call).Ok? && Keeps(w, call)
    ensures FileValid(Apply(w.rows, call).value.0)
  {
  }

  /** The first submission with an overlong display name spoils the file for good. */
  lemma LongNameSpoilsFile(id: string, client: string, generation: string, target: Target, now: u64, e: Event)
    requires DigestValid(id) && IdValid(client) && DigestValid(generation) && now + REQUEST_SECONDS <= U64_MAX
    requires Bytes(target.displayName) > 256
    ensures var w := Step(World([], []), Event(now, true, Submit(id, client, generation, target, now), true));
      |w.rows| == 1 && w.rows[0].request.target == target && Step(w, e) == w
  {
    hide DigestValid, IdValid, Bytes;
    var call := Submit(id, client, generation, target, now);
    InitialInv();
    assert Expire([], now) == [];
    SubmissionValidExactly(World([], []), call);
    SubmittedRows([], call);
  }

  /**
   * Persistence is closed: after any run, what is stored passes the validation that the next
   * opening performs, the quotas hold, and every row is accounted for by the log.
   */
  lemma {:induction false} RunKeepsInv(events: seq<Event>)
    requires Proper(events)
    ensures Inv(Run(events))
  {
    hide Inv, Step, Allowed;
    if events == [] {
      InitialInv();
    } else {
      RunKeepsInv(events[..|events| - 1]);
      StepKeepsInv(Run(events[..|events| - 1]), events[|events| - 1]);
    }
  }

  lemma InitialInv()
    ensures Inv(World([], []))
  {
  }

  // ---------- what holds over every run ----------

  lemma {:induction false} SoundAt(log: seq<Fact>, j: nat)
    requires Sound(log) && j < |log|
    ensures Justified(log[..j], log[j])
  {
    var front := log[..|log| - 1];
    if j < |front| {
      SoundAt(front, j);
      assert front[..j] == log[..j] && front[j] == log[j];
    }
  }

  /** A request is claimed at most once in any run. */
  lemma ClaimedAtMostOnce(events: seq<Event>, i: nat, j: nat)
    requires Proper(events) && i < j < |Run(events).log|
    requires Run(events).log[i].Taken? && Run(events).log[j].Taken?
    ensures Run(events).log[i].id != Run(events).log[j].id
  {
    hide Run, Proper, FileValid, WithinQuotas, Traced;
    var log := Run(events).log;
    RunKeepsInv(events);
    SoundAt(log, j);
    assert log[..j][i] in log[..j];
  }

  /**
   * Every claim in any run follows an owner approval of the same id, target and credential
   * generation, which follows the client's own submission; and it happens before the approval ends,
   * which is ten minutes after it was given, or a day after the submission if that is earlier.
   */
  lemma ClaimFollowsApproval(events: seq<Event>, k: nat) returns (i: nat, j: nat)
    requires Proper(events) && k < |Run(events).log| && Run(events).log[k].Taken?
    ensures i < j < k
    ensures var log := Run(events).log;
      && log[i].Submitted? && log[i].id == log[k].id && log[i].client == log[k].client
      && log[i].generation == log[k].generation && log[i].target == log[k].target
      && log[j].Granted? && log[j].id == log[k].id
      && log[j].generation == log[k].generation && log[j].target == log[k].target
      && log[k].at < log[j].until == if log[j].at + 600 < log[i].at + 86400 then log[j].at + 600 else log[i].at + 86400
  {
    hide Run, Proper, FileValid, WithinQuotas, Traced;
    var log := Run(events).log;
    RunKeepsInv(events);
    SoundAt(log, k);
    var s, g :| s in log[..k] && g in log[..k]
      && s.Submitted? && g.Granted?
      && s == Submitted(log[k].id, log[k].client, log[k].generation, log[k].target, s.at) && s.at + REQUEST_SECONDS <= U64_MAX
      && g == Granted(log[k].id, log[k].generation, log[k].target, g.at, g.until)
      && log[k].at < g.until == ApprovalEnd(g.at, s.at + REQUEST_SECONDS);
    j :| 0 <= j < k && log[j] == g;
    SoundAt(log, j);
    var s' :| s' in log[..j] && s'.Submitted? && s'.id == log[j].id;
    i :| 0 <= i < j && log[i] == s';
    var i' :| 0 <= i' < k && log[i'] == s;
    SubmittedOnce(log, i, i');
  }

  lemma SubmittedOnce(log: seq<Fact>, i: nat, j: nat)
    requires Sound(log) && i < |log| && j < |log| && log[i].Submitted? && log[j].Submitted? && log[i].id == log[j].id
    ensures i == j
  {
    var a, b := if i < j then i else j, if i < j then j else i;
    assert a < b ==> log[..b][a] in log[..b];
    SoundAt(log, b);
  }

  /** One durable change of state. */
  predicate Edge(a: State, b: State) {
    || a == b
    || (a.Pending? && (b.Approved? || b.Denied? || b.Cancelled? || b.Expired?))
    || (a.Approved? && (b.Running? || b.Cancelled? || b.Expired?))
    || (a.Running? && (b.Succeeded? || b.Failed? || b.Cancelled?))
  }

  /** Some chain of edges. */
  predicate Reaches(a: State, b: State) {
    || Edge(a, b)
    || (a.Pending? && (b.Running? || b.Succeeded? || b.Failed?))
    || (a.Approved? && (b.Succeeded? || b.Failed?))
  }

  lemma ReachesIsEdges(a: State, b: State, c: State)
    ensures Reaches(a, b) && Edge(b, c) ==> Reaches(a, c)
    ensures Reaches(a, c) ==> exists x, y | Edge(a, x) && Edge(x, y) :: Edge(y, c)
  {
    if Reaches(a, c) && !Edge(a, c) {
      assert Edge(a, Approved) && Edge(Approved, Running) && Edge(Running, c);
    } else if Reaches(a, c) {
      assert Edge(a, a) && Edge(a, a) && Edge(a, c);
    }
  }

  /** The parts of a row that no operation may change. */
  predicate SameIdentity(a: Row, b: Row) {
    && a.generation == b.generation
    && a.request.id == b.request.id && a.request.clientId == b.request.clientId
    && a.request.target == b.request.target
    && a.request.requestedAt == b.request.requestedAt && a.request.expiresAt == b.request.expiresAt
  }

  /** What one call does to a row that is there before and after it: at most one expiry and one edge. */
  ghost predicate Moved(a: Row, b: Row) {
    SameIdentity(a, b) && exists mid | Edge(a.request.state, mid) :: Edge(mid, b.request.state)
  }

  lemma UpdatedMoves(rows: seq<Row>, k: nat, request: Request, i: nat, j: nat)
    requires DistinctIds(rows) && k < |rows| && i < |rows| && j < |rows|
    requires SameIdentity(rows[k], rows[k].(request := request)) && Edge(rows[k].request.state, request.state)
    requires rows[i].request.id == rows[k := rows[k].(request := request)][j].request.id
    ensures SameIdentity(rows[i], rows[k := rows[k].(request := request)][j])
    ensures Edge(rows[i].request.state, rows[k := rows[k].(request := request)][j].request.state)
  {
    hide SameIdentity, Edge;
    assert rows[k := rows[k].(request := request)][j].request.id == rows[j].request.id by {
      assert SameIdentity(rows[k], rows[k].(request := request));
      SameId(rows[k], rows[k].(request := request));
    }
    assert i == j;
    Unmoved(rows[i]);
  }

  lemma SameId(a: Row, b: Row)
    requires SameIdentity(a, b)
    ensures a.request.id == b.request.id
  {
  }

  lemma Unmoved(row: Row)
    ensures SameIdentity(row, row) && Edge(row.request.state, row.request.state)
  {
  }

  lemma UpdateIsEdge(rows: seq<Row>, call: Call) returns (k: nat)
    requires Apply(rows, call).Ok? && !call.Submit?
    ensures k < |rows|
    ensures var request := Apply(rows, call).value.1;
      && Apply(rows, call).value.0 == rows[k := rows[k].(request := request)]
      && SameIdentity(rows[k], rows[k].(request := request)) && Edge(rows[k].request.state, request.state)
  {
    hide Find;
    k := Find(rows, call.id).value;
  }

  lemma ApplyMoves(rows: seq<Row>, call: Call, i: nat, j: nat)
    requires Apply(rows, call).Ok? && DistinctIds(rows)
    requires i < |rows| && j < |Apply(rows, call).value.0|
    requires rows[i].request.id == Apply(rows, call).value.0[j].request.id
    requires call.Submit? ==> call.id != rows[i].request.id
    ensures SameIdentity(rows[i], Apply(rows, call).value.0[j])
    ensures Edge(rows[i].request.state, Apply(rows, call).value.0[j].request.state)
  {
    hide Apply;
    if call.Submit? {
      SubmittedRows(rows, call);
      var k := KeptRow(rows, j);
      hide SameIdentity, Edge, Kept;
      Unmoved(rows[i]);
    } else {
      hide SameIdentity, Edge;
      var k := UpdateIsEdge(rows, call);
      UpdatedMoves(rows, k, Apply(rows, call).value.1, i, j);
    }
  }

  lemma StepMoves(w: World, e: Event, i: nat, j: nat)
    requires Inv(w) && Allowed(w, e.call)
    requires i < |w.rows| && j < |Step(w, e).rows| && w.rows[i].request.id == Step(w, e).rows[j].request.id
    ensures Moved(w.rows[i], Step(w, e).rows[j])
  {
    hide Apply, TimesValid, TargetValid, DigestValid, IdValid, WithinQuotas, Sound, Kept;
    var a, b := w.rows[i], Step(w, e).rows[j];
    var current := Expire(w.rows, e.openedAt);
    assert Edge(a.request.state, current[i].request.state) && SameIdentity(a, current[i]);
    RowWasSubmitted(w, i);
    if Step(w, e).rows == w.rows {
      assert i == j;
      assert Edge(a.request.state, a.request.state) && Edge(a.request.state, b.request.state);
    } else if Step(w, e).rows == current {
      assert i == j;
      assert Edge(b.request.state, b.request.state);
    } else {
      OpenKeepsInv(w, e.openedAt);
      ApplyMoves(current, e.call, i, j);
    }
  }

  lemma {:induction false} LogGrows(events: seq<Event>, k: nat)
    requires k <= |events|
    ensures Run(events[..k]).log <= Run(events).log
  {
    hide Expire, FileValid, Apply, Facts;
    if k == |events| {
      assert events[..k] == events;
    } else {
      var front := events[..|events| - 1];
      LogGrows(front, k);
      assert front[..k] == events[..k];
    }
  }

  /** A row that was not there before a call is the one the call submitted. */
  lemma AppearsBySubmission(w: World, e: Event, j: nat) returns (i: nat)
    requires Inv(w) && j < |Step(w, e).rows|
    ensures (e.call.Submit? && Step(w, e).rows[j].request.id == e.call.id)
         || (i < |w.rows| && w.rows[i].request.id == Step(w, e).rows[j].request.id)
  {
    hide Inv, Apply, Kept, FileValid;
    var current := Expire(w.rows, e.openedAt);
    var changed := Apply(current, e.call);
    i := j;
    if changed.Ok? && Step(w, e).rows == changed.value.0 {
      if e.call.Submit? {
        SubmittedRows(current, e.call);
        if j < |Kept(current)| {
          i := KeptRow(current, j);
        }
      } else {
        var k := UpdateIsEdge(current, e.call);
        SameId(current[k], current[k].(request := changed.value.1));
      }
    }
  }

  lemma {:induction false} ProperPrefix(events: seq<Event>, k: nat)
    requires Proper(events) && k <= |events|
    ensures Proper(events[..k])
  {
    if k == |events| {
      assert events[..k] == events;
    } else {
      ProperPrefix(events[..|events| - 1], k);
      assert events[..|events| - 1][..k] == events[..k];
    }
  }

  /**
   * Between any two moments of a run a request that is still stored has kept its identity and has
   * moved only along the edges of the state machine; in particular no final state is ever left.
   */
  lemma {:induction false} RunMoves(events: seq<Event>, k: nat, i: nat, j: nat)
    requires Proper(events) && k <= |events|
    requires i < |Run(events[..k]).rows| && j < |Run(events).rows|
    requires Run(events[..k]).rows[i].request.id == Run(events).rows[j].request.id
    ensures SameIdentity(Run(events[..k]).rows[i], Run(events).rows[j])
    ensures Reaches(Run(events[..k]).rows[i].request.state, Run(events).rows[j].request.state)
  {
    hide Inv, Step, SameIdentity, Reaches, Edge;
    var past, now := Run(events[..k]), Run(events);
    ProperPrefix(events, k);
    RunKeepsInv(events[..k]);
    RunKeepsInv(events);
    if k == |events| {
      assert events[..k] == events;
      SameRow(now, i, j);
      Unmoved(now.rows[j]);
      StaysReaches(now.rows[j].request.state);
    } else {
      var front, last := events[..|events| - 1], events[|events| - 1];
      var before := Run(front);
      assert front[..k] == events[..k];
      RunKeepsInv(front);
      var m := AppearsBySubmission(before, last, j);
      LogGrows(front, k);
      RowWasSubmitted(past, i);
      assert !NeverSubmitted(before.log, past.rows[i].request.id);
      RunMoves(front, k, i, m);
      StepMoves(before, last, m, j);
      MovedReaches(past.rows[i], before.rows[m], now.rows[j]);
    }
  }

  lemma SameRow(w: World, i: nat, j: nat)
    requires Inv(w) && i < |w.rows| && j < |w.rows| && w.rows[i].request.id == w.rows[j].request.id
    ensures i == j
  {
  }

  lemma StaysReaches(a: State)
    ensures Reaches(a, a)
  {
  }

  lemma MovedReaches(a: Row, b: Row, c: Row)
    requires SameIdentity(a, b) && Reaches(a.request.state, b.request.state) && Moved(b, c)
    ensures SameIdentity(a, c) && Reaches(a.request.state, c.request.state)
  {
  }
}
