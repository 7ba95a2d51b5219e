/**
 * Executing an approved request: several processes authenticate, look, check and claim, while owners
 * enroll and revoke clients in a store with its own lock. Any call may stop for good between two steps.
 */
module MutationExecution {
  import opened Results
  import opened Text
  import opened MutationQueue
  import opened Credentials
  import R = MutationRuns

  /** How far a call, and then its worker, has come. From the claim to the audit it keeps the queue locked. */
  datatype Job =
    | Authenticated(client: string, generation: string, id: string)
    | Admitted(client: string, generation: string, id: string)
    | Checked(client: string, generation: string, id: string)
    | Claimed(client: string, generation: string, id: string, openedAt: u64)
    | Audited(client: string, generation: string, id: string)
    | Working(client: string, generation: string, id: string)

  /** The credentials, the queue, the calls in progress, and the requests whose workers were started. */
  datatype World = World(creds: Credentials.Holders, queue: R.World, jobs: map<nat, Job>,
                         lock: Option<nat>, started: seq<string>)

  datatype Event =
    | Enroll(client: string, generation: string)
    | Revoke(client: string)
    | Other(call: R.Event)
    | Authenticate(pid: nat, client: string, id: string)
    | Status(pid: nat, openedAt: u64, openSaves: bool)
    | Check(pid: nat)
    | Claim(pid: nat, openedAt: u64, openSaves: bool, target: Target, operationId: u64, now: u64, saves: bool)
    | Audit(pid: nat, audits: bool, saves: bool)
    | Spawn(pid: nat, spawns: bool, openedAt: u64, openSaves: bool, saves: bool)
    | Finish(pid: nat, completion: Completion, openedAt: u64, openSaves: bool, saves: bool)
    | Halt(pid: nat)

  function TurnOf(e: Event): Turn {
    match e
    case Enroll(client, generation) => Enrolled(client, generation)
    case Revoke(client) => Revoked(client)
    case _ => Kept
  }

  predicate Enabled(w: World, e: Event) {
    match e
    case Enroll(_, _) => Admits(w.creds, TurnOf(e))
    case Revoke(_) => Admits(w.creds, TurnOf(e))
    case Other(call) => w.lock.None? && !call.call.Claim? && !call.call.Finish?
    case Authenticate(pid, client, id) => pid !in w.jobs && client in w.creds.current
    case Status(pid, _, _) =>
      && pid in w.jobs && w.jobs[pid].Authenticated? && Current(w.creds, w.jobs[pid].client, w.jobs[pid].generation)
      && w.lock.None?
    case Check(pid) =>
      pid in w.jobs && w.jobs[pid].Admitted? && Current(w.creds, w.jobs[pid].client, w.jobs[pid].generation)
    case Claim(pid, _, _, _, _, _, _) => pid in w.jobs && w.jobs[pid].Checked? && w.lock.None?
    case Audit(pid, _, _) => pid in w.jobs && w.jobs[pid].Claimed?
    case Spawn(pid, _, _, _, _) => pid in w.jobs && w.jobs[pid].Audited? && w.lock.None?
    case Finish(pid, _, _, _, _) => pid in w.jobs && w.jobs[pid].Working? && w.lock.None?
    case Halt(pid) => pid in w.jobs
  }

  /** The call is over; its locks are released. */
  function Over(w: World, pid: nat): World {
    w.(jobs := w.jobs - {pid}, lock := if w.lock == Some(pid) then None else w.lock)
  }

  function LookEvent(w: World, e: Event): R.Event
    requires Enabled(w, e) && e.Status?
  {
    R.Event(e.openedAt, e.openSaves, R.Look(w.jobs[e.pid].id), true)
  }

  function ClaimEvent(w: World, e: Event): R.Event
    requires Enabled(w, e) && e.Claim?
  {
    var j := w.jobs[e.pid];
    R.Event(e.openedAt, e.openSaves, R.Claim(j.id, j.client, j.generation, e.target, e.operationId, e.now), e.saves)
  }

  /** The queue was opened, and the client's own request is approved. */
  ghost predicate Approves(before: R.World, after: R.World, look: R.Event, j: Job) {
    && FileValid(before.rows) && (look.openSaves || Expire(before.rows, look.openedAt) == before.rows)
    && exists i | 0 <= i < |after.rows| ::
         && after.rows[i].request.id == j.id && after.rows[i].request.clientId == j.client
         && after.rows[i].generation == j.generation && after.rows[i].request.state.Approved?
  }

  /** The claim was saved. */
  ghost predicate Takes(w: World, e: Event)
    requires Enabled(w, e) && e.Claim?
  {
    R.Step(w.queue, ClaimEvent(w, e)).log != w.queue.log
  }

  /** What a failed audit makes of the claimed row, without opening the queue again. */
  ghost function Failed(q: R.World, id: string, saves: bool): R.World {
    match FinishRows(q.rows, id, RuntimeError)
    case Err(_) => q
    case Ok((rows, _)) => if saves then R.World(rows, q.log + [R.Finished(id, RuntimeError)]) else q
  }

  ghost function Act(w: World, e: Event): World
    requires Enabled(w, e)
  {
    match e
    case Enroll(_, _) => w.(creds := Turned(w.creds, TurnOf(e)))
    case Revoke(_) => w.(creds := Turned(w.creds, TurnOf(e)))
    case Other(call) => w.(queue := R.Step(w.queue, call))
    case Authenticate(pid, client, id) => w.(jobs := w.jobs[pid := Authenticated(client, w.creds.current[client], id)])
    case Status(pid, _, _) =>
      var j, after := w.jobs[pid], R.Step(w.queue, LookEvent(w, e));
      if Approves(w.queue, after, LookEvent(w, e), j) then
        w.(queue := after, jobs := w.jobs[pid := Admitted(j.client, j.generation, j.id)])
      else Over(w.(queue := after), pid)
    case Check(pid) =>
      var j := w.jobs[pid];
      w.(jobs := w.jobs[pid := Checked(j.client, j.generation, j.id)])
    case Claim(pid, openedAt, _, _, _, _, _) =>
      var j, after := w.jobs[pid], R.Step(w.queue, ClaimEvent(w, e));
      if Takes(w, e) then
        w.(queue := after, jobs := w.jobs[pid := Claimed(j.client, j.generation, j.id, openedAt)], lock := Some(pid))
      else Over(w.(queue := after), pid)
    case Audit(pid, audits, saves) =>
      var j := w.jobs[pid];
      if audits then w.(jobs := w.jobs[pid := Audited(j.client, j.generation, j.id)], lock := None)
      else Over(w.(queue := Failed(w.queue, j.id, saves)), pid)
    case Spawn(pid, spawns, openedAt, openSaves, saves) =>
      var j := w.jobs[pid];
      if spawns then w.(jobs := w.jobs[pid := Working(j.client, j.generation, j.id)], started := w.started + [j.id])
      else Over(w.(queue := R.Step(w.queue, R.Event(openedAt, openSaves, R.Finish(j.id, RuntimeError), saves))), pid)
    case Finish(pid, completion, openedAt, openSaves, saves) =>
      Over(w.(queue := R.Step(w.queue, R.Event(openedAt, openSaves, R.Finish(w.jobs[pid].id, completion), saves))), pid)
    case Halt(pid) => Over(w, pid)
  }

  ghost function Step(w: World, e: Event): World { if Enabled(w, e) then Act(w, e) else w }

  const START := World(Holders(map[], {}), R.World([], []), map[], None, [])

  ghost function Run(events: seq<Event>): World {
    if events == [] then START else Step(Run(events[..|events| - 1]), events[|events| - 1])
  }

  ghost predicate Proper(events: seq<Event>) {
    events != [] ==>
      var front, last := events[..|events| - 1], events[|events| - 1];
      Proper(front) && (last.Other? ==> R.Allowed(Run(front).queue, last.call.call))
  }

  // ---------- the queue's own run ----------

  /** What the queue sees of one step. */
  function QueueEvents(w: World, e: Event): seq<R.Event> {
    if !Enabled(w, e) then []
    else
      match e
      case Other(call) => [call]
      case Status(_, _, _) => [LookEvent(w, e)]
      case Claim(_, _, _, _, _, _, _) => [ClaimEvent(w, e)]
      case Audit(pid, audits, saves) =>
        var j := w.jobs[pid];
        if audits then [] else [R.Event(j.openedAt, true, R.Finish(j.id, RuntimeError), saves)]
      case Spawn(pid, spawns, openedAt, openSaves, saves) =>
        if spawns then [] else [R.Event(openedAt, openSaves, R.Finish(w.jobs[pid].id, RuntimeError), saves)]
      case Finish(pid, completion, openedAt, openSaves, saves) =>
        [R.Event(openedAt, openSaves, R.Finish(w.jobs[pid].id, completion), saves)]
      case _ => []
  }

  ghost function Projected(events: seq<Event>): seq<R.Event> {
    if events == [] then []
    else
      var front := events[..|events| - 1];
      Projected(front) + QueueEvents(Run(front), events[|events| - 1])
  }

  /** While a claim waits for its audit, the rows are as its opening and its claim left them. */
  ghost predicate LockHeld(w: World) {
    && (forall pid | pid in w.jobs && w.jobs[pid].Claimed? :: w.lock == Some(pid))
    && (w.lock.Some? ==>
         && w.lock.value in w.jobs && w.jobs[w.lock.value].Claimed?
         && Expire(w.queue.rows, w.jobs[w.lock.value].openedAt) == w.queue.rows)
  }

  lemma ExpireTwice(rows: seq<Row>, now: u64)
    ensures Expire(Expire(rows, now), now) == Expire(rows, now)
  {
    assert forall i | 0 <= i < |rows| :: ExpireRow(ExpireRow(rows[i], now), now) == ExpireRow(rows[i], now);
  }

  /** A claimed row does not lapse, so opening again at the same time changes nothing. */
  lemma ClaimedStays(q: R.World, openedAt: u64, openSaves: bool, claim: R.Call, saves: bool)
    requires claim.Claim? && R.Step(q, R.Event(openedAt, openSaves, claim, saves)).log != q.log
    ensures var rows := R.Step(q, R.Event(openedAt, openSaves, claim, saves)).rows; Expire(rows, openedAt) == rows
  {
    hide FileValid, Find;
    var rows := Expire(q.rows, openedAt);
    ExpireTwice(q.rows, openedAt);
    var after := R.Step(q, R.Event(openedAt, openSaves, claim, saves)).rows;
    var i := Find(rows, claim.id).value;
    forall k | 0 <= k < |after| ensures ExpireRow(after[k], openedAt) == after[k] {
      assert k != i ==> after[k] == rows[k] == Expire(rows, openedAt)[k];
    }
  }

  lemma StepKeepsLock(w: World, e: Event)
    requires LockHeld(w)
    ensures LockHeld(Step(w, e))
  {
    hide R.Step, Expire, Failed, Approves;
    if Enabled(w, e) && e.Claim? && Takes(w, e) {
      var c := ClaimEvent(w, e);
      ClaimedStays(w.queue, c.openedAt, c.openSaves, c.call, c.saves);
    }
  }

  lemma {:induction false} RunKeepsLock(events: seq<Event>)
    ensures LockHeld(Run(events))
  {
    hide Step, LockHeld;
    if events == [] {
      NothingLocked();
    } else {
      RunKeepsLock(events[..|events| - 1]);
      StepKeepsLock(Run(events[..|events| - 1]), events[|events| - 1]);
    }
  }

  lemma NothingLocked()
    ensures LockHeld(START)
  {
  }

  /** One step does to the queue what its events do. */
  lemma StepProjects(w: World, e: Event)
    requires LockHeld(w) && FileValid(w.queue.rows)
    ensures var seen := QueueEvents(w, e);
      && |seen| <= 1
      && Step(w, e).queue == (if seen == [] then w.queue else R.Step(w.queue, seen[0]))
      && (seen != [] && !e.Other? ==> R.Allowed(w.queue, seen[0].call))
  {
    hide Expire, FileValid, Find;
    if Enabled(w, e) && e.Audit? && !e.audits {
      assert w.lock == Some(e.pid);
    }
  }

  lemma RunAppended(front: seq<R.Event>, e: R.Event)
    ensures R.Run(front + [e]) == R.Step(R.Run(front), e)
    ensures R.Proper(front + [e]) <==> R.Proper(front) && R.Allowed(R.Run(front), e.call)
  {
    assert (front + [e])[..|front|] == front;
  }

  /**
   * Whatever the interleaving, the queue goes through one of its own runs, so everything proved of those
   * runs holds here: an execution is a claim that a finish may follow.
   */
  lemma {:induction false} QueueRuns(events: seq<Event>)
    requires Proper(events)
    ensures R.Proper(Projected(events)) && R.Run(Projected(events)) == Run(events).queue
  {
    hide R.Run, R.Proper, Step, R.Step, R.Allowed, LockHeld, QueueEvents, R.Inv;
    if events == [] {
      NothingRuns();
    } else {
      var front, e := events[..|events| - 1], events[|events| - 1];
      QueueRuns(front);
      RunKeepsLock(front);
      QueueValid(front);
      StepProjects(Run(front), e);
      var seen := QueueEvents(Run(front), e);
      if seen == [] {
        assert Projected(front) + seen == Projected(front);
      } else {
        assert seen == [seen[0]];
        OtherIsItself(Run(front), e);
        RunAppended(Projected(front), seen[0]);
      }
    }
  }

  lemma OtherIsItself(w: World, e: Event)
    ensures e.Other? && QueueEvents(w, e) != [] ==> QueueEvents(w, e)[0] == e.call
  {
  }

  lemma NothingRuns()
    ensures R.Proper([]) && R.Run([]) == START.queue
  {
  }

  lemma QueueValid(events: seq<Event>)
    requires R.Proper(Projected(events)) && R.Run(Projected(events)) == Run(events).queue
    ensures R.Inv(Run(events).queue) && FileValid(Run(events).queue.rows)
  {
    hide R.Proper, R.Run, Run;
    R.RunKeepsInv(Projected(events));
  }

  // ---------- claims under a revoked generation ----------

  ghost predicate Happens(events: seq<Event>, k: nat)
    requires k < |events|
  {
    Enabled(Run(events[..k]), events[k])
  }

  /** A call in progress since its check: when it was checked, and that it stayed so. */
  lemma {:induction false} LastCheck(events: seq<Event>, k: nat, pid: nat) returns (c: nat)
    requires k <= |events| && pid in Run(events[..k]).jobs && Run(events[..k]).jobs[pid].Checked?
    ensures c < k && events[c] == Check(pid) && Happens(events, c)
    ensures forall m | c < m <= k ::
      pid in Run(events[..m]).jobs && Run(events[..m]).jobs[pid] == Run(events[..k]).jobs[pid]
    ensures Run(events[..c]).jobs[pid].client == Run(events[..k]).jobs[pid].client
    ensures Run(events[..c]).jobs[pid].generation == Run(events[..k]).jobs[pid].generation
  {
    hide R.Step, Failed, Approves, Takes;
    var before, e := events[..k - 1], events[k - 1];
    assert events[..k][..k - 1] == before;
    if Enabled(Run(before), e) && e == Check(pid) {
      c := k - 1;
    } else {
      c := LastCheck(events, k - 1, pid);
    }
  }

  predicate RevokedBetween(events: seq<Event>, c: nat, k: nat, client: string)
    requires k <= |events|
  {
    exists m | c < m < k :: events[m] == Revoke(client)
  }

  function Turns(events: seq<Event>): seq<Turn> {
    seq(|events|, i requires 0 <= i < |events| => TurnOf(events[i]))
  }

  /** The credentials of a run are what its enrollments and revocations make of them. */
  lemma {:induction false} RunTurns(events: seq<Event>, i: nat, k: nat)
    requires i <= k <= |events|
    ensures Run(events[..k]).creds == After(Run(events[..i]).creds, Turns(events[i..k]))
  {
    hide R.Step, Failed, Approves, Takes;
    if i < k {
      RunTurns(events, i, k - 1);
      assert events[..k][..k - 1] == events[..k - 1];
      assert Turns(events[i..k])[..k - 1 - i] == Turns(events[i..k - 1]);
    }
  }

  lemma RunSound(events: seq<Event>, k: nat)
    requires k <= |events|
    ensures Sound(Run(events[..k]).creds)
  {
    RunTurns(events, 0, k);
    AfterSound(START.creds, Turns(events[..k]));
  }

  /** From a moment on, a generation stays its client's present one exactly until the client is revoked. */
  lemma CurrentExactly(events: seq<Event>, c: nat, k: nat, client: string, generation: string)
    requires c < k <= |events| && Current(Run(events[..c + 1]).creds, client, generation)
    ensures Current(Run(events[..k]).creds, client, generation) <==> !RevokedBetween(events, c, k, client)
  {
    hide Run, After, Current;
    RunSound(events, c + 1);
    RunTurns(events, c + 1, k);
    var since := Turns(events[c + 1..k]);
    CurrentUntilRevoked(Run(events[..c + 1]).creds, since, client, generation);
    assert forall m | c < m < k :: since[m - c - 1] == TurnOf(events[m]);
    if Revoked(client) in since {
      var i :| 0 <= i < |since| && since[i] == Revoked(client);
      assert events[c + 1 + i] == Revoke(client);
    }
  }

  /**
   * A claim is made under a generation that is no longer its client's present one if and only if the client
   * was revoked between the last look at the credentials and the claim.
   */
  lemma ClaimStaleExactly(events: seq<Event>, k: nat) returns (c: nat)
    requires k < |events| && events[k].Claim? && Happens(events, k)
    ensures var w := Run(events[..k]);
      var j := w.jobs[events[k].pid];
      && c < k && events[c] == Check(events[k].pid) && Happens(events, c)
      && (!Current(w.creds, j.client, j.generation) <==> RevokedBetween(events, c, k, j.client))
  {
    var w := Run(events[..k]);
    var j := w.jobs[events[k].pid];
    c := LastCheck(events, k, events[k].pid);
    assert events[..c + 1][..c] == events[..c];
    CheckedIsCurrent(Run(events[..c]), events[k].pid);
    CurrentExactly(events, c, k, j.client, j.generation);
  }

  lemma CheckedIsCurrent(w: World, pid: nat)
    requires Enabled(w, Check(pid))
    ensures Current(Step(w, Check(pid)).creds, w.jobs[pid].client, w.jobs[pid].generation)
  {
  }

  /** The request stored at `i` is approved, its client is enrolled as it was when it asked, and nothing else is going on. */
  ghost predicate ReadyToClaim(w: World, pid: nat, i: nat, openedAt: u64, now: u64) {
    && w.lock.None? && pid !in w.jobs && i < |w.queue.rows|
    && FileValid(w.queue.rows) && Expire(w.queue.rows, openedAt) == w.queue.rows
    && var row := w.queue.rows[i];
    && row.request.state.Approved? && Current(w.creds, row.request.clientId, row.generation)
    && row.request.approvedUntil.Some? && now < row.request.approvedUntil.value
  }

  lemma Then(events: seq<Event>, e: Event)
    requires Proper(events) && (e.Other? ==> R.Allowed(Run(events).queue, e.call.call))
    ensures Proper(events + [e]) && Run(events + [e]) == Step(Run(events), e)
  {
    assert (events + [e])[..|events|] == events;
  }

  lemma FirstRow(id: string, client: string, generation: string, target: Target, now: u64)
    requires now + REQUEST_SECONDS <= U64_MAX
    ensures R.Step(R.World([], []), R.Event(now, true, R.Submit(id, client, generation, target, now), true)).rows
         == [Row(NewRequest(id, client, target, now), generation)]
  {
    assert Expire([], now) == [];
  }

  lemma ApproveOnly(q: R.World, row: Row, now: u64)
    requires q.rows == [row] && FileValid(q.rows) && row.request.state.Pending? && now < row.request.expiresAt
    requires row.request.approvedUntil.None?
    ensures R.Step(q, R.Event(now, true, R.Decide(row.request.id, row.generation, row.request.target, true, now), true)).rows
         == [row.(request := row.request.(state := Approved, approvedUntil := Some(ApprovalEnd(now, row.request.expiresAt))))]
  {
    hide RecordValid;
    assert Expire([row], now)[0] == ExpireRow(row, now) == row;
    assert Expire([row], now) == [row];
    FindsOnly(q.rows, 0);
  }

  /** A row that was just approved has not lapsed. */
  lemma ApprovedStands(row: Row, now: u64)
    requires row.request.state.Approved? && row.request.approvedUntil == Some(ApprovalEnd(now, row.request.expiresAt))
    requires now < row.request.expiresAt
    ensures Expire([row], now) == [row] && now < row.request.approvedUntil.value
  {
  }

  lemma EnrolledRun(client: string, generation: string) returns (events: seq<Event>)
    ensures Proper(events)
    ensures Run(events) == START.(creds := Holders(map[client := generation], {generation}))
  {
    hide Run, Proper;
    NothingYet();
    Then([], Enroll(client, generation));
    events := [] + [Enroll(client, generation)];
  }

  lemma OtherStep(w: World, call: R.Event)
    requires w.lock.None? && !call.call.Claim? && !call.call.Finish?
    ensures Step(w, Other(call)) == w.(queue := R.Step(w.queue, call))
  {
  }

  lemma FiledRun(id: string, client: string, generation: string, target: Target, now: u64) returns (events: seq<Event>)
    requires DigestValid(id) && IdValid(client) && DigestValid(generation) && TargetValid(target)
    requires now + REQUEST_SECONDS <= U64_MAX
    ensures Proper(events) && FileValid(Run(events).queue.rows)
    ensures Run(events) == START.(creds := Holders(map[client := generation], {generation}), queue := Run(events).queue)
    ensures Run(events).queue.rows == [Row(NewRequest(id, client, target, now), generation)]
  {
    hide Run, Proper, Step, R.Step, FileValid, DigestValid, IdValid, TargetValid, R.Inv, Projected;
    var call := R.Event(now, true, R.Submit(id, client, generation, target, now), true);
    events := EnrolledRun(client, generation);
    OtherStep(Run(events), call);
    Then(events, Other(call));
    events := events + [Other(call)];
    FirstRow(id, client, generation, target, now);
    QueueRuns(events);
    QueueValid(events);
  }

  /** Such a state is reached for every request that can be filed. */
  lemma ReadyIsReached(pid: nat, id: string, client: string, generation: string, target: Target, now: u64)
    returns (events: seq<Event>)
    requires DigestValid(id) && IdValid(client) && DigestValid(generation) && TargetValid(target)
    requires now + REQUEST_SECONDS <= U64_MAX
    ensures Proper(events) && ReadyToClaim(Run(events), pid, 0, now, now)
    ensures var row := Run(events).queue.rows[0];
      row.request.id == id && row.request.clientId == client && row.generation == generation && row.request.target == target
  {
    hide Run, Proper, Step, R.Step, FileValid, Expire, ApprovalEnd, DigestValid, IdValid, TargetValid, R.Inv, Projected;
    events := FiledRun(id, client, generation, target, now);
    var call := R.Event(now, true, R.Decide(id, generation, target, true, now), true);
    OtherStep(Run(events), call);
    ApproveOnly(Run(events).queue, Run(events).queue.rows[0], now);
    Then(events, Other(call));
    events := events + [Other(call)];
    QueueRuns(events);
    QueueValid(events);
    ApprovedStands(Run(events).queue.rows[0], now);
  }

  lemma NothingYet()
    ensures Proper([]) && Run([]) == START
  {
  }

  /** From every such state a revocation can come between the check and the claim, and the claim succeeds. */
  lemma LateClaim(w: World, pid: nat, i: nat, openedAt: u64, operationId: u64, now: u64)
    requires ReadyToClaim(w, pid, i, openedAt, now)
    ensures var row := w.queue.rows[i];
      var client := row.request.clientId;
      var checked := Step(Step(Step(w, Authenticate(pid, client, row.request.id)), Status(pid, openedAt, true)), Check(pid));
      var after := Step(Step(checked, Revoke(client)), Claim(pid, openedAt, true, row.request.target, operationId, now, true));
      && client !in after.creds.current
      && after.queue.log
         == w.queue.log + [R.Taken(row.request.id, client, row.generation, row.request.target, now, operationId)]
  {
    hide Expire, RecordValid;
    var row := w.queue.rows[i];
    var client, id := row.request.clientId, row.request.id;
    FindsOnly(w.queue.rows, i);
    LookChangesNothing(w.queue.rows, id);
    var a := Step(w, Authenticate(pid, client, id));
    var b := Step(a, Status(pid, openedAt, true));
    assert R.Step(w.queue, LookEvent(a, Status(pid, openedAt, true))) == w.queue;
    assert b == a.(jobs := a.jobs[pid := Admitted(client, row.generation, id)]);
    var c := Step(b, Check(pid));
    assert c == b.(jobs := b.jobs[pid := Checked(client, row.generation, id)]);
    var d := Step(c, Revoke(client));
    assert d == c.(creds := c.creds.(current := c.creds.current - {client}));
    var e := Claim(pid, openedAt, true, row.request.target, operationId, now, true);
    assert R.Apply(w.queue.rows, ClaimEvent(d, e).call).Ok?;
  }

  lemma FindsOnly(rows: seq<Row>, i: nat)
    requires DistinctIds(rows) && i < |rows|
    ensures Find(rows, rows[i].request.id) == Some(i)
  {
    var found := Find(rows, rows[i].request.id);
    assert found.Some?;
  }

  // ---------- workers ----------

  ghost predicate TakenId(log: seq<R.Fact>, id: string) { exists f | f in log :: f.Taken? && f.id == id }

  /** The call or worker that is to finish a request. */
  predicate Holding(w: World, pid: nat) {
    pid in w.jobs && (w.jobs[pid].Claimed? || w.jobs[pid].Audited? || w.jobs[pid].Working?)
  }

  /** Every worker started, and every claim on its way to one, stands for a claim of its own. */
  ghost predicate WorkersSound(w: World) {
    && (forall i | 0 <= i < |w.started| :: TakenId(w.queue.log, w.started[i]))
    && (forall i, j | 0 <= i < j < |w.started| :: w.started[i] != w.started[j])
    && (forall pid | Holding(w, pid) ::
          TakenId(w.queue.log, w.jobs[pid].id) && (w.jobs[pid].id in w.started <==> w.jobs[pid].Working?))
    && forall pid, q | Holding(w, pid) && Holding(w, q) && pid != q :: w.jobs[pid].id != w.jobs[q].id
  }

  /** The log only grows; only a claim adds a claim, and never of an id that was claimed before. */
  lemma QueueStepLog(q: R.World, e: R.Event)
    ensures q.log <= R.Step(q, e).log
    ensures e.call.Claim? && R.Step(q, e).log != q.log ==>
      TakenId(R.Step(q, e).log, e.call.id) && (R.Inv(q) ==> !TakenId(q.log, e.call.id))
  {
    hide FileValid, R.WithinQuotas, R.Sound, Expire;
    if e.call.Claim? && R.Step(q, e).log != q.log {
      var f := R.Taken(e.call.id, e.call.client, e.call.generation, e.call.target, e.call.now, e.call.operationId);
      assert f in R.Step(q, e).log;
      if R.Inv(q) {
        R.OpenKeepsInv(q, e.openedAt);
        var i := R.FindsRow(R.World(Expire(q.rows, e.openedAt), q.log), e.call.id);
      }
    }
  }

  lemma TakenKept(log: seq<R.Fact>, log': seq<R.Fact>, id: string)
    requires log <= log' && TakenId(log, id)
    ensures TakenId(log', id)
  {
    var f :| f in log && f.Taken? && f.id == id;
    assert f in log';
  }

  lemma StepKeepsWorkers(w: World, e: Event)
    requires WorkersSound(w) && R.Inv(w.queue)
    ensures WorkersSound(Step(w, e))
  {
    hide Step, R.Inv, Enabled, WorkersSound;
    if e.Claim? {
      ClaimKeepsWorkers(w, e);
    } else {
      OtherKeepsWorkers(w, e);
    }
  }

  lemma AllTakenKept(w: World, e: Event)
    ensures forall id | TakenId(w.queue.log, id) :: TakenId(Step(w, e).queue.log, id)
  {
    hide Step, TakenId;
    LogKept(w, e);
    forall id | TakenId(w.queue.log, id) ensures TakenId(Step(w, e).queue.log, id) {
      TakenKept(w.queue.log, Step(w, e).queue.log, id);
    }
  }

  lemma ClaimKeepsWorkers(w: World, e: Event)
    requires WorkersSound(w) && R.Inv(w.queue) && e.Claim?
    ensures WorkersSound(Step(w, e))
  {
    hide R.Step, R.Inv, TakenId;
    AllTakenKept(w, e);
    if Enabled(w, e) {
      QueueStepLog(w.queue, ClaimEvent(w, e));
    }
  }

  lemma OtherKeepsWorkers(w: World, e: Event)
    requires WorkersSound(w) && !e.Claim?
    ensures WorkersSound(Step(w, e))
  {
    hide R.Step, Approves, TakenId, Failed, Turned, Admits, LookEvent;
    AllTakenKept(w, e);
  }

  lemma LogKept(w: World, e: Event)
    ensures w.queue.log <= Step(w, e).queue.log
  {
    hide R.Step, Approves;
    if Enabled(w, e) {
      match e
      case Other(call) => QueueStepLog(w.queue, call);
      case Status(_, _, _) => QueueStepLog(w.queue, LookEvent(w, e));
      case Claim(_, _, _, _, _, _, _) => QueueStepLog(w.queue, ClaimEvent(w, e));
      case Spawn(pid, _, openedAt, openSaves, saves) =>
        QueueStepLog(w.queue, R.Event(openedAt, openSaves, R.Finish(w.jobs[pid].id, RuntimeError), saves));
      case Finish(pid, completion, openedAt, openSaves, saves) =>
        QueueStepLog(w.queue, R.Event(openedAt, openSaves, R.Finish(w.jobs[pid].id, completion), saves));
      case _ =>
    }
  }

  /** In every run each worker was started for a claimed request, and none for a request twice. */
  lemma {:induction false} StartedOnce(events: seq<Event>)
    requires Proper(events)
    ensures WorkersSound(Run(events))
  {
    hide Step, R.Inv, WorkersSound;
    if events == [] {
      NothingStarted();
    } else {
      var front := events[..|events| - 1];
      StartedOnce(front);
      QueueRuns(front);
      QueueValid(front);
      StepKeepsWorkers(Run(front), events[|events| - 1]);
    }
  }

  lemma NothingStarted()
    ensures WorkersSound(START)
  {
  }

  // ---------- the real queue object ----------

  /** Opening the file and executing does to it what a claim does, or a claim and a finish at the same opening. */
  method Execute(file: QueueFile, openedAt: u64, openSaves: bool, id: string, client: string, generation: string,
                 target: Target, operationId: u64, now: u64, claimWrites: bool, audits: bool, finishWrites: bool,
                 ghost log: seq<R.Fact>)
    returns (started: bool)
    requires R.Inv(R.World(file.rows, log))
    modifies file
    ensures var claim := R.Event(openedAt, openSaves, R.Claim(id, client, generation, target, operationId, now), claimWrites);
      var after := R.Step(R.World(old(file.rows), log), claim);
      && (started <==> after.log != log && audits)
      && file.rows == if after.log == log || audits then after.rows
         else R.Step(after, R.Event(openedAt, true, R.Finish(id, RuntimeError), finishWrites)).rows
  {
    hide R.Inv, R.Step, FileValid, Expire;
    ghost var w := R.World(file.rows, log);
    ghost var call := R.Claim(id, client, generation, target, operationId, now);
    ghost var claim := R.Event(openedAt, openSaves, call, claimWrites);
    ghost var after := R.Step(w, claim);
    ClaimStep(w, claim);
    if after.log != log {
      R.StepKeepsInv(w, claim);
      ClaimedStays(w, openedAt, openSaves, call, claimWrites);
      FinishStep(after, openedAt, id, finishWrites);
    }
    var queue := Queue.Open(file, openedAt, openSaves);
    if queue.None? {
      return false;
    }
    started := queue.value.Execute(id, client, generation, target, operationId, now, claimWrites, audits, finishWrites);
  }

  lemma ClaimStep(w: R.World, e: R.Event)
    requires e.call.Claim?
    ensures var opens := FileValid(w.rows) && (e.openSaves || Expire(w.rows, e.openedAt) == w.rows);
      var change := R.Apply(Expire(w.rows, e.openedAt), e.call);
      && (R.Step(w, e).log != w.log <==> opens && change.Ok? && e.saves)
      && R.Step(w, e).rows == if !opens then w.rows
         else if change.Ok? && e.saves then change.value.0 else Expire(w.rows, e.openedAt)
  {
    hide Expire, FileValid, ClaimRows;
  }

  lemma FinishStep(w: R.World, openedAt: u64, id: string, saves: bool)
    requires R.Inv(w) && Expire(w.rows, openedAt) == w.rows
    ensures var finish := FinishRows(w.rows, id, RuntimeError);
      R.Step(w, R.Event(openedAt, true, R.Finish(id, RuntimeError), saves)).rows
      == if finish.Ok? && saves then finish.value.0 else w.rows
  {
    hide Expire, FinishRows;
  }
}
