/** Requests that stay running for good because the call or worker that was to finish them is gone. */
module StrandedRequests {
  import opened Results
  import opened Text
  import opened MutationQueue
  import opened MutationExecution
  import R = MutationRuns

  predicate Running(rows: seq<Row>, id: string) {
    exists i | 0 <= i < |rows| :: rows[i].request.id == id && rows[i].request.state.Running?
  }

  /** Some call or worker is still to finish the request. */
  ghost predicate Driven(w: World, id: string) { exists pid: nat :: Drives(w, pid, id) }

  ghost predicate Drives(w: World, pid: nat, id: string) { Holding(w, pid) && w.jobs[pid].id == id }

  /** Running, and nobody will finish it. */
  ghost predicate Stranded(w: World, id: string) { Running(w.queue.rows, id) && !Driven(w, id) }

  /** The step ends the call or worker that was to finish the request. */
  predicate Ends(w: World, e: Event, id: string) {
    Enabled(w, e) &&
    match e
    case Halt(pid) => Holding(w, pid) && w.jobs[pid].id == id
    case Audit(pid, audits, _) => !audits && w.jobs[pid].id == id
    case Spawn(pid, spawns, _, _, _) => !spawns && w.jobs[pid].id == id
    case Finish(pid, _, _, _, _) => w.jobs[pid].id == id
    case _ => false
  }

  /** The queue can be opened, persisting what lapsed, and the result is persisted. */
  predicate Persists(w: World, openedAt: u64, openSaves: bool, saves: bool) {
    saves && (openSaves || Expire(w.queue.rows, openedAt) == w.queue.rows)
  }

  /** It ends without a finish being persisted: it stops, or a write fails. */
  predicate Loses(w: World, e: Event, id: string) {
    Ends(w, e, id) &&
    match e
    case Audit(_, _, saves) => !saves
    case Spawn(_, _, openedAt, openSaves, saves) => !Persists(w, openedAt, openSaves, saves)
    case Finish(_, _, openedAt, openSaves, saves) => !Persists(w, openedAt, openSaves, saves)
    case _ => true
  }

  ghost predicate Claims(w: World, e: Event, id: string) {
    Enabled(w, e) && e.Claim? && Takes(w, e) && w.jobs[e.pid].id == id
  }

  // ---------- one call of the queue ----------

  lemma ExpireKeepsRunning(rows: seq<Row>, now: u64, id: string)
    ensures Running(Expire(rows, now), id) <==> Running(rows, id)
  {
    assert forall i | 0 <= i < |rows| :: Expire(rows, now)[i] == ExpireRow(rows[i], now);
  }

  /** Replacing one row, the others keep their states. */
  lemma ReplaceRunning(rows: seq<Row>, i: nat, row: Row, id: string)
    requires i < |rows| && DistinctIds(rows) && row.request.id == rows[i].request.id
    ensures Running(rows[i := row], id)
      <==> if rows[i].request.id == id then row.request.state.Running? else Running(rows, id)
    ensures rows[i].request.id == id ==> (Running(rows, id) <==> rows[i].request.state.Running?)
  {
    var after := rows[i := row];
    assert forall k | 0 <= k < |rows| :: k != i ==> after[k] == rows[k];
    if rows[i].request.id != id && Running(rows, id) {
      var k :| 0 <= k < |rows| && rows[k].request.id == id && rows[k].request.state.Running?;
      assert after[k] == rows[k];
    }
    assert after[i] == row;
  }

  /** A running row is never evicted, and a submitted one does not run. */
  lemma SubmitKeepsRunning(rows: seq<Row>, c: R.Call, id: string)
    requires c.Submit? && R.Apply(rows, c).Ok?
    ensures Running(R.Apply(rows, c).value.0, id) <==> Running(rows, id)
  {
    var after := R.Apply(rows, c).value.0;
    if |rows| == MAX_ROWS {
      var i := FirstInactive(rows).value;
      assert forall k | 0 <= k < i :: after[k] == rows[k];
      assert forall k | i < k < |rows| :: after[k - 1] == rows[k];
      if Running(rows, id) {
        var k :| 0 <= k < |rows| && rows[k].request.id == id && rows[k].request.state.Running?;
        assert after[if k < i then k else k - 1] == rows[k];
      }
    } else {
      assert forall k | 0 <= k < |rows| :: after[k] == rows[k];
    }
  }

  /** What a call on the open queue does to the running requests. */
  lemma ApplyRunning(rows: seq<Row>, c: R.Call, id: string)
    requires DistinctIds(rows) && R.Apply(rows, c).Ok?
    ensures Running(R.Apply(rows, c).value.0, id)
      <==> (c.Claim? && c.id == id) || (Running(rows, id) && !(c.Finish? && c.id == id))
    ensures c.Claim? && c.id == id ==> !Running(rows, id)
  {
    if c.Submit? {
      SubmitKeepsRunning(rows, c, id);
    } else {
      var i := Find(rows, c.id).value;
      var after := R.Apply(rows, c).value.0;
      assert after == rows[i := after[i]];
      ReplaceRunning(rows, i, after[i], id);
    }
  }

  /** One opening and one call. */
  lemma QueueStepRunning(q: R.World, c: R.Event, id: string)
    requires FileValid(q.rows)
    ensures var persists := c.saves && (c.openSaves || Expire(q.rows, c.openedAt) == q.rows);
      Running(R.Step(q, c).rows, id)
      <==> (c.call.Claim? && c.call.id == id && R.Step(q, c).log != q.log)
           || (Running(q.rows, id) && !(c.call.Finish? && c.call.id == id && persists))
    ensures c.call.Claim? && c.call.id == id && R.Step(q, c).log != q.log ==> !Running(q.rows, id)
  {
    hide Running, RecordValid;
    var rows := Expire(q.rows, c.openedAt);
    ExpireKeepsRunning(q.rows, c.openedAt, id);
    if R.Apply(rows, c.call).Ok? {
      ApplyRunning(rows, c.call, id);
    } else if c.call.Finish? && c.call.id == id {
      UnfinishedNotRunning(rows, c.call);
    }
    hide Expire, R.Apply, Find;
  }

  lemma UnfinishedNotRunning(rows: seq<Row>, c: R.Call)
    requires DistinctIds(rows) && c.Finish? && R.Apply(rows, c).Err?
    ensures !Running(rows, c.id)
  {
    if Find(rows, c.id).Some? {
      var i := Find(rows, c.id).value;
      ReplaceRunning(rows, i, rows[i], c.id);
    }
  }

  // ---------- one step of an interleaving ----------

  lemma QueueEventsOf(w: World, e: Event)
    ensures var seen := QueueEvents(w, e);
      && |seen| <= 1
      && (seen != [] ==> Enabled(w, e))
      && (seen != [] && seen[0].call.Claim? ==> e.Claim? && seen[0] == ClaimEvent(w, e) && seen[0].call.id == w.jobs[e.pid].id)
      && (seen != [] && seen[0].call.Finish? ==>
           && Ends(w, e, seen[0].call.id)
           && (Loses(w, e, seen[0].call.id)
               <==> !(seen[0].saves && (seen[0].openSaves || Expire(w.queue.rows, seen[0].openedAt) == w.queue.rows))))
    ensures Enabled(w, e) && e.Claim? ==> QueueEvents(w, e) == [ClaimEvent(w, e)]
    ensures Enabled(w, e) && !e.Halt? ==> forall id :: Ends(w, e, id) ==>
      QueueEvents(w, e) != [] && QueueEvents(w, e)[0].call.Finish? && QueueEvents(w, e)[0].call.id == id
  {
    hide Expire;
  }

  lemma StepRunning(w: World, e: Event, id: string)
    requires LockHeld(w) && FileValid(w.queue.rows)
    requires Driven(w, id) ==> Running(w.queue.rows, id)
    ensures Running(Step(w, e).queue.rows, id)
      <==> Claims(w, e, id) || (Running(w.queue.rows, id) && !(Ends(w, e, id) && !Loses(w, e, id)))
    ensures Claims(w, e, id) ==> !Running(w.queue.rows, id)
  {
    hide Running, FileValid, LockHeld, R.Step, Step, Ends, Loses, Enabled, QueueEvents, Holding;
    StepProjects(w, e);
    QueueEventsOf(w, e);
    var seen := QueueEvents(w, e);
    if seen != [] {
      QueueStepRunning(w.queue, seen[0], id);
    }
    HaltLoses(w, e, id);
  }

  lemma HaltLoses(w: World, e: Event, id: string)
    ensures e.Halt? && Ends(w, e, id) ==> Loses(w, e, id)
    ensures Ends(w, e, id) ==> Enabled(w, e)
    ensures !Enabled(w, e) ==> QueueEvents(w, e) == []
  {
  }

  function Actor(e: Event): Option<nat> {
    match e
    case Claim(pid, _, _, _, _, _, _) => Some(pid)
    case Audit(pid, _, _) => Some(pid)
    case Spawn(pid, _, _, _, _) => Some(pid)
    case Finish(pid, _, _, _, _) => Some(pid)
    case Halt(pid) => Some(pid)
    case _ => None
  }

  lemma StepDrives(w: World, e: Event, id: string, pid: nat)
    ensures Drives(Step(w, e), pid, id)
      <==> (Claims(w, e, id) && Actor(e) == Some(pid)) || (Drives(w, pid, id) && !(Ends(w, e, id) && Actor(e) == Some(pid)))
    ensures Ends(w, e, id) ==> Actor(e).Some? && Drives(w, Actor(e).value, id)
    ensures Claims(w, e, id) ==> Actor(e).Some?
  {
    hide R.Step, Approves, MutationExecution.Failed, Takes;
  }

  lemma StepDriven(w: World, e: Event, id: string)
    requires WorkersSound(w)
    ensures Driven(Step(w, e), id) <==> Claims(w, e, id) || (Driven(w, id) && !Ends(w, e, id))
  {
    hide Step, Ends, Claims, Drives, WorkersSound, Actor;
    forall pid: nat
      ensures Drives(Step(w, e), pid, id)
        <==> (Claims(w, e, id) && Actor(e) == Some(pid)) || (Drives(w, pid, id) && !(Ends(w, e, id) && Actor(e) == Some(pid)))
    {
      StepDrives(w, e, id, pid);
    }
    StepDrives(w, e, id, 0);
    OneDriver(w, id);
    if Claims(w, e, id) {
      assert Drives(Step(w, e), Actor(e).value, id);
    }
  }

  lemma OneDriver(w: World, id: string)
    requires WorkersSound(w)
    ensures forall pid: nat, q: nat :: Drives(w, pid, id) && Drives(w, q, id) ==> pid == q
  {
  }

  lemma StepStranded(w: World, e: Event, id: string)
    requires LockHeld(w) && FileValid(w.queue.rows) && WorkersSound(w)
    requires Driven(w, id) ==> Running(w.queue.rows, id)
    ensures Driven(Step(w, e), id) ==> Running(Step(w, e).queue.rows, id)
    ensures Stranded(Step(w, e), id) <==> Stranded(w, id) || Loses(w, e, id)
  {
    hide LockHeld, FileValid, WorkersSound, Step, Running, Driven, Claims, Ends;
    StepRunning(w, e, id);
    StepDriven(w, e, id);
    EndsDriven(w, e, id);
  }

  lemma EndsDriven(w: World, e: Event, id: string)
    ensures Ends(w, e, id) ==> Driven(w, id)
  {
    if Ends(w, e, id) {
      assert Drives(w, e.pid, id);
    }
  }

  // ---------- over every run ----------

  ghost predicate LostIn(events: seq<Event>, id: string) {
    exists m | 0 <= m < |events| :: Loses(Run(events[..m]), events[m], id)
  }

  /**
   * In every run a request is running with nobody to finish it if and only if the call or worker that was
   * to finish it ended without a finish being persisted. A request that someone is to finish is running.
   */
  lemma {:induction false} StrandedExactly(events: seq<Event>, id: string)
    requires Proper(events)
    ensures Stranded(Run(events), id) <==> LostIn(events, id)
    ensures Driven(Run(events), id) ==> Running(Run(events).queue.rows, id)
  {
    hide Step, LockHeld, FileValid, WorkersSound, R.Inv, Stranded, Loses;
    if events == [] {
      NothingStranded(id);
    } else {
      var front, e := events[..|events| - 1], events[|events| - 1];
      StrandedExactly(front, id);
      RunKeepsLock(front);
      QueueRuns(front);
      QueueValid(front);
      StartedOnce(front);
      StepStranded(Run(front), e, id);
      assert forall m | 0 <= m < |front| :: events[..m] == front[..m];
    }
  }

  lemma NothingStranded(id: string)
    ensures !Stranded(START, id) && !Driven(START, id)
  {
  }

  lemma {:induction false} ProperPrefix(events: seq<Event>, k: nat)
    requires Proper(events) && k <= |events|
    ensures Proper(events[..k])
  {
    hide R.Allowed;
    if k < |events| {
      var front := events[..|events| - 1];
      ProperPrefix(front, k);
      assert front[..k] == events[..k];
    } else {
      assert events[..k] == events;
    }
  }

  /** Once nobody is left to finish it, a request is running in every later state. */
  lemma StrandedForever(events: seq<Event>, k: nat, id: string)
    requires Proper(events) && k <= |events| && Stranded(Run(events[..k]), id)
    ensures Stranded(Run(events), id)
  {
    hide Run, Proper, Stranded, Loses;
    ProperPrefix(events, k);
    StrandedExactly(events[..k], id);
    var m :| 0 <= m < k && Loses(Run(events[..k][..m]), events[..k][m], id);
    assert events[..k][..m] == events[..m];
    StrandedExactly(events, id);
  }

  // ---------- what stranded requests cost their client ----------

  /** The client has a running request with this id. */
  predicate RunningOf(rows: seq<Row>, id: string, client: string) {
    exists i | 0 <= i < |rows| ::
      rows[i].request.id == id && rows[i].request.state.Running? && rows[i].request.clientId == client
  }

  lemma {:induction false} RunningCount(rows: seq<Row>, ids: set<string>, client: string)
    requires forall id | id in ids :: RunningOf(rows, id, client)
    ensures CountClient(rows, client) >= |ids|
  {
    if rows == [] {
      assert ids == {};
    } else {
      var rest := if RunningOf(rows[..1], rows[0].request.id, client) then ids - {rows[0].request.id} else ids;
      forall id | id in rest ensures RunningOf(rows[1..], id, client) {
        var i :| 0 <= i < |rows| && rows[i].request.id == id && rows[i].request.state.Running?
                 && rows[i].request.clientId == client;
        assert i > 0 && rows[1..][i - 1] == rows[i];
      }
      RunningCount(rows[1..], rest, client);
    }
  }

  /** As many running requests as the quota allows shut their client out, whenever it asks again. */
  lemma RunningShutOut(rows: seq<Row>, openedAt: u64, ids: set<string>, id: string, client: string,
                       generation: string, target: Target, now: u64)
    requires |ids| >= MAX_CLIENT_ACTIVE && forall r | r in ids :: RunningOf(rows, r, client)
    ensures SubmitRows(Expire(rows, openedAt), id, client, generation, target, now) == Err(Busy)
  {
    var current := Expire(rows, openedAt);
    forall r | r in ids ensures RunningOf(current, r, client) {
      var i :| 0 <= i < |rows| && rows[i].request.id == r && rows[i].request.state.Running?
                 && rows[i].request.clientId == client;
      assert current[i] == rows[i];
    }
    RunningCount(current, ids, client);
  }
}
