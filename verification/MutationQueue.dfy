/** The persisted queue of agent mutations that an owner must approve. */
module MutationQueue {
  import opened Results
  import opened Text

  const MAX_ROWS := 256
  const MAX_ACTIVE := 32
  const MAX_CLIENT_ACTIVE := 8
  const APPROVAL_SECONDS := 600
  const REQUEST_SECONDS := 24 * 3600

  datatype Kind = Install | UninstallKeepData

  datatype State = Pending | Approved | Running | Succeeded | Failed | Cancelled | Denied | Expired

  predicate Active(s: State) { s.Pending? || s.Approved? || s.Running? }

  datatype Failure = RuntimeFailed | AccessRevoked | IdentityChanged | TimedOut | ConnectorInterrupted

  /** An engine is an opaque identity together with the verdict of its own validation. */
  datatype Engine = Engine(identity: string, valid: bool)

  datatype Target = Target(kind: Kind, appId: string, displayName: string, fingerprint: string,
                           engine: Engine, engineFingerprint: string)

  datatype Request = Request(id: string, clientId: string, target: Target, state: State,
                             requestedAt: u64, expiresAt: u64, approvedUntil: Option<u64>,
                             startedAt: Option<u64>, operationId: Option<u64>,
                             cancelRequested: bool, stage: Option<string>, failure: Option<Failure>)

  datatype Row = Row(request: Request, generation: string)

  datatype Error = NotFound | Forbidden | Busy | QueueFull | OutOfRange | Unsupported | NotSaved

  // ---------- what `open` demands of every stored record ----------

  predicate TargetValid(t: Target) {
    && AppIdValid(t.appId) && |t.appId| <= 128
    && DigestValid(t.fingerprint) && DigestValid(t.engineFingerprint)
    && t.engine.valid
    && 0 < Bytes(t.displayName) <= 256
  }

  predicate StageValid(stage: Option<string>) {
    || stage.None?
    || stage.value in {"checking_system", "preparing_files", "validating_recipe", "starting_containers",
                       "waiting_for_health", "saving_app", "rolling_back"}
  }

  predicate TimesValid(r: Request) {
    && r.requestedAt < r.expiresAt && r.expiresAt - r.requestedAt <= REQUEST_SECONDS
    && (r.approvedUntil.Some? ==> r.approvedUntil.value <= r.expiresAt)
    && (r.state.Approved? || r.state.Running? || r.state.Succeeded? ==> r.approvedUntil.Some?)
    && (r.state.Running? ==> r.startedAt.Some? && r.operationId.Some?)
  }

  predicate RecordValid(row: Row) {
    && DigestValid(row.request.id) && IdValid(row.request.clientId) && DigestValid(row.generation)
    && TargetValid(row.request.target)
    && TimesValid(row.request)
    && StageValid(row.request.stage)
  }

  ghost predicate DistinctIds(rows: seq<Row>) {
    forall i, j | 0 <= i < j < |rows| :: rows[i].request.id != rows[j].request.id
  }

  ghost predicate FileValid(rows: seq<Row>) {
    && |rows| <= MAX_ROWS
    && (forall i | 0 <= i < |rows| :: RecordValid(rows[i]))
    && DistinctIds(rows)
  }

  // ---------- the operations on the stored rows ----------

  predicate Lapsed(r: Request, now: u64) {
    && (r.state.Pending? || r.state.Approved?)
    && (now >= r.expiresAt || (r.approvedUntil.Some? && now >= r.approvedUntil.value))
  }

  function ExpireRow(row: Row, now: u64): Row {
    if Lapsed(row.request, now) then row.(request := row.request.(state := Expired)) else row
  }

  function Expire(rows: seq<Row>, now: u64): (r: seq<Row>)
    ensures |r| == |rows| && forall i | 0 <= i < |rows| :: r[i] == ExpireRow(rows[i], now)
  {
    seq(|rows|, i requires 0 <= i < |rows| => ExpireRow(rows[i], now))
  }

  function CountActive(rows: seq<Row>): nat {
    if rows == [] then 0
    else (if Active(rows[0].request.state) then 1 else 0) + CountActive(rows[1..])
  }

  function CountClient(rows: seq<Row>, client: string): nat {
    if rows == [] then 0
    else
      (if rows[0].request.clientId == client && Active(rows[0].request.state) then 1 else 0)
      + CountClient(rows[1..], client)
  }

  /** The index of the first row with this id. */
  function Find(rows: seq<Row>, id: string): (r: Option<nat>)
    ensures r.Some? ==> r.value < |rows| && rows[r.value].request.id == id
    ensures r.None? ==> forall i | 0 <= i < |rows| :: rows[i].request.id != id
  {
    if rows == [] then None
    else if rows[0].request.id == id then Some(0)
    else match Find(rows[1..], id)
      case None => None
      case Some(i) => Some(i + 1)
  }

  /** The index of the first row that may be evicted. */
  function FirstInactive(rows: seq<Row>): (r: Option<nat>)
    ensures r.Some? ==> r.value < |rows| && !Active(rows[r.value].request.state)
    ensures r.None? ==> forall i | 0 <= i < |rows| :: Active(rows[i].request.state)
  {
    if rows == [] then None
    else if !Active(rows[0].request.state) then Some(0)
    else match FirstInactive(rows[1..])
      case None => None
      case Some(i) => Some(i + 1)
  }

  /** The new rows, the request returned to the caller, or the reason nothing changes. */
  type Change = Result<(seq<Row>, Request), Error>

  function NewRequest(id: string, client: string, target: Target, now: u64): Request
    requires now + REQUEST_SECONDS <= U64_MAX
  {
    Request(id, client, target, Pending, now, now + REQUEST_SECONDS, None, None, None, false, None, None)
  }

  function SubmitRows(rows: seq<Row>, id: string, client: string, generation: string, target: Target, now: u64): Change {
    if CountActive(rows) >= MAX_ACTIVE || CountClient(rows, client) >= MAX_CLIENT_ACTIVE then Err(Busy)
    else if |rows| == MAX_ROWS && FirstInactive(rows).None? then Err(QueueFull)
    else if now + REQUEST_SECONDS > U64_MAX then Err(OutOfRange)
    else
      var kept := if |rows| == MAX_ROWS then var i := FirstInactive(rows).value; rows[..i] + rows[i + 1..] else rows;
      var request := NewRequest(id, client, target, now);
      Ok((kept + [Row(request, generation)], request))
  }

  function Updated(rows: seq<Row>, i: nat, request: Request): Change
    requires i < |rows|
  {
    Ok((rows[i := rows[i].(request := request)], request))
  }

  function ApprovalEnd(now: u64, expiresAt: u64): u64 {
    var until := if now + APPROVAL_SECONDS <= U64_MAX then now + APPROVAL_SECONDS else U64_MAX;
    if until < expiresAt then until else expiresAt
  }

  function DecideRows(rows: seq<Row>, id: string, generation: string, target: Target, approve: bool, now: u64): Change {
    match Find(rows, id)
    case None => Err(NotFound)
    case Some(i) =>
      var row := rows[i];
      if !row.request.state.Pending? || (approve && (row.generation != generation || row.request.target != target)) then
        Err(Forbidden)
      else if approve then
        Updated(rows, i, row.request.(state := Approved, approvedUntil := Some(ApprovalEnd(now, row.request.expiresAt))))
      else
        Updated(rows, i, row.request.(state := Denied))
  }

  function ClaimRows(rows: seq<Row>, id: string, client: string, generation: string, target: Target,
                     operationId: u64, now: u64): Change
  {
    match Find(rows, id)
    case None => Err(NotFound)
    case Some(i) =>
      var row := rows[i];
      if || row.request.clientId != client || row.generation != generation || row.request.target != target
         || !row.request.state.Approved? || row.request.approvedUntil.None? || now >= row.request.approvedUntil.value
      then Err(Forbidden)
      else Updated(rows, i, row.request.(state := Running, startedAt := Some(now), operationId := Some(operationId)))
  }

  function CancelRows(rows: seq<Row>, id: string, client: string, generation: string): Change {
    match Find(rows, id)
    case None => Err(NotFound)
    case Some(i) =>
      var row := rows[i];
      if row.request.clientId != client || row.generation != generation then Err(Forbidden)
      else if row.request.state.Running? then
        if row.request.target.kind.Install? then Updated(rows, i, row.request.(cancelRequested := true))
        else Err(Unsupported)
      else if row.request.state.Pending? || row.request.state.Approved? then
        Updated(rows, i, row.request.(state := Cancelled))
      else Updated(rows, i, row.request)
  }

  /** How the runtime operation of a claimed request ended. */
  datatype Completion = Completed | CancelledByUser | RuntimeError

  function FinishRows(rows: seq<Row>, id: string, completion: Completion): Change {
    match Find(rows, id)
    case None => Err(NotFound)
    case Some(i) =>
      var row := rows[i];
      if !row.request.state.Running? then Err(Forbidden)
      else match completion
        case Completed => Updated(rows, i, row.request.(state := Succeeded))
        case CancelledByUser => Updated(rows, i, row.request.(state := Cancelled))
        case RuntimeError => Updated(rows, i, row.request.(state := Failed, failure := Some(RuntimeFailed)))
  }

  /** Progress of the runtime operation is recorded whatever the state of the row. */
  function ProgressRows(rows: seq<Row>, id: string, stage: Option<string>): Change {
    match Find(rows, id)
    case None => Err(NotFound)
    case Some(i) => Updated(rows, i, rows[i].request.(stage := stage))
  }

  /** Reading a request leaves the rows as they are. */
  function LookRows(rows: seq<Row>, id: string): Change {
    match Find(rows, id)
    case None => Err(NotFound)
    case Some(i) => Updated(rows, i, rows[i].request)
  }

  lemma LookChangesNothing(rows: seq<Row>, id: string)
    ensures LookRows(rows, id).Ok? ==> LookRows(rows, id).value.0 == rows
  {
  }

  // ---------- the queue object ----------

  /** The queue's file; it is replaced as a whole or not at all. */
  class QueueFile {
    var rows: seq<Row>

    constructor ()
      ensures rows == []
    {
      rows := [];
    }
  }

  /** What a finished call leaves in the file and returns, given whether its write succeeds. */
  ghost predicate Settled(change: Change, writes: bool, before: seq<Row>, after: seq<Row>, r: Result<Request, Error>) {
    match change
    case Err(e) => r == Err(e) && after == before
    case Ok((rows, request)) =>
      if writes then r == Ok(request) && after == rows else r == Err(NotSaved) && after == before
  }

  method ValidateRecords(rows: seq<Row>) returns (ok: bool)
    ensures ok <==> FileValid(rows)
  {
    hide RecordValid;
    if |rows| > MAX_ROWS {
      return false;
    }
    var ids: set<string> := {};
    for i := 0 to |rows|
      invariant forall j | 0 <= j < i :: RecordValid(rows[j])
      invariant DistinctIds(rows[..i])
      invariant forall id :: id in ids <==> exists j | 0 <= j < i :: rows[j].request.id == id
    {
      if !RecordValid(rows[i]) || rows[i].request.id in ids {
        return false;
      }
      ids := ids + {rows[i].request.id};
    }
    assert rows[..|rows|] == rows;
    ok := true;
  }

  lemma ExpireChanges(rows: seq<Row>, now: u64)
    ensures Expire(rows, now) != rows <==> exists i | 0 <= i < |rows| :: Lapsed(rows[i].request, now)
  {
    if i :| 0 <= i < |rows| && Lapsed(rows[i].request, now) {
      assert Expire(rows, now)[i] != rows[i];
    } else {
      assert forall i | 0 <= i < |rows| :: ExpireRow(rows[i], now) == rows[i];
    }
  }

  class Queue {
    var rows: seq<Row>
    const file: QueueFile

    constructor (file: QueueFile)
      ensures this.file == file && rows == file.rows
    {
      this.file := file;
      rows := file.rows;
    }

    /** Opening validates every record, then expires and persists what has lapsed. */
    static method Open(file: QueueFile, now: u64, writes: bool) returns (r: Option<Queue>)
      modifies file
      ensures r.Some? <==> FileValid(old(file.rows)) && (writes || Expire(old(file.rows), now) == old(file.rows))
      ensures r.Some? ==> fresh(r.value) && r.value.file == file
                          && r.value.rows == file.rows == Expire(old(file.rows), now)
      ensures r.None? ==> file.rows == old(file.rows)
    {
      hide FileValid, Lapsed;
      ghost var stored := file.rows;
      var valid := ValidateRecords(file.rows);
      if !valid {
        return None;
      }
      var queue := new Queue(file);
      var changed := false;
      for i := 0 to |queue.rows|
        invariant queue.file == file && fresh(queue) && file.rows == stored && |queue.rows| == |stored|
        invariant forall j | 0 <= j < i :: queue.rows[j] == ExpireRow(stored[j], now)
        invariant forall j | i <= j < |stored| :: queue.rows[j] == stored[j]
        invariant changed <==> exists j | 0 <= j < i :: Lapsed(stored[j].request, now)
      {
        var row := queue.rows[i];
        if Lapsed(row.request, now) {
          queue.rows := queue.rows[i := row.(request := row.request.(state := Expired))];
          changed := true;
        }
      }
      ExpireChanges(stored, now);
      assert queue.rows == Expire(stored, now);
      if changed {
        var saved := queue.Save(writes);
        if !saved {
          return None;
        }
      }
      return Some(queue);
    }

    /** The atomic write, which fails when the disk refuses it or the text would exceed its bound. */
    method Save(writes: bool) returns (ok: bool)
      modifies file
      ensures ok == writes
      ensures file.rows == if writes then rows else old(file.rows)
    {
      if writes {
        file.rows := rows;
      }
      ok := writes;
    }

    method Submit(id: string, client: string, generation: string, target: Target, now: u64, writes: bool)
      returns (r: Result<Request, Error>)
      requires rows == file.rows
      modifies this, file
      ensures Settled(SubmitRows(old(rows), id, client, generation, target, now), writes, old(file.rows), file.rows, r)
    {
      if CountActive(rows) >= MAX_ACTIVE || CountClient(rows, client) >= MAX_CLIENT_ACTIVE {
        return Err(Busy);
      }
      if |rows| == MAX_ROWS {
        match FirstInactive(rows)
        case Some(i) => rows := rows[..i] + rows[i + 1..];
        case None => return Err(QueueFull);
      }
      if now + REQUEST_SECONDS > U64_MAX {
        return Err(OutOfRange);
      }
      var request := NewRequest(id, client, target, now);
      rows := rows + [Row(request, generation)];
      var ok := Save(writes);
      r := if ok then Ok(request) else Err(NotSaved);
    }

    method Decide(id: string, generation: string, target: Target, approve: bool, now: u64, writes: bool)
      returns (r: Result<Request, Error>)
      requires rows == file.rows
      modifies this, file
      ensures Settled(DecideRows(old(rows), id, generation, target, approve, now), writes, old(file.rows), file.rows, r)
    {
      match Find(rows, id)
      case None => return Err(NotFound);
      case Some(i) =>
        var row := rows[i];
        if !row.request.state.Pending? || (approve && (row.generation != generation || row.request.target != target)) {
          return Err(Forbidden);
        }
        row := row.(request := row.request.(state := if approve then Approved else Denied));
        if approve {
          row := row.(request := row.request.(approvedUntil := Some(ApprovalEnd(now, row.request.expiresAt))));
        }
        rows := rows[i := row];
        var ok := Save(writes);
        r := if ok then Ok(row.request) else Err(NotSaved);
    }

    method Claim(id: string, client: string, generation: string, target: Target, operationId: u64, now: u64, writes: bool)
      returns (r: Result<Request, Error>)
      requires rows == file.rows
      modifies this, file
      ensures Settled(ClaimRows(old(rows), id, client, generation, target, operationId, now), writes,
                      old(file.rows), file.rows, r)
      ensures r.Ok? ==> rows == file.rows
    {
      match Find(rows, id)
      case None => return Err(NotFound);
      case Some(i) =>
        var row := rows[i];
        if || row.request.clientId != client || row.generation != generation || row.request.target != target
           || !row.request.state.Approved? || row.request.approvedUntil.None? || now >= row.request.approvedUntil.value
        {
          return Err(Forbidden);
        }
        row := row.(request := row.request.(state := Running));
        row := row.(request := row.request.(startedAt := Some(now)));
        row := row.(request := row.request.(operationId := Some(operationId)));
        rows := rows[i := row];
        var ok := Save(writes);
        r := if ok then Ok(row.request) else Err(NotSaved);
    }

    method Cancel(id: string, client: string, generation: string, writes: bool) returns (r: Result<Request, Error>)
      requires rows == file.rows
      modifies this, file
      ensures Settled(CancelRows(old(rows), id, client, generation), writes, old(file.rows), file.rows, r)
    {
      match Find(rows, id)
      case None => return Err(NotFound);
      case Some(i) =>
        var row := rows[i];
        if row.request.clientId != client || row.generation != generation {
          return Err(Forbidden);
        }
        if row.request.state.Pending? || row.request.state.Approved? {
          row := row.(request := row.request.(state := Cancelled));
        }
        if row.request.state.Running? && row.request.target.kind.Install? {
          row := row.(request := row.request.(cancelRequested := true));
        } else if row.request.state.Running? {
          return Err(Unsupported);
        }
        rows := rows[i := row];
        var ok := Save(writes);
        r := if ok then Ok(row.request) else Err(NotSaved);
    }

    method Finish(id: string, completion: Completion, writes: bool) returns (r: Result<Request, Error>)
      requires rows == file.rows
      modifies this, file
      ensures Settled(FinishRows(old(rows), id, completion), writes, old(file.rows), file.rows, r)
    {
      match Find(rows, id)
      case None => return Err(NotFound);
      case Some(i) =>
        var row := rows[i];
        if !row.request.state.Running? {
          return Err(Forbidden);
        }
        match completion {
          case Completed => row := row.(request := row.request.(state := Succeeded));
          case CancelledByUser => row := row.(request := row.request.(state := Cancelled));
          case RuntimeError =>
            row := row.(request := row.request.(state := Failed));
            row := row.(request := row.request.(failure := Some(RuntimeFailed)));
        }
        rows := rows[i := row];
        var ok := Save(writes);
        r := if ok then Ok(row.request) else Err(NotSaved);
    }

    method RecordProgress(id: string, stage: Option<string>, writes: bool) returns (r: Result<Request, Error>)
      requires rows == file.rows
      modifies this, file
      ensures Settled(ProgressRows(old(rows), id, stage), writes, old(file.rows), file.rows, r)
    {
      match Find(rows, id)
      case None => return Err(NotFound);
      case Some(i) =>
        var request := rows[i].request.(stage := stage);
        rows := rows[i := rows[i].(request := request)];
        var ok := Save(writes);
        r := if ok then Ok(request) else Err(NotSaved);
    }

    /** The request, as its client sees it. */
    method Look(id: string) returns (r: Result<Request, Error>)
      ensures r == match LookRows(rows, id)
        case Err(e) => Err(e)
        case Ok((_, request)) => Ok(request)
    {
      match Find(rows, id)
      case None => return Err(NotFound);
      case Some(i) => return Ok(rows[i].request);
    }

    /**
     * The durable order of an execution, under one lock: claim, then audit, and only then may the
     * worker start. A failed audit consumes the claim.
     */
    method Execute(id: string, client: string, generation: string, target: Target, operationId: u64, now: u64,
                   claimWrites: bool, audits: bool, finishWrites: bool) returns (started: bool)
      requires rows == file.rows
      modifies this, file
      ensures var claim := ClaimRows(old(rows), id, client, generation, target, operationId, now);
        && (started <==> claim.Ok? && claimWrites && audits)
        && (!(claim.Ok? && claimWrites) ==> file.rows == old(file.rows))
        && (started ==> file.rows == claim.value.0)
        && (claim.Ok? && claimWrites && !audits ==>
             var finish := FinishRows(claim.value.0, id, RuntimeError);
             finish.Ok? && file.rows == if finishWrites then finish.value.0 else claim.value.0)
        && (claim.Ok? && claimWrites ==> exists i | 0 <= i < |file.rows| ::
             && file.rows[i].request.id == id
             && file.rows[i].request.state == (if audits || !finishWrites then Running else Failed)
             && file.rows[i].request.failure == (if audits || !finishWrites then claim.value.1.failure else Some(RuntimeFailed)))
    {
      var claimed := Claim(id, client, generation, target, operationId, now, claimWrites);
      if claimed.Err? {
        return false;
      }
      if !audits {
        ClaimedCanFinish(old(rows), id, client, generation, target, operationId, now);
        var _ := Finish(id, RuntimeError, finishWrites);
        assert file.rows[Find(old(rows), id).value].request.id == id;
        return false;
      }
      assert file.rows[Find(old(rows), id).value].request.id == id;
      return true;
    }
  }

  lemma {:induction false} FindUpdated(rows: seq<Row>, i: nat, row: Row)
    requires i < |rows| && row.request.id == rows[i].request.id
    ensures forall id :: Find(rows[i := row], id) == Find(rows, id)
  {
    if i > 0 {
      FindUpdated(rows[1..], i - 1, row);
      assert rows[i := row][1..] == rows[1..][i - 1 := row];
    } else {
      assert rows[i := row][1..] == rows[1..];
    }
  }

  lemma ClaimedCanFinish(rows: seq<Row>, id: string, client: string, generation: string, target: Target,
                         operationId: u64, now: u64)
    requires ClaimRows(rows, id, client, generation, target, operationId, now).Ok?
    ensures FinishRows(ClaimRows(rows, id, client, generation, target, operationId, now).value.0, id, RuntimeError).Ok?
    ensures Find(ClaimRows(rows, id, client, generation, target, operationId, now).value.0, id) == Find(rows, id)
  {
    var i := Find(rows, id).value;
    var row := ClaimRows(rows, id, client, generation, target, operationId, now).value.0[i];
    FindUpdated(rows, i, row);
  }
}
