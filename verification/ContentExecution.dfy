/**
 * Content requests over three stores: proposals and connections under one lock, credentials and grants
 * under others. Owners enroll, revoke, connect and grant while clients ask, claim and post; any call may stop
 * for good between two of its steps.
 */
module ContentExecution {
  import opened Results
  import opened Text
  import opened Credentials
  import opened AgentContent
  import P = AgentPolicy
  import C = ContentRuns
  import G = GatewayStores

  /** A grant, and the generation of the connection it was given on when it allows content. */
  datatype Given = Given(grant: P.Grant, on: Option<string>)

  /** How far a call has come. A job that satisfies `HoldsLock` has the content store locked. */
  datatype Job =
    | Connecting(connection: Connection, todo: set<string>)
    | Disconnecting(app: string, todo: set<string>)
    | Regranting(client: string, app: string, on: string)
    | Deciding(id: string, approve: bool, current: string)
    | Asked(client: string, generation: string, app: string)
    | Permitted(client: string, generation: string, app: string)
    | Ready(client: string, generation: string, app: string)
    | Claiming(client: string, generation: string)
    | Taken(p: Proposal, token: string)
    | Verified(p: Proposal, token: string)
    | Authorized(p: Proposal, token: string)

  datatype World = World(creds: Holders, grants: map<(string, string), Given>, content: C.World,
                         jobs: map<nat, Job>, lock: Option<nat>)

  datatype Event =
    // the gateway's owner calls
    | Enroll(client: string, generation: string)
    | Revoke(client: string)
    | ClearGrants(client: string)
    | RevokeScope(client: string, app: string)
    | GrantOther(grant: P.Grant)
    // connecting and disconnecting an app
    | BeginConnect(pid: nat, connection: Connection)
    | BeginDisconnect(pid: nat, app: string)
    | ClearScope(pid: nat, client: string)
    | SaveConnections(pid: nat, saves: bool)
    // granting content
    | DropProposals(pid: nat, client: string, app: string, fingerprint: string, saves: bool)
    | WriteGrant(pid: nat, write: bool, expiresAt: u64)
    // deciding
    | LookUp(pid: nat, id: string, approve: bool)
    | SaveDecision(pid: nat, identity: Option<string>, now: u64, saves: bool)
    // asking
    | BeginAsk(pid: nat, client: string, app: string)
    | CheckGrant(pid: nat, now: u64)
    | Reauthenticate(pid: nat)
    | SaveProposal(pid: nat, id: string, fingerprint: string, operation: Operation, content: string, now: u64, saves: bool)
    // claiming and posting
    | Authenticate(pid: nat, client: string)
    | Consume(pid: nat, id: string, operation: Operation, identity: Option<string>, now: u64, saves: bool)
    | Verify(pid: nat)
    | Authorize(pid: nat, now: u64)
    | Post(pid: nat)
    | Halt(pid: nat)

  function TurnOf(e: Event): Turn {
    match e
    case Enroll(client, generation) => Enrolled(client, generation)
    case Revoke(client) => Revoked(client)
    case _ => Kept
  }

  function Plain(grants: map<(string, string), Given>): map<(string, string), P.Grant> {
    map k | k in grants :: grants[k].grant
  }

  const CONTENT := {P.ReadContent, P.WriteContent}

  /** A write that the policy permits at this moment. */
  predicate MayWrite(w: World, client: string, app: string, now: u64) {
    IdValid(client) && IdValid(app) && P.Live(Plain(w.grants), client, app, P.WriteContent, now)
  }

  function Without(grants: map<(string, string), Given>, client: string): map<(string, string), Given> {
    map k | k in grants && k.0 != client :: grants[k]
  }

  predicate Free(w: World, pid: nat) { pid !in w.jobs && w.lock.None? }

  predicate Clearing(w: World, pid: nat) { pid in w.jobs && (w.jobs[pid].Connecting? || w.jobs[pid].Disconnecting?) }

  /** A revocation clears the client's grants first, and no content grant is written before it is done. */
  predicate Cleared(w: World, client: string) { forall k | k in w.grants && k.0 == client :: w.grants[k].on.None? }

  predicate Enabled(w: World, e: Event) {
    match e
    case Enroll(_, _) => Admits(w.creds, TurnOf(e))
    case Revoke(client) => Admits(w.creds, TurnOf(e)) && Cleared(w, client)
    case ClearGrants(_) => true
    case RevokeScope(client, _) => client in w.creds.current
    case GrantOther(g) => g.actions !! CONTENT
    case BeginConnect(pid, _) => Free(w, pid)
    case BeginDisconnect(pid, _) => Free(w, pid)
    case ClearScope(pid, client) => Clearing(w, pid) && client in w.jobs[pid].todo && client in w.creds.current
    case SaveConnections(pid, _) => Clearing(w, pid) && w.jobs[pid].todo == {}
    case DropProposals(pid, _, _, _, _) => Free(w, pid)
    case WriteGrant(pid, _, _) => pid in w.jobs && w.jobs[pid].Regranting? && w.jobs[pid].client in w.creds.current
    case LookUp(pid, id, _) =>
      && Free(w, pid) && FindProposal(w.content.state.proposals, id).Some?
      && w.content.state.proposals[FindProposal(w.content.state.proposals, id).value].clientId in w.creds.current
    case SaveDecision(pid, _, _, _) => pid in w.jobs && w.jobs[pid].Deciding?
    case BeginAsk(pid, client, _) => pid !in w.jobs && client in w.creds.current
    case CheckGrant(pid, now) =>
      pid in w.jobs && w.jobs[pid].Asked? && MayWrite(w, w.jobs[pid].client, w.jobs[pid].app, now)
    case Reauthenticate(pid) =>
      pid in w.jobs && w.jobs[pid].Permitted? && Current(w.creds, w.jobs[pid].client, w.jobs[pid].generation)
    case SaveProposal(pid, _, _, _, _, _, _) => pid in w.jobs && w.jobs[pid].Ready? && w.lock.None?
    case Authenticate(pid, client) => pid !in w.jobs && client in w.creds.current
    case Consume(pid, _, _, _, _, _) => pid in w.jobs && w.jobs[pid].Claiming? && w.lock.None?
    case Verify(pid) =>
      pid in w.jobs && w.jobs[pid].Taken? && Current(w.creds, w.jobs[pid].p.clientId, w.jobs[pid].p.clientGeneration)
    case Authorize(pid, _) => pid in w.jobs && w.jobs[pid].Verified?
    case Post(pid) => pid in w.jobs && w.jobs[pid].Authorized?
    case Halt(pid) => pid in w.jobs
  }

  /** The call is over; its lock is released. */
  function Over(w: World, pid: nat): World {
    w.(jobs := w.jobs - {pid}, lock := if w.lock == Some(pid) then None else w.lock)
  }

  function Locked(w: World, pid: nat, j: Job): World { w.(jobs := w.jobs[pid := j], lock := Some(pid)) }

  function Moved(w: World, pid: nat, j: Job): World { w.(jobs := w.jobs[pid := j]) }

  predicate Carries(j: Job) { j.Taken? || j.Verified? || j.Authorized? }

  /** What the content store sees of one step. */
  function ContentEvents(w: World, e: Event): seq<C.Event> {
    if !Enabled(w, e) then []
    else
      match e
      case SaveConnections(pid, saves) =>
        (match w.jobs[pid]
         case Connecting(connection, _) => [C.ConnectApp(connection, saves)]
         case Disconnecting(app, _) => [C.DisconnectApp(app, saves)]
         case _ => [])
      case DropProposals(_, client, app, fingerprint, saves) => [C.GrantScope(client, app, fingerprint, saves)]
      case SaveDecision(pid, identity, now, saves) =>
        var j := w.jobs[pid];
        [C.DecideOne(j.id, j.approve, Some(j.current), identity, now, saves)]
      case SaveProposal(pid, id, fingerprint, operation, content, now, saves) =>
        var j := w.jobs[pid];
        [C.AskCreate(Ask(id, j.client, j.generation, j.app, fingerprint, operation, content), now, saves)]
      case Consume(pid, id, operation, identity, now, saves) =>
        [C.ClaimOne(id, w.jobs[pid].client, w.jobs[pid].generation, operation, identity, now, saves)]
      case Authorize(pid, now) =>
        var p := w.jobs[pid].p;
        if MayWrite(w, p.clientId, p.appId, now) then [] else [C.CrashOne(p.id)]
      case Post(pid) => [C.PostOne(w.jobs[pid].p.id, true)]
      case Halt(pid) => if Carries(w.jobs[pid]) then [C.CrashOne(w.jobs[pid].p.id)] else []
      case _ => []
  }

  function ContentAfter(hash: Hash, w: World, e: Event): C.World {
    var seen := ContentEvents(w, e);
    if seen == [] then w.content else C.Step(hash, w.content, seen[0])
  }

  /** The consumption was saved. */
  predicate Takes(hash: Hash, w: World, e: Event) {
    e.Consume? && ContentAfter(hash, w, e).log != w.content.log && e.id in ContentAfter(hash, w, e).inflight
  }

  /** The calls in progress after a step. */
  function Calls(hash: Hash, w: World, e: Event): World
    requires Enabled(w, e)
  {
    match e
    case BeginConnect(pid, connection) => Locked(w, pid, Connecting(connection, w.creds.current.Keys))
    case BeginDisconnect(pid, app) => Locked(w, pid, Disconnecting(app, w.creds.current.Keys))
    case ClearScope(pid, client) =>
      Moved(w, pid, match w.jobs[pid]
                    case Connecting(connection, todo) => Connecting(connection, todo - {client})
                    case Disconnecting(app, todo) => Disconnecting(app, todo - {client})
                    case other => other)
    case SaveConnections(pid, _) => Over(w, pid)
    case DropProposals(pid, client, app, fingerprint, saves) =>
      var found := FindConnection(w.content.state.connections, app, fingerprint);
      if found.Some? && saves then Locked(w, pid, Regranting(client, app, found.value.generation)) else w
    case WriteGrant(pid, _, _) => Over(w, pid)
    case LookUp(pid, id, approve) =>
      var p := w.content.state.proposals[FindProposal(w.content.state.proposals, id).value];
      Locked(w, pid, Deciding(id, approve, w.creds.current[p.clientId]))
    case SaveDecision(pid, _, _, _) => Over(w, pid)
    case BeginAsk(pid, client, app) => Moved(w, pid, Asked(client, w.creds.current[client], app))
    case CheckGrant(pid, _) => Moved(w, pid, Permitted(w.jobs[pid].client, w.jobs[pid].generation, w.jobs[pid].app))
    case Reauthenticate(pid) => Moved(w, pid, Ready(w.jobs[pid].client, w.jobs[pid].generation, w.jobs[pid].app))
    case SaveProposal(pid, _, _, _, _, _, _) => Over(w, pid)
    case Authenticate(pid, client) => Moved(w, pid, Claiming(client, w.creds.current[client]))
    case Consume(pid, id, _, _, _, _) =>
      if Takes(hash, w, e) then
        var (p, token) := ContentAfter(hash, w, e).inflight[id];
        Locked(w, pid, Taken(p, token))
      else Over(w, pid)
    case Verify(pid) => Moved(w, pid, Verified(w.jobs[pid].p, w.jobs[pid].token))
    case Authorize(pid, now) =>
      var p := w.jobs[pid].p;
      if MayWrite(w, p.clientId, p.appId, now) then Moved(Over(w, pid), pid, Authorized(p, w.jobs[pid].token))
      else Over(w, pid)
    case Post(pid) => Over(w, pid)
    case Halt(pid) => Over(w, pid)
    case _ => w
  }

  function GrantsAfter(w: World, e: Event): map<(string, string), Given>
    requires Enabled(w, e)
  {
    match e
    case Enroll(client, _) => Without(w.grants, client)
    case ClearGrants(client) => Without(w.grants, client)
    case RevokeScope(client, app) => w.grants - {(client, app)}
    case GrantOther(g) => w.grants[(g.clientId, g.appId) := Given(g, None)]
    case ClearScope(pid, client) => w.grants - {(client, Scope(w.jobs[pid]))}
    case WriteGrant(pid, write, expiresAt) =>
      var j := w.jobs[pid];
      var actions := {P.Status, P.ReadContent} + if write then {P.WriteContent} else {};
      w.grants[(j.client, j.app) := Given(P.Grant(j.client, j.app, actions, expiresAt), Some(j.on))]
    case _ => w.grants
  }

  /** The content grant written here is the one that the gateway's owner call writes. */
  lemma WritesGatewayGrant(w: World, pid: nat, write: bool, expiresAt: u64)
    requires Enabled(w, WriteGrant(pid, write, expiresAt))
    ensures var k := (w.jobs[pid].client, w.jobs[pid].app);
      && k in GrantsAfter(w, WriteGrant(pid, write, expiresAt))
      && GrantsAfter(w, WriteGrant(pid, write, expiresAt))[k]
         == Given(P.Grant(k.0, k.1, G.ScopeActions(G.ContentScope(write)), expiresAt), Some(w.jobs[pid].on))
  {
  }

  /** The app whose scopes a connection or disconnection clears. */
  function Scope(j: Job): string
    requires j.Connecting? || j.Disconnecting?
  {
    if j.Connecting? then j.connection.appId else j.app
  }

  function Step(hash: Hash, w: World, e: Event): World {
    if !Enabled(w, e) then w
    else
      Calls(hash, w, e).(creds := Turned(w.creds, TurnOf(e)), grants := GrantsAfter(w, e),
                         content := ContentAfter(hash, w, e))
  }

  const START := World(Holders(map[], {}), map[], C.World(State([], []), map[], []), map[], None)

  function Run(hash: Hash, events: seq<Event>): World {
    if events == [] then START else Step(hash, Run(hash, events[..|events| - 1]), events[|events| - 1])
  }

  /** Random proposal ids are never drawn twice. */
  ghost predicate Proper(hash: Hash, events: seq<Event>) {
    events != [] ==>
      var front, last := events[..|events| - 1], events[|events| - 1];
      Proper(hash, front) && (last.SaveProposal? ==> C.NeverAsked(Run(hash, front).content.log, last.id))
  }

  // ---------- the content store's own run ----------

  function Projected(hash: Hash, events: seq<Event>): seq<C.Event> {
    if events == [] then []
    else
      var front := events[..|events| - 1];
      Projected(hash, front) + ContentEvents(Run(hash, front), events[|events| - 1])
  }

  lemma OneContentEvent(w: World, e: Event)
    ensures |ContentEvents(w, e)| <= 1
    ensures ContentEvents(w, e) != [] && ContentEvents(w, e)[0].AskCreate? ==>
      e.SaveProposal? && ContentEvents(w, e)[0].ask.id == e.id
  {
  }

  lemma RunAppended(hash: Hash, front: seq<C.Event>, e: C.Event)
    ensures C.Run(hash, front + [e]) == C.Step(hash, C.Run(hash, front), e)
    ensures C.Proper(hash, front + [e])
      <==> C.Proper(hash, front) && (e.AskCreate? ==> C.NeverAsked(C.Run(hash, front).log, e.ask.id))
  {
    assert (front + [e])[..|front|] == front;
  }

  /** Whatever the interleaving, the content store goes through one of its own runs. */
  lemma {:induction false} ContentStoreRuns(hash: Hash, events: seq<Event>)
    requires Proper(hash, events)
    ensures C.Proper(hash, Projected(hash, events)) && C.Run(hash, Projected(hash, events)) == Run(hash, events).content
  {
    hide C.Run, C.Proper, C.Step, C.NeverAsked, Calls, GrantsAfter, Turned;
    if events == [] {
      NothingRuns(hash);
    } else {
      var front, e := events[..|events| - 1], events[|events| - 1];
      ContentStoreRuns(hash, front);
      var w := Run(hash, front);
      OneContentEvent(w, e);
      hide ContentEvents;
      ContentStep(hash, w, e);
      var seen := ContentEvents(w, e);
      if seen == [] {
        assert Projected(hash, front) + seen == Projected(hash, front);
      } else {
        assert seen == [seen[0]];
        RunAppended(hash, Projected(hash, front), seen[0]);
      }
    }
  }

  lemma ContentStep(hash: Hash, w: World, e: Event)
    ensures Step(hash, w, e).content == ContentAfter(hash, w, e)
  {
    hide C.Step;
  }

  lemma NothingRuns(hash: Hash)
    ensures C.Proper(hash, []) && C.Run(hash, []) == START.content
  {
  }

  lemma ContentInv(hash: Hash, events: seq<Event>)
    requires Proper(hash, events)
    ensures C.Inv(hash, Run(hash, events).content)
  {
    hide C.Inv, C.Run, Run, Projected;
    ContentStoreRuns(hash, events);
    C.RunKeepsInv(hash, Projected(hash, events));
  }

  // ---------- claims in progress ----------

  predicate HoldsLock(j: Job) {
    j.Connecting? || j.Disconnecting? || j.Regranting? || j.Deciding? || j.Taken? || j.Verified?
  }

  ghost predicate LockSound(w: World) { forall pid | pid in w.jobs && HoldsLock(w.jobs[pid]) :: w.lock == Some(pid) }

  predicate Carrying(w: World, pid: nat) { pid in w.jobs && Carries(w.jobs[pid]) }

  /** Every claim on its way to its app is in flight, each on its own. */
  ghost predicate ClaimsSound(w: World) {
    && (forall pid | Carrying(w, pid) ::
          w.jobs[pid].p.id in w.content.inflight
          && w.content.inflight[w.jobs[pid].p.id] == (w.jobs[pid].p, w.jobs[pid].token))
    && forall pid, q | Carrying(w, pid) && Carrying(w, q) && pid != q :: w.jobs[pid].p.id != w.jobs[q].p.id
  }

  lemma StepKeepsLock(hash: Hash, w: World, e: Event)
    requires LockSound(w)
    ensures LockSound(Step(hash, w, e))
  {
    hide ContentAfter, Takes, GrantsAfter, Turned, MayWrite;
  }

  /** The step ends a claim that was on its way: it is posted, refused or abandoned. */
  predicate Drops(w: World, e: Event) {
    Enabled(w, e) &&
    match e
    case Post(_) => true
    case Halt(pid) => Carries(w.jobs[pid])
    case Authorize(pid, now) => !MayWrite(w, w.jobs[pid].p.clientId, w.jobs[pid].p.appId, now)
    case _ => false
  }

  /** What a step does to the claims in flight. */
  lemma InflightStep(hash: Hash, w: World, e: Event)
    requires !e.Consume?
    ensures Drops(w, e) ==> (e.Post? || e.Halt? || e.Authorize?) && Carrying(w, e.pid)
    ensures var before, after := w.content.inflight, Step(hash, w, e).content.inflight;
      after == if Drops(w, e) then before - {w.jobs[e.pid].p.id} else before
  {
    ContentStep(hash, w, e);
    hide Step, C.Step, MayWrite;
    var seen := ContentEvents(w, e);
    if seen != [] {
      InflightOf(hash, w.content, seen[0]);
    }
  }

  lemma InflightOf(hash: Hash, w: C.World, e: C.Event)
    requires !e.ClaimOne?
    ensures C.Step(hash, w, e).inflight == match e
      case PostOne(id, _) => w.inflight - {id}
      case CrashOne(id) => w.inflight - {id}
      case _ => w.inflight
  {
    hide Connected, Disconnected, Regranted, Requested, Decided;
  }

  /** What a step does to the calls that carry them. */
  lemma CarriedStep(hash: Hash, w: World, e: Event, pid: nat)
    requires !e.Consume? && Carrying(Step(hash, w, e), pid)
    ensures var j := Step(hash, w, e).jobs[pid];
      Carrying(w, pid) && w.jobs[pid].p == j.p && w.jobs[pid].token == j.token
    ensures Drops(w, e) ==> (e.Post? || e.Halt? || e.Authorize?) && pid != e.pid
  {
    hide ContentAfter, Takes, GrantsAfter, Turned, MayWrite;
  }

  /** The connection a proposal was asked under, with this token. */
  function ProposedOn(p: Proposal, token: string): Connection {
    Connection(p.appId, p.fingerprint, token, p.connectionGeneration)
  }

  /** The log gained one fact: this proposal was claimed, for this token. */
  predicate LogsClaim(before: seq<C.Fact>, after: seq<C.Fact>, p: Proposal, token: string) {
    && |after| == |before| + 1 && after[..|before|] == before
    && after[|before|].Claimed? && after[|before|].proposal == C.Core(p) && after[|before|].token == token
  }

  /** A claim in flight is of a proposal that was not in flight, by the client and generation it names. */
  lemma ConsumeStep(hash: Hash, w: World, e: Event)
    requires e.Consume? && Enabled(w, e) && C.Inv(hash, w.content)
    ensures var after := Step(hash, w, e).content;
      if Takes(hash, w, e) then
        && e.id !in w.content.inflight && e.id in after.inflight
        && after.inflight == w.content.inflight[e.id := after.inflight[e.id]]
        && var (p, token) := after.inflight[e.id];
        && p.id == e.id && p.clientId == w.jobs[e.pid].client && p.clientGeneration == w.jobs[e.pid].generation
        && LogsClaim(w.content.log, after.log, p, token) && ProposedOn(p, token) in after.state.connections
      else after.inflight == w.content.inflight
  {
    hide C.Sound, C.Standing, C.ConnectionsMade, Calls, GrantsAfter, Turned;
    var c := C.ClaimOne(e.id, w.jobs[e.pid].client, w.jobs[e.pid].generation, e.operation, e.identity, e.now, e.saves);
    ClaimSteps(hash, w.content, c);
    assert ContentEvents(w, e) == [c];
  }

  lemma ClaimSteps(hash: Hash, w: C.World, c: C.Event)
    requires c.ClaimOne? && C.Inv(hash, w)
    ensures var after := C.Step(hash, w, c);
      if after.log == w.log then after == w
      else
        && c.id !in w.inflight && c.id in after.inflight
        && after.inflight == w.inflight[c.id := after.inflight[c.id]]
        && var (p, token) := after.inflight[c.id];
        && p.id == c.id && p.clientId == c.client && p.clientGeneration == c.generation
        && LogsClaim(w.log, after.log, p, token) && ProposedOn(p, token) in after.state.connections
  {
    hide C.Sound, C.Standing, C.ConnectionsMade;
    var claim := Claimable(w.state, hash, c.id, c.client, c.generation, c.operation, c.identity, c.now);
    if claim.Some? && c.saves {
      var i := C.FindsProposal(hash, w, c.id);
      NotInFlight(hash, w, c.id, i);
    }
  }

  lemma NotInFlight(hash: Hash, w: C.World, id: string, i: nat)
    requires C.Inv(hash, w) && i < |w.state.proposals| && w.state.proposals[i].id == id && !w.state.proposals[i].consumed
    ensures id !in w.inflight
  {
    hide C.Sound, C.Standing, C.ConnectionsMade;
    assert C.Traced(w.state.proposals[i], w.log);
  }

  lemma StepKeepsClaims(hash: Hash, w: World, e: Event)
    requires ClaimsSound(w) && C.Inv(hash, w.content)
    ensures ClaimsSound(Step(hash, w, e))
  {
    hide Step, Enabled, ClaimsSound, C.Inv;
    if e.Consume? {
      ConsumeKeepsClaims(hash, w, e);
    } else {
      OtherKeepsClaims(hash, w, e);
    }
  }

  lemma ConsumeKeepsClaims(hash: Hash, w: World, e: Event)
    requires ClaimsSound(w) && C.Inv(hash, w.content) && e.Consume?
    ensures ClaimsSound(Step(hash, w, e))
  {
    hide ContentAfter, Takes, GrantsAfter, Turned, MayWrite, C.Inv, LogsClaim;
    if Enabled(w, e) {
      ConsumeStep(hash, w, e);
      ContentStep(hash, w, e);
    }
  }

  lemma OtherKeepsClaims(hash: Hash, w: World, e: Event)
    requires ClaimsSound(w) && !e.Consume?
    ensures ClaimsSound(Step(hash, w, e))
  {
    hide Step, Drops;
    InflightStep(hash, w, e);
    forall pid | Carrying(Step(hash, w, e), pid)
      ensures Carrying(w, pid) && w.jobs[pid].p == Step(hash, w, e).jobs[pid].p
      ensures w.jobs[pid].token == Step(hash, w, e).jobs[pid].token
      ensures Drops(w, e) ==> pid != e.pid
    {
      CarriedStep(hash, w, e, pid);
    }
  }

  // ---------- where a call's stages come from ----------

  ghost predicate Happens(hash: Hash, events: seq<Event>, k: nat)
    requires k < |events|
  {
    Enabled(Run(hash, events[..k]), events[k])
  }

  ghost predicate At(w: World, pid: nat, j: Job) { pid in w.jobs && w.jobs[pid] == j }

  /** The step in which a call came to the stage it is at, and that it stayed there. */
  lemma {:induction false} LastStage(hash: Hash, events: seq<Event>, k: nat, pid: nat, j: Job) returns (c: nat)
    requires k <= |events| && At(Run(hash, events[..k]), pid, j)
    ensures c < k && Happens(hash, events, c) && !At(Run(hash, events[..c]), pid, j)
    ensures forall m | c < m <= k :: At(Run(hash, events[..m]), pid, j)
    ensures Run(hash, events[..c + 1]) == Step(hash, Run(hash, events[..c]), events[c])
  {
    hide Calls, GrantsAfter, ContentAfter, Turned;
    RunNext(hash, events, k - 1);
    if At(Run(hash, events[..k - 1]), pid, j) {
      c := LastStage(hash, events, k - 1, pid, j);
    } else {
      c := k - 1;
    }
  }

  lemma RunNext(hash: Hash, events: seq<Event>, k: nat)
    requires k < |events|
    ensures Run(hash, events[..k + 1]) == Step(hash, Run(hash, events[..k]), events[k])
  {
    hide Step;
    assert events[..k + 1][..k] == events[..k];
  }

  /** Each stage of a claim has its own way in. */
  lemma Became(hash: Hash, w: World, e: Event, pid: nat, j: Job)
    requires !At(w, pid, j) && At(Step(hash, w, e), pid, j)
    ensures j.Authorized? ==>
      e.Authorize? && e.pid == pid && At(w, pid, Verified(j.p, j.token)) && MayWrite(w, j.p.clientId, j.p.appId, e.now)
    ensures j.Verified? ==>
      e == Verify(pid) && At(w, pid, Taken(j.p, j.token)) && Current(w.creds, j.p.clientId, j.p.clientGeneration)
    ensures j.Taken? ==>
      e.Consume? && e.pid == pid && Takes(hash, w, e) && ContentAfter(hash, w, e).inflight[e.id] == (j.p, j.token)
    ensures j.Deciding? ==>
      && e == LookUp(pid, j.id, j.approve) && Enabled(w, e)
      && Current(w.creds, w.content.state.proposals[FindProposal(w.content.state.proposals, j.id).value].clientId, j.current)
  {
    hide ContentAfter, Takes, GrantsAfter, Turned, MayWrite, FindProposal;
  }

  // ---------- grants and connections ----------

  predicate Stands(cs: seq<Connection>, app: string, generation: string) {
    exists c | c in cs :: c.appId == app && c.generation == generation
  }

  predicate OnePerApp(cs: seq<Connection>) { forall i, j | 0 <= i < j < |cs| :: cs[i].appId != cs[j].appId }

  /**
   * A grant that allows content is of an enrolled client and was given on the present connection of its app.
   * Connecting and disconnecting have only the scopes left to clear that they set out to clear.
   */
  ghost predicate GrantsStand(w: World) {
    && (forall k | k in w.grants && w.grants[k].on.None? :: w.grants[k].grant.actions !! CONTENT)
    && (forall k | k in w.grants && w.grants[k].on.Some? ::
          k.0 in w.creds.current && Stands(w.content.state.connections, k.1, w.grants[k].on.value))
    && (forall pid, k | Clearing(w, pid) && k in w.grants && w.grants[k].on.Some? && k.1 == Scope(w.jobs[pid]) ::
          k.0 in w.jobs[pid].todo)
    && (forall pid | pid in w.jobs && w.jobs[pid].Regranting? ::
          Stands(w.content.state.connections, w.jobs[pid].app, w.jobs[pid].on))
    && OnePerApp(w.content.state.connections)
  }

  lemma {:induction false} KeptMembers(cs: seq<Connection>, app: string)
    ensures forall c :: c in KeepConnections(cs, app) <==> c in cs && c.appId != app
    ensures OnePerApp(cs) ==> OnePerApp(KeepConnections(cs, app))
  {
    if cs != [] {
      KeptMembers(cs[1..], app);
      var rest := KeepConnections(cs[1..], app);
      assert forall i | 0 <= i < |rest| :: rest[i] in rest;
      assert cs == [cs[0]] + cs[1..];
    }
  }

  /** Only the steps of the lock's holder change what the content store says. */
  lemma StateStep(hash: Hash, w: World, e: Event)
    requires LockSound(w)
    ensures var s, s' := w.content.state, Step(hash, w, e).content.state;
      && (w.lock.Some? && Step(hash, w, e).lock == w.lock ==> s' == s)
      && (!e.SaveConnections? ==> s'.connections == s.connections)
  {
    hide Connected, Disconnected, MayWrite, GrantsAfter, Turned, KeepConnections, Retain;
  }

  lemma SaveKeepsGrants(hash: Hash, w: World, e: Event)
    requires GrantsStand(w) && LockSound(w) && e.SaveConnections?
    ensures GrantsStand(Step(hash, w, e))
  {
    hide MayWrite, KeepConnections, Retain, OnePerApp;
    if Enabled(w, e) {
      var app := Scope(w.jobs[e.pid]);
      var cs := w.content.state.connections;
      var kept := KeepConnections(cs, app);
      KeptMembers(cs, app);
      var w' := Step(hash, w, e);
      var cs' := w'.content.state.connections;
      assert cs' == cs || cs' == kept || (w.jobs[e.pid].Connecting? && cs' == kept + [w.jobs[e.pid].connection]);
      assert forall k | k in w.grants && w.grants[k].on.Some? :: k.1 != app;
      forall k | k in w'.grants && w'.grants[k].on.Some? ensures Stands(cs', k.1, w'.grants[k].on.value) {
        var c :| c in cs && c.appId == k.1 && c.generation == w.grants[k].on.value;
        assert c in cs';
      }
      AddedOne(kept, w.jobs[e.pid]);
    }
  }

  lemma AddedOne(kept: seq<Connection>, j: Job)
    ensures j.Connecting? && OnePerApp(kept) && (forall c | c in kept :: c.appId != Scope(j)) ==>
      OnePerApp(kept + [j.connection])
  {
  }

  predicate OfClient(e: Event) { e.Enroll? || e.Revoke? || e.ClearGrants? }

  predicate OfScope(e: Event) { e.RevokeScope? || e.GrantOther? || e.ClearScope? }

  lemma ClientKeepsGrants(hash: Hash, w: World, e: Event)
    requires GrantsStand(w) && OfClient(e)
    ensures GrantsStand(Step(hash, w, e))
  {
    hide MayWrite, OnePerApp, Stands;
    assert ContentAfter(hash, w, e) == w.content;
    hide ContentAfter, Takes;
  }

  lemma ScopeKeepsGrants(hash: Hash, w: World, e: Event)
    requires GrantsStand(w) && OfScope(e)
    ensures GrantsStand(Step(hash, w, e))
  {
    hide MayWrite, OnePerApp, Stands;
    assert ContentAfter(hash, w, e) == w.content;
    assert Turned(w.creds, Kept) == w.creds;
    hide ContentAfter, Takes, Turned;
  }

  lemma GrantKeepsGrants(hash: Hash, w: World, e: Event)
    requires GrantsStand(w) && LockSound(w) && e.WriteGrant?
    ensures GrantsStand(Step(hash, w, e))
  {
    hide MayWrite, OnePerApp, Stands;
  }

  /** How a call comes to clear scopes or to write a grant. */
  lemma StageStep(hash: Hash, w: World, e: Event, pid: nat)
    requires pid in Step(hash, w, e).jobs && !e.SaveConnections? && !e.WriteGrant? && !OfClient(e) && !OfScope(e)
    ensures var j := Step(hash, w, e).jobs[pid];
      && (j.Connecting? || j.Disconnecting? ==> At(w, pid, j) || j.todo == w.creds.current.Keys)
      && (j.Regranting? ==> At(w, pid, j) || Stands(w.content.state.connections, j.app, j.on))
  {
    hide ContentAfter, Takes, MayWrite, GrantsAfter, Turned;
  }

  lemma OthersKeepGrants(hash: Hash, w: World, e: Event)
    requires GrantsStand(w) && LockSound(w) && !e.SaveConnections? && !e.WriteGrant? && !OfClient(e) && !OfScope(e)
    ensures GrantsStand(Step(hash, w, e))
  {
    hide Calls, ContentAfter, Enabled, OnePerApp, Stands;
    StateStep(hash, w, e);
    var w' := Step(hash, w, e);
    assert w'.grants == w.grants && w'.creds == w.creds;
    forall pid | pid in w'.jobs
      ensures var j := w'.jobs[pid];
        && (j.Connecting? || j.Disconnecting? ==> At(w, pid, j) || j.todo == w.creds.current.Keys)
        && (j.Regranting? ==> At(w, pid, j) || Stands(w.content.state.connections, j.app, j.on))
    {
      StageStep(hash, w, e, pid);
    }
  }

  lemma StepKeepsGrants(hash: Hash, w: World, e: Event)
    requires GrantsStand(w) && LockSound(w)
    ensures GrantsStand(Step(hash, w, e))
  {
    hide Step, GrantsStand, LockSound;
    if e.SaveConnections? {
      SaveKeepsGrants(hash, w, e);
    } else if OfClient(e) {
      ClientKeepsGrants(hash, w, e);
    } else if OfScope(e) {
      ScopeKeepsGrants(hash, w, e);
    } else if e.WriteGrant? {
      GrantKeepsGrants(hash, w, e);
    } else {
      OthersKeepGrants(hash, w, e);
    }
  }

  // ---------- over whole runs ----------

  lemma {:induction false} RunSound(hash: Hash, events: seq<Event>)
    ensures LockSound(Run(hash, events)) && GrantsStand(Run(hash, events))
    ensures Proper(hash, events) ==> ClaimsSound(Run(hash, events))
  {
    hide Step, LockSound, ClaimsSound, GrantsStand, C.Inv;
    if events == [] {
      NothingCalled();
    } else {
      var front, e := events[..|events| - 1], events[|events| - 1];
      RunSound(hash, front);
      StepKeepsLock(hash, Run(hash, front), e);
      StepKeepsGrants(hash, Run(hash, front), e);
      if Proper(hash, events) {
        ContentInv(hash, front);
        StepKeepsClaims(hash, Run(hash, front), e);
      }
    }
  }

  lemma NothingCalled()
    ensures LockSound(START) && ClaimsSound(START) && GrantsStand(START)
  {
  }

  /**
   * In every run, whatever stops half-way: a client whose grant permits content is enrolled, and the grant
   * was given on the connection that its app has now.
   */
  lemma GrantsEndWithConnection(hash: Hash, events: seq<Event>, client: string, app: string, action: P.Action, now: u64)
    requires action in CONTENT && P.Live(Plain(Run(hash, events).grants), client, app, action, now)
    ensures var w := Run(hash, events);
      && client in w.creds.current && w.grants[(client, app)].on.Some?
      && exists c | c in w.content.state.connections ::
           c.appId == app && c.generation == w.grants[(client, app)].on.value
  {
    hide Run;
    RunSound(hash, events);
  }

  lemma {:induction false} ProperPrefix(hash: Hash, events: seq<Event>, k: nat)
    requires Proper(hash, events) && k <= |events|
    ensures Proper(hash, events[..k])
  {
    if k < |events| {
      var front := events[..|events| - 1];
      ProperPrefix(hash, front, k);
      assert front[..k] == events[..k];
    } else {
      assert events[..k] == events;
    }
  }

  /** One call has the content lock from one moment to another. */
  ghost predicate Holds(hash: Hash, events: seq<Event>, c: nat, k: nat, pid: nat)
    requires c <= k <= |events|
  {
    forall m | c <= m <= k :: Run(hash, events[..m]).lock == Some(pid)
  }

  lemma {:induction false} HeldStateStays(hash: Hash, events: seq<Event>, c: nat, k: nat, pid: nat)
    requires c <= k <= |events| && Holds(hash, events, c, k, pid)
    ensures Run(hash, events[..k]).content.state == Run(hash, events[..c]).content.state
  {
    hide Step;
    if c < k {
      HeldStateStays(hash, events, c, k - 1, pid);
      RunNext(hash, events, k - 1);
      RunSound(hash, events[..k - 1]);
      StateStep(hash, Run(hash, events[..k - 1]), events[k - 1]);
    }
  }

  /** The client is enrolled as it was, or has no content grant. */
  predicate CurrentOrCleared(w: World, client: string, generation: string) {
    Current(w.creds, client, generation) || Cleared(w, client)
  }

  lemma HeldStep(hash: Hash, w: World, e: Event, pid: nat, client: string, generation: string)
    requires LockSound(w) && w.lock == Some(pid) && pid in w.jobs && !w.jobs[pid].Regranting?
    requires CurrentOrCleared(w, client, generation)
    ensures CurrentOrCleared(Step(hash, w, e), client, generation)
  {
    hide Calls, ContentAfter, MayWrite;
  }

  lemma StageHolds(hash: Hash, events: seq<Event>, m: nat, pid: nat, j: Job)
    requires m <= |events| && At(Run(hash, events[..m]), pid, j) && HoldsLock(j)
    ensures Run(hash, events[..m]).lock == Some(pid) && LockSound(Run(hash, events[..m]))
  {
    hide Run;
    RunSound(hash, events[..m]);
  }

  /** While a claim holds the content lock, its client loses its enrollment and its content grants together. */
  lemma {:induction false} HeldCurrency(hash: Hash, events: seq<Event>, v: nat, a: nat, pid: nat, j: Job,
                                        client: string, generation: string)
    requires v < a <= |events| && HoldsLock(j) && !j.Regranting?
    requires forall m | v < m <= a :: At(Run(hash, events[..m]), pid, j)
    requires CurrentOrCleared(Run(hash, events[..v + 1]), client, generation)
    ensures CurrentOrCleared(Run(hash, events[..a]), client, generation)
  {
    hide Step, CurrentOrCleared, LockSound;
    if v + 1 < a {
      HeldCurrency(hash, events, v, a - 1, pid, j, client, generation);
      RunNext(hash, events, a - 1);
      StageHolds(hash, events, a - 1, pid, j);
      HeldStep(hash, Run(hash, events[..a - 1]), events[a - 1], pid, client, generation);
    }
  }

  /** A claim that is not verified yet comes from a saved consumption, on a connection that was there. */
  lemma ConsumedBefore(hash: Hash, events: seq<Event>, k: nat, pid: nat, p: Proposal, token: string) returns (c: nat)
    requires Proper(hash, events) && k <= |events| && At(Run(hash, events[..k]), pid, Taken(p, token))
    ensures c < k && events[c].Consume? && events[c].pid == pid && Happens(hash, events, c)
    ensures LogsClaim(Run(hash, events[..c]).content.log, Run(hash, events[..c + 1]).content.log, p, token)
    ensures ProposedOn(p, token) in Run(hash, events[..c + 1]).content.state.connections
    ensures forall m | c < m <= k :: At(Run(hash, events[..m]), pid, Taken(p, token))
  {
    hide Step, Run, Proper, LogsClaim, Enabled, ContentAfter;
    c := LastStage(hash, events, k, pid, Taken(p, token));
    Became(hash, Run(hash, events[..c]), events[c], pid, Taken(p, token));
    ProperPrefix(hash, events, c);
    ContentInv(hash, events[..c]);
    ContentStep(hash, Run(hash, events[..c]), events[c]);
    ConsumeStep(hash, Run(hash, events[..c]), events[c]);
  }

  /** A verified claim was consumed, then found to be of the present credential. */
  lemma VerifiedBefore(hash: Hash, events: seq<Event>, k: nat, pid: nat, p: Proposal, token: string)
    returns (c: nat, v: nat)
    requires Proper(hash, events) && k <= |events| && At(Run(hash, events[..k]), pid, Verified(p, token))
    ensures c < v < k && events[c].Consume? && events[c].pid == pid && Happens(hash, events, c)
    ensures LogsClaim(Run(hash, events[..c]).content.log, Run(hash, events[..c + 1]).content.log, p, token)
    ensures events[v] == Verify(pid) && Happens(hash, events, v)
    ensures Current(Run(hash, events[..v]).creds, p.clientId, p.clientGeneration)
    ensures CurrentOrCleared(Run(hash, events[..k]), p.clientId, p.clientGeneration)
    ensures ProposedOn(p, token) in Run(hash, events[..k]).content.state.connections
  {
    hide Step, Run, Proper, LogsClaim, Enabled, Current, Cleared;
    var j := Verified(p, token);
    v := LastStage(hash, events, k, pid, j);
    Became(hash, Run(hash, events[..v]), events[v], pid, j);
    VerifyKeepsCreds(hash, Run(hash, events[..v]), pid);
    c := ConsumedBefore(hash, events, v, pid, p, token);
    HeldCurrency(hash, events, v, k, pid, j, p.clientId, p.clientGeneration);
    forall m | c + 1 <= m <= k ensures Run(hash, events[..m]).lock == Some(pid) {
      StageHolds(hash, events, m, pid, if m <= v then Taken(p, token) else j);
    }
    HeldStateStays(hash, events, c + 1, k, pid);
  }

  lemma VerifyKeepsCreds(hash: Hash, w: World, pid: nat)
    ensures Step(hash, w, Verify(pid)).creds == w.creds
  {
  }

  /** A post sends what is in flight under its call. */
  lemma PostStep(hash: Hash, w: World, pid: nat)
    requires ClaimsSound(w) && Enabled(w, Post(pid))
    ensures var j := w.jobs[pid];
      Step(hash, w, Post(pid)).content.log == w.content.log + [C.Posted(C.Core(j.p), j.token)]
  {
    assert Carrying(w, pid);
  }

  /** Everything that must hold for a claim to be sent, all at one moment. */
  ghost predicate Authority(w: World, p: Proposal, token: string, now: u64) {
    && Current(w.creds, p.clientId, p.clientGeneration)
    && MayWrite(w, p.clientId, p.appId, now)
    && w.grants[(p.clientId, p.appId)].on == Some(p.connectionGeneration)
    && ProposedOn(p, token) in w.content.state.connections
  }

  /** A live write grant makes the rest follow. */
  lemma GrantCompletes(w: World, p: Proposal, token: string, now: u64)
    requires GrantsStand(w) && CurrentOrCleared(w, p.clientId, p.clientGeneration)
    requires ProposedOn(p, token) in w.content.state.connections && MayWrite(w, p.clientId, p.appId, now)
    ensures Authority(w, p, token, now)
  {
    var k := (p.clientId, p.appId);
    assert w.grants[k].grant == Plain(w.grants)[k];
    assert w.grants[k].on.Some?;
    var cs := w.content.state.connections;
    var c :| c in cs && c.appId == p.appId && c.generation == w.grants[k].on.value;
  }

  /**
   * Everything sent to an app was first consumed, then its client's credential was verified, and then, at one
   * moment, that credential was still the one it was asked under, a live write grant of that client for that
   * app stood, given on the connection it was asked under, and that connection was there with the token that
   * is sent; all in the call that sends it.
   */
  lemma PostIsAuthorized(hash: Hash, events: seq<Event>, k: nat) returns (c: nat, v: nat, a: nat)
    requires Proper(hash, events) && k < |events| && events[k].Post? && Happens(hash, events, k)
    ensures c < v < a < k
    ensures var j := Run(hash, events[..k]).jobs[events[k].pid];
      && Run(hash, events[..k + 1]).content.log == Run(hash, events[..k]).content.log + [C.Posted(C.Core(j.p), j.token)]
      && events[c].Consume? && events[c].pid == events[k].pid && Happens(hash, events, c)
      && LogsClaim(Run(hash, events[..c]).content.log, Run(hash, events[..c + 1]).content.log, j.p, j.token)
      && events[v] == Verify(events[k].pid) && Happens(hash, events, v)
      && events[a].Authorize? && events[a].pid == events[k].pid && Happens(hash, events, a)
      && Authority(Run(hash, events[..a]), j.p, j.token, events[a].now)
      && Current(Run(hash, events[..a + 1]).creds, j.p.clientId, j.p.clientGeneration)
  {
    hide Step, Run, Proper, MayWrite, LogsClaim, Enabled, ClaimsSound, Current, GrantsStand, CurrentOrCleared;
    var pid := events[k].pid;
    PostHasJob(Run(hash, events[..k]), pid);
    var j := Run(hash, events[..k]).jobs[pid];
    ProperPrefix(hash, events, k);
    RunSound(hash, events[..k]);
    PostStep(hash, Run(hash, events[..k]), pid);
    RunNext(hash, events, k);
    a := LastStage(hash, events, k, pid, j);
    Became(hash, Run(hash, events[..a]), events[a], pid, j);
    c, v := VerifiedBefore(hash, events, a, pid, j.p, j.token);
    RunSound(hash, events[..a]);
    GrantCompletes(Run(hash, events[..a]), j.p, j.token, events[a].now);
    AuthorizeKeepsCreds(hash, Run(hash, events[..a]), events[a]);
  }

  lemma AuthorizeKeepsCreds(hash: Hash, w: World, e: Event)
    requires e.Authorize?
    ensures Step(hash, w, e).creds == w.creds
  {
  }

  lemma PostHasJob(w: World, pid: nat)
    requires Enabled(w, Post(pid))
    ensures pid in w.jobs && w.jobs[pid].Authorized?
  {
  }

  // ---------- approvals and posts under a revoked generation ----------

  ghost predicate RevokedBetween(hash: Hash, events: seq<Event>, c: nat, k: nat, client: string)
    requires k <= |events|
  {
    exists m | c < m < k :: events[m] == Revoke(client) && Happens(hash, events, m)
  }

  /** What one step of a run does to the credentials. */
  ghost function TurnAt(hash: Hash, events: seq<Event>, m: nat): Turn
    requires m < |events|
  {
    if Happens(hash, events, m) then TurnOf(events[m]) else Kept
  }

  ghost function Turns(hash: Hash, events: seq<Event>, i: nat, k: nat): seq<Turn>
    requires i <= k <= |events|
  {
    seq(k - i, m requires 0 <= m < k - i => TurnAt(hash, events, i + m))
  }

  lemma {:induction false} RunTurns(hash: Hash, events: seq<Event>, i: nat, k: nat)
    requires i <= k <= |events|
    ensures Run(hash, events[..k]).creds == After(Run(hash, events[..i]).creds, Turns(hash, events, i, k))
  {
    hide Step, Turned, Happens;
    if i < k {
      RunTurns(hash, events, i, k - 1);
      RunNext(hash, events, k - 1);
      assert Turns(hash, events, i, k)[..k - 1 - i] == Turns(hash, events, i, k - 1);
      CredsStep(hash, events, k - 1);
    }
  }

  lemma CredsStep(hash: Hash, events: seq<Event>, k: nat)
    requires k < |events|
    ensures Step(hash, Run(hash, events[..k]), events[k]).creds
         == Turned(Run(hash, events[..k]).creds, TurnAt(hash, events, k))
  {
    hide Calls, ContentAfter, GrantsAfter;
  }

  lemma CredsSound(hash: Hash, events: seq<Event>, k: nat)
    requires k <= |events|
    ensures Sound(Run(hash, events[..k]).creds)
  {
    RunTurns(hash, events, 0, k);
    AfterSound(START.creds, Turns(hash, events, 0, k));
  }

  /** From a moment on, a generation stays its client's present one exactly until the client is revoked. */
  lemma CurrentExactly(hash: Hash, events: seq<Event>, c: nat, k: nat, client: string, generation: string)
    requires c < k <= |events| && Current(Run(hash, events[..c + 1]).creds, client, generation)
    ensures Current(Run(hash, events[..k]).creds, client, generation)
      <==> !RevokedBetween(hash, events, c, k, client)
  {
    hide Run, After, Current, Enabled, Happens;
    CredsSound(hash, events, c + 1);
    RunTurns(hash, events, c + 1, k);
    var since := Turns(hash, events, c + 1, k);
    CurrentUntilRevoked(Run(hash, events[..c + 1]).creds, since, client, generation);
    if RevokedBetween(hash, events, c, k, client) {
      var m :| c < m < k && events[m] == Revoke(client) && Happens(hash, events, m);
      assert since[m - c - 1] == TurnAt(hash, events, m);
    }
    if Revoked(client) in since {
      var i :| 0 <= i < |since| && since[i] == Revoked(client);
      assert TurnAt(hash, events, c + 1 + i) == Revoked(client);
      assert events[c + 1 + i] == Revoke(client) && Happens(hash, events, c + 1 + i);
    }
  }

  /**
   * Something is sent under a generation that is no longer its client's present one if and only if the client
   * was revoked between the authorization and the sending.
   */
  lemma PostStaleExactly(hash: Hash, events: seq<Event>, k: nat) returns (a: nat)
    requires Proper(hash, events) && k < |events| && events[k].Post? && Happens(hash, events, k)
    ensures var w := Run(hash, events[..k]);
      var p := w.jobs[events[k].pid].p;
      && a < k && events[a].Authorize? && events[a].pid == events[k].pid && Happens(hash, events, a)
      && (!Current(w.creds, p.clientId, p.clientGeneration) <==> RevokedBetween(hash, events, a, k, p.clientId))
  {
    hide Run, Proper, Authority, Current, LogsClaim;
    var c, v;
    c, v, a := PostIsAuthorized(hash, events, k);
    var p := Run(hash, events[..k]).jobs[events[k].pid].p;
    CurrentExactly(hash, events, a, k, p.clientId, p.clientGeneration);
  }

  /**
   * A decision is saved under a generation that is no longer its client's present one if and only if the
   * client was revoked between the owner's look at the credentials and the saving.
   */
  lemma DecisionStaleExactly(hash: Hash, events: seq<Event>, k: nat) returns (c: nat)
    requires k < |events| && events[k].SaveDecision? && Happens(hash, events, k)
    requires Run(hash, events[..k + 1]).content.log != Run(hash, events[..k]).content.log
    ensures var w := Run(hash, events[..k]);
      var j := w.jobs[events[k].pid];
      && c < k && events[c] == LookUp(events[k].pid, j.id, j.approve) && Happens(hash, events, c)
      && FindProposal(w.content.state.proposals, j.id).Some?
      && var p := w.content.state.proposals[FindProposal(w.content.state.proposals, j.id).value];
      && j.current == p.clientGeneration
      && (!Current(w.creds, p.clientId, p.clientGeneration) <==> RevokedBetween(hash, events, c, k, p.clientId))
  {
    hide Run, Proper, Current, Calls, Step;
    var pid := events[k].pid;
    var w := Run(hash, events[..k]);
    var j := w.jobs[pid];
    RunNext(hash, events, k);
    SavedDecision(hash, w, events[k]);
    c := LastStage(hash, events, k, pid, j);
    var u := Run(hash, events[..c]);
    Became(hash, u, events[c], pid, j);
    LookKeeps(hash, u, events[c]);
    forall m | c + 1 <= m <= k ensures Run(hash, events[..m]).lock == Some(pid) {
      StageHolds(hash, events, m, pid, j);
    }
    HeldStateStays(hash, events, c + 1, k, pid);
    var p := w.content.state.proposals[FindProposal(w.content.state.proposals, j.id).value];
    CurrentExactly(hash, events, c, k, p.clientId, p.clientGeneration);
  }

  lemma SavedDecision(hash: Hash, w: World, e: Event)
    requires e.SaveDecision? && Enabled(w, e) && Step(hash, w, e).content.log != w.content.log
    ensures var j := w.jobs[e.pid];
      && FindProposal(w.content.state.proposals, j.id).Some?
      && w.content.state.proposals[FindProposal(w.content.state.proposals, j.id).value].clientGeneration == j.current
  {
  }

  lemma LookKeeps(hash: Hash, w: World, e: Event)
    requires e.LookUp?
    ensures Step(hash, w, e).creds == w.creds && Step(hash, w, e).content == w.content
  {
  }

  // ---------- such a post happens ----------

  /** One client, one connected app, and a content grant; no call is in progress. */
  ghost predicate Scene(w: World, c: Connection, ask: Ask, expiresAt: u64) {
    && w.creds.current == map[ask.client := ask.generation]
    && w.grants == map[(ask.client, ask.app) :=
         Given(P.Grant(ask.client, ask.app, {P.Status, P.ReadContent, P.WriteContent}, expiresAt), Some(c.generation))]
    && w.content.state.connections == [c] && c.appId == ask.app && c.fingerprint == ask.fingerprint
    && w.content.inflight == map[] && w.jobs == map[] && w.lock == None
    && IdValid(ask.client) && IdValid(ask.app)
  }

  lemma Then(hash: Hash, events: seq<Event>, e: Event)
    requires Proper(hash, events)
    requires e.SaveProposal? ==> C.NeverAsked(Run(hash, events).content.log, e.id)
    ensures Proper(hash, events + [e]) && Run(hash, events + [e]) == Step(hash, Run(hash, events), e)
  {
    assert (events + [e])[..|events|] == events;
  }

  lemma Begun(hash: Hash) returns (events: seq<Event>)
    ensures Proper(hash, events) && Run(hash, events) == START
  {
    events := [];
  }

  lemma Did(hash: Hash, events: seq<Event>, e: Event) returns (after: seq<Event>)
    requires Proper(hash, events) && !e.SaveProposal?
    ensures Proper(hash, after) && after == events + [e] && Run(hash, after) == Step(hash, Run(hash, events), e)
  {
    after := events + [e];
    Then(hash, events, e);
  }

  lemma ConnectingStage(hash: Hash, c: Connection, ask: Ask) returns (events: seq<Event>)
    ensures Proper(hash, events)
    ensures Run(hash, events) == START.(creds := Holders(map[ask.client := ask.generation], {ask.generation}),
        jobs := map[0 := Connecting(c, {ask.client})], lock := Some(0))
  {
    hide Run, Proper, MayWrite, Takes, C.Step;
    events := Begun(hash);
    events := Did(hash, events, Enroll(ask.client, ask.generation));
    assert Run(hash, events).creds.current.Keys == {ask.client};
    events := Did(hash, events, BeginConnect(0, c));
  }

  lemma ConnectedOnce(hash: Hash, c: Connection, ask: Ask) returns (events: seq<Event>)
    requires c.appId == ask.app
    ensures Proper(hash, events)
    ensures Run(hash, events) == START.(creds := Holders(map[ask.client := ask.generation], {ask.generation}),
        content := C.World(State([c], []), map[], [C.Reset(None, c.appId), C.Made(c)]))
  {
    hide Run, Proper, MayWrite, Takes;
    events := ConnectingStage(hash, c, ask);
    var w := Run(hash, events);
    events := Did(hash, events, ClearScope(0, ask.client));
    assert {ask.client} - {ask.client} == {} && w.grants - {(ask.client, ask.app)} == w.grants;
    assert Run(hash, events) == w.(jobs := map[0 := Connecting(c, {})]);
    events := Did(hash, events, SaveConnections(0, true));
  }

  lemma Granted(hash: Hash, c: Connection, ask: Ask, expiresAt: u64) returns (events: seq<Event>)
    requires c.appId == ask.app && c.fingerprint == ask.fingerprint && IdValid(ask.client) && IdValid(ask.app)
    ensures Proper(hash, events) && Scene(Run(hash, events), c, ask, expiresAt)
    ensures var w := Run(hash, events);
      w.content.state.proposals == [] && C.NeverAsked(w.content.log, ask.id)
  {
    hide Run, Proper, IdValid, MayWrite, Takes;
    events := ConnectedOnce(hash, c, ask);
    var w := Run(hash, events);
    events := Did(hash, events, DropProposals(0, ask.client, ask.app, ask.fingerprint, true));
    assert Run(hash, events)
        == w.(content := w.content.(log := w.content.log + [C.Reset(Some(ask.client), ask.app)]),
              jobs := map[0 := Regranting(ask.client, ask.app, c.generation)], lock := Some(0));
    events := Did(hash, events, WriteGrant(0, true, expiresAt));
    assert {P.Status, P.ReadContent} + {P.WriteContent} == {P.Status, P.ReadContent, P.WriteContent};
  }

  lemma PermittedStage(hash: Hash, before: seq<Event>, c: Connection, ask: Ask, now: u64, expiresAt: u64)
    returns (events: seq<Event>)
    requires Proper(hash, before) && Scene(Run(hash, before), c, ask, expiresAt) && now < expiresAt
    ensures Proper(hash, events)
    ensures Run(hash, events) == Run(hash, before).(jobs := map[1 := Permitted(ask.client, ask.generation, ask.app)])
  {
    hide Run, Proper, IdValid, ContentAfter, Takes;
    var w := Run(hash, before);
    NoContentEvent(hash, w, BeginAsk(1, ask.client, ask.app));
    events := Did(hash, before, BeginAsk(1, ask.client, ask.app));
    assert Run(hash, events) == w.(jobs := map[1 := Asked(ask.client, ask.generation, ask.app)]);
    NoContentEvent(hash, Run(hash, events), CheckGrant(1, now));
    events := Did(hash, events, CheckGrant(1, now));
  }

  lemma NoContentEvent(hash: Hash, w: World, e: Event)
    requires e.BeginAsk? || e.CheckGrant? || e.Reauthenticate?
    ensures ContentAfter(hash, w, e) == w.content
  {
  }

  lemma Proposed(hash: Hash, before: seq<Event>, c: Connection, ask: Ask, now: u64, expiresAt: u64)
    returns (events: seq<Event>)
    requires Proper(hash, before) && Scene(Run(hash, before), c, ask, expiresAt) && now < expiresAt
    requires Run(hash, before).content.state.proposals == [] && C.NeverAsked(Run(hash, before).content.log, ask.id)
    ensures Proper(hash, events) && Scene(Run(hash, events), c, ask, expiresAt)
    ensures Run(hash, events).content.state.proposals == [NewProposal(hash, ask, c.generation, now)]
  {
    hide Run, Proper, IdValid, C.NeverAsked, Takes, MayWrite;
    events := PermittedStage(hash, before, c, ask, now, expiresAt);
    NoContentEvent(hash, Run(hash, events), Reauthenticate(1));
    events := Did(hash, events, Reauthenticate(1));
    assert Run(hash, events) == Run(hash, before).(jobs := map[1 := Ready(ask.client, ask.generation, ask.app)]);
    var e := SaveProposal(1, ask.id, ask.fingerprint, ask.operation, ask.content, now, true);
    Then(hash, events, e);
    events := events + [e];
  }

  /** The proposal as the owner approves it. */
  function ApprovedAt(hash: Hash, ask: Ask, generation: string, now: nat): Proposal {
    NewProposal(hash, ask, generation, now).(approvedUntil := Some(now + APPROVAL_SECONDS))
  }

  lemma DecidingStage(hash: Hash, before: seq<Event>, c: Connection, ask: Ask, now: u64, expiresAt: u64)
    returns (events: seq<Event>)
    requires Proper(hash, before) && Scene(Run(hash, before), c, ask, expiresAt)
    requires Run(hash, before).content.state.proposals == [NewProposal(hash, ask, c.generation, now)]
    ensures Proper(hash, events)
    ensures Run(hash, events)
         == Run(hash, before).(jobs := map[0 := Deciding(ask.id, true, ask.generation)], lock := Some(0))
  {
    hide Run, Proper, IdValid, MayWrite, Takes, C.Step;
    events := Did(hash, before, LookUp(0, ask.id, true));
  }

  lemma ApprovingStep(hash: Hash, w: World, ask: Ask, generation: string, now: u64)
    requires w.jobs == map[0 := Deciding(ask.id, true, ask.generation)] && w.lock == Some(0)
    requires w.content.state.proposals == [NewProposal(hash, ask, generation, now)]
    ensures var w' := Step(hash, w, SaveDecision(0, Some(ask.fingerprint), now, true));
      && w' == w.(jobs := map[], lock := None, content := w'.content)
      && w'.content.inflight == w.content.inflight
      && w'.content.state == w.content.state.(proposals := [ApprovedAt(hash, ask, generation, now)])
  {
    hide MayWrite, Takes;
  }

  lemma ApprovedOnce(hash: Hash, before: seq<Event>, c: Connection, ask: Ask, now: u64, expiresAt: u64)
    returns (events: seq<Event>)
    requires Proper(hash, before) && Scene(Run(hash, before), c, ask, expiresAt)
    requires Run(hash, before).content.state.proposals == [NewProposal(hash, ask, c.generation, now)]
    ensures Proper(hash, events) && Scene(Run(hash, events), c, ask, expiresAt)
    ensures Run(hash, events).content.state.proposals == [ApprovedAt(hash, ask, c.generation, now)]
  {
    hide Run, Proper, IdValid, Step;
    events := DecidingStage(hash, before, c, ask, now, expiresAt);
    ApprovingStep(hash, Run(hash, events), ask, c.generation, now);
    events := Did(hash, events, SaveDecision(0, Some(ask.fingerprint), now, true));
  }

  /** For every client, app, connection and content: a run that saves an approval after the client was revoked. */
  lemma LateApproval(hash: Hash, c: Connection, ask: Ask, now: u64, expiresAt: u64) returns (events: seq<Event>)
    requires c.appId == ask.app && c.fingerprint == ask.fingerprint && IdValid(ask.client) && IdValid(ask.app)
    requires now < expiresAt
    ensures Proper(hash, events) && ask.client !in Run(hash, events).creds.current
    ensures Run(hash, events).content.state.proposals == [ApprovedAt(hash, ask, c.generation, now)]
  {
    hide Run, Proper, IdValid, MayWrite, Takes, C.NeverAsked;
    events := Granted(hash, c, ask, expiresAt);
    events := Proposed(hash, events, c, ask, now, expiresAt);
    events := DecidingStage(hash, events, c, ask, now, expiresAt);
    var w := Run(hash, events);
    events := Did(hash, events, ClearGrants(ask.client));
    assert Run(hash, events) == w.(grants := map[]);
    events := Did(hash, events, Revoke(ask.client));
    ApprovingStep(hash, Run(hash, events), ask, c.generation, now);
    events := Did(hash, events, SaveDecision(0, Some(ask.fingerprint), now, true));
  }

  lemma ClaimingStage(hash: Hash, before: seq<Event>, c: Connection, ask: Ask, expiresAt: u64) returns (events: seq<Event>)
    requires Proper(hash, before) && Scene(Run(hash, before), c, ask, expiresAt)
    ensures Proper(hash, events)
    ensures Run(hash, events) == Run(hash, before).(jobs := map[1 := Claiming(ask.client, ask.generation)])
  {
    hide Run, Proper, IdValid, MayWrite, Takes, C.Step;
    events := Did(hash, before, Authenticate(1, ask.client));
  }

  lemma ConsumedOnce(hash: Hash, before: seq<Event>, c: Connection, ask: Ask, now: u64, expiresAt: u64)
    returns (events: seq<Event>)
    requires Proper(hash, before) && Scene(Run(hash, before), c, ask, expiresAt)
    requires Run(hash, before).content.state.proposals == [ApprovedAt(hash, ask, c.generation, now)]
    ensures Proper(hash, events)
    ensures var w, p := Run(hash, before), ApprovedAt(hash, ask, c.generation, now);
      && Run(hash, events) == w.(jobs := map[1 := Taken(p, c.token)], lock := Some(1), content := Run(hash, events).content)
      && Run(hash, events).content.inflight == map[ask.id := (p, c.token)]
  {
    hide Run, Proper, IdValid, MayWrite;
    events := ClaimingStage(hash, before, c, ask, expiresAt);
    events := Did(hash, events, Consume(1, ask.id, ask.operation, Some(ask.fingerprint), now, true));
  }

  lemma AuthorizedOnce(hash: Hash, before: seq<Event>, c: Connection, ask: Ask, now: u64, expiresAt: u64)
    returns (events: seq<Event>)
    requires Proper(hash, before) && Scene(Run(hash, before), c, ask, expiresAt) && now < expiresAt
    requires Run(hash, before).content.state.proposals == [ApprovedAt(hash, ask, c.generation, now)]
    ensures Proper(hash, events)
    ensures var w, w', p := Run(hash, before), Run(hash, events), ApprovedAt(hash, ask, c.generation, now);
      && w' == w.(jobs := map[1 := Authorized(p, c.token)], content := w'.content)
      && w'.content.inflight == map[ask.id := (p, c.token)]
  {
    hide Run, Proper, IdValid, C.Step, Takes;
    events := ConsumedOnce(hash, before, c, ask, now, expiresAt);
    var w, p := Run(hash, events), ApprovedAt(hash, ask, c.generation, now);
    events := Did(hash, events, Verify(1));
    assert Run(hash, events) == w.(jobs := map[1 := Verified(p, c.token)]);
    events := Did(hash, events, Authorize(1, now));
  }

  /** For every client, app, connection and content: a run that posts after the client was revoked. */
  lemma LatePost(hash: Hash, c: Connection, ask: Ask, now: u64, expiresAt: u64) returns (events: seq<Event>)
    requires c.appId == ask.app && c.fingerprint == ask.fingerprint && IdValid(ask.client) && IdValid(ask.app)
    requires now < expiresAt
    ensures Proper(hash, events) && ask.client !in Run(hash, events).creds.current
    ensures var log := Run(hash, events).content.log;
      log != [] && log[|log| - 1] == C.Posted(NewProposal(hash, ask, c.generation, now), c.token)
  {
    hide Run, Proper, IdValid, C.NeverAsked, Takes, MayWrite;
    events := Granted(hash, c, ask, expiresAt);
    events := Proposed(hash, events, c, ask, now, expiresAt);
    events := ApprovedOnce(hash, events, c, ask, now, expiresAt);
    events := AuthorizedOnce(hash, events, c, ask, now, expiresAt);
    var w := Run(hash, events);
    events := Did(hash, events, ClearGrants(ask.client));
    assert Run(hash, events) == w.(grants := map[]);
    events := Did(hash, events, Revoke(ask.client));
    events := Did(hash, events, Post(1));
  }
}
