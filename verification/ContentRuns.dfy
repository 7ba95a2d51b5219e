/**
 * Whole runs of content requests: owner steps, client calls and crashes in any order, with the write
 * to the app as a separate step that may never come.
 */
module ContentRuns {
  import opened Results
  import opened AgentContent

  datatype Event =
    | ConnectApp(connection: Connection, saves: bool)
    | DisconnectApp(app: string, saves: bool)
    | GrantScope(client: string, app: string, fingerprint: string, saves: bool)
    | AskCreate(ask: Ask, now: nat, saves: bool)
    | DecideOne(id: string, approve: bool, current: Option<string>, identity: Option<string>, now: nat, saves: bool)
    | ClaimOne(id: string, client: string, generation: string, operation: Operation, identity: Option<string>, now: nat, saves: bool)
    | PostOne(id: string, authorized: bool)
    | CrashOne(id: string)

  /** A proposal as it was asked for. */
  function Core(p: Proposal): Proposal { p.(approvedUntil := None, consumed := false) }

  datatype Fact =
    | Made(connection: Connection)
    | Reset(client: Option<string>, app: string)
    | Asked(proposal: Proposal)
    | Approved(id: string, argumentsHash: string, generation: string, identity: Option<string>, at: nat, until: nat)
    | Refused(id: string)
    | Claimed(proposal: Proposal, claimer: string, generation: string, operation: Operation, identity: Option<string>,
              at: nat, until: nat, token: string)
    | Posted(proposal: Proposal, token: string)

  /** `inflight` holds what claims have returned and no process has sent yet. */
  datatype World = World(state: State, inflight: map<string, (Proposal, string)>, log: seq<Fact>)

  function Settle(w: World, change: Change, saves: bool, facts: seq<Fact>): World {
    if change.Ok? && saves then w.(state := change.value, log := w.log + facts) else w
  }

  function Step(hash: Hash, w: World, e: Event): World {
    match e
    case ConnectApp(c, saves) => Settle(w, Connected(w.state, c), saves, [Reset(None, c.appId), Made(c)])
    case DisconnectApp(app, saves) => Settle(w, Disconnected(w.state, app), saves, [Reset(None, app)])
    case GrantScope(client, app, fingerprint, saves) =>
      Settle(w, Regranted(w.state, client, app, fingerprint), saves, [Reset(Some(client), app)])
    case AskCreate(ask, now, saves) =>
      var change := Requested(w.state, hash, ask, now);
      var n := if change.Ok? then |change.value.proposals| else 0;
      Settle(w, change, saves, if n > 0 then [Asked(change.value.proposals[n - 1])] else [])
    case DecideOne(id, approve, current, identity, now, saves) =>
      var change := Decided(w.state, hash, id, approve, current, identity, now);
      var found := FindProposal(w.state.proposals, id);
      Settle(w, change, saves,
             if approve && found.Some? && current.Some? then
               var p := w.state.proposals[found.value];
               [Approved(id, p.argumentsHash, current.value, identity, now, ApprovalEnd(now, p.expiresAt))]
             else if approve then [] else [Refused(id)])
    case ClaimOne(id, client, generation, operation, identity, now, saves) =>
      (match Claimable(w.state, hash, id, client, generation, operation, identity, now)
       case None => w
       case Some((i, c)) =>
         if !saves then w
         else
           var p := w.state.proposals[i];
           World(Consume(w.state, i), w.inflight[id := (p, c.token)],
                 w.log + [Claimed(Core(p), client, generation, operation, identity, now, p.approvedUntil.value, c.token)]))
    case PostOne(id, authorized) =>
      if id !in w.inflight then w
      else
        var (p, token) := w.inflight[id];
        World(w.state, w.inflight - {id}, if authorized then w.log + [Posted(Core(p), token)] else w.log)
    case CrashOne(id) => w.(inflight := w.inflight - {id})
  }

  function Run(hash: Hash, events: seq<Event>): World {
    if events == [] then World(State([], []), map[], [])
    else Step(hash, Run(hash, events[..|events| - 1]), events[|events| - 1])
  }

  ghost predicate NeverAsked(log: seq<Fact>, id: string) {
    forall f | f in log && f.Asked? :: f.proposal.id != id
  }

  /** Random proposal ids are never drawn twice. */
  ghost predicate Proper(hash: Hash, events: seq<Event>) {
    events != [] ==>
      var front, last := events[..|events| - 1], events[|events| - 1];
      Proper(hash, front) && (last.AskCreate? ==> NeverAsked(Run(hash, front).log, last.ask.id))
  }

  // ---------- the invariant ----------

  predicate Resets(f: Fact, p: Proposal) {
    f.Reset? && f.app == p.appId && (f.client.None? || f.client.value == p.clientId)
  }

  /** The proposal was asked for, and its scope has not been reset since. */
  ghost predicate Standing(log: seq<Fact>, p: Proposal) {
    exists i | 0 <= i < |log| :: log[i] == Asked(p) && forall j | i < j < |log| :: !Resets(log[j], p)
  }

  ghost predicate Unclaimed(log: seq<Fact>, id: string) {
    forall f | f in log && f.Claimed? :: f.proposal.id != id
  }

  ghost predicate Unposted(log: seq<Fact>, id: string) {
    forall f | f in log && f.Posted? :: f.proposal.id != id
  }

  /** The owner approved these arguments, having found the client's credential to be the one that asked. */
  ghost predicate ApprovedAs(log: seq<Fact>, p: Proposal, until: nat) {
    exists f | f in log :: f.Approved? && f.id == p.id && f.argumentsHash == p.argumentsHash
                           && f.generation == p.clientGeneration && f.identity == Some(p.fingerprint)
                           && f.until == until == ApprovalEnd(f.at, p.expiresAt)
  }

  ghost predicate MadeAs(log: seq<Fact>, p: Proposal, token: string) {
    Made(Connection(p.appId, p.fingerprint, token, p.connectionGeneration)) in log
  }

  ghost predicate ClaimedAs(log: seq<Fact>, p: Proposal, token: string) {
    exists f | f in log :: f.Claimed? && f.proposal == p && f.token == token
  }

  /** What must have come before a fact. */
  ghost predicate Justified(hash: Hash, log: seq<Fact>, f: Fact) {
    match f
    case Asked(p) => NeverAsked(log, p.id) && p.argumentsHash == hash(p.operation, p.content)
    case Claimed(p, claimer, generation, operation, identity, at, until, token) =>
      && Unclaimed(log, p.id) && Refused(p.id) !in log && Standing(log, p)
      && claimer == p.clientId && generation == p.clientGeneration
      && operation == p.operation && identity == Some(p.fingerprint) && at < p.expiresAt
      && p.argumentsHash == hash(p.operation, p.content)
      && ApprovedAs(log, p, until) && at < until
      && MadeAs(log, p, token)
    case Refused(id) => !NeverAsked(log, id)
    case Posted(p, token) => Unposted(log, p.id) && ClaimedAs(log, p, token)
    case _ => true
  }

  ghost predicate Sound(hash: Hash, log: seq<Fact>) {
    log != [] ==> Sound(hash, log[..|log| - 1]) && Justified(hash, log[..|log| - 1], log[|log| - 1])
  }

  ghost predicate Traced(p: Proposal, log: seq<Fact>) {
    && Standing(log, Core(p))
    && (p.approvedUntil.Some? ==> ApprovedAs(log, p, p.approvedUntil.value))
    && (!p.consumed ==> Unclaimed(log, p.id) && Refused(p.id) !in log)
  }

  ghost predicate DistinctIds(ps: seq<Proposal>) {
    forall i, j | 0 <= i < j < |ps| :: ps[i].id != ps[j].id
  }

  ghost predicate ConnectionsMade(cs: seq<Connection>, log: seq<Fact>) {
    forall i | 0 <= i < |cs| :: Made(cs[i]) in log
  }

  ghost predicate InflightTraced(inflight: map<string, (Proposal, string)>, log: seq<Fact>) {
    forall id | id in inflight ::
      inflight[id].0.id == id && ClaimedAs(log, Core(inflight[id].0), inflight[id].1) && Unposted(log, id)
  }

  ghost predicate AllTraced(ps: seq<Proposal>, log: seq<Fact>) {
    forall i | 0 <= i < |ps| :: Traced(ps[i], log)
  }

  ghost predicate Inv(hash: Hash, w: World) {
    && |w.state.connections| <= MAX_CONNECTIONS && |w.state.proposals| <= MAX_PROPOSALS
    && DistinctIds(w.state.proposals)
    && AllTraced(w.state.proposals, w.log)
    && ConnectionsMade(w.state.connections, w.log)
    && InflightTraced(w.inflight, w.log)
    && Sound(hash, w.log)
  }

  lemma SoundAfter(hash: Hash, log: seq<Fact>, f: Fact)
    requires Sound(hash, log) && Justified(hash, log, f)
    ensures Sound(hash, log + [f])
  {
    assert (log + [f])[..|log|] == log;
  }

  lemma StandingAfter(log: seq<Fact>, f: Fact, p: Proposal)
    requires Standing(log, p) && !Resets(f, p)
    ensures Standing(log + [f], p)
  {
    var i :| 0 <= i < |log| && log[i] == Asked(p) && forall j | i < j < |log| :: !Resets(log[j], p);
    assert (log + [f])[i] == Asked(p);
  }

  /** One more fact keeps a proposal traced unless it resets its scope or claims it. */
  lemma TracedAfter(p: Proposal, log: seq<Fact>, f: Fact)
    requires Traced(p, log) && !Resets(f, p)
    requires (f.Claimed? && f.proposal.id == p.id) || f == Refused(p.id) ==> p.consumed
    ensures Traced(p, log + [f])
  {
    StandingAfter(log, f, Core(p));
    assert forall g :: g in log + [f] <==> g in log || g == f;
  }

  lemma InflightAfter(inflight: map<string, (Proposal, string)>, log: seq<Fact>, f: Fact)
    requires InflightTraced(inflight, log) && (f.Posted? ==> f.proposal.id !in inflight)
    ensures InflightTraced(inflight, log + [f])
  {
    assert forall g :: g in log + [f] <==> g in log || g == f;
    forall id | id in inflight ensures ClaimedAs(log + [f], Core(inflight[id].0), inflight[id].1) {
      assert ClaimedAs(log, Core(inflight[id].0), inflight[id].1);
    }
  }

  lemma ConnectionsAfter(cs: seq<Connection>, log: seq<Fact>, f: Fact)
    requires ConnectionsMade(cs, log)
    ensures ConnectionsMade(cs, log + [f])
  {
  }

  lemma {:induction false} RetainDistinct(ps: seq<Proposal>, f: Filter)
    requires DistinctIds(ps)
    ensures DistinctIds(Retain(ps, f))
  {
    if ps != [] {
      RetainDistinct(ps[1..], f);
      var rest := Retain(ps[1..], f);
      forall i | 0 <= i < |rest| ensures rest[i].id != ps[0].id {
        assert rest[i] in rest;
        var j :| 0 <= j < |ps[1..]| && ps[1..][j] == rest[i];
        assert ps[j + 1] == rest[i];
      }
    }
  }

  lemma {:induction false} KeptConnections(cs: seq<Connection>, app: string, log: seq<Fact>)
    requires ConnectionsMade(cs, log)
    ensures ConnectionsMade(KeepConnections(cs, app), log)
    ensures |KeepConnections(cs, app)| <= |cs|
  {
    if cs != [] {
      assert cs[0] == cs[0] && forall i | 0 <= i < |cs[1..]| :: cs[1..][i] == cs[i + 1];
      KeptConnections(cs[1..], app, log);
    }
  }

  /** A reset that drops every proposal it concerns, or any quiet filter, keeps the invariant. */
  lemma FilterKeepsInv(hash: Hash, w: World, connections: seq<Connection>, filter: Filter, f: Fact)
    requires Inv(hash, w) && |connections| <= MAX_CONNECTIONS && ConnectionsMade(connections, w.log)
    requires f.Reset? && forall p | Keeps(filter, p) :: !Resets(f, p)
    ensures Inv(hash, World(State(connections, Retain(w.state.proposals, filter)), w.inflight, w.log + [f]))
  {
    hide Traced, Sound, Keeps, Resets, InflightTraced, ConnectionsMade, DistinctIds;
    var ps := Retain(w.state.proposals, filter);
    RetainDistinct(w.state.proposals, filter);
    forall i | 0 <= i < |ps| ensures Traced(ps[i], w.log + [f]) {
      assert ps[i] in ps;
      CoreKept(f, ps[i]);
      TracedAfter(ps[i], w.log, f);
    }
    InflightAfter(w.inflight, w.log, f);
    ConnectionsAfter(connections, w.log, f);
    SoundAfter(hash, w.log, f);
  }

  lemma CoreKept(f: Fact, p: Proposal)
    ensures Resets(f, Core(p)) <==> Resets(f, p)
  {
  }

  lemma ConnectKeepsInv(hash: Hash, w: World, e: Event)
    requires Inv(hash, w) && e.ConnectApp?
    ensures Inv(hash, Step(hash, w, e))
  {
    hide Sound, InflightTraced, ConnectionsMade, DistinctIds, AllTraced;
    var c := e.connection;
    var kept := KeepConnections(w.state.connections, c.appId);
    KeptConnections(w.state.connections, c.appId, w.log);
    FilterKeepsInv(hash, w, kept, OtherApp(c.appId), Reset(None, c.appId));
    if e.saves && |kept| < MAX_CONNECTIONS {
      var w' := World(State(kept, Retain(w.state.proposals, OtherApp(c.appId))), w.inflight, w.log + [Reset(None, c.appId)]);
      MadeKeepsInv(hash, w', c);
      assert w.log + [Reset(None, c.appId), Made(c)] == w'.log + [Made(c)];
    }
  }

  lemma MadeKeepsInv(hash: Hash, w: World, c: Connection)
    requires Inv(hash, w) && |w.state.connections| < MAX_CONNECTIONS
    ensures Inv(hash, World(w.state.(connections := w.state.connections + [c]), w.inflight, w.log + [Made(c)]))
  {
    hide Traced, Sound, InflightTraced, DistinctIds;
    var f := Made(c);
    forall i | 0 <= i < |w.state.proposals| ensures Traced(w.state.proposals[i], w.log + [f]) {
      TracedAfter(w.state.proposals[i], w.log, f);
    }
    InflightAfter(w.inflight, w.log, f);
    ConnectionsAfter(w.state.connections, w.log, f);
    SoundAfter(hash, w.log, f);
  }

  lemma ScopeKeepsInv(hash: Hash, w: World, e: Event)
    requires Inv(hash, w) && (e.DisconnectApp? || e.GrantScope?)
    ensures Inv(hash, Step(hash, w, e))
  {
    hide Sound, InflightTraced, ConnectionsMade, DistinctIds, AllTraced;
    match e
    case DisconnectApp(app, saves) =>
      KeptConnections(w.state.connections, app, w.log);
      FilterKeepsInv(hash, w, KeepConnections(w.state.connections, app), OtherApp(app), Reset(None, app));
    case GrantScope(client, app, fingerprint, saves) =>
      FilterKeepsInv(hash, w, w.state.connections, OtherScope(client, app), Reset(Some(client), app));
  }

  lemma RetainKeepsInv(hash: Hash, w: World, filter: Filter)
    requires Inv(hash, w)
    ensures Inv(hash, w.(state := w.state.(proposals := Retain(w.state.proposals, filter))))
  {
    hide Traced, Sound, Keeps, InflightTraced, ConnectionsMade, DistinctIds;
    var ps := Retain(w.state.proposals, filter);
    RetainDistinct(w.state.proposals, filter);
    forall i | 0 <= i < |ps| ensures Traced(ps[i], w.log) {
      assert ps[i] in ps;
    }
  }

  /** In a sound log a proposal that was never asked for was never claimed or refused. */
  lemma {:induction false} UnaskedUnclaimed(hash: Hash, log: seq<Fact>, id: string)
    requires Sound(hash, log) && NeverAsked(log, id)
    ensures Unclaimed(log, id) && Refused(id) !in log
  {
    if log != [] {
      var front, last := log[..|log| - 1], log[|log| - 1];
      assert forall f | f in front :: f in log;
      UnaskedUnclaimed(hash, front, id);
      assert log == front + [last];
    }
  }

  lemma AddKeepsInv(hash: Hash, w: World, p: Proposal)
    requires Inv(hash, w) && |w.state.proposals| < MAX_PROPOSALS && NeverAsked(w.log, p.id)
    requires p == Core(p) && p.argumentsHash == hash(p.operation, p.content)
    ensures Inv(hash, World(w.state.(proposals := w.state.proposals + [p]), w.inflight, w.log + [Asked(p)]))
  {
    hide Sound, InflightTraced, ConnectionsMade, Standing;
    var f := Asked(p);
    var ps := w.state.proposals + [p];
    forall i | 0 <= i < |w.state.proposals|
      ensures Traced(w.state.proposals[i], w.log + [f]) && w.state.proposals[i].id != p.id
    {
      TracedAfter(w.state.proposals[i], w.log, f);
      StandingWasAsked(w.log, Core(w.state.proposals[i]));
    }
    UnaskedUnclaimed(hash, w.log, p.id);
    StandingNow(w.log, p);
    assert forall g :: g in w.log + [f] <==> g in w.log || g == f;
    InflightAfter(w.inflight, w.log, f);
    ConnectionsAfter(w.state.connections, w.log, f);
    SoundAfter(hash, w.log, f);
  }

  lemma StandingWasAsked(log: seq<Fact>, p: Proposal)
    requires Standing(log, p)
    ensures Asked(p) in log && !NeverAsked(log, p.id)
  {
    var i :| 0 <= i < |log| && log[i] == Asked(p);
    assert log[i] in log;
  }

  lemma StandingNow(log: seq<Fact>, p: Proposal)
    ensures Standing(log + [Asked(p)], p)
  {
    assert (log + [Asked(p)])[|log|] == Asked(p);
  }

  lemma AskKeepsInv(hash: Hash, w: World, e: Event)
    requires Inv(hash, w) && e.AskCreate? && NeverAsked(w.log, e.ask.id)
    ensures Inv(hash, Step(hash, w, e))
  {
    hide Inv, NeverAsked;
    var change := Requested(w.state, hash, e.ask, e.now);
    if change.Ok? && e.saves {
      var live := Retain(w.state.proposals, LiveAt(e.now));
      RetainKeepsInv(hash, w, LiveAt(e.now));
      var c := FindConnection(w.state.connections, e.ask.app, e.ask.fingerprint).value;
      AddKeepsInv(hash, w.(state := w.state.(proposals := live)), NewProposal(hash, e.ask, c.generation, e.now));
    }
  }

  /** Replacing one proposal by itself with another approval or consumption. */
  lemma ReplaceKeepsInv(hash: Hash, w: World, i: nat, p: Proposal, facts: seq<Fact>)
    requires Inv(hash, w) && i < |w.state.proposals| && |facts| <= 1
    requires p.id == w.state.proposals[i].id && Traced(p, w.log + facts)
    requires forall f | f in facts ::
      !f.Reset? && !f.Posted? && (f.Claimed? ==> f.proposal.id == p.id) && (f.Refused? ==> f.id == p.id) && Justified(hash, w.log, f)
    ensures Inv(hash, World(w.state.(proposals := w.state.proposals[i := p]), w.inflight, w.log + facts))
  {
    hide Traced, Sound, Justified, InflightTraced, ConnectionsMade;
    var ps := w.state.proposals[i := p];
    if facts == [] {
      assert w.log + facts == w.log;
    } else {
      assert facts == [facts[0]];
      InflightAfter(w.inflight, w.log, facts[0]);
      ConnectionsAfter(w.state.connections, w.log, facts[0]);
      SoundAfter(hash, w.log, facts[0]);
    }
    forall j | 0 <= j < |ps| ensures Traced(ps[j], w.log + facts) {
      if j != i && facts != [] {
        assert ps[j].id != p.id;
        TracedAfter(ps[j], w.log, facts[0]);
      }
    }
  }

  lemma FindsProposal(hash: Hash, w: World, id: string) returns (i: nat)
    requires Inv(hash, w) && FindProposal(w.state.proposals, id).Some?
    ensures i == FindProposal(w.state.proposals, id).value < |w.state.proposals|
    ensures w.state.proposals[i].id == id && Traced(w.state.proposals[i], w.log) && Sound(hash, w.log)
    ensures ConnectionsMade(w.state.connections, w.log) && InflightTraced(w.inflight, w.log)
  {
    i := FindProposal(w.state.proposals, id).value;
  }

  lemma DecideKeepsInv(hash: Hash, w: World, e: Event)
    requires Inv(hash, w) && e.DecideOne?
    ensures Inv(hash, Step(hash, w, e))
  {
    hide Inv, Sound, Standing;
    if Decided(w.state, hash, e.id, e.approve, e.current, e.identity, e.now).Ok? && e.saves {
      var i := FindsProposal(hash, w, e.id);
      var p := w.state.proposals[i];
      if e.approve {
        var f := Approved(e.id, p.argumentsHash, e.current.value, e.identity, e.now, ApprovalEnd(e.now, p.expiresAt));
        var p' := p.(approvedUntil := Some(f.until));
        assert Core(p') == Core(p);
        StandingAfter(w.log, f, Core(p));
        assert f in w.log + [f];
        assert ApprovedAs(w.log + [f], p, f.until);
        ReplaceKeepsInv(hash, w, i, p', [f]);
      } else {
        var f := Refused(e.id);
        assert Core(p.(consumed := true)) == Core(p);
        StandingAfter(w.log, f, Core(p));
        StandingWasAsked(w.log, Core(p));
        assert forall g :: g in w.log + [f] <==> g in w.log || g == f;
        ReplaceKeepsInv(hash, w, i, p.(consumed := true), [f]);
      }
    }
  }

  lemma ClaimKeepsInv(hash: Hash, w: World, e: Event)
    requires Inv(hash, w) && e.ClaimOne?
    ensures Inv(hash, Step(hash, w, e))
  {
    hide Inv, Sound, Standing, InflightTraced;
    var claim := Claimable(w.state, hash, e.id, e.client, e.generation, e.operation, e.identity, e.now);
    if claim.Some? && e.saves {
      var i := FindsProposal(hash, w, e.id);
      var p, c := w.state.proposals[i], claim.value.1;
      assert claim.value.0 == i;
      var f := Claimed(Core(p), e.client, e.generation, e.operation, e.identity, e.now, p.approvedUntil.value, c.token);
      MadeIn(w, p, c);
      assert Justified(hash, w.log, f);
      StandingAfter(w.log, f, Core(p));
      assert Core(p.(consumed := true)) == Core(p);
      assert forall g :: g in w.log + [f] <==> g in w.log || g == f;
      ReplaceKeepsInv(hash, w, i, p.(consumed := true), [f]);
      UnclaimedUnposted(hash, w.log, p.id);
      LaunchKeepsInv(hash, World(Consume(w.state, i), w.inflight, w.log + [f]), p, c.token, f);
    }
  }

  lemma MadeIn(w: World, p: Proposal, c: Connection)
    requires ConnectionsMade(w.state.connections, w.log) && c in w.state.connections
    requires c.appId == p.appId && c.fingerprint == p.fingerprint && c.generation == p.connectionGeneration
    ensures MadeAs(w.log, p, c.token) && MadeAs(w.log, Core(p), c.token)
  {
    var i :| 0 <= i < |w.state.connections| && w.state.connections[i] == c;
  }

  /** In a sound log nothing is posted before it is claimed. */
  lemma {:induction false} UnclaimedUnposted(hash: Hash, log: seq<Fact>, id: string)
    requires Sound(hash, log) && Unclaimed(log, id)
    ensures Unposted(log, id)
  {
    if log != [] {
      var front, last := log[..|log| - 1], log[|log| - 1];
      assert forall f | f in front :: f in log;
      UnclaimedUnposted(hash, front, id);
      assert log == front + [last];
    }
  }

  lemma LaunchKeepsInv(hash: Hash, w: World, p: Proposal, token: string, f: Fact)
    requires Inv(hash, w) && f.Claimed? && f in w.log && f.proposal == Core(p) && f.token == token
    requires Unposted(w.log, p.id)
    ensures Inv(hash, w.(inflight := w.inflight[p.id := (p, token)]))
  {
    hide Sound, AllTraced, ConnectionsMade, DistinctIds;
    assert ClaimedAs(w.log, Core(p), token);
  }

  lemma PostKeepsInv(hash: Hash, w: World, e: Event)
    requires Inv(hash, w) && (e.PostOne? || e.CrashOne?)
    ensures Inv(hash, Step(hash, w, e))
  {
    hide Sound, Traced, ConnectionsMade, DistinctIds;
    if e.PostOne? && e.id in w.inflight && e.authorized {
      var (p, token) := w.inflight[e.id];
      var f := Posted(Core(p), token);
      forall i | 0 <= i < |w.state.proposals| ensures Traced(w.state.proposals[i], w.log + [f]) {
        TracedAfter(w.state.proposals[i], w.log, f);
      }
      InflightAfter(w.inflight - {e.id}, w.log, f);
      ConnectionsAfter(w.state.connections, w.log, f);
      SoundAfter(hash, w.log, f);
    }
  }

  /** Over every run the store stays within the bounds it is opened with, and is accounted for by the log. */
  lemma {:induction false} RunKeepsInv(hash: Hash, events: seq<Event>)
    requires Proper(hash, events)
    ensures Inv(hash, Run(hash, events))
  {
    hide Step, Inv, NeverAsked;
    if events == [] {
      InitialInv(hash);
    } else {
      var front, e := events[..|events| - 1], events[|events| - 1];
      RunKeepsInv(hash, front);
      match e
      case ConnectApp(_, _) => ConnectKeepsInv(hash, Run(hash, front), e);
      case DisconnectApp(_, _) => ScopeKeepsInv(hash, Run(hash, front), e);
      case GrantScope(_, _, _, _) => ScopeKeepsInv(hash, Run(hash, front), e);
      case AskCreate(_, _, _) => AskKeepsInv(hash, Run(hash, front), e);
      case DecideOne(_, _, _, _, _, _) => DecideKeepsInv(hash, Run(hash, front), e);
      case ClaimOne(_, _, _, _, _, _, _) => ClaimKeepsInv(hash, Run(hash, front), e);
      case PostOne(_, _) => PostKeepsInv(hash, Run(hash, front), e);
      case CrashOne(_) => PostKeepsInv(hash, Run(hash, front), e);
    }
  }

  lemma InitialInv(hash: Hash)
    ensures Inv(hash, World(State([], []), map[], []))
  {
  }

  // ---------- what holds over every run ----------

  lemma {:induction false} SoundAt(hash: Hash, log: seq<Fact>, j: nat)
    requires Sound(hash, log) && j < |log|
    ensures Justified(hash, log[..j], log[j])
  {
    var front := log[..|log| - 1];
    if j < |front| {
      SoundAt(hash, front, j);
      assert front[..j] == log[..j] && front[j] == log[j];
    }
  }

  /** No proposal is written to its app twice, and none is claimed twice. */
  lemma PostedAtMostOnce(hash: Hash, events: seq<Event>, i: nat, j: nat)
    requires Proper(hash, events) && i < j < |Run(hash, events).log|
    ensures var log := Run(hash, events).log;
      && (log[i].Posted? && log[j].Posted? ==> log[i].proposal.id != log[j].proposal.id)
      && (log[i].Claimed? && log[j].Claimed? ==> log[i].proposal.id != log[j].proposal.id)
  {
    hide Run, Proper, Traced, Standing;
    var log := Run(hash, events).log;
    RunKeepsInv(hash, events);
    SoundAt(hash, log, j);
    assert log[..j][i] in log[..j];
  }

  /**
   * Every claim in any run is of a proposal exactly as it was asked for, with content of the approved
   * hash, before the approval ends, on the very connection it was asked under; the client that asked claims
   * it under the credential generation it asked under, which is also the one the owner's call had looked up;
   * the app had the identity it was asked under, at the approval and at the claim; and its scope was not
   * connected, disconnected or granted anew since the request, nor was it refused. The credentials and
   * grants behind these arguments are in ContentExecution.
   */
  lemma ClaimIsApproved(hash: Hash, events: seq<Event>, k: nat) returns (i: nat, j: nat)
    requires Proper(hash, events) && k < |Run(hash, events).log| && Run(hash, events).log[k].Claimed?
    ensures i < k && j < k
    ensures var log := Run(hash, events).log;
      var p := log[k].proposal;
      && log[i] == Asked(p) && (forall m | i < m < k :: !Resets(log[m], p))
      && log[j].Approved? && log[j].id == p.id
      && log[j].argumentsHash == p.argumentsHash == hash(p.operation, p.content)
      && log[k].claimer == p.clientId && log[k].generation == log[j].generation == p.clientGeneration
      && log[k].operation == p.operation && log[k].identity == log[j].identity == Some(p.fingerprint)
      && log[k].at < log[j].until == (if log[j].at + 120 < p.expiresAt then log[j].at + 120 else p.expiresAt)
      && Refused(p.id) !in log[..k]
      && MadeAs(log[..k], p, log[k].token)
  {
    hide Run, Proper, Traced;
    var log := Run(hash, events).log;
    RunKeepsInv(hash, events);
    SoundAt(hash, log, k);
    var p := log[k].proposal;
    i :| 0 <= i < k && log[..k][i] == Asked(p) && forall m | i < m < k :: !Resets(log[..k][m], p);
    var f :| f in log[..k] && f.Approved? && f.id == p.id && f.argumentsHash == p.argumentsHash
             && f.generation == p.clientGeneration && f.identity == Some(p.fingerprint)
             && f.until == log[k].until == ApprovalEnd(f.at, p.expiresAt);
    j :| 0 <= j < k && log[j] == f;
    assert forall m | i < m < k :: log[..k][m] == log[m];
  }

  /** A write to an app sends what was claimed, with the token of that claim. */
  lemma PostFollowsClaim(hash: Hash, events: seq<Event>, k: nat) returns (i: nat)
    requires Proper(hash, events) && k < |Run(hash, events).log| && Run(hash, events).log[k].Posted?
    ensures i < k
    ensures var log := Run(hash, events).log;
      log[i].Claimed? && log[i].proposal == log[k].proposal && log[i].token == log[k].token
  {
    hide Run, Proper, Traced, Standing;
    var log := Run(hash, events).log;
    RunKeepsInv(hash, events);
    SoundAt(hash, log, k);
    var f :| f in log[..k] && f.Claimed? && f.proposal == log[k].proposal && f.token == log[k].token;
    i :| 0 <= i < k && log[i] == f;
  }
}
