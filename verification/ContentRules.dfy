/** Which content calls are refused, and what the others leave. */
module ContentRules {
  import opened Results
  import opened AgentContent

  ghost predicate OneId(ps: seq<Proposal>, i: nat) { i < |ps| && forall j | 0 <= j < |ps| && j != i :: ps[j].id != ps[i].id }

  lemma {:induction false} FindsIt(ps: seq<Proposal>, i: nat)
    requires OneId(ps, i)
    ensures FindProposal(ps, ps[i].id) == Some(i)
  {
  }

  lemma {:induction false} KeptOthers(cs: seq<Connection>, app: string)
    ensures forall c :: c in KeepConnections(cs, app) <==> c in cs && c.appId != app
  {
    if cs != [] {
      KeptOthers(cs[1..], app);
    }
  }

  /** Connecting replaces the connection of that app alone, and drops its proposals and no others. */
  lemma ConnectExactly(s: State, c: Connection)
    ensures var others := KeepConnections(s.connections, c.appId);
      if |others| >= 32 then Connected(s, c).Err?
      else
        && Connected(s, c).Ok?
        && (forall d :: d in Connected(s, c).value.connections <==> d == c || (d in s.connections && d.appId != c.appId))
        && (forall p :: p in Connected(s, c).value.proposals <==> p in s.proposals && p.appId != c.appId)
  {
    KeptOthers(s.connections, c.appId);
  }

  lemma DisconnectExactly(s: State, app: string)
    ensures Disconnected(s, app).Ok?
    ensures forall d :: d in Disconnected(s, app).value.connections <==> d in s.connections && d.appId != app
    ensures forall p :: p in Disconnected(s, app).value.proposals <==> p in s.proposals && p.appId != app
  {
    KeptOthers(s.connections, app);
  }

  ghost predicate ConnectedAs(s: State, app: string, fingerprint: string) {
    exists c | c in s.connections :: c.appId == app && c.fingerprint == fingerprint
  }

  lemma {:induction false} FindsConnection(cs: seq<Connection>, app: string, fingerprint: string)
    ensures FindConnection(cs, app, fingerprint).Some? <==> exists c | c in cs :: c.appId == app && c.fingerprint == fingerprint
  {
    if cs != [] {
      FindsConnection(cs[1..], app, fingerprint);
      assert cs == [cs[0]] + cs[1..];
    }
  }

  /** A content grant needs the connection, and drops what this client had asked of this app. */
  lemma RegrantExactly(s: State, client: string, app: string, fingerprint: string)
    ensures Regranted(s, client, app, fingerprint).Ok? <==> ConnectedAs(s, app, fingerprint)
    ensures Regranted(s, client, app, fingerprint).Ok? ==>
      var s' := Regranted(s, client, app, fingerprint).value;
      s'.connections == s.connections
      && forall p :: p in s'.proposals <==> p in s.proposals && (p.clientId != client || p.appId != app)
  {
    FindsConnection(s.connections, app, fingerprint);
  }

  /** A request needs the connection and fewer than 32 live ones; it ends in ten minutes, not approved and not consumed. */
  lemma RequestExactly(s: State, hash: Hash, ask: Ask, now: nat)
    ensures var live := Retain(s.proposals, LiveAt(now));
      && (forall p :: p in live <==> p in s.proposals && !p.consumed && now < p.expiresAt)
      && (Requested(s, hash, ask, now).Ok? <==> ConnectedAs(s, ask.app, ask.fingerprint) && |live| < 32)
      && (Requested(s, hash, ask, now).Ok? ==>
           var s' := Requested(s, hash, ask, now).value;
           && s'.connections == s.connections && |s'.proposals| == |live| + 1 && s'.proposals[..|live|] == live
           && var p := s'.proposals[|live|];
           && p.id == ask.id && p.clientId == ask.client && p.clientGeneration == ask.generation
           && p.appId == ask.app && p.fingerprint == ask.fingerprint && p.operation == ask.operation
           && p.content == ask.content && p.argumentsHash == hash(ask.operation, ask.content)
           && p.expiresAt == now + 600 && p.approvedUntil == None && !p.consumed
           && exists c | c in s.connections ::
                c.appId == ask.app && c.fingerprint == ask.fingerprint && c.generation == p.connectionGeneration)
  {
    FindsConnection(s.connections, ask.app, ask.fingerprint);
  }

  /** A decision is refused for exactly these reasons; it approves for two minutes at most, or consumes. */
  lemma DecideExactly(s: State, hash: Hash, i: nat, approve: bool, current: Option<string>, identity: Option<string>, now: nat)
    requires OneId(s.proposals, i)
    ensures var p, change := s.proposals[i], Decided(s, hash, s.proposals[i].id, approve, current, identity, now);
      && (change.Ok? <==>
           && !p.consumed && now < p.expiresAt && current == Some(p.clientGeneration)
           && (approve ==> identity == Some(p.fingerprint) && p.argumentsHash == hash(p.operation, p.content)))
      && (change.Ok? ==>
            var decided := if approve then p.(approvedUntil := Some(if now + 120 < p.expiresAt then now + 120 else p.expiresAt))
                           else p.(consumed := true);
            change.value == State(s.connections, s.proposals[i := decided]))
  {
    FindsIt(s.proposals, i);
  }

  /** A claim is let through exactly then. */
  lemma ClaimExactly(s: State, hash: Hash, i: nat, client: string, generation: string, operation: Operation,
                     identity: Option<string>, now: nat)
    requires OneId(s.proposals, i)
    requires forall a, b | 0 <= a < b < |s.connections| :: s.connections[a].appId != s.connections[b].appId
    ensures var p := s.proposals[i];
      Claimable(s, hash, p.id, client, generation, operation, identity, now).Some? <==>
        && client == p.clientId && generation == p.clientGeneration && operation == p.operation && !p.consumed
        && p.approvedUntil.Some? && now < p.approvedUntil.value && now < p.expiresAt
        && p.argumentsHash == hash(p.operation, p.content) && identity == Some(p.fingerprint)
        && exists c | c in s.connections ::
             c.appId == p.appId && c.fingerprint == p.fingerprint && c.generation == p.connectionGeneration
  {
    var p := s.proposals[i];
    FindsIt(s.proposals, i);
    if identity.Some? {
      FindsConnection(s.connections, p.appId, identity.value);
      var found := FindConnection(s.connections, p.appId, identity.value);
      forall c | c in s.connections && c.appId == p.appId && found.Some? ensures c == found.value {
        var a, b :| 0 <= a < |s.connections| && 0 <= b < |s.connections|
          && s.connections[a] == c && s.connections[b] == found.value;
      }
    }
  }
}
