/** Owner-approved content writes: one-use proposals that are consumed before the external effect. */
module AgentContent {
  import opened Results

  const MAX_CONNECTIONS := 32
  const MAX_PROPOSALS := 32
  const PROPOSAL_SECONDS := 600
  const APPROVAL_SECONDS := 120

  datatype Operation = MemosPrivateMemo | N8nNoteTable | PrivateBinPaste

  datatype Connection = Connection(appId: string, fingerprint: string, token: string, generation: string)

  datatype Proposal = Proposal(id: string, clientId: string, clientGeneration: string, appId: string,
                               fingerprint: string, connectionGeneration: string, argumentsHash: string,
                               content: string, operation: Operation, expiresAt: nat,
                               approvedUntil: Option<nat>, consumed: bool)

  datatype State = State(connections: seq<Connection>, proposals: seq<Proposal>)

  /** The hash of the exact arguments of an operation. */
  type Hash = (Operation, string) -> string

  datatype Error = Denied | Busy | TooMany | NotSaved

  function KeepConnections(cs: seq<Connection>, app: string): seq<Connection> {
    if cs == [] then []
    else (if cs[0].appId != app then [cs[0]] else []) + KeepConnections(cs[1..], app)
  }

  /** The conditions under which the store keeps a proposal. */
  datatype Filter = OtherApp(app: string) | OtherScope(client: string, app: string) | LiveAt(now: nat)

  predicate Keeps(f: Filter, p: Proposal) {
    match f
    case OtherApp(app) => p.appId != app
    case OtherScope(client, app) => !(p.clientId == client && p.appId == app)
    case LiveAt(now) => !p.consumed && p.expiresAt > now
  }

  /** `retain`: the proposals that pass the filter, in order. */
  function Retain(ps: seq<Proposal>, f: Filter): (r: seq<Proposal>)
    ensures |r| <= |ps|
    ensures forall p :: p in r <==> p in ps && Keeps(f, p)
  {
    if ps == [] then [] else (if Keeps(f, ps[0]) then [ps[0]] else []) + Retain(ps[1..], f)
  }

  function FindConnection(cs: seq<Connection>, app: string, fingerprint: string): (r: Option<Connection>)
    ensures r.Some? ==> r.value in cs && r.value.appId == app && r.value.fingerprint == fingerprint
  {
    if cs == [] then None
    else if cs[0].appId == app && cs[0].fingerprint == fingerprint then Some(cs[0])
    else FindConnection(cs[1..], app, fingerprint)
  }

  function FindProposal(ps: seq<Proposal>, id: string): (r: Option<nat>)
    ensures r.Some? ==> r.value < |ps| && ps[r.value].id == id
    ensures r.None? ==> forall i | 0 <= i < |ps| :: ps[i].id != id
  {
    if ps == [] then None
    else if ps[0].id == id then Some(0)
    else match FindProposal(ps[1..], id)
      case None => None
      case Some(i) => Some(i + 1)
  }

  type Change = Result<State, Error>

  /** The owner connects an app; the scopes that any client has for it are cleared first, in ContentExecution. */
  function Connected(s: State, connection: Connection): Change {
    var kept := KeepConnections(s.connections, connection.appId);
    if |kept| >= MAX_CONNECTIONS then Err(TooMany)
    else Ok(State(kept + [connection], Retain(s.proposals, OtherApp(connection.appId))))
  }

  function Disconnected(s: State, app: string): Change {
    Ok(State(KeepConnections(s.connections, app), Retain(s.proposals, OtherApp(app))))
  }

  function Regranted(s: State, client: string, app: string, fingerprint: string): Change {
    if FindConnection(s.connections, app, fingerprint).None? then Err(Denied)
    else Ok(s.(proposals := Retain(s.proposals, OtherScope(client, app))))
  }

  /** What a client asks for, after its grant and credential have been checked. */
  datatype Ask = Ask(id: string, client: string, generation: string, app: string, fingerprint: string,
                     operation: Operation, content: string)

  function Requested(s: State, hash: Hash, ask: Ask, now: nat): Change {
    match FindConnection(s.connections, ask.app, ask.fingerprint)
    case None => Err(Denied)
    case Some(connection) =>
      var live := Retain(s.proposals, LiveAt(now));
      if |live| >= MAX_PROPOSALS then Err(Busy)
      else Ok(s.(proposals := live + [NewProposal(hash, ask, connection.generation, now)]))
  }

  function NewProposal(hash: Hash, ask: Ask, connectionGeneration: string, now: nat): Proposal {
    Proposal(ask.id, ask.client, ask.generation, ask.app, ask.fingerprint, connectionGeneration,
             hash(ask.operation, ask.content), ask.content, ask.operation, now + PROPOSAL_SECONDS, None, false)
  }

  function ApprovalEnd(now: nat, expiresAt: nat): nat {
    if now + APPROVAL_SECONDS < expiresAt then now + APPROVAL_SECONDS else expiresAt
  }

  /** `current` is the client's present credential generation and `fingerprint` the app's present identity. */
  function Decided(s: State, hash: Hash, id: string, approve: bool, current: Option<string>,
                   fingerprint: Option<string>, now: nat): Change
  {
    match FindProposal(s.proposals, id)
    case None => Err(Denied)
    case Some(i) =>
      var p := s.proposals[i];
      if p.consumed || p.expiresAt <= now || current != Some(p.clientGeneration) then Err(Denied)
      else if !approve then Ok(s.(proposals := s.proposals[i := p.(consumed := true)]))
      else if fingerprint != Some(p.fingerprint) || p.argumentsHash != hash(p.operation, p.content) then Err(Denied)
      else Ok(s.(proposals := s.proposals[i := p.(approvedUntil := Some(ApprovalEnd(now, p.expiresAt)))]))
  }

  /** When a proposal may be claimed, and with which connection. */
  function Claimable(s: State, hash: Hash, id: string, client: string, generation: string, operation: Operation,
                     fingerprint: Option<string>, now: nat): Option<(nat, Connection)>
  {
    match FindProposal(s.proposals, id)
    case None => None
    case Some(i) =>
      var p := s.proposals[i];
      if || p.operation != operation || p.clientId != client || p.clientGeneration != generation || p.consumed
         || now >= p.expiresAt || p.approvedUntil.None? || now >= p.approvedUntil.value
         || p.argumentsHash != hash(p.operation, p.content) || fingerprint.None?
      then None
      else match FindConnection(s.connections, p.appId, fingerprint.value)
        case None => None
        case Some(c) =>
          if fingerprint.value != p.fingerprint || c.generation != p.connectionGeneration then None else Some((i, c))
  }

  function Consume(s: State, i: nat): State
    requires i < |s.proposals|
  {
    s.(proposals := s.proposals[i := s.proposals[i].(consumed := true)])
  }

  /** The protected file holding the state; it is replaced as a whole or not at all. */
  class StateFile {
    var state: State

    constructor ()
      ensures state == State([], [])
    {
      state := State([], []);
    }
  }

  ghost predicate Settled(change: Change, writes: bool, before: State, after: State, ok: bool) {
    ok == (change.Ok? && writes) && after == if ok then change.value else before
  }

  /** The store as opened under its lock. */
  class Store {
    var connections: seq<Connection>
    var proposals: seq<Proposal>
    const file: StateFile

    constructor (file: StateFile)
      ensures this.file == file && Current() == file.state
    {
      this.file := file;
      connections, proposals := file.state.connections, file.state.proposals;
    }

    ghost function Current(): State
      reads this
    {
      State(connections, proposals)
    }

    method Save(writes: bool) returns (ok: bool)
      modifies file
      ensures ok == writes
      ensures file.state == if writes then Current() else old(file.state)
    {
      ok := writes;
      if writes {
        file.state := State(connections, proposals);
      }
    }

    method Connect(connection: Connection, writes: bool) returns (ok: bool)
      requires Current() == file.state
      modifies this, file
      ensures Settled(Connected(old(Current()), connection), writes, old(file.state), file.state, ok)
    {
      connections := KeepConnections(connections, connection.appId);
      proposals := Retain(proposals, OtherApp(connection.appId));
      if |connections| >= MAX_CONNECTIONS {
        return false;
      }
      connections := connections + [connection];
      ok := Save(writes);
    }

    method Disconnect(app: string, writes: bool) returns (ok: bool)
      requires Current() == file.state
      modifies this, file
      ensures Settled(Disconnected(old(Current()), app), writes, old(file.state), file.state, ok)
    {
      connections := KeepConnections(connections, app);
      proposals := Retain(proposals, OtherApp(app));
      ok := Save(writes);
    }

    method Regrant(client: string, app: string, fingerprint: string, writes: bool) returns (ok: bool)
      requires Current() == file.state
      modifies this, file
      ensures Settled(Regranted(old(Current()), client, app, fingerprint), writes, old(file.state), file.state, ok)
    {
      if FindConnection(connections, app, fingerprint).None? {
        return false;
      }
      proposals := Retain(proposals, OtherScope(client, app));
      ok := Save(writes);
    }

    method RequestCreate(hash: Hash, ask: Ask, now: nat, writes: bool) returns (ok: bool)
      requires Current() == file.state
      modifies this, file
      ensures Settled(Requested(old(Current()), hash, ask, now), writes, old(file.state), file.state, ok)
    {
      var connection := FindConnection(connections, ask.app, ask.fingerprint);
      if connection.None? {
        return false;
      }
      proposals := Retain(proposals, LiveAt(now));
      if |proposals| >= MAX_PROPOSALS {
        return false;
      }
      proposals := proposals + [NewProposal(hash, ask, connection.value.generation, now)];
      ok := Save(writes);
    }

    method Decide(hash: Hash, id: string, approve: bool, current: Option<string>, fingerprint: Option<string>,
                  now: nat, writes: bool) returns (ok: bool)
      requires Current() == file.state
      modifies this, file
      ensures Settled(Decided(old(Current()), hash, id, approve, current, fingerprint, now), writes,
                      old(file.state), file.state, ok)
    {
      var found := FindProposal(proposals, id);
      if found.None? {
        return false;
      }
      var p := proposals[found.value];
      if p.consumed || p.expiresAt <= now || current != Some(p.clientGeneration) {
        return false;
      }
      if approve {
        if fingerprint != Some(p.fingerprint) || p.argumentsHash != hash(p.operation, p.content) {
          return false;
        }
        p := p.(approvedUntil := Some(ApprovalEnd(now, p.expiresAt)));
      } else {
        p := p.(consumed := true);
      }
      proposals := proposals[found.value := p];
      ok := Save(writes);
    }

    /** The consumption is saved before anything leaves this process. */
    method Claim(hash: Hash, id: string, client: string, generation: string, operation: Operation,
                 fingerprint: Option<string>, now: nat, writes: bool) returns (r: Option<(Proposal, string)>)
      requires Current() == file.state
      modifies this, file
      ensures var claim := Claimable(old(Current()), hash, id, client, generation, operation, fingerprint, now);
        && (r.Some? <==> claim.Some? && writes)
        && file.state == (if r.Some? then Consume(old(file.state), claim.value.0) else old(file.state))
        && (r.Some? ==> r.value == (old(file.state).proposals[claim.value.0], claim.value.1.token))
      ensures r.Some? ==>
        && r.value.0.id == id && r.value.0.clientId == client && r.value.0.clientGeneration == generation
        && !r.value.0.consumed && r.value.0.operation == operation
        && (exists i | 0 <= i < |file.state.proposals| :: file.state.proposals[i] == r.value.0.(consumed := true))
    {
      var claim := Claimable(State(connections, proposals), hash, id, client, generation, operation, fingerprint, now);
      if claim.None? {
        return None;
      }
      var (i, connection) := claim.value;
      var p := proposals[i];
      proposals := proposals[i := p.(consumed := true)];
      assert proposals[i] == p.(consumed := true);
      var ok := Save(writes);
      r := if ok then Some((p, connection.token)) else None;
    }
  }
}
