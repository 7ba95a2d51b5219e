/**
 * Pending launcher enrollments over a credential store that other owner processes may change
 * between any two gateway calls.
 */
module OwnerEnrollments {
  import opened Results
  import opened Text
  import AgentGateway

  const EXPORT_SECONDS := 600
  const MAX_PENDING := 16

  datatype Pending = Pending(client: string, secret: string, command: string, expiresAt: u64)

  /** What another process did to one client: enrolled it anew with a fresh secret, or revoked it. */
  datatype Outside = Outside(client: string, secret: Option<string>)

  /** The credential store, and every secret ever drawn. */
  datatype Store = Store(creds: map<string, string>, drawn: set<string>)

  function Affected(s: Store, o: Outside): Store {
    match o.secret
    case Some(secret) => Store(s.creds[o.client := secret], s.drawn + {secret})
    case None => s.(creds := s.creds - {o.client})
  }

  function AffectedAll(s: Store, os: seq<Outside>): Store {
    if os == [] then s else Affected(AffectedAll(s, os[..|os| - 1]), os[|os| - 1])
  }

  /** Other processes draw secrets that were never drawn before. */
  predicate FreshOutside(s: Store, os: seq<Outside>) {
    os == [] ||
    var front, last := os[..|os| - 1], os[|os| - 1];
    FreshOutside(s, front) && (last.secret.Some? ==> last.secret.value !in AffectedAll(s, front).drawn)
  }

  function Alive(pending: map<string, Pending>, now: u64): map<string, Pending> {
    map id | id in pending && now < pending[id].expiresAt :: pending[id]
  }

  function Forgotten(pending: map<string, Pending>, client: string): map<string, Pending> {
    map id | id in pending && pending[id].client != client :: pending[id]
  }

  predicate Current(s: Store, client: string, secret: string) {
    client in s.creds && s.creds[client] == secret
  }

  // ---------- the store as the gateway keeps it ----------

  function Credentials(w: AgentGateway.World): Store { Store(w.creds, w.drawn) }

  /**
   * What other processes do to the store is what the gateway's own calls do: a revocation, or a revocation
   * followed by an enrollment.
   */
  lemma OutsideIsGatewayCall(w: AgentGateway.World, pid: nat, o: Outside)
    requires pid !in w.procs && w.lock.None? && IdValid(o.client) && (o.secret.Some? ==> o.secret.value !in w.drawn)
    ensures var revoked := AgentGateway.Unenrolled(w, pid, o.client);
      Credentials(match o.secret
                  case None => revoked
                  case Some(secret) => AgentGateway.Enrolled(revoked, pid, o.client, secret))
      == Affected(Credentials(w), o)
  {
    hide IdValid;
    AgentGateway.UnenrolledAlone(w, pid, o.client);
    if o.secret.Some? {
      AgentGateway.EnrolledAlone(AgentGateway.Unenrolled(w, pid, o.client), pid, o.client, o.secret.value);
    }
  }

  /** An exported configuration holds the bearer secret. */
  datatype Export = Export(client: string, secret: string, command: string)

  /** The credential store as this process sees it; other processes act on it too. */
  class Gateway {
    var store: Store

    constructor (store: Store)
      ensures this.store == store
    {
      this.store := store;
    }

    method Interfere(os: seq<Outside>)
      modifies this
      ensures store == AffectedAll(old(store), os)
    {
      for i := 0 to |os|
        invariant store == AffectedAll(old(store), os[..i])
      {
        store := Affected(store, os[i]);
        assert os[..i + 1][..i] == os[..i];
      }
      assert os[..|os|] == os;
    }

    /** Whether the secret is the client's current one; nothing when the credentials cannot be opened. */
    method Matches(client: string, secret: string, opens: bool) returns (r: Option<bool>)
      ensures r == if opens then Some(Current(store, client, secret)) else None
    {
      return if opens then Some(client in store.creds && store.creds[client] == secret) else None;
    }

    method Revoke(client: string, works: bool) returns (ok: bool)
      modifies this
      ensures ok == works
      ensures store == if works then old(store).(creds := old(store).creds - {client}) else old(store)
    {
      ok := works;
      if works {
        store := store.(creds := store.creds - {client});
      }
    }

    method Enroll(client: string, secret: string, works: bool) returns (ok: bool)
      modifies this
      ensures ok <==> works && client !in old(store).creds
      ensures store == if ok then Affected(old(store), Outside(client, Some(secret))) else old(store)
    {
      ok := works && client !in store.creds;
      if ok {
        store := Store(store.creds[client := secret], store.drawn + {secret});
      }
    }
  }

  datatype BeginCall = BeginCall(id: string, client: string, command: Option<string>, consent: bool, rotate: bool,
                                 now: u64, secret: string, revokes: bool, between: seq<Outside>, enrolls: bool)

  datatype State = State(pending: map<string, Pending>, store: Store)

  /** The checks that `begin` makes before it touches the gateway. */
  predicate BeginAdmitted(pending: map<string, Pending>, c: BeginCall) {
    && c.consent && Bytes(c.client) <= 80 && AppIdValid(c.client) && c.command.Some?
    && |Alive(pending, c.now)| < MAX_PENDING && c.now + EXPORT_SECONDS <= U64_MAX
  }

  /** Whether `begin` gets far enough to drop what has expired. */
  predicate BeginReaches(c: BeginCall) {
    c.consent && Bytes(c.client) <= 80 && AppIdValid(c.client) && c.command.Some?
  }

  function Begun(s: State, c: BeginCall): (State, bool) {
    if !BeginReaches(c) then (s, false)
    else
      var alive := Alive(s.pending, c.now);
      if !BeginAdmitted(s.pending, c) || (c.rotate && !c.revokes) then (State(alive, s.store), false)
      else
        var pending := if c.rotate then Forgotten(alive, c.client) else alive;
        var cleared := if c.rotate then s.store.(creds := s.store.creds - {c.client}) else s.store;
        var store := AffectedAll(cleared, c.between);
        if !c.enrolls || c.client in store.creds then (State(pending, store), false)
        else
          (State(pending[c.id := Pending(c.client, c.secret, c.command.value, c.now + EXPORT_SECONDS)],
                 Affected(store, Outside(c.client, Some(c.secret)))), true)
  }

  /** `opens` is whether the credentials can be opened for the check; if not, the preview stays. */
  function Exported(s: State, id: string, consent: bool, now: u64, opens: bool): (State, Option<Export>) {
    if !consent then (s, None)
    else
      var alive := Alive(s.pending, now);
      if id !in alive || !opens then (State(alive, s.store), None)
      else
        var row := alive[id];
        (State(alive - {id}, s.store),
         if Current(s.store, row.client, row.secret) then Some(Export(row.client, row.secret, row.command)) else None)
  }

  /** `between` is what other processes do after the check and before the revocation. */
  function CancelledBy(s: State, id: string, opens: bool, between: seq<Outside>, revokes: bool): (State, bool) {
    if id !in s.pending then (s, true)
    else if !opens then (s, false)
    else
      var row := s.pending[id];
      if !Current(s.store, row.client, row.secret) then (s.(pending := s.pending - {id}), true)
      else
        var store := AffectedAll(s.store, between);
        if revokes then (State(s.pending - {id}, store.(creds := store.creds - {row.client})), true)
        else (State(s.pending, store), false)
  }

  class OwnerEnrollments {
    var pending: map<string, Pending>

    constructor ()
      ensures pending == map[]
    {
      pending := map[];
    }

    method Begin(gateway: Gateway, c: BeginCall) returns (ok: bool)
      modifies this, gateway
      ensures (State(pending, gateway.store), ok) == Begun(State(old(pending), old(gateway.store)), c)
    {
      hide AppIdValid, Bytes, AffectedAll;
      if !c.consent || Bytes(c.client) > 80 || !AppIdValid(c.client) || c.command.None? {
        return false;
      }
      pending := map id | id in pending && c.now < pending[id].expiresAt :: pending[id];
      if |pending| >= MAX_PENDING || c.now + EXPORT_SECONDS > U64_MAX {
        return false;
      }
      if c.rotate {
        var revoked := gateway.Revoke(c.client, c.revokes);
        if !revoked {
          return false;
        }
        ForgetClient(c.client);
      }
      gateway.Interfere(c.between);
      ok := gateway.Enroll(c.client, c.secret, c.enrolls);
      if ok {
        pending := pending[c.id := Pending(c.client, c.secret, c.command.value, c.now + EXPORT_SECONDS)];
      }
    }

    method ExportOnce(gateway: Gateway, id: string, consent: bool, now: u64, opens: bool) returns (r: Option<Export>)
      modifies this
      ensures (State(pending, gateway.store), r)
           == Exported(State(old(pending), gateway.store), id, consent, now, opens)
    {
      if !consent {
        return None;
      }
      pending := map id | id in pending && now < pending[id].expiresAt :: pending[id];
      if id !in pending {
        return None;
      }
      var row := pending[id];
      var matches := gateway.Matches(row.client, row.secret, opens);
      if matches.None? {
        return None;
      }
      pending := pending - {id};
      if !matches.value {
        return None;
      }
      return Some(Export(row.client, row.secret, row.command));
    }

    method Cancel(gateway: Gateway, id: string, opens: bool, between: seq<Outside>, revokes: bool) returns (ok: bool)
      modifies this, gateway
      ensures (State(pending, gateway.store), ok)
           == CancelledBy(State(old(pending), old(gateway.store)), id, opens, between, revokes)
    {
      hide AffectedAll;
      if id in pending {
        var row := pending[id];
        var matches := gateway.Matches(row.client, row.secret, opens);
        if matches.None? {
          return false;
        }
        if matches.value {
          gateway.Interfere(between);
          var revoked := gateway.Revoke(row.client, revokes);
          if !revoked {
            return false;
          }
        }
        pending := pending - {id};
      }
      return true;
    }

    method ForgetClient(client: string)
      modifies this
      ensures pending == Forgotten(old(pending), client)
    {
      pending := map id | id in pending && pending[id].client != client :: pending[id];
    }
  }

  // ---------- runs ----------

  datatype Event =
    | Other(outside: Outside)
    | BeginOne(call: BeginCall)
    | ExportOne(id: string, consent: bool, now: u64, opens: bool)
    | CancelOne(id: string, opens: bool, between: seq<Outside>, revokes: bool)
    | Forget(client: string)

  datatype World = World(state: State, used: set<string>, exports: seq<Export>)

  function Step(w: World, e: Event): World {
    match e
    case Other(o) => w.(state := w.state.(store := Affected(w.state.store, o)))
    case BeginOne(c) => w.(state := Begun(w.state, c).0, used := w.used + {c.id})
    case ExportOne(id, consent, now, opens) =>
      var (state, export_) := Exported(w.state, id, consent, now, opens);
      w.(state := state, exports := if export_.Some? then w.exports + [export_.value] else w.exports)
    case CancelOne(id, opens, between, revokes) => w.(state := CancelledBy(w.state, id, opens, between, revokes).0)
    case Forget(client) => w.(state := w.state.(pending := Forgotten(w.state.pending, client)))
  }

  const START := World(State(map[], Store(map[], {})), {}, [])

  function Run(events: seq<Event>): World {
    if events == [] then START else Step(Run(events[..|events| - 1]), events[|events| - 1])
  }

  /** Random preview ids and secrets are never drawn twice. */
  predicate Allowed(w: World, e: Event) {
    match e
    case Other(o) => FreshOutside(w.state.store, [o])
    case BeginOne(c) =>
      var cleared := if c.rotate then w.state.store.(creds := w.state.store.creds - {c.client}) else w.state.store;
      && c.id !in w.used
      && FreshOutside(cleared, c.between) && c.secret !in AffectedAll(cleared, c.between).drawn
    case CancelOne(_, _, between, _) => FreshOutside(w.state.store, between)
    case _ => true
  }

  predicate Proper(events: seq<Event>) {
    events == [] ||
    (Proper(events[..|events| - 1]) && Allowed(Run(events[..|events| - 1]), events[|events| - 1]))
  }

  ghost predicate StoreSound(s: Store) {
    forall c | c in s.creds :: s.creds[c] in s.drawn
  }

  ghost predicate PendingSound(w: World) {
    && |w.state.pending| <= MAX_PENDING
    && (forall id | id in w.state.pending :: id in w.used && w.state.pending[id].secret in w.state.store.drawn)
    && forall a, b | a in w.state.pending && b in w.state.pending && a != b ::
         w.state.pending[a].secret != w.state.pending[b].secret
  }

  ghost predicate ExportsSound(w: World) {
    && (forall i | 0 <= i < |w.exports| :: w.exports[i].secret in w.state.store.drawn)
    && (forall i, j | 0 <= i < j < |w.exports| :: w.exports[i].secret != w.exports[j].secret)
    && forall i, id | 0 <= i < |w.exports| && id in w.state.pending :: w.state.pending[id].secret != w.exports[i].secret
  }

  ghost predicate Inv(w: World) { StoreSound(w.state.store) && PendingSound(w) && ExportsSound(w) }

  lemma {:induction false} OutsideKeepsStore(s: Store, os: seq<Outside>)
    requires StoreSound(s) && FreshOutside(s, os)
    ensures StoreSound(AffectedAll(s, os)) && s.drawn <= AffectedAll(s, os).drawn
  {
    if os != [] {
      OutsideKeepsStore(s, os[..|os| - 1]);
    }
  }

  lemma AliveShrinks(pending: map<string, Pending>, now: u64, client: string)
    ensures |Alive(pending, now)| <= |pending| && |Forgotten(pending, client)| <= |pending|
  {
    Shrinks(Alive(pending, now).Keys, pending.Keys);
    Shrinks(Forgotten(pending, client).Keys, pending.Keys);
  }

  lemma Shrinks(a: set<string>, b: set<string>)
    requires a <= b
    ensures |a| <= |b|
  {
    assert b == a + (b - a);
  }

  /** Dropping pending rows and drawing further secrets disturbs nothing. */
  lemma ShrinkKeepsInv(w: World, pending: map<string, Pending>, store: Store)
    requires Inv(w) && StoreSound(store) && w.state.store.drawn <= store.drawn
    requires forall id | id in pending :: id in w.state.pending && pending[id] == w.state.pending[id]
    ensures Inv(w.(state := State(pending, store)))
  {
    Shrinks(pending.Keys, w.state.pending.Keys);
    assert |pending| == |pending.Keys| && |w.state.pending| == |w.state.pending.Keys|;
  }

  /** The states in which `begin` can leave the rows and the store. */
  lemma BegunCases(s: State, c: BeginCall)
    ensures var cleared := if c.rotate then s.store.(creds := s.store.creds - {c.client}) else s.store;
      var alive := Alive(s.pending, c.now);
      var pending := if c.rotate then Forgotten(alive, c.client) else alive;
      var store := AffectedAll(cleared, c.between);
      if Begun(s, c).1 then
        && |alive| < MAX_PENDING && c.command.Some? && c.now + EXPORT_SECONDS <= U64_MAX
        && Begun(s, c).0
           == State(pending[c.id := Pending(c.client, c.secret, c.command.value, c.now + EXPORT_SECONDS)],
                    Affected(store, Outside(c.client, Some(c.secret))))
      else Begun(s, c).0 in {s, State(alive, s.store), State(pending, store)}
  {
    hide AppIdValid, Bytes, AffectedAll, Alive, Forgotten;
  }

  lemma BeginKeepsInv(w: World, c: BeginCall)
    requires Inv(w) && Allowed(w, BeginOne(c))
    ensures Inv(Step(w, BeginOne(c)))
  {
    hide AppIdValid, Bytes, FreshOutside, AffectedAll, PendingSound, ExportsSound, StoreSound, Begun;
    var s := w.state;
    var alive := Alive(s.pending, c.now);
    var cleared := if c.rotate then s.store.(creds := s.store.creds - {c.client}) else s.store;
    var store := AffectedAll(cleared, c.between);
    var pending := if c.rotate then Forgotten(alive, c.client) else alive;
    RevokedSound(s.store, c.client);
    OutsideKeepsStore(cleared, c.between);
    AliveShrinks(alive, c.now, c.client);
    ShrinkKeepsInv(w, alive, s.store);
    ShrinkKeepsInv(w, pending, store);
    BegunCases(s, c);
    if Begun(s, c).1 {
      assert c.id !in w.used;
      AddKeepsInv(w.(state := State(pending, store)), c.id,
                  Pending(c.client, c.secret, c.command.value, c.now + EXPORT_SECONDS));
    } else {
      UsedGrows(w.(state := Begun(s, c).0), c.id);
    }
  }

  lemma RevokedSound(s: Store, client: string)
    requires StoreSound(s)
    ensures StoreSound(s.(creds := s.creds - {client}))
  {
  }

  lemma AddKeepsInv(w: World, id: string, row: Pending)
    requires Inv(w) && id !in w.used && row.secret !in w.state.store.drawn && |w.state.pending| < MAX_PENDING
    ensures Inv(World(State(w.state.pending[id := row], Affected(w.state.store, Outside(row.client, Some(row.secret)))),
                      w.used + {id}, w.exports))
  {
  }

  lemma UsedGrows(w: World, id: string)
    requires Inv(w)
    ensures Inv(w.(used := w.used + {id}))
  {
  }

  lemma ExportKeepsInv(w: World, e: Event)
    requires Inv(w) && e.ExportOne?
    ensures Inv(Step(w, e))
  {
    hide PendingSound, ExportsSound, StoreSound;
    var alive := Alive(w.state.pending, e.now);
    ShrinkKeepsInv(w, alive, w.state.store);
    if e.consent && e.id in alive {
      ShrinkKeepsInv(w, alive - {e.id}, w.state.store);
      MoveKeepsInv(w.(state := State(alive, w.state.store)), e.id);
    }
  }

  lemma MoveKeepsInv(w: World, id: string)
    requires Inv(w) && id in w.state.pending
    ensures var row := w.state.pending[id];
      Inv(w.(state := w.state.(pending := w.state.pending - {id}),
             exports := w.exports + [Export(row.client, row.secret, row.command)]))
  {
    Shrinks((w.state.pending - {id}).Keys, w.state.pending.Keys);
  }

  lemma CancelKeepsInv(w: World, e: Event)
    requires Inv(w) && e.CancelOne? && Allowed(w, e)
    ensures Inv(Step(w, e))
  {
    hide FreshOutside, AffectedAll;
    var store := AffectedAll(w.state.store, e.between);
    OutsideKeepsStore(w.state.store, e.between);
    ShrinkKeepsInv(w, w.state.pending - {e.id}, w.state.store);
    ShrinkKeepsInv(w, w.state.pending, store);
    if e.id in w.state.pending {
      var client := w.state.pending[e.id].client;
      ShrinkKeepsInv(w, w.state.pending - {e.id}, store.(creds := store.creds - {client}));
    }
  }

  lemma StepKeepsInv(w: World, e: Event)
    requires Inv(w) && Allowed(w, e)
    ensures Inv(Step(w, e))
  {
    hide Begun, Exported, CancelledBy;
    match e
    case Other(o) =>
      assert AffectedAll(w.state.store, [o]) == Affected(w.state.store, o);
      OutsideKeepsStore(w.state.store, [o]);
      ShrinkKeepsInv(w, w.state.pending, Affected(w.state.store, o));
    case BeginOne(c) => BeginKeepsInv(w, c);
    case ExportOne(_, _, _, _) => ExportKeepsInv(w, e);
    case CancelOne(_, _, _, _) => CancelKeepsInv(w, e);
    case Forget(client) => ShrinkKeepsInv(w, Forgotten(w.state.pending, client), w.state.store);
  }

  /** Over every run: at most 16 previews are pending, and no secret is pending twice or after its export. */
  lemma {:induction false} RunKeepsInv(events: seq<Event>)
    requires Proper(events)
    ensures Inv(Run(events))
  {
    hide Step, Allowed;
    if events != [] {
      RunKeepsInv(events[..|events| - 1]);
      StepKeepsInv(Run(events[..|events| - 1]), events[|events| - 1]);
    }
  }

  /** Every secret is exported at most once in a run. */
  lemma ExportedAtMostOnce(events: seq<Event>, i: nat, j: nat)
    requires Proper(events) && i < j < |Run(events).exports|
    ensures Run(events).exports[i].secret != Run(events).exports[j].secret
  {
    hide Run, Proper;
    RunKeepsInv(events);
  }

  /** A call exports nothing but the secret that is its client's credential at that moment. */
  lemma ExportIsCurrent(w: World, e: Event)
    ensures w.exports <= Step(w, e).exports && |Step(w, e).exports| <= |w.exports| + 1
    ensures forall i | |w.exports| <= i < |Step(w, e).exports| ::
      Current(w.state.store, Step(w, e).exports[i].client, Step(w, e).exports[i].secret)
  {
  }

  /** Of the pending previews of one client at most one can still be exported. */
  lemma OneExportablePerClient(events: seq<Event>, a: string, b: string)
    requires Proper(events) && a != b
    requires a in Run(events).state.pending && b in Run(events).state.pending
    requires Run(events).state.pending[a].client == Run(events).state.pending[b].client
    ensures var s := Run(events).state;
      !(Current(s.store, s.pending[a].client, s.pending[a].secret) && Current(s.store, s.pending[b].client, s.pending[b].secret))
  {
    hide Run, Proper;
    RunKeepsInv(events);
  }

  // ---------- what a cancellation removes ----------

  /** The last thing other processes did to this client was to enroll it. */
  predicate LastEnrolls(os: seq<Outside>, client: string) {
    os != [] &&
    var last := os[|os| - 1];
    if last.client == client then last.secret.Some? else LastEnrolls(os[..|os| - 1], client)
  }

  predicate Touches(os: seq<Outside>, client: string) {
    exists i | 0 <= i < |os| :: os[i].client == client
  }

  lemma {:induction false} OutsideOnClient(s: Store, os: seq<Outside>, client: string)
    requires StoreSound(s) && FreshOutside(s, os)
    ensures LastEnrolls(os, client) ==>
      client in AffectedAll(s, os).creds && AffectedAll(s, os).creds[client] !in s.drawn
    ensures !LastEnrolls(os, client) && Touches(os, client) ==> client !in AffectedAll(s, os).creds
    ensures !Touches(os, client) ==>
      (client in AffectedAll(s, os).creds <==> client in s.creds)
      && (client in s.creds ==> AffectedAll(s, os).creds[client] == s.creds[client])
  {
    if os != [] {
      var front, last := os[..|os| - 1], os[|os| - 1];
      OutsideOnClient(s, front, client);
      OutsideKeepsStore(s, front);
      assert Touches(os, client) <==> last.client == client || Touches(front, client) by {
        assert forall i | 0 <= i < |front| :: os[i] == front[i];
      }
    }
  }

  /** The cancellation takes away a credential other than the one it was asked to cancel. */
  ghost predicate RemovesNewer(s: State, id: string, opens: bool, between: seq<Outside>, revokes: bool) {
    id in s.pending &&
    var client := s.pending[id].client;
    var before := AffectedAll(s.store, between);
    && Current(s.store, client, s.pending[id].secret)
    && client in before.creds && before.creds[client] != s.pending[id].secret
    && client !in CancelledBy(s, id, opens, between, revokes).0.store.creds
  }

  /**
   * A cancellation spares every newer credential unless, between its check and its revocation,
   * another process enrolls the same client anew; then, and only then, the newer one is removed.
   */
  lemma CancelRemovesNewerExactly(s: State, id: string, opens: bool, between: seq<Outside>, revokes: bool)
    requires StoreSound(s.store) && FreshOutside(s.store, between) && id in s.pending
    ensures RemovesNewer(s, id, opens, between, revokes)
       <==> && opens && Current(s.store, s.pending[id].client, s.pending[id].secret)
            && revokes && LastEnrolls(between, s.pending[id].client)
  {
    hide AffectedAll, FreshOutside, LastEnrolls;
    OutsideOnClient(s.store, between, s.pending[id].client);
  }

  /** The first preview for a client "c". */
  function FirstPreview(): BeginCall { BeginCall("p", "c", Some(""), true, false, 0, "s1", true, [], true) }

  /** Another process revokes "c" and enrolls it anew while the cancellation is under way. */
  const ROTATION: seq<Outside> := [Outside("c", None), Outside("c", Some("s2"))]

  lemma FirstPreviewBegins()
    ensures Proper([BeginOne(FirstPreview())])
    ensures Run([BeginOne(FirstPreview())]).state
         == State(map["p" := Pending("c", "s1", "", EXPORT_SECONDS)], Store(map["c" := "s1"], {"s1"}))
  {
    var events := [BeginOne(FirstPreview())];
    assert events[..0] == [] && Proper(events[..0]) && Run(events[..0]) == START;
    assert AppIdValid("c") && Bytes("c") == 1;
    assert Alive(map[], 0) == map[];
    assert AffectedAll(START.state.store, []) == START.state.store;
  }

  /** Such a run: the owner begins, another process rotates the client, and the cancellation takes the new secret. */
  lemma CancelRemovesNewer() returns (events: seq<Event>)
    ensures Proper(events) && events == [BeginOne(FirstPreview()), CancelOne("p", true, ROTATION, true)]
    ensures RemovesNewer(Run(events[..1]).state, "p", true, ROTATION, true)
    ensures Run(events).state.store.creds == map[] && "s2" in Run(events).state.store.drawn
  {
    FirstPreviewBegins();
    var begin := [BeginOne(FirstPreview())];
    events := begin + [CancelOne("p", true, ROTATION, true)];
    assert events[..1] == begin;
    var s := Run(begin).state;
    assert ROTATION[..1] == [Outside("c", None)] && ROTATION[..1][..0] == [];
    assert AffectedAll(s.store, []) == s.store && FreshOutside(s.store, []);
    assert AffectedAll(s.store, ROTATION[..1]) == Store(map[], {"s1"}) && FreshOutside(s.store, ROTATION[..1]);
    assert AffectedAll(s.store, ROTATION) == Store(map["c" := "s2"], {"s1", "s2"}) && FreshOutside(s.store, ROTATION);
  }

  /** Without interference a cancellation removes exactly its own credential, and only while it is current. */
  lemma UndisturbedCancel(s: State, id: string)
    requires id in s.pending
    ensures var client := s.pending[id].client;
      var after := CancelledBy(s, id, true, [], true).0;
      && id !in after.pending
      && after.store.creds == if Current(s.store, client, s.pending[id].secret) then s.store.creds - {client} else s.store.creds
  {
  }
}
