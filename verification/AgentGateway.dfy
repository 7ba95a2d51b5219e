/**
 * Enrollment, grants and authorization over two separately locked stores. Every store write is one
 * atomic step; processes interleave and may stop for good between any two steps.
 */
module AgentGateway {
  import opened Results
  import opened Text
  import opened AgentPolicy

  /** A bearer secret; stores keep its hash, which identifies it. */
  type Secret = string

  /** A stored grant, with the secret under which its client was enrolled when the owner's call checked it. */
  datatype Stamped = Stamped(grant: Grant, under: Secret)

  /** A call in progress. All but the last two hold the credential lock. */
  datatype Proc =
    | Enrolling(client: string)
    | Cleared(client: string)
    | Revoking(client: string)
    | Unenrolling(client: string)
    | Granting(grant: Grant, under: Secret)
    | Narrowing(client: string, app: string)
    | Filing(grant: Grant, under: Secret)
    | Verified(client: string, secret: Secret, app: string, action: Action)

  predicate Holds(p: Proc) { !p.Filing? && !p.Verified? }

  /** An authorization that was allowed. */
  datatype Pass = Pass(pid: nat, client: string, app: string, action: Action, secret: Secret,
                       under: Secret, current: Option<Secret>, at: u64)

  datatype World = World(creds: map<string, Secret>, grants: map<(string, string), Stamped>,
                         procs: map<nat, Proc>, lock: Option<nat>, drawn: set<Secret>, passes: seq<Pass>)

  const FILES: set<Action> := {Status, ReadFiles}

  /** What the owner's calls that keep the credential lock may grant. */
  predicate LockedActions(actions: set<Action>) {
    actions in {{Status}, {Status, Start, Stop}, {Status, ReadContent}, {Status, ReadContent, WriteContent}}
  }

  /** Actions that the gateway dispatches without a ticket of the caller's. */
  predicate Dispatchable(a: Action) {
    a.Status? || a.Start? || a.Stop? || a.ReadFiles? || a.ReadContent? || a.WriteContent?
  }

  function Plain(grants: map<(string, string), Stamped>): map<(string, string), Grant> {
    map k | k in grants :: grants[k].grant
  }

  function Without(grants: map<(string, string), Stamped>, client: string): map<(string, string), Stamped> {
    map k | k in grants && k.0 != client :: grants[k]
  }

  datatype Event =
    | BeginEnroll(pid: nat, client: string)
    | ClearForEnroll(pid: nat)
    | WriteEnroll(pid: nat, secret: Secret)
    | BeginRevoke(pid: nat, client: string)
    | ClearForRevoke(pid: nat)
    | WriteRevoke(pid: nat)
    | BeginGrant(pid: nat, grant: Grant)
    | WriteGrant(pid: nat)
    | BeginNarrow(pid: nat, client: string, app: string)
    | WriteNarrow(pid: nat)
    | CheckFiles(pid: nat, grant: Grant)
    | WriteFiles(pid: nat)
    | Verify(pid: nat, secret: Secret, claim: Option<string>, app: string, action: Action)
    | Authorize(pid: nat, now: u64)
    | Halt(pid: nat)

  /** A new call that takes the credential lock. */
  function Acquire(w: World, pid: nat, p: Proc): World {
    w.(procs := w.procs[pid := p], lock := Some(pid))
  }

  /** The call is over, completed, failed or crashed; the operating system releases its locks. */
  function Release(w: World, pid: nat): World {
    w.(procs := w.procs - {pid}, lock := if w.lock == Some(pid) then None else w.lock)
  }

  predicate At(w: World, pid: nat, p: Proc) { pid in w.procs && w.procs[pid] == p }

  ghost predicate Enabled(w: World, e: Event) {
    match e
    case BeginEnroll(pid, client) => pid !in w.procs && w.lock.None? && client !in w.creds
    case ClearForEnroll(pid) => pid in w.procs && w.procs[pid].Enrolling? && IdValid(w.procs[pid].client)
    case WriteEnroll(pid, secret) => pid in w.procs && w.procs[pid].Cleared? && secret !in w.drawn
    case BeginRevoke(pid, client) => pid !in w.procs && w.lock.None?
    case ClearForRevoke(pid) => pid in w.procs && w.procs[pid].Revoking? && IdValid(w.procs[pid].client)
    case WriteRevoke(pid) => pid in w.procs && w.procs[pid].Unenrolling?
    case BeginGrant(pid, grant) =>
      pid !in w.procs && w.lock.None? && grant.clientId in w.creds && LockedActions(grant.actions)
    case WriteGrant(pid) => pid in w.procs && w.procs[pid].Granting? && GrantValid(w.procs[pid].grant)
    case BeginNarrow(pid, client, app) => pid !in w.procs && w.lock.None? && client in w.creds
    case WriteNarrow(pid) =>
      pid in w.procs && w.procs[pid].Narrowing? && IdValid(w.procs[pid].client) && IdValid(w.procs[pid].app)
    case CheckFiles(pid, grant) =>
      pid !in w.procs && w.lock.None? && grant.clientId in w.creds && grant.actions == FILES
    case WriteFiles(pid) => pid in w.procs && w.procs[pid].Filing? && GrantValid(w.procs[pid].grant)
    case Verify(pid, secret, claim, app, action) =>
      && pid !in w.procs && w.lock.None? && Dispatchable(action)
      && exists c | c in w.creds :: w.creds[c] == secret && (claim.Some? ==> claim.value == c)
    case Authorize(pid, now) => pid in w.procs && w.procs[pid].Verified?
    case Halt(pid) => pid in w.procs
  }

  ghost function Act(w: World, e: Event): World
    requires Enabled(w, e)
  {
    match e
    case BeginEnroll(pid, client) => Acquire(w, pid, Enrolling(client))
    case ClearForEnroll(pid) =>
      w.(grants := Without(w.grants, w.procs[pid].client), procs := w.procs[pid := Cleared(w.procs[pid].client)])
    case WriteEnroll(pid, secret) =>
      Release(w.(creds := w.creds[w.procs[pid].client := secret], drawn := w.drawn + {secret}), pid)
    case BeginRevoke(pid, client) => Acquire(w, pid, Revoking(client))
    case ClearForRevoke(pid) =>
      w.(grants := Without(w.grants, w.procs[pid].client), procs := w.procs[pid := Unenrolling(w.procs[pid].client)])
    case WriteRevoke(pid) => Release(w.(creds := w.creds - {w.procs[pid].client}), pid)
    case BeginGrant(pid, grant) => Acquire(w, pid, Granting(grant, w.creds[grant.clientId]))
    case WriteGrant(pid) =>
      var p := w.procs[pid];
      Release(w.(grants := w.grants[(p.grant.clientId, p.grant.appId) := Stamped(p.grant, p.under)]), pid)
    case BeginNarrow(pid, client, app) => Acquire(w, pid, Narrowing(client, app))
    case WriteNarrow(pid) => Release(w.(grants := w.grants - {(w.procs[pid].client, w.procs[pid].app)}), pid)
    case CheckFiles(pid, grant) => w.(procs := w.procs[pid := Filing(grant, w.creds[grant.clientId])])
    case WriteFiles(pid) =>
      var p := w.procs[pid];
      Release(w.(grants := w.grants[(p.grant.clientId, p.grant.appId) := Stamped(p.grant, p.under)]), pid)
    case Verify(pid, secret, claim, app, action) =>
      var c :| c in w.creds && w.creds[c] == secret && (claim.Some? ==> claim.value == c);
      w.(procs := w.procs[pid := Verified(c, secret, app, action)])
    case Authorize(pid, now) => Release(Answer(w, pid, now), pid)
    case Halt(pid) => Release(w, pid)
  }

  /** The policy store decides on a verified request and records a pass when it is allowed. */
  ghost function Answer(w: World, pid: nat, now: u64): World
    requires pid in w.procs && w.procs[pid].Verified?
  {
    var p := w.procs[pid];
    if Live(Plain(w.grants), p.client, p.app, p.action, now) && IdValid(p.client) && IdValid(p.app) then
      var current := if p.client in w.creds then Some(w.creds[p.client]) else None;
      w.(passes := w.passes
         + [Pass(pid, p.client, p.app, p.action, p.secret, w.grants[(p.client, p.app)].under, current, now)])
    else w
  }

  ghost function Step(w: World, e: Event): World {
    if Enabled(w, e) then Act(w, e) else w
  }

  /** Nobody is enrolled and nothing runs; the policy file may hold any stale grants. */
  ghost predicate Initial(w: World) {
    && w.creds == map[] && w.procs == map[] && w.lock == None && w.drawn == {} && w.passes == []
  }

  ghost function Run(w: World, events: seq<Event>): World {
    if events == [] then w else Step(Run(w, events[..|events| - 1]), events[|events| - 1])
  }

  // ---------- the invariant ----------

  ghost predicate Exclusive(w: World) {
    && (w.lock.Some? ==> w.lock.value in w.procs && Holds(w.procs[w.lock.value]))
    && forall pid | pid in w.procs && Holds(w.procs[pid]) :: w.lock == Some(pid)
  }

  /** What can appear for a client after its grants were cleared: file grants checked before. */
  ghost predicate OnlyFiles(w: World, client: string) {
    forall k | k in w.grants && k.0 == client :: w.grants[k].grant.actions == {Status, ReadFiles} && w.grants[k].under in w.drawn
  }

  /** What a call in progress may rely on. */
  ghost predicate Relies(w: World, p: Proc) {
    match p
    case Enrolling(c) => c !in w.creds
    case Cleared(c) => c !in w.creds && OnlyFiles(w, c)
    case Unenrolling(c) => OnlyFiles(w, c)
    case Granting(g, under) => g.clientId in w.creds && w.creds[g.clientId] == under
    case Filing(g, under) => g.actions == {Status, ReadFiles} && under in w.drawn
    case Verified(c, s, _, action) => s in w.drawn && Dispatched(action)
    case _ => true
  }

  /** A grant of an enrolled client was checked under its present enrollment, unless it is a file grant. */
  ghost predicate GrantCurrent(w: World, k: (string, string)) {
    k in w.grants && k.0 in w.creds ==> w.grants[k].under == w.creds[k.0] || w.grants[k].grant.actions == {Status, ReadFiles}
  }

  ghost predicate SecretsUnique(w: World) {
    && (forall c | c in w.creds :: w.creds[c] in w.drawn)
    && forall c, d | c in w.creds && d in w.creds && w.creds[c] == w.creds[d] :: c == d
  }

  /** A pass is never for what needs a ticket of its own; a stale one is for files or the status only. */
  ghost predicate PassSound(p: Pass) {
    Dispatched(p.action) && (p.current.Some? ==> p.under == p.current.value || p.action in {Status, ReadFiles})
  }

  predicate Dispatched(action: Action) { action !in {Install, Uninstall, Destructive} }

  ghost predicate Inv(w: World) {
    && Exclusive(w)
    && (forall pid | pid in w.procs :: Relies(w, w.procs[pid]))
    && (forall k | k in w.grants :: GrantCurrent(w, k))
    && SecretsUnique(w)
    && forall i | 0 <= i < |w.passes| :: PassSound(w.passes[i])
  }

  lemma ActKeepsExclusive(w: World, e: Event)
    requires Inv(w) && Enabled(w, e)
    ensures Exclusive(Act(w, e))
  {
    hide IdValid, GrantValid, Live, LockedActions, GrantCurrent, SecretsUnique, Relies, PassSound, Answer, Plain;
    AnswerKeepsRest(w, e);
  }

  lemma AnswerKeepsRest(w: World, e: Event)
    ensures e.Authorize? && Enabled(w, e) ==>
      var w' := Answer(w, e.pid, e.now);
      w'.creds == w.creds && w'.grants == w.grants && w'.procs == w.procs && w'.lock == w.lock && w'.drawn == w.drawn
      && w.passes <= w'.passes && |w'.passes| <= |w.passes| + 1
  {
    hide IdValid, Live, Plain;
  }

  lemma ActKeepsRelies(w: World, e: Event)
    requires Inv(w) && Enabled(w, e)
    ensures forall pid | pid in Act(w, e).procs :: Relies(Act(w, e), Act(w, e).procs[pid])
  {
    hide IdValid, GrantValid, Live, LockedActions, GrantCurrent, PassSound, Answer, Plain, SecretsUnique;
    AnswerKeepsRest(w, e);
    assert SecretsDrawn(w) by { InvSecretsDrawn(w); }
    var w' := Act(w, e);
    forall pid | pid in w'.procs ensures Relies(w', w'.procs[pid]) {
      assert pid in w.procs ==> Relies(w, w.procs[pid]);
    }
  }

  ghost predicate SecretsDrawn(w: World) {
    forall c | c in w.creds :: w.creds[c] in w.drawn
  }

  lemma InvSecretsDrawn(w: World)
    requires Inv(w)
    ensures SecretsDrawn(w)
  {
  }

  lemma ActKeepsGrants(w: World, e: Event)
    requires Inv(w) && Enabled(w, e)
    ensures forall k | k in Act(w, e).grants :: GrantCurrent(Act(w, e), k)
  {
    hide IdValid, GrantValid, Live, LockedActions, PassSound, Answer, Plain, SecretsUnique, Exclusive;
    AnswerKeepsRest(w, e);
    var w' := Act(w, e);
    assert e.pid in w.procs ==> Relies(w, w.procs[e.pid]);
    forall k | k in w'.grants ensures GrantCurrent(w', k) {
      assert k in w.grants ==> GrantCurrent(w, k);
    }
  }

  lemma ActKeepsSecrets(w: World, e: Event)
    requires Inv(w) && Enabled(w, e)
    ensures SecretsUnique(Act(w, e))
  {
    hide IdValid, GrantValid, Live, LockedActions, PassSound, Answer, Plain, GrantCurrent, Exclusive, Relies;
    AnswerKeepsRest(w, e);
  }

  lemma ActKeepsPasses(w: World, e: Event)
    requires Inv(w) && Enabled(w, e)
    ensures forall i | 0 <= i < |Act(w, e).passes| :: PassSound(Act(w, e).passes[i])
  {
    hide IdValid, GrantValid, LockedActions, SecretsUnique, Exclusive;
    if e.Authorize? {
      assert Relies(w, w.procs[e.pid]);
      var p := w.procs[e.pid];
      assert (p.client, p.app) in w.grants ==> GrantCurrent(w, (p.client, p.app));
    }
  }

  lemma StepKeepsInv(w: World, e: Event)
    requires Inv(w)
    ensures Inv(Step(w, e))
  {
    hide Enabled, Act, Exclusive, Relies, GrantCurrent, SecretsUnique, PassSound;
    if Enabled(w, e) {
      ActKeepsExclusive(w, e);
      ActKeepsRelies(w, e);
      ActKeepsGrants(w, e);
      ActKeepsSecrets(w, e);
      ActKeepsPasses(w, e);
    }
  }

  /**
   * Whatever the interleaving and wherever calls stop, every grant of an enrolled client was checked
   * under its present enrollment or grants files only, and every pass was given under such a grant.
   */
  lemma {:induction false} RunKeepsInv(w: World, events: seq<Event>)
    requires Initial(w)
    ensures Inv(Run(w, events))
  {
    hide Step;
    if events != [] {
      RunKeepsInv(w, events[..|events| - 1]);
      StepKeepsInv(Run(w, events[..|events| - 1]), events[|events| - 1]);
    }
  }

  // ---------- calls that nothing interrupts ----------

  ghost function Enrolled(w: World, pid: nat, client: string, secret: Secret): World {
    Step(Step(Step(w, BeginEnroll(pid, client)), ClearForEnroll(pid)), WriteEnroll(pid, secret))
  }

  ghost function Unenrolled(w: World, pid: nat, client: string): World {
    Step(Step(Step(w, BeginRevoke(pid, client)), ClearForRevoke(pid)), WriteRevoke(pid))
  }

  const NOBODY := World(map[], map[], map[], None, {}, [])

  lemma EnrolledAlone(w: World, pid: nat, client: string, secret: Secret)
    requires pid !in w.procs && w.lock.None? && client !in w.creds && secret !in w.drawn && IdValid(client)
    ensures Enrolled(w, pid, client, secret)
         == w.(creds := w.creds[client := secret], grants := Without(w.grants, client), drawn := w.drawn + {secret})
  {
    hide IdValid;
    var a := Step(w, BeginEnroll(pid, client));
    var b := Step(a, ClearForEnroll(pid));
    assert b.procs == w.procs[pid := Cleared(client)] && b.lock == Some(pid);
    assert b.procs - {pid} == w.procs;
  }

  lemma UnenrolledAlone(w: World, pid: nat, client: string)
    requires pid !in w.procs && w.lock.None? && IdValid(client)
    ensures Unenrolled(w, pid, client) == w.(creds := w.creds - {client}, grants := Without(w.grants, client))
  {
    hide IdValid;
    var a := Step(w, BeginRevoke(pid, client));
    var b := Step(a, ClearForRevoke(pid));
    assert b.procs == w.procs[pid := Unenrolling(client)] && b.lock == Some(pid);
    assert b.procs - {pid} == w.procs;
  }

  lemma GrantedAlone(w: World, pid: nat, g: Grant)
    requires pid !in w.procs && w.lock.None? && g.clientId in w.creds && LockedActions(g.actions) && GrantValid(g)
    ensures Step(Step(w, BeginGrant(pid, g)), WriteGrant(pid))
         == w.(grants := w.grants[(g.clientId, g.appId) := Stamped(g, w.creds[g.clientId])])
  {
    hide GrantValid, LockedActions;
    var a := Step(w, BeginGrant(pid, g));
    assert a.procs - {pid} == w.procs;
  }

  lemma NarrowedAlone(w: World, pid: nat, client: string, app: string)
    requires pid !in w.procs && w.lock.None? && client in w.creds && IdValid(client) && IdValid(app)
    ensures Step(Step(w, BeginNarrow(pid, client, app)), WriteNarrow(pid)) == w.(grants := w.grants - {(client, app)})
  {
    hide IdValid;
    var a := Step(w, BeginNarrow(pid, client, app));
    assert a.procs - {pid} == w.procs;
  }

  // ---------- revocation ----------

  /** The first write of a revocation already takes everything away, while the credential still stands. */
  lemma HalfRevocationDenies(w: World, e: Event, app: string, action: Action, now: u64)
    requires e.ClearForRevoke? && Enabled(w, e)
    ensures Step(w, e).creds == w.creds
    ensures !Live(Plain(Step(w, e).grants), w.procs[e.pid].client, app, action, now)
  {
    hide IdValid;
  }

  ghost predicate Retired(w: World, s: Secret) {
    s in w.drawn && forall c | c in w.creds :: w.creds[c] != s
  }

  ghost predicate HasVerified(w: World, pid: nat, s: Secret) {
    pid in w.procs && w.procs[pid].Verified? && w.procs[pid].secret == s
  }

  lemma StepKeepsRetired(w: World, e: Event, s: Secret)
    requires Retired(w, s)
    ensures Retired(Step(w, e), s)
    ensures forall pid | HasVerified(Step(w, e), pid, s) :: HasVerified(w, pid, s)
    ensures w.passes <= Step(w, e).passes
    ensures forall i | |w.passes| <= i < |Step(w, e).passes| ::
      Step(w, e).passes[i].secret == s ==> HasVerified(w, Step(w, e).passes[i].pid, s)
  {
    hide IdValid, GrantValid, Live, LockedActions, Plain;
  }

  /**
   * Once a secret is no longer its client's credential it never is again, no request can begin with
   * it, and whatever still passes under it was verified before.
   */
  lemma {:induction false} RetiredForever(w: World, events: seq<Event>, k: nat, s: Secret)
    requires k <= |events| && Retired(Run(w, events[..k]), s)
    ensures Retired(Run(w, events), s)
    ensures forall pid | HasVerified(Run(w, events), pid, s) :: HasVerified(Run(w, events[..k]), pid, s)
    ensures Run(w, events[..k]).passes <= Run(w, events).passes
    ensures forall i | |Run(w, events[..k]).passes| <= i < |Run(w, events).passes| ::
      Run(w, events).passes[i].secret == s ==> HasVerified(Run(w, events[..k]), Run(w, events).passes[i].pid, s)
  {
    hide Step, Retired, HasVerified;
    if k == |events| {
      assert events[..k] == events;
    } else {
      var front := events[..|events| - 1];
      assert front[..k] == events[..k];
      RetiredForever(w, front, k, s);
      StepKeepsRetired(Run(w, front), events[|events| - 1], s);
    }
  }
}
