/** Grants, one-use approval tickets and the bounded audit of an agent policy. */
module AgentPolicy {
  import opened Results
  import opened Text

  const MAX_AUDIT := 2048

  datatype Action = Status | Start | Stop | Install | Uninstall | ReadContent | ReadFiles | WriteContent | Destructive

  predicate NeedsApproval(a: Action) {
    a.Install? || a.Uninstall? || a.WriteContent? || a.Destructive?
  }

  datatype Grant = Grant(clientId: string, appId: string, actions: set<Action>, expiresAt: u64)

  datatype Approval = Approval(clientId: string, appId: string, action: Action, expiresAt: u64)

  datatype AuditEvent = AuditEvent(clientId: string, appId: string, action: Action, allowed: bool, at: u64)

  datatype Policy = Policy(grants: map<(string, string), Grant>, approvals: map<string, Approval>, audit: seq<AuditEvent>)

  function BoundedId(id: string): string {
    if IdValid(id) then id else "invalid"
  }

  predicate GrantValid(g: Grant) {
    IdValid(g.clientId) && IdValid(g.appId) && g.actions != {} && g.expiresAt != 0
  }

  /** A live grant of exactly this action to this client for this app. */
  predicate Live(grants: map<(string, string), Grant>, client: string, app: string, action: Action, now: u64) {
    (client, app) in grants && now < grants[(client, app)].expiresAt && action in grants[(client, app)].actions
  }

  /** An outstanding ticket for exactly this client, app and action. */
  predicate Approves(approvals: map<string, Approval>, ticket: Option<string>, client: string, app: string,
                     action: Action, now: u64)
  {
    && ticket.Some? && ticket.value in approvals
    && var a := approvals[ticket.value];
    && a.clientId == client && a.appId == app && a.action == action && now < a.expiresAt
  }

  /** When an attempt is allowed. */
  predicate Permitted(p: Policy, client: string, app: string, action: Action, ticket: Option<string>, now: u64) {
    && Live(p.grants, client, app, action, now)
    && (if NeedsApproval(action) then Approves(p.approvals, ticket, client, app, action, now) else ticket.None?)
    && IdValid(client) && IdValid(app)
  }

  function Recorded(audit: seq<AuditEvent>, e: AuditEvent): seq<AuditEvent> {
    var longer := audit + [e];
    if |longer| > MAX_AUDIT then longer[1..] else longer
  }

  function Granted(p: Policy, g: Grant): Policy {
    p.(grants := p.grants[(g.clientId, g.appId) := g])
  }

  function Revoked(p: Policy, client: string, app: string): Policy {
    p.(grants := p.grants - {(client, app)},
       approvals := map t | t in p.approvals && !(p.approvals[t].clientId == client && p.approvals[t].appId == app)
                      :: p.approvals[t])
  }

  function RevokedClient(p: Policy, client: string): Policy {
    p.(grants := map k | k in p.grants && k.0 != client :: p.grants[k],
       approvals := map t | t in p.approvals && p.approvals[t].clientId != client :: p.approvals[t])
  }

  predicate ApprovalValid(a: Approval) {
    IdValid(a.clientId) && IdValid(a.appId) && a.expiresAt != 0 && NeedsApproval(a.action)
  }

  function Approved(p: Policy, ticket: string, a: Approval): Policy {
    p.(approvals := p.approvals[ticket := a])
  }

  /** An attempt that needs approval takes its ticket out of circulation, whatever the outcome. */
  function Attempted(p: Policy, client: string, app: string, action: Action, ticket: Option<string>, now: u64): Policy {
    var allowed := Permitted(p, client, app, action, ticket, now);
    p.(approvals := if NeedsApproval(action) && ticket.Some? then p.approvals - {ticket.value} else p.approvals,
       audit := Recorded(p.audit, AuditEvent(BoundedId(client), BoundedId(app), action, allowed, now)))
  }

  function StatusApps(p: Policy, client: string, now: u64): set<string> {
    set k | k in p.grants && p.grants[k].clientId == client && now < p.grants[k].expiresAt
            && Status in p.grants[k].actions
      :: p.grants[k].appId
  }

  class AgentPolicy {
    var grants: map<(string, string), Grant>
    var approvals: map<string, Approval>
    var audit: seq<AuditEvent>

    ghost function State(): Policy
      reads this
    {
      Policy(grants, approvals, audit)
    }

    constructor ()
      ensures State() == Policy(map[], map[], [])
    {
      grants, approvals, audit := map[], map[], [];
    }

    method Grant(g: Grant) returns (ok: bool)
      modifies this
      ensures ok <==> GrantValid(g)
      ensures State() == if ok then Granted(old(State()), g) else old(State())
    {
      ok := GrantValid(g);
      if ok {
        grants := grants[(g.clientId, g.appId) := g];
      }
    }

    method Revoke(client: string, app: string)
      modifies this
      ensures State() == Revoked(old(State()), client, app)
    {
      grants := grants - {(client, app)};
      approvals := map t | t in approvals && !(approvals[t].clientId == client && approvals[t].appId == app) :: approvals[t];
    }

    method RevokeClient(client: string)
      modifies this
      ensures State() == RevokedClient(old(State()), client)
    {
      grants := map k | k in grants && k.0 != client :: grants[k];
      approvals := map t | t in approvals && approvals[t].clientId != client :: approvals[t];
    }

    /** `ticket` is the freshly drawn random value. */
    method Approve(client: string, app: string, action: Action, expiresAt: u64, ticket: string)
      returns (r: Option<string>)
      modifies this
      ensures r.Some? <==> ApprovalValid(Approval(client, app, action, expiresAt))
      ensures r.Some? ==> r.value == ticket
      ensures State() == if r.Some? then Approved(old(State()), ticket, Approval(client, app, action, expiresAt))
                         else old(State())
    {
      if !IdValid(client) || !IdValid(app) || expiresAt == 0 || !NeedsApproval(action) {
        return None;
      }
      approvals := approvals[ticket := Approval(client, app, action, expiresAt)];
      return Some(ticket);
    }

    method Authorize(client: string, app: string, action: Action, ticket: Option<string>, now: u64)
      returns (allowed: bool)
      modifies this
      ensures allowed <==> Permitted(old(State()), client, app, action, ticket, now)
      ensures State() == Attempted(old(State()), client, app, action, ticket, now)
    {
      var granted := (client, app) in grants && now < grants[(client, app)].expiresAt
                     && action in grants[(client, app)].actions;
      var approved := ticket.None?;
      if NeedsApproval(action) {
        approved := false;
        if ticket.Some? {
          if ticket.value in approvals {
            var a := approvals[ticket.value];
            approved := a.clientId == client && a.appId == app && a.action == action && now < a.expiresAt;
          }
          approvals := approvals - {ticket.value};
        }
      }
      allowed := granted && approved && IdValid(client) && IdValid(app);
      audit := audit + [AuditEvent(BoundedId(client), BoundedId(app), action, allowed, now)];
      if |audit| > MAX_AUDIT {
        audit := audit[1..];
      }
    }
  }

  // ---------- runs ----------

  datatype Op =
    | DoGrant(grant: Grant)
    | DoRevoke(client: string, app: string)
    | DoRevokeClient(client: string)
    | DoApprove(ticket: string, approval: Approval)
    | DoAuthorize(client: string, app: string, action: Action, presented: Option<string>, now: u64)

  /** A permit that was given: for what, with which ticket, and under which grant. */
  datatype Permit = Permit(client: string, app: string, action: Action, ticket: Option<string>, at: u64, grant: Grant)

  /** A policy with the history of its tickets and attempts. */
  datatype Ledger = Ledger(policy: Policy, issued: map<string, Approval>, consumed: set<string>, revoked: set<string>,
                           attempts: seq<AuditEvent>, permits: seq<Permit>)

  ghost function After(l: Ledger, op: Op): Ledger {
    match op
    case DoGrant(g) => if GrantValid(g) then l.(policy := Granted(l.policy, g)) else l
    case DoRevoke(client, app) =>
      var policy := Revoked(l.policy, client, app);
      l.(policy := policy, revoked := l.revoked + (l.policy.approvals.Keys - policy.approvals.Keys))
    case DoRevokeClient(client) =>
      var policy := RevokedClient(l.policy, client);
      l.(policy := policy, revoked := l.revoked + (l.policy.approvals.Keys - policy.approvals.Keys))
    case DoApprove(ticket, approval) =>
      if ApprovalValid(approval) then l.(policy := Approved(l.policy, ticket, approval), issued := l.issued[ticket := approval])
      else l
    case DoAuthorize(client, app, action, ticket, now) =>
      var policy := Attempted(l.policy, client, app, action, ticket, now);
      var allowed := Permitted(l.policy, client, app, action, ticket, now);
      l.(policy := policy, consumed := l.consumed + (l.policy.approvals.Keys - policy.approvals.Keys),
         attempts := l.attempts + [AuditEvent(BoundedId(client), BoundedId(app), action, allowed, now)],
         permits := if allowed then l.permits + [Permit(client, app, action, ticket, now, l.policy.grants[(client, app)])]
                    else l.permits)
  }

  ghost function Run(ops: seq<Op>): Ledger {
    if ops == [] then Ledger(Policy(map[], map[], []), map[], {}, {}, [], [])
    else After(Run(ops[..|ops| - 1]), ops[|ops| - 1])
  }

  /** Random tickets are never drawn twice. */
  ghost predicate Fresh(ops: seq<Op>) {
    ops != [] ==>
      var front, last := ops[..|ops| - 1], ops[|ops| - 1];
      Fresh(front) && (last.DoApprove? ==> last.ticket !in Run(front).issued)
  }

  /** Every ticket ever issued is outstanding, consumed by an attempt or revoked, and only one of these. */
  ghost predicate Conserved(l: Ledger) {
    && l.issued.Keys == l.policy.approvals.Keys + l.consumed + l.revoked
    && (forall t | t in l.policy.approvals :: l.issued[t] == l.policy.approvals[t])
    && l.policy.approvals.Keys !! l.consumed !! l.revoked
  }

  /** The ticket was issued for exactly this client, app and action, and had not run out. */
  ghost predicate IssuedFor(p: Permit, issued: map<string, Approval>) {
    && p.ticket.Some? && p.ticket.value in issued
    && var a := issued[p.ticket.value];
    && a.clientId == p.client && a.appId == p.app && a.action == p.action && p.at < a.expiresAt
  }

  /** The grant was this client's for this app, allowed the action, and had not run out. */
  ghost predicate GrantedFor(p: Permit) {
    && p.grant.clientId == p.client && p.grant.appId == p.app && p.action in p.grant.actions && p.at < p.grant.expiresAt
  }

  /**
   * Every permit had its grant. One for an install, an uninstall, a content write or a destructive action
   * used a ticket of its own that is now consumed; any other used none. No two permits share a ticket.
   */
  ghost predicate PermitsSound(permits: seq<Permit>, issued: map<string, Approval>, consumed: set<string>) {
    && (forall i | 0 <= i < |permits| ::
          GrantedFor(permits[i]) &&
          if permits[i].action in {Install, Uninstall, WriteContent, Destructive}
          then IssuedFor(permits[i], issued) && permits[i].ticket.value in consumed
          else permits[i].ticket.None?)
    && forall i, j | 0 <= i < j < |permits| && permits[i].ticket.Some? :: permits[i].ticket != permits[j].ticket
  }

  ghost predicate AuditIsTail(attempts: seq<AuditEvent>, audit: seq<AuditEvent>) {
    && |audit| == (if |attempts| < MAX_AUDIT then |attempts| else MAX_AUDIT)
    && audit == attempts[|attempts| - |audit|..]
  }

  ghost predicate Sound(l: Ledger) {
    && Conserved(l) && PermitsSound(l.permits, l.issued, l.consumed)
    && AuditIsTail(l.attempts, l.policy.audit) && KeysMatch(l.policy.grants)
    && Identified(l.attempts)
  }

  /** Every recorded attempt names identifiers. */
  ghost predicate Identified(attempts: seq<AuditEvent>) {
    forall i | 0 <= i < |attempts| :: IdValid(attempts[i].clientId) && IdValid(attempts[i].appId)
  }

  ghost predicate KeysMatch(grants: map<(string, string), Grant>) {
    forall k | k in grants :: grants[k].clientId == k.0 && grants[k].appId == k.1 && GrantValid(grants[k])
  }

  ghost predicate Fewer(some: map<string, Approval>, all: map<string, Approval>) {
    forall t | t in some :: t in all && some[t] == all[t]
  }

  lemma RevocationConserves(l: Ledger, policy: Policy)
    requires Conserved(l) && Fewer(policy.approvals, l.policy.approvals)
    ensures Conserved(l.(policy := policy, revoked := l.revoked + (l.policy.approvals.Keys - policy.approvals.Keys)))
    ensures Conserved(l.(policy := policy, consumed := l.consumed + (l.policy.approvals.Keys - policy.approvals.Keys)))
  {
  }

  /**
   * In every run tickets are conserved, a permit that needs approval consumed exactly its own
   * ticket and no two permits share one, and the audit is the newest 2048 attempts.
   */
  lemma {:induction false} TicketsConserved(ops: seq<Op>)
    requires Fresh(ops)
    ensures Sound(Run(ops))
  {
    hide IdValid, GrantValid, ApprovalValid, BoundedId;
    if ops != [] {
      var front, op := ops[..|ops| - 1], ops[|ops| - 1];
      TicketsConserved(front);
      hide Permitted, Sound, Run;
      match op
      case DoAuthorize(_, _, _, _, _) => AttemptKeepsSound(Run(front), op);
      case _ => QuietConserves(Run(front), op);
    }
  }

  lemma RevokedFacts(p: Policy, client: string, app: string)
    ensures Fewer(Revoked(p, client, app).approvals, p.approvals)
    ensures Fewer(RevokedClient(p, client).approvals, p.approvals)
    ensures KeysMatch(p.grants) ==> KeysMatch(Revoked(p, client, app).grants)
    ensures KeysMatch(p.grants) ==> KeysMatch(RevokedClient(p, client).grants)
  {
    hide GrantValid;
  }

  lemma QuietConserves(l: Ledger, op: Op)
    requires Sound(l)
    requires !op.DoAuthorize? && (op.DoApprove? ==> op.ticket !in l.issued)
    ensures Sound(After(l, op))
  {
    hide IdValid, ApprovalValid, BoundedId, Permitted, GrantValid, PermitsSound, AuditIsTail;
    match op
    case DoGrant(g) =>
    case DoApprove(ticket, approval) =>
      IssuedGrows(l.permits, l.issued, l.consumed, ticket, approval);
    case DoRevoke(client, app) =>
      hide KeysMatch, Conserved, Revoked;
      RevokedFacts(l.policy, client, app);
      RevocationConserves(l, Revoked(l.policy, client, app));
      assert Revoked(l.policy, client, app).audit == l.policy.audit by { RevokedKeepsAudit(l.policy, client, app); }
    case DoRevokeClient(client) =>
      hide KeysMatch, Conserved, RevokedClient;
      RevokedFacts(l.policy, client, "");
      RevocationConserves(l, RevokedClient(l.policy, client));
      assert RevokedClient(l.policy, client).audit == l.policy.audit by { RevokedKeepsAudit(l.policy, client, ""); }
  }

  /** A new ticket says nothing about the permits that were given before. */
  lemma IssuedGrows(permits: seq<Permit>, issued: map<string, Approval>, consumed: set<string>, ticket: string, a: Approval)
    requires PermitsSound(permits, issued, consumed) && ticket !in issued
    ensures PermitsSound(permits, issued[ticket := a], consumed)
  {
  }

  lemma RevokedKeepsAudit(p: Policy, client: string, app: string)
    ensures Revoked(p, client, app).audit == p.audit == RevokedClient(p, client).audit
  {
  }

  lemma AttemptConserves(l: Ledger, op: Op)
    requires Sound(l) && op.DoAuthorize?
    ensures Conserved(After(l, op)) && PermitsSound(After(l, op).permits, After(l, op).issued, After(l, op).consumed)
    ensures KeysMatch(After(l, op).policy.grants)
  {
    hide IdValid, BoundedId, GrantValid, Recorded, AuditIsTail;
    var l' := After(l, op);
    RevocationConserves(l, l'.policy);
    MoreConsumed(l.permits, l.issued, l.consumed, l'.consumed);
    if Permitted(l.policy, op.client, op.app, op.action, op.presented, op.now) {
      var p := Permit(op.client, op.app, op.action, op.presented, op.now, l.policy.grants[(op.client, op.app)]);
      if NeedsApproval(op.action) {
        var t := op.presented.value;
        assert t in l.policy.approvals.Keys && t !in l'.policy.approvals.Keys;
        assert t in l'.consumed && t !in l.consumed;
        assert IssuedFor(p, l.issued);
      }
      PermitAdded(l.permits, p, l.issued, l.consumed, l'.consumed);
    }
  }

  lemma MoreConsumed(permits: seq<Permit>, issued: map<string, Approval>, consumed: set<string>, consumed': set<string>)
    requires PermitsSound(permits, issued, consumed) && consumed <= consumed'
    ensures PermitsSound(permits, issued, consumed')
  {
  }

  lemma PermitAdded(permits: seq<Permit>, p: Permit, issued: map<string, Approval>, consumed: set<string>, consumed': set<string>)
    requires PermitsSound(permits, issued, consumed) && consumed <= consumed' && GrantedFor(p)
    requires if p.action in {Install, Uninstall, WriteContent, Destructive}
             then IssuedFor(p, issued) && p.ticket.value in consumed' && p.ticket.value !in consumed
             else p.ticket.None?
    ensures PermitsSound(permits + [p], issued, consumed')
  {
    hide IssuedFor, GrantedFor;
    forall i | 0 <= i < |permits| && permits[i].ticket.Some? ensures permits[i].ticket != p.ticket {
      assert IssuedFor(permits[i], issued) ==> permits[i].ticket.value in consumed;
    }
  }

  lemma AuditStep(attempts: seq<AuditEvent>, audit: seq<AuditEvent>, e: AuditEvent)
    requires AuditIsTail(attempts, audit)
    ensures AuditIsTail(attempts + [e], Recorded(audit, e))
  {
    var start := |attempts| - |audit|;
    assert audit + [e] == (attempts + [e])[start..];
    if |audit| == MAX_AUDIT {
      assert (audit + [e])[1..] == (attempts + [e])[start + 1..];
    }
  }

  /** The audit names whom it was asked for, or nobody when that is no identifier. */
  lemma AuditNames(id: string)
    ensures IdValid(BoundedId(id)) && (IdValid(id) ==> BoundedId(id) == id)
  {
    assert IdValid("invalid");
  }

  lemma AttemptKeepsSound(l: Ledger, op: Op)
    requires Sound(l) && op.DoAuthorize?
    ensures Sound(After(l, op))
  {
    hide After;
    AttemptConserves(l, op);
    AttemptRecorded(l, op);
    AttemptIdentified(l, op);
  }

  lemma AttemptIdentified(l: Ledger, op: Op)
    requires Identified(l.attempts) && op.DoAuthorize?
    ensures Identified(After(l, op).attempts)
  {
    AuditNames(op.client);
    AuditNames(op.app);
    hide IdValid, BoundedId, Permitted, Attempted;
  }

  lemma AttemptRecorded(l: Ledger, op: Op)
    requires Sound(l) && op.DoAuthorize?
    ensures AuditIsTail(After(l, op).attempts, After(l, op).policy.audit)
  {
    hide IdValid, BoundedId, Permitted, PermitsSound, Conserved, KeysMatch, AuditIsTail, Recorded, Identified;
    var allowed := Permitted(l.policy, op.client, op.app, op.action, op.presented, op.now);
    AuditStep(l.attempts, l.policy.audit, AuditEvent(BoundedId(op.client), BoundedId(op.app), op.action, allowed, op.now));
  }

  /** An attempt that needs approval spends the ticket it presents, even when the ticket is for something else. */
  lemma AttemptSpendsTicket(p: Policy, client: string, app: string, action: Action, ticket: string, now: u64)
    requires NeedsApproval(action)
    ensures ticket !in Attempted(p, client, app, action, Some(ticket), now).approvals
    ensures forall client', app', action', now' ::
      !Permitted(Attempted(p, client, app, action, Some(ticket), now), client', app', action', Some(ticket), now')
  {
    hide IdValid;
  }

  /** After a revocation nothing of the client's scope, grant or ticket, permits anything any more. */
  lemma RevocationIsComplete(p: Policy, client: string, app: string, action: Action, ticket: Option<string>, now: u64)
    ensures !Permitted(Revoked(p, client, app), client, app, action, ticket, now)
    ensures !Permitted(RevokedClient(p, client), client, app, action, ticket, now)
    ensures forall c | c != client ::
      Permitted(RevokedClient(p, client), c, app, action, ticket, now) <==> Permitted(p, c, app, action, ticket, now)
  {
    hide IdValid;
  }

  /** An app is discoverable by a client exactly when the client may read its status. */
  lemma DiscoveryMatchesStatus(p: Policy, client: string, app: string, now: u64)
    requires KeysMatch(p.grants)
    ensures app in StatusApps(p, client, now) <==> Permitted(p, client, app, Status, None, now)
  {
    hide IdValid;
    if Permitted(p, client, app, Status, None, now) {
      assert (client, app) in p.grants;
    }
    if app in StatusApps(p, client, now) {
      var k :| k in p.grants && p.grants[k].clientId == client && now < p.grants[k].expiresAt
               && Status in p.grants[k].actions && p.grants[k].appId == app;
      assert k == (client, app);
      assert GrantValid(p.grants[k]);
    }
  }

  /**
   * A content write approves itself and authorizes at once: it is allowed exactly under a live
   * write grant, and it never leaves a ticket behind.
   */
  lemma ContentWriteLeavesNoTicket(p: Policy, client: string, app: string, ticket: string, now: u64)
    requires ticket !in p.approvals && now < U64_MAX && IdValid(client) && IdValid(app)
    ensures var approved := Approved(p, ticket, Approval(client, app, WriteContent, now + 1));
      && (Permitted(approved, client, app, WriteContent, Some(ticket), now)
          <==> Live(p.grants, client, app, WriteContent, now))
      && Attempted(approved, client, app, WriteContent, Some(ticket), now).approvals == p.approvals
      && Attempted(approved, client, app, WriteContent, Some(ticket), now).grants == p.grants
  {
    hide IdValid;
    assert p.approvals[ticket := Approval(client, app, WriteContent, now + 1)] - {ticket} == p.approvals;
  }

  /**
   * `authorize_content`: the write branch draws its own ticket, to end one second later. At the last second of
   * the clock that end wraps to zero and is refused, as no grant can be live then anyway.
   */
  method AuthorizeContent(policy: AgentPolicy, client: string, app: string, write: bool, ticket: string, now: u64)
    returns (allowed: bool)
    requires ticket !in policy.approvals
    modifies policy
    ensures allowed <==>
      && IdValid(client) && IdValid(app)
      && Live(old(policy.grants), client, app, if write then WriteContent else ReadContent, now)
    ensures policy.grants == old(policy.grants) && policy.approvals == old(policy.approvals)
  {
    hide IdValid;
    if write {
      var approval := policy.Approve(client, app, WriteContent, (now + 1) % (U64_MAX + 1), ticket);
      if approval.None? {
        return false;
      }
      ContentWriteLeavesNoTicket(old(policy.State()), client, app, ticket, now);
      allowed := policy.Authorize(client, app, WriteContent, approval, now);
    } else {
      allowed := policy.Authorize(client, app, ReadContent, None, now);
    }
  }
}
