/** What a policy permits, told from everything that was done to it. */
module PolicyHistory {
  import opened Results
  import opened Text
  import opened AgentPolicy

  /** What the policy lets the owner grant, and what a ticket may be for. */
  predicate Grantable(g: Grant) { IdValid(g.clientId) && IdValid(g.appId) && g.actions != {} && g.expiresAt != 0 }

  predicate Approvable(a: Approval) {
    && IdValid(a.clientId) && IdValid(a.appId) && a.expiresAt != 0
    && a.action in {Install, Uninstall, WriteContent, Destructive}
  }

  /** The owner takes everything of this scope back. */
  predicate TakesBack(op: Op, client: string, app: string) {
    op == DoRevoke(client, app) || op == DoRevokeClient(client)
  }

  /** The grant is replaced or taken back. */
  predicate EndsGrant(op: Op, g: Grant) {
    || TakesBack(op, g.clientId, g.appId)
    || (op.DoGrant? && Grantable(op.grant) && op.grant.clientId == g.clientId && op.grant.appId == g.appId)
  }

  /** The ticket is taken back, or presented for something that needs one. */
  predicate EndsTicket(op: Op, ticket: string, a: Approval) {
    || TakesBack(op, a.clientId, a.appId)
    || (op.DoAuthorize? && op.action in {Install, Uninstall, WriteContent, Destructive} && op.presented == Some(ticket))
  }

  /** The owner gave this grant, and nothing ended it since. */
  ghost predicate GrantStands(ops: seq<Op>, g: Grant) {
    Grantable(g) && exists i | 0 <= i < |ops| :: ops[i] == DoGrant(g) && forall j | i < j < |ops| :: !EndsGrant(ops[j], g)
  }

  /** The ticket was issued for this, and nothing ended it since. */
  ghost predicate TicketStands(ops: seq<Op>, ticket: string, a: Approval) {
    Approvable(a) &&
    exists i | 0 <= i < |ops| :: ops[i] == DoApprove(ticket, a) && forall j | i < j < |ops| :: !EndsTicket(ops[j], ticket, a)
  }

  lemma GrantStandsStep(front: seq<Op>, op: Op, g: Grant)
    ensures GrantStands(front + [op], g)
      <==> (op == DoGrant(g) && Grantable(g)) || (GrantStands(front, g) && !EndsGrant(op, g))
  {
    hide Grantable, EndsGrant;
    var ops := front + [op];
    assert ops[|front|] == op && forall i | 0 <= i < |front| :: ops[i] == front[i];
    if GrantStands(front, g) && !EndsGrant(op, g) {
      var i :| 0 <= i < |front| && front[i] == DoGrant(g) && forall j | i < j < |front| :: !EndsGrant(front[j], g);
      assert ops[i] == DoGrant(g);
    }
    if GrantStands(ops, g) && !(op == DoGrant(g)) {
      var i :| 0 <= i < |ops| && ops[i] == DoGrant(g) && forall j | i < j < |ops| :: !EndsGrant(ops[j], g);
      assert front[i] == DoGrant(g) && !EndsGrant(ops[|front|], g);
    }
  }

  lemma TicketStandsStep(front: seq<Op>, op: Op, ticket: string, a: Approval)
    ensures TicketStands(front + [op], ticket, a)
      <==> (op == DoApprove(ticket, a) && Approvable(a)) || (TicketStands(front, ticket, a) && !EndsTicket(op, ticket, a))
  {
    hide Approvable, EndsTicket;
    var ops := front + [op];
    assert ops[|front|] == op && forall i | 0 <= i < |front| :: ops[i] == front[i];
    if TicketStands(front, ticket, a) && !EndsTicket(op, ticket, a) {
      var i :| 0 <= i < |front| && front[i] == DoApprove(ticket, a)
        && forall j | i < j < |front| :: !EndsTicket(front[j], ticket, a);
      assert ops[i] == DoApprove(ticket, a);
    }
    if TicketStands(ops, ticket, a) && !(op == DoApprove(ticket, a)) {
      var i :| 0 <= i < |ops| && ops[i] == DoApprove(ticket, a) && forall j | i < j < |ops| :: !EndsTicket(ops[j], ticket, a);
      assert front[i] == DoApprove(ticket, a) && !EndsTicket(ops[|front|], ticket, a);
    }
  }

  predicate HasGrant(p: Policy, g: Grant) {
    (g.clientId, g.appId) in p.grants && p.grants[(g.clientId, g.appId)] == g
  }

  predicate HasTicket(p: Policy, ticket: string, a: Approval) { ticket in p.approvals && p.approvals[ticket] == a }

  lemma GrantStep(l: Ledger, op: Op, g: Grant)
    requires KeysMatch(l.policy.grants)
    ensures HasGrant(After(l, op).policy, g)
      <==> (op == DoGrant(g) && Grantable(g)) || (HasGrant(l.policy, g) && !EndsGrant(op, g))
  {
    hide IdValid, Permitted;
  }

  lemma TicketStep(l: Ledger, op: Op, ticket: string, a: Approval)
    requires op.DoApprove? ==> op.ticket !in l.policy.approvals
    ensures HasTicket(After(l, op).policy, ticket, a)
      <==> (op == DoApprove(ticket, a) && Approvable(a)) || (HasTicket(l.policy, ticket, a) && !EndsTicket(op, ticket, a))
  {
    hide IdValid, Permitted;
  }

  /** The policy holds exactly the grants and tickets that stand. */
  lemma {:induction false} HoldsWhatStands(ops: seq<Op>, g: Grant, ticket: string, a: Approval)
    requires Fresh(ops)
    ensures HasGrant(Run(ops).policy, g) <==> GrantStands(ops, g)
    ensures HasTicket(Run(ops).policy, ticket, a) <==> TicketStands(ops, ticket, a)
  {
    hide After, HasGrant, HasTicket, GrantStands, TicketStands, EndsGrant, EndsTicket, Grantable, Approvable;
    if ops == [] {
      NothingStands(g, ticket, a);
    } else {
      var front, op := ops[..|ops| - 1], ops[|ops| - 1];
      HoldsWhatStands(front, g, ticket, a);
      TicketsConserved(front);
      GrantStep(Run(front), op, g);
      TicketStep(Run(front), op, ticket, a);
      assert ops == front + [op];
      GrantStandsStep(front, op, g);
      TicketStandsStep(front, op, ticket, a);
    }
  }

  lemma NothingStands(g: Grant, ticket: string, a: Approval)
    ensures !HasGrant(Run([]).policy, g) && !GrantStands([], g)
    ensures !HasTicket(Run([]).policy, ticket, a) && !TicketStands([], ticket, a)
  {
  }

  /** A grant that allows this now. */
  ghost predicate Covers(ops: seq<Op>, g: Grant, client: string, app: string, action: Action, now: u64) {
    GrantStands(ops, g) && g.clientId == client && g.appId == app && action in g.actions && now < g.expiresAt
  }

  /** A ticket that is good for this now. */
  ghost predicate Serves(ops: seq<Op>, ticket: string, a: Approval, client: string, app: string, action: Action, now: u64) {
    TicketStands(ops, ticket, a) && a.clientId == client && a.appId == app && a.action == action && now < a.expiresAt
  }

  lemma GrantPart(ops: seq<Op>, client: string, app: string, action: Action, now: u64)
    requires Fresh(ops)
    ensures Live(Run(ops).policy.grants, client, app, action, now) <==> exists g :: Covers(ops, g, client, app, action, now)
    ensures Live(Run(ops).policy.grants, client, app, action, now) ==> IdValid(client) && IdValid(app)
  {
    var p, none := Run(ops).policy, Approval("", "", Status, 0);
    TicketsConserved(ops);
    hide Run, Fresh, GrantStands, TicketStands, Conserved, PermitsSound, IdValid;
    if Live(p.grants, client, app, action, now) {
      HoldsWhatStands(ops, p.grants[(client, app)], "", none);
      assert Covers(ops, p.grants[(client, app)], client, app, action, now);
    }
    if g :| Covers(ops, g, client, app, action, now) {
      HoldsWhatStands(ops, g, "", none);
    }
  }

  lemma TicketPart(ops: seq<Op>, ticket: string, client: string, app: string, action: Action, now: u64)
    requires Fresh(ops)
    ensures Approves(Run(ops).policy.approvals, Some(ticket), client, app, action, now)
      <==> exists a :: Serves(ops, ticket, a, client, app, action, now)
  {
    var p, none := Run(ops).policy, Grant("", "", {}, 0);
    hide Run, Fresh, GrantStands, TicketStands;
    if Approves(p.approvals, Some(ticket), client, app, action, now) {
      HoldsWhatStands(ops, none, ticket, p.approvals[ticket]);
      assert Serves(ops, ticket, p.approvals[ticket], client, app, action, now);
    }
    if a :| Serves(ops, ticket, a, client, app, action, now) {
      HoldsWhatStands(ops, none, ticket, a);
    }
  }

  /**
   * After any run an attempt is permitted if and only if the owner's last grant for that client and app
   * stands, allows the action and has not run out; and, for an install, an uninstall, a content write or a
   * destructive action, the ticket presented was issued for exactly this, stands and has not run out. For
   * any other action no ticket is presented.
   */
  lemma PermittedExactly(ops: seq<Op>, client: string, app: string, action: Action, ticket: Option<string>, now: u64)
    requires Fresh(ops)
    ensures Permitted(Run(ops).policy, client, app, action, ticket, now) <==>
      && (exists g :: Covers(ops, g, client, app, action, now))
      && (if action in {Install, Uninstall, WriteContent, Destructive}
          then ticket.Some? && exists a :: Serves(ops, ticket.value, a, client, app, action, now)
          else ticket.None?)
  {
    hide Run, Fresh, Covers, Serves, Live, Approves, IdValid;
    GrantPart(ops, client, app, action, now);
    if ticket.Some? {
      TicketPart(ops, ticket.value, client, app, action, now);
    }
    NoTicketNoApproval(Run(ops).policy.approvals, client, app, action, now);
  }

  lemma NoTicketNoApproval(approvals: map<string, Approval>, client: string, app: string, action: Action, now: u64)
    ensures !Approves(approvals, None, client, app, action, now)
  {
  }
}
