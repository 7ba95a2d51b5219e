/** Every request that the gateway let through, told from the steps that led to it. */
module GatewayHistory {
  import opened Results
  import opened Text
  import AgentPolicy
  import opened AgentGateway

  /** At this step the secret was the client's present one, and the request was for this. */
  ghost predicate VerifiedAt(w: World, events: seq<Event>, k: nat, p: Proc, pid: nat)
    requires k < |events| && p.Verified?
  {
    var creds := Run(w, events[..k]).creds;
    && p.client in creds && creds[p.client] == p.secret
    && events[k].Verify? && events[k].pid == pid && events[k].secret == p.secret
    && events[k].app == p.app && events[k].action == p.action
    && (events[k].claim.Some? ==> events[k].claim.value == p.client)
  }

  lemma RunNext(w: World, events: seq<Event>, k: nat)
    requires k < |events|
    ensures Run(w, events[..k + 1]) == Step(Run(w, events[..k]), events[k])
  {
    hide Step;
    assert events[..k + 1][..k] == events[..k];
  }

  lemma BecomesVerified(w: World, e: Event, pid: nat, p: Proc)
    requires p.Verified? && At(Step(w, e), pid, p) && !At(w, pid, p)
    ensures e.Verify? && e.pid == pid && e.secret == p.secret && e.app == p.app && e.action == p.action
    ensures p.client in w.creds && w.creds[p.client] == p.secret && (e.claim.Some? ==> e.claim.value == p.client)
  {
    hide Answer, IdValid, AgentPolicy.GrantValid;
    AnswerKeepsRest(w, e);
  }

  /** A verified request goes back to the step that verified it. */
  lemma {:induction false} VerifiedBefore(w: World, events: seq<Event>, n: nat, pid: nat, p: Proc) returns (k: nat)
    requires n <= |events| && w.procs == map[] && p.Verified? && At(Run(w, events[..n]), pid, p)
    ensures k < n && VerifiedAt(w, events, k, p, pid)
  {
    hide Step;
    assert events[..0] == [];
    RunNext(w, events, n - 1);
    if At(Run(w, events[..n - 1]), pid, p) {
      k := VerifiedBefore(w, events, n - 1, pid, p);
    } else {
      k := n - 1;
      BecomesVerified(Run(w, events[..n - 1]), events[n - 1], pid, p);
      assert VerifiedAt(w, events, k, p, pid);
    }
  }

  /** A new pass is given by the policy to a verified request. */
  lemma NewPass(w: World, e: Event)
    ensures Step(w, e).passes == w.passes || (
      && |Step(w, e).passes| == |w.passes| + 1 && Step(w, e).passes[..|w.passes|] == w.passes
      && var pass := Step(w, e).passes[|w.passes|];
      && e == Authorize(pass.pid, pass.at) && At(w, pass.pid, Verified(pass.client, pass.secret, pass.app, pass.action))
      && (pass.client, pass.app) in w.grants && pass.action in w.grants[(pass.client, pass.app)].grant.actions
      && pass.at < w.grants[(pass.client, pass.app)].grant.expiresAt)
  {
    hide IdValid, AgentPolicy.GrantValid, LockedActions;
  }

  /**
   * In every run each request let through was verified under the secret that was its client's present one,
   * for this app and action and the client it claimed to be; and then a grant of that client for that app
   * allowed the action and had not run out.
   */
  lemma {:induction false} PassIsEarned(w: World, events: seq<Event>, n: nat, i: nat) returns (k: nat, a: nat)
    requires Initial(w) && n <= |events| && i < |Run(w, events[..n]).passes|
    ensures k < a < n
    ensures var pass := Run(w, events[..n]).passes[i];
      var key, grants := (pass.client, pass.app), Run(w, events[..a]).grants;
      && VerifiedAt(w, events, k, Verified(pass.client, pass.secret, pass.app, pass.action), pass.pid)
      && events[a] == Authorize(pass.pid, pass.at)
      && key in grants && pass.action in grants[key].grant.actions && pass.at < grants[key].grant.expiresAt
  {
    hide Step, VerifiedAt;
    assert events[..0] == [];
    RunNext(w, events, n - 1);
    var before := Run(w, events[..n - 1]);
    NewPass(before, events[n - 1]);
    if i < |before.passes| {
      k, a := PassIsEarned(w, events, n - 1, i);
    } else {
      a := n - 1;
      var pass := Run(w, events[..n]).passes[i];
      k := VerifiedBefore(w, events, n - 1, pass.pid, Verified(pass.client, pass.secret, pass.app, pass.action));
    }
  }
}
