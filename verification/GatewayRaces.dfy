/** Where authority outlives an enrollment: the two exceptions of the interleaved gateway, each with a run. */
module GatewayRaces {
  import opened Results
  import opened Text
  import opened AgentPolicy
  import opened AgentGateway

  // ---------- the file grant that is written without the lock ----------

  ghost predicate StrictlyCurrent(w: World) {
    forall k | k in w.grants && k.0 in w.creds :: w.grants[k].under == w.creds[k.0]
  }

  /** A file grant is written although its client has been enrolled anew since the check. */
  ghost predicate LateFileGrant(w: World, e: Event) {
    && e.WriteFiles? && Enabled(w, e)
    && var p := w.procs[e.pid];
    && p.grant.clientId in w.creds && w.creds[p.grant.clientId] != p.under
  }

  /** A client is enrolled while a file grant stands that was written after its grants were cleared. */
  ghost predicate EnrollsOverFileGrant(w: World, e: Event) {
    && e.WriteEnroll? && Enabled(w, e)
    && exists k | k in w.grants :: k.0 == w.procs[e.pid].client
  }

  /** Currency without exception is lost exactly by these two steps. */
  lemma StaleExactlyByFileGrants(w: World, e: Event)
    requires Inv(w) && StrictlyCurrent(w)
    ensures StrictlyCurrent(Step(w, e)) <==> !LateFileGrant(w, e) && !EnrollsOverFileGrant(w, e)
  {
    hide IdValid, GrantValid, Live, LockedActions, PassSound, Answer, Plain, SecretsUnique, Exclusive, GrantCurrent;
    AnswerKeepsRest(w, e);
    assert e.pid in w.procs ==> Relies(w, w.procs[e.pid]);
    if LateFileGrant(w, e) {
      var g := w.procs[e.pid].grant;
      assert (g.clientId, g.appId) in Step(w, e).grants;
    }
    if EnrollsOverFileGrant(w, e) {
      var k :| k in w.grants && k.0 == w.procs[e.pid].client;
      assert k in Step(w, e).grants;
    }
  }

  /** Currency without exception after every step of a run. */
  ghost predicate AlwaysCurrent(w: World, events: seq<Event>) {
    forall k | 0 <= k <= |events| :: StrictlyCurrent(AgentGateway.Run(w, events[..k]))
  }

  ghost predicate Races(w: World, events: seq<Event>, k: nat)
    requires k < |events|
  {
    LateFileGrant(AgentGateway.Run(w, events[..k]), events[k]) || EnrollsOverFileGrant(AgentGateway.Run(w, events[..k]), events[k])
  }

  /** No step of a run is one of the two races. */
  ghost predicate RaceFree(w: World, events: seq<Event>) { forall k | 0 <= k < |events| :: !Races(w, events, k) }

  /**
   * Every grant of an enrolled client was checked under its present enrollment, all through a run of any
   * interleaving, if and only if the run has no late file grant and no enrollment over a file grant.
   */
  lemma {:induction false} CurrentExactlyWithoutRaces(w: World, events: seq<Event>)
    requires Initial(w)
    ensures AlwaysCurrent(w, events) <==> RaceFree(w, events)
  {
    hide Step, StrictlyCurrent, LateFileGrant, EnrollsOverFileGrant, Inv;
    if events == [] {
      NobodyStale(w);
      assert events[..0] == events;
    } else {
      var n := |events| - 1;
      var front := events[..n];
      CurrentExactlyWithoutRaces(w, front);
      assert forall k | 0 <= k <= n :: front[..k] == events[..k];
      assert forall k | 0 <= k < n :: Races(w, events, k) <==> Races(w, front, k);
      assert events[..n + 1] == events;
      RunKeepsInv(w, front);
      var before := AgentGateway.Run(w, front);
      assert AgentGateway.Run(w, events) == AgentGateway.Step(before, events[n]);
      assert AlwaysCurrent(w, events) <==> AlwaysCurrent(w, front) && StrictlyCurrent(AgentGateway.Run(w, events)) by {
        CurrentLast(w, events);
      }
      assert RaceFree(w, events) <==> RaceFree(w, front) && !Races(w, events, n);
      if AlwaysCurrent(w, front) {
        assert front[..n] == front;
        StaleExactlyByFileGrants(before, events[n]);
      }
    }
  }

  lemma CurrentLast(w: World, events: seq<Event>)
    requires events != []
    ensures var front := events[..|events| - 1];
      AlwaysCurrent(w, events) <==> AlwaysCurrent(w, front) && StrictlyCurrent(AgentGateway.Run(w, events))
  {
    hide AgentGateway.Run, StrictlyCurrent;
    var n := |events| - 1;
    var front := events[..n];
    assert forall k | 0 <= k <= n :: front[..k] == events[..k];
    assert events[..n + 1] == events;
  }

  lemma NobodyStale(w: World)
    requires Initial(w)
    ensures StrictlyCurrent(w)
  {
  }

  lemma Witnesses()
    ensures IdValid("c") && IdValid("app")
    ensures GrantValid(Grant("c", "app", FILES, 9)) && GrantValid(Grant("c", "app", {Status}, 9))
    ensures LockedActions({Status})
  {
  }

  /** A client enrolled, revoked and enrolled again around a call of another process. */
  ghost function Around(e: Event): World {
    Enrolled(Unenrolled(Step(Enrolled(NOBODY, 0, "c", "s1"), e), 0, "c"), 0, "c", "s2")
  }

  lemma AroundIs(e: Event, p: Proc)
    requires var w := NOBODY.(creds := map["c" := "s1"], drawn := {"s1"}); Step(w, e) == w.(procs := map[1 := p])
    ensures Around(e) == World(map["c" := "s2"], map[], map[1 := p], None, {"s1", "s2"}, [])
  {
    hide Step, Enrolled, Unenrolled, GrantValid, LockedActions;
    Witnesses();
    hide IdValid;
    EnrolledAlone(NOBODY, 0, "c", "s1");
    var w := NOBODY.(creds := map["c" := "s1"], drawn := {"s1"});
    assert Enrolled(NOBODY, 0, "c", "s1") == w;
    var w2 := w.(procs := map[1 := p]);
    UnenrolledAlone(w2, 0, "c");
    EnrolledAlone(Unenrolled(w2, 0, "c"), 0, "c", "s2");
  }

  /** A file grant checked under one enrollment can indeed land in the next one. */
  lemma LateFileGrantHappens() returns (w: World)
    ensures Initial(NOBODY)
    ensures w == Step(Around(CheckFiles(1, Grant("c", "app", FILES, 9))), WriteFiles(1))
    ensures !StrictlyCurrent(w)
  {
    hide IdValid, GrantValid, LockedActions, Around;
    Witnesses();
    var g := Grant("c", "app", FILES, 9);
    AroundIs(CheckFiles(1, g), Filing(g, "s1"));
    w := Step(Around(CheckFiles(1, g)), WriteFiles(1));
    assert ("c", "app") in w.grants && w.grants[("c", "app")].under == "s1" != "s2";
  }

  /** The documented exception: a request already verified when its client is revoked may still be answered. */
  lemma VerifiedRequestMayFinish() returns (w: World)
    ensures w == Step(Step(Step(Around(Verify(1, "s1", None, "app", Status)),
                   BeginGrant(2, Grant("c", "app", {Status}, 9))), WriteGrant(2)), Authorize(1, 5))
    ensures |w.passes| == 1 && w.passes[0].secret == "s1" && w.passes[0].under == "s2"
  {
    hide IdValid, GrantValid, LockedActions, Around;
    Witnesses();
    var g := Grant("c", "app", {Status}, 9);
    VerifiesSole();
    AroundIs(Verify(1, "s1", None, "app", Status), Verified("c", "s1", "app", Status));
    var w1 := Around(Verify(1, "s1", None, "app", Status));
    GrantedAlone(w1, 2, g);
    hide Step;
    var w2 := Step(Step(w1, BeginGrant(2, g)), WriteGrant(2));
    AnsweredUnder(w2, 1, Stamped(g, "s2"), 5);
    w := Step(w2, Authorize(1, 5));
  }

  lemma AnsweredUnder(w: World, pid: nat, stamped: Stamped, now: u64)
    requires pid in w.procs && w.procs[pid].Verified?
    requires var p := w.procs[pid];
      && (p.client, p.app) in w.grants && w.grants[(p.client, p.app)] == stamped
      && now < stamped.grant.expiresAt && p.action in stamped.grant.actions && IdValid(p.client) && IdValid(p.app)
    ensures var w' := Step(w, Authorize(pid, now));
      && |w'.passes| == |w.passes| + 1
      && w'.passes[|w.passes|].secret == w.procs[pid].secret && w'.passes[|w.passes|].under == stamped.under
  {
    hide IdValid;
  }

  lemma VerifiesSole()
    ensures var w := NOBODY.(creds := map["c" := "s1"], drawn := {"s1"});
      Step(w, Verify(1, "s1", None, "app", Status)) == w.(procs := map[1 := Verified("c", "s1", "app", Status)])
  {
    var w := NOBODY.(creds := map["c" := "s1"], drawn := {"s1"});
    assert "c" in w.creds && w.creds["c"] == "s1";
  }
}
