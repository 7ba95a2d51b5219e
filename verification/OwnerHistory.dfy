/** Which configuration an export returns, told from everything that was done to the previews. */
module OwnerHistory {
  import opened Results
  import opened Text
  import opened OwnerEnrollments

  /** A successful `begin` leaves this preview: to be exported within ten minutes, with the connector as given. */
  predicate Starts(s: State, e: Event, id: string, row: Pending) {
    && e.BeginOne? && e.call.id == id && Begun(s, e.call).1
    && row.client == e.call.client && row.secret == e.call.secret && Some(row.command) == e.call.command
    && row.expiresAt == e.call.now + 600
  }

  /** The owner consented, and names and connector are in order. */
  predicate WellAsked(c: BeginCall) { c.consent && Bytes(c.client) <= 80 && AppIdValid(c.client) && c.command.Some? }

  /** How a preview goes: it runs out, is exported, is cancelled, or its client is forgotten or enrolled anew. */
  predicate Ends(s: State, e: Event, id: string, row: Pending) {
    match e
    case Other(_) => false
    case BeginOne(c) =>
      && WellAsked(c)
      && (row.expiresAt <= c.now
          || (c.rotate && c.revokes && c.client == row.client && c.now + 600 <= U64_MAX && |Alive(s.pending, c.now)| < 16))
    case ExportOne(id', consent, now, opens) => consent && (row.expiresAt <= now || (id' == id && opens))
    case CancelOne(id', opens, _, revokes) => id' == id && opens && (revokes || !Current(s.store, row.client, row.secret))
    case Forget(client) => client == row.client
  }

  ghost predicate StartsAt(events: seq<Event>, i: nat, id: string, row: Pending)
    requires i < |events|
  {
    Starts(Run(events[..i]).state, events[i], id, row)
  }

  ghost predicate EndsAt(events: seq<Event>, i: nat, id: string, row: Pending)
    requires i < |events|
  {
    Ends(Run(events[..i]).state, events[i], id, row)
  }

  /** The preview was begun, and nothing ended it since. */
  ghost predicate Stands(events: seq<Event>, id: string, row: Pending) {
    exists i: nat | i < |events| :: StartsAt(events, i, id, row) && forall j | i < j < |events| :: !EndsAt(events, j, id, row)
  }

  predicate Has(s: State, id: string, row: Pending) { id in s.pending && s.pending[id] == row }

  lemma SameBefore(front: seq<Event>, e: Event, i: nat, id: string, row: Pending)
    requires i < |front|
    ensures StartsAt(front + [e], i, id, row) <==> StartsAt(front, i, id, row)
    ensures EndsAt(front + [e], i, id, row) <==> EndsAt(front, i, id, row)
  {
    assert (front + [e])[..i] == front[..i] && (front + [e])[i] == front[i];
  }

  lemma StandsStep(front: seq<Event>, e: Event, id: string, row: Pending)
    ensures Stands(front + [e], id, row)
      <==> Starts(Run(front).state, e, id, row) || (Stands(front, id, row) && !Ends(Run(front).state, e, id, row))
  {
    var events, n := front + [e], |front|;
    assert events[n] == e && events[..n] == front;
    assert StartsAt(events, n, id, row) <==> Starts(Run(front).state, e, id, row);
    assert EndsAt(events, n, id, row) <==> Ends(Run(front).state, e, id, row);
    hide Starts, Ends, Run, StartsAt, EndsAt;
    forall i: nat | i < n
      ensures StartsAt(events, i, id, row) <==> StartsAt(front, i, id, row)
      ensures EndsAt(events, i, id, row) <==> EndsAt(front, i, id, row)
    {
      SameBefore(front, e, i, id, row);
    }
  }

  lemma HasStep(w: World, e: Event, id: string, row: Pending)
    requires Allowed(w, e) && forall i | i in w.state.pending :: i in w.used
    ensures Has(Step(w, e).state, id, row)
      <==> Starts(w.state, e, id, row) || (Has(w.state, id, row) && !Ends(w.state, e, id, row))
  {
    hide AppIdValid, Bytes, AffectedAll, FreshOutside;
  }

  /** The previews that can be exported are exactly those that stand. */
  lemma {:induction false} PendingExactly(events: seq<Event>, id: string, row: Pending)
    requires Proper(events)
    ensures Has(Run(events).state, id, row) <==> Stands(events, id, row)
  {
    hide Has, Step, Starts, Ends, Allowed, Stands;
    if events == [] {
      NothingStands(id, row);
    } else {
      var front, e := events[..|events| - 1], events[|events| - 1];
      PendingExactly(front, id, row);
      UsedIds(front);
      HasStep(Run(front), e, id, row);
      assert events == front + [e];
      StandsStep(front, e, id, row);
    }
  }

  lemma UsedIds(events: seq<Event>)
    requires Proper(events)
    ensures forall i | i in Run(events).state.pending :: i in Run(events).used
  {
    hide Run, Proper;
    RunKeepsInv(events);
  }

  lemma NothingStands(id: string, row: Pending)
    ensures !Has(START.state, id, row) && !Stands([], id, row)
  {
  }

  /**
   * After any run an export that the owner consents to returns a configuration if and only if its preview
   * stands, has not run out, and holds the present credential of its client; and it is that preview's.
   */
  lemma ExportedExactly(events: seq<Event>, id: string, consent: bool, now: u64, opens: bool, x: Export)
    requires Proper(events)
    ensures var s := Run(events).state;
      Exported(s, id, consent, now, opens).1 == Some(x) <==>
        && consent && opens && x.client in s.store.creds && s.store.creds[x.client] == x.secret
        && exists end: u64 :: now < end && Stands(events, id, Pending(x.client, x.secret, x.command, end))
  {
    var s := Run(events).state;
    hide Run, Proper, Stands;
    if id in s.pending {
      PendingExactly(events, id, s.pending[id]);
      if Exported(s, id, consent, now, opens).1 == Some(x) {
        assert Stands(events, id, Pending(x.client, x.secret, x.command, s.pending[id].expiresAt));
      }
    }
    if end: u64 :| now < end && Stands(events, id, Pending(x.client, x.secret, x.command, end)) {
      PendingExactly(events, id, Pending(x.client, x.secret, x.command, end));
    }
  }

  /** A `begin` succeeds exactly under these conditions; `rotate` takes the old credential away first. */
  lemma BegunExactly(s: State, c: BeginCall)
    ensures Begun(s, c).1 <==>
      && WellAsked(c) && c.now + 600 <= U64_MAX && c.enrolls
      && |set id | id in s.pending && c.now < s.pending[id].expiresAt| < 16
      && (c.rotate ==> c.revokes)
      && c.client !in AffectedAll(if c.rotate then s.store.(creds := s.store.creds - {c.client}) else s.store, c.between).creds
    ensures Begun(s, c).1 ==> Begun(s, c).0.store.creds[c.client] == c.secret
  {
    hide AppIdValid, Bytes, AffectedAll;
    assert (set id | id in s.pending && c.now < s.pending[id].expiresAt) == Alive(s.pending, c.now).Keys;
  }
}
