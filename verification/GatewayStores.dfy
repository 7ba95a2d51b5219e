/** The gateway object over the credential and policy stores. */
module GatewayStores {
  import opened Results
  import opened Text
  import opened AgentPolicy
  import opened AgentGateway

  datatype Scope = StatusScope | LifecycleScope | ContentScope(write: bool)

  function ScopeActions(s: Scope): set<Action> {
    match s
    case StatusScope => {Status}
    case LifecycleScope => {Status, Start, Stop}
    case ContentScope(write) => if write then {Status, ReadContent, WriteContent} else {Status, ReadContent}
  }

  /** A grant of a scope is live for exactly the actions that the scope is for, until it ends. */
  lemma GrantIsLive(grants: map<(string, string), Grant>, client: string, app: string, s: Scope, end: u64)
    requires (client, app) in grants && grants[(client, app)] == Grant(client, app, ScopeActions(s), end)
    ensures forall action, at: u64 :: Live(grants, client, app, action, at) <==> Offers(s, action) && at < end
  {
  }

  /** What a scope is for, action by action. */
  predicate Offers(s: Scope, action: Action) {
    match action
    case Status => true
    case Start => s == LifecycleScope
    case Stop => s == LifecycleScope
    case ReadContent => s == ContentScope(false) || s == ContentScope(true)
    case WriteContent => s == ContentScope(true)
    case Install => false
    case Uninstall => false
    case ReadFiles => false
    case Destructive => false
  }

  function MaxHours(s: Scope): nat { if s.StatusScope? then 24 * 30 else 24 }

  predicate HoursValid(hours: u64, max: nat, now: u64) {
    1 <= hours <= max && now + hours * 3600 <= U64_MAX
  }

  /** Calls made one after the other, each write of which may fail; process 0 of the interleaved model. */
  class Gateway {
    var creds: map<string, Secret>
    var grants: map<(string, string), Grant>
    ghost var world: World

    ghost predicate Valid()
      reads this
    {
      && world.creds == creds && Plain(world.grants) == grants
      && world.procs == map[] && world.lock == None
    }

    constructor ()
      ensures Valid() && Initial(world)
    {
      creds, grants, world := map[], map[], NOBODY;
    }

    /** The surviving grants of an earlier enrollment go first, then the new credential is written. */
    method EnrollClientForOwner(id: string, secret: Secret, clears: bool, writes: bool) returns (r: Option<Secret>)
      requires Valid() && secret !in world.drawn
      modifies this
      ensures Valid()
      ensures r == (if id !in old(creds) && IdValid(id) && clears && writes then Some(secret) else None)
      ensures r.Some? ==> world == Enrolled(old(world), 0, id, secret)
      ensures r.None? ==> creds == old(creds)
                          && world == old(world).(grants := if id !in old(creds) && IdValid(id) && clears
                                                            then Without(old(world).grants, id) else old(world).grants)
    {
      hide IdValid, Step, Enrolled;
      if id in creds || !IdValid(id) || !clears {
        return None;
      }
      grants := map k | k in grants && k.0 != id :: grants[k];
      if !writes {
        world := world.(grants := Without(world.grants, id));
        return None;
      }
      EnrolledAlone(world, 0, id, secret);
      world := Enrolled(world, 0, id, secret);
      creds := creds[id := secret];
      return Some(secret);
    }

    /** Grants go first, so that no later failure leaves the old credential with any authority. */
    method RevokeClientForOwner(id: string, clears: bool, writes: bool) returns (ok: bool)
      requires Valid()
      modifies this
      ensures Valid()
      ensures ok <==> IdValid(id) && clears && writes
      ensures ok ==> world == Unenrolled(old(world), 0, id)
      ensures !ok ==> creds == old(creds)
                      && world == old(world).(grants := if IdValid(id) && clears then Without(old(world).grants, id)
                                                        else old(world).grants)
    {
      hide IdValid, Step, Unenrolled;
      if !IdValid(id) || !clears {
        return false;
      }
      grants := map k | k in grants && k.0 != id :: grants[k];
      if !writes {
        world := world.(grants := Without(world.grants, id));
        return false;
      }
      UnenrolledAlone(world, 0, id);
      world := Unenrolled(world, 0, id);
      creds := creds - {id};
      return true;
    }

    /** Status, lifecycle and content grants keep the credential lock through the policy write. */
    method GrantForOwner(client: string, app: string, scope: Scope, hours: u64, now: u64, installed: bool, writes: bool)
      returns (r: Option<u64>)
      requires Valid()
      modifies this
      ensures Valid() && creds == old(creds)
      ensures r.Some? <==> && HoursValid(hours, MaxHours(scope), now) && client in creds
                           && (installed || scope.ContentScope?) && IdValid(client) && IdValid(app) && writes
      ensures r.Some? ==>
        && r.value == now + hours * 3600
        && var g := Grant(client, app, ScopeActions(scope), r.value);
        world == Step(Step(old(world), BeginGrant(0, g)), WriteGrant(0))
      ensures r.Some? ==>
        && 1 <= hours <= (if scope == StatusScope then 720 else 24)
        && (forall action, at: u64 :: Live(grants, client, app, action, at)
              <==> Offers(scope, action) && at < now + hours * 3600)
        && (forall k | k != (client, app) :: (k in grants <==> k in old(grants)) && (k in grants ==> grants[k] == old(grants)[k]))
      ensures r.None? ==> world == old(world)
    {
      hide IdValid, Step;
      if !HoursValid(hours, MaxHours(scope), now) {
        return None;
      }
      var expiresAt: u64 := now + hours * 3600;
      if client !in creds || (!installed && !scope.ContentScope?) || !IdValid(client) || !IdValid(app) || !writes {
        return None;
      }
      var g := Grant(client, app, ScopeActions(scope), expiresAt);
      GrantedAlone(world, 0, g);
      world := Step(Step(world, BeginGrant(0, g)), WriteGrant(0));
      grants := grants[(client, app) := g];
      GrantIsLive(grants, client, app, scope, expiresAt);
      return Some(expiresAt);
    }

    /** Revocation of one scope; the app need not be installed any more. */
    method RevokeStatusForOwner(client: string, app: string, writes: bool) returns (ok: bool)
      requires Valid()
      modifies this
      ensures Valid() && creds == old(creds)
      ensures ok <==> client in creds && IdValid(client) && IdValid(app) && writes
      ensures world == if ok then Step(Step(old(world), BeginNarrow(0, client, app)), WriteNarrow(0)) else old(world)
      ensures ok ==> (client, app) !in grants
                     && forall k | k in old(grants) && k != (client, app) :: k in grants && grants[k] == old(grants)[k]
    {
      hide IdValid, Step;
      ok := client in creds && IdValid(client) && IdValid(app) && writes;
      if ok {
        grants := grants - {(client, app)};
        NarrowedAlone(world, 0, client, app);
        world := Step(Step(world, BeginNarrow(0, client, app)), WriteNarrow(0));
      }
    }

    /** The enrolled client whose current secret this is. */
    method Authenticate(secret: Secret) returns (found: Option<string>)
      ensures found.Some? ==> found.value in creds && creds[found.value] == secret
      ensures found.None? ==> forall c | c in creds :: creds[c] != secret
    {
      found := None;
      var rest := creds.Keys;
      while rest != {}
        invariant rest <= creds.Keys
        invariant found.Some? ==> found.value in creds && creds[found.value] == secret
        invariant found.None? ==> forall c | c in creds && c !in rest :: creds[c] != secret
        decreases rest
      {
        var c :| c in rest;
        if creds[c] == secret {
          found := Some(c);
        }
        rest := rest - {c};
      }
    }

    /**
     * A request verifies its secret against the current credentials, then asks the policy, which saves its
     * audit first, and only then looks the app up in the registry.
     */
    method Request(secret: Secret, claim: Option<string>, app: string, action: Action, now: u64, audits: bool,
                   registry: Option<set<string>>) returns (allowed: bool, looked: bool)
      requires Valid() && Inv(world) && Dispatchable(action)
      ensures looked <==> audits && exists c | c in creds && creds[c] == secret ::
        (claim.Some? ==> claim.value == c) && Live(grants, c, app, action, now) && IdValid(c) && IdValid(app)
      ensures allowed <==> looked && registry.Some? && app in registry.value
    {
      hide IdValid, Live, Inv;
      var found := Authenticate(secret);
      OneOwner(world, secret);
      if found.None? || (claim.Some? && claim.value != found.value) {
        return false, false;
      }
      looked := Live(grants, found.value, app, action, now) && IdValid(found.value) && IdValid(app) && audits;
      allowed := looked && registry.Some? && app in registry.value;
    }
  }

  lemma OneOwner(w: World, secret: Secret)
    requires Inv(w)
    ensures forall c, d | c in w.creds && d in w.creds && w.creds[c] == secret && w.creds[d] == secret :: c == d
  {
    hide Exclusive, Relies, GrantCurrent, PassSound;
  }
}
