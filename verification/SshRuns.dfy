/**
  What whole runs of the GCP ssh-access function keep: login never outlasts the tunnel, granting
  never shortens, and concurrent invocations never touch another member's access.
 */
module SshRuns {
  import opened Wrappers
  import opened SshPolicy
  import opened SshPolicyProperties
  import opened SshOperation

  /** The function-made login access of a member at a time. */
  predicate LoginGranted(c: Cloud, member: string, t: Instant) {
    Granted(c.login, LOGIN_ROLES, ROLE_OS_LOGIN, member, t) ||
    Granted(c.login, LOGIN_ROLES, ROLE_OS_ADMIN_LOGIN, member, t)
  }

  predicate TunnelGranted(c: Cloud, member: string, t: Instant) {
    Granted(c.tunnel, TUNNEL_ROLES, ROLE_TUNNEL, member, t)
  }

  /** From `now` on, whoever has login through the function has the tunnel through it. */
  ghost predicate Covered(c: Cloud, now: Instant) {
    forall member: string, t: Instant :: t >= now && LoginGranted(c, member, t) ==> TunnelGranted(c, member, t)
  }

  predicate WholeSeconds(bs: seq<Binding>) {
    forall b <- bs :: Expiry(b).Some? ==> WholeSecond(Expiry(b).value) == Expiry(b).value
  }

  lemma {:induction false} KeptAllStaysWhole(bs: seq<Binding>, roles: seq<string>, member: string, now: Instant)
    requires WholeSeconds(bs)
    ensures WholeSeconds(KeptAll(bs, roles, member, now))
  {
    if bs != [] {
      KeptAllStaysWhole(bs[..|bs| - 1], roles, member, now);
    }
  }

  /** The function only writes whole seconds. */
  lemma EditStaysWhole(
      bs: seq<Binding>, roles: seq<string>, member: string, role: string, expiresAt: Instant, now: Instant)
    requires WholeSeconds(bs)
    ensures WholeSeconds(EditOf(bs, roles, member, role, expiresAt, now).bindings)
  {
    KeptAllStaysWhole(bs, roles, member, now);
  }

  /** The expiry a grant asks for is a whole second, not before any grant the member has. */
  lemma TargetNeverShortens(c: Cloud, req: Request, t: Instant)
    requires !req.revoke && t >= req.now * SECOND
    ensures var (role, expiresAt) := TargetOf(c.login, c.tunnel, req);
            && (role == ROLE_OS_LOGIN || role == ROLE_OS_ADMIN_LOGIN)
            && expiresAt >= (req.now + req.minutes * 60) * SECOND
            && (WholeSeconds(c.login) && WholeSeconds(c.tunnel) ==> WholeSecond(expiresAt) == expiresAt)
            && (LoginGranted(c, req.member, t) || TunnelGranted(c, req.member, t) ==> t < expiresAt)
  {
    var now := req.now * SECOND;
    AskedIsWhole(req);
    LatestGrantIsLatest(c.login, LOGIN_ROLES, req.member, now, Asked(req));
    var latest := LatestGrant(c.login, LOGIN_ROLES, req.member, now, Asked(req));
    LatestGrantIsLatest(c.tunnel, TUNNEL_ROLES, req.member, now, latest);
  }

  /** Whether the edit is written or skipped as no change, each policy ends up granting what was
      asked, up to the whole second if written, and leaves other members alone. */
  lemma WrittenGrants(
      bs: seq<Binding>, roles: seq<string>, member: string, role: string, expiresAt: Instant, now: Instant,
      r: string, m: string, t: Instant)
    requires t >= now && (role == "" || role in roles)
    ensures var e := EditOf(bs, roles, member, role, expiresAt, now);
            var written := if e.changed then e.bindings else bs;
            var end := if e.changed then WholeSecond(expiresAt) else expiresAt;
            && (m == member ==> (Granted(written, roles, r, m, t) <==> role != "" && r == role && t < end))
            && (m != member ==> (Granted(written, roles, r, m, t) <==> Granted(bs, roles, r, m, t)))
  {
    if EditOf(bs, roles, member, role, expiresAt, now).changed {
      GrantedAfterEdit(bs, roles, member, role, expiresAt, now, r, m, t);
    } else {
      GrantedIfUnchanged(bs, roles, member, role, expiresAt, now, r, t);
    }
  }

  function WithWritten(c: Cloud, e1: Edited, e2: Edited, login: bool, tunnel: bool): Cloud {
    Cloud(if login && e1.changed then e1.bindings else c.login,
          if tunnel && e2.changed then e2.bindings else c.tunnel)
  }

  /** The state after writing the login policy, the tunnel policy, or both. */
  function Written(c: Cloud, req: Request, login: bool, tunnel: bool): Cloud {
    WithWritten(c, EditLogin(c, req), EditTunnel(c, req), login, tunnel)
  }

  lemma StatesOfWrites(c: Cloud, revoke: bool, e1: Edited, e2: Edited, loginWrite: Write, tunnelWrite: Write, s: Cloud)
    requires s in WriteBoth(c, revoke, e1, e2, loginWrite, tunnelWrite).states
    ensures s == c || s == WithWritten(c, e1, e2, revoke, !revoke) || s == WithWritten(c, e1, e2, true, true)
  {
  }

  /** Each state of an execute is one of: nothing written, the first policy, or both. */
  lemma StatesOfExecute(c: Cloud, req: Request, loginWrite: Write, tunnelWrite: Write, s: Cloud)
    requires s in Execute(c, req, loginWrite, tunnelWrite).states
    ensures s == c || s == Written(c, req, req.revoke, !req.revoke) || s == Written(c, req, true, true)
  {
    StatesOfWrites(c, req.revoke, EditLogin(c, req), EditTunnel(c, req), loginWrite, tunnelWrite, s);
  }

  /** When the member's login through the function ends, if it is after the time of the request. */
  function LoginEnd(c: Cloud, req: Request): Instant {
    LatestGrant(c.login, LOGIN_ROLES, req.member, req.now * SECOND, req.now * SECOND)
  }

  lemma LoginEndsBefore(c: Cloud, req: Request, t: Instant)
    requires t >= req.now * SECOND
    ensures LoginGranted(c, req.member, t) <==> t < LoginEnd(c, req)
  {
    var now := req.now * SECOND;
    LatestGrantIsLatest(c.login, LOGIN_ROLES, req.member, now, now);
    if LoginGranted(c, req.member, t) {
      var b :| b in c.login && Managed(b, LOGIN_ROLES) && req.member in b.members && t < Expiry(b).value;
      assert OwnedBy(b, LOGIN_ROLES, req.member, now);
    }
  }

  /** The tunnel's end, as written, isn't before the end of the login there already is. */
  predicate TunnelReachesLogin(c: Cloud, req: Request) {
    req.revoke || !EditTunnel(c, req).changed ||
    LoginEnd(c, req) <= WholeSecond(TargetOf(c.login, c.tunnel, req).1)
  }

  lemma WrittenIsCovered(c: Cloud, req: Request, login: bool, tunnel: bool, m: string, t: Instant)
    requires TunnelReachesLogin(c, req)
    requires t >= req.now * SECOND && (LoginGranted(c, m, t) ==> TunnelGranted(c, m, t))
    requires if req.revoke then login || !tunnel else tunnel || !login
    ensures LoginGranted(Written(c, req, login, tunnel), m, t) ==> TunnelGranted(Written(c, req, login, tunnel), m, t)
  {
    var now := req.now * SECOND;
    var (role, expiresAt) := TargetOf(c.login, c.tunnel, req);
    var tunnelRole := if role != "" then ROLE_TUNNEL else "";
    if !req.revoke {
      TargetNeverShortens(c, req, t);
    }
    LoginEndsBefore(c, req, t);
    WrittenGrants(c.login, LOGIN_ROLES, req.member, role, expiresAt, now, ROLE_OS_LOGIN, m, t);
    WrittenGrants(c.login, LOGIN_ROLES, req.member, role, expiresAt, now, ROLE_OS_ADMIN_LOGIN, m, t);
    WrittenGrants(c.tunnel, TUNNEL_ROLES, req.member, tunnelRole, expiresAt, now, ROLE_TUNNEL, m, t);
  }

  lemma StatesAreCovered(c: Cloud, req: Request, loginWrite: Write, tunnelWrite: Write, s: Cloud)
    requires Covered(c, req.now * SECOND) && TunnelReachesLogin(c, req)
    requires s in Execute(c, req, loginWrite, tunnelWrite).states
    ensures Covered(s, req.now * SECOND)
  {
    StatesOfExecute(c, req, loginWrite, tunnelWrite, s);
    forall m: string, t: Instant | t >= req.now * SECOND && LoginGranted(s, m, t)
      ensures TunnelGranted(s, m, t)
    {
      WrittenIsCovered(c, req, false, false, m, t);
      WrittenIsCovered(c, req, req.revoke, !req.revoke, m, t);
      WrittenIsCovered(c, req, true, true, m, t);
    }
  }

  lemma WholeIsNoEarlier(seconds: int, t: Instant)
    requires seconds * SECOND <= t
    ensures seconds * SECOND <= WholeSecond(t)
  {
    WholeSecondMeans(t);
  }

  /** The whole second a grant ends in isn't before the request. */
  lemma GrantEndsLater(c: Cloud, req: Request)
    requires !req.revoke
    ensures WholeSecond(TargetOf(c.login, c.tunnel, req).1) >= req.now * SECOND
  {
    TargetNeverShortens(c, req, req.now * SECOND);
    WholeIsNoEarlier(req.now, TargetOf(c.login, c.tunnel, req).1);
  }

  /** Otherwise the tunnel as written ends before the login, which stays if its write fails. */
  lemma ShortTunnelUncovers(c: Cloud, req: Request)
    requires !TunnelReachesLogin(c, req)
    ensures !Covered(Execute(c, req, Rejected, Applied).states[1], req.now * SECOND)
  {
    var now := req.now * SECOND;
    var (role, expiresAt) := TargetOf(c.login, c.tunnel, req);
    var t := WholeSecond(expiresAt);
    GrantEndsLater(c, req);
    LoginEndsBefore(c, req, t);
    WrittenGrants(c.tunnel, TUNNEL_ROLES, req.member, ROLE_TUNNEL, expiresAt, now, ROLE_TUNNEL, req.member, t);
    var s := Execute(c, req, Rejected, Applied).states[1];
    assert s == Written(c, req, false, true);
    assert LoginGranted(s, req.member, t) && !TunnelGranted(s, req.member, t);
  }

  /** Whatever writes fail, every write of an execute keeps login covered by the tunnel exactly if
      the tunnel's whole second isn't before the end of the login there already is. */
  lemma WhenEveryWriteKeepsCover(c: Cloud, req: Request)
    requires Covered(c, req.now * SECOND)
    ensures (forall loginWrite, tunnelWrite ::
               forall s <- Execute(c, req, loginWrite, tunnelWrite).states :: Covered(s, req.now * SECOND))
            <==> TunnelReachesLogin(c, req)
  {
    if TunnelReachesLogin(c, req) {
      forall loginWrite, tunnelWrite, s | s in Execute(c, req, loginWrite, tunnelWrite).states
        ensures Covered(s, req.now * SECOND)
      {
        StatesAreCovered(c, req, loginWrite, tunnelWrite, s);
      }
    } else {
      ShortTunnelUncovers(c, req);
      var states := Execute(c, req, Rejected, Applied).states;
      assert states[1] in states;
    }
  }

  /** With whole seconds the tunnel always reaches the login, and they stay whole. */
  lemma EveryWriteKeepsCover(c: Cloud, req: Request, loginWrite: Write, tunnelWrite: Write, s: Cloud)
    requires WholeSeconds(c.login) && WholeSeconds(c.tunnel)
    requires Covered(c, req.now * SECOND)
    requires s in Execute(c, req, loginWrite, tunnelWrite).states
    ensures Covered(s, req.now * SECOND) && WholeSeconds(s.login) && WholeSeconds(s.tunnel)
  {
    var now := req.now * SECOND;
    var (role, expiresAt) := TargetOf(c.login, c.tunnel, req);
    WholeTargetReachesLogin(c, req);
    StatesAreCovered(c, req, loginWrite, tunnelWrite, s);
    StatesOfExecute(c, req, loginWrite, tunnelWrite, s);
    EditStaysWhole(c.login, LOGIN_ROLES, req.member, role, expiresAt, now);
    EditStaysWhole(c.tunnel, TUNNEL_ROLES, req.member, if role != "" then ROLE_TUNNEL else "", expiresAt, now);
  }

  lemma WholeTargetReachesLogin(c: Cloud, req: Request)
    requires WholeSeconds(c.login) && WholeSeconds(c.tunnel)
    ensures TunnelReachesLogin(c, req)
  {
    if !req.revoke {
      var expiresAt := TargetOf(c.login, c.tunnel, req).1;
      TargetNeverShortens(c, req, req.now * SECOND);
      LoginEndsBefore(c, req, expiresAt);
      TargetNeverShortens(c, req, expiresAt);
    }
  }

  datatype Invocation = Invocation(req: Request, loginWrite: Write, tunnelWrite: Write)

  function After(c: Cloud, i: Invocation): Cloud {
    var states := Execute(c, i.req, i.loginWrite, i.tunnelWrite).states;
    states[|states| - 1]
  }

  /** What the cloud holds after a write, and when the execute that wrote it was. */
  datatype Moment = Moment(state: Cloud, now: nat)

  function Moments(states: seq<Cloud>, now: nat): seq<Moment> {
    seq(|states|, n requires 0 <= n < |states| => Moment(states[n], now))
  }

  /** Everything the cloud goes through in a run. */
  function History(c: Cloud, run: seq<Invocation>): seq<Moment>
    decreases |run|
  {
    if run == [] then []
    else
      var i := run[0];
      Moments(Execute(c, i.req, i.loginWrite, i.tunnelWrite).states, i.req.now) + History(After(c, i), run[1..])
  }

  predicate InOrder(start: nat, run: seq<Invocation>)
    decreases |run|
  {
    run == [] || (run[0].req.now >= start && InOrder(run[0].req.now, run[1..]))
  }

  /** Over every run of grants and revokes one after another, whatever writes fail, login is
      covered by the tunnel after each write. */
  lemma {:induction false} LoginIsAlwaysCovered(c: Cloud, run: seq<Invocation>, start: nat)
    requires InOrder(start, run)
    requires WholeSeconds(c.login) && WholeSeconds(c.tunnel) && Covered(c, start * SECOND)
    ensures forall m <- History(c, run) :: Covered(m.state, m.now * SECOND)
    decreases |run|
  {
    if run != [] {
      var i := run[0];
      assert i.req.now * SECOND >= start * SECOND;
      forall s | s in Execute(c, i.req, i.loginWrite, i.tunnelWrite).states
        ensures Covered(s, i.req.now * SECOND) && WholeSeconds(s.login) && WholeSeconds(s.tunnel)
      {
        EveryWriteKeepsCover(c, i.req, i.loginWrite, i.tunnelWrite, s);
      }
      LoginIsAlwaysCovered(After(c, i), run[1..], i.req.now);
    }
  }

  /** A marked binding until a fraction of a second. */
  function HandMade(role: string): Binding {
    Binding(role, ["user:a"], Some(Condition(MARKER, Text(""), Until(3600 * SECOND + SECOND / 2))))
  }

  lemma TwoOwnBindingsAreChanged(
      b: Binding, roles: seq<string>, member: string, role: string, expiresAt: Instant, now: Instant)
    requires OwnedBy(b, roles, member, now)
    ensures EditOf([b, b], roles, member, role, expiresAt, now).changed
  {
    assert [b, b][..1] == [b];
    assert Own([b], roles, member, now) == [b];
    assert Own([b, b], roles, member, now) == [b, b];
  }

  /** Whole seconds are needed: with marked bindings until a fraction of a second, a grant whose
      login write fails cuts the tunnel's fraction off and leaves the login's. */
  lemma FractionalGrantLosesCover()
    ensures var c := Cloud([HandMade(ROLE_OS_LOGIN)], [HandMade(ROLE_TUNNEL), HandMade(ROLE_TUNNEL)]);
            var req := Request("user:a", false, User, 1, 0);
            Covered(c, 0) && !Covered(After(c, Invocation(req, Rejected, Applied)), 0)
  {
    var login, tunnel, at := HandMade(ROLE_OS_LOGIN), HandMade(ROLE_TUNNEL), 3600 * SECOND + SECOND / 2;
    var c := Cloud([login], [tunnel, tunnel]);
    var req := Request("user:a", false, User, 1, 0);
    assert Covered(c, 0) by {
      assert tunnel in c.tunnel;
    }
    assert login in c.login && OwnedBy(login, LOGIN_ROLES, "user:a", 0);
    LatestGrantIsLatest(c.login, LOGIN_ROLES, "user:a", 0, 0);
    LatestGrantIsLatest(c.login, LOGIN_ROLES, "user:a", 0, Asked(req));
    LatestGrantIsLatest(c.tunnel, TUNNEL_ROLES, "user:a", 0, at);
    assert TargetOf(c.login, c.tunnel, req) == (ROLE_OS_LOGIN, at);
    TwoOwnBindingsAreChanged(tunnel, TUNNEL_ROLES, "user:a", ROLE_TUNNEL, at, 0);
    assert LoginEnd(c, req) == at && WholeSecond(at) < at;
    ShortTunnelUncovers(c, req);
  }

  /** After a done grant, login and tunnel end together, not before what was asked nor before any
      unexpired grant the member had. */
  lemma GrantEndsTogetherAndNeverShortens(c: Cloud, i: Invocation, t: Instant)
    requires WholeSeconds(c.login) && WholeSeconds(c.tunnel)
    requires !i.req.revoke && t >= i.req.now * SECOND
    requires Execute(c, i.req, i.loginWrite, i.tunnelWrite).result.Ok?
    ensures var after := After(c, i);
            var member := i.req.member;
            && (LoginGranted(after, member, t) <==> TunnelGranted(after, member, t))
            && (LoginGranted(after, member, t) <==>
                Granted(after.login, LOGIN_ROLES, LoginRole(i.req.role), member, t))
            && (t < (i.req.now + i.req.minutes * 60) * SECOND ==> LoginGranted(after, member, t))
            && (LoginGranted(c, member, t) || TunnelGranted(c, member, t) ==> LoginGranted(after, member, t))
  {
    var now := i.req.now * SECOND;
    var (role, expiresAt) := TargetOf(c.login, c.tunnel, i.req);
    TargetNeverShortens(c, i.req, t);
    assert After(c, i) == Written(c, i.req, true, true);
    WrittenGrants(c.login, LOGIN_ROLES, i.req.member, role, expiresAt, now, ROLE_OS_LOGIN, i.req.member, t);
    WrittenGrants(c.login, LOGIN_ROLES, i.req.member, role, expiresAt, now, ROLE_OS_ADMIN_LOGIN, i.req.member, t);
    WrittenGrants(c.tunnel, TUNNEL_ROLES, i.req.member, ROLE_TUNNEL, expiresAt, now, ROLE_TUNNEL, i.req.member, t);
  }

  /** A done grant for a user gives login without sudo through the function, and one for an admin
      login with sudo, each until the same time as the tunnel and nothing of the other. */
  lemma GrantGivesTheRoleAsked(c: Cloud, i: Invocation, t: Instant)
    requires WholeSeconds(c.login) && WholeSeconds(c.tunnel)
    requires !i.req.revoke && t >= i.req.now * SECOND
    requires Execute(c, i.req, i.loginWrite, i.tunnelWrite).result.Ok?
    ensures var user := Granted(After(c, i).login, LOGIN_ROLES, "roles/compute.osLogin", i.req.member, t);
            var admin := Granted(After(c, i).login, LOGIN_ROLES, "roles/compute.osAdminLogin", i.req.member, t);
            var tunnel := Granted(After(c, i).tunnel, TUNNEL_ROLES, "roles/iap.tunnelResourceAccessor", i.req.member, t);
            && (i.req.role == User ==> user == tunnel && !admin)
            && (i.req.role == Admin ==> admin == tunnel && !user)
            && (t < (i.req.now + i.req.minutes * 60) * SECOND ==> tunnel)
  {
    var now, member := i.req.now * SECOND, i.req.member;
    var (role, expiresAt) := TargetOf(c.login, c.tunnel, i.req);
    TargetNeverShortens(c, i.req, t);
    assert After(c, i) == Written(c, i.req, true, true);
    WrittenGrants(c.login, LOGIN_ROLES, member, role, expiresAt, now, "roles/compute.osLogin", member, t);
    WrittenGrants(c.login, LOGIN_ROLES, member, role, expiresAt, now, "roles/compute.osAdminLogin", member, t);
    WrittenGrants(c.tunnel, TUNNEL_ROLES, member, ROLE_TUNNEL, expiresAt, now, "roles/iap.tunnelResourceAccessor", member, t);
  }

  /** What an execute reports: the expired bindings of both policies, none of which is left, and no
      change only if it writes nothing. */
  lemma DoneReports(c: Cloud, i: Invocation)
    requires Execute(c, i.req, i.loginWrite, i.tunnelWrite).result.Ok?
    ensures var (changed, expired) := Execute(c, i.req, i.loginWrite, i.tunnelWrite).result.value;
            && expired == |ExpiredAt(c.login, LOGIN_ROLES, i.req.now * SECOND)| +
                          |ExpiredAt(c.tunnel, TUNNEL_ROLES, i.req.now * SECOND)|
            && (!changed ==> After(c, i) == c && expired == 0)
            && (changed <==> EditLogin(c, i.req).changed || EditTunnel(c, i.req).changed)
  {
    ExpiredCountMeans(c.login, LOGIN_ROLES, i.req.now * SECOND);
    ExpiredCountMeans(c.tunnel, TUNNEL_ROLES, i.req.now * SECOND);
  }

  /** When a done grant's role ends, in a policy that was written or found to have it already. */
  function EndOf(expiresAt: Instant, written: bool): Instant {
    if written then WholeSecond(expiresAt) else expiresAt
  }

  lemma EndsAfterGrant(c: Cloud, i: Invocation, t: Instant)
    requires !i.req.revoke && Execute(c, i.req, i.loginWrite, i.tunnelWrite).result.Ok?
    requires t >= i.req.now * SECOND
    ensures var expiresAt := TargetOf(c.login, c.tunnel, i.req).1;
            && (LoginGranted(After(c, i), i.req.member, t) <==> t < EndOf(expiresAt, EditLogin(c, i.req).changed))
            && (TunnelGranted(After(c, i), i.req.member, t) <==> t < EndOf(expiresAt, EditTunnel(c, i.req).changed))
  {
    var now, member := i.req.now * SECOND, i.req.member;
    var (role, expiresAt) := TargetOf(c.login, c.tunnel, i.req);
    TargetNeverShortens(c, i.req, t);
    assert After(c, i) == Written(c, i.req, true, true);
    WrittenGrants(c.login, LOGIN_ROLES, member, role, expiresAt, now, ROLE_OS_LOGIN, member, t);
    WrittenGrants(c.login, LOGIN_ROLES, member, role, expiresAt, now, ROLE_OS_ADMIN_LOGIN, member, t);
    WrittenGrants(c.tunnel, TUNNEL_ROLES, member, ROLE_TUNNEL, expiresAt, now, ROLE_TUNNEL, member, t);
  }

  /** Without whole seconds, login and tunnel end together after a done grant exactly if both
      policies are written or neither is, or the time granted until is a whole second after all. */
  lemma WhenGrantEndsTogether(c: Cloud, i: Invocation)
    requires !i.req.revoke && Execute(c, i.req, i.loginWrite, i.tunnelWrite).result.Ok?
    ensures (forall t :: t >= i.req.now * SECOND ==>
               (LoginGranted(After(c, i), i.req.member, t) <==> TunnelGranted(After(c, i), i.req.member, t)))
            <==>
            var expiresAt := TargetOf(c.login, c.tunnel, i.req).1;
            WholeSecond(expiresAt) == expiresAt || EditLogin(c, i.req).changed == EditTunnel(c, i.req).changed
  {
    var now := i.req.now * SECOND;
    var t := WholeSecond(TargetOf(c.login, c.tunnel, i.req).1);
    GrantEndsLater(c, i.req);
    EndsAfterGrant(c, i, t);
    forall t | t >= now
      ensures var expiresAt := TargetOf(c.login, c.tunnel, i.req).1;
              && (LoginGranted(After(c, i), i.req.member, t) <==> t < EndOf(expiresAt, EditLogin(c, i.req).changed))
              && (TunnelGranted(After(c, i), i.req.member, t) <==> t < EndOf(expiresAt, EditTunnel(c, i.req).changed))
    {
      EndsAfterGrant(c, i, t);
    }
  }

  /** After a done revoke, the member has neither through the function. */
  lemma RevokeRemovesBoth(c: Cloud, i: Invocation, t: Instant)
    requires i.req.revoke && t >= i.req.now * SECOND
    requires Execute(c, i.req, i.loginWrite, i.tunnelWrite).result.Ok?
    ensures !LoginGranted(After(c, i), i.req.member, t) && !TunnelGranted(After(c, i), i.req.member, t)
  {
    var now, member := i.req.now * SECOND, i.req.member;
    assert After(c, i) == Written(c, i.req, true, true);
    WrittenGrants(c.login, LOGIN_ROLES, member, "", ZERO_TIME, now, ROLE_OS_LOGIN, member, t);
    WrittenGrants(c.login, LOGIN_ROLES, member, "", ZERO_TIME, now, ROLE_OS_ADMIN_LOGIN, member, t);
    WrittenGrants(c.tunnel, TUNNEL_ROLES, member, "", ZERO_TIME, now, ROLE_TUNNEL, member, t);
  }

  // ---------------------------------------------------------------------------------------
  // Concurrent invocations on one policy, whose writes only apply if the policy's etag is
  // still the one read.

  datatype Reader = Reader(read: seq<Binding>, etag: nat, member: string, role: string, expiresAt: Instant, now: Instant)

  datatype Shared = Shared(bindings: seq<Binding>, etag: nat, readers: map<nat, Reader>)

  datatype Event =
    | Read(id: nat, member: string, role: string, expiresAt: Instant, now: Instant)
    | WriteBack(id: nat)
    | Foreign(bindings: seq<Binding>)

  function Next(s: Shared, roles: seq<string>, e: Event): Shared {
    match e
    case Read(id, member, role, expiresAt, now) =>
      s.(readers := s.readers[id := Reader(s.bindings, s.etag, member, role, expiresAt, now)])
    case WriteBack(id) =>
      if id !in s.readers || s.readers[id].etag != s.etag then s
      else
        var r := s.readers[id];
        s.(bindings := EditOf(r.read, roles, r.member, r.role, r.expiresAt, r.now).bindings, etag := s.etag + 1)
    case Foreign(bindings) => s.(bindings := bindings, etag := s.etag + 1)
  }

  /** An invocation that still has the policy's etag has the policy's bindings. */
  ghost predicate EtagsIdentify(s: Shared, roles: seq<string>) {
    forall id <- s.readers ::
      var r := s.readers[id];
      && r.etag <= s.etag && (r.etag == s.etag ==> r.read == s.bindings)
      && (r.role == "" || r.role in roles)
  }

  predicate RolesManaged(e: Event, roles: seq<string>) {
    e.Read? ==> e.role == "" || e.role in roles
  }

  lemma NextKeepsEtags(s: Shared, roles: seq<string>, e: Event)
    requires EtagsIdentify(s, roles) && RolesManaged(e, roles)
    ensures EtagsIdentify(Next(s, roles, e), roles)
  {
  }

  /** A write, whether it applies or is refused, changes nobody else's access and no binding the
      function doesn't manage, however many invocations and other writers interleave. */
  lemma WriteBackTouchesOneMember(s: Shared, roles: seq<string>, id: nat, eval: Evaluator,
                                  r: string, m: string, t: Instant)
    requires EtagsIdentify(s, roles) && id in s.readers
    requires m != s.readers[id].member && t >= s.readers[id].now
    ensures var s' := Next(s, roles, WriteBack(id));
            && (Access(s'.bindings, eval, r, m, t) <==> Access(s.bindings, eval, r, m, t))
            && Unmanaged(s'.bindings, roles) == Unmanaged(s.bindings, roles)
  {
    var reader := s.readers[id];
    OthersKeepTheirAccess(reader.read, roles, reader.member, reader.role, reader.expiresAt, reader.now, eval, r, m, t);
    UnmanagedBindingsAreKept(reader.read, roles, reader.member, reader.role, reader.expiresAt, reader.now);
  }

  function RunEvents(s: Shared, roles: seq<string>, es: seq<Event>): Shared
    decreases |es|
  {
    if es == [] then s else RunEvents(Next(s, roles, es[0]), roles, es[1..])
  }

  /** No event of the run is another writer's, or an invocation for `m` or later than `t`. */
  predicate SparesMember(es: seq<Event>, m: string, t: Instant) {
    forall e <- es :: !e.Foreign? && (e.Read? ==> e.member != m && e.now <= t)
  }

  /** Any interleaving of invocations for other members leaves a member's access as it was, and
      the unmanaged bindings exactly as they were. */
  lemma {:induction false} InterleavingsSpareOthers(
      s: Shared, roles: seq<string>, es: seq<Event>, eval: Evaluator, r: string, m: string, t: Instant)
    requires EtagsIdentify(s, roles) && forall e <- es :: RolesManaged(e, roles)
    requires forall id <- s.readers :: s.readers[id].member != m && s.readers[id].now <= t
    requires SparesMember(es, m, t)
    ensures var s' := RunEvents(s, roles, es);
            && (Access(s'.bindings, eval, r, m, t) <==> Access(s.bindings, eval, r, m, t))
            && Unmanaged(s'.bindings, roles) == Unmanaged(s.bindings, roles)
    decreases |es|
  {
    if es != [] {
      assert es[0] in es;
      NextKeepsEtags(s, roles, es[0]);
      if es[0].WriteBack? && es[0].id in s.readers {
        WriteBackTouchesOneMember(s, roles, es[0].id, eval, r, m, t);
      }
      InterleavingsSpareOthers(Next(s, roles, es[0]), roles, es[1..], eval, r, m, t);
    }
  }
}
