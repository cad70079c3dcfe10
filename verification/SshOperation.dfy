/**
  One invocation of the GCP ssh-access function after its input was validated
  (functions/go/gcp/internal/sshaccess/operation.go): it reads two policies, decides how long
  the access lasts, rewrites both policies and writes them in an order that never leaves login
  without a tunnel. Either write may fail, and a failed write may still have taken effect.
 */
module SshOperation {
  import opened Wrappers
  import opened SshPolicy
  import opened SshPolicyProperties

  const LOGIN_ROLES := [ROLE_OS_LOGIN, ROLE_OS_ADMIN_LOGIN]
  const TUNNEL_ROLES := [ROLE_TUNNEL]

  datatype Role = User | Admin

  function LoginRole(role: Role): string {
    if role == Admin then ROLE_OS_ADMIN_LOGIN else ROLE_OS_LOGIN
  }

  /** The latest of `start` and the member's unexpired grants in a policy. */
  function LatestGrant(bs: seq<Binding>, roles: seq<string>, member: string, now: Instant, start: Instant): Instant {
    if bs == [] then start
    else
      var b := bs[0];
      var rest := LatestGrant(bs[1..], roles, member, now, start);
      if OwnedBy(b, roles, member, now) && Expiry(b).value > ZERO_TIME && Expiry(b).value > rest
      then Expiry(b).value else rest
  }

  lemma {:induction false} LatestGrantIsLatest(
      bs: seq<Binding>, roles: seq<string>, member: string, now: Instant, start: Instant)
    ensures var latest := LatestGrant(bs, roles, member, now, start);
            && latest >= start
            && (forall b <- bs ::
                  OwnedBy(b, roles, member, now) && Expiry(b).value > ZERO_TIME ==> Expiry(b).value <= latest)
            && (latest == start || exists b <- bs :: OwnedBy(b, roles, member, now) && Expiry(b).value == latest)
  {
    if bs != [] {
      LatestGrantIsLatest(bs[1..], roles, member, now, start);
      assert bs[0] in bs && forall b <- bs :: b == bs[0] || b in bs[1..];
    }
  }

  /** A validated request: `now` in Unix seconds, `minutes` already defaulted. */
  datatype Request = Request(member: string, revoke: bool, role: Role, minutes: nat, now: nat)

  /** When the access asked for ends. */
  function Asked(req: Request): Instant {
    WholeSecond(req.now * SECOND + req.minutes * 60 * SECOND)
  }

  /** The role and expiry of `target`: an empty role revokes. */
  function TargetOf(login: seq<Binding>, tunnel: seq<Binding>, req: Request): (string, Instant) {
    if req.revoke then ("", ZERO_TIME)
    else
      var now := req.now * SECOND;
      (LoginRole(req.role),
       LatestGrant(tunnel, TUNNEL_ROLES, req.member, now,
                   LatestGrant(login, LOGIN_ROLES, req.member, now, Asked(req))))
  }

  /** The latest of `start` and the values of the map, visited in any order. */
  method Extend(grants: map<string, Instant>, start: Instant) returns (latest: Instant)
    ensures latest >= start
    ensures forall role <- grants :: grants[role] <= latest
    ensures latest == start || exists role <- grants :: grants[role] == latest
  {
    latest := start;
    var left := grants.Keys;
    while left != {}
      invariant left <= grants.Keys
      invariant latest >= start
      invariant forall role <- grants :: role !in left ==> grants[role] <= latest
      invariant latest == start || exists role <- grants :: grants[role] == latest
      decreases |left|
    {
      var role :| role in left;
      if grants[role] > latest {
        latest := grants[role];
      }
      left := left - {role};
    }
  }

  lemma ExtendIsLatestGrant(
      bs: seq<Binding>, roles: seq<string>, member: string, now: Instant, start: Instant, latest: Instant)
    requires start >= ZERO_TIME
    requires var g := GrantsOf(bs, roles, member, now);
             && latest >= start
             && (forall role <- g :: g[role] <= latest)
             && (latest == start || exists role <- g :: g[role] == latest)
    ensures latest == LatestGrant(bs, roles, member, now, start)
  {
    var g := GrantsOf(bs, roles, member, now);
    var want := LatestGrant(bs, roles, member, now, start);
    LatestGrantIsLatest(bs, roles, member, now, start);
    if want != start {
      var b :| b in bs && OwnedBy(b, roles, member, now) && Expiry(b).value == want;
      GrantsAreTheLatest(bs, roles, member, now, b.role);
      assert Grant(b, roles, b.role, member, now);
      assert want <= g[b.role] <= latest;
    }
    if latest != start {
      var role :| role in g && g[role] == latest;
      GrantsAreTheLatest(bs, roles, member, now, role);
    }
  }

  /** How a write of a policy ends. */
  datatype Write = Applied | Rejected | AppliedButFailed

  /** The two policies of an instance as the cloud holds them. */
  datatype Cloud = Cloud(login: seq<Binding>, tunnel: seq<Binding>)

  datatype Trace = Trace(states: seq<Cloud>, result: Result<(bool, nat)>)

  function WriteLogin(c: Cloud, edited: Edited, w: Write): (Cloud, bool) {
    if !edited.changed then (c, true)
    else (if w == Rejected then c else c.(login := edited.bindings), w == Applied)
  }

  function WriteTunnel(c: Cloud, edited: Edited, w: Write): (Cloud, bool) {
    if !edited.changed then (c, true)
    else (if w == Rejected then c else c.(tunnel := edited.bindings), w == Applied)
  }

  function EditLogin(c: Cloud, req: Request): Edited {
    var (role, expiresAt) := TargetOf(c.login, c.tunnel, req);
    EditOf(c.login, LOGIN_ROLES, req.member, role, expiresAt, req.now * SECOND)
  }

  function EditTunnel(c: Cloud, req: Request): Edited {
    var (role, expiresAt) := TargetOf(c.login, c.tunnel, req);
    EditOf(c.tunnel, TUNNEL_ROLES, req.member, if role != "" then ROLE_TUNNEL else "", expiresAt, req.now * SECOND)
  }

  /** What the writes of two edited policies do: the states after the first and, if that succeeded,
      after the second, login last on a grant and first on a revoke. */
  function WriteBoth(c: Cloud, revoke: bool, login: Edited, tunnel: Edited, loginWrite: Write, tunnelWrite: Write)
      : (t: Trace)
    ensures 1 <= |t.states| <= 2
  {
    var (c1, ok1) := if revoke then WriteLogin(c, login, loginWrite) else WriteTunnel(c, tunnel, tunnelWrite);
    if !ok1 then Trace([c1], Err)
    else
      var (c2, ok2) := if revoke then WriteTunnel(c1, tunnel, tunnelWrite) else WriteLogin(c1, login, loginWrite);
      Trace([c1, c2],
            if ok2 then Ok((login.changed || tunnel.changed, login.expired + tunnel.expired)) else Err)
  }

  /** The states the cloud goes through in one execute. */
  function Execute(c: Cloud, req: Request, loginWrite: Write, tunnelWrite: Write): (t: Trace)
    ensures 1 <= |t.states| <= 2
  {
    WriteBoth(c, req.revoke, EditLogin(c, req), EditTunnel(c, req), loginWrite, tunnelWrite)
  }

  /** The IAM policies of an instance and of the tunnel to it, as the cloud holds them. */
  class Instance {
    var login: seq<Binding>
    var tunnel: seq<Binding>

    function State(): Cloud
      reads this
    {
      Cloud(login, tunnel)
    }

    method SetInstancePolicy(bindings: seq<Binding>, w: Write) returns (ok: bool)
      modifies this`login
      ensures State() == WriteLogin(old(State()), Edited(bindings, true, 0), w).0 && ok == (w == Applied)
    {
      if w != Rejected {
        login := bindings;
      }
      ok := w == Applied;
    }

    method SetTunnelPolicy(bindings: seq<Binding>, w: Write) returns (ok: bool)
      modifies this`tunnel
      ensures State() == WriteTunnel(old(State()), Edited(bindings, true, 0), w).0 && ok == (w == Applied)
    {
      if w != Rejected {
        tunnel := bindings;
      }
      ok := w == Applied;
    }
  }

  method ExtendTo(p: Policy, member: string, now: Instant, start: Instant) returns (latest: Instant)
    requires start >= ZERO_TIME
    ensures latest == LatestGrant(p.bindings, p.roles, member, now, start) >= start
  {
    var grants := p.Grants(member, now);
    latest := Extend(grants, start);
    ExtendIsLatestGrant(p.bindings, p.roles, member, now, start, latest);
  }

  /** What a grant asks for is a whole second. */
  lemma AskedIsWhole(req: Request)
    ensures Asked(req) == (req.now + req.minutes * 60) * SECOND
  {
  }

  method Target(login: Policy, tunnel: Policy, req: Request) returns (role: string, expiresAt: Instant)
    requires login.roles == LOGIN_ROLES && tunnel.roles == TUNNEL_ROLES
    ensures (role, expiresAt) == TargetOf(login.bindings, tunnel.bindings, req)
    ensures role == if req.revoke then "" else if req.role == Admin then "roles/compute.osAdminLogin"
                    else "roles/compute.osLogin"
  {
    if req.revoke {
      return "", ZERO_TIME;
    }
    var now := req.now * SECOND;
    AskedIsWhole(req);
    expiresAt := Asked(req);
    expiresAt := ExtendTo(login, req.member, now, expiresAt);
    expiresAt := ExtendTo(tunnel, req.member, now, expiresAt);
    role := LoginRole(req.role);
  }

  /** Rewrites both policies and writes the ones that changed, login last on a grant and first
      on a revoke. */
  method Apply(cloud: Instance, login: Policy, tunnel: Policy, member: string, role: string,
               expiresAt: Instant, now: Instant, loginWrite: Write, tunnelWrite: Write)
      returns (result: Result<(bool, nat)>)
    requires login != tunnel
    modifies cloud, login, tunnel
    ensures var t := WriteBoth(old(cloud.State()), role == "",
                               EditOf(old(login.bindings), login.roles, member, role, expiresAt, now),
                               EditOf(old(tunnel.bindings), tunnel.roles, member,
                                      if role != "" then ROLE_TUNNEL else "", expiresAt, now),
                               loginWrite, tunnelWrite);
            cloud.State() == t.states[|t.states| - 1] && result == t.result
  {
    var tunnelRole := if role != "" then ROLE_TUNNEL else "";
    var loginChanged, loginExpired := login.Edit(member, role, expiresAt, now);
    var tunnelChanged, tunnelExpired := tunnel.Edit(member, tunnelRole, expiresAt, now);
    var ok := true;
    for i := 0 to 2
      invariant ok
      invariant login.bindings == EditOf(old(login.bindings), login.roles, member, role, expiresAt, now).bindings
      invariant tunnel.bindings == EditOf(old(tunnel.bindings), tunnel.roles, member, tunnelRole, expiresAt, now).bindings
      invariant i == 0 ==> cloud.State() == old(cloud.State())
      invariant i >= 1 ==>
        var e1 := Edited(login.bindings, loginChanged, loginExpired);
        var e2 := Edited(tunnel.bindings, tunnelChanged, tunnelExpired);
        var (c1, ok1) := if role == "" then WriteLogin(old(cloud.State()), e1, loginWrite)
                         else WriteTunnel(old(cloud.State()), e2, tunnelWrite);
        var (c2, ok2) := if role == "" then WriteTunnel(c1, e2, tunnelWrite)
                         else WriteLogin(c1, e1, loginWrite);
        ok1 && (i == 1 ==> cloud.State() == c1) && (i == 2 ==> ok2 && cloud.State() == c2)
    {
      if (role == "") == (i == 0) {
        if loginChanged {
          ok := cloud.SetInstancePolicy(login.bindings, loginWrite);
        }
      } else {
        if tunnelChanged {
          ok := cloud.SetTunnelPolicy(tunnel.bindings, tunnelWrite);
        }
      }
      if !ok {
        return Err;
      }
    }
    return Ok((loginChanged || tunnelChanged, loginExpired + tunnelExpired));
  }

  datatype Outcome = Planned | Refused | Done(changed: bool, expiredRemoved: nat) | Failed

  /** One invocation: reads both policies, and changes them only on an execute that passes the
      guards. `guardsPass` is what the checks of the instance and the duration say. */
  method Run(cloud: Instance, plan: bool, guardsPass: bool, req: Request, loginWrite: Write, tunnelWrite: Write)
      returns (outcome: Outcome)
    modifies cloud
    ensures var t := Execute(old(cloud.State()), req, loginWrite, tunnelWrite);
            if plan then outcome == Planned && cloud.State() == old(cloud.State())
            else if !guardsPass then outcome == Refused && cloud.State() == old(cloud.State())
            else cloud.State() == t.states[|t.states| - 1] &&
                 outcome == if t.result.Ok? then Done(t.result.value.0, t.result.value.1) else Failed
  {
    var login := new Policy("", LOGIN_ROLES, cloud.login);
    var tunnel := new Policy("", TUNNEL_ROLES, cloud.tunnel);
    var role, expiresAt := Target(login, tunnel, req);
    if plan {
      return Planned;
    }
    if !guardsPass {
      return Refused;
    }
    var result := Apply(cloud, login, tunnel, req.member, role, expiresAt, req.now * SECOND, loginWrite, tunnelWrite);
    outcome := match result
      case Ok(v) => Done(v.0, v.1)
      case Err => Failed;
  }
}
