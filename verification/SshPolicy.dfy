/**
  The IAM policy rewrite of the GCP ssh-access function
  (functions/go/gcp/internal/sshaccess/grant.go).

  Instants are Unix nanoseconds. A condition's text is represented by what the function and
  IAM read in it: `Until(at)` for `request.time < timestamp("...")` with a valid timestamp,
  `Opaque` for anything else. Printing an instant keeps whole seconds only.
 */
module SshPolicy {
  import opened Wrappers

  type Instant = int

  const SECOND: int := 1_000_000_000

  /** The zero value of Go's time.Time: 1 January of year 1, UTC. */
  const ZERO_TIME: Instant := -62_135_596_800 * SECOND

  const MARKER := "plural.sh ssh-access"

  const ROLE_OS_LOGIN := "roles/compute.osLogin"
  const ROLE_OS_ADMIN_LOGIN := "roles/compute.osAdminLogin"
  const ROLE_TUNNEL := "roles/iap.tunnelResourceAccessor"

  datatype Expression = Until(at: Instant) | Opaque(text: string)

  datatype Description = GrantedUntil(at: Instant) | Text(text: string)

  datatype Condition = Condition(title: string, description: Description, expression: Expression)

  datatype Binding = Binding(role: string, members: seq<string>, condition: Option<Condition>)

  /** What `t.UTC().Format(time.RFC3339)` keeps of an instant. */
  function WholeSecond(t: Instant): Instant {
    t - t % SECOND
  }

  lemma WholeSecondMeans(t: Instant)
    ensures WholeSecond(t) % 1_000_000_000 == 0 && WholeSecond(t) <= t < WholeSecond(t) + 1_000_000_000
  {
  }

  /** When a binding this function created expires, or None for any other binding. */
  function Expiry(b: Binding): Option<Instant> {
    if b.condition.Some? && b.condition.value.title == MARKER && b.condition.value.expression.Until?
    then Some(b.condition.value.expression.at)
    else None
  }

  predicate Managed(b: Binding, roles: seq<string>) {
    Expiry(b).Some? && b.role in roles
  }

  /** The binding `edit` adds for a grant. */
  function GrantBinding(member: string, role: string, expiresAt: Instant): Binding {
    var at := WholeSecond(expiresAt);
    Binding(role, [member], Some(Condition(MARKER, GrantedUntil(at), Until(at))))
  }

  function Without(members: seq<string>, member: string): seq<string> {
    if members == [] then []
    else if members[0] == member then Without(members[1..], member)
    else [members[0]] + Without(members[1..], member)
  }

  lemma {:induction false} WithoutKeepsOthers(members: seq<string>, member: string, m: string)
    ensures m in Without(members, member) <==> m in members && m != member
  {
    if members != [] {
      WithoutKeepsOthers(members[1..], member, m);
    }
  }

  // ---------------------------------------------------------------------------------------
  // What the loop of `edit` computes, one binding at a time.

  /** A managed, unexpired binding that has the member. */
  predicate OwnedBy(b: Binding, roles: seq<string>, member: string, now: Instant) {
    Managed(b, roles) && Expiry(b).value > now && member in b.members
  }

  predicate Expired(b: Binding, roles: seq<string>, now: Instant) {
    Managed(b, roles) && Expiry(b).value <= now
  }

  /** What stays of one binding. */
  function Kept(b: Binding, roles: seq<string>, member: string, now: Instant): seq<Binding> {
    if Expired(b, roles, now) then []
    else if OwnedBy(b, roles, member, now) then
      var members := Without(b.members, member);
      if members == [] then [] else [Binding(b.role, members, b.condition)]
    else [b]
  }

  function KeptAll(bs: seq<Binding>, roles: seq<string>, member: string, now: Instant): seq<Binding> {
    if bs == [] then []
    else KeptAll(bs[..|bs| - 1], roles, member, now) + Kept(bs[|bs| - 1], roles, member, now)
  }

  function Own(bs: seq<Binding>, roles: seq<string>, member: string, now: Instant): seq<Binding> {
    if bs == [] then []
    else
      var front := Own(bs[..|bs| - 1], roles, member, now);
      if OwnedBy(bs[|bs| - 1], roles, member, now) then front + [bs[|bs| - 1]] else front
  }

  function ExpiredCount(bs: seq<Binding>, roles: seq<string>, now: Instant): nat {
    if bs == [] then 0
    else ExpiredCount(bs[..|bs| - 1], roles, now) + if Expired(bs[|bs| - 1], roles, now) then 1 else 0
  }

  /** Whether the member's own bindings are exactly the one to grant. */
  predicate Exact(own: seq<Binding>, member: string, role: string, expiresAt: Instant) {
    role != "" && |own| == 1 && own[0].role == role && own[0].members == [member] &&
    Expiry(own[0]) == Some(expiresAt)
  }

  datatype Edited = Edited(bindings: seq<Binding>, changed: bool, expired: nat)

  /** The policy and report of `edit`. An empty role revokes. */
  function EditOf(bs: seq<Binding>, roles: seq<string>, member: string, role: string,
                  expiresAt: Instant, now: Instant): Edited
  {
    var own := Own(bs, roles, member, now);
    var expired := ExpiredCount(bs, roles, now);
    var granted := if role == "" then [] else [GrantBinding(member, role, expiresAt)];
    Edited(KeptAll(bs, roles, member, now) + granted,
           expired > 0 || (!Exact(own, member, role, expiresAt) && (own != [] || role != "")),
           expired)
  }

  /** The expiry of each managed role the member has through this function, if unexpired. */
  function GrantsOf(bs: seq<Binding>, roles: seq<string>, member: string, now: Instant): map<string, Instant> {
    if bs == [] then map[]
    else
      var g := GrantsOf(bs[..|bs| - 1], roles, member, now);
      var b := bs[|bs| - 1];
      if OwnedBy(b, roles, member, now) && Expiry(b).value > (if b.role in g then g[b.role] else ZERO_TIME)
      then g[b.role := Expiry(b).value]
      else g
  }

  /** An IAM policy as read from the cloud, edited in place. */
  class Policy {
    const etag: string
    const roles: seq<string>
    var bindings: seq<Binding>

    constructor (etag: string, roles: seq<string>, bindings: seq<Binding>)
      ensures this.etag == etag && this.roles == roles && this.bindings == bindings
    {
      this.etag, this.roles, this.bindings := etag, roles, bindings;
    }

    method Grants(member: string, now: Instant) returns (grants: map<string, Instant>)
      ensures grants == GrantsOf(bindings, roles, member, now)
    {
      grants := map[];
      for i := 0 to |bindings|
        invariant grants == GrantsOf(bindings[..i], roles, member, now)
      {
        var b := bindings[i];
        assert bindings[..i + 1][..i] == bindings[..i];
        var at := Expiry(b);
        if at.Some? && b.role in roles && member in b.members && at.value > now &&
           at.value > (if b.role in grants then grants[b.role] else ZERO_TIME) {
          grants := grants[b.role := at.value];
        }
      }
      assert bindings[..|bindings|] == bindings;
    }

    method Edit(member: string, role: string, expiresAt: Instant, now: Instant)
        returns (changed: bool, expired: nat)
      modifies this
      ensures Edited(bindings, changed, expired) ==
              EditOf(old(bindings), roles, member, role, expiresAt, now)
    {
      var others: seq<Binding>, own: seq<Binding> := [], [];
      expired := 0;
      for i := 0 to |bindings|
        invariant bindings == old(bindings)
        invariant others == KeptAll(bindings[..i], roles, member, now)
        invariant own == Own(bindings[..i], roles, member, now)
        invariant expired == ExpiredCount(bindings[..i], roles, now)
      {
        var b := bindings[i];
        assert bindings[..i + 1][..i] == bindings[..i];
        var at := Expiry(b);
        if at.None? || b.role !in roles {
          others := others + [b];
        } else if at.value <= now {
          expired := expired + 1;
        } else if member in b.members {
          own := own + [b];
          var members := Without(b.members, member);
          if |members| > 0 {
            others := others + [Binding(b.role, members, b.condition)];
          }
        } else {
          others := others + [b];
        }
      }
      assert bindings[..|bindings|] == bindings;
      var exact := role != "" && |own| == 1 && own[0].role == role && own[0].members == [member];
      if exact {
        exact := Expiry(own[0]) == Some(expiresAt);
      }
      if role != "" {
        others := others + [GrantBinding(member, role, expiresAt)];
      }
      bindings := others;
      changed := expired > 0 || (!exact && (|own| > 0 || role != ""));
    }
  }

  // ---------------------------------------------------------------------------------------
  // What a policy means: who has which role at which time.

  /** How IAM evaluates the conditions the function doesn't understand. */
  type Evaluator = (string, Instant) -> bool

  predicate Holds(condition: Option<Condition>, eval: Evaluator, t: Instant) {
    match condition
    case None => true
    case Some(c) => match c.expression
      case Until(at) => t < at
      case Opaque(text) => eval(text, t)
  }

  predicate Gives(b: Binding, eval: Evaluator, role: string, member: string, t: Instant) {
    b.role == role && member in b.members && Holds(b.condition, eval, t)
  }

  predicate Access(bs: seq<Binding>, eval: Evaluator, role: string, member: string, t: Instant) {
    exists b <- bs :: Gives(b, eval, role, member, t)
  }

  /** The bindings the function doesn't manage, in order. */
  function Unmanaged(bs: seq<Binding>, roles: seq<string>): seq<Binding> {
    if bs == [] then []
    else
      var front := Unmanaged(bs[..|bs| - 1], roles);
      if Managed(bs[|bs| - 1], roles) then front else front + [bs[|bs| - 1]]
  }

  /** Access through the function's own bindings of the managed roles. */
  predicate Granted(bs: seq<Binding>, roles: seq<string>, role: string, member: string, t: Instant) {
    exists b <- bs :: Managed(b, roles) && b.role == role && member in b.members && t < Expiry(b).value
  }

  lemma AccessConcat(a: seq<Binding>, b: seq<Binding>, eval: Evaluator, role: string, member: string, t: Instant)
    ensures Access(a + b, eval, role, member, t) <==>
            Access(a, eval, role, member, t) || Access(b, eval, role, member, t)
  {
  }

  lemma AccessSingle(b: Binding, eval: Evaluator, role: string, member: string, t: Instant)
    ensures Access([b], eval, role, member, t) <==> Gives(b, eval, role, member, t)
  {
  }
}
