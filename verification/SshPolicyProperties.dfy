/** What one edit of an SSH policy does to everybody's access. */
module SshPolicyProperties {
  import opened Wrappers
  import opened SshPolicy

  lemma FrontAndLast(bs: seq<Binding>)
    requires bs != []
    ensures bs == bs[..|bs| - 1] + [bs[|bs| - 1]]
  {
  }

  /** Exactly the bindings of the managed roles that carry the function's title and hold until a
      timestamp are managed. */
  predicate Marked(b: Binding, roles: seq<string>) {
    && b.role in roles && b.condition.Some? && b.condition.value.title == "plural.sh ssh-access"
    && b.condition.value.expression.Until?
  }

  lemma {:induction false} KeptAllTreats(bs: seq<Binding>, roles: seq<string>, member: string, now: Instant, b: Binding)
    ensures b in bs && (!Marked(b, roles) || (b.condition.value.expression.at > now && member !in b.members)) ==>
              b in KeptAll(bs, roles, member, now)
    ensures b in KeptAll(bs, roles, member, now) && Marked(b, roles) ==>
              b.condition.value.expression.at > now && member !in b.members
  {
    if bs != [] {
      var last := bs[|bs| - 1];
      KeptAllTreats(bs[..|bs| - 1], roles, member, now, b);
      WithoutKeepsOthers(last.members, member, member);
    }
  }

  /** What an edit does to each binding: one that isn't marked, or is somebody else's and unexpired,
      stays; a marked one that is there afterwards is unexpired and not the member's, or the grant
      just made, which says in its description when its condition ends. */
  lemma EditTreatsEachBinding(
      bs: seq<Binding>, roles: seq<string>, member: string, role: string, expiresAt: Instant, now: Instant, b: Binding)
    ensures var after := EditOf(bs, roles, member, role, expiresAt, now).bindings;
            && (b in bs && (!Marked(b, roles) || (b.condition.value.expression.at > now && member !in b.members)) ==>
                  b in after)
            && (b in after && Marked(b, roles) ==>
                  || (b.condition.value.expression.at > now && member !in b.members)
                  || (role != "" && b.role == role && b.members == [member] &&
                      b.condition.value.expression.at == WholeSecond(expiresAt) &&
                      b.condition.value.description == GrantedUntil(WholeSecond(expiresAt))))
  {
    KeptAllTreats(bs, roles, member, now, b);
  }

  /** Where the policy has marked bindings that have expired. */
  function ExpiredAt(bs: seq<Binding>, roles: seq<string>, now: Instant): set<nat> {
    set i: nat | i < |bs| && Marked(bs[i], roles) && bs[i].condition.value.expression.at <= now
  }

  lemma ExpiredAtNext(bs: seq<Binding>, roles: seq<string>, now: Instant)
    requires bs != []
    ensures var n := |bs| - 1;
            ExpiredAt(bs, roles, now) ==
            ExpiredAt(bs[..n], roles, now) + if Expired(bs[n], roles, now) then {n} else {}
  {
  }

  lemma {:induction false} ExpiredCountMeans(bs: seq<Binding>, roles: seq<string>, now: Instant)
    ensures ExpiredCount(bs, roles, now) == |ExpiredAt(bs, roles, now)|
  {
    if bs != [] {
      ExpiredCountMeans(bs[..|bs| - 1], roles, now);
      ExpiredAtNext(bs, roles, now);
      assert |bs| - 1 !in ExpiredAt(bs[..|bs| - 1], roles, now);
    }
  }

  /** A binding gives another member the same access, from now on, after it was kept. */
  lemma KeptGivesOthersTheSame(b: Binding, roles: seq<string>, member: string, now: Instant,
                               eval: Evaluator, role: string, m: string, t: Instant)
    requires m != member && t >= now
    ensures Access(Kept(b, roles, member, now), eval, role, m, t) <==> Gives(b, eval, role, m, t)
  {
    WithoutKeepsOthers(b.members, member, m);
    var kept := Kept(b, roles, member, now);
    if kept != [] {
      AccessSingle(kept[0], eval, role, m, t);
    }
  }

  lemma {:induction false} KeptAllGivesOthersTheSame(
      bs: seq<Binding>, roles: seq<string>, member: string, now: Instant,
      eval: Evaluator, role: string, m: string, t: Instant)
    requires m != member && t >= now
    ensures Access(KeptAll(bs, roles, member, now), eval, role, m, t) <==> Access(bs, eval, role, m, t)
  {
    if bs != [] {
      var front, last := bs[..|bs| - 1], bs[|bs| - 1];
      KeptAllGivesOthersTheSame(front, roles, member, now, eval, role, m, t);
      KeptGivesOthersTheSame(last, roles, member, now, eval, role, m, t);
      AccessConcat(KeptAll(front, roles, member, now), Kept(last, roles, member, now), eval, role, m, t);
      FrontAndLast(bs);
      AccessConcat(front, [last], eval, role, m, t);
      AccessSingle(last, eval, role, m, t);
    }
  }

  /** An edit for one member leaves every other member's access alone, for every role and every
      time from now on. */
  lemma OthersKeepTheirAccess(
      bs: seq<Binding>, roles: seq<string>, member: string, role: string, expiresAt: Instant, now: Instant,
      eval: Evaluator, r: string, m: string, t: Instant)
    requires m != member && t >= now
    ensures Access(EditOf(bs, roles, member, role, expiresAt, now).bindings, eval, r, m, t)
            <==> Access(bs, eval, r, m, t)
  {
    KeptAllGivesOthersTheSame(bs, roles, member, now, eval, r, m, t);
    var granted := if role == "" then [] else [GrantBinding(member, role, expiresAt)];
    AccessConcat(KeptAll(bs, roles, member, now), granted, eval, r, m, t);
  }

  lemma KeptGivesMemberTheUnmanaged(b: Binding, roles: seq<string>, member: string, now: Instant,
                                    eval: Evaluator, role: string, t: Instant)
    ensures Access(Kept(b, roles, member, now), eval, role, member, t)
            <==> !Managed(b, roles) && Gives(b, eval, role, member, t)
  {
    WithoutKeepsOthers(b.members, member, member);
    var kept := Kept(b, roles, member, now);
    if kept != [] {
      AccessSingle(kept[0], eval, role, member, t);
    }
  }

  lemma {:induction false} KeptAllGivesMemberTheUnmanaged(
      bs: seq<Binding>, roles: seq<string>, member: string, now: Instant,
      eval: Evaluator, role: string, t: Instant)
    ensures Access(KeptAll(bs, roles, member, now), eval, role, member, t)
            <==> Access(Unmanaged(bs, roles), eval, role, member, t)
  {
    if bs != [] {
      var front, last := bs[..|bs| - 1], bs[|bs| - 1];
      KeptAllGivesMemberTheUnmanaged(front, roles, member, now, eval, role, t);
      KeptGivesMemberTheUnmanaged(last, roles, member, now, eval, role, t);
      AccessConcat(KeptAll(front, roles, member, now), Kept(last, roles, member, now), eval, role, member, t);
      AccessConcat(Unmanaged(front, roles), if Managed(last, roles) then [] else [last], eval, role, member, t);
    }
  }

  /** After an edit the member has, at every time, exactly what the bindings the function
      doesn't manage give, and the granted role until the whole second of the expiry. */
  lemma MemberGetsExactlyTheGrant(
      bs: seq<Binding>, roles: seq<string>, member: string, role: string, expiresAt: Instant, now: Instant,
      eval: Evaluator, r: string, t: Instant)
    ensures Access(EditOf(bs, roles, member, role, expiresAt, now).bindings, eval, r, member, t)
            <==> Access(Unmanaged(bs, roles), eval, r, member, t)
                 || (role != "" && r == role && t < WholeSecond(expiresAt))
  {
    KeptAllGivesMemberTheUnmanaged(bs, roles, member, now, eval, r, t);
    var granted := if role == "" then [] else [GrantBinding(member, role, expiresAt)];
    AccessConcat(KeptAll(bs, roles, member, now), granted, eval, r, member, t);
    if role != "" {
      assert granted[0] in granted;
    }
  }

  lemma {:induction false} UnmanagedConcat(a: seq<Binding>, b: seq<Binding>, roles: seq<string>)
    ensures Unmanaged(a + b, roles) == Unmanaged(a, roles) + Unmanaged(b, roles)
  {
    if b == [] {
      assert a + b == a;
    } else {
      assert (a + b)[..|a + b| - 1] == a + b[..|b| - 1];
      UnmanagedConcat(a, b[..|b| - 1], roles);
    }
  }

  lemma {:induction false} KeptAllKeepsTheUnmanaged(bs: seq<Binding>, roles: seq<string>, member: string, now: Instant)
    ensures Unmanaged(KeptAll(bs, roles, member, now), roles) == Unmanaged(bs, roles)
  {
    if bs != [] {
      var front, last := bs[..|bs| - 1], bs[|bs| - 1];
      KeptAllKeepsTheUnmanaged(front, roles, member, now);
      UnmanagedConcat(KeptAll(front, roles, member, now), Kept(last, roles, member, now), roles);
    }
  }

  /** The bindings the function doesn't manage are kept exactly, in order. */
  lemma UnmanagedBindingsAreKept(
      bs: seq<Binding>, roles: seq<string>, member: string, role: string, expiresAt: Instant, now: Instant)
    requires role == "" || role in roles
    ensures Unmanaged(EditOf(bs, roles, member, role, expiresAt, now).bindings, roles) == Unmanaged(bs, roles)
  {
    KeptAllKeepsTheUnmanaged(bs, roles, member, now);
    var granted := if role == "" then [] else [GrantBinding(member, role, expiresAt)];
    UnmanagedConcat(KeptAll(bs, roles, member, now), granted, roles);
    assert Unmanaged(granted, roles) == [];
  }

  // ---------------------------------------------------------------------------------------
  // The grants `grants` reports.

  /** A grant as `grants` sees it. */
  predicate Grant(b: Binding, roles: seq<string>, role: string, member: string, now: Instant) {
    OwnedBy(b, roles, member, now) && b.role == role && Expiry(b).value > ZERO_TIME
  }

  /** `grants` has exactly the granted roles, each with its latest expiry. */
  lemma {:induction false} GrantsAreTheLatest(
      bs: seq<Binding>, roles: seq<string>, member: string, now: Instant, role: string)
    ensures var g := GrantsOf(bs, roles, member, now);
            && (role in g <==> exists b <- bs :: Grant(b, roles, role, member, now))
            && (role in g ==> exists b <- bs :: Grant(b, roles, role, member, now) && Expiry(b).value == g[role])
            && (role in g ==> forall b <- bs :: Grant(b, roles, role, member, now) ==> Expiry(b).value <= g[role])
  {
    if bs != [] {
      var front, last := bs[..|bs| - 1], bs[|bs| - 1];
      GrantsAreTheLatest(front, roles, member, now, role);
      FrontAndLast(bs);
      assert last in bs && forall b <- front :: b in bs;
      assert forall b <- bs :: b in front || b == last;
    }
  }

  lemma {:induction false} KeptAllHasNoOwn(
      bs: seq<Binding>, roles: seq<string>, member: string, now: Instant)
    ensures forall b <- KeptAll(bs, roles, member, now) ::
              !Expired(b, roles, now) && !OwnedBy(b, roles, member, now)
  {
    if bs != [] {
      KeptAllHasNoOwn(bs[..|bs| - 1], roles, member, now);
      WithoutKeepsOthers(bs[|bs| - 1].members, member, member);
    }
  }

  /** What `grants` reports after an edit: the granted role until its whole second, and
      nothing else. */
  lemma GrantsAfterEdit(
      bs: seq<Binding>, roles: seq<string>, member: string, role: string, expiresAt: Instant, now: Instant)
    requires role == "" || role in roles
    ensures var at := WholeSecond(expiresAt);
            GrantsOf(EditOf(bs, roles, member, role, expiresAt, now).bindings, roles, member, now)
            == if role != "" && at > now && at > ZERO_TIME then map[role := at] else map[]
  {
    var after := EditOf(bs, roles, member, role, expiresAt, now).bindings;
    var kept := KeptAll(bs, roles, member, now);
    KeptAllHasNoOwn(bs, roles, member, now);
    NoOwnNoGrants(kept, roles, member, now);
    if role != "" {
      assert after[..|after| - 1] == kept;
    } else {
      assert after == kept;
    }
  }

  lemma {:induction false} NoOwnNoGrants(bs: seq<Binding>, roles: seq<string>, member: string, now: Instant)
    requires forall b <- bs :: !Expired(b, roles, now) && !OwnedBy(b, roles, member, now)
    ensures GrantsOf(bs, roles, member, now) == map[]
    ensures Own(bs, roles, member, now) == [] && ExpiredCount(bs, roles, now) == 0
  {
    if bs != [] {
      NoOwnNoGrants(bs[..|bs| - 1], roles, member, now);
    }
  }

  // ---------------------------------------------------------------------------------------
  // What `changed` means.

  lemma {:induction false} OwnIsWhatIsNotKept(
      bs: seq<Binding>, roles: seq<string>, member: string, now: Instant, b: Binding)
    ensures b in Own(bs, roles, member, now) <==> b in bs && OwnedBy(b, roles, member, now)
    ensures ExpiredCount(bs, roles, now) == 0 ==> b in bs ==> !Expired(b, roles, now)
  {
    if bs != [] {
      OwnIsWhatIsNotKept(bs[..|bs| - 1], roles, member, now, b);
      FrontAndLast(bs);
    }
  }

  lemma {:induction false} UnmanagedMember(bs: seq<Binding>, roles: seq<string>, b: Binding)
    ensures b in Unmanaged(bs, roles) <==> b in bs && !Managed(b, roles)
  {
    if bs != [] {
      UnmanagedMember(bs[..|bs| - 1], roles, b);
      FrontAndLast(bs);
    }
  }

  /** A member's access is what the unmanaged bindings and the member's own ones give, once no
      binding is expired. */
  lemma AccessIsUnmanagedOrOwn(
      bs: seq<Binding>, roles: seq<string>, member: string, now: Instant,
      eval: Evaluator, r: string, t: Instant)
    requires ExpiredCount(bs, roles, now) == 0
    ensures Access(bs, eval, r, member, t) <==>
            Access(Unmanaged(bs, roles), eval, r, member, t)
            || Access(Own(bs, roles, member, now), eval, r, member, t)
  {
    forall b: Binding
      ensures b in Own(bs, roles, member, now) <==> b in bs && OwnedBy(b, roles, member, now)
      ensures b in bs ==> !Expired(b, roles, now)
      ensures b in Unmanaged(bs, roles) <==> b in bs && !Managed(b, roles)
    {
      OwnIsWhatIsNotKept(bs, roles, member, now, b);
      UnmanagedMember(bs, roles, b);
    }
  }

  /** An edit reported as no change is none for anybody at any time, if it grants until a whole
      second: the policy may be left unwritten. */
  lemma UnchangedMeansSameAccess(
      bs: seq<Binding>, roles: seq<string>, member: string, role: string, expiresAt: Instant, now: Instant,
      eval: Evaluator, r: string, m: string, t: Instant)
    requires !EditOf(bs, roles, member, role, expiresAt, now).changed
    requires role != "" ==> WholeSecond(expiresAt) == expiresAt
    ensures Access(EditOf(bs, roles, member, role, expiresAt, now).bindings, eval, r, m, t)
            <==> Access(bs, eval, r, m, t)
  {
    if m == member {
      MemberGetsExactlyTheGrant(bs, roles, member, role, expiresAt, now, eval, r, t);
      AccessIsUnmanagedOrOwn(bs, roles, member, now, eval, r, t);
      var own := Own(bs, roles, member, now);
      if role != "" && own != [] {
        assert own == [own[0]] && member in own[0].members;
        AccessSingle(own[0], eval, r, member, t);
      }
    } else {
      UnexpiredKeepsOthersAlways(bs, roles, member, now, eval, r, m, t);
      var granted := if role == "" then [] else [GrantBinding(member, role, expiresAt)];
      AccessConcat(KeptAll(bs, roles, member, now), granted, eval, r, m, t);
    }
  }

  lemma {:induction false} UnexpiredKeepsOthersAlways(
      bs: seq<Binding>, roles: seq<string>, member: string, now: Instant,
      eval: Evaluator, r: string, m: string, t: Instant)
    requires m != member && ExpiredCount(bs, roles, now) == 0
    ensures Access(KeptAll(bs, roles, member, now), eval, r, m, t) <==> Access(bs, eval, r, m, t)
  {
    if bs != [] {
      var front, last := bs[..|bs| - 1], bs[|bs| - 1];
      UnexpiredKeepsOthersAlways(front, roles, member, now, eval, r, m, t);
      WithoutKeepsOthers(last.members, member, m);
      var kept := Kept(last, roles, member, now);
      if kept != [] {
        AccessSingle(kept[0], eval, r, m, t);
      }
      AccessConcat(KeptAll(front, roles, member, now), kept, eval, r, m, t);
      FrontAndLast(bs);
      AccessConcat(front, [last], eval, r, m, t);
      AccessSingle(last, eval, r, m, t);
    }
  }

  /** A fractional expiry is the case left out above: the edit is reported as no change, yet the
      policy it leaves in memory ends the access a fraction of a second early. */
  lemma UnchangedFractionalExpiryDiffers(eval: Evaluator)
    ensures var at := SECOND + SECOND / 2;
            var b := Binding(ROLE_TUNNEL, ["user:a"], Some(Condition(MARKER, Text(""), Until(at))));
            var edited := EditOf([b], [ROLE_TUNNEL], "user:a", ROLE_TUNNEL, at, 0);
            && !edited.changed
            && Access([b], eval, ROLE_TUNNEL, "user:a", SECOND)
            && !Access(edited.bindings, eval, ROLE_TUNNEL, "user:a", SECOND)
  {
    var at := SECOND + SECOND / 2;
    var b := Binding(ROLE_TUNNEL, ["user:a"], Some(Condition(MARKER, Text(""), Until(at))));
    assert Own([b][..0], [ROLE_TUNNEL], "user:a", 0) == [];
    assert Own([b], [ROLE_TUNNEL], "user:a", 0) == [b];
    assert ExpiredCount([b], [ROLE_TUNNEL], 0) == 0;
    AccessSingle(b, eval, ROLE_TUNNEL, "user:a", SECOND);
    MemberGetsExactlyTheGrant([b], [ROLE_TUNNEL], "user:a", ROLE_TUNNEL, at, 0, eval, ROLE_TUNNEL, SECOND);
    assert Unmanaged([b], [ROLE_TUNNEL]) == [];
  }

  /** Editing again with the same arguments is no change exactly if the edit revoked, or granted
      a managed role until a whole second still to come. */
  lemma SecondEditChangesNothing(
      bs: seq<Binding>, roles: seq<string>, member: string, role: string, expiresAt: Instant, now: Instant)
    ensures var once := EditOf(bs, roles, member, role, expiresAt, now).bindings;
            var twice := EditOf(once, roles, member, role, expiresAt, now);
            && (!twice.changed <==>
                role == "" || (role in roles && expiresAt > now && WholeSecond(expiresAt) == expiresAt))
            && (!twice.changed ==> twice.bindings == once && twice.expired == 0)
  {
    var kept := KeptAll(bs, roles, member, now);
    KeptAllHasNoOwn(bs, roles, member, now);
    NoOwnNoGrants(kept, roles, member, now);
    KeptAllIsFixed(kept, roles, member, now);
    if role == "" {
      assert kept + [] == kept;
    } else {
      EditAfterGrant(kept, GrantBinding(member, role, expiresAt), roles, member, now);
    }
  }

  /** What the loop of a second edit finds: the grant just made, and nothing else of its own. */
  lemma EditAfterGrant(kept: seq<Binding>, grant: Binding, roles: seq<string>, member: string, now: Instant)
    requires KeptAll(kept, roles, member, now) == kept
    requires Own(kept, roles, member, now) == [] && ExpiredCount(kept, roles, now) == 0
    requires grant.members == [member] && Expiry(grant).Some?
    ensures var once := kept + [grant];
            && KeptAll(once, roles, member, now) == (if grant.role in roles then kept else once)
            && Own(once, roles, member, now) ==
               (if grant.role in roles && Expiry(grant).value > now then [grant] else [])
            && ExpiredCount(once, roles, now) ==
               (if grant.role in roles && Expiry(grant).value <= now then 1 else 0)
  {
    AppendOne(kept, grant, roles, member, now);
    assert Without([member], member) == [];
  }

  lemma AppendOne(bs: seq<Binding>, b: Binding, roles: seq<string>, member: string, now: Instant)
    ensures KeptAll(bs + [b], roles, member, now) == KeptAll(bs, roles, member, now) + Kept(b, roles, member, now)
    ensures Own(bs + [b], roles, member, now) ==
            Own(bs, roles, member, now) + if OwnedBy(b, roles, member, now) then [b] else []
    ensures ExpiredCount(bs + [b], roles, now) ==
            ExpiredCount(bs, roles, now) + if Expired(b, roles, now) then 1 else 0
  {
  }

  lemma {:induction false} KeptAllIsFixed(bs: seq<Binding>, roles: seq<string>, member: string, now: Instant)
    requires forall b <- bs :: !Expired(b, roles, now) && !OwnedBy(b, roles, member, now)
    ensures KeptAll(bs, roles, member, now) == bs
  {
    if bs != [] {
      var front, last := bs[..|bs| - 1], bs[|bs| - 1];
      KeptAllIsFixed(front, roles, member, now);
      FrontAndLast(bs);
      assert Kept(last, roles, member, now) == [last];
    }
  }

  // ---------------------------------------------------------------------------------------
  // Access through the function's own bindings only.

  lemma GrantedConcat(a: seq<Binding>, b: seq<Binding>, roles: seq<string>, role: string, m: string, t: Instant)
    ensures Granted(a + b, roles, role, m, t) <==>
            Granted(a, roles, role, m, t) || Granted(b, roles, role, m, t)
  {
  }

  lemma {:induction false} KeptAllGrants(
      bs: seq<Binding>, roles: seq<string>, member: string, now: Instant, r: string, m: string, t: Instant)
    ensures m == member ==> !Granted(KeptAll(bs, roles, member, now), roles, r, m, t)
    ensures m != member && t >= now ==>
              (Granted(KeptAll(bs, roles, member, now), roles, r, m, t) <==> Granted(bs, roles, r, m, t))
  {
    if bs != [] {
      var front, last := bs[..|bs| - 1], bs[|bs| - 1];
      KeptAllGrants(front, roles, member, now, r, m, t);
      var kept := Kept(last, roles, member, now);
      WithoutKeepsOthers(last.members, member, m);
      assert Granted(kept, roles, r, m, t) ==> kept == [kept[0]];
      assert kept != [] ==> kept[0] in kept;
      GrantedConcat(KeptAll(front, roles, member, now), kept, roles, r, m, t);
      FrontAndLast(bs);
      assert last in [last];
      GrantedConcat(front, [last], roles, r, m, t);
    }
  }

  /** What the function's own bindings give after an edit. */
  lemma GrantedAfterEdit(
      bs: seq<Binding>, roles: seq<string>, member: string, role: string, expiresAt: Instant, now: Instant,
      r: string, m: string, t: Instant)
    ensures var after := EditOf(bs, roles, member, role, expiresAt, now).bindings;
            && (m == member ==>
                  (Granted(after, roles, r, m, t) <==>
                   role != "" && r == role && role in roles && t < WholeSecond(expiresAt)))
            && (m != member && t >= now ==>
                  (Granted(after, roles, r, m, t) <==> Granted(bs, roles, r, m, t)))
  {
    KeptAllGrants(bs, roles, member, now, r, m, t);
    var granted := if role == "" then [] else [GrantBinding(member, role, expiresAt)];
    GrantedConcat(KeptAll(bs, roles, member, now), granted, roles, r, m, t);
    if role != "" {
      assert granted[0] in granted;
    }
  }

  lemma GrantedWithoutExpired(
      bs: seq<Binding>, roles: seq<string>, member: string, now: Instant, r: string, t: Instant)
    requires ExpiredCount(bs, roles, now) == 0
    ensures Granted(bs, roles, r, member, t) <==>
            exists b <- Own(bs, roles, member, now) :: Managed(b, roles) && b.role == r && t < Expiry(b).value
  {
  }

  /** An edit reported as no change found the member with exactly the grant, or none to revoke. */
  lemma GrantedIfUnchanged(
      bs: seq<Binding>, roles: seq<string>, member: string, role: string, expiresAt: Instant, now: Instant,
      r: string, t: Instant)
    requires !EditOf(bs, roles, member, role, expiresAt, now).changed
    ensures role == "" || role in roles
    ensures Granted(bs, roles, r, member, t) <==> role != "" && r == role && t < expiresAt
  {
    var own := Own(bs, roles, member, now);
    if role != "" {
      OwnIsWhatIsNotKept(bs, roles, member, now, own[0]);
    }
    GrantedWithoutExpired(bs, roles, member, now, r, t);
  }

  /** For an edit reported as no change, the member's grants are those of the policy it leaves in
      memory exactly if it revoked or granted until a whole second. */
  lemma UnchangedIsExactForWholeSeconds(
      bs: seq<Binding>, roles: seq<string>, member: string, role: string, expiresAt: Instant, now: Instant)
    requires !EditOf(bs, roles, member, role, expiresAt, now).changed
    ensures var after := EditOf(bs, roles, member, role, expiresAt, now).bindings;
            (forall r, t :: Granted(after, roles, r, member, t) <==> Granted(bs, roles, r, member, t))
            <==> (role == "" || WholeSecond(expiresAt) == expiresAt)
  {
    var after := EditOf(bs, roles, member, role, expiresAt, now).bindings;
    forall r, t
      ensures Granted(after, roles, r, member, t) <==> role != "" && r == role && t < WholeSecond(expiresAt)
      ensures Granted(bs, roles, r, member, t) <==> role != "" && r == role && t < expiresAt
    {
      GrantedAfterEdit(bs, roles, member, role, expiresAt, now, r, member, t);
      GrantedIfUnchanged(bs, roles, member, role, expiresAt, now, r, t);
    }
    if role != "" && WholeSecond(expiresAt) != expiresAt {
      assert !Granted(after, roles, role, member, WholeSecond(expiresAt));
    }
  }
}
