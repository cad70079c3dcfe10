/**
  The step machine of the Azure lb-frontend-delete function
  (functions/bins/lb-frontend-delete-azure/src/main.rs:180-286, :339-597): each execute makes one
  change, conditional on what it read still being there.
 */
module AzureLoadBalancerSteps {
  import opened Wrappers
  import opened Strings
  import opened ResourceIds
  import opened AzureLoadBalancer

  datatype PublicIp = PublicIp(etag: Option<string>, serviceTag: Option<string>, ipConfiguration: Option<string>)

  /** The load balancer and the Service's public IP, if they exist. */
  datatype World = World(lb: Option<LoadBalancer>, pip: Option<PublicIp>)

  datatype Params = Params(lbId: ResourceId, pipId: ResourceId, frontend: string, service: string)

  const PUBLIC_IP_PREFIX := "kubernetes-"
  const UID_DIGITS: nat := 31

  /** `a`, 31 lower-case hex digits of a Service UID and optionally a suffix after a dash. */
  predicate IsServiceFrontend(name: string) {
    && StartsWith(name, "a") && |name| > UID_DIGITS
    && (forall c <- name[1..UID_DIGITS + 1] :: HexDigit(c) && !('A' <= c <= 'F'))
    && var suffix := name[UID_DIGITS + 1..];
    && (suffix == "" || (|suffix| > 1 && suffix[0] == '-' && forall c <- suffix[1..] :: NameChar(c)))
  }

  /** The request's resources, or None if it is rejected. */
  function Validate(lbId: ResourceId, frontend: string, service: string): Option<Params> {
    if !IsServiceFrontend(frontend) then None
    else match lbId.Sibling(PUBLIC_IP, PUBLIC_IP_PREFIX + frontend)
      case None => None
      case Some(pipId) => Some(Params(lbId, pipId, frontend, service))
  }

  predicate IsUid(uid: string) {
    |uid| == 31 && forall c <- uid :: '0' <= c <= '9' || 'a' <= c <= 'f'
  }

  predicate IsSuffix(suffix: string) {
    suffix == "" || (|suffix| > 1 && suffix[0] == '-' && forall i :: 1 <= i < |suffix| ==> NameChar(suffix[i]))
  }

  /** The frontend of a Service is named `a`, 31 lower-case hex digits, and perhaps more name characters
      after a dash. */
  lemma ServiceFrontendMeans(name: string)
    ensures IsServiceFrontend(name) <==> exists uid, suffix :: name == "a" + uid + suffix && IsUid(uid) && IsSuffix(suffix)
  {
    if IsServiceFrontend(name) {
      var uid, suffix := name[1..32], name[32..];
      assert name == "a" + uid + suffix;
      forall i | 1 <= i < |suffix|
        ensures NameChar(suffix[i])
      {
        assert suffix[i] == suffix[1..][i - 1];
      }
      assert forall c <- uid :: HexDigit(c) && !('A' <= c <= 'F');
      assert IsUid(uid) && IsSuffix(suffix);
    }
    if uid, suffix :| name == "a" + uid + suffix && IsUid(uid) && IsSuffix(suffix) {
      assert name[1..32] == uid && name[32..] == suffix && name[..1] == "a";
      assert forall c <- uid :: HexDigit(c);
    }
  }

  /** An accepted request is about the public IP the cloud provider names after the frontend, in the
      resource group of the load balancer. */
  lemma ValidatedPublicIp(lbId: ResourceId, frontend: string, service: string)
    requires Validate(lbId, frontend, service).Some?
    ensures var p := Validate(lbId, frontend, service).value;
            && p.lbId == lbId && p.frontend == frontend && p.service == service
            && p.pipId.ResourceGroupId() == lbId.ResourceGroupId() && p.pipId.name == "kubernetes-" + frontend
            && p.pipId.kind.namespace == "Microsoft.Network" && p.pipId.kind.kind == "publicIPAddresses"
  {
  }

  lemma ServiceFrontendChars(name: string, i: nat)
    requires IsServiceFrontend(name) && i < |name|
    ensures NameChar(name[i])
  {
    if i == 0 {
      assert name[..1] == "a";
    } else if i <= UID_DIGITS {
      var uid := name[1..UID_DIGITS + 1];
      assert HexDigit(uid[i - 1]);
    } else if i > UID_DIGITS + 1 {
      var tail := name[UID_DIGITS + 1..][1..];
      assert tail[i - UID_DIGITS - 2] == name[i];
      assert name[i] in tail;
    }
  }

  /** A Service frontend is only rejected for its length, and one accepted is a name that can be
      part of an ID, as is that of its public IP. */
  lemma ValidatedFrontend(lbId: ResourceId, frontend: string, service: string)
    ensures Validate(lbId, frontend, service).Some? <==> IsServiceFrontend(frontend) && |frontend| <= 69
    ensures Validate(lbId, frontend, service).Some? ==> IsName(frontend)
  {
    if IsServiceFrontend(frontend) {
      var ip := PUBLIC_IP_PREFIX + frontend;
      assert frontend[..1] == "a" && frontend[0] == 'a';
      forall c | c in frontend
        ensures NameChar(c)
      {
        var i :| 0 <= i < |frontend| && frontend[i] == c;
        ServiceFrontendChars(frontend, i);
      }
      forall c | c in ip
        ensures NameChar(c)
      {
        assert c in PUBLIC_IP_PREFIX || c in frontend;
      }
      assert |ip| == 11 + |frontend|;
    }
  }

  datatype Step = RemoveFrontend | DeleteLoadBalancer | DeletePublicIp | Nothing

  datatype GuardName =
    | ServiceFrontend | Idle | InboundOnly | NoHealthyBackends | SingleService
    | PublicIpOwner | NotLastFrontend | PublicIpUnused | Removed

  datatype Guard = Guard(name: GuardName, passed: bool)

  datatype Plan = Plan(guards: seq<Guard>, step: Step, remaining: bool)

  predicate Safe(guards: seq<Guard>) {
    forall g <- guards :: g.passed
  }

  function FindFrontend(frontends: seq<Frontend>, name: string): (f: Option<Frontend>)
    ensures f.Some? ==> f.value in frontends && Named(f.value.name) == Lower(name)
    ensures f.None? ==> forall x <- frontends :: Named(x.name) != Lower(name)
  {
    if frontends == [] then None
    else if Named(frontends[0].name) == Lower(name) then Some(frontends[0])
    else FindFrontend(frontends[1..], name)
  }

  type Spaces = char -> bool

  /** The Services a public IP's tag lists. */
  function Listed(parts: seq<string>, space: Spaces): seq<string> {
    if parts == [] then []
    else
      var name := Trim(parts[0], space);
      (if name == "" then [] else [name]) + Listed(parts[1..], space)
  }

  function Services(pip: PublicIp, space: Spaces): seq<string> {
    match pip.serviceTag
    case None => []
    case Some(tag) => Listed(SplitAt(tag, ','), space)
  }

  /** The part is the only one of the list that isn't blank, and it is the name but for blanks. */
  predicate OnlyNamed(parts: seq<string>, i: nat, name: string, space: Spaces) {
    && i < |parts| && name != "" && Trim(parts[i], space) == name
    && forall j: nat :: j < |parts| && j != i ==> Trim(parts[j], space) == ""
  }

  lemma {:induction false} ListedNothing(parts: seq<string>, space: Spaces)
    ensures Listed(parts, space) == [] <==> forall j: nat :: j < |parts| ==> Trim(parts[j], space) == ""
  {
    if parts != [] {
      ListedNothing(parts[1..], space);
      assert forall j: nat :: 0 < j < |parts| ==> parts[j] == parts[1..][j - 1];
      assert forall j: nat :: j < |parts[1..]| ==> parts[1..][j] == parts[j + 1];
    }
  }

  lemma OnlyNamedTail(parts: seq<string>, i: nat, name: string, space: Spaces)
    requires parts != [] && i > 0
    ensures OnlyNamed(parts, i, name, space) <==>
            Trim(parts[0], space) == "" && OnlyNamed(parts[1..], i - 1, name, space)
  {
    assert forall j: nat :: 0 < j < |parts| ==> parts[j] == parts[1..][j - 1];
    assert forall j: nat :: j < |parts[1..]| ==> parts[1..][j] == parts[j + 1];
  }

  lemma OnlyFirst(parts: seq<string>, name: string, space: Spaces)
    requires parts != [] && Trim(parts[0], space) != ""
    ensures OnlyNamed(parts, 0, name, space) <==> Trim(parts[0], space) == name && Listed(parts[1..], space) == []
    ensures Listed(parts, space) == [name] <==> Trim(parts[0], space) == name && Listed(parts[1..], space) == []
  {
    ListedNothing(parts[1..], space);
    assert forall j: nat :: 0 < j < |parts| ==> parts[j] == parts[1..][j - 1];
    assert forall j: nat :: j < |parts[1..]| ==> parts[1..][j] == parts[j + 1];
    var first, rest := Trim(parts[0], space), Listed(parts[1..], space);
    assert Listed(parts, space) == [first] + rest;
    if [first] + rest == [name] {
      assert |[first] + rest| == 1 && ([first] + rest)[0] == first;
    }
  }

  lemma {:induction false} ListedOne(parts: seq<string>, name: string, space: Spaces)
    ensures Listed(parts, space) == [name] <==> exists i: nat :: OnlyNamed(parts, i, name, space)
  {
    if parts != [] {
      ListedOne(parts[1..], name, space);
      ListedNothing(parts[1..], space);
      forall i: nat | i > 0
        ensures OnlyNamed(parts, i, name, space) <==>
                Trim(parts[0], space) == "" && OnlyNamed(parts[1..], i - 1, name, space)
      {
        OnlyNamedTail(parts, i, name, space);
      }
      if Trim(parts[0], space) == "" {
        if i: nat :| OnlyNamed(parts[1..], i, name, space) {
          assert OnlyNamed(parts, i + 1, name, space);
        }
      } else {
        OnlyFirst(parts, name, space);
      }
    }
  }

  /** The tag's text is a comma-separated list in which the Service, perhaps between blanks, is the
      only name. */
  ghost predicate TagListsOnly(pip: PublicIp, service: string, space: Spaces) {
    && pip.serviceTag.Some?
    && exists parts: seq<string>, i: nat ::
         && parts != [] && (forall part <- parts :: ',' !in part)
         && pip.serviceTag.value == Join(parts, ',') && OnlyNamed(parts, i, service, space)
  }

  lemma ServicesMean(pip: PublicIp, service: string, space: Spaces)
    ensures Services(pip, space) == [service] <==> TagListsOnly(pip, service, space)
  {
    if pip.serviceTag.Some? {
      var parts := SplitAt(pip.serviceTag.value, ',');
      JoinOfSplit(pip.serviceTag.value, ',');
      ListedOne(parts, service, space);
      if TagListsOnly(pip, service, space) {
        var parts', i: nat :|
          && parts' != [] && (forall part <- parts' :: ',' !in part)
          && pip.serviceTag.value == Join(parts', ',') && OnlyNamed(parts', i, service, space);
        SplitOfJoin(parts', ',');
      }
    }
  }

  function OwnerGuard(pip: PublicIp, service: string, space: Spaces): Guard {
    Guard(PublicIpOwner, Services(pip, space) == [service])
  }

  type Health = map<string, Option<int>>

  /** Every rule's health is known, and no backend is healthy. */
  function HealthGuard(health: Health): Guard {
    Guard(NoHealthyBackends, forall rule <- health :: health[rule].Some? && health[rule].value <= 0)
  }

  const RULES := "loadBalancingRules"

  /** What Azure reports for a rule in time: how many of its backends are healthy. */
  type Ups = string -> Option<int>

  function RuleUp(lbId: ResourceId, rule: string, up: Ups): Option<int> {
    if lbId.Child(RULES, rule).None? then None else up(rule)
  }

  /** The health of the rules of the frontend. */
  function RuleHealth(lb: LoadBalancer, lbId: ResourceId, frontend: string, up: Ups): Health {
    map rule <- OwnedByFrontend(lb.rules, lbId, frontend).0 :: RuleUp(lbId, rule, up)
  }

  /** The health an execute knows: that of the load balancer's rules, if there is one. */
  function HealthOf(w: World, p: Params, up: Ups): Health {
    match w.lb
    case None => map[]
    case Some(lb) => RuleHealth(lb, p.lbId, p.frontend, up)
  }

  /** Asks for the health of one rule after another, in any order. */
  method ReadHealth(lb: LoadBalancer, lbId: ResourceId, frontend: string, up: Ups) returns (health: Health)
    ensures health == RuleHealth(lb, lbId, frontend, up)
  {
    var rules, _ := FindOwned(lb.rules, lbId, frontend);
    health := AskAll(rules, lbId, up);
  }

  method AskAll(rules: set<string>, lbId: ResourceId, up: Ups) returns (health: Health)
    ensures health == map rule <- rules :: RuleUp(lbId, rule, up)
  {
    health := map[];
    var left := rules;
    while left != {}
      invariant left <= rules
      invariant health == map rule <- rules - left :: RuleUp(lbId, rule, up)
      decreases |left|
    {
      var rule :| rule in left;
      health := health[rule := if lbId.Child(RULES, rule).None? then None else up(rule)];
      left := left - {rule};
    }
  }

  predicate HasMembers(pools: seq<Pool>) {
    exists p <- pools :: p.ipConfigurations != [] || p.addresses != []
  }

  function FrontendGuards(lb: LoadBalancer, f: Frontend, pip: Option<PublicIp>, p: Params, health: Health, space: Spaces)
      : seq<Guard>
  {
    var owned := OwnedByFrontend(lb.rules, p.lbId, p.frontend).0;
    var last, members := |lb.frontends| == 1, HasMembers(lb.pools);
    [Guard(Idle, lb.provisioningState == "Succeeded"),
     Guard(InboundOnly, f.outboundRules == [] && f.natRules == [] && f.natPools == []),
     HealthGuard(health),
     Guard(SingleService, forall rule <- owned :: StartsWith(rule, Lower(p.frontend)))] +
    (if f.publicIp.Some? && p.pipId.Is(f.publicIp.value) then
       (if pip.Some? then [OwnerGuard(pip.value, p.service, space)] else [])
     else [Guard(PublicIpOwner, true)]) +
    (if last && members then [Guard(NotLastFrontend, false)] else [])
  }

  function Evaluate(w: World, p: Params, health: Health, space: Spaces): Plan {
    var frontend := if w.lb.Some? then FindFrontend(w.lb.value.frontends, p.frontend) else None;
    var first := [Guard(ServiceFrontend, true)];
    if frontend.Some? then
      var lb := w.lb.value;
      Plan(first + FrontendGuards(lb, frontend.value, w.pip, p, health, space),
           if |lb.frontends| == 1 && !HasMembers(lb.pools) then DeleteLoadBalancer else RemoveFrontend,
           w.pip.Some?)
    else if w.pip.Some? then
      Plan(first + [OwnerGuard(w.pip.value, p.service, space),
                    Guard(PublicIpUnused, w.pip.value.ipConfiguration.None?)],
           DeletePublicIp, false)
    else Plan(first + [Guard(Removed, true)], Nothing, false)
  }

  /** The world once the change of the step has finished: Azure gives the load balancer a new
      ETag, and the public IP whatever configuration is left. */
  ghost predicate Finished(w: World, p: Params, step: Step, w': World) {
    match step
    case RemoveFrontend =>
      && w.lb.Some? && w'.lb.Some?
      && w'.lb.value.(etag := None) == WithoutFrontend(w.lb.value, p.lbId, p.frontend)
      && w'.pip.Some? == w.pip.Some?
      && (w.pip.Some? ==> w'.pip.value.serviceTag == w.pip.value.serviceTag)
    case DeleteLoadBalancer =>
      && w'.lb.None? && w'.pip.Some? == w.pip.Some?
      && (w.pip.Some? ==> w'.pip.value.serviceTag == w.pip.value.serviceTag)
    case DeletePublicIp => w' == w.(pip := None)
    case Nothing => w' == w
  }

  // ---------------------------------------------------------------------------------------
  // `remaining` is exact.

  lemma RemovedFrontendIsNotFound(lb: LoadBalancer, lb': LoadBalancer, p: Params)
    requires p.frontend != "" && lb'.(etag := None) == WithoutFrontend(lb, p.lbId, p.frontend)
    ensures FindFrontend(lb'.frontends, p.frontend).None?
  {
    var keep := (f: Frontend) => Stays(f.name, {Lower(p.frontend)});
    assert lb'.frontends == Retained(lb.frontends, keep);
    forall f | f in lb'.frontends
      ensures Named(f.name) != Lower(p.frontend)
    {
      RetainedMeans(lb.frontends, keep, f);
      assert |Lower(p.frontend)| == |p.frontend|;
    }
  }

  /** After an execute whose change has finished, `remaining` says exactly whether the next one
      has anything to do. */
  lemma RemainingIsExact(w: World, p: Params, health: Health, space: Spaces, w': World, health': Health)
    requires p.frontend != ""
    requires Finished(w, p, Evaluate(w, p, health, space).step, w')
    ensures Evaluate(w, p, health, space).remaining <==> Evaluate(w', p, health', space).step != Nothing
  {
    var step := Evaluate(w, p, health, space).step;
    if step == RemoveFrontend {
      RemovedFrontendIsNotFound(w.lb.value, w'.lb.value, p);
    }
  }

  /** Two finished executes are enough. */
  lemma TwoExecutesFinish(w: World, p: Params, space: Spaces, w1: World, w2: World, h0: Health, h1: Health, h2: Health)
    requires p.frontend != ""
    requires Finished(w, p, Evaluate(w, p, h0, space).step, w1)
    requires Finished(w1, p, Evaluate(w1, p, h1, space).step, w2)
    ensures Evaluate(w2, p, h2, space).step == Nothing
  {
    RemainingIsExact(w, p, h0, space, w1, h1);
    RemainingIsExact(w1, p, h1, space, w2, h2);
    if Evaluate(w, p, h0, space).step == RemoveFrontend {
      RemovedFrontendIsNotFound(w.lb.value, w1.lb.value, p);
    }
  }

  // ---------------------------------------------------------------------------------------
  // What the guards make sure of.

  lemma GuardHolds(guards: seq<Guard>, i: nat)
    requires Safe(guards) && i < |guards|
    ensures guards[i].passed
  {
  }

  /** The public IP is only deleted if its tag lists exactly the Service, nothing uses it and the
      frontend is gone. */
  lemma PublicIpIsTheServices(w: World, p: Params, health: Health, space: Spaces)
    requires var plan := Evaluate(w, p, health, space); plan.step == DeletePublicIp && Safe(plan.guards)
    ensures w.pip.Some? && Services(w.pip.value, space) == [p.service] && w.pip.value.ipConfiguration.None?
    ensures w.lb.Some? ==> FindFrontend(w.lb.value.frontends, p.frontend).None?
  {
    var guards := Evaluate(w, p, health, space).guards;
    GuardHolds(guards, 1);
    GuardHolds(guards, 2);
  }

  /** The load balancer is only deleted with its last frontend, the Service's, and no pool member. */
  lemma LoadBalancerIsUnused(w: World, p: Params, health: Health, space: Spaces)
    requires Evaluate(w, p, health, space).step == DeleteLoadBalancer
    ensures w.lb.Some? && |w.lb.value.frontends| == 1 && Named(w.lb.value.frontends[0].name) == Lower(p.frontend)
    ensures forall pool <- w.lb.value.pools :: pool.ipConfigurations == [] && pool.addresses == []
  {
  }

  /** A frontend is only removed, alone or with its load balancer, if each rule that goes with it is
      named after it and was reported in time to have no healthy backend. */
  lemma RulesAreUnhealthy(w: World, p: Params, up: Ups, space: Spaces, r: Rule)
    requires w.lb.Some?
    requires var plan := Evaluate(w, p, RuleHealth(w.lb.value, p.lbId, p.frontend, up), space);
             (plan.step == RemoveFrontend || plan.step == DeleteLoadBalancer) && Safe(plan.guards)
    requires r in w.lb.value.rules && UsesFrontend(r, p.lbId, p.frontend)
    ensures StartsWith(Named(r.name), Lower(p.frontend))
    ensures var reported := RuleUp(p.lbId, Named(r.name), up); reported.Some? && reported.value <= 0
  {
    var lb := w.lb.value;
    var health := RuleHealth(lb, p.lbId, p.frontend, up);
    var guards := Evaluate(w, p, health, space).guards;
    GuardHolds(guards, 3);
    GuardHolds(guards, 4);
    assert Named(r.name) in OwnedByFrontend(lb.rules, p.lbId, p.frontend).0;
    assert health[Named(r.name)] == RuleUp(p.lbId, Named(r.name), up);
  }

  /** ... and if the load balancer is idle, no outbound or NAT rule uses the frontend, it isn't the
      last one in front of members, and its public IP, if the cloud provider created it, is the
      Service's alone. */
  lemma FrontendIsUnused(w: World, p: Params, health: Health, space: Spaces)
    requires var plan := Evaluate(w, p, health, space);
             (plan.step == RemoveFrontend || plan.step == DeleteLoadBalancer) && Safe(plan.guards)
    ensures w.lb.Some? && FindFrontend(w.lb.value.frontends, p.frontend).Some?
    ensures var lb := w.lb.value;
            var f := FindFrontend(lb.frontends, p.frontend).value;
            && lb.provisioningState == "Succeeded"
            && f.outboundRules == [] && f.natRules == [] && f.natPools == []
            && !(|lb.frontends| == 1 && HasMembers(lb.pools))
            && (f.publicIp.Some? && p.pipId.Is(f.publicIp.value) && w.pip.Some? ==>
                  Services(w.pip.value, space) == [p.service])
  {
    var guards := Evaluate(w, p, health, space).guards;
    var f := FindFrontend(w.lb.value.frontends, p.frontend).value;
    GuardHolds(guards, 1);
    GuardHolds(guards, 2);
    if f.publicIp.Some? && p.pipId.Is(f.publicIp.value) && w.pip.Some? {
      GuardHolds(guards, 5);
    }
    GuardHolds(guards, |guards| - 1);
  }

  /** What must hold of a load balancer, and of the Service's public IP, for the frontend to go. */
  ghost predicate Removable(lb: LoadBalancer, pip: Option<PublicIp>, p: Params, up: Ups, space: Spaces) {
    var f := FindFrontend(lb.frontends, p.frontend);
    && f.Some? && lb.provisioningState == "Succeeded"
    && f.value.outboundRules == [] && f.value.natRules == [] && f.value.natPools == []
    && !(|lb.frontends| == 1 && HasMembers(lb.pools))
    && (f.value.publicIp.Some? && p.pipId.Is(f.value.publicIp.value) && pip.Some? ==>
          TagListsOnly(pip.value, p.service, space))
    && forall r <- lb.rules :: UsesFrontend(r, p.lbId, p.frontend) ==> RuleIsUnhealthy(r, p, up)
  }

  /** The rule is named after the frontend and was reported to have no healthy backend. */
  predicate RuleIsUnhealthy(r: Rule, p: Params, up: Ups) {
    var reported := RuleUp(p.lbId, Named(r.name), up);
    StartsWith(Named(r.name), Lower(p.frontend)) && reported.Some? && reported.value <= 0
  }

  lemma GuardedIsRemovable(w: World, p: Params, up: Ups, space: Spaces)
    requires var plan := Evaluate(w, p, HealthOf(w, p, up), space);
             (plan.step == RemoveFrontend || plan.step == DeleteLoadBalancer) && Safe(plan.guards)
    ensures w.lb.Some? && Removable(w.lb.value, w.pip, p, up, space)
  {
    FrontendIsUnused(w, p, HealthOf(w, p, up), space);
    if w.pip.Some? {
      ServicesMean(w.pip.value, p.service, space);
    }
    forall r | r in w.lb.value.rules && UsesFrontend(r, p.lbId, p.frontend)
      ensures RuleIsUnhealthy(r, p, up)
    {
      RulesAreUnhealthy(w, p, up, space, r);
    }
  }

  lemma SafeConcat(a: seq<Guard>, b: seq<Guard>)
    ensures Safe(a + b) <==> Safe(a) && Safe(b)
  {
    assert forall g <- a :: g in a + b;
    assert forall g <- b :: g in a + b;
  }

  lemma SafeFour(a: Guard, b: Guard, c: Guard, d: Guard)
    ensures Safe([a, b, c, d]) <==> a.passed && b.passed && c.passed && d.passed
  {
    var guards := [a, b, c, d];
    assert a in guards && b in guards && c in guards && d in guards;
  }

  lemma UnhealthyRulesPass(lb: LoadBalancer, p: Params, up: Ups)
    requires forall r <- lb.rules :: UsesFrontend(r, p.lbId, p.frontend) ==> RuleIsUnhealthy(r, p, up)
    ensures HealthGuard(RuleHealth(lb, p.lbId, p.frontend, up)).passed
    ensures forall rule <- OwnedByFrontend(lb.rules, p.lbId, p.frontend).0 :: StartsWith(rule, Lower(p.frontend))
  {
    var health := RuleHealth(lb, p.lbId, p.frontend, up);
    forall rule | rule in health
      ensures health[rule].Some? && health[rule].value <= 0 && StartsWith(rule, Lower(p.frontend))
    {
      var r :| r in lb.rules && UsesFrontend(r, p.lbId, p.frontend) && Named(r.name) == rule;
      assert RuleIsUnhealthy(r, p, up);
    }
  }

  lemma RemovablePasses(lb: LoadBalancer, pip: Option<PublicIp>, p: Params, up: Ups, space: Spaces)
    requires Removable(lb, pip, p, up, space)
    ensures Safe(FrontendGuards(lb, FindFrontend(lb.frontends, p.frontend).value, pip, p,
                                RuleHealth(lb, p.lbId, p.frontend, up), space))
  {
    var f := FindFrontend(lb.frontends, p.frontend).value;
    UnhealthyRulesPass(lb, p, up);
    var owned := OwnedByFrontend(lb.rules, p.lbId, p.frontend).0;
    var four := [Guard(Idle, lb.provisioningState == "Succeeded"),
                 Guard(InboundOnly, f.outboundRules == [] && f.natRules == [] && f.natPools == []),
                 HealthGuard(RuleHealth(lb, p.lbId, p.frontend, up)),
                 Guard(SingleService, forall rule <- owned :: StartsWith(rule, Lower(p.frontend)))];
    SafeFour(four[0], four[1], four[2], four[3]);
    assert four == [four[0], four[1], four[2], four[3]];
    var owner := if f.publicIp.Some? && p.pipId.Is(f.publicIp.value) then
                   (if pip.Some? then [OwnerGuard(pip.value, p.service, space)] else [])
                 else [Guard(PublicIpOwner, true)];
    if pip.Some? {
      ServicesMean(pip.value, p.service, space);
    }
    SafeConcat(four, owner);
  }

  /** The guards let a frontend go exactly if it may; otherwise they let the public IP go exactly if it
      lists the Service alone and nothing uses it. The load balancer goes instead of its last frontend
      if no pool has members. */
  lemma PlanIsExact(w: World, p: Params, up: Ups, space: Spaces)
    ensures var plan := Evaluate(w, p, HealthOf(w, p, up), space);
            if w.lb.Some? && exists f <- w.lb.value.frontends :: Named(f.name) == Lower(p.frontend) then
              && (Safe(plan.guards) <==> Removable(w.lb.value, w.pip, p, up, space))
              && plan.step == if |w.lb.value.frontends| == 1 && !HasMembers(w.lb.value.pools) then DeleteLoadBalancer
                              else RemoveFrontend
            else if w.pip.Some? then
              && (Safe(plan.guards) <==>
                    TagListsOnly(w.pip.value, p.service, space) && w.pip.value.ipConfiguration.None?)
              && plan.step == DeletePublicIp
            else Safe(plan.guards) && plan.step == Nothing
  {
    var plan := Evaluate(w, p, HealthOf(w, p, up), space);
    var first := [Guard(ServiceFrontend, true)];
    if w.lb.Some? && exists f <- w.lb.value.frontends :: Named(f.name) == Lower(p.frontend) {
      if Safe(plan.guards) {
        GuardedIsRemovable(w, p, up, space);
      }
      if Removable(w.lb.value, w.pip, p, up, space) {
        RemovablePasses(w.lb.value, w.pip, p, up, space);
        SafeConcat(first, FrontendGuards(w.lb.value, FindFrontend(w.lb.value.frontends, p.frontend).value, w.pip, p,
                                         HealthOf(w, p, up), space));
      }
    } else if w.pip.Some? {
      ServicesMean(w.pip.value, p.service, space);
      assert plan.guards == [plan.guards[0], plan.guards[1], plan.guards[2]];
      assert plan.guards[1] in plan.guards && plan.guards[2] in plan.guards;
    }
  }
}
