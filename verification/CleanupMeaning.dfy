/**
  What the GCP lb-frontend-delete function decides, in terms of the cloud alone: which resources it
  deletes, keeps or leaves for later, and whose health it asks about.
 */
module CleanupMeaning {
  import opened Wrappers
  import opened Strings
  import opened Leftovers
  import opened CleanupRuns

  // ---------------------------------------------------------------------------------------
  // Whose resources.

  /** The first of the two keys that holds a string names the Service. */
  predicate DescribedAs(d: Description, service: string) {
    if d.Object? && "kubernetes.io/service-name" in d.fields && d.fields["kubernetes.io/service-name"].Str?
    then d.fields["kubernetes.io/service-name"].value == service
    else if d.Object? && "networking.gke.io/service-name" in d.fields && d.fields["networking.gke.io/service-name"].Str?
    then d.fields["networking.gke.io/service-name"].value == service
    else service == ""
  }

  lemma DescribedServiceMeans(d: Description, service: string)
    ensures DescribedService(d, SERVICE_NAME_KEYS) == service <==> DescribedAs(d, service)
  {
    var second := ["networking.gke.io/service-name"];
    assert SERVICE_NAME_KEYS[1..] == second && second[1..] == [];
    assert DescribedService(d, []) == "";
    assert DescribedService(d, second) ==
           if d.Object? && second[0] in d.fields && d.fields[second[0]].Str? then d.fields[second[0]].value else "";
  }

  /** The names and places of the load balancer's resources. */
  predicate BelongsTo(p: Params, k: Key) {
    match k.kind
    case Firewall => k.region == "" && (k.name == "k8s-fw-" + p.name || k.name == "k8s-" + p.name + "-http-hc")
    case HTTPHealthCheck => k.region == "" && k.name == p.name
    case HealthCheck => k.region == "" && k.name == p.name
    case _ => k.region == p.region && k.name == p.name
  }

  lemma NamedMeans(p: Params, k: Key)
    ensures Named(p, k) <==> BelongsTo(p, k)
  {
  }

  // ---------------------------------------------------------------------------------------
  // Each resource is read once.

  /** Where the function reads the resource. */
  function Rank(p: Params, r: Resource): nat {
    match r.kind
    case ForwardingRule => 0
    case TargetPool => 1
    case BackendService => 2
    case Firewall => if r.name == FirewallNames(p.name).0 then 3 else 4
    case Address => 5
    case HTTPHealthCheck => 6
    case HealthCheck => 7
  }

  /** The resources are in the order they are read, each of another rank in the range. */
  predicate InOrder(p: Params, rs: seq<Resource>, low: nat, high: nat) {
    && (forall i :: 0 <= i < |rs| ==> low <= Rank(p, rs[i]) < high)
    && forall i, j :: 0 <= i < j < |rs| ==> Rank(p, rs[i]) < Rank(p, rs[j])
  }

  lemma InOrderConcat(p: Params, a: seq<Resource>, b: seq<Resource>, low: nat, mid: nat, high: nat)
    requires InOrder(p, a, low, mid) && InOrder(p, b, mid, high) && low <= mid <= high
    ensures InOrder(p, a + b, low, high)
  {
  }

  lemma FirewallNamesDiffer(name: string)
    ensures FirewallNames(name).0 != FirewallNames(name).1
  {
    assert |FirewallNames(name).0| == |name| + 7 && |FirewallNames(name).1| == |name| + 12;
  }

  lemma PresentInOrder(w: World, p: Params, kind: Kind, name: string, rank: nat)
    requires WellFormed(w)
    requires forall r: Resource :: r.kind == kind && r.name == name ==> Rank(p, r) == rank
    ensures InOrder(p, Present(Get(w, kind, p.region, name)), rank, rank + 1)
  {
  }

  lemma TargetsInOrder(w: World, p: Params)
    requires WellFormed(w)
    ensures InOrder(p, Read(w, p).targets, 1, 3)
  {
    PresentInOrder(w, p, TargetPool, p.name, 1);
    PresentInOrder(w, p, BackendService, p.name, 2);
    InOrderConcat(p, Present(Get(w, TargetPool, p.region, p.name)), Present(Get(w, BackendService, p.region, p.name)), 1, 2, 3);
  }

  lemma FirewallsInOrder(w: World, p: Params)
    requires WellFormed(w)
    ensures InOrder(p, Read(w, p).firewalls, 3, 5)
  {
    var (f1, f2) := FirewallNames(p.name);
    FirewallNamesDiffer(p.name);
    PresentInOrder(w, p, Firewall, f1, 3);
    PresentInOrder(w, p, Firewall, f2, 4);
    InOrderConcat(p, Present(Get(w, Firewall, p.region, f1)), Present(Get(w, Firewall, p.region, f2)), 3, 4, 5);
  }

  lemma ChecksInOrder(w: World, p: Params)
    requires WellFormed(w)
    ensures InOrder(p, Read(w, p).healthChecks, 6, 8)
  {
    PresentInOrder(w, p, HTTPHealthCheck, p.name, 6);
    PresentInOrder(w, p, HealthCheck, p.name, 7);
    InOrderConcat(p, Present(Get(w, HTTPHealthCheck, p.region, p.name)), Present(Get(w, HealthCheck, p.region, p.name)), 6, 7, 8);
  }

  lemma ReadInOrder(w: World, p: Params)
    requires WellFormed(w)
    ensures InOrder(p, All(Read(w, p)), 0, 8)
  {
    PresentInOrder(w, p, ForwardingRule, p.name, 0);
    TargetsInOrder(w, p);
    FirewallsInOrder(w, p);
    PresentInOrder(w, p, Address, p.name, 5);
    ChecksInOrder(w, p);
    PartsInOrder(p, Read(w, p));
  }

  lemma PartsInOrder(p: Params, l: Leftovers)
    requires InOrder(p, Present(l.rule), 0, 1) && InOrder(p, l.targets, 1, 3) && InOrder(p, l.firewalls, 3, 5)
    requires InOrder(p, Present(l.address), 5, 6) && InOrder(p, l.healthChecks, 6, 8)
    ensures InOrder(p, All(l), 0, 8)
  {
    InOrderConcat(p, Present(l.rule), l.targets, 0, 1, 3);
    InOrderConcat(p, Present(l.rule) + l.targets, l.firewalls, 0, 3, 5);
    InOrderConcat(p, Present(l.rule) + l.targets + l.firewalls, Present(l.address), 0, 5, 6);
    InOrderConcat(p, Present(l.rule) + l.targets + l.firewalls + Present(l.address), l.healthChecks, 0, 6, 8);
  }

  // ---------------------------------------------------------------------------------------
  // What is deleted.

  /** Only the targets of the load balancer's name count as targets. */
  lemma TargetsMean(w: World, p: Params)
    requires WellFormed(w)
    ensures Read(w, p).targets == [] <==>
            KeyOf(TargetPool, p.region, p.name) !in w && KeyOf(BackendService, p.region, p.name) !in w
  {
  }

  lemma SafeIsDue(w: World, p: Params, k: Key)
    requires WellFormed(w) && Safe(w, p, k)
    ensures var l := Read(w, p); w[k] in All(l) && Owned(l, w[k]) && StepFor(l, w[k]) == Delete
  {
    var l, r := Read(w, p), w[k];
    assert Found(w, p, r);
    FoundIsRead(w, p, r);
    if IsCheck(r.kind) {
      ReadFinds(w, p);
      TargetsMean(w, p);
      TargetsGoingMeaning(l);
    } else {
      SafeStep(w, p, r);
    }
  }

  lemma SafeStep(w: World, p: Params, r: Resource)
    requires WellFormed(w) && Found(w, p, r) && Safe(w, p, KeyOf(r.kind, p.region, r.name)) && !IsCheck(r.kind)
    ensures StepFor(Read(w, p), r) == Delete
  {
  }

  /** An execute whose guards pass and that nothing keeps from deleting starts the deletion of exactly
      the load balancer's resources that were created for the Service and that nothing uses any more:
      the forwarding rule, and once it is gone a target that no rule of the region points at, a
      firewall rule, an address not in use, and once no target is left a health check. */
  lemma StartsExactlyWhatIsSafe(w: World, p: Params, healthy: string, k: Key)
    requires WellFormed(w) && Passed(Guards(Read(w, p), healthy))
    ensures k in Execute(w, p, healthy, _ => Started).started <==> Safe(w, p, k)
  {
    if k in Execute(w, p, healthy, _ => Started).started {
      OnlySafeDeletions(w, p, healthy, _ => Started, k);
    }
    if Safe(w, p, k) {
      var l := Read(w, p);
      SafeIsDue(w, p, k);
      ReadFinds(w, p);
      StepsAreDecisions(l);
      DecisionIsIn(l, All(l));
      ActStartsAll(Steps(l), p.region);
      assert Decide(l, w[k], StepFor(l, w[k])) in Steps(l);
    }
  }

  /** A forwarding rule of the region points at the URL. */
  predicate IsPointedAt(w: World, region: string, url: string) {
    exists k <- w :: k.kind == ForwardingRule && k.region == region && w[k].target == url
  }

  lemma TargetUsersMean(w: World, region: string, url: string)
    ensures url in TargetUsers(w, region) <==> IsPointedAt(w, region, url)
  {
  }

  /** What a deletion's safety says of the Service, the names and the forwarding rules. */
  lemma SafeMeans(w: World, p: Params, k: Key)
    requires Safe(w, p, k)
    ensures BelongsTo(p, k) && DescribedAs(w[k].description, p.service)
    ensures k.kind == TargetPool || k.kind == BackendService ==> !IsPointedAt(w, p.region, w[k].selfLink)
    ensures k.kind != ForwardingRule ==> Key(ForwardingRule, p.region, p.name) !in w
  {
    NamedMeans(p, k);
    DescribedServiceMeans(w[k].description, p.service);
    TargetUsersMean(w, p.region, w[k].selfLink);
  }

  // ---------------------------------------------------------------------------------------
  // What is kept.

  predicate RuleIsGone(w: World, p: Params) {
    KeyOf(ForwardingRule, p.region, p.name) !in w
  }

  /** A target or address of the load balancer that something else still uses. */
  predicate UsedByOthers(w: World, p: Params, r: Resource) {
    || (IsTarget(r.kind) && IsPointedAt(w, p.region, r.selfLink))
    || (r.kind == Address && r.status == "IN_USE")
  }

  predicate IsTheServices(p: Params, r: Resource) {
    DescribedAs(r.description, p.service)
  }

  /** What happens to a target in the end: it stays if it isn't the Service's or others use it. */
  predicate TargetStays(w: World, p: Params, kind: Kind) {
    var k := KeyOf(kind, p.region, p.name);
    k in w && (!IsTheServices(p, w[k]) || IsPointedAt(w, p.region, w[k].selfLink))
  }

  predicate TargetIsThere(w: World, p: Params, kind: Kind) {
    KeyOf(kind, p.region, p.name) in w
  }

  /** Every target there is stays, and there is one. */
  predicate ATargetStays(w: World, p: Params) {
    && (TargetIsThere(w, p, TargetPool) || TargetIsThere(w, p, BackendService))
    && (TargetIsThere(w, p, TargetPool) ==> TargetStays(w, p, TargetPool))
    && (TargetIsThere(w, p, BackendService) ==> TargetStays(w, p, BackendService))
  }

  /** A resource stays if it wasn't created for the Service or if, with the rule gone, something else
      uses it; a health check, if every target there still is stays. */
  predicate StaysFor(w: World, p: Params, r: Resource) {
    || !IsTheServices(p, r)
    || (RuleIsGone(w, p) && (UsedByOthers(w, p, r) || (IsCheck(r.kind) && ATargetStays(w, p))))
  }

  /** What is kept of one kind of target. */
  lemma TargetKeptMeans(w: World, p: Params, kind: Kind, t: Resource)
    requires WellFormed(w) && RuleIsGone(w, p) && IsTarget(kind) && t in Present(Get(w, kind, p.region, p.name))
    ensures t in Read(w, p).targets && (IsKept(Read(w, p), t) <==> TargetStays(w, p, kind))
  {
    PresentIsFound(w, p, kind, p.name);
    TargetUsersMean(w, p.region, t.selfLink);
    DescribedServiceMeans(t.description, p.service);
  }

  lemma TargetsStayMeans(w: World, p: Params)
    requires WellFormed(w) && RuleIsGone(w, p)
    ensures var l := Read(w, p); (l.targets != [] && forall t <- l.targets :: IsKept(l, t)) <==> ATargetStays(w, p)
  {
    var l := Read(w, p);
    var pool, service := Present(Get(w, TargetPool, p.region, p.name)), Present(Get(w, BackendService, p.region, p.name));
    forall t | t in pool
      ensures t in l.targets && (IsKept(l, t) <==> TargetStays(w, p, TargetPool))
    {
      TargetKeptMeans(w, p, TargetPool, t);
    }
    forall t | t in service
      ensures t in l.targets && (IsKept(l, t) <==> TargetStays(w, p, BackendService))
    {
      TargetKeptMeans(w, p, BackendService, t);
    }
    TargetsFrom(w, p, l.targets, pool, service, (t: Resource) => IsKept(l, t));
  }

  lemma TargetsFrom(w: World, p: Params, targets: seq<Resource>, pool: seq<Resource>, service: seq<Resource>,
                    kept: Resource -> bool)
    requires targets == pool + service
    requires |pool| == (if TargetIsThere(w, p, TargetPool) then 1 else 0)
    requires |service| == (if TargetIsThere(w, p, BackendService) then 1 else 0)
    requires forall t <- pool :: kept(t) <==> TargetStays(w, p, TargetPool)
    requires forall t <- service :: kept(t) <==> TargetStays(w, p, BackendService)
    ensures (targets != [] && forall t <- targets :: kept(t)) <==> ATargetStays(w, p)
  {
    if TargetIsThere(w, p, TargetPool) {
      assert pool[0] in pool && pool[0] in targets;
    }
    if TargetIsThere(w, p, BackendService) {
      assert service[0] in service && service[0] in targets;
    }
  }

  lemma KeptCheckMeans(w: World, p: Params, r: Resource)
    requires WellFormed(w) && Found(w, p, r) && IsCheck(r.kind)
    ensures IsKept(Read(w, p), r) <==> StaysFor(w, p, r)
  {
    DescribedServiceMeans(r.description, p.service);
    if RuleIsGone(w, p) {
      ReadFinds(w, p);
      TargetsStayMeans(w, p);
      TargetsGoingMeaning(Read(w, p));
    }
  }

  lemma KeptTargetMeans(w: World, p: Params, r: Resource)
    requires WellFormed(w) && Found(w, p, r) && IsTarget(r.kind)
    ensures IsKept(Read(w, p), r) <==> StaysFor(w, p, r)
  {
    DescribedServiceMeans(r.description, p.service);
    if RuleIsGone(w, p) {
      TargetKeptMeans(w, p, r.kind, r);
    }
  }

  lemma KeptOtherMeans(w: World, p: Params, r: Resource)
    requires WellFormed(w) && Found(w, p, r) && !IsTarget(r.kind) && !IsCheck(r.kind)
    ensures IsKept(Read(w, p), r) <==> StaysFor(w, p, r)
  {
    DescribedServiceMeans(r.description, p.service);
  }

  lemma KeptMeans(w: World, p: Params, k: Key)
    requires WellFormed(w) && k in w && Named(p, k)
    ensures IsKept(Read(w, p), w[k]) <==> StaysFor(w, p, w[k])
  {
    if IsCheck(k.kind) {
      KeptCheckMeans(w, p, w[k]);
    } else if IsTarget(k.kind) {
      KeptTargetMeans(w, p, w[k]);
    } else {
      KeptOtherMeans(w, p, w[k]);
    }
  }

  /** Everything is kept exactly if every resource of the load balancer that is left stays. */
  lemma AllKeptMeans(w: World, p: Params)
    requires WellFormed(w)
    ensures AllKept(w, p) <==> forall k <- w :: Named(p, k) ==> StaysFor(w, p, w[k])
  {
    var l := Read(w, p);
    ReadFinds(w, p);
    StepsAreDecisions(l);
    DecisionIsIn(l, All(l));
    forall k | k in w && Named(p, k)
      ensures w[k] in All(l) && (IsKept(l, w[k]) <==> StaysFor(w, p, w[k]))
    {
      assert Found(w, p, w[k]);
      FoundIsRead(w, p, w[k]);
      KeptMeans(w, p, k);
    }
    forall r | r in All(l)
      ensures Decide(l, r, StepFor(l, r)) in Steps(l)
      ensures Decide(l, r, StepFor(l, r)).step == Keep <==> IsKept(l, r)
      ensures KeyOf(r.kind, p.region, r.name) in w && w[KeyOf(r.kind, p.region, r.name)] == r
      ensures Named(p, KeyOf(r.kind, p.region, r.name))
    {
      assert Found(w, p, r);
    }
  }

  // ---------------------------------------------------------------------------------------
  // What `remaining` tells.

  lemma EachKeyOnce(w: World, p: Params, m: nat, n: nat)
    requires WellFormed(w)
    requires var items := Steps(Read(w, p));
             && m < |items| && n < |items|
             && KeyOf(items[m].kind, p.region, items[m].name) == KeyOf(items[n].kind, p.region, items[n].name)
    ensures m == n
  {
    var l := Read(w, p);
    ReadFinds(w, p);
    StepsAreDecisions(l);
    ReadInOrder(w, p);
    assert All(l)[m] in All(l) && All(l)[n] in All(l);
    assert Found(w, p, All(l)[m]) && Found(w, p, All(l)[n]);
    assert All(l)[m] == All(l)[n];
  }

  /** A done execute reports something remaining exactly if a resource of the load balancer that is to
      go wasn't started to be deleted. */
  lemma RemainingIsExact(w: World, p: Params, healthy: string, replies: nat -> Reply)
    requires WellFormed(w) && Execute(w, p, healthy, replies).outcome.Done?
    ensures var e := Execute(w, p, healthy, replies);
            e.outcome.remaining <==> exists k <- w :: Named(p, k) && !StaysFor(w, p, w[k]) && k !in e.started
  {
    var l, e := Read(w, p), Execute(w, p, healthy, replies);
    var items := Steps(l);
    StepsFit(w, p);
    ActIsPointwise(items, p.region, replies);
    forall n: nat | n < |items|
      ensures Leaves(w, p, items, replies, e.started, n)
    {
      ItemLeaves(w, p, replies, n);
    }
    RemainingFromItems(w, p, items, replies, e);
  }

  /** What one item says of its resource after the execute. */
  predicate Leaves(w: World, p: Params, items: seq<Item>, replies: nat -> Reply, started: seq<Key>, n: nat)
    requires n < |items|
  {
    var k := KeyOf(items[n].kind, p.region, items[n].name);
    var step := Ended(items[n], replies(n)).step;
    && k in w && Named(p, k)
    && (step == Waiting || step == Later <==> !StaysFor(w, p, w[k]) && k !in started)
  }

  lemma DecisionMeans(l: Leftovers, r: Resource)
    ensures var i := Decide(l, r, StepFor(l, r));
            && i.kind == r.kind && i.name == r.name && (i.step == Keep <==> IsKept(l, r))
            && (i.step == Delete || i.step == Later || i.step == Keep)
  {
  }

  lemma ItemIsDecision(w: World, p: Params, n: nat) returns (r: Resource)
    requires WellFormed(w) && n < |Steps(Read(w, p))|
    ensures Found(w, p, r) && Steps(Read(w, p))[n] == Decide(Read(w, p), r, StepFor(Read(w, p), r))
  {
    ReadFinds(w, p);
    StepsAreDecisions(Read(w, p));
    r := All(Read(w, p))[n];
    assert r in All(Read(w, p));
  }

  /** An item is about a resource of the load balancer and keeps it if that stays. */
  lemma ItemMeans(w: World, p: Params, n: nat)
    requires WellFormed(w) && n < |Steps(Read(w, p))|
    ensures var i := Steps(Read(w, p))[n];
            var k := KeyOf(i.kind, p.region, i.name);
            && k in w && Named(p, k) && (i.step == Keep <==> StaysFor(w, p, w[k]))
            && (i.step == Delete || i.step == Later || i.step == Keep)
  {
    var r := ItemIsDecision(w, p, n);
    DecisionMeans(Read(w, p), r);
    KeptMeans(w, p, KeyOf(r.kind, p.region, r.name));
  }

  /** A resource was only started to be deleted by its own item. */
  lemma StartedByItem(w: World, p: Params, replies: nat -> Reply, n: nat)
    requires WellFormed(w) && n < |Steps(Read(w, p))|
    ensures var items := Steps(Read(w, p));
            KeyOf(items[n].kind, p.region, items[n].name) in Act(items, p.region, replies).started ==>
              items[n].step == Delete && replies(n) == Started
  {
    var items := Steps(Read(w, p));
    var k := KeyOf(items[n].kind, p.region, items[n].name);
    ActStartsAt(items, p.region, replies, k);
    if m: nat :| StartedAt(items, p.region, replies, k, m) {
      EachKeyOnce(w, p, m, n);
    }
  }

  lemma ItemLeaves(w: World, p: Params, replies: nat -> Reply, n: nat)
    requires WellFormed(w) && n < |Steps(Read(w, p))| && Act(Steps(Read(w, p)), p.region, replies).ok
    ensures Leaves(w, p, Steps(Read(w, p)), replies, Act(Steps(Read(w, p)), p.region, replies).started, n)
  {
    ItemMeans(w, p, n);
    StartedByItem(w, p, replies, n);
    ActIsPointwise(Steps(Read(w, p)), p.region, replies);
  }

  lemma RemainingFromItems(w: World, p: Params, items: seq<Item>, replies: nat -> Reply, e: Executed)
    requires WellFormed(w) && items == Steps(Read(w, p)) && e.outcome.Done?
    requires |e.outcome.items| == |items| && forall n: nat :: n < |items| ==> e.outcome.items[n] == Ended(items[n], replies(n))
    requires forall n: nat :: n < |items| ==> Leaves(w, p, items, replies, e.started, n)
    requires e.outcome.remaining == Remaining(e.outcome.items, {Waiting, Later})
    ensures e.outcome.remaining <==> exists k <- w :: Named(p, k) && !StaysFor(w, p, w[k]) && k !in e.started
  {
    if e.outcome.remaining {
      var i :| i in e.outcome.items && i.step in {Waiting, Later};
      var n: nat :| n < |items| && e.outcome.items[n] == i;
      assert Leaves(w, p, items, replies, e.started, n);
    }
    if k :| k in w && Named(p, k) && !StaysFor(w, p, w[k]) && k !in e.started {
      var n := ItemOf(w, p, k);
      assert Leaves(w, p, items, replies, e.started, n);
      assert e.outcome.items[n] in e.outcome.items;
    }
  }

  lemma ItemOf(w: World, p: Params, k: Key) returns (n: nat)
    requires WellFormed(w) && k in w && Named(p, k)
    ensures var items := Steps(Read(w, p)); n < |items| && KeyOf(items[n].kind, p.region, items[n].name) == k
  {
    var l := Read(w, p);
    assert Found(w, p, w[k]);
    FoundIsRead(w, p, w[k]);
    ReadFinds(w, p);
    StepsAreDecisions(l);
    n :| n < |All(l)| && All(l)[n] == w[k];
  }

  // ---------------------------------------------------------------------------------------
  // Whose health matters.

  lemma {:induction false} WithLinkMeans(targets: seq<Resource>, url: string)
    ensures var t := WithLink(targets, url);
            && (t.Some? ==> t.value in targets && t.value.selfLink == url)
            && (t.None? ==> forall x <- targets :: x.selfLink != url)
  {
    if targets != [] {
      WithLinkMeans(targets[1..], url);
    }
  }

  /** The target of the load balancer's name, a pool before a backend service. */
  function NamedTarget(w: World, p: Params): Option<Resource> {
    if TargetIsThere(w, p, TargetPool) then Some(w[KeyOf(TargetPool, p.region, p.name)])
    else if TargetIsThere(w, p, BackendService) then Some(w[KeyOf(BackendService, p.region, p.name)])
    else None
  }

  lemma FirstTarget(w: World, p: Params)
    ensures var targets := Read(w, p).targets;
            NamedTarget(w, p) == if targets == [] then None else Some(targets[0])
  {
  }

  /** It is the health of what the forwarding rule points at that matters: of the load balancer's own
      target with that URL, or else of the target the URL names, if it is there. Without the rule, or
      if that isn't there, it is the target of the load balancer's name. */
  lemma HealthTargetMeans(w: World, p: Params)
    ensures var target := HealthTarget(Read(w, p));
            if RuleIsGone(w, p) then target == NamedTarget(w, p)
            else
              var url := w[KeyOf(ForwardingRule, p.region, p.name)].target;
              if exists t <- Targets(w, p) :: t.selfLink == url
              then target.Some? && target.value in Targets(w, p) && target.value.selfLink == url
              else target == if RuleTarget(w, [], url).Some? then RuleTarget(w, [], url) else NamedTarget(w, p)
  {
    FirstTarget(w, p);
    if !RuleIsGone(w, p) {
      WithLinkMeans(Targets(w, p), w[KeyOf(ForwardingRule, p.region, p.name)].target);
    }
  }

  /** A URL whose first region is the one given. */
  ghost predicate NamesRegion(url: string, region: string) {
    exists prefix, rest ::
      && url == prefix + "/regions/" + (region + "/" + rest) && '/' !in region
      && forall j: nat :: j < |prefix| ==> !IsAt(url, "/regions/", j)
  }

  lemma RegionAfter(url: string, prefix: string, region: string, rest: string)
    requires url == prefix + "/regions/" + (region + "/" + rest) && '/' !in region
    requires Find(url, REGIONS_PATH) == Some(|prefix|)
    ensures RegionFromURL(url) == region
  {
    assert url[|prefix| + 9..] == region + "/" + rest;
    UpToOf(region, rest, '/');
  }

  lemma RegionOfUrl(url: string, region: string)
    requires NamesRegion(url, region)
    ensures RegionFromURL(url) == region
  {
    var prefix, rest :|
      && url == prefix + "/regions/" + (region + "/" + rest) && '/' !in region
      && forall j: nat :: j < |prefix| ==> !IsAt(url, "/regions/", j);
    IsAtAfter(prefix, "/regions/", region + "/" + rest);
    FindIs(url, REGIONS_PATH, |prefix|);
    RegionAfter(url, prefix, region, rest);
  }

  lemma NoRegionInUrl(url: string)
    requires forall i: nat :: !IsAt(url, "/regions/", i)
    ensures RegionFromURL(url) == ""
  {
    FindIsFirst(url, REGIONS_PATH);
  }

  lemma IsAtAfter(prefix: string, sub: string, rest: string)
    ensures IsAt(prefix + sub + rest, sub, |prefix|)
  {
  }

  /** The target a URL names is found under the URL's own region and name, as a target pool if it is in
      that collection and otherwise as a backend service if it is in that. */
  lemma RuleTargetOfUrl(w: World, url: string, path: string, region: string, name: string)
    requires NamesRegion(url, region) && url == path + "/" + name && '/' !in name
    ensures var pool := exists i: nat :: IsAt(url, "/targetPools/", i);
            var service := exists i: nat :: IsAt(url, "/backendServices/", i);
            RuleTarget(w, [], url) ==
              if pool then Get(w, TargetPool, region, name)
              else if service then Get(w, BackendService, region, name)
              else None
  {
    RegionOfUrl(url, region);
    AfterLastOf(path, name, '/');
    ContainsMeans(url, TARGET_POOLS_PATH);
    ContainsMeans(url, BACKEND_SERVICES_PATH);
  }

  // ---------------------------------------------------------------------------------------
  // When the guards pass.

  lemma EmptyMeans(w: World, p: Params)
    requires WellFormed(w)
    ensures Empty(Read(w, p)) <==> forall k <- w :: !Named(p, k)
  {
    var l := Read(w, p);
    ReadFinds(w, p);
    if k :| k in w && Named(p, k) {
      assert Found(w, p, w[k]);
      FoundIsRead(w, p, w[k]);
      SomethingIsRead(l, w[k]);
    }
    if !Empty(l) {
      NotEmptyReads(l);
      assert Found(w, p, All(l)[0]) by {
        assert All(l)[0] in All(l);
      }
    }
  }

  lemma SomethingIsRead(l: Leftovers, r: Resource)
    requires r in All(l)
    ensures !Empty(l)
  {
  }

  lemma NotEmptyReads(l: Leftovers)
    requires !Empty(l)
    ensures All(l) != []
  {
  }

  /** The rule, while it is there, is the Service's and points at a target pool or backend service. */
  predicate RuleFits(w: World, p: Params) {
    var k := Key(ForwardingRule, p.region, p.name);
    k in w ==>
      && DescribedAs(w[k].description, p.service)
      && (Contains(w[k].target, "/targetPools/") || Contains(w[k].target, "/backendServices/"))
  }

  /** The guards pass exactly if something of the load balancer is left, the rule fits, and the target
      whose health matters, if there is one, has no healthy backend. */
  lemma GuardsPassMeans(w: World, p: Params, healthy: string)
    requires WellFormed(w)
    ensures Passed(Guards(Read(w, p), healthy)) <==>
            && (exists k <- w :: Named(p, k)) && RuleFits(w, p)
            && (HealthTarget(Read(w, p)).Some? ==> healthy == "")
  {
    var l := Read(w, p);
    EmptyMeans(w, p);
    GuardsMean(l, healthy);
    if l.rule.Some? {
      DescribedServiceMeans(l.rule.value.description, p.service);
    }
  }
}
