/** What runs of the GCP lb-frontend-delete function do to the cloud. */
module CleanupRuns {
  import opened Strings
  import opened Leftovers

  // ---------------------------------------------------------------------------------------
  // A deletion is only started for an owned resource that nothing uses any more.

  predicate IsTarget(kind: Kind) {
    kind == TargetPool || kind == BackendService
  }

  predicate IsCheck(kind: Kind) {
    kind == HTTPHealthCheck || kind == HealthCheck
  }

  /** The resources the cloud provider creates for the load balancer. */
  predicate Named(p: Params, k: Key) {
    && k == KeyOf(k.kind, p.region, k.name)
    && if k.kind == Firewall then k.name == FirewallNames(p.name).0 || k.name == FirewallNames(p.name).1
       else k.name == p.name
  }

  /** A resource of the load balancer that was created for the Service and that nothing uses any
      more. */
  predicate Safe(w: World, p: Params, k: Key) {
    && k in w && Named(p, k)
    && DescribedService(w[k].description, SERVICE_NAME_KEYS) == p.service
    && (k.kind != ForwardingRule ==> KeyOf(ForwardingRule, p.region, p.name) !in w)
    && (IsTarget(k.kind) ==> w[k].selfLink !in TargetUsers(w, p.region))
    && (k.kind == Address ==> w[k].status != "IN_USE")
    && (IsCheck(k.kind) ==> KeyOf(TargetPool, p.region, p.name) !in w && KeyOf(BackendService, p.region, p.name) !in w)
  }

  /** Every item is about a resource that exists, and is only to be deleted if that is safe. */
  predicate ItemFits(w: World, p: Params, i: Item) {
    var k := KeyOf(i.kind, p.region, i.name);
    k in w && Named(p, k) && (i.step == Delete ==> Safe(w, p, k)) && i.step != Deleting && i.step != Waiting
  }

  /** A resource of the load balancer, as the cloud has it. */
  predicate Found(w: World, p: Params, r: Resource) {
    var k := KeyOf(r.kind, p.region, r.name);
    k in w && w[k] == r && Named(p, k)
  }

  lemma PresentIsFound(w: World, p: Params, kind: Kind, name: string)
    requires WellFormed(w) && Named(p, KeyOf(kind, p.region, name))
    ensures forall r <- Present(Get(w, kind, p.region, name)) :: Found(w, p, r) && r.kind == kind && r.name == name
  {
  }

  /** Everything read, in the order of the steps. */
  function All(l: Leftovers): seq<Resource> {
    Present(l.rule) + l.targets + l.firewalls + Present(l.address) + l.healthChecks
  }

  predicate KindsFit(l: Leftovers) {
    && (l.rule.Some? ==> l.rule.value.kind == ForwardingRule)
    && (forall r <- l.targets :: IsTarget(r.kind))
    && (forall r <- l.firewalls :: r.kind == Firewall)
    && (l.address.Some? ==> l.address.value.kind == Address)
    && (forall r <- l.healthChecks :: IsCheck(r.kind))
  }

  /** The step of an owned resource, by its kind. */
  function StepFor(l: Leftovers, r: Resource): Step {
    match r.kind
    case ForwardingRule => Delete
    case TargetPool => TargetStep(l, r)
    case BackendService => TargetStep(l, r)
    case Firewall => AfterRule(l)
    case Address => AddressStep(l, r)
    case HTTPHealthCheck => CheckStep(l, FrontItems(l))
    case HealthCheck => CheckStep(l, FrontItems(l))
  }

  lemma ReadFinds(w: World, p: Params)
    requires WellFormed(w)
    ensures KindsFit(Read(w, p)) && forall r <- All(Read(w, p)) :: Found(w, p, r)
  {
    PresentIsFound(w, p, ForwardingRule, p.name);
    PresentIsFound(w, p, TargetPool, p.name);
    PresentIsFound(w, p, BackendService, p.name);
    PresentIsFound(w, p, HTTPHealthCheck, p.name);
    PresentIsFound(w, p, HealthCheck, p.name);
    PresentIsFound(w, p, Firewall, FirewallNames(p.name).0);
    PresentIsFound(w, p, Firewall, FirewallNames(p.name).1);
    PresentIsFound(w, p, Address, p.name);
  }

  function Decisions(l: Leftovers, rs: seq<Resource>): seq<Item> {
    seq(|rs|, n requires 0 <= n < |rs| => Decide(l, rs[n], StepFor(l, rs[n])))
  }

  lemma DecisionsConcat(l: Leftovers, a: seq<Resource>, b: seq<Resource>)
    ensures Decisions(l, a + b) == Decisions(l, a) + Decisions(l, b)
  {
  }

  /** The steps are, in order, the decisions about everything read. */
  lemma StepsAreDecisions(l: Leftovers)
    requires KindsFit(l)
    ensures Steps(l) == Decisions(l, All(l))
  {
    PartsAreDecisions(l);
    DecisionsConcat(l, Present(l.rule), l.targets);
    DecisionsConcat(l, Present(l.rule) + l.targets, l.firewalls);
    DecisionsConcat(l, Present(l.rule) + l.targets + l.firewalls, Present(l.address));
    DecisionsConcat(l, Present(l.rule) + l.targets + l.firewalls + Present(l.address), l.healthChecks);
    assert FrontItems(l) == Decisions(l, Present(l.rule)) + Decisions(l, l.targets) +
                            Decisions(l, l.firewalls) + Decisions(l, Present(l.address));
  }

  lemma PartsAreDecisions(l: Leftovers)
    requires KindsFit(l)
    ensures TargetItems(l) == Decisions(l, l.targets)
    ensures FirewallItems(l) == Decisions(l, l.firewalls)
    ensures CheckItems(l, FrontItems(l)) == Decisions(l, l.healthChecks)
    ensures (if l.rule.Some? then [Decide(l, l.rule.value, Delete)] else []) == Decisions(l, Present(l.rule))
    ensures (if l.address.Some? then [Decide(l, l.address.value, AddressStep(l, l.address.value))] else []) ==
            Decisions(l, Present(l.address))
  {
  }

  lemma DecisionIsIn(l: Leftovers, rs: seq<Resource>)
    ensures forall i <- Decisions(l, rs) :: exists r <- rs :: i == Decide(l, r, StepFor(l, r))
    ensures forall r <- rs :: Decide(l, r, StepFor(l, r)) in Decisions(l, rs)
  {
    forall r | r in rs
      ensures Decide(l, r, StepFor(l, r)) in Decisions(l, rs)
    {
      var n :| 0 <= n < |rs| && rs[n] == r;
      assert Decisions(l, rs)[n] == Decide(l, r, StepFor(l, r));
    }
  }

  lemma DecidesSafely(w: World, p: Params, r: Resource)
    requires WellFormed(w) && Found(w, p, r)
    requires var l := Read(w, p); Owned(l, r) && StepFor(l, r) == Delete
    ensures Safe(w, p, KeyOf(r.kind, p.region, r.name))
  {
    var l := Read(w, p);
    if IsTarget(r.kind) {
      assert r in l.targets && l.rule.None?;
    } else if IsCheck(r.kind) {
      assert l.rule.None? && l.targets == [];
      assert Get(w, TargetPool, p.region, p.name).None? && Get(w, BackendService, p.region, p.name).None?;
    }
  }

  lemma DecisionFits(w: World, p: Params, r: Resource)
    requires WellFormed(w) && Found(w, p, r)
    ensures var l := Read(w, p); ItemFits(w, p, Decide(l, r, StepFor(l, r)))
  {
    var l := Read(w, p);
    if Owned(l, r) && StepFor(l, r) == Delete {
      DecidesSafely(w, p, r);
    }
  }

  lemma StepsFit(w: World, p: Params)
    requires WellFormed(w)
    ensures forall i <- Steps(Read(w, p)) :: ItemFits(w, p, i)
  {
    var l := Read(w, p);
    ReadFinds(w, p);
    StepsAreDecisions(l);
    DecisionIsIn(l, All(l));
    forall i | i in Steps(l)
      ensures ItemFits(w, p, i)
    {
      var r :| r in All(l) && i == Decide(l, r, StepFor(l, r));
      DecisionFits(w, p, r);
    }
  }

  /** The key was to be deleted at the position, and its deletion was started. */
  predicate StartedAt(items: seq<Item>, region: string, replies: nat -> Reply, k: Key, n: nat) {
    n < |items| && items[n].step == Delete && replies(n) == Started && k == KeyOf(items[n].kind, region, items[n].name)
  }

  lemma {:induction false} ActStartsAt(items: seq<Item>, region: string, replies: nat -> Reply, k: Key)
    ensures k in Act(items, region, replies).started ==> exists n: nat :: StartedAt(items, region, replies, k, n)
  {
    if items != [] {
      var n := |items| - 1;
      ActStartsAt(items[..n], region, replies, k);
      if m: nat :| StartedAt(items[..n], region, replies, k, m) {
        assert StartedAt(items, region, replies, k, m);
      }
      if k in StartedKeys(items[n], region, replies(n)) {
        assert StartedAt(items, region, replies, k, n);
      }
    }
  }

  lemma ActStartsDeletions(items: seq<Item>, region: string, replies: nat -> Reply, k: Key)
    ensures k in Act(items, region, replies).started ==>
              exists i <- items :: i.step == Delete && k == KeyOf(i.kind, region, i.name)
  {
    ActStartsAt(items, region, replies, k);
    if n: nat :| StartedAt(items, region, replies, k, n) {
      assert items[n] in items;
    }
  }

  /** An execute only deletes resources named after the load balancer whose description names the
      Service; a target only once the forwarding rule is gone and none of the region points at
      it; a health check only once the rule and both targets are gone. */
  lemma OnlySafeDeletions(w: World, p: Params, healthy: string, replies: nat -> Reply, k: Key)
    requires WellFormed(w) && k in Execute(w, p, healthy, replies).started
    ensures Safe(w, p, k) && Passed(Guards(Read(w, p), healthy))
  {
    StepsFit(w, p);
    ActStartsDeletions(Steps(Read(w, p)), p.region, replies, k);
  }

  /** What the guards ask: something is left, the forwarding rule, while there, was created for the
      Service and points at a target pool or backend service, and the target whose health matters,
      if there is one, has no healthy backend. */
  lemma GuardsMean(l: Leftovers, healthy: string)
    ensures Passed(Guards(l, healthy)) <==>
            && !Empty(l)
            && (l.rule.Some? ==>
                  Owned(l, l.rule.value) &&
                  (Contains(l.rule.value.target, "/targetPools/") ||
                   Contains(l.rule.value.target, "/backendServices/")))
            && (l.ruleTarget.Some? || l.targets != [] ==> healthy == "")
  {
  }

  /** A run: executes, and anything else that happens to the cloud in between. */
  datatype Event = Executes(healthy: string, replies: nat -> Reply) | Other(w: World)

  datatype Deletion = Deletion(w: World, k: Key)

  function Deletions(w: World, p: Params, run: seq<Event>): seq<Deletion>
    decreases |run|
  {
    if run == [] then []
    else match run[0]
      case Other(w') => Deletions(w', p, run[1..])
      case Executes(healthy, replies) =>
        var started := Execute(w, p, healthy, replies).started;
        seq(|started|, i requires 0 <= i < |started| => Deletion(w, started[i])) +
        Deletions(Settle(w, started), p, run[1..])
  }

  lemma {:induction false} RunsOnlyDeleteSafely(w: World, p: Params, run: seq<Event>)
    requires WellFormed(w) && forall e <- run :: e.Other? ==> WellFormed(e.w)
    ensures forall d <- Deletions(w, p, run) :: Safe(d.w, p, d.k)
    decreases |run|
  {
    if run != [] {
      assert run[0] in run;
      match run[0]
      case Other(w') => RunsOnlyDeleteSafely(w', p, run[1..]);
      case Executes(healthy, replies) =>
        var started := Execute(w, p, healthy, replies).started;
        forall k | k in started
          ensures Safe(w, p, k)
        {
          OnlySafeDeletions(w, p, healthy, replies, k);
        }
        RunsOnlyDeleteSafely(Settle(w, started), p, run[1..]);
    }
  }

  // ---------------------------------------------------------------------------------------
  // `Remaining` tells the caller whether to execute again.

  lemma {:induction false} ActIsPointwise(items: seq<Item>, region: string, replies: nat -> Reply)
    requires Act(items, region, replies).ok
    ensures var a := Act(items, region, replies);
            && |a.items| == |items|
            && (forall n: nat :: n < |items| ==> a.items[n] == Ended(items[n], replies(n)))
            && (forall n: nat :: n < |items| && items[n].step == Delete ==>
                  replies(n) == Busy ||
                  (replies(n) == Started && KeyOf(items[n].kind, region, items[n].name) in a.started))
  {
    if items != [] {
      var n := |items| - 1;
      ActIsPointwise(items[..n], region, replies);
      assert forall m: nat :: m < n ==> items[..n][m] == items[m];
    }
  }

  /** If nothing is left for later, every item but the ones being deleted is kept. */
  lemma {:induction false} NotRemaining(items: seq<Item>, region: string, replies: nat -> Reply)
    requires forall i <- items :: i.step == Delete || i.step == Later || i.step == Keep
    requires var a := Act(items, region, replies);
             a.ok && !Remaining(a.items, {Waiting, Later})
    ensures forall i <- items ::
              i.step == Keep ||
              (i.step == Delete && KeyOf(i.kind, region, i.name) in Act(items, region, replies).started)
  {
    var acted := Act(items, region, replies);
    ActIsPointwise(items, region, replies);
    forall i | i in items
      ensures i.step == Keep || (i.step == Delete && KeyOf(i.kind, region, i.name) in acted.started)
    {
      var n: nat :| n < |items| && items[n] == i;
      assert acted.items[n] in acted.items && acted.items[n] == Ended(i, replies(n));
    }
  }

  lemma FoundIsRead(w: World, p: Params, r: Resource)
    requires WellFormed(w) && Found(w, p, r)
    ensures r in All(Read(w, p))
  {
  }

  /** Whether a resource is kept, as the load balancer stands. */
  predicate IsKept(l: Leftovers, r: Resource) {
    !Owned(l, r) || StepFor(l, r) == Keep
  }

  /** The deletions are of resources of the load balancer that aren't kept. */
  predicate FromSteps(w: World, p: Params, started: seq<Key>) {
    forall k <- started :: k in w && Named(p, k) && !IsKept(Read(w, p), w[k])
  }

  lemma ExecuteIsFromSteps(w: World, p: Params, healthy: string, replies: nat -> Reply)
    requires WellFormed(w)
    ensures FromSteps(w, p, Execute(w, p, healthy, replies).started)
  {
    var l := Read(w, p);
    ReadFinds(w, p);
    StepsAreDecisions(l);
    DecisionIsIn(l, All(l));
    forall k | k in Execute(w, p, healthy, replies).started
      ensures k in w && Named(p, k) && !IsKept(l, w[k])
    {
      ActStartsDeletions(Steps(l), p.region, replies, k);
      var i :| i in Steps(l) && i.step == Delete && k == KeyOf(i.kind, p.region, i.name);
      var r :| r in All(l) && i == Decide(l, r, StepFor(l, r));
      assert Found(w, p, r);
    }
  }

  /** Once the forwarding rule is gone, an execute deletes no rule, so everything it doesn't
      delete is as it was, and so is who uses which target. */
  lemma WithoutRuleOthersStay(w: World, p: Params, started: seq<Key>)
    requires WellFormed(w) && Read(w, p).rule.None? && FromSteps(w, p, started)
    ensures var w' := Settle(w, started);
            && WellFormed(w') && Read(w', p).rule.None?
            && (forall k <- w' :: k in w && k !in started && w'[k] == w[k])
            && (forall k <- w :: k !in started ==> k in w')
            && TargetUsers(w', p.region) == TargetUsers(w, p.region)
  {
    var l, w' := Read(w, p), Settle(w, started);
    StepsFit(w, p);
    forall k | k in started
      ensures k.kind != ForwardingRule
    {
      assert KeyOf(ForwardingRule, p.region, p.name) !in w;
    }
    forall k | k in w' && k.kind == ForwardingRule
      ensures w'[k].target == w[k].target
    {
    }
  }

  /** What is kept without the rule, other than health checks, is kept the next time too. */
  lemma KeptStays(w: World, p: Params, started: seq<Key>, r: Resource)
    requires WellFormed(w) && Read(w, p).rule.None? && FromSteps(w, p, started)
    requires Found(w, p, r) && IsKept(Read(w, p), r) && !IsCheck(r.kind)
    ensures var w' := Settle(w, started); Found(w', p, r) && IsKept(Read(w', p), r)
  {
    WithoutRuleOthersStay(w, p, started);
    if IsTarget(r.kind) {
      KeptTargetStays(w, p, started, r);
    }
  }

  lemma KeptTargetStays(w: World, p: Params, started: seq<Key>, r: Resource)
    requires WellFormed(w) && Read(w, p).rule.None? && FromSteps(w, p, started)
    requires Found(w, p, r) && IsKept(Read(w, p), r) && IsTarget(r.kind)
    ensures var w' := Settle(w, started); Found(w', p, r) && IsKept(Read(w', p), r)
  {
    var w' := Settle(w, started);
    WithoutRuleOthersStay(w, p, started);
    assert Found(w', p, r);
    FoundIsRead(w', p, r);
    ReadFinds(w', p);
    TargetIsRead(Read(w', p), r);
    assert Read(w', p).users == TargetUsers(w, p.region);
  }

  lemma TargetIsRead(l: Leftovers, r: Resource)
    requires KindsFit(l) && r in All(l) && IsTarget(r.kind)
    ensures r in l.targets
  {
  }

  lemma NoTargetDecided(l: Leftovers, rs: seq<Resource>)
    requires forall r <- rs :: !IsTarget(r.kind)
    ensures forall i <- Decisions(l, rs) :: !IsTarget(i.kind)
  {
    DecisionIsIn(l, rs);
  }

  lemma OnlyTargetsGo(l: Leftovers)
    requires KindsFit(l)
    ensures TargetsGoing(FrontItems(l)) <==> exists i <- TargetItems(l) :: i.step != Keep
  {
    PartsAreDecisions(l);
    NoTargetDecided(l, Present(l.rule));
    NoTargetDecided(l, l.firewalls);
    NoTargetDecided(l, Present(l.address));
    if i :| i in TargetItems(l) && i.step != Keep {
      assert i in FrontItems(l) && IsTarget(i.kind);
    }
  }

  /** No target is going exactly if every target is kept. */
  lemma TargetsGoingMeaning(l: Leftovers)
    requires KindsFit(l)
    ensures TargetsGoing(FrontItems(l)) <==> exists r <- l.targets :: !IsKept(l, r)
  {
    OnlyTargetsGo(l);
    PartsAreDecisions(l);
    DecisionIsIn(l, l.targets);
  }

  lemma KeptTargetIsReread(w: World, p: Params, started: seq<Key>, t: Resource)
    requires WellFormed(w) && Read(w, p).rule.None? && FromSteps(w, p, started)
    requires t in Read(w, p).targets && IsKept(Read(w, p), t)
    ensures t in Read(Settle(w, started), p).targets
  {
    var w' := Settle(w, started);
    ReadFinds(w, p);
    assert t in All(Read(w, p));
    KeptStays(w, p, started, t);
    SettleKeepsWellFormed(w, started);
    FoundIsRead(w', p, t);
    ReadFinds(w', p);
    TargetIsRead(Read(w', p), t);
  }

  lemma RereadTargetIsKept(w: World, p: Params, started: seq<Key>, t: Resource)
    requires WellFormed(w) && Read(w, p).rule.None? && FromSteps(w, p, started)
    requires forall t <- Read(w, p).targets :: IsKept(Read(w, p), t)
    requires t in Read(Settle(w, started), p).targets
    ensures IsKept(Read(Settle(w, started), p), t)
  {
    var w' := Settle(w, started);
    WithoutRuleOthersStay(w, p, started);
    ReadFinds(w', p);
    assert t in All(Read(w', p)) && Found(w', p, t);
    assert Found(w, p, t);
    FoundIsRead(w, p, t);
    ReadFinds(w, p);
    TargetIsRead(Read(w, p), t);
    KeptStays(w, p, started, t);
  }

  /** If no target is going, the targets there are the next time are the same, all kept. */
  lemma KeptTargetsStay(w: World, p: Params, started: seq<Key>)
    requires WellFormed(w) && Read(w, p).rule.None? && FromSteps(w, p, started)
    requires Read(w, p).targets != [] && forall t <- Read(w, p).targets :: IsKept(Read(w, p), t)
    ensures var l' := Read(Settle(w, started), p);
            l'.targets != [] && forall t <- l'.targets :: IsKept(l', t)
  {
    KeptTargetIsReread(w, p, started, Read(w, p).targets[0]);
    forall t | t in Read(Settle(w, started), p).targets
      ensures IsKept(Read(Settle(w, started), p), t)
    {
      RereadTargetIsKept(w, p, started, t);
    }
  }

  /** Kept health checks stay kept. */
  lemma KeptCheckStays(w: World, p: Params, started: seq<Key>, r: Resource)
    requires WellFormed(w) && Read(w, p).rule.None? && FromSteps(w, p, started)
    requires Found(w, p, r) && IsKept(Read(w, p), r) && IsCheck(r.kind)
    ensures IsKept(Read(Settle(w, started), p), r)
  {
    var l := Read(w, p);
    if Owned(l, r) {
      ReadFinds(w, p);
      TargetsGoingMeaning(l);
      KeptTargetsStay(w, p, started);
      WithoutRuleOthersStay(w, p, started);
      var l' := Read(Settle(w, started), p);
      ReadFinds(Settle(w, started), p);
      TargetsGoingMeaning(l');
    }
  }

  /** Every step of the load balancer as it stands keeps its resource. */
  predicate AllKept(w: World, p: Params) {
    forall i <- Steps(Read(w, p)) :: i.step == Keep
  }

  lemma AllKeptIf(w: World, p: Params)
    requires WellFormed(w) && forall r <- All(Read(w, p)) :: IsKept(Read(w, p), r)
    ensures AllKept(w, p)
  {
    ReadFinds(w, p);
    StepsAreDecisions(Read(w, p));
    DecisionIsIn(Read(w, p), All(Read(w, p)));
  }

  /** What an execute keeps and doesn't delete is kept by the next one. */
  lemma NextKeeps(w: World, p: Params, started: seq<Key>, k: Key)
    requires WellFormed(w) && FromSteps(w, p, started)
    requires k in w && k !in started && Named(p, k) && IsKept(Read(w, p), w[k])
    ensures IsKept(Read(Settle(w, started), p), Settle(w, started)[k])
  {
    var l, r := Read(w, p), w[k];
    assert Found(w, p, r);
    if l.rule.None? {
      WithoutRuleOthersStay(w, p, started);
      if IsCheck(r.kind) {
        KeptCheckStays(w, p, started, r);
      } else {
        KeptStays(w, p, started, r);
      }
    } else {
      assert !Owned(l, r);
    }
  }

  /** If an execute deletes everything it doesn't keep, the next one keeps everything. */
  lemma NextKeepsEverything(w: World, p: Params, started: seq<Key>)
    requires WellFormed(w) && FromSteps(w, p, started)
    requires forall r <- All(Read(w, p)) :: IsKept(Read(w, p), r) || KeyOf(r.kind, p.region, r.name) in started
    ensures AllKept(Settle(w, started), p)
  {
    var w' := Settle(w, started);
    SettleKeepsWellFormed(w, started);
    ReadFinds(w', p);
    forall r' | r' in All(Read(w', p))
      ensures IsKept(Read(w', p), r')
    {
      assert Found(w', p, r');
      var k := KeyOf(r'.kind, p.region, r'.name);
      assert Found(w, p, w[k]);
      FoundIsRead(w, p, w[k]);
      NextKeeps(w, p, started, k);
    }
    AllKeptIf(w', p);
  }

  lemma SettleKeepsWellFormed(w: World, started: seq<Key>)
    requires WellFormed(w)
    ensures WellFormed(Settle(w, started))
  {
  }

  /** A done execute that reports nothing remaining leaves nothing but what is kept, once its
      deletions have finished. */
  lemma NotRemainingLeavesKept(w: World, p: Params, healthy: string, replies: nat -> Reply)
    requires WellFormed(w)
    requires var e := Execute(w, p, healthy, replies);
             e.outcome.Done? && !e.outcome.remaining
    ensures AllKept(Settle(w, Execute(w, p, healthy, replies).started), p)
  {
    var l, started := Read(w, p), Execute(w, p, healthy, replies).started;
    ExecuteIsFromSteps(w, p, healthy, replies);
    StepsFit(w, p);
    NotRemaining(Steps(l), p.region, replies);
    ReadFinds(w, p);
    StepsAreDecisions(l);
    DecisionIsIn(l, All(l));
    forall r | r in All(l)
      ensures IsKept(l, r) || KeyOf(r.kind, p.region, r.name) in started
    {
      var i := Decide(l, r, StepFor(l, r));
      assert i in Steps(l);
    }
    NextKeepsEverything(w, p, started);
  }

  /** The cloud after an execute that nothing keeps from deleting. */
  function Next(w: World, p: Params): World {
    Settle(w, Execute(w, p, "", _ => Started).started)
  }

  function Repeat(step: World -> World, w: World, n: nat): World {
    if n == 0 then w else step(Repeat(step, w, n - 1))
  }

  lemma {:induction false} RepeatIsStable(step: World -> World, w: World, from: nat, n: nat)
    requires n >= from && step(Repeat(step, w, from)) == Repeat(step, w, from)
    ensures Repeat(step, w, n) == Repeat(step, w, from)
  {
    if n > from {
      RepeatIsStable(step, w, from, n - 1);
    }
  }

  function Executing(p: Params): World -> World {
    (w: World) => Next(w, p)
  }

  /** The cloud after a number of executes. */
  function After(w: World, p: Params, executes: nat): World {
    Repeat(Executing(p), w, executes)
  }

  lemma NothingStartedChangesNothing(w: World)
    ensures Settle(w, []) == w
  {
    var w' := Settle(w, []);
    forall k | k in w
      ensures k in w' && w'[k] == w[k]
    {
    }
  }

  lemma KeptIsStable(w: World, p: Params)
    requires AllKept(w, p)
    ensures Next(w, p) == w
  {
    var started := Execute(w, p, "", _ => Started).started;
    if started != [] {
      ActStartsDeletions(Steps(Read(w, p)), p.region, _ => Started, started[0]);
    }
    NothingStartedChangesNothing(w);
  }

  lemma KeptStaysAfter(w: World, p: Params, from: nat, executes: nat)
    requires executes >= from && AllKept(After(w, p, from), p)
    ensures After(w, p, executes) == After(w, p, from)
  {
    KeptIsStable(After(w, p, from), p);
    RepeatIsStable(Executing(p), w, from, executes);
  }

  /** After a done execute that reports nothing remaining, and its deletions, no number of further
      executes finds anything but resources to keep, and none changes anything. */
  lemma NotRemainingMeansFinished(w: World, p: Params, healthy: string, replies: nat -> Reply, executes: nat)
    requires WellFormed(w)
    requires var e := Execute(w, p, healthy, replies);
             e.outcome.Done? && !e.outcome.remaining
    ensures var settled := Settle(w, Execute(w, p, healthy, replies).started);
            After(settled, p, executes) == settled && AllKept(settled, p)
  {
    NotRemainingLeavesKept(w, p, healthy, replies);
    KeptStaysAfter(Settle(w, Execute(w, p, healthy, replies).started), p, 0, executes);
  }

  /** A plan reports something remaining exactly if an execute wouldn't keep everything. */
  lemma PlanIsExact(w: World, p: Params)
    requires WellFormed(w)
    ensures Plan(w, p).remaining <==> !AllKept(w, p)
  {
    StepsFit(w, p);
    if i :| i in Steps(Read(w, p)) && i.step != Keep {
      assert ItemFits(w, p, i);
    }
  }

  // ---------------------------------------------------------------------------------------
  // Convergence: at most three executes.

  lemma {:induction false} ActStartsAll(items: seq<Item>, region: string)
    ensures var a := Act(items, region, _ => Started);
            a.ok && forall i <- items :: i.step == Delete ==> KeyOf(i.kind, region, i.name) in a.started
  {
    if items != [] {
      ActStartsAll(items[..|items| - 1], region);
      assert forall i <- items :: i in items[..|items| - 1] || i == items[|items| - 1];
    }
  }

  /** An execute whose guards pass deletes every owned resource that is due. */
  lemma ExecuteStartsAll(w: World, p: Params, r: Resource)
    requires WellFormed(w) && Passed(Guards(Read(w, p), "")) && r in All(Read(w, p))
    requires Owned(Read(w, p), r) && StepFor(Read(w, p), r) == Delete
    ensures KeyOf(r.kind, p.region, r.name) in Execute(w, p, "", _ => Started).started
  {
    var l := Read(w, p);
    ReadFinds(w, p);
    StepsAreDecisions(l);
    DecisionIsIn(l, All(l));
    ActStartsAll(Steps(l), p.region);
    assert Decide(l, r, StepFor(l, r)) in Steps(l);
  }

  /** The first execute deletes the forwarding rule. */
  lemma FirstDeletesRule(w: World, p: Params)
    requires WellFormed(w) && Passed(Guards(Read(w, p), ""))
    ensures WellFormed(Next(w, p)) && Read(Next(w, p), p).rule.None?
  {
    var l := Read(w, p);
    SettleKeepsWellFormed(w, Execute(w, p, "", _ => Started).started);
    if l.rule.Some? {
      ReadFinds(w, p);
      assert l.rule.value in Present(l.rule) && Found(w, p, l.rule.value);
      assert Guard(Service, Owned(l, l.rule.value)) in Guards(l, "");
      ExecuteStartsAll(w, p, l.rule.value);
    }
  }

  /** Once the rule is gone and nothing is healthy, the guards pass while anything is left. */
  lemma GuardsPassWithoutRule(l: Leftovers)
    requires l.rule.None?
    ensures Passed(Guards(l, "")) <==> !Empty(l)
  {
  }

  ghost predicate FrontKept(w: World, p: Params) {
    forall r <- All(Read(w, p)) :: IsCheck(r.kind) || IsKept(Read(w, p), r)
  }

  /** The second execute leaves only kept resources and health checks. */
  lemma SecondDeletesFront(w: World, p: Params)
    requires WellFormed(w) && Read(w, p).rule.None?
    ensures WellFormed(Next(w, p)) && Read(Next(w, p), p).rule.None? && FrontKept(Next(w, p), p)
  {
    var l, w' := Read(w, p), Next(w, p);
    var started := Execute(w, p, "", _ => Started).started;
    ExecuteIsFromSteps(w, p, "", _ => Started);
    WithoutRuleOthersStay(w, p, started);
    GuardsPassWithoutRule(l);
    ReadFinds(w', p);
    forall r | r in All(Read(w', p)) && !IsCheck(r.kind)
      ensures IsKept(Read(w', p), r)
    {
      assert Found(w', p, r);
      assert Found(w, p, r);
      FoundIsRead(w, p, r);
      if !IsKept(l, r) {
        ExecuteStartsAll(w, p, r);
      }
      KeptStays(w, p, started, r);
    }
  }

  lemma NoTargetIsGoing(l: Leftovers)
    requires KindsFit(l) && forall t <- l.targets :: IsKept(l, t)
    ensures !TargetsGoing(FrontItems(l))
  {
    TargetsGoingMeaning(l);
  }

  lemma FrontKeptTargets(w: World, p: Params)
    requires KindsFit(Read(w, p)) && FrontKept(w, p)
    ensures forall t <- Read(w, p).targets :: IsKept(Read(w, p), t)
  {
  }

  /** With every target kept, a health check that isn't kept is due. */
  lemma ChecksAreDue(w: World, p: Params, r: Resource)
    requires WellFormed(w) && Read(w, p).rule.None? && FrontKept(w, p)
    requires r in All(Read(w, p)) && !IsKept(Read(w, p), r)
    ensures Owned(Read(w, p), r) && StepFor(Read(w, p), r) == Delete
  {
    ReadFinds(w, p);
    FrontKeptTargets(w, p);
    NoTargetIsGoing(Read(w, p));
  }

  /** The third execute leaves only kept resources. */
  lemma ThirdDeletesChecks(w: World, p: Params)
    requires WellFormed(w) && Read(w, p).rule.None? && FrontKept(w, p)
    ensures AllKept(Next(w, p), p)
  {
    var l, started := Read(w, p), Execute(w, p, "", _ => Started).started;
    ExecuteIsFromSteps(w, p, "", _ => Started);
    GuardsPassWithoutRule(l);
    forall r | r in All(l)
      ensures IsKept(l, r) || KeyOf(r.kind, p.region, r.name) in started
    {
      if !IsKept(l, r) {
        ChecksAreDue(w, p, r);
        ExecuteStartsAll(w, p, r);
      }
    }
    NextKeepsEverything(w, p, started);
  }

  /** If the guards pass, no backend is ever healthy, nothing is busy and nothing else changes the
      load balancer, three executes leave only what is kept, and any further ones change nothing. */
  lemma ThreeExecutesFinish(w: World, p: Params, executes: nat)
    requires WellFormed(w) && Passed(Guards(Read(w, p), "")) && executes >= 3
    ensures AllKept(After(w, p, executes), p) && After(w, p, executes) == After(w, p, 3)
  {
    AfterThree(w, p);
    KeptStaysAfter(w, p, 3, executes);
  }

  lemma AfterThree(w: World, p: Params)
    requires WellFormed(w) && Passed(Guards(Read(w, p), ""))
    ensures AllKept(After(w, p, 3), p)
  {
    FirstDeletesRule(w, p);
    SecondDeletesFront(Next(w, p), p);
    ThirdDeletesChecks(Next(Next(w, p), p), p);
    ThreeTimes(w, p);
  }

  lemma ThreeTimes(w: World, p: Params)
    ensures After(w, p, 3) == Next(Next(Next(w, p), p), p)
  {
    RepeatsThree(Executing(p), w);
  }

  lemma RepeatsThree(step: World -> World, w: World)
    ensures Repeat(step, w, 3) == step(step(step(w)))
  {
    assert Repeat(step, w, 1) == step(w);
    assert Repeat(step, w, 2) == step(step(w));
  }
}
