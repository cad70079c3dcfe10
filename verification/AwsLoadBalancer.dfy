/**
  Deleting an orphaned AWS load balancer and the target groups it leaves
  (functions/bins/lb-delete-aws/src/main.rs): first the load balancer, in a later execute the
  target groups found by their tags.
 */
module AwsLoadBalancer {
  import opened Wrappers

  type Tags = map<string, string>

  const CONTROLLER_CLUSTER_TAG := "elbv2.k8s.aws/cluster"
  const SERVICE_STACK_TAG := "service.k8s.aws/stack"
  const INGRESS_STACK_TAG := "ingress.k8s.aws/stack"
  const SERVICE_NAME_TAG := "kubernetes.io/service-name"
  const CLUSTER_TAG_PREFIX := "kubernetes.io/cluster/"
  const TAGS_BATCH: nat := 20

  datatype LoadBalancer = LoadBalancer(arn: string, tags: Tags, protected: bool, state: string)

  /** A target group with the load balancers using it and its healthy or registering targets. */
  datatype TargetGroup = TargetGroup(arn: string, tags: Tags, loadBalancers: set<string>, live: nat)

  datatype World = World(lb: Option<LoadBalancer>, groups: seq<TargetGroup>)

  datatype Params = Params(arn: string, cluster: string, service: string)

  predicate Tagged(tags: Tags, key: string, value: string) {
    key in tags && tags[key] == value
  }

  predicate Owned(tags: Tags, p: Params) {
    || (Tagged(tags, CONTROLLER_CLUSTER_TAG, p.cluster) &&
        (Tagged(tags, SERVICE_STACK_TAG, p.service) || Tagged(tags, INGRESS_STACK_TAG, p.service)))
    || (Tagged(tags, CLUSTER_TAG_PREFIX + p.cluster, "owned") && Tagged(tags, SERVICE_NAME_TAG, p.service))
  }

  /** The load balancer controller tagged the resource with the cluster and, as stack, the Service or
      Ingress, or the cloud provider did with the cluster as owner and the Service. */
  predicate CreatedFor(tags: Tags, cluster: string, service: string) {
    || (("elbv2.k8s.aws/cluster", cluster) in tags.Items &&
        (("service.k8s.aws/stack", service) in tags.Items || ("ingress.k8s.aws/stack", service) in tags.Items))
    || (("kubernetes.io/cluster/" + cluster, "owned") in tags.Items &&
        ("kubernetes.io/service-name", service) in tags.Items)
  }

  lemma TaggedMeans(tags: Tags, key: string, value: string)
    ensures Tagged(tags, key, value) <==> (key, value) in tags.Items
  {
  }

  lemma OwnedMeans(tags: Tags, p: Params)
    ensures Owned(tags, p) <==> CreatedFor(tags, p.cluster, p.service)
  {
    TaggedMeans(tags, CONTROLLER_CLUSTER_TAG, p.cluster);
    TaggedMeans(tags, SERVICE_STACK_TAG, p.service);
    TaggedMeans(tags, INGRESS_STACK_TAG, p.service);
    TaggedMeans(tags, CLUSTER_TAG_PREFIX + p.cluster, "owned");
    TaggedMeans(tags, SERVICE_NAME_TAG, p.service);
  }

  function Select(groups: seq<TargetGroup>, keep: TargetGroup -> bool): seq<TargetGroup> {
    if groups == [] then []
    else Select(groups[..|groups| - 1], keep) + if keep(groups[|groups| - 1]) then [groups[|groups| - 1]] else []
  }

  /** The groups an execute looks at: the load balancer's, or the ones left by tag. */
  function Groups(w: World, p: Params): seq<TargetGroup> {
    match w.lb
    case Some(lb) => Select(w.groups, (g: TargetGroup) => lb.arn in g.loadBalancers)
    case None => Select(w.groups, (g: TargetGroup) => Owned(g.tags, p))
  }

  datatype GuardName = Exists | ForKubernetes | DeletionProtection | InState | NoHealthyTargets | Unattached

  datatype Guard = Guard(name: GuardName, passed: bool)

  predicate Passed(guards: seq<Guard>) {
    forall g <- guards :: g.passed
  }

  predicate NoneLive(groups: seq<TargetGroup>) {
    forall g <- groups :: g.live == 0
  }

  function Evaluate(w: World, p: Params): seq<Guard> {
    var groups := Groups(w, p);
    match w.lb
    case Some(lb) =>
      [Guard(Exists, true), Guard(ForKubernetes, Owned(lb.tags, p)), Guard(DeletionProtection, !lb.protected),
       Guard(InState, lb.state != "provisioning"), Guard(NoHealthyTargets, NoneLive(groups))]
    case None =>
      if groups == [] then [Guard(Exists, false)]
      else [Guard(Exists, true), Guard(Unattached, forall g <- groups :: g.loadBalancers == {}),
            Guard(NoHealthyTargets, NoneLive(groups))]
  }

  datatype Step = DeleteLoadBalancer | DeleteTargetGroups | Nothing

  function StepOf(w: World, p: Params): Step {
    if w.lb.Some? then DeleteLoadBalancer else if Groups(w, p) != [] then DeleteTargetGroups else Nothing
  }

  /** What a done execute reports. */
  function Remaining(w: World, p: Params): bool {
    StepOf(w, p) == DeleteLoadBalancer && Groups(w, p) != []
  }

  /** The load balancer's deletion takes it out of its target groups. */
  function Unused(groups: seq<TargetGroup>, arn: string): seq<TargetGroup> {
    seq(|groups|, i requires 0 <= i < |groups| => groups[i].(loadBalancers := groups[i].loadBalancers - {arn}))
  }

  /** The world after some of the groups are deleted. */
  function Without(w: World, deleted: seq<TargetGroup>): World {
    w.(groups := Select(w.groups, (g: TargetGroup) => g !in deleted))
  }

  /** The world after an execute, once its deletions have finished. */
  function Next(w: World, p: Params): World {
    if !Passed(Evaluate(w, p)) then w
    else match StepOf(w, p)
      case DeleteLoadBalancer => World(None, Unused(w.groups, w.lb.value.arn))
      case DeleteTargetGroups => Without(w, Groups(w, p))
      case Nothing => w
  }

  lemma {:induction false} SelectMeans(groups: seq<TargetGroup>, keep: TargetGroup -> bool, g: TargetGroup)
    ensures g in Select(groups, keep) <==> g in groups && keep(g)
  {
    if groups != [] {
      SelectMeans(groups[..|groups| - 1], keep, g);
      assert groups == groups[..|groups| - 1] + [groups[|groups| - 1]];
    }
  }

  lemma SelectIsEmpty(groups: seq<TargetGroup>, keep: TargetGroup -> bool)
    ensures Select(groups, keep) == [] <==> forall g <- groups :: !keep(g)
  {
  }

  lemma GuardHolds(guards: seq<Guard>, i: nat)
    requires Passed(guards) && i < |guards|
    ensures guards[i].passed
  {
  }

  /** What an execute deletes was created for the Service in the cluster and serves nothing: the
      load balancer isn't protected and none of its targets is live; the target groups go only
      when it is gone and no load balancer uses any of them. */
  lemma OnlySafeDeletions(w: World, p: Params, g: TargetGroup)
    ensures w.lb.Some? && Next(w, p).lb.None? ==>
              CreatedFor(w.lb.value.tags, p.cluster, p.service) && !w.lb.value.protected && w.lb.value.state != "provisioning" &&
              (g in w.groups && w.lb.value.arn in g.loadBalancers ==> g.live == 0)
    ensures w.lb.None? && g in w.groups && g !in Next(w, p).groups ==>
              CreatedFor(g.tags, p.cluster, p.service) && g.loadBalancers == {} && g.live == 0
  {
    var guards := Evaluate(w, p);
    OwnedMeans(g.tags, p);
    if w.lb.Some? {
      OwnedMeans(w.lb.value.tags, p);
    }
    if Passed(guards) && w.lb.Some? {
      GuardHolds(guards, 1);
      GuardHolds(guards, 2);
      GuardHolds(guards, 3);
      GuardHolds(guards, 4);
      SelectMeans(w.groups, (g: TargetGroup) => w.lb.value.arn in g.loadBalancers, g);
    } else if Passed(guards) && Groups(w, p) != [] {
      GuardHolds(guards, 1);
      GuardHolds(guards, 2);
      SelectMeans(w.groups, (g: TargetGroup) => Owned(g.tags, p), g);
      SelectMeans(w.groups, (g: TargetGroup) => g !in Groups(w, p), g);
    }
  }

  /** The load balancer may go. */
  predicate MayGo(w: World, p: Params, lb: LoadBalancer) {
    && CreatedFor(lb.tags, p.cluster, p.service) && !lb.protected && lb.state != "provisioning"
    && forall g <- w.groups :: lb.arn in g.loadBalancers ==> g.live == 0
  }

  /** There are target groups left, and they may go. */
  predicate GroupsMayGo(w: World, p: Params) {
    && (exists g <- w.groups :: CreatedFor(g.tags, p.cluster, p.service))
    && forall g <- w.groups :: CreatedFor(g.tags, p.cluster, p.service) ==> g.loadBalancers == {} && g.live == 0
  }

  lemma GroupsMean(w: World, p: Params, g: TargetGroup)
    ensures g in Groups(w, p) <==>
            g in w.groups &&
            if w.lb.Some? then w.lb.value.arn in g.loadBalancers else CreatedFor(g.tags, p.cluster, p.service)
  {
    OwnedMeans(g.tags, p);
    match w.lb
    case Some(lb) => SelectMeans(w.groups, (g: TargetGroup) => lb.arn in g.loadBalancers, g);
    case None => SelectMeans(w.groups, (g: TargetGroup) => Owned(g.tags, p), g);
  }

  /** The guards pass exactly if what is there may go. */
  lemma GuardsMean(w: World, p: Params)
    ensures Passed(Evaluate(w, p)) <==> if w.lb.Some? then MayGo(w, p, w.lb.value) else GroupsMayGo(w, p)
  {
    var guards := Evaluate(w, p);
    forall g: TargetGroup
      ensures g in Groups(w, p) <==>
              g in w.groups &&
              if w.lb.Some? then w.lb.value.arn in g.loadBalancers else CreatedFor(g.tags, p.cluster, p.service)
    {
      GroupsMean(w, p, g);
    }
    if Groups(w, p) != [] {
      assert Groups(w, p)[0] in Groups(w, p);
    }
    if w.lb.Some? {
      OwnedMeans(w.lb.value.tags, p);
      assert guards == [guards[0], guards[1], guards[2], guards[3], guards[4]];
      assert forall i: nat :: i < 5 ==> guards[i] in guards;
    } else if Groups(w, p) != [] {
      assert guards == [guards[0], guards[1], guards[2]];
      assert forall i: nat :: i < 3 ==> guards[i] in guards;
    } else {
      assert Guard(Exists, false) in guards;
    }
  }

  /** If they pass, the load balancer goes, or once it is gone exactly the target groups created for
      the Service. */
  lemma DeletesExactly(w: World, p: Params, g: TargetGroup)
    requires Passed(Evaluate(w, p))
    ensures w.lb.Some? ==> Next(w, p).lb.None? && |Next(w, p).groups| == |w.groups|
    ensures w.lb.None? ==>
              (g in Next(w, p).groups <==> g in w.groups && !CreatedFor(g.tags, p.cluster, p.service))
  {
    GuardsMean(w, p);
    GroupsMean(w, p, g);
    if w.lb.None? {
      var x :| x in w.groups && CreatedFor(x.tags, p.cluster, p.service);
      GroupsMean(w, p, x);
      SelectMeans(w.groups, (g: TargetGroup) => g !in Groups(w, p), g);
    }
  }

  /** `remaining` looks at the groups the load balancer uses, and the next execute at the groups
      tagged for the Service. So it is right exactly if there is one of either or of neither. */
  lemma WhenRemainingIsRight(w: World, p: Params)
    requires w.lb.Some? && Passed(Evaluate(w, p))
    ensures (Remaining(w, p) <==> StepOf(Next(w, p), p) != Nothing) <==>
            ((exists g <- w.groups :: w.lb.value.arn in g.loadBalancers) <==> (exists g <- w.groups :: Owned(g.tags, p)))
  {
    var arn, after := w.lb.value.arn, Unused(w.groups, w.lb.value.arn);
    SelectIsEmpty(w.groups, (g: TargetGroup) => arn in g.loadBalancers);
    SelectIsEmpty(after, (g: TargetGroup) => Owned(g.tags, p));
    if g :| g in w.groups && Owned(g.tags, p) {
      var i :| 0 <= i < |w.groups| && w.groups[i] == g;
      assert after[i] in after;
    }
    if g :| g in after && Owned(g.tags, p) {
      var i :| 0 <= i < |after| && after[i] == g;
      assert w.groups[i] in w.groups;
    }
  }

  /** A group the load balancer doesn't use, left tagged by an earlier one, is missed. */
  lemma RemainingMissesTaggedGroups()
    ensures exists w: World, p: Params ::
              w.lb.Some? && Passed(Evaluate(w, p)) && !Remaining(w, p) && StepOf(Next(w, p), p) == DeleteTargetGroups
  {
    var p := Params("lb", "c", "s");
    var tags: Tags := map[CONTROLLER_CLUSTER_TAG := "c", SERVICE_STACK_TAG := "s"];
    var g := TargetGroup("tg", tags, {}, 0);
    var w := World(Some(LoadBalancer("lb", tags, false, "active")), [g]);
    assert Owned(tags, p);
    SelectIsEmpty(w.groups, (g: TargetGroup) => "lb" in g.loadBalancers);
    assert Groups(w, p) == [];
    WhenRemainingIsRight(w, p);
    assert g in w.groups;
  }

  /** Once the target groups are deleted, nothing tagged for the Service is left. */
  lemma SecondExecuteFinishes(w: World, p: Params)
    requires w.lb.None? && Passed(Evaluate(w, p))
    ensures StepOf(Next(w, p), p) == Nothing
  {
    var w' := Next(w, p);
    assert Groups(w, p) != [] by {
      if Groups(w, p) == [] {
        GuardHolds(Evaluate(w, p), 0);
      }
    }
    SelectIsEmpty(w'.groups, (g: TargetGroup) => Owned(g.tags, p));
    forall g | g in w'.groups
      ensures !Owned(g.tags, p)
    {
      SelectMeans(w.groups, (g: TargetGroup) => g !in Groups(w, p), g);
      SelectMeans(w.groups, (g: TargetGroup) => Owned(g.tags, p), g);
    }
  }

  /** Deletes one group after another and stops at the first that fails. */
  method DeleteGroups(groups: seq<TargetGroup>, fails: TargetGroup -> bool)
      returns (deleted: seq<TargetGroup>, ok: bool)
    ensures deleted <= groups && forall g <- deleted :: !fails(g)
    ensures if ok then deleted == groups else deleted < groups && fails(groups[|deleted|])
  {
    deleted := [];
    for i := 0 to |groups|
      invariant deleted == groups[..i] && forall g <- deleted :: !fails(g)
    {
      if fails(groups[i]) {
        return deleted, false;
      }
      deleted := deleted + [groups[i]];
    }
    return deleted, true;
  }

  /** When the deletion of the groups stopped half way, the next execute finds only the others and
      may delete them, and once it has, none tagged for the Service is left. */
  lemma RerunFinishes(w: World, p: Params, deleted: seq<TargetGroup>)
    requires w.lb.None? && Passed(Evaluate(w, p)) && deleted <= Groups(w, p)
    ensures var w' := Without(w, deleted);
            && (forall g <- Groups(w', p) :: g in Groups(w, p) && g !in deleted)
            && (Groups(w', p) != [] ==> Passed(Evaluate(w', p)) && StepOf(Next(w', p), p) == Nothing)
  {
    var w' := Without(w, deleted);
    forall g | g in Groups(w', p)
      ensures g in Groups(w, p) && g !in deleted
    {
      SelectMeans(w'.groups, (g: TargetGroup) => Owned(g.tags, p), g);
      SelectMeans(w.groups, (g: TargetGroup) => g !in deleted, g);
      SelectMeans(w.groups, (g: TargetGroup) => Owned(g.tags, p), g);
    }
    if Groups(w', p) != [] {
      assert Groups(w', p)[0] in Groups(w, p);
      GuardHolds(Evaluate(w, p), 1);
      GuardHolds(Evaluate(w, p), 2);
      SecondExecuteFinishes(w', p);
    }
  }

  // ---------------------------------------------------------------------------------------
  // Reading tags in batches.

  /** What one call answers: the tags of those of the resources that have any. */
  function Described(arns: seq<string>, tags: string -> Option<Tags>): map<string, Tags> {
    map arn <- arns | tags(arn).Some? :: tags(arn).value
  }

  /** The tags of all the resources, asked for at most twenty at a time. */
  method TagsOf(arns: seq<string>, tags: string -> Option<Tags>)
      returns (all: map<string, Tags>, batches: seq<seq<string>>)
    ensures all == Described(arns, tags)
    ensures forall b <- batches :: 1 <= |b| <= 20
    ensures |arns| <= 20 * |batches| < |arns| + 20
  {
    all, batches := map[], [];
    var next := 0;
    while next < |arns|
      invariant next <= |arns| && all == Described(arns[..next], tags)
      invariant forall b <- batches :: 1 <= |b| <= TAGS_BATCH
      invariant next <= TAGS_BATCH * |batches| < next + TAGS_BATCH
      invariant next < |arns| ==> next == TAGS_BATCH * |batches|
      decreases |arns| - next
    {
      var end := if next + TAGS_BATCH <= |arns| then next + TAGS_BATCH else |arns|;
      var batch := arns[next..end];
      assert arns[..end] == arns[..next] + batch;
      all := all + Described(batch, tags);
      batches := batches + [batch];
      next := end;
    }
    assert arns[..next] == arns;
  }
}
