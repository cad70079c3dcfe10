/**
  Executes of the Azure lb-frontend-delete function among other writers
  (functions/bins/lb-frontend-delete-azure/src/main.rs:211-286). An execute reads the load balancer
  and then the public IP, and its one change carries the ETag, if any, of what it changes.
 */
module AzureLoadBalancerRuns {
  import opened Wrappers
  import opened ResourceIds
  import opened AzureLoadBalancer
  import opened AzureLoadBalancerSteps

  /** Azure, with a count of the writes of each resource: an ETag stands for one count. */
  datatype Azure = Azure(world: World, lbEtag: nat, pipEtag: nat)

  /** Another writer's change, or the write of an execute that read `read` and the rules' health. */
  datatype Event = Other(world: World) | Change(read: Azure, up: Ups)

  function PlanOf(read: Azure, p: Params, up: Ups, space: Spaces): Plan {
    Evaluate(read.world, p, HealthOf(read.world, p, up), space)
  }

  predicate ChangesLoadBalancer(step: Step) {
    step == RemoveFrontend || step == DeleteLoadBalancer
  }

  /** Whether what the step changes was reported with its ETag. */
  predicate HasEtag(step: Step, w: World) {
    if ChangesLoadBalancer(step) then w.lb.Some? && w.lb.value.etag.Some?
    else w.pip.Some? && w.pip.value.etag.Some?
  }

  /** Whether the write goes through: what it changes still has the ETag read, or none was read. */
  predicate Applies(step: Step, read: Azure, a: Azure) {
    && step != Nothing
    && (HasEtag(step, read.world) ==>
          if ChangesLoadBalancer(step) then a.lbEtag == read.lbEtag else a.pipEtag == read.pipEtag)
  }

  /** What the write is made to: its own copy of the load balancer, as the PUT replaces it. */
  function Written(step: Step, read: Azure, a: Azure): World {
    World(if ChangesLoadBalancer(step) then read.world.lb else a.world.lb, a.world.pip)
  }

  ghost predicate Happens(a: Azure, p: Params, space: Spaces, e: Event, a': Azure) {
    match e
    case Other(world) =>
      && a'.world == world
      && (if world.lb == a.world.lb then a'.lbEtag >= a.lbEtag else a'.lbEtag > a.lbEtag)
      && (if world.pip == a.world.pip then a'.pipEtag >= a.pipEtag else a'.pipEtag > a.pipEtag)
    case Change(read, up) =>
      var plan := PlanOf(read, p, up, space);
      if !Safe(plan.guards) || !Applies(plan.step, read, a) then a' == a
      else
        && a'.lbEtag > a.lbEtag && a'.pipEtag > a.pipEtag
        && Finished(Written(plan.step, read, a), p, plan.step, a'.world)
  }

  /** The load balancer and the public IP were read before, if not at once: what still has its count
      is as it was. */
  predicate ReadBefore(read: Azure, a: Azure) {
    && read.lbEtag <= a.lbEtag && (read.lbEtag == a.lbEtag ==> read.world.lb == a.world.lb)
    && read.pipEtag <= a.pipEtag && (read.pipEtag == a.pipEtag ==> read.world.pip == a.world.pip)
  }

  lemma HappeningKeepsReads(a: Azure, p: Params, space: Spaces, e: Event, a': Azure)
    requires Happens(a, p, space, e, a')
    ensures ReadBefore(a, a')
  {
  }

  /** The load balancer is that of one state and the public IP that of another. */
  predicate TakenFrom(read: Azure, first: Azure, second: Azure) {
    && read.world.lb == first.world.lb && read.lbEtag == first.lbEtag
    && read.world.pip == second.world.pip && read.pipEtag == second.pipEtag
  }

  ghost predicate WasRead(states: seq<Azure>, read: Azure, i: nat)
    requires i < |states|
  {
    exists j, k :: 0 <= j <= k <= i && TakenFrom(read, states[j], states[k])
  }

  /** A run of other writers and of executes that each read the load balancer of some earlier state
      and the public IP of the same or a later one. */
  ghost predicate IsRun(states: seq<Azure>, events: seq<Event>, p: Params, space: Spaces) {
    && |states| == |events| + 1
    && forall i :: 0 <= i < |events| ==>
         && Happens(states[i], p, space, events[i], states[i + 1])
         && (events[i].Change? ==> WasRead(states, events[i].read, i))
  }

  ghost predicate IsChain(states: seq<Azure>) {
    forall i :: 0 <= i < |states| - 1 ==> ReadBefore(states[i], states[i + 1])
  }

  lemma {:induction false} ReadsStayBefore(states: seq<Azure>, j: nat, i: nat)
    requires IsChain(states) && j <= i < |states|
    ensures ReadBefore(states[j], states[i])
  {
    if j < i {
      ReadsStayBefore(states, j, i - 1);
      assert ReadBefore(states[i - 1], states[i - 1 + 1]);
    }
  }

  /** A state read stays read before every later one. */
  lemma EarlierStatesWereRead(states: seq<Azure>, events: seq<Event>, p: Params, space: Spaces, j: nat, i: nat)
    requires IsRun(states, events, p, space) && j <= i < |states|
    ensures ReadBefore(states[j], states[i])
  {
    forall n | 0 <= n < |states| - 1
      ensures ReadBefore(states[n], states[n + 1])
    {
      HappeningKeepsReads(states[n], p, space, events[n], states[n + 1]);
    }
    ReadsStayBefore(states, j, i);
  }

  // ---------------------------------------------------------------------------------------
  // A write hits what was read.

  /** A load balancer written or deleted was, at that moment, exactly as the guards found it, and so
      was a public IP deleted. */
  predicate ChangesWhatWasRead(a: Azure, read: Azure, plan: Plan, a': Azure) {
    && (a'.world.lb != a.world.lb ==>
          Safe(plan.guards) && ChangesLoadBalancer(plan.step) && a.world.lb == read.world.lb)
    && (a.world.pip.Some? && a'.world.pip.None? ==>
          Safe(plan.guards) && plan.step == DeletePublicIp && a.world.pip == read.world.pip)
  }

  lemma WithEtagChangesWhatWasRead(a: Azure, read: Azure, p: Params, up: Ups, space: Spaces, a': Azure)
    requires ReadBefore(read, a) && Happens(a, p, space, Change(read, up), a')
    requires HasEtag(PlanOf(read, p, up, space).step, read.world)
    ensures ChangesWhatWasRead(a, read, PlanOf(read, p, up, space), a')
  {
  }

  /** Without an ETag the load balancer as read overwrites another, or takes it away. */
  lemma UnconditionalOverwrites(read: Azure, p: Params, up: Ups, space: Spaces) returns (a: Azure, a': Azure)
    requires var plan := PlanOf(read, p, up, space);
             Safe(plan.guards) && ChangesLoadBalancer(plan.step) && !HasEtag(plan.step, read.world)
    ensures ReadBefore(read, a) && Happens(a, p, space, Change(read, up), a')
    ensures !ChangesWhatWasRead(a, read, PlanOf(read, p, up, space), a')
  {
    var plan, lb := PlanOf(read, p, up, space), read.world.lb.value;
    var other := lb.(rest := lb.rest + "x");
    assert |other.rest| > |lb.rest|;
    a := Azure(World(Some(other), read.world.pip), read.lbEtag + 1, read.pipEtag);
    var left := if plan.step == RemoveFrontend then Some(WithoutFrontend(lb, p.lbId, p.frontend)) else None;
    a' := Azure(World(left, read.world.pip), read.lbEtag + 2, read.pipEtag + 1);
  }

  /** Without an ETag a public IP is deleted that isn't the Service's any more. */
  lemma UnconditionalDeletes(read: Azure, p: Params, up: Ups, space: Spaces) returns (a: Azure, a': Azure)
    requires var plan := PlanOf(read, p, up, space);
             Safe(plan.guards) && plan.step == DeletePublicIp && !HasEtag(plan.step, read.world)
    ensures ReadBefore(read, a) && Happens(a, p, space, Change(read, up), a')
    ensures !ChangesWhatWasRead(a, read, PlanOf(read, p, up, space), a')
  {
    PublicIpIsTheServices(read.world, p, HealthOf(read.world, p, up), space);
    var pip := read.world.pip.value;
    a := Azure(World(read.world.lb, Some(pip.(serviceTag := None))), read.lbEtag, read.pipEtag + 1);
    a' := Azure(World(read.world.lb, None), read.lbEtag + 1, read.pipEtag + 2);
  }

  /** Whatever others change after an execute's reads, its write only hits what was read exactly if
      what it changes was reported with its ETag. */
  lemma WhenWritesHitWhatWasRead(read: Azure, p: Params, up: Ups, space: Spaces)
    requires var plan := PlanOf(read, p, up, space); Safe(plan.guards) && plan.step != Nothing
    ensures (forall a, a' | ReadBefore(read, a) && Happens(a, p, space, Change(read, up), a') ::
               ChangesWhatWasRead(a, read, PlanOf(read, p, up, space), a'))
            <==> if PlanOf(read, p, up, space).step == DeletePublicIp then
                   read.world.pip.Some? && read.world.pip.value.etag.Some?
                 else read.world.lb.Some? && read.world.lb.value.etag.Some?
  {
    var plan := PlanOf(read, p, up, space);
    if HasEtag(plan.step, read.world) {
      forall a, a' | ReadBefore(read, a) && Happens(a, p, space, Change(read, up), a')
        ensures ChangesWhatWasRead(a, read, plan, a')
      {
        WithEtagChangesWhatWasRead(a, read, p, up, space, a');
      }
    } else if ChangesLoadBalancer(plan.step) {
      var a, a' := UnconditionalOverwrites(read, p, up, space);
    } else {
      var a, a' := UnconditionalDeletes(read, p, up, space);
    }
  }

  // ---------------------------------------------------------------------------------------
  // What every run keeps to, if the ETags are reported.

  predicate IsChange(events: seq<Event>, i: nat, p: Params, space: Spaces) {
    && i < |events| && events[i].Change?
    && HasEtag(PlanOf(events[i].read, p, events[i].up, space).step, events[i].read.world)
  }

  /** However executes and other writers interleave, no concurrent update is overwritten. */
  lemma NoUpdateIsOverwritten(states: seq<Azure>, events: seq<Event>, p: Params, space: Spaces, i: nat)
    requires IsRun(states, events, p, space) && IsChange(events, i, p, space)
    ensures ChangesWhatWasRead(states[i], events[i].read, PlanOf(events[i].read, p, events[i].up, space), states[i + 1])
  {
    var read := events[i].read;
    var j, k :| 0 <= j <= k <= i && TakenFrom(read, states[j], states[k]);
    EarlierStatesWereRead(states, events, p, space, j, i);
    EarlierStatesWereRead(states, events, p, space, k, i);
    WithEtagChangesWhatWasRead(states[i], read, p, events[i].up, space, states[i + 1]);
  }

  /** A public IP that an execute deletes is, at that moment, tagged with exactly the Service and not
      in use, and its load balancer was read without the frontend before. */
  lemma DeletesOnlyTheServicesIp(states: seq<Azure>, events: seq<Event>, p: Params, space: Spaces, i: nat)
    requires IsRun(states, events, p, space) && IsChange(events, i, p, space)
    requires states[i].world.pip.Some? && states[i + 1].world.pip.None?
    ensures var pip := states[i].world.pip.value;
            TagListsOnly(pip, p.service, space) && pip.ipConfiguration.None?
    ensures exists j :: 0 <= j <= i && FrontendIsGone(states[j].world, p)
  {
    var e := events[i];
    NoUpdateIsOverwritten(states, events, p, space, i);
    PublicIpIsTheServices(e.read.world, p, HealthOf(e.read.world, p, e.up), space);
    ServicesMean(states[i].world.pip.value, p.service, space);
    var j, k :| 0 <= j <= k <= i && TakenFrom(e.read, states[j], states[k]);
    assert FrontendIsGone(states[j].world, p);
  }

  predicate FrontendIsGone(w: World, p: Params) {
    w.lb.Some? ==> FindFrontend(w.lb.value.frontends, p.frontend).None?
  }

  /** The load balancer may lose the frontend, with a public IP as it was when read. */
  ghost predicate RemovableThen(states: seq<Azure>, i: nat, p: Params, up: Ups, space: Spaces)
    requires i < |states|
  {
    && states[i].world.lb.Some?
    && exists k :: 0 <= k <= i && Removable(states[i].world.lb.value, states[k].world.pip, p, up, space)
  }

  /** A load balancer that an execute changes or deletes is, at that moment, idle, the frontend isn't
      used by outbound or NAT rules, its rules are named after it and reported without healthy
      backends, and its public IP was read as the Service's alone. */
  lemma ChangesOnlyWhatIsRemovable(states: seq<Azure>, events: seq<Event>, p: Params, space: Spaces, i: nat)
    requires IsRun(states, events, p, space) && IsChange(events, i, p, space)
    requires states[i + 1].world.lb != states[i].world.lb
    ensures RemovableThen(states, i, p, events[i].up, space)
  {
    var e := events[i];
    NoUpdateIsOverwritten(states, events, p, space, i);
    GuardedIsRemovable(e.read.world, p, e.up, space);
    var j, k :| 0 <= j <= k <= i && TakenFrom(e.read, states[j], states[k]);
    assert Removable(states[i].world.lb.value, states[k].world.pip, p, e.up, space);
  }

  /** The whole load balancer only goes with its one frontend, the Service's, and no pool member. */
  lemma DeletesOnlyAnUnusedLoadBalancer(states: seq<Azure>, events: seq<Event>, p: Params, space: Spaces, i: nat)
    requires IsRun(states, events, p, space) && IsChange(events, i, p, space)
    requires states[i].world.lb.Some? && states[i + 1].world.lb.None?
    ensures var lb := states[i].world.lb.value;
            |lb.frontends| == 1 && Named(lb.frontends[0].name) == Lower(p.frontend) && !HasMembers(lb.pools)
    ensures RemovableThen(states, i, p, events[i].up, space)
  {
    var e := events[i];
    NoUpdateIsOverwritten(states, events, p, space, i);
    ChangesOnlyWhatIsRemovable(states, events, p, space, i);
    assert PlanOf(e.read, p, e.up, space).step == DeleteLoadBalancer;
    LoadBalancerIsUnused(e.read.world, p, HealthOf(e.read.world, p, e.up), space);
  }

  /** Any other change of the load balancer takes out the frontend and what goes with it of what was
      there at that moment, and leaves another frontend or a pool member. */
  lemma RemovesOnlyAnUnusedFrontend(states: seq<Azure>, events: seq<Event>, p: Params, space: Spaces, i: nat)
    requires IsRun(states, events, p, space) && IsChange(events, i, p, space)
    requires states[i + 1].world.lb.Some? && states[i + 1].world.lb != states[i].world.lb
    ensures RemovableThen(states, i, p, events[i].up, space)
    ensures states[i + 1].world.lb.value.(etag := None) ==
            WithoutFrontend(states[i].world.lb.value, p.lbId, p.frontend)
    ensures |states[i].world.lb.value.frontends| != 1
  {
    NoUpdateIsOverwritten(states, events, p, space, i);
    ChangesOnlyWhatIsRemovable(states, events, p, space, i);
  }

  // ---------------------------------------------------------------------------------------
  // One invocation, step by step.

  datatype Outcome = Planned | Refused | Done | Error

  /** What else ends a write well: there was nothing to do, or what was to be deleted is gone. */
  predicate NothingToWrite(step: Step, w: World) {
    step == Nothing || (step == DeleteLoadBalancer && w.lb.None?) || (step == DeletePublicIp && w.pip.None?)
  }

  class Network {
    var world: World
    var lbEtag: nat
    var pipEtag: nat

    constructor (world: World)
      ensures this.world == world
    {
      this.world, lbEtag, pipEtag := world, 0, 0;
    }

    function State(): Azure
      reads this
    {
      Azure(world, lbEtag, pipEtag)
    }

    /** Another writer's change, if there is one. */
    method Interfere(change: Option<World>, p: Params, space: Spaces)
      modifies this
      ensures change.None? ==> State() == old(State())
      ensures change.Some? ==> Happens(old(State()), p, space, Other(change.value), State())
    {
      if change.Some? {
        world, lbEtag, pipEtag := change.value, lbEtag + 1, pipEtag + 1;
      }
    }

    /** Azure applies a write of the load balancer: it reports a new ETag, and whatever still uses
        the public IP. */
    method PutLoadBalancer(lb: Option<LoadBalancer>, etag: string, user: Option<string>)
      modifies this
      ensures lbEtag > old(lbEtag) && pipEtag > old(pipEtag)
      ensures world == World(match lb case None => None case Some(body) => Some(body.(etag := Some(etag))),
                             match old(world.pip) case None => None case Some(ip) => Some(ip.(ipConfiguration := user)))
    {
      world := World(match lb case None => None case Some(body) => Some(body.(etag := Some(etag))),
                     match world.pip case None => None case Some(ip) => Some(ip.(ipConfiguration := user)));
      lbEtag, pipEtag := lbEtag + 1, pipEtag + 1;
    }

    method BuildBody(lb: LoadBalancer, p: Params) returns (value: LoadBalancer)
      ensures value == WithoutFrontend(lb, p.lbId, p.frontend)
    {
      var body := new Body(lb);
      body.RemoveFrontend(p.lbId, p.frontend);
      value := body.Value();
    }

    /** The write of a step whose guards passed. */
    method Write(read: Azure, p: Params, up: Ups, space: Spaces, etag: string, user: Option<string>)
        returns (outcome: Outcome)
      requires Safe(PlanOf(read, p, up, space).guards)
      modifies this
      ensures Happens(old(State()), p, space, Change(read, up), State())
      ensures var step := PlanOf(read, p, up, space).step;
              outcome == if Applies(step, read, old(State())) || step == Nothing ||
                            (step == DeleteLoadBalancer && old(world).lb.None?) ||
                            (step == DeletePublicIp && old(world).pip.None?) then Done else Error
    {
      var step := PlanOf(read, p, up, space).step;
      if !Applies(step, read, State()) {
        return if NothingToWrite(step, world) then Done else Error;
      }
      match step {
        case RemoveFrontend =>
          var body := BuildBody(read.world.lb.value, p);
          PutLoadBalancer(Some(body), etag, user);
        case DeleteLoadBalancer =>
          PutLoadBalancer(None, etag, user);
        case DeletePublicIp =>
          world, lbEtag, pipEtag := world.(pip := None), lbEtag + 1, pipEtag + 1;
      }
      return Done;
    }

    /** One invocation, with what others change between its two reads, and between those and its
        write. `read` is what it read, `mid` what it left of the reads and `before` what its write
        finds. Deleting what is already gone is no error. */
    method Handle(plan: bool, p: Params, up: Ups, space: Spaces, between: Option<World>, change: Option<World>,
                  etag: string, user: Option<string>)
        returns (outcome: Outcome, ghost read: Azure, ghost mid: Azure, ghost before: Azure)
      modifies this
      ensures if between.None? then mid == old(State()) else Happens(old(State()), p, space, Other(between.value), mid)
      ensures TakenFrom(read, old(State()), mid)
      ensures plan || !Safe(PlanOf(read, p, up, space).guards) ==>
                State() == mid && outcome == if plan then Planned else Refused
      ensures !plan && Safe(PlanOf(read, p, up, space).guards) ==>
                var step := PlanOf(read, p, up, space).step;
                && (if change.None? then before == mid else Happens(mid, p, space, Other(change.value), before))
                && Happens(before, p, space, Change(read, up), State())
                && outcome == if Applies(step, read, before) || step == Nothing ||
                                 (step == DeleteLoadBalancer && before.world.lb.None?) ||
                                 (step == DeletePublicIp && before.world.pip.None?) then Done else Error
    {
      var lb, etagOfLb := world.lb, lbEtag;
      Interfere(between, p, space);
      var held := Azure(World(lb, world.pip), etagOfLb, pipEtag);
      read, mid, before := held, State(), State();
      var health: Health := map[];
      if lb.Some? {
        health := ReadHealth(lb.value, p.lbId, p.frontend, up);
      }
      var decision := Evaluate(held.world, p, health, space);
      assert decision == PlanOf(held, p, up, space);
      if plan || !Safe(decision.guards) {
        return if plan then Planned else Refused, read, mid, before;
      }
      Interfere(change, p, space);
      before := State();
      outcome := Write(held, p, up, space, etag, user);
    }
  }
}
