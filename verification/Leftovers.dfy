/**
  What the GCP lb-frontend-delete function does with the resources a deleted LoadBalancer
  Service left (functions/go/gcp/internal/lbfrontenddelete/leftovers.go and operation.go).

  The cloud is a map of resources. A description is the JSON object it holds, if it is one. The
  names of the forwarding rules that use a target only go into texts, so `users` is the set of
  the targets they use.
 */
module Leftovers {
  import opened Wrappers
  import opened Strings

  datatype Kind = ForwardingRule | TargetPool | BackendService | HTTPHealthCheck | HealthCheck | Firewall | Address

  datatype Json = Str(value: string) | NotStr

  datatype Description = NotAnObject | Object(fields: map<string, Json>)

  datatype Resource = Resource(
    kind: Kind, name: string, selfLink: string, description: Description,
    target: string, members: seq<string>, status: string, users: seq<string>)

  datatype Key = Key(kind: Kind, region: string, name: string)

  type World = map<Key, Resource>

  const SERVICE_NAME_KEYS := ["kubernetes.io/service-name", "networking.gke.io/service-name"]
  const ADDRESS_IN_USE := "IN_USE"
  const TARGET_POOLS_PATH := "/targetPools/"
  const BACKEND_SERVICES_PATH := "/backendServices/"
  const REGIONS_PATH := "/regions/"

  predicate Regional(kind: Kind) {
    kind in {ForwardingRule, TargetPool, BackendService, Address}
  }

  function KeyOf(kind: Kind, region: string, name: string): Key {
    Key(kind, if Regional(kind) then region else "", name)
  }

  function Get(w: World, kind: Kind, region: string, name: string): Option<Resource> {
    var k := KeyOf(kind, region, name);
    if k in w then Some(w[k]) else None
  }

  /** The API reports resources under their kind and name. */
  predicate WellFormed(w: World) {
    forall k <- w :: w[k].kind == k.kind && w[k].name == k.name && (!Regional(k.kind) ==> k.region == "")
  }

  /** The targets the forwarding rules of the region point at. */
  function TargetUsers(w: World, region: string): set<string> {
    set k <- w | k.kind == ForwardingRule && k.region == region :: w[k].target
  }

  datatype Params = Params(region: string, name: string, service: string)

  datatype Leftovers = Leftovers(
    service: string,
    rule: Option<Resource>,
    targets: seq<Resource>,
    healthChecks: seq<Resource>,
    firewalls: seq<Resource>,
    address: Option<Resource>,
    ruleTarget: Option<Resource>,
    users: set<string>)

  function Present(r: Option<Resource>): seq<Resource> {
    if r.Some? then [r.value] else []
  }

  function RegionFromURL(url: string): string {
    match Find(url, REGIONS_PATH)
    case None => ""
    case Some(i) => if i + |REGIONS_PATH| <= |url| then UpTo(url[i + |REGIONS_PATH|..], '/') else ""
  }

  /** The first of the targets with the URL. */
  function WithLink(targets: seq<Resource>, url: string): Option<Resource> {
    if targets == [] then None
    else if targets[0].selfLink == url then Some(targets[0])
    else WithLink(targets[1..], url)
  }

  /** What the forwarding rule points at, which may be another load balancer's. */
  function RuleTarget(w: World, targets: seq<Resource>, url: string): Option<Resource> {
    if WithLink(targets, url).Some? then WithLink(targets, url)
    else if Contains(url, TARGET_POOLS_PATH) then Get(w, TargetPool, RegionFromURL(url), AfterLast(url, '/'))
    else if Contains(url, BACKEND_SERVICES_PATH) then Get(w, BackendService, RegionFromURL(url), AfterLast(url, '/'))
    else None
  }

  function Targets(w: World, p: Params): seq<Resource> {
    Present(Get(w, TargetPool, p.region, p.name)) + Present(Get(w, BackendService, p.region, p.name))
  }

  function FirewallNames(name: string): (string, string) {
    ("k8s-fw-" + name, "k8s-" + name + "-http-hc")
  }

  /** Everything the cloud provider creates for the load balancer that still exists. */
  function Read(w: World, p: Params): Leftovers {
    var rule := Get(w, ForwardingRule, p.region, p.name);
    var targets := Targets(w, p);
    var (f1, f2) := FirewallNames(p.name);
    Leftovers(
      p.service, rule, targets,
      Present(Get(w, HTTPHealthCheck, p.region, p.name)) + Present(Get(w, HealthCheck, p.region, p.name)),
      Present(Get(w, Firewall, p.region, f1)) + Present(Get(w, Firewall, p.region, f2)),
      Get(w, Address, p.region, p.name),
      if rule.Some? then RuleTarget(w, targets, rule.value.target) else None,
      if rule.None? && targets != [] then TargetUsers(w, p.region) else {})
  }

  /** The Service a description names, or the empty string. */
  function DescribedService(d: Description, keys: seq<string>): string {
    if d.NotAnObject? || keys == [] then ""
    else if keys[0] in d.fields && d.fields[keys[0]].Str? then d.fields[keys[0]].value
    else DescribedService(d, keys[1..])
  }

  predicate Owned(l: Leftovers, r: Resource) {
    DescribedService(r.description, SERVICE_NAME_KEYS) == l.service
  }

  predicate Empty(l: Leftovers) {
    l.rule.None? && l.targets == [] && l.healthChecks == [] && l.firewalls == [] && l.address.None?
  }

  /** The target whose backends must not be healthy. */
  function HealthTarget(l: Leftovers): Option<Resource> {
    if l.ruleTarget.Some? then l.ruleTarget
    else if l.targets != [] then Some(l.targets[0])
    else None
  }

  datatype GuardName = Exists | Service | ServiceLoadBalancer | NoHealthyBackends

  datatype Guard = Guard(name: GuardName, passed: bool)

  function Guards(l: Leftovers, healthy: string): seq<Guard> {
    if Empty(l) then [Guard(Exists, false)]
    else
      [Guard(Exists, true)] +
      (match l.rule
       case None => [Guard(Service, true)]
       case Some(rule) =>
         [Guard(Service, Owned(l, rule)),
          Guard(ServiceLoadBalancer,
                Contains(rule.target, TARGET_POOLS_PATH) || Contains(rule.target, BACKEND_SERVICES_PATH))]) +
      [Guard(NoHealthyBackends, HealthTarget(l).None? || healthy == "")]
  }

  predicate Passed(guards: seq<Guard>) {
    forall g <- guards :: g.passed
  }

  // ---------------------------------------------------------------------------------------
  // What happens to each resource.

  datatype Step = Delete | Deleting | Waiting | Later | Keep

  datatype Item = Item(kind: Kind, name: string, step: Step)

  function Decide(l: Leftovers, r: Resource, step: Step): Item {
    Item(r.kind, r.name, if Owned(l, r) then step else Keep)
  }

  function AfterRule(l: Leftovers): Step {
    if l.rule.Some? then Later else Delete
  }

  function TargetStep(l: Leftovers, r: Resource): Step {
    if r.selfLink in l.users && AfterRule(l) == Delete then Keep else AfterRule(l)
  }

  function AddressStep(l: Leftovers, r: Resource): Step {
    if r.status == ADDRESS_IN_USE && AfterRule(l) == Delete then Keep else AfterRule(l)
  }

  function TargetItems(l: Leftovers): seq<Item> {
    seq(|l.targets|, i requires 0 <= i < |l.targets| => Decide(l, l.targets[i], TargetStep(l, l.targets[i])))
  }

  function FirewallItems(l: Leftovers): seq<Item> {
    seq(|l.firewalls|, i requires 0 <= i < |l.firewalls| => Decide(l, l.firewalls[i], AfterRule(l)))
  }

  /** The steps of everything but the health checks. */
  function FrontItems(l: Leftovers): seq<Item> {
    (if l.rule.Some? then [Decide(l, l.rule.value, Delete)] else []) +
    TargetItems(l) + FirewallItems(l) +
    (if l.address.Some? then [Decide(l, l.address.value, AddressStep(l, l.address.value))] else [])
  }

  predicate TargetsGoing(items: seq<Item>) {
    exists i <- items :: (i.kind == TargetPool || i.kind == BackendService) && i.step != Keep
  }

  function CheckStep(l: Leftovers, items: seq<Item>): Step {
    if l.rule.Some? || TargetsGoing(items) then Later
    else if l.targets != [] then Keep
    else Delete
  }

  function CheckItems(l: Leftovers, items: seq<Item>): seq<Item> {
    seq(|l.healthChecks|, i requires 0 <= i < |l.healthChecks| => Decide(l, l.healthChecks[i], CheckStep(l, items)))
  }

  function Steps(l: Leftovers): seq<Item> {
    FrontItems(l) + CheckItems(l, FrontItems(l))
  }

  predicate Remaining(items: seq<Item>, pending: set<Step>) {
    exists i <- items :: i.step in pending
  }

  // ---------------------------------------------------------------------------------------
  // One execute.

  /** What Compute Engine answers to a deletion. */
  datatype Reply = Started | Busy | Failed

  datatype Acted = Acted(items: seq<Item>, started: seq<Key>, ok: bool)

  /** What the item says after its deletion was asked for, if it is to be deleted. */
  function Ended(item: Item, reply: Reply): Item {
    if item.step != Delete || reply == Failed then item
    else item.(step := if reply == Started then Deleting else Waiting)
  }

  function StartedKeys(item: Item, region: string, reply: Reply): seq<Key> {
    if item.step == Delete && reply == Started then [KeyOf(item.kind, region, item.name)] else []
  }

  /** The deletions of the items up to the first that fails, each at its own position. */
  function Act(items: seq<Item>, region: string, replies: nat -> Reply): Acted {
    if items == [] then Acted([], [], true)
    else
      var n := |items| - 1;
      var front, item := Act(items[..n], region, replies), items[n];
      if !front.ok then front.(items := front.items + [item])
      else Acted(front.items + [Ended(item, replies(n))],
                 front.started + StartedKeys(item, region, replies(n)),
                 item.step != Delete || replies(n) != Failed)
  }

  datatype Outcome =
    | Planned(items: seq<Item>, remaining: bool)
    | Refused(items: seq<Item>, remaining: bool)
    | Done(items: seq<Item>, remaining: bool)
    | Error

  datatype Executed = Executed(outcome: Outcome, started: seq<Key>)

  /** What a plan answers. */
  function Plan(w: World, p: Params): Outcome {
    var items := Steps(Read(w, p));
    Planned(items, Remaining(items, {Delete, Later}))
  }

  /** One execute, given the healthy backend it found, if any. */
  function Execute(w: World, p: Params, healthy: string, replies: nat -> Reply): Executed {
    var l := Read(w, p);
    if !Passed(Guards(l, healthy)) then Executed(Refused(Steps(l), Remaining(Steps(l), {Delete, Later})), [])
    else
      var acted := Act(Steps(l), p.region, replies);
      Executed(if acted.ok then Done(acted.items, Remaining(acted.items, {Waiting, Later})) else Error, acted.started)
  }

  /** A forwarding rule that is gone no longer uses its address. */
  function Freed(r: Resource, gone: set<string>): Resource {
    if r.kind != Address || !exists u <- r.users :: u in gone then r
    else
      var users := Without(r.users, gone);
      r.(users := users, status := if users == [] then "RESERVED" else r.status)
  }

  function Without(users: seq<string>, gone: set<string>): seq<string> {
    if users == [] then []
    else (if users[0] in gone then [] else [users[0]]) + Without(users[1..], gone)
  }

  /** The cloud once the deletions have finished. */
  function Settle(w: World, started: seq<Key>): World {
    var gone := set k <- started | k in w && k.kind == ForwardingRule :: w[k].selfLink;
    map k <- w | k !in started :: Freed(w[k], gone)
  }

  // ---------------------------------------------------------------------------------------
  // The loops of the function, which compute what is defined above.

  method ReadLoops(w: World, p: Params) returns (l: Leftovers)
    ensures l == Read(w, p)
  {
    var rule := Get(w, ForwardingRule, p.region, p.name);
    var targets, healthChecks, firewalls: seq<Resource> := [], [], [];
    for i := 0 to 2
      invariant i == 0 ==> targets == []
      invariant i == 1 ==> targets == Present(Get(w, TargetPool, p.region, p.name))
      invariant i == 2 ==> targets == Targets(w, p)
    {
      var target := Get(w, [TargetPool, BackendService][i], p.region, p.name);
      if target.Some? {
        targets := targets + [target.value];
      }
    }
    for i := 0 to 2
      invariant i == 0 ==> healthChecks == []
      invariant i >= 1 ==> healthChecks == Present(Get(w, HTTPHealthCheck, p.region, p.name)) +
                                           if i == 2 then Present(Get(w, HealthCheck, p.region, p.name)) else []
    {
      var check := Get(w, [HTTPHealthCheck, HealthCheck][i], p.region, p.name);
      if check.Some? {
        healthChecks := healthChecks + [check.value];
      }
    }
    var names := FirewallNames(p.name);
    for i := 0 to 2
      invariant i == 0 ==> firewalls == []
      invariant i >= 1 ==> firewalls == Present(Get(w, Firewall, p.region, names.0)) +
                                        if i == 2 then Present(Get(w, Firewall, p.region, names.1)) else []
    {
      var firewall := Get(w, Firewall, p.region, [names.0, names.1][i]);
      if firewall.Some? {
        firewalls := firewalls + [firewall.value];
      }
    }
    var address := Get(w, Address, p.region, p.name);
    var ruleTarget: Option<Resource>, users: set<string> := None, {};
    if rule.Some? {
      ruleTarget := RuleTarget(w, targets, rule.value.target);
    } else if |targets| > 0 {
      users := TargetUsers(w, p.region);
    }
    l := Leftovers(p.service, rule, targets, healthChecks, firewalls, address, ruleTarget, users);
  }

  method StepsLoops(l: Leftovers) returns (items: seq<Item>)
    ensures items == Steps(l)
  {
    items := [];
    if l.rule.Some? {
      items := items + [Decide(l, l.rule.value, Delete)];
    }
    ghost var before := items;
    for i := 0 to |l.targets|
      invariant items == before + TargetItems(l)[..i]
    {
      items := items + [Decide(l, l.targets[i], TargetStep(l, l.targets[i]))];
    }
    for i := 0 to |l.firewalls|
      invariant items == before + TargetItems(l) + FirewallItems(l)[..i]
    {
      items := items + [Decide(l, l.firewalls[i], AfterRule(l))];
    }
    if l.address.Some? {
      items := items + [Decide(l, l.address.value, AddressStep(l, l.address.value))];
    }
    assert items == FrontItems(l);
    var checks: seq<Item> := [];
    for i := 0 to |l.healthChecks|
      invariant checks == CheckItems(l, FrontItems(l))[..i]
    {
      checks := checks + [Decide(l, l.healthChecks[i], CheckStep(l, items))];
    }
    items := items + checks;
  }

  /** Asks for the deletion of one item and records the outcome in it. */
  method DeleteItem(items: array<Item>, i: nat, region: string, reply: Reply) returns (started: seq<Key>, ok: bool)
    requires i < items.Length && items[i].step == Delete
    modifies items
    ensures items[..] == old(items[..])[i := Ended(old(items[i]), reply)]
    ensures started == StartedKeys(old(items[i]), region, reply) && ok == (reply != Failed)
  {
    match reply
    case Started =>
      started, ok := [KeyOf(items[i].kind, region, items[i].name)], true;
      items[i] := items[i].(step := Deleting);
    case Busy =>
      started, ok := [], true;
      items[i] := items[i].(step := Waiting);
    case Failed =>
      started, ok := [], false;
  }

  /** The deletion loop, which records each outcome in the item it is about. */
  method DeleteLoop(items: array<Item>, region: string, replies: nat -> Reply)
      returns (started: seq<Key>, ok: bool)
    modifies items
    ensures Acted(items[..], started, ok) == Act(old(items[..]), region, replies)
  {
    started, ok := [], true;
    ghost var was, done: seq<Item> := items[..], [];
    for i := 0 to items.Length
      invariant ok && |done| == i && items[..] == done + was[i..]
      invariant Act(was[..i], region, replies) == Acted(done, started, true)
    {
      ActNext(was, i, region, replies);
      ReplaceNext(done, was, i, Ended(was[i], replies(i)));
      assert items[i] == items[..][i] == was[i];
      if items[i].step == Delete {
        var keys, deleted := DeleteItem(items, i, region, replies(i));
        started, ok := started + keys, deleted;
      }
      done := done + [Ended(was[i], replies(i))];
      if !ok {
        ActStops(was, i + 1, region, replies);
        return;
      }
    }
    assert was[..|was|] == was;
  }

  lemma ReplaceNext(done: seq<Item>, was: seq<Item>, i: nat, item: Item)
    requires |done| == i < |was|
    ensures (done + was[i..])[i := item] == done + [item] + was[i + 1..]
    ensures item == was[i] ==> done + was[i..] == done + [item] + was[i + 1..]
  {
  }

  lemma ActNext(items: seq<Item>, i: nat, region: string, replies: nat -> Reply)
    requires i < |items| && Act(items[..i], region, replies).ok
    ensures var a := Act(items[..i], region, replies);
            Act(items[..i + 1], region, replies) ==
            Acted(a.items + [Ended(items[i], replies(i))],
                  a.started + StartedKeys(items[i], region, replies(i)),
                  items[i].step != Delete || replies(i) != Failed)
  {
    assert items[..i + 1][..i] == items[..i];
  }

  lemma {:induction false} ActStops(items: seq<Item>, i: nat, region: string, replies: nat -> Reply)
    requires i <= |items| && !Act(items[..i], region, replies).ok
    ensures var a := Act(items[..i], region, replies);
            Act(items, region, replies) == a.(items := a.items + items[i..])
    decreases |items|
  {
    if i == |items| {
      assert items[..i] == items;
    } else {
      var n := |items| - 1;
      assert items[..n][..i] == items[..i];
      ActStops(items[..n], i, region, replies);
      assert items[i..] == items[i..n] + [items[n]];
      assert items[..n][i..] == items[i..n];
    }
  }

  /** One invocation against a cloud that starts or refuses each deletion. */
  method Run(w: World, p: Params, plan: bool, healthy: string, replies: nat -> Reply) returns (e: Executed)
    ensures e == if plan then Executed(Plan(w, p), []) else Execute(w, p, healthy, replies)
  {
    var l := ReadLoops(w, p);
    var items := StepsLoops(l);
    if plan || !Passed(Guards(l, healthy)) {
      var remaining := Remaining(items, {Delete, Later});
      return Executed(if plan then Planned(items, remaining) else Refused(items, remaining), []);
    }
    var steps := new Item[|items|](i requires 0 <= i < |items| => items[i]);
    assert steps[..] == items;
    var started, ok := DeleteLoop(steps, p.region, replies);
    return Executed(if ok then Done(steps[..], Remaining(steps[..], {Waiting, Later})) else Error, started);
  }
}
