/**
  Removing a Service's frontend from an Azure load balancer
  (functions/bins/lb-frontend-delete-azure/src/main.rs).

  Each JSON item is its name, the references the function reads, and the `rest`. Names and IDs
  are compared in ASCII lower case.
 */
module AzureLoadBalancer {
  import opened Wrappers
  import opened Strings
  import opened ResourceIds

  datatype Frontend = Frontend(
    name: Option<string>, publicIp: Option<string>,
    outboundRules: seq<string>, natRules: seq<string>, natPools: seq<string>, rest: string)

  datatype Rule = Rule(name: Option<string>, frontend: Option<string>, probe: Option<string>, rest: string)

  datatype Probe = Probe(name: Option<string>, rest: string)

  datatype Pool = Pool(ipConfigurations: seq<string>, addresses: seq<string>)

  datatype LoadBalancer = LoadBalancer(
    etag: Option<string>, provisioningState: string,
    frontends: seq<Frontend>, pools: seq<Pool>, rules: seq<Rule>, probes: seq<Probe>, rest: string)

  const FRONTENDS := "frontendIPConfigurations"

  function Named(name: Option<string>): string {
    Lower(name.GetOr(""))
  }

  /** Whether the rule refers to the frontend. */
  predicate UsesFrontend(r: Rule, lbId: ResourceId, frontend: string) {
    var id := lbId.Child(FRONTENDS, frontend);
    r.frontend.Some? && id.Some? && EqIgnoreCase(r.frontend.value, id.value)
  }

  function ProbeName(r: Rule): Option<string> {
    match r.probe
    case None => None
    case Some(id) => Some(Lower(AfterLast(id, '/')))
  }

  predicate ProbeKept(rules: seq<Rule>, lbId: ResourceId, frontend: string, probe: string) {
    exists r <- rules :: !UsesFrontend(r, lbId, frontend) && ProbeName(r) == Some(probe)
  }

  /** What goes with the frontend, by name: its rules, and the probes no other rule checks with. */
  function OwnedByFrontend(rules: seq<Rule>, lbId: ResourceId, frontend: string): (set<string>, set<string>) {
    (set r <- rules | UsesFrontend(r, lbId, frontend) :: Named(r.name),
     set r <- rules | UsesFrontend(r, lbId, frontend) && r.probe.Some? &&
                      !ProbeKept(rules, lbId, frontend, ProbeName(r).value) :: ProbeName(r).value)
  }

  function Retained<T>(items: seq<T>, keep: T -> bool): seq<T> {
    if items == [] then []
    else (if keep(items[0]) then [items[0]] else []) + Retained(items[1..], keep)
  }

  /** Whether an item stays when the names are dropped. Unnamed items always do. */
  predicate Stays(name: Option<string>, dropped: set<string>) {
    name.None? || Lower(name.value) !in dropped
  }

  /** What Azure is sent: all but the frontend and what goes with it, and no ETag. */
  function WithoutFrontend(lb: LoadBalancer, lbId: ResourceId, frontend: string): LoadBalancer {
    var (rules, probes) := OwnedByFrontend(lb.rules, lbId, frontend);
    lb.(etag := None,
        frontends := Retained(lb.frontends, (f: Frontend) => Stays(f.name, {Lower(frontend)})),
        rules := Retained(lb.rules, (r: Rule) => Stays(r.name, rules)),
        probes := Retained(lb.probes, (p: Probe) => Stays(p.name, probes)))
  }

  lemma {:induction false} RetainedMeans<T>(items: seq<T>, keep: T -> bool, x: T)
    ensures x in Retained(items, keep) <==> x in items && keep(x)
  {
    if items != [] {
      RetainedMeans(items[1..], keep, x);
    }
  }

  // ---------------------------------------------------------------------------------------
  // The loops, which compute what is defined above.

  /** The rules that use the frontend, and the others. */
  predicate IsPartition(rules: seq<Rule>, lbId: ResourceId, frontend: string, removed: seq<Rule>, kept: seq<Rule>) {
    && (forall r <- rules :: if UsesFrontend(r, lbId, frontend) then r in removed else r in kept)
    && (forall r <- removed :: r in rules && UsesFrontend(r, lbId, frontend))
    && (forall r <- kept :: r in rules && !UsesFrontend(r, lbId, frontend))
  }

  method Partition(rules: seq<Rule>, lbId: ResourceId, frontend: string) returns (removed: seq<Rule>, kept: seq<Rule>)
    ensures IsPartition(rules, lbId, frontend, removed, kept)
  {
    removed, kept := [], [];
    for i := 0 to |rules|
      invariant IsPartition(rules[..i], lbId, frontend, removed, kept)
    {
      assert rules[..i + 1] == rules[..i] + [rules[i]];
      if UsesFrontend(rules[i], lbId, frontend) {
        removed := removed + [rules[i]];
      } else {
        kept := kept + [rules[i]];
      }
    }
    assert rules[..|rules|] == rules;
  }

  /** The names of the probes the rules use, but for `except`. */
  method ProbesOf(rules: seq<Rule>, except: set<string>) returns (probes: set<string>)
    ensures probes == set r <- rules | r.probe.Some? && ProbeName(r).value !in except :: ProbeName(r).value
  {
    probes := {};
    for i := 0 to |rules|
      invariant probes == set r <- rules[..i] | r.probe.Some? && ProbeName(r).value !in except :: ProbeName(r).value
    {
      assert rules[..i + 1] == rules[..i] + [rules[i]];
      var probe := ProbeName(rules[i]);
      if probe.Some? && probe.value !in except {
        probes := probes + {probe.value};
      }
    }
    assert rules[..|rules|] == rules;
  }

  lemma OwnedByPartition(rules: seq<Rule>, lbId: ResourceId, frontend: string, removed: seq<Rule>, kept: seq<Rule>,
                         keptProbes: set<string>)
    requires IsPartition(rules, lbId, frontend, removed, kept)
    requires keptProbes == set r <- kept | r.probe.Some? :: ProbeName(r).value
    ensures var (names, probes) := OwnedByFrontend(rules, lbId, frontend);
            && names == (set r <- removed :: Named(r.name))
            && probes == set r <- removed | r.probe.Some? && ProbeName(r).value !in keptProbes :: ProbeName(r).value
  {
    forall probe: string
      ensures probe in keptProbes <==> ProbeKept(rules, lbId, frontend, probe)
    {
      if ProbeKept(rules, lbId, frontend, probe) {
        var r :| r in rules && !UsesFrontend(r, lbId, frontend) && ProbeName(r) == Some(probe);
        assert r in kept && r.probe.Some?;
      }
    }
    var (names, probes) := OwnedByFrontend(rules, lbId, frontend);
    forall probe | probe in probes
      ensures exists r <- removed :: r.probe.Some? && ProbeName(r).value == probe && probe !in keptProbes
    {
      var r :| r in rules && UsesFrontend(r, lbId, frontend) && r.probe.Some? && ProbeName(r).value == probe;
      assert r in removed;
    }
  }

  method FindOwned(rules: seq<Rule>, lbId: ResourceId, frontend: string) returns (names: set<string>, probes: set<string>)
    ensures (names, probes) == OwnedByFrontend(rules, lbId, frontend)
  {
    var removed, kept := Partition(rules, lbId, frontend);
    var keptProbes := ProbesOf(kept, {});
    probes := ProbesOf(removed, keptProbes);
    names := set r <- removed :: Named(r.name);
    OwnedByPartition(rules, lbId, frontend, removed, kept, keptProbes);
  }

  /** A list of a JSON body, changed in place. */
  class List<T> {
    var items: seq<T>

    constructor (items: seq<T>)
      ensures this.items == items
    {
      this.items := items;
    }

    /** Takes out the items not to keep, one at a time. */
    method Retain(keep: T -> bool)
      modifies this
      ensures items == Retained(old(items), keep)
    {
      var i := 0;
      while i < |items|
        invariant i <= |items|
        invariant items[..i] + Retained(items[i..], keep) == Retained(old(items), keep)
        decreases |items| - i
      {
        assert items[i..][1..] == items[i + 1..];
        if keep(items[i]) {
          assert items[..i + 1] == items[..i] + [items[i]];
          i := i + 1;
        } else {
          label Drop:
          items := items[..i] + items[i + 1..];
          assert items[..i] == old@Drop(items)[..i] && items[i..] == old@Drop(items)[i + 1..];
        }
      }
      assert items[i..] == [] && items[..i] == items;
    }
  }

  /** The body sent to Azure, cut down in place. */
  class Body {
    var etag: Option<string>
    const frontends: List<Frontend>
    const rules: List<Rule>
    const probes: List<Probe>
    const provisioningState: string
    const pools: seq<Pool>
    const rest: string

    constructor (lb: LoadBalancer)
      ensures Value() == lb && fresh(frontends) && fresh(rules) && fresh(probes)
    {
      etag, provisioningState, pools, rest := lb.etag, lb.provisioningState, lb.pools, lb.rest;
      frontends := new List(lb.frontends);
      rules := new List(lb.rules);
      probes := new List(lb.probes);
    }

    function Value(): LoadBalancer
      reads this, frontends, rules, probes
    {
      LoadBalancer(etag, provisioningState, frontends.items, pools, rules.items, probes.items, rest)
    }

    method RemoveFrontend(lbId: ResourceId, frontend: string)
      modifies this, frontends, rules, probes
      ensures Value() == WithoutFrontend(old(Value()), lbId, frontend)
    {
      var ownRules, ownProbes := FindOwned(rules.items, lbId, frontend);
      etag := None;
      frontends.Retain((f: Frontend) => Stays(f.name, {Lower(frontend)}));
      rules.Retain((r: Rule) => Stays(r.name, ownRules));
      probes.Retain((p: Probe) => Stays(p.name, ownProbes));
    }
  }

  // ---------------------------------------------------------------------------------------
  // A well-formed load balancer stays well formed.

  predicate UniqueNames(names: seq<Option<string>>) {
    && (forall i :: 0 <= i < |names| ==> names[i].Some? && names[i].value != "" && '/' !in names[i].value)
    && forall i, j :: 0 <= i < j < |names| ==> Named(names[i]) != Named(names[j])
  }

  function FrontendNames(lb: LoadBalancer): seq<Option<string>> {
    seq(|lb.frontends|, i requires 0 <= i < |lb.frontends| => lb.frontends[i].name)
  }

  function RuleNames(lb: LoadBalancer): seq<Option<string>> {
    seq(|lb.rules|, i requires 0 <= i < |lb.rules| => lb.rules[i].name)
  }

  function ProbeNames(lb: LoadBalancer): seq<Option<string>> {
    seq(|lb.probes|, i requires 0 <= i < |lb.probes| => lb.probes[i].name)
  }

  /** Whether an ID is that of a child of the load balancer. */
  predicate Refers(id: string, lbId: ResourceId, kind: string, name: Option<string>) {
    name.Some? && EqIgnoreCase(id, lbId.Id() + "/" + kind + "/" + name.value)
  }

  predicate RefersToFrontend(r: Rule, lb: LoadBalancer, lbId: ResourceId) {
    r.frontend.Some? ==> exists f <- lb.frontends :: Refers(r.frontend.value, lbId, "frontendIPConfigurations", f.name)
  }

  predicate RefersToProbe(r: Rule, lb: LoadBalancer, lbId: ResourceId) {
    r.probe.Some? ==> exists p <- lb.probes :: Refers(r.probe.value, lbId, "probes", p.name)
  }

  predicate UniquelyNamed(lb: LoadBalancer) {
    UniqueNames(FrontendNames(lb)) && UniqueNames(RuleNames(lb)) && UniqueNames(ProbeNames(lb))
  }

  predicate InternalReferences(lb: LoadBalancer, lbId: ResourceId) {
    forall r <- lb.rules :: RefersToFrontend(r, lb, lbId) && RefersToProbe(r, lb, lbId)
  }

  lemma {:induction false} RetainedSame<T>(items: seq<T>, keep: T -> bool, keep': T -> bool)
    requires forall x <- items :: keep(x) == keep'(x)
    ensures Retained(items, keep) == Retained(items, keep')
  {
    if items != [] {
      RetainedSame(items[1..], keep, keep');
    }
  }

  lemma {:induction false} RetainedAll<T>(items: seq<T>, keep: T -> bool)
    requires forall x <- items :: keep(x)
    ensures Retained(items, keep) == items
  {
    if items != [] {
      RetainedAll(items[1..], keep);
    }
  }

  /** With unique rule names, exactly the rules that use the frontend go. */
  lemma ExactlyItsRulesGo(lb: LoadBalancer, lbId: ResourceId, frontend: string)
    requires UniqueNames(RuleNames(lb))
    ensures WithoutFrontend(lb, lbId, frontend).rules ==
            Retained(lb.rules, (r: Rule) => !UsesFrontend(r, lbId, frontend))
  {
    var rules := OwnedByFrontend(lb.rules, lbId, frontend).0;
    forall r | r in lb.rules
      ensures Stays(r.name, rules) == !UsesFrontend(r, lbId, frontend)
    {
      var i :| 0 <= i < |lb.rules| && lb.rules[i] == r;
      assert RuleNames(lb)[i] == r.name;
      if Named(r.name) in rules {
        var r' :| r' in lb.rules && UsesFrontend(r', lbId, frontend) && Named(r'.name) == Named(r.name);
        var j :| 0 <= j < |lb.rules| && lb.rules[j] == r';
        assert RuleNames(lb)[j] == r'.name;
        assert i == j;
      }
    }
    RetainedSame(lb.rules, (r: Rule) => Stays(r.name, rules), (r: Rule) => !UsesFrontend(r, lbId, frontend));
  }

  lemma {:induction false} AfterLastOfLower(s: string)
    ensures Lower(AfterLast(s, '/')) == AfterLast(Lower(s), '/')
  {
    if s != "" {
      var n := |s| - 1;
      assert Lower(s)[n] == LowerChar(s[n]) && Lower(s)[..n] == Lower(s[..n]);
      AfterLastOfLower(s[..n]);
      if s[n] != '/' {
        assert Lower(AfterLast(s[..n], '/') + [s[n]]) == Lower(AfterLast(s[..n], '/')) + [LowerChar(s[n])];
      }
    }
  }

  /** The last segment of a reference is the name referred to. */
  lemma ReferenceEndsInName(id: string, lbId: ResourceId, kind: string, name: Option<string>)
    requires Refers(id, lbId, kind, name) && '/' !in name.value
    ensures Lower(AfterLast(id, '/')) == Named(name)
  {
    var full := lbId.Id() + "/" + kind + "/" + name.value;
    AfterLastOfLower(id);
    AfterLastOfLower(full);
    AfterLastOf(lbId.Id() + "/" + kind, name.value, '/');
  }

  /** A rule refers to the frontend of the name exactly if it uses the frontend. */
  lemma UsesWhatItRefersTo(r: Rule, lbId: ResourceId, frontend: string, f: Frontend)
    requires IsName(frontend) && r.frontend.Some? && f.name.Some?
    requires Refers(r.frontend.value, lbId, FRONTENDS, f.name)
    ensures UsesFrontend(r, lbId, frontend) <==> Named(f.name) == Lower(frontend)
  {
    var prefix := lbId.Id() + "/" + FRONTENDS + "/";
    LowerConcat(prefix, f.name.value);
    LowerConcat(prefix, frontend);
    assert Lower(prefix + f.name.value)[|prefix|..] == Lower(f.name.value);
    assert Lower(prefix + frontend)[|prefix|..] == Lower(frontend);
  }

  /** Removing a frontend leaves no rule without its frontend or probe. */
  lemma ReferencesStayIntact(lb: LoadBalancer, lbId: ResourceId, frontend: string)
    requires UniquelyNamed(lb) && InternalReferences(lb, lbId) && IsName(frontend)
    ensures InternalReferences(WithoutFrontend(lb, lbId, frontend), lbId)
  {
    var lb' := WithoutFrontend(lb, lbId, frontend);
    ExactlyItsRulesGo(lb, lbId, frontend);
    forall r | r in lb'.rules
      ensures RefersToFrontend(r, lb', lbId) && RefersToProbe(r, lb', lbId)
    {
      RetainedMeans(lb.rules, (r: Rule) => !UsesFrontend(r, lbId, frontend), r);
      if r.frontend.Some? {
        KeptFrontendOf(lb, lbId, frontend, r);
      }
      if r.probe.Some? {
        KeptProbeOf(lb, lbId, frontend, r);
      }
    }
  }

  lemma KeptFrontendOf(lb: LoadBalancer, lbId: ResourceId, frontend: string, r: Rule)
    requires r in lb.rules && RefersToFrontend(r, lb, lbId) && r.frontend.Some? && IsName(frontend)
    requires !UsesFrontend(r, lbId, frontend)
    ensures RefersToFrontend(r, WithoutFrontend(lb, lbId, frontend), lbId)
  {
    var f :| f in lb.frontends && Refers(r.frontend.value, lbId, FRONTENDS, f.name);
    UsesWhatItRefersTo(r, lbId, frontend, f);
    RetainedMeans(lb.frontends, (f: Frontend) => Stays(f.name, {Lower(frontend)}), f);
  }

  lemma KeptProbeOf(lb: LoadBalancer, lbId: ResourceId, frontend: string, r: Rule)
    requires r in lb.rules && RefersToProbe(r, lb, lbId) && r.probe.Some? && UniqueNames(ProbeNames(lb))
    requires !UsesFrontend(r, lbId, frontend)
    ensures RefersToProbe(r, WithoutFrontend(lb, lbId, frontend), lbId)
  {
    var p :| p in lb.probes && Refers(r.probe.value, lbId, "probes", p.name);
    var i :| 0 <= i < |lb.probes| && lb.probes[i] == p;
    assert ProbeNames(lb)[i] == p.name;
    ReferenceEndsInName(r.probe.value, lbId, "probes", p.name);
    var probes := OwnedByFrontend(lb.rules, lbId, frontend).1;
    assert ProbeKept(lb.rules, lbId, frontend, Named(p.name));
    RetainedMeans(lb.probes, (p: Probe) => Stays(p.name, probes), p);
  }

  /** Exactly the named frontend, the rules using it and the probes no other rule uses go; the
      order and contents of the others stay. */
  lemma OnlyWhatTheFrontendOwnsGoes(lb: LoadBalancer, lbId: ResourceId, frontend: string)
    requires UniquelyNamed(lb)
    ensures var lb' := WithoutFrontend(lb, lbId, frontend);
            && lb'.frontends == Retained(lb.frontends, (f: Frontend) => Named(f.name) != Lower(frontend))
            && lb'.rules == Retained(lb.rules, (r: Rule) => !UsesFrontend(r, lbId, frontend))
            && lb'.probes == Retained(lb.probes, (p: Probe) =>
                 (exists r <- lb.rules :: UsesFrontend(r, lbId, frontend) && ProbeName(r) == Some(Named(p.name))) ==>
                 ProbeKept(lb.rules, lbId, frontend, Named(p.name)))
            && lb'.pools == lb.pools && lb'.rest == lb.rest && lb'.provisioningState == lb.provisioningState
  {
    ExactlyItsRulesGo(lb, lbId, frontend);
    forall f | f in lb.frontends
      ensures f.name.Some?
    {
      var i :| 0 <= i < |lb.frontends| && lb.frontends[i] == f;
      assert FrontendNames(lb)[i] == f.name;
    }
    RetainedSame(lb.frontends, (f: Frontend) => Stays(f.name, {Lower(frontend)}),
               (f: Frontend) => Named(f.name) != Lower(frontend));
    var probes := OwnedByFrontend(lb.rules, lbId, frontend).1;
    forall p | p in lb.probes
      ensures Stays(p.name, probes) ==
              ((exists r <- lb.rules :: UsesFrontend(r, lbId, frontend) && ProbeName(r) == Some(Named(p.name))) ==>
               ProbeKept(lb.rules, lbId, frontend, Named(p.name)))
    {
      var i :| 0 <= i < |lb.probes| && lb.probes[i] == p;
      assert ProbeNames(lb)[i] == p.name;
    }
    RetainedSame(lb.probes, (p: Probe) => Stays(p.name, probes),
               (p: Probe) =>
                 (exists r <- lb.rules :: UsesFrontend(r, lbId, frontend) && ProbeName(r) == Some(Named(p.name))) ==>
                 ProbeKept(lb.rules, lbId, frontend, Named(p.name)));
  }

  /** The rule's frontend, by its ID. */
  predicate PointsAt(r: Rule, lbId: ResourceId, frontend: string) {
    r.frontend.Some? && EqIgnoreCase(r.frontend.value, lbId.Id() + "/frontendIPConfigurations/" + frontend)
  }

  /** The rule's probe, by its ID. */
  predicate ChecksWith(r: Rule, lbId: ResourceId, p: Probe) {
    r.probe.Some? && Refers(r.probe.value, lbId, "probes", p.name)
  }

  lemma PointsAtMeans(r: Rule, lbId: ResourceId, frontend: string)
    requires IsName(frontend)
    ensures UsesFrontend(r, lbId, frontend) <==> PointsAt(r, lbId, frontend)
  {
    assert lbId.Id() + "/" + FRONTENDS + "/" + frontend == lbId.Id() + "/frontendIPConfigurations/" + frontend by {
      assert "/" + FRONTENDS + "/" == "/frontendIPConfigurations/";
    }
  }

  lemma SameReference(id: string, lbId: ResourceId, kind: string, a: Option<string>, b: Option<string>)
    requires Refers(id, lbId, kind, a) && b.Some? && Named(a) == Named(b)
    ensures Refers(id, lbId, kind, b)
  {
    LowerConcat(lbId.Id() + "/" + kind + "/", a.value);
    LowerConcat(lbId.Id() + "/" + kind + "/", b.value);
  }

  /** The probe a rule refers to is the one of that name. */
  lemma ChecksWithMeans(lb: LoadBalancer, lbId: ResourceId, r: Rule, p: Probe)
    requires UniqueNames(ProbeNames(lb)) && RefersToProbe(r, lb, lbId) && p in lb.probes
    ensures ProbeName(r) == Some(Named(p.name)) <==> ChecksWith(r, lbId, p)
  {
    var i :| 0 <= i < |lb.probes| && lb.probes[i] == p;
    assert ProbeNames(lb)[i] == p.name;
    if r.probe.Some? {
      var p' :| p' in lb.probes && Refers(r.probe.value, lbId, "probes", p'.name);
      var j :| 0 <= j < |lb.probes| && lb.probes[j] == p';
      assert ProbeNames(lb)[j] == p'.name;
      ReferenceEndsInName(r.probe.value, lbId, "probes", p'.name);
      if ProbeName(r) == Some(Named(p.name)) {
        SameReference(r.probe.value, lbId, "probes", p'.name, p.name);
      }
      if ChecksWith(r, lbId, p) {
        ReferenceEndsInName(r.probe.value, lbId, "probes", p.name);
      }
    }
  }

  /** Whether the probe outlives the frontend: no rule of the frontend checks with it, or another does. */
  predicate ProbeStays(lb: LoadBalancer, lbId: ResourceId, frontend: string, p: Probe) {
    || (forall r <- lb.rules :: PointsAt(r, lbId, frontend) ==> !ChecksWith(r, lbId, p))
    || (exists r <- lb.rules :: !PointsAt(r, lbId, frontend) && ChecksWith(r, lbId, p))
  }

  lemma ProbeStaysMeans(lb: LoadBalancer, lbId: ResourceId, frontend: string, p: Probe)
    requires UniquelyNamed(lb) && InternalReferences(lb, lbId) && IsName(frontend) && p in lb.probes
    ensures ProbeStays(lb, lbId, frontend, p) <==>
            ((exists r <- lb.rules :: UsesFrontend(r, lbId, frontend) && ProbeName(r) == Some(Named(p.name))) ==>
             ProbeKept(lb.rules, lbId, frontend, Named(p.name)))
  {
    forall r | r in lb.rules
      ensures UsesFrontend(r, lbId, frontend) <==> PointsAt(r, lbId, frontend)
      ensures ProbeName(r) == Some(Named(p.name)) <==> ChecksWith(r, lbId, p)
    {
      PointsAtMeans(r, lbId, frontend);
      ChecksWithMeans(lb, lbId, r, p);
    }
  }

  /** In terms of the references alone, the frontend goes with exactly the rules that point at it and
      the probes only they check with; all else stays in order, but for the ETag. */
  lemma ExactlyWhatPointsAtItGoes(lb: LoadBalancer, lbId: ResourceId, frontend: string)
    requires UniquelyNamed(lb) && InternalReferences(lb, lbId) && IsName(frontend)
    ensures var lb' := WithoutFrontend(lb, lbId, frontend);
            && lb'.frontends == Retained(lb.frontends, (f: Frontend) => Named(f.name) != Lower(frontend))
            && lb'.rules == Retained(lb.rules, (r: Rule) => !PointsAt(r, lbId, frontend))
            && lb'.probes == Retained(lb.probes, (p: Probe) => ProbeStays(lb, lbId, frontend, p))
            && lb' == lb.(etag := None, frontends := lb'.frontends, rules := lb'.rules, probes := lb'.probes)
  {
    OnlyWhatTheFrontendOwnsGoes(lb, lbId, frontend);
    forall r | r in lb.rules
      ensures UsesFrontend(r, lbId, frontend) <==> PointsAt(r, lbId, frontend)
    {
      PointsAtMeans(r, lbId, frontend);
    }
    RetainedSame(lb.rules, (r: Rule) => !UsesFrontend(r, lbId, frontend), (r: Rule) => !PointsAt(r, lbId, frontend));
    forall p | p in lb.probes
      ensures ProbeStays(lb, lbId, frontend, p) <==>
              ((exists r <- lb.rules :: UsesFrontend(r, lbId, frontend) && ProbeName(r) == Some(Named(p.name))) ==>
               ProbeKept(lb.rules, lbId, frontend, Named(p.name)))
    {
      ProbeStaysMeans(lb, lbId, frontend, p);
    }
    RetainedSame(lb.probes,
                 (p: Probe) =>
                   (exists r <- lb.rules :: UsesFrontend(r, lbId, frontend) && ProbeName(r) == Some(Named(p.name))) ==>
                   ProbeKept(lb.rules, lbId, frontend, Named(p.name)),
                 (p: Probe) => ProbeStays(lb, lbId, frontend, p));
  }

  /** Removing the frontend again changes nothing. */
  lemma RemovingTwiceIsRemovingOnce(lb: LoadBalancer, lbId: ResourceId, frontend: string)
    requires UniqueNames(RuleNames(lb))
    ensures var once := WithoutFrontend(lb, lbId, frontend); WithoutFrontend(once, lbId, frontend) == once
  {
    var once := WithoutFrontend(lb, lbId, frontend);
    ExactlyItsRulesGo(lb, lbId, frontend);
    forall r | r in once.rules
      ensures !UsesFrontend(r, lbId, frontend)
    {
      RetainedMeans(lb.rules, (r: Rule) => !UsesFrontend(r, lbId, frontend), r);
    }
    var (rules, probes) := OwnedByFrontend(once.rules, lbId, frontend);
    assert rules == {} && probes == {};
    RetainedAll(once.rules, (r: Rule) => Stays(r.name, rules));
    RetainedAll(once.probes, (p: Probe) => Stays(p.name, probes));
    forall f | f in once.frontends
      ensures Stays(f.name, {Lower(frontend)})
    {
      RetainedMeans(lb.frontends, (f: Frontend) => Stays(f.name, {Lower(frontend)}), f);
    }
    RetainedAll(once.frontends, (f: Frontend) => Stays(f.name, {Lower(frontend)}));
  }
}
