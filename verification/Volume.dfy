/**
  The cloud-agnostic decision whether to delete an orphaned volume, as the Go functions
  (functions/go/gcp/internal/volume) and the Rust ones (functions/crates/core/src/volume.rs)
  make it.
 */
module Volume {
  import opened Wrappers
  import opened Strings

  const SNAPSHOT_MAX_AGE_SECS: int := 24 * 60 * 60
  const CLOCK_SKEW_SECS: int := 5 * 60

  /** Go: the window in which a snapshot must have started to count, in Unix seconds. */
  datatype SnapshotWindow = SnapshotWindow(now: int, detachedAt: Option<int>) {
    predicate Counts(startedAt: int) {
      var age := now - startedAt;
      age >= -CLOCK_SKEW_SECS && age <= SNAPSHOT_MAX_AGE_SECS &&
      (detachedAt.None? || startedAt > detachedAt.value)
    }
  }

  datatype Action = Plan | Execute

  datatype SnapshotStatus =
    | Missing
    | InProgress(id: string)
    | Completed(id: string)
    | Failed(id: string)

  datatype Step = Nothing | CreateSnapshot | Delete

  datatype Guard = Guard(name: string, passed: bool)

  predicate Passed(guards: seq<Guard>) {
    forall g <- guards :: g.passed
  }

  /** The claim as Go keeps it, absent values being empty. */
  datatype Claim = Claim(pvc: string, namespace: string, pv: string)

  /** The claim as Rust keeps it. */
  datatype OptionalClaim = OptionalClaim(pvc: string, namespace: Option<string>, pv: Option<string>)

  datatype Vol<C> = Vol(deletable: bool, attachedTo: seq<string>, kubernetes: Option<C>, detachedAt: Option<int>)

  // ---------------------------------------------------------------------------------------
  // Go.

  function VolumeGuards(v: Vol<Claim>, pv: string): seq<Guard> {
    [Guard("exists", true), Guard("unattached", v.attachedTo == []), Guard("state", v.deletable),
     Guard("kubernetes", v.kubernetes.Some? && v.kubernetes.value.pv == pv)]
  }

  function SnapshotGuard(action: Action, required: bool, snapshot: SnapshotStatus): (Guard, Step) {
    if !required then (Guard("snapshot", true), Delete)
    else if snapshot.Completed? then (Guard("snapshot", true), Delete)
    else if snapshot.InProgress? then (Guard("snapshot", false), Nothing)
    else if action != Plan then (Guard("snapshot", false), CreateSnapshot)
    else (Guard("snapshot", true), CreateSnapshot)
  }

  function Evaluate(action: Action, volume: Option<Vol<Claim>>, pv: string, required: bool, snapshot: SnapshotStatus)
      : (seq<Guard>, Step)
  {
    if volume.None? then ([Guard("exists", false)], Nothing)
    else
      var guards := VolumeGuards(volume.value, pv);
      var (guard, step) := SnapshotGuard(action, required, snapshot);
      (guards + [guard], if action == Plan || !Passed(guards) then Nothing else step)
  }

  /** SnapshotPolicy.Required: Err is a rejected request. */
  function Required(requested: Option<bool>, allowSkip: bool): Result<bool> {
    if requested.None? || requested.value then Ok(true)
    else if !allowSkip then Err
    else Ok(false)
  }

  // ---------------------------------------------------------------------------------------
  // Rust.

  predicate SnapshotCounts(startedAt: int, now: int, detachedAt: Option<int>) {
    var age := now - startedAt;
    -CLOCK_SKEW_SECS <= age <= SNAPSHOT_MAX_AGE_SECS &&
    match detachedAt
    case None => true
    case Some(detached) => startedAt > detached
  }

  function CheckSnapshotPolicy(requested: bool, allowSkip: bool): Result<bool> {
    if requested || allowSkip then Ok(requested) else Err
  }

  function KubernetesGuard(v: Vol<OptionalClaim>, pv: string): Guard {
    match v.kubernetes
    case Some(claim) => if claim.pv != Some(pv) then Guard("kubernetes", false) else Guard("kubernetes", true)
    case None => Guard("kubernetes", false)
  }

  function EvaluateOptional(
      action: Action, volume: Option<Vol<OptionalClaim>>, pv: string, required: bool, snapshot: SnapshotStatus)
      : (seq<Guard>, Step)
  {
    match volume
    case None => ([Guard("exists", false)], Nothing)
    case Some(v) =>
      var guards := [Guard("exists", true), Guard("unattached", v.attachedTo == []),
                     Guard("state", v.deletable), KubernetesGuard(v, pv)];
      var safe := Passed(guards);
      var (guard, step) := match (required, snapshot)
        case (false, _) => (Guard("snapshot", true), Delete)
        case (true, Completed(_)) => (Guard("snapshot", true), Delete)
        case (true, InProgress(_)) => (Guard("snapshot", false), Nothing)
        case (true, _) => (Guard("snapshot", action == Plan), CreateSnapshot);
      (guards + [guard],
       match action
       case Plan => Nothing
       case Execute => if safe then step else Nothing)
  }

  // ---------------------------------------------------------------------------------------
  // What the decision promises.

  predicate SafeToDelete(v: Vol<Claim>, pv: string) {
    v.attachedTo == [] && v.deletable && v.kubernetes.Some? && v.kubernetes.value.pv == pv
  }

  /** A volume is deleted exactly on an execute that found it safe and its snapshot complete or
      not required, and a snapshot is started exactly on one that found it safe and none good. */
  lemma WhenEvaluateActs(action: Action, volume: Option<Vol<Claim>>, pv: string, required: bool, snapshot: SnapshotStatus)
    ensures var (guards, step) := Evaluate(action, volume, pv, required, snapshot);
            && (step == Delete <==> action == Execute && volume.Some? && SafeToDelete(volume.value, pv) &&
                                    (required ==> snapshot.Completed?))
            && (step == CreateSnapshot <==> action == Execute && volume.Some? && SafeToDelete(volume.value, pv) &&
                                            required && (snapshot.Missing? || snapshot.Failed?))
            && (action == Execute ==> (step == Delete <==> Passed(guards)))
            && (volume.None? ==> guards == [Guard("exists", false)])
  {
    if volume.Some? {
      var guards := VolumeGuards(volume.value, pv);
      assert Passed(guards) <==> guards[0].passed && guards[1].passed && guards[2].passed && guards[3].passed;
      assert guards[0] in guards && guards[1] in guards && guards[2] in guards && guards[3] in guards;
      var (guard, _) := SnapshotGuard(action, required, snapshot);
      assert Passed(guards + [guard]) <==> Passed(guards) && guard.passed by {
        assert guard in guards + [guard];
      }
    } else {
      assert Guard("exists", false) in [Guard("exists", false)];
    }
  }

  /** The Go view of a volume as Rust keeps it. */
  function Flatten(v: Vol<OptionalClaim>): Vol<Claim> {
    Vol(v.deletable, v.attachedTo,
        match v.kubernetes
        case None => None
        case Some(c) => Some(Claim(c.pvc, c.namespace.GetOr(""), c.pv.GetOr(""))),
        v.detachedAt)
  }

  /** Both implementations make the same decision about a volume exactly if the caller names a
      PersistentVolume, or the volume isn't Kubernetes' or names its own. */
  lemma SameDecision(v: Vol<OptionalClaim>, pv: string)
    ensures (forall action, required, snapshot ::
               Evaluate(action, Some(Flatten(v)), pv, required, snapshot) ==
               EvaluateOptional(action, Some(v), pv, required, snapshot))
            <==> (pv != "" || v.kubernetes.None? || v.kubernetes.value.pv.Some?)
  {
    if pv != "" || v.kubernetes.None? || v.kubernetes.value.pv.Some? {
      assert VolumeGuards(Flatten(v), pv)[3] == KubernetesGuard(v, pv);
    } else {
      var a := Evaluate(Execute, Some(Flatten(v)), pv, false, Missing).0;
      var b := EvaluateOptional(Execute, Some(v), pv, false, Missing).0;
      assert a[3].passed && !b[3].passed;
    }
  }

  /** Neither does anything about a volume that isn't there, and both say so. */
  lemma SameWithoutVolume(action: Action, pv: string, required: bool, snapshot: SnapshotStatus)
    ensures Evaluate(action, None, pv, required, snapshot) == ([Guard("exists", false)], Nothing)
    ensures EvaluateOptional(action, None, pv, required, snapshot) == ([Guard("exists", false)], Nothing)
  {
  }

  lemma SameWindow(startedAt: int, now: int, detachedAt: Option<int>)
    ensures SnapshotWindow(now, detachedAt).Counts(startedAt) == SnapshotCounts(startedAt, now, detachedAt)
    ensures SnapshotCounts(startedAt, now, detachedAt) <==>
            -300 <= now - startedAt <= 86400 && (detachedAt.Some? ==> startedAt > detachedAt.value)
  {
  }

  /** Both require the same of the same request, which asks for a snapshot unless it says not to, and
      let a caller skip it only where the installation allows. */
  lemma SamePolicy(requested: Option<bool>, allowSkip: bool)
    ensures Required(requested, allowSkip) == CheckSnapshotPolicy(requested.GetOr(true), allowSkip)
    ensures Required(requested, allowSkip) == Ok(false) <==> requested == Some(false) && allowSkip
  {
  }

  // ---------------------------------------------------------------------------------------
  // The claim recorded on the volume.

  /** Go: empty values mean absent. */
  function ClaimFromMetadata(pvc: string, namespace: string, pv: string, space: char -> bool): Option<Claim> {
    if Trim(pvc, space) == "" then None
    else Some(Claim(Trim(pvc, space), Trim(namespace, space), Trim(pv, space)))
  }

  /** Rust. */
  function ClaimFromOptions(pvc: Option<string>, namespace: Option<string>, pv: Option<string>, space: char -> bool)
      : Option<OptionalClaim>
  {
    match pvc
    case None => None
    case Some(s) =>
      if Trim(s, space) == "" then None
      else Some(OptionalClaim(Trim(s, space), Clean(namespace, space), Clean(pv, space)))
  }

  function Clean(v: Option<string>, space: char -> bool): Option<string> {
    match v
    case None => None
    case Some(s) => if Trim(s, space) == "" then None else Some(Trim(s, space))
  }

  /** Read from the same metadata, the two claims lead to the same decisions, whatever the
      volume and the valid PersistentVolume name. */
  lemma SameDecisionFromMetadata(
      pvc: Option<string>, namespace: Option<string>, pvTag: Option<string>, space: char -> bool,
      v: Vol<OptionalClaim>, pv: string, action: Action, required: bool, snapshot: SnapshotStatus)
    requires pv != ""
    requires v.kubernetes == ClaimFromOptions(pvc, namespace, pvTag, space)
    ensures ClaimFromMetadata(pvc.GetOr(""), namespace.GetOr(""), pvTag.GetOr(""), space) == Flatten(v).kubernetes
    ensures Evaluate(action, Some(Flatten(v)), pv, required, snapshot) ==
            EvaluateOptional(action, Some(v), pv, required, snapshot)
    ensures v.kubernetes.Some? ==>
              && v.kubernetes.value.pvc != ""
              && v.kubernetes.value.namespace != Some("") && v.kubernetes.value.pv != Some("")
  {
    assert Trim("", space) == "";
    SameDecision(v, pv);
  }
}
