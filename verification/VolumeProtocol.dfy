/**
  Snapshot-then-delete over time: what repeated executes of the GCP volume-delete function do to
  a disk that others attach, write, detach and recreate
  (functions/go/gcp/internal/volumedelete/operation.go).

  `data` stands for the contents of a disk or snapshot. A snapshot has the contents the disk had
  when it was started. Each execute reads and acts in one step. The function's clock may be off.
 */
module VolumeProtocol {
  import opened Wrappers
  import opened Volume
  import VS = VolumeSnapshots

  datatype Disk = Disk(
    id: string, users: seq<string>, lastDetach: Option<int>, deletable: bool, claim: Option<Claim>, data: int)

  datatype Snap = Snap(s: VS.Snapshot, diskLabel: string, data: int)

  /** The cloud's clock, the disk of the name, the snapshots as listed, and the IDs in use. */
  datatype Cloud = Cloud(now: int, disk: Option<Disk>, snaps: seq<Snap>, ids: set<string>)

  const CREATING := "CREATING"
  const READY := "READY"

  /** The snapshots with the disk's label. */
  function Labelled(snaps: seq<Snap>, diskId: string): seq<Snap> {
    if snaps == [] then []
    else
      var front, s := Labelled(snaps[..|snaps| - 1], diskId), snaps[|snaps| - 1];
      if s.diskLabel == diskId then front + [s] else front
  }

  function VolumeOf(d: Disk): Vol<Claim> {
    Vol(d.deletable, d.users, d.claim, d.lastDetach)
  }

  function Window(d: Disk, reading: int): SnapshotWindow {
    SnapshotWindow(reading, d.lastDetach)
  }

  function Key(d: Disk, reading: int): Snap -> Option<int> {
    (s: Snap) => if VS.Eligible(s.s, d.id, Window(d, reading)) then s.s.created else None
  }

  /** The status of the pre-deletion snapshot, as an execute whose clock shows `reading` sees it. */
  function StatusOf(snaps: seq<Snap>, d: Disk, reading: int): SnapshotStatus {
    var listed := Labelled(snaps, d.id);
    match VS.LatestOf(listed, Key(d, reading))
    case None => Missing
    case Some(k) => VS.StatusOf(listed[k].s)
  }

  /** A snapshot that carries the disk's label, that Compute Engine recorded as taken of it, and that
      started in the last day, allowing for five minutes of clock skew, and after the last detach. */
  predicate CountsFor(s: Snap, d: Disk, reading: int) {
    && s.diskLabel == d.id && s.s.sourceDiskId == d.id && s.s.created.Some?
    && -300 <= reading - s.s.created.value <= 86400
    && (d.lastDetach.Some? ==> s.s.created.value > d.lastDetach.value)
  }

  /** Of the snapshots listed, the last of those that count and started last. */
  ghost predicate IsLatestFor(listed: seq<Snap>, d: Disk, reading: int, k: nat) {
    && k < |listed| && CountsFor(listed[k], d, reading)
    && forall j: nat :: j < |listed| && CountsFor(listed[j], d, reading) ==>
         && listed[j].s.created.value <= listed[k].s.created.value
         && (j > k ==> listed[j].s.created.value < listed[k].s.created.value)
  }

  /** Compute Engine's status in the function's terms. */
  predicate IsStatusOf(status: SnapshotStatus, s: VS.Snapshot) {
    && (status == Completed(s.name) <==> s.status == Some("READY"))
    && (status == Failed(s.name) <==> s.status == Some("FAILED") || s.status == Some("DELETING"))
    && (status == InProgress(s.name) <==>
          s.status != Some("READY") && s.status != Some("FAILED") && s.status != Some("DELETING"))
  }

  lemma {:induction false} LabelledAreAll(snaps: seq<Snap>, diskId: string, s: Snap)
    ensures s in Labelled(snaps, diskId) <==> s in snaps && s.diskLabel == diskId
  {
    if snaps != [] {
      LabelledAreAll(snaps[..|snaps| - 1], diskId, s);
      assert snaps == snaps[..|snaps| - 1] + [snaps[|snaps| - 1]];
    }
  }

  lemma KeyMeans(listed: seq<Snap>, d: Disk, reading: int)
    requires forall s <- listed :: s.diskLabel == d.id
    ensures forall s <- listed :: Key(d, reading)(s) == if CountsFor(s, d, reading) then s.s.created else None
    ensures forall k: nat :: VS.IsLatest(listed, Key(d, reading), k) <==> IsLatestFor(listed, d, reading, k)
  {
    forall k: nat | k < |listed|
      ensures Key(d, reading)(listed[k]) == if CountsFor(listed[k], d, reading) then listed[k].s.created else None
    {
      assert listed[k] in listed;
    }
  }

  lemma StatusIsExact(s: VS.Snapshot)
    ensures IsStatusOf(VS.StatusOf(s), s)
  {
  }

  /** The status is missing exactly if no snapshot counts, and otherwise that of the latest that does. */
  lemma StatusMeans(snaps: seq<Snap>, d: Disk, reading: int)
    ensures var status := StatusOf(snaps, d, reading);
            && (status.Missing? <==> forall s <- snaps :: !CountsFor(s, d, reading))
            && (!status.Missing? ==>
                  exists k: nat :: IsLatestFor(Labelled(snaps, d.id), d, reading, k) &&
                                   IsStatusOf(status, Labelled(snaps, d.id)[k].s))
  {
    var listed := Labelled(snaps, d.id);
    forall s: Snap
      ensures s in listed <==> s in snaps && s.diskLabel == d.id
    {
      LabelledAreAll(snaps, d.id, s);
    }
    KeyMeans(listed, d, reading);
    VS.LatestOfIsLatest(listed, Key(d, reading));
    var k := VS.LatestOf(listed, Key(d, reading));
    if k.Some? {
      StatusIsExact(listed[k.value].s);
      assert listed[k.value] in snaps && CountsFor(listed[k.value], d, reading);
    }
  }

  function StepOf(c: Cloud, pv: string, required: bool, reading: int): Step {
    if c.disk.None? then Evaluate(Action.Execute, None, pv, required, Missing).1
    else
      var d := c.disk.value;
      Evaluate(Action.Execute, Some(VolumeOf(d)), pv, required,
               if required then StatusOf(c.snaps, d, reading) else Missing).1
  }

  datatype Event =
    | Tick(seconds: nat)
    | Attach(user: string)
    | WriteData(data: int)
    | Detach(user: string, reported: bool)
    | Change(deletable: bool, claim: Option<Claim>)
    | Vanish                                          // someone else deletes the disk
    | Create(id: string, data: int)                   // a disk of the name is created, with a new ID
    | OtherSnapshot(name: string, diskLabel: string)      // someone else snapshots the disk
    | UnrelatedSnapshot(s: Snap)                      // a snapshot of another disk appears, with any label
    | Progress(i: nat, status: string)                // a snapshot's status changes
    | RemoveSnapshot(i: nat)
    | Invoke(pv: string, required: bool, reading: int, name: string)

  predicate Enabled(c: Cloud, e: Event) {
    match e
    case Attach(_) => c.disk.Some?
    case WriteData(_) => c.disk.Some? && c.disk.value.users != []
    case Detach(user, _) => c.disk.Some? && user in c.disk.value.users
    case Change(_, _) => c.disk.Some?
    case Create(id, _) => c.disk.None? && id !in c.ids
    case OtherSnapshot(_, _) => c.disk.Some?
    case UnrelatedSnapshot(s) => c.disk.Some? ==> s.s.sourceDiskId != c.disk.value.id
    case Progress(i, _) => i < |c.snaps|
    case RemoveSnapshot(i) => i < |c.snaps|
    case _ => true
  }

  function RemoveFirst(users: seq<string>, user: string): seq<string> {
    if users == [] then [] else if users[0] == user then users[1..] else [users[0]] + RemoveFirst(users[1..], user)
  }

  /** A snapshot of the disk, as the cloud starts it. */
  function Take(c: Cloud, d: Disk, name: string, diskLabel: string): Snap {
    Snap(VS.Snapshot(name, d.id, Some(c.now), Some(CREATING)), diskLabel, d.data)
  }

  /** The cloud after an execute has taken the step. */
  function Act(c: Cloud, step: Step, name: string): Cloud {
    match step
    case Nothing => c
    case CreateSnapshot =>
      if c.disk.None? then c else c.(snaps := c.snaps + [Take(c, c.disk.value, name, c.disk.value.id)])
    case Delete => c.(disk := None)
  }

  function Next(c: Cloud, e: Event): Cloud
    requires Enabled(c, e)
  {
    match e
    case Tick(seconds) => c.(now := c.now + seconds)
    case Attach(user) => c.(disk := Some(c.disk.value.(users := c.disk.value.users + [user])))
    case WriteData(data) => c.(disk := Some(c.disk.value.(data := data)))
    case Detach(user, reported) =>
      var d := c.disk.value;
      c.(disk := Some(d.(users := RemoveFirst(d.users, user),
                         lastDetach := if reported then Some(c.now) else d.lastDetach)))
    case Change(deletable, claim) => c.(disk := Some(c.disk.value.(deletable := deletable, claim := claim)))
    case Vanish => c.(disk := None)
    case Create(id, data) => c.(disk := Some(Disk(id, [], None, true, None, data)), ids := c.ids + {id})
    case OtherSnapshot(name, diskLabel) => c.(snaps := c.snaps + [Take(c, c.disk.value, name, diskLabel)])
    case UnrelatedSnapshot(s) => c.(snaps := c.snaps + [s], ids := c.ids + {s.s.sourceDiskId})
    case Progress(i, status) => c.(snaps := c.snaps[i := c.snaps[i].(s := c.snaps[i].s.(status := Some(status)))])
    case RemoveSnapshot(i) => c.(snaps := c.snaps[..i] + c.snaps[i + 1..])
    case Invoke(pv, required, reading, name) => Act(c, StepOf(c, pv, required, reading), name)
  }

  predicate Valid(c: Cloud, run: seq<Event>)
    decreases |run|
  {
    run == [] || (Enabled(c, run[0]) && Valid(Next(c, run[0]), run[1..]))
  }

  function Last(c: Cloud, run: seq<Event>): Cloud
    requires Valid(c, run)
    decreases |run|
  {
    if run == [] then c else Last(Next(c, run[0]), run[1..])
  }

  function Start(now: int): Cloud {
    Cloud(now, None, [], {})
  }

  // ---------------------------------------------------------------------------------------
  // No data is lost.

  /** A snapshot of an unattached disk started after its last detach has its contents. */
  predicate Current(c: Cloud, d: Disk, s: Snap) {
    && s.s.created.Some?
    && s.s.created.value <= c.now
    && (d.users == [] && (d.lastDetach.Some? ==> s.s.created.value > d.lastDetach.value) ==> s.data == d.data)
  }

  predicate Fits(c: Cloud, s: Snap) {
    && s.s.sourceDiskId in c.ids
    && (c.disk.Some? && s.s.sourceDiskId == c.disk.value.id ==> Current(c, c.disk.value, s))
  }

  predicate Inv(c: Cloud) {
    (c.disk.Some? ==> c.disk.value.id in c.ids) && forall s <- c.snaps :: Fits(c, s)
  }

  /** The cloud reports when disks are detached, or it never does. */
  predicate Reports(run: seq<Event>, reported: bool) {
    forall e <- run :: e.Detach? ==> e.reported == reported
  }

  lemma NextKeepsInv(c: Cloud, e: Event)
    requires Inv(c) && Enabled(c, e) && (e.Detach? ==> e.reported)
    ensures Inv(Next(c, e))
  {
    var c' := Next(c, e);
    forall s | s in c'.snaps
      ensures Fits(c', s)
    {
      if e.Progress? && s !in c.snaps {
        assert s == c'.snaps[e.i] && Fits(c, c.snaps[e.i]);
      } else if s in c.snaps {
        assert Fits(c, s);
      }
    }
  }

  lemma {:induction false} LabelledFrom(snaps: seq<Snap>, diskId: string)
    ensures forall s <- Labelled(snaps, diskId) :: s in snaps && s.diskLabel == diskId
  {
    if snaps != [] {
      LabelledFrom(snaps[..|snaps| - 1], diskId);
    }
  }

  /** The snapshot that lets an execute delete the disk. */
  predicate Backup(c: Cloud, d: Disk, s: Snap) {
    s in c.snaps && s.s.sourceDiskId == d.id && s.s.status == Some(READY) && s.data == d.data
  }

  /** The disk is there, and a completed snapshot of it that counts holds its contents. */
  predicate HasBackup(c: Cloud, reading: int) {
    c.disk.Some? &&
    exists s <- c.snaps :: Backup(c, c.disk.value, s) && VS.Eligible(s.s, c.disk.value.id, Window(c.disk.value, reading))
  }

  lemma DeletesBackedUp(c: Cloud, pv: string, reading: int)
    requires Inv(c) && StepOf(c, pv, true, reading) == Delete
    ensures HasBackup(c, reading) && SafeToDelete(VolumeOf(c.disk.value), pv)
  {
    var d := c.disk.value;
    var listed := Labelled(c.snaps, d.id);
    WhenEvaluateActs(Action.Execute, Some(VolumeOf(d)), pv, true, StatusOf(c.snaps, d, reading));
    var k := VS.LatestOf(listed, Key(d, reading)).value;
    LabelledFrom(c.snaps, d.id);
    var s := listed[k];
    assert s in listed && Key(d, reading)(s).Some?;
    assert VS.Eligible(s.s, d.id, Window(d, reading));
    assert Fits(c, s) && VS.StatusOf(s.s).Completed?;
    assert Backup(c, d, s);
  }

  lemma {:induction false} RunKeepsInv(c: Cloud, run: seq<Event>)
    requires Inv(c) && Valid(c, run) && Reports(run, true)
    ensures Inv(Last(c, run))
    decreases |run|
  {
    if run != [] {
      assert run[0] in run;
      NextKeepsInv(c, run[0]);
      RunKeepsInv(Next(c, run[0]), run[1..]);
    }
  }

  /** Whatever happened before, a request that doesn't skip the snapshot, or may not, only deletes a
      disk that is unattached and has a completed snapshot of that very disk that still counts and
      has its contents, as long as detaches are reported. */
  lemma NoDataIsLost(now: int, run: seq<Event>, pv: string, reading: int,
                     requested: Option<bool>, allowSkip: bool, required: bool)
    requires Valid(Start(now), run) && Reports(run, true)
    requires Required(requested, allowSkip) == Ok(required) && (requested != Some(false) || !allowSkip)
    requires StepOf(Last(Start(now), run), pv, required, reading) == Delete
    ensures var c := Last(Start(now), run);
            HasBackup(c, reading) && SafeToDelete(VolumeOf(c.disk.value), pv)
  {
    RunKeepsInv(Start(now), run);
    DeletesBackedUp(Last(Start(now), run), pv, reading);
  }

  /** A disk with the contents, and one snapshot of it from when it held 0. */
  function OneSnapshot(data: int, status: string): Cloud {
    Cloud(0, Some(Disk("1", [], None, true, Some(Claim("c", "", "pv")), data)),
          [Snap(VS.Snapshot("s", "1", Some(0), Some(status)), "1", 0)], {"1"})
  }

  lemma OneSnapshotStatus(data: int, status: string)
    ensures var c := OneSnapshot(data, status);
            StatusOf(c.snaps, c.disk.value, 0) == VS.StatusOf(c.snaps[0].s)
  {
    var c := OneSnapshot(data, status);
    assert c.snaps[..0] == [];
    assert Labelled(c.snaps, "1") == c.snaps;
    assert VS.Eligible(c.snaps[0].s, "1", Window(c.disk.value, 0));
    assert VS.LatestOf(c.snaps, Key(c.disk.value, 0)) == Some(0);
  }

  /** The first execute on a fresh disk starts its snapshot. */
  lemma FirstExecuteSnapshots()
    ensures var c := OneSnapshot(0, CREATING).(snaps := []);
            Next(c, Invoke("pv", true, 0, "s")) == OneSnapshot(0, CREATING)
  {
  }

  /** Attached, written and detached without a trace, while the snapshot completes. */
  lemma WrittenUnseen()
    ensures var run := [Attach("vm"), WriteData(1), Detach("vm", false), Progress(0, READY)];
            Valid(OneSnapshot(0, CREATING), run) && Last(OneSnapshot(0, CREATING), run) == OneSnapshot(1, READY)
  {
    var c := OneSnapshot(0, CREATING);
    var c1 := Next(c, Attach("vm"));
    var c2 := Next(c1, WriteData(1));
    var c3 := Next(c2, Detach("vm", false));
    assert c2.disk.value.users == ["vm"] && ["vm"][1..] == [];
    assert c3.disk == OneSnapshot(1, CREATING).disk;
    assert c3 == OneSnapshot(1, CREATING);
    assert Next(c3, Progress(0, READY)) == OneSnapshot(1, READY);
    Unroll(c3, Progress(0, READY), []);
    Unroll(c2, Detach("vm", false), [Progress(0, READY)]);
    Unroll(c1, WriteData(1), [Detach("vm", false), Progress(0, READY)]);
    Unroll(c, Attach("vm"), [WriteData(1), Detach("vm", false), Progress(0, READY)]);
  }

  lemma Unroll(c: Cloud, e: Event, rest: seq<Event>)
    requires Enabled(c, e) && Valid(Next(c, e), rest)
    ensures Valid(c, [e] + rest) && Last(c, [e] + rest) == Last(Next(c, e), rest)
  {
  }

  /** A disk of the name is created, claimed and snapshotted, and `rest` happens. */
  lemma AfterFirstExecute(rest: seq<Event>)
    requires Valid(OneSnapshot(0, CREATING), rest)
    ensures var run := [Create("1", 0)] +
                       ([Change(true, Some(Claim("c", "", "pv")))] + ([Invoke("pv", true, 0, "s")] + rest));
            Valid(Start(0), run) && Last(Start(0), run) == Last(OneSnapshot(0, CREATING), rest)
  {
    var c2 := OneSnapshot(0, CREATING).(snaps := []);
    var c1 := c2.(disk := Some(Disk("1", [], None, true, None, 0)));
    var claim := c2.disk.value.claim;
    FirstExecuteSnapshots();
    Unroll(c2, Invoke("pv", true, 0, "s"), rest);
    assert Next(c1, Change(true, claim)) == c2;
    Unroll(c1, Change(true, claim), [Invoke("pv", true, 0, "s")] + rest);
    assert {} + {"1"} == {"1"};
    assert Next(Start(0), Create("1", 0)) == c1;
    Unroll(Start(0), Create("1", 0), [Change(true, claim)] + ([Invoke("pv", true, 0, "s")] + rest));
  }

  /** The run in which the detach after a write is never reported. */
  function UnseenRun(): seq<Event> {
    [Create("1", 0)] +
    ([Change(true, Some(Claim("c", "", "pv")))] +
     ([Invoke("pv", true, 0, "s")] + [Attach("vm"), WriteData(1), Detach("vm", false), Progress(0, READY)]))
  }

  /** Without the detach time, a snapshot from before a later write passes for a backup of it. */
  lemma UnreportedDetachLosesData()
    ensures Valid(Start(0), UnseenRun())
    ensures var c := Last(Start(0), UnseenRun());
            && StepOf(c, "pv", true, 0) == Delete
            && c.disk.Some? && !exists s <- c.snaps :: Backup(c, c.disk.value, s)
  {
    var c := OneSnapshot(1, READY);
    WrittenUnseen();
    AfterFirstExecute([Attach("vm"), WriteData(1), Detach("vm", false), Progress(0, READY)]);
    OneSnapshotStatus(1, READY);
    WhenEvaluateActs(Action.Execute, Some(VolumeOf(c.disk.value)), "pv", true, Completed("s"));
  }

  lemma UnseenRunReportsNothing()
    ensures Reports(UnseenRun(), false)
  {
  }

  /** An execute of a required snapshot that deletes the disk at the end of the run. */
  predicate EndsInDeletion(now: int, run: seq<Event>, pv: string, reading: int) {
    Valid(Start(now), run) && StepOf(Last(Start(now), run), pv, true, reading) == Delete
  }

  /** In all runs of a cloud, an execute that must snapshot only deletes a disk with a backup, exactly
      if the cloud reports detaches. */
  lemma WhenNoDataIsLost(reported: bool)
    ensures (forall now, run, pv, reading | Reports(run, reported) && EndsInDeletion(now, run, pv, reading) ::
               HasBackup(Last(Start(now), run), reading))
            <==> reported
  {
    if reported {
      forall now, run, pv, reading | Reports(run, true) && EndsInDeletion(now, run, pv, reading)
        ensures HasBackup(Last(Start(now), run), reading)
      {
        NoDataIsLost(now, run, pv, reading, None, false, true);
      }
    } else {
      UnseenRunReportsNothing();
      UnreportedDetachLosesData();
      assert EndsInDeletion(0, UnseenRun(), "pv", 0);
    }
  }

  /** Nothing is done about a disk that isn't there. */
  lemma ActsOnlyOnADisk(c: Cloud, pv: string, required: bool, reading: int)
    ensures StepOf(c, pv, required, reading) != Nothing ==> c.disk.Some?
  {
  }

  /** The step an execute takes is that of what it read. */
  lemma InspectedStep(c: Cloud, pv: string, required: bool, reading: int, volume: Option<Vol<Claim>>, snapshot: SnapshotStatus)
    requires volume == match c.disk case None => None case Some(d) => Some(VolumeOf(d))
    requires snapshot == if required && c.disk.Some? then StatusOf(c.snaps, c.disk.value, reading) else Missing
    ensures Evaluate(Action.Execute, volume, pv, required, snapshot).1 == StepOf(c, pv, required, reading)
  {
  }

  // ---------------------------------------------------------------------------------------
  // One invocation, on a cloud that changes in place.

  datatype Outcome = Planned | Refused | Done

  class ComputeEngine {
    var cloud: Cloud

    constructor (cloud: Cloud)
      ensures this.cloud == cloud
    {
      this.cloud := cloud;
    }

    /** The status of the pre-deletion snapshot, found with the loop. */
    method Inspect(required: bool, reading: int) returns (volume: Option<Vol<Claim>>, snapshot: SnapshotStatus)
      ensures volume == match cloud.disk case None => None case Some(d) => Some(VolumeOf(d))
      ensures snapshot ==
              if required && cloud.disk.Some? then StatusOf(cloud.snaps, cloud.disk.value, reading) else Missing
    {
      if cloud.disk.None? {
        return None, Missing;
      }
      var d := cloud.disk.value;
      volume, snapshot := Some(VolumeOf(d)), Missing;
      if required {
        var latest := VS.Latest(Labelled(cloud.snaps, d.id), Key(d, reading));
        if latest.Some? {
          snapshot := VS.StatusOf(latest.value.s);
        }
      }
    }

    /** Takes the step, and answers with a refusal if it is only the snapshot. */
    method TakeStep(step: Step, name: string) returns (outcome: Outcome)
      requires step == CreateSnapshot ==> cloud.disk.Some?
      modifies this
      ensures cloud == Act(old(cloud), step, name) && outcome == if step == Delete then Done else Refused
    {
      match step
      case CreateSnapshot =>
        var d := cloud.disk.value;
        cloud := cloud.(snaps := cloud.snaps + [Take(cloud, d, name, d.id)]);
        return Refused;
      case Delete =>
        cloud := cloud.(disk := None);
        return Done;
      case Nothing =>
        return Refused;
    }

    /** One invocation: at most one change, and none on a plan. */
    method Run(action: Action, pv: string, required: bool, reading: int, name: string) returns (outcome: Outcome)
      modifies this
      ensures action == Plan ==> outcome == Planned && cloud == old(cloud)
      ensures action != Plan ==>
                && cloud == Next(old(cloud), Invoke(pv, required, reading, name))
                && (outcome == Done <==> StepOf(old(cloud), pv, required, reading) == Delete)
    {
      var volume, snapshot := Inspect(required, reading);
      var (guards, step) := Evaluate(action, volume, pv, required, snapshot);
      if action == Plan {
        return Planned;
      }
      InspectedStep(cloud, pv, required, reading, volume, snapshot);
      ActsOnlyOnADisk(cloud, pv, required, reading);
      outcome := TakeStep(step, name);
    }
  }
}
