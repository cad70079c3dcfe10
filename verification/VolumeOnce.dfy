/** Repeated executes don't pile up snapshots: at most one that still counts is in progress. */
module VolumeOnce {
  import opened Wrappers
  import opened Volume
  import opened VolumeProtocol

  /** A snapshot the function started of the disk. */
  predicate OwnSnap(d: Disk, s: Snap) {
    s.diskLabel == d.id && s.s.sourceDiskId == d.id
  }

  predicate Counting(d: Disk, s: Snap, reading: int) {
    OwnSnap(d, s) && VS.Eligible(s.s, d.id, Window(d, reading))
  }

  predicate Pending(s: Snap) {
    VS.StatusOf(s.s).InProgress?
  }

  /** What the world must keep to at an event: only the function uses the disk's ID as label, a
      snapshot that ended doesn't start again, and the function's clock, within the tolerated
      skew, never goes back from one execute to the next. */
  predicate Orderly(c: Cloud, e: Event, lastReading: int)
    requires Enabled(c, e)
  {
    match e
    case OtherSnapshot(_, diskLabel) => diskLabel != c.disk.value.id
    case Progress(i, _) => Pending(Next(c, e).snaps[i]) ==> Pending(c.snaps[i])
    case Invoke(_, _, reading, _) => reading >= lastReading && -CLOCK_SKEW_SECS <= reading - c.now <= CLOCK_SKEW_SECS
    case _ => true
  }

  function Reading(e: Event, lastReading: int): int {
    if e.Invoke? then e.reading else lastReading
  }

  predicate OrderlyRun(c: Cloud, run: seq<Event>, lastReading: int)
    requires Valid(c, run)
    decreases |run|
  {
    run == [] ||
    (Orderly(c, run[0], lastReading) && OrderlyRun(Next(c, run[0]), run[1..], Reading(run[0], lastReading)))
  }

  function LastReading(run: seq<Event>, lastReading: int): int {
    if run == [] then lastReading else LastReading(run[1..], Reading(run[0], lastReading))
  }

  /** Of two snapshots that count, at a reading from now on, the earlier isn't in progress. */
  predicate Superseded(d: Disk, a: Snap, b: Snap, reading: int) {
    Counting(d, a, reading) && Counting(d, b, reading) ==> !Pending(a)
  }

  ghost predicate Inv2(c: Cloud, lastReading: int) {
    && (forall s <- c.snaps :: s.s.sourceDiskId in c.ids)
    && (c.disk.Some? ==>
          var d := c.disk.value;
          && d.id in c.ids
          && (d.lastDetach.Some? ==> d.lastDetach.value <= c.now)
          && (forall s <- c.snaps :: OwnSnap(d, s) ==> s.s.created.Some? && s.s.created.value <= c.now)
          && (forall i, j :: 0 <= i < j < |c.snaps| && OwnSnap(d, c.snaps[i]) && OwnSnap(d, c.snaps[j]) ==>
                c.snaps[i].s.created.value <= c.snaps[j].s.created.value)
          && (forall i, j, reading :: 0 <= i < j < |c.snaps| && reading >= lastReading ==>
                Superseded(d, c.snaps[i], c.snaps[j], reading)))
  }

  // ---------------------------------------------------------------------------------------
  // The latest of the listed snapshots is the latest of all with the label.

  function LatestElement(ss: seq<Snap>, key: Snap -> Option<int>): Option<Snap> {
    match VS.LatestOf(ss, key) case None => None case Some(k) => Some(ss[k])
  }

  function OwnKey(d: Disk, reading: int): Snap -> Option<int> {
    (s: Snap) => if Counting(d, s, reading) then s.s.created else None
  }

  /** The later of two snapshots that count, the second winning ties. */
  function Later(a: Option<Snap>, b: Snap, key: Snap -> Option<int>): Option<Snap>
    requires a.Some? ==> key(a.value).Some?
  {
    if key(b).Some? && (a.None? || key(b).value >= key(a.value).value) then Some(b) else a
  }

  lemma LatestOfLonger(front: seq<Snap>, s: Snap, key: Snap -> Option<int>)
    ensures LatestElement(front, key).Some? ==> key(LatestElement(front, key).value).Some?
    ensures LatestElement(front + [s], key) == Later(LatestElement(front, key), s, key)
  {
  }

  lemma {:induction false} LabelledLatest(ss: seq<Snap>, d: Disk, reading: int)
    ensures LatestElement(Labelled(ss, d.id), Key(d, reading)) == LatestElement(ss, OwnKey(d, reading))
  {
    if ss != [] {
      var front, s := ss[..|ss| - 1], ss[|ss| - 1];
      var key, ownKey := Key(d, reading), OwnKey(d, reading);
      var listed := Labelled(front, d.id);
      LabelledLatest(front, d, reading);
      assert ss == front + [s];
      LatestOfLonger(front, s, ownKey);
      LatestOfLonger(listed, s, key);
      var best := LatestElement(front, ownKey);
      assert best.Some? ==> key(best.value) == ownKey(best.value);
      assert s.diskLabel == d.id ==> key(s) == ownKey(s);
      assert s.diskLabel != d.id ==> ownKey(s).None?;
    }
  }

  // ---------------------------------------------------------------------------------------
  // What each event keeps.

  /** A snapshot that will count at a later reading counted at the execute's. */
  lemma CountedBefore(c: Cloud, d: Disk, s: Snap, now: int, later: int)
    requires s.s.created.Some? && s.s.created.value <= c.now
    requires now <= later && now - c.now >= -CLOCK_SKEW_SECS && Counting(d, s, later)
    ensures Counting(d, s, now)
  {
  }

  /** An execute only starts a snapshot when none in progress counts. */
  lemma StartsOnlyWithoutPending(c: Cloud, pv: string, reading: int, lastReading: int, i: nat)
    requires Inv2(c, lastReading) && reading >= lastReading
    requires StepOf(c, pv, true, reading) == CreateSnapshot
    requires c.disk.Some? && i < |c.snaps| && Counting(c.disk.value, c.snaps[i], reading)
    ensures !Pending(c.snaps[i])
  {
    var d := c.disk.value;
    var status := StatusOf(c.snaps, d, reading);
    WhenEvaluateActs(Action.Execute, Some(VolumeOf(d)), pv, true, status);
    LabelledLatest(c.snaps, d, reading);
    VS.LatestOfIsLatest(c.snaps, OwnKey(d, reading));
    assert OwnKey(d, reading)(c.snaps[i]).Some?;
    var k := VS.LatestOf(c.snaps, OwnKey(d, reading)).value;
    assert Counting(d, c.snaps[k], reading) && !Pending(c.snaps[k]);
    if i < k {
      assert Superseded(d, c.snaps[i], c.snaps[k], reading);
    }
  }

  lemma InvokeKeepsInv2(c: Cloud, e: Event, lastReading: int)
    requires Inv2(c, lastReading) && e.Invoke? && Orderly(c, e, lastReading)
    ensures Inv2(Next(c, e), e.reading)
  {
    var c', n := Next(c, e), |c.snaps|;
    if c'.disk.Some? && |c'.snaps| > n {
      var d := c.disk.value;
      forall i, j, reading | 0 <= i < j < |c'.snaps| && reading >= e.reading
        ensures Superseded(d, c'.snaps[i], c'.snaps[j], reading)
      {
        if j < n {
          assert Superseded(d, c.snaps[i], c.snaps[j], reading);
        } else if Counting(d, c.snaps[i], reading) {
          CountedBefore(c, d, c.snaps[i], e.reading, reading);
          StartsOnlyWithoutPending(c, e.pv, e.reading, lastReading, i);
        }
      }
    }
  }

  /** An event that changes no snapshot and at most moves the detach time forward. */
  lemma DiskEventKeepsInv2(c: Cloud, c': Cloud, lastReading: int)
    requires Inv2(c, lastReading) && c'.snaps == c.snaps && c'.now >= c.now && c.ids <= c'.ids
    requires c'.disk.Some? ==>
               var d' := c'.disk.value;
               && d'.id in c'.ids
               && (d'.lastDetach.Some? ==> d'.lastDetach.value <= c'.now)
               && (d'.id in c.ids ==>
                     && c.disk.Some? && c.disk.value.id == d'.id
                     && (c.disk.value.lastDetach.Some? ==>
                           d'.lastDetach.Some? && d'.lastDetach.value >= c.disk.value.lastDetach.value))
    ensures Inv2(c', lastReading)
  {
    if c'.disk.Some? {
      var d' := c'.disk.value;
      if d'.id in c.ids {
        forall i, j, reading | 0 <= i < j < |c.snaps| && reading >= lastReading
          ensures Superseded(d', c.snaps[i], c.snaps[j], reading)
        {
          assert Superseded(c.disk.value, c.snaps[i], c.snaps[j], reading);
          CountsLess(c.disk.value, d', c.snaps[i], reading);
          CountsLess(c.disk.value, d', c.snaps[j], reading);
        }
      } else {
        assert forall s <- c.snaps :: !OwnSnap(d', s);
      }
    }
  }

  /** A later detach makes no more snapshots count. */
  lemma CountsLess(d: Disk, d': Disk, s: Snap, reading: int)
    requires d.id == d'.id && (d.lastDetach.Some? ==> d'.lastDetach.Some? && d'.lastDetach.value >= d.lastDetach.value)
    ensures Counting(d', s, reading) ==> Counting(d, s, reading)
  {
  }

  lemma AppendKeepsInv2(c: Cloud, s: Snap, ids: set<string>, lastReading: int)
    requires Inv2(c, lastReading) && c.ids <= ids && s.s.sourceDiskId in ids
    requires c.disk.Some? ==> !OwnSnap(c.disk.value, s)
    ensures Inv2(c.(snaps := c.snaps + [s], ids := ids), lastReading)
  {
  }

  /** A snapshot of the list as it was, up to its contents, name and status. */
  predicate SameSource(a: Snap, b: Snap) {
    a.s.sourceDiskId == b.s.sourceDiskId && a.diskLabel == b.diskLabel && a.s.created == b.s.created
  }

  lemma ProgressKeepsInv2(c: Cloud, e: Event, lastReading: int)
    requires Inv2(c, lastReading) && e.Progress? && Enabled(c, e) && Orderly(c, e, lastReading)
    ensures Inv2(Next(c, e), lastReading)
  {
    var c' := Next(c, e);
    assert forall k :: 0 <= k < |c.snaps| ==> SameSource(c'.snaps[k], c.snaps[k]) && c.snaps[k] in c.snaps;
    if c.disk.Some? {
      var d := c.disk.value;
      assert forall k :: 0 <= k < |c.snaps| && OwnSnap(d, c'.snaps[k]) ==> OwnSnap(d, c.snaps[k]);
      forall i, j, reading | 0 <= i < j < |c'.snaps| && reading >= lastReading
        ensures Superseded(d, c'.snaps[i], c'.snaps[j], reading)
      {
        SameCounting(d, c.snaps[i], c'.snaps[i], reading);
        SameCounting(d, c.snaps[j], c'.snaps[j], reading);
        assert Superseded(d, c.snaps[i], c.snaps[j], reading);
      }
    }
  }

  lemma SameCounting(d: Disk, a: Snap, b: Snap, reading: int)
    requires SameSource(a, b)
    ensures Counting(d, a, reading) == Counting(d, b, reading)
  {
  }

  lemma RemoveKeepsInv2(c: Cloud, i: nat, lastReading: int)
    requires Inv2(c, lastReading) && i < |c.snaps|
    ensures Inv2(Next(c, RemoveSnapshot(i)), lastReading)
  {
    var c' := Next(c, RemoveSnapshot(i));
    if c.disk.Some? {
      var d := c.disk.value;
      forall a, b, reading | 0 <= a < b < |c'.snaps| && reading >= lastReading
        ensures Superseded(d, c'.snaps[a], c'.snaps[b], reading)
      {
        assert Superseded(d, c.snaps[if a < i then a else a + 1], c.snaps[if b < i then b else b + 1], reading);
      }
    }
  }

  lemma NextKeepsInv2(c: Cloud, e: Event, lastReading: int)
    requires Inv2(c, lastReading) && Enabled(c, e) && Orderly(c, e, lastReading)
    ensures Inv2(Next(c, e), Reading(e, lastReading))
  {
    match e
    case Invoke(_, _, _, _) => InvokeKeepsInv2(c, e, lastReading);
    case Progress(_, _) => ProgressKeepsInv2(c, e, lastReading);
    case RemoveSnapshot(i) => RemoveKeepsInv2(c, i, lastReading);
    case OtherSnapshot(name, diskLabel) =>
      AppendKeepsInv2(c, Take(c, c.disk.value, name, diskLabel), c.ids, lastReading);
    case UnrelatedSnapshot(s) => AppendKeepsInv2(c, s, c.ids + {s.s.sourceDiskId}, lastReading);
    case _ => DiskEventKeepsInv2(c, Next(c, e), lastReading);
  }

  lemma {:induction false} RunKeepsInv2(c: Cloud, run: seq<Event>, lastReading: int)
    requires Inv2(c, lastReading) && Valid(c, run) && OrderlyRun(c, run, lastReading)
    ensures Inv2(Last(c, run), LastReading(run, lastReading))
    decreases |run|
  {
    if run != [] {
      NextKeepsInv2(c, run[0], lastReading);
      RunKeepsInv2(Next(c, run[0]), run[1..], Reading(run[0], lastReading));
    }
  }

  /** No two snapshots the function started of the disk are in progress and still count. */
  predicate AtMostOne(c: Cloud, reading: int) {
    c.disk.Some? ==>
      var d := c.disk.value;
      forall i, j :: 0 <= i < j < |c.snaps| ==>
        !(Counting(d, c.snaps[i], reading) && Pending(c.snaps[i]) && Counting(d, c.snaps[j], reading) && Pending(c.snaps[j]))
  }

  /** At any reading of the clock from the last execute's on, at most one snapshot that counts is
      pending. */
  lemma AtMostOnePending(now: int, run: seq<Event>, lastReading: int, reading: int)
    requires Valid(Start(now), run) && OrderlyRun(Start(now), run, lastReading)
    requires reading >= LastReading(run, lastReading)
    ensures AtMostOne(Last(Start(now), run), reading)
  {
    RunKeepsInv2(Start(now), run, lastReading);
    var c := Last(Start(now), run);
    if c.disk.Some? {
      forall i, j | 0 <= i < j < |c.snaps|
        ensures Superseded(c.disk.value, c.snaps[i], c.snaps[j], reading)
      {
      }
    }
  }

  /** A pending snapshot the function started too long before `reading` to count, but not before
      `later`. */
  predicate TooOldThen(d: Disk, s: Snap, reading: int, later: int) {
    && OwnSnap(d, s) && Pending(s) && s.s.created.Some?
    && (d.lastDetach.Some? ==> s.s.created.value > d.lastDetach.value)
    && later - SNAPSHOT_MAX_AGE_SECS <= s.s.created.value < reading - SNAPSHOT_MAX_AGE_SECS
  }

  lemma PendingWasTooOld(c: Cloud, pv: string, reading: int, lastReading: int, later: int, i: nat)
    requires Inv2(c, lastReading) && reading >= lastReading
    requires -CLOCK_SKEW_SECS <= reading - c.now <= CLOCK_SKEW_SECS && later >= c.now - CLOCK_SKEW_SECS
    requires StepOf(c, pv, true, reading) == CreateSnapshot && c.disk.Some? && i < |c.snaps|
    ensures Counting(c.disk.value, c.snaps[i], later) && Pending(c.snaps[i]) <==>
            TooOldThen(c.disk.value, c.snaps[i], reading, later)
  {
    var d, s := c.disk.value, c.snaps[i];
    if Pending(s) && Counting(d, s, reading) {
      StartsOnlyWithoutPending(c, pv, reading, lastReading, i);
    }
    assert OwnSnap(d, s) ==> s.s.created.Some? && s.s.created.value <= c.now;
  }

  /** An execute that starts a snapshot adds to a pending one that counts at a later reading exactly
      if one was too old for the execute's clock and isn't for the later one, which only a clock that
      went back makes possible. */
  lemma WhenStartIsSecond(c: Cloud, pv: string, reading: int, lastReading: int, later: int)
    requires Inv2(c, lastReading) && reading >= lastReading
    requires -CLOCK_SKEW_SECS <= reading - c.now <= CLOCK_SKEW_SECS && later >= c.now - CLOCK_SKEW_SECS
    requires StepOf(c, pv, true, reading) == CreateSnapshot && c.disk.Some?
    ensures var d := c.disk.value;
            && ((exists s <- c.snaps :: Counting(d, s, later) && Pending(s)) <==>
                (exists s <- c.snaps :: TooOldThen(d, s, reading, later)))
            && ((exists s <- c.snaps :: TooOldThen(d, s, reading, later)) ==> later < reading)
  {
    forall s | s in c.snaps
      ensures Counting(c.disk.value, s, later) && Pending(s) <==> TooOldThen(c.disk.value, s, reading, later)
    {
      var i :| 0 <= i < |c.snaps| && c.snaps[i] == s;
      PendingWasTooOld(c, pv, reading, lastReading, later, i);
    }
  }

  // A run with two: a fast clock finds the first snapshot too old and starts another, and a right
  // one counts both.

  /** The first snapshot, nearly a day later. */
  function Late(): Cloud {
    OneSnapshot(0, CREATING).(now := 86200)
  }

  function Again(): Event {
    Invoke("pv", true, 86450, "t")
  }

  lemma FastClockFindsNone()
    ensures StatusOf(Late().snaps, Late().disk.value, 86450) == Missing
  {
    var snaps := Late().snaps;
    assert !VS.Eligible(snaps[0].s, "1", Window(Late().disk.value, 86450));
    assert snaps[..0] == [];
    assert Labelled(snaps, "1") == snaps;
  }

  lemma FastClockStartsAnother()
    ensures Next(Late(), Again()) == Late().(snaps := Late().snaps + [Take(Late(), Late().disk.value, "t", "1")])
  {
    FastClockFindsNone();
    WhenEvaluateActs(Action.Execute, Some(VolumeOf(Late().disk.value)), "pv", true, Missing);
  }

  function RunBack(): seq<Event> {
    [Create("1", 0)] + ([Change(true, Some(Claim("c", "", "pv")))] + ([Invoke("pv", true, 0, "s")] + [Tick(86200), Again()]))
  }

  lemma TicksAndStarts()
    ensures Valid(OneSnapshot(0, CREATING), [Tick(86200), Again()])
    ensures Last(OneSnapshot(0, CREATING), [Tick(86200), Again()]) == Next(Late(), Again())
    ensures OrderlyRun(OneSnapshot(0, CREATING), [Tick(86200), Again()], 0)
  {
    var c := OneSnapshot(0, CREATING);
    assert Next(c, Tick(86200)) == Late();
    OrderlyUnroll(Late(), Again(), [], 0);
    OrderlyUnroll(c, Tick(86200), [Again()], 0);
    assert [Again()] + [] == [Again()] && [Tick(86200)] + [Again()] == [Tick(86200), Again()];
  }

  lemma OrderlyUnroll(c: Cloud, e: Event, rest: seq<Event>, lastReading: int)
    requires Enabled(c, e) && Valid(Next(c, e), rest) && Orderly(c, e, lastReading)
    requires OrderlyRun(Next(c, e), rest, Reading(e, lastReading))
    ensures Valid(c, [e] + rest) && OrderlyRun(c, [e] + rest, lastReading)
    ensures Last(c, [e] + rest) == Last(Next(c, e), rest)
  {
    assert ([e] + rest)[1..] == rest;
  }

  lemma RunBackIsOrderly()
    ensures Valid(Start(0), RunBack()) && OrderlyRun(Start(0), RunBack(), 0)
    ensures Last(Start(0), RunBack()) == Next(Late(), Again())
  {
    var rest := [Tick(86200), Again()];
    TicksAndStarts();
    var c2 := OneSnapshot(0, CREATING).(snaps := []);
    var c1 := c2.(disk := Some(Disk("1", [], None, true, None, 0)));
    FirstExecuteSnapshots();
    OrderlyUnroll(c2, Invoke("pv", true, 0, "s"), rest, 0);
    assert Next(c1, Change(true, c2.disk.value.claim)) == c2;
    OrderlyUnroll(c1, Change(true, c2.disk.value.claim), [Invoke("pv", true, 0, "s")] + rest, 0);
    assert {} + {"1"} == {"1"};
    assert Next(Start(0), Create("1", 0)) == c1;
    OrderlyUnroll(Start(0), Create("1", 0), [Change(true, c2.disk.value.claim)] + ([Invoke("pv", true, 0, "s")] + rest), 0);
  }

  /** For a right clock both count. */
  lemma BothArePending()
    ensures !AtMostOne(Next(Late(), Again()), 86200)
  {
    FastClockStartsAnother();
    var first, second := Late().snaps[0], Take(Late(), Late().disk.value, "t", "1");
    IsPending(first, 0);
    IsPending(second, 86200);
    TwoArePending(Next(Late(), Again()), first, second, 86200);
  }

  lemma IsPending(s: Snap, created: int)
    requires s.s.created == Some(created) && (created == 0 || created == 86200)
    requires s.s.sourceDiskId == "1" && s.diskLabel == "1" && s.s.status == Some(CREATING)
    ensures Counting(Late().disk.value, s, 86200) && Pending(s)
  {
  }

  lemma TwoArePending(c: Cloud, first: Snap, second: Snap, reading: int)
    requires c.disk.Some? && c.snaps == [first, second]
    requires Counting(c.disk.value, first, reading) && Pending(first)
    requires Counting(c.disk.value, second, reading) && Pending(second)
    ensures !AtMostOne(c, reading)
  {
    assert c.snaps[0] == first && c.snaps[1] == second;
  }

  lemma LastReadingOfRunBack()
    ensures LastReading(RunBack(), 0) == 86450
  {
    var run := RunBack();
    assert LastReading(run[5..], 86450) == 86450;
    assert run[4..][1..] == run[5..] && run[3..][1..] == run[4..] && run[2..][1..] == run[3..] && run[1..][1..] == run[2..];
    assert LastReading(run[4..], 0) == 86450;
    assert LastReading(run[3..], 0) == 86450;
    assert LastReading(run[2..], 0) == 86450;
    assert LastReading(run[1..], 0) == 86450;
  }

  /** In a run whose executes' clock stays within the tolerated skew and never goes back, two snapshots
      can be pending and count for a clock that is right, if it is behind that of the last execute. */
  lemma TwoPendingWhenClockGoesBack()
    ensures Valid(Start(0), RunBack()) && OrderlyRun(Start(0), RunBack(), 0)
    ensures var c := Last(Start(0), RunBack()); c.now == 86200 < LastReading(RunBack(), 0) && !AtMostOne(c, 86200)
  {
    RunBackIsOrderly();
    BothArePending();
    FastClockStartsAnother();
    LastReadingOfRunBack();
  }

  /** A clock read at the end of an orderly run, within the skew and, if it is `monotone`, not before
      the last execute's reading. */
  predicate ReadAfter(now: int, run: seq<Event>, first: int, reading: int, monotone: bool) {
    && Valid(Start(now), run) && OrderlyRun(Start(now), run, first)
    && -CLOCK_SKEW_SECS <= reading - Last(Start(now), run).now <= CLOCK_SKEW_SECS
    && (monotone ==> reading >= LastReading(run, first))
  }

  /** In all orderly runs at most one snapshot that counts is pending, exactly if the clock doesn't
      go back. */
  lemma WhenAtMostOneIsPending(monotone: bool)
    ensures (forall now, run, first, reading | ReadAfter(now, run, first, reading, monotone) ::
               AtMostOne(Last(Start(now), run), reading))
            <==> monotone
  {
    if monotone {
      forall now, run, first, reading | ReadAfter(now, run, first, reading, true)
        ensures AtMostOne(Last(Start(now), run), reading)
      {
        AtMostOnePending(now, run, first, reading);
      }
    } else {
      TwoPendingWhenClockGoesBack();
      assert ReadAfter(0, RunBack(), 0, 86200, false);
    }
  }
}
