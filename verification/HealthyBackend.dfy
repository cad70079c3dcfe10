/**
  The concurrent search for a healthy backend of the GCP lb-frontend-delete function
  (`healthyBackend`, functions/go/gcp/internal/lbfrontenddelete/operation.go:140-191).

  A feeder sends the target's members over an unbuffered channel to up to ten workers. Each
  worker asks about the member it got and sends the answer over another unbuffered channel to
  the collector, which cancels the context at the first healthy backend or error. A send and
  the matching receive are one step; every other step belongs to one goroutine. The scheduler,
  the answers and the time at which the caller gives up are arbitrary.
 */
module HealthyBackend {
  import opened Wrappers

  const HEALTH_CHECKS: nat := 10

  datatype Answer = Answer(member: string, healthy: bool, err: Option<string>)

  datatype Worker =
    | Waiting                       // receiving from the members channel
    | Asking(index: nat)            // asking about the member at the index
    | Sending(index: nat, a: Answer) // sending its answer
    | Exited

  datatype Collected = Collected(index: nat, a: Answer)

  datatype State = State(
    next: nat,                 // the feeder's next member
    fed: bool,                 // the feeder has closed the members channel
    workers: seq<Worker>,
    closed: bool,              // the answers channel is closed
    returned: bool,            // the collector has returned
    healthy: string,
    firstErr: Option<string>,
    cancelled: bool,           // the collector has called cancel
    abandoned: bool,           // the caller's own context has ended
    log: seq<Collected>)       // the answers received, in order

  function WorkerCount(members: seq<string>): nat {
    if |members| < HEALTH_CHECKS then |members| else HEALTH_CHECKS
  }

  function Init(members: seq<string>): State {
    State(0, false, seq(WorkerCount(members), _ => Waiting), false, false, "", None, false, false, [])
  }

  /** The collector's handling of one answer. */
  function Collect(s: State, c: Collected): State {
    var a := c.a;
    var s' := s.(log := s.log + [c]);
    if a.err.Some? && s.firstErr.None? && s.healthy == "" then
      s'.(firstErr := a.err, cancelled := true)
    else if a.healthy && s.healthy == "" && s.firstErr.None? then
      s'.(healthy := a.member, cancelled := true)
    else s'
  }

  /** One step of one goroutine, of a channel, or of the caller. */
  datatype Event =
    | Hand(w: nat)                               // the feeder sends a member to a worker
    | StopFeeding                                // the feeder sees that the context is done
    | FinishFeeding                              // the feeder has sent every member
    | Reply(w: nat, healthy: bool, err: Option<string>) // a worker's question is answered
    | Receive(w: nat)                            // a worker sends its answer to the collector
    | Exit(w: nat)                               // a worker finds the members channel closed
    | CloseAnswers                               // every worker has exited
    | Return                                     // the collector finds the answers channel closed
    | Abandon                                    // the caller's context ends

  predicate Enabled(members: seq<string>, s: State, e: Event) {
    match e
    case Hand(w) => !s.fed && s.next < |members| && w < |s.workers| && s.workers[w].Waiting?
    case StopFeeding => !s.fed && s.next < |members| && (s.cancelled || s.abandoned)
    case FinishFeeding => !s.fed && s.next >= |members|
    case Reply(w, _, _) => w < |s.workers| && s.workers[w].Asking? && s.workers[w].index < |members|
    case Receive(w) => !s.closed && !s.returned && w < |s.workers| && s.workers[w].Sending?
    case Exit(w) => s.fed && w < |s.workers| && s.workers[w].Waiting?
    case CloseAnswers => !s.closed && forall w <- s.workers :: w.Exited?
    case Return => s.closed && !s.returned
    case Abandon => !s.abandoned && !s.returned
  }

  function Step(members: seq<string>, s: State, e: Event): State
    requires Enabled(members, s, e)
  {
    match e
    case Hand(w) => s.(workers := s.workers[w := Asking(s.next)], next := s.next + 1)
    case StopFeeding => s.(fed := true)
    case FinishFeeding => s.(fed := true)
    case Reply(w, healthy, err) =>
      var i := s.workers[w].index;
      s.(workers := s.workers[w := Sending(i, Answer(members[i], healthy, err))])
    case Receive(w) =>
      var c := Collected(s.workers[w].index, s.workers[w].a);
      Collect(s.(workers := s.workers[w := Waiting]), c)
    case Exit(w) => s.(workers := s.workers[w := Exited])
    case CloseAnswers => s.(closed := true)
    case Return => s.(returned := true)
    case Abandon => s.(abandoned := true)
  }

  /** A run: each event is enabled where it happens. */
  predicate Valid(members: seq<string>, s: State, run: seq<Event>)
    decreases |run|
  {
    run == [] ||
    (Enabled(members, s, run[0]) && Valid(members, Step(members, s, run[0]), run[1..]))
  }

  function Last(members: seq<string>, s: State, run: seq<Event>): State
    requires Valid(members, s, run)
    decreases |run|
  {
    if run == [] then s else Last(members, Step(members, s, run[0]), run[1..])
  }

  // ---------------------------------------------------------------------------------------
  // Every step lowers a measure.

  function WorkerWork(w: Worker): nat {
    match w
    case Waiting => 1
    case Asking(_) => 3
    case Sending(_, _) => 2
    case Exited => 0
  }

  function Work(ws: seq<Worker>): nat {
    if ws == [] then 0 else WorkerWork(ws[0]) + Work(ws[1..])
  }

  lemma {:induction false} WorkUpdate(ws: seq<Worker>, w: nat, x: Worker)
    requires w < |ws|
    ensures Work(ws[w := x]) == Work(ws) - WorkerWork(ws[w]) + WorkerWork(x)
  {
    if w > 0 {
      WorkUpdate(ws[1..], w - 1, x);
      assert ws[w := x][1..] == ws[1..][w - 1 := x];
    } else {
      assert ws[w := x][1..] == ws[1..];
    }
  }

  function One(pending: bool): nat {
    if pending then 1 else 0
  }

  function Measure(members: seq<string>, s: State): nat
    requires s.next <= |members|
  {
    3 * (|members| - s.next) + Work(s.workers) +
    One(!s.fed) + One(!s.closed) + One(!s.returned) + One(!s.abandoned)
  }

  lemma WorkerStepLowersMeasure(members: seq<string>, s: State, w: nat, e: Event)
    requires s.next <= |members| && Enabled(members, s, e)
    requires e == Hand(w) || e == Receive(w) || e == Exit(w) || (e.Reply? && e.w == w)
    ensures var s' := Step(members, s, e);
            s'.next <= |members| && Measure(members, s') < Measure(members, s)
  {
    var x := Step(members, s, e).workers[w];
    WorkUpdate(s.workers, w, x);
  }

  lemma StepLowersMeasure(members: seq<string>, s: State, e: Event)
    requires s.next <= |members| && Enabled(members, s, e)
    ensures var s' := Step(members, s, e);
            s'.next <= |members| && Measure(members, s') < Measure(members, s)
  {
    match e
    case Hand(w) => WorkerStepLowersMeasure(members, s, w, e);
    case Reply(w, _, _) => WorkerStepLowersMeasure(members, s, w, e);
    case Receive(w) => WorkerStepLowersMeasure(members, s, w, e);
    case Exit(w) => WorkerStepLowersMeasure(members, s, w, e);
    case StopFeeding | FinishFeeding | CloseAnswers | Return | Abandon =>
  }

  lemma {:induction false} RunLowersMeasure(members: seq<string>, s: State, run: seq<Event>)
    requires s.next <= |members| && Valid(members, s, run)
    ensures var s' := Last(members, s, run);
            s'.next <= |members| && Measure(members, s') + |run| <= Measure(members, s)
    decreases |run|
  {
    if run != [] {
      StepLowersMeasure(members, s, run[0]);
      RunLowersMeasure(members, Step(members, s, run[0]), run[1..]);
    }
  }

  lemma {:induction false} WorkOfWaiting(n: nat)
    ensures Work(seq(n, _ => Waiting)) == n
  {
    if n > 0 {
      assert seq(n, _ => Waiting)[1..] == seq(n - 1, _ => Waiting);
      WorkOfWaiting(n - 1);
    }
  }

  /** Every schedule ends, within three steps a member, one a worker and four more. */
  lemma EveryScheduleEnds(members: seq<string>, run: seq<Event>)
    requires Valid(members, Init(members), run)
    ensures |run| <= 3 * |members| + WorkerCount(members) + 4
  {
    RunLowersMeasure(members, Init(members), run);
    WorkOfWaiting(WorkerCount(members));
  }

  // ---------------------------------------------------------------------------------------
  // Which members were asked: every one handed out is either with one worker or answered, once.

  function Holds(w: Worker, i: nat): nat {
    match w
    case Asking(j) => One(i == j)
    case Sending(j, _) => One(i == j)
    case _ => 0
  }

  /** How many workers have the member at the index. */
  function InFlight(ws: seq<Worker>, i: nat): nat {
    if ws == [] then 0 else Holds(ws[0], i) + InFlight(ws[1..], i)
  }

  /** How many answers are about the member at the index. */
  function Answers(log: seq<Collected>, i: nat): nat {
    if log == [] then 0 else Answers(log[..|log| - 1], i) + One(log[|log| - 1].index == i)
  }

  lemma {:induction false} InFlightUpdate(ws: seq<Worker>, w: nat, x: Worker, i: nat)
    requires w < |ws|
    ensures InFlight(ws[w := x], i) == InFlight(ws, i) - Holds(ws[w], i) + Holds(x, i)
  {
    if w > 0 {
      InFlightUpdate(ws[1..], w - 1, x, i);
      assert ws[w := x][1..] == ws[1..][w - 1 := x];
    } else {
      assert ws[w := x][1..] == ws[1..];
    }
  }

  lemma AnswersAppend(log: seq<Collected>, c: Collected, i: nat)
    ensures Answers(log + [c], i) == Answers(log, i) + One(c.index == i)
  {
  }

  lemma {:induction false} InFlightOfIdle(ws: seq<Worker>, i: nat)
    requires forall w <- ws :: w.Waiting? || w.Exited?
    ensures InFlight(ws, i) == 0
  {
    if ws != [] {
      assert ws[0] in ws;
      InFlightOfIdle(ws[1..], i);
    }
  }

  /** The answers name the member asked about. */
  predicate Honest(members: seq<string>, c: Collected) {
    c.index < |members| && c.a.member == members[c.index]
  }

  predicate WorkerFits(members: seq<string>, s: State, w: Worker) {
    match w
    case Waiting => !s.closed
    case Asking(i) => !s.closed && i < s.next
    case Sending(i, a) => !s.closed && i < s.next && Honest(members, Collected(i, a))
    case Exited => s.fed
  }

  predicate Bad(c: Collected) {
    c.a.healthy || c.a.err.Some?
  }

  predicate HealthyIsLogged(s: State) {
    s.healthy != "" ==> exists c <- s.log :: c.a.healthy && c.a.err.None? && c.a.member == s.healthy
  }

  predicate ErrorIsLogged(s: State) {
    s.firstErr.Some? ==> exists c <- s.log :: c.a.err == s.firstErr
  }

  predicate NothingIsLogged(s: State) {
    s.healthy == "" && s.firstErr.None? ==>
      forall c <- s.log :: c.a.err.None? && (c.a.healthy ==> c.a.member == "")
  }

  predicate CancelIsLogged(s: State) {
    && (s.healthy != "" || s.firstErr.Some? ==> s.cancelled)
    && (s.cancelled ==> exists c <- s.log :: Bad(c))
  }

  /** What the collector knows is what its log says. */
  predicate CollectorAgrees(s: State) {
    && (s.healthy != "" ==> s.firstErr.None?)
    && HealthyIsLogged(s) && ErrorIsLogged(s) && NothingIsLogged(s) && CancelIsLogged(s)
  }

  ghost predicate FirstBad(log: seq<Collected>, k: nat) {
    k < |log| && Bad(log[k]) && forall j: nat :: j < k ==> !Bad(log[j])
  }

  /** The first answer that is an error or healthy decides the result. */
  ghost predicate FirstDecides(s: State) {
    forall k: nat :: FirstBad(s.log, k) ==>
      if s.log[k].a.err.Some? then s.firstErr == s.log[k].a.err && s.healthy == ""
      else s.healthy == s.log[k].a.member && s.firstErr.None?
  }

  ghost predicate AllFit(members: seq<string>, s: State) {
    && s.next <= |members|
    && |s.workers| == WorkerCount(members)
    && (forall w <- s.workers :: WorkerFits(members, s, w))
    && (s.fed ==> s.next == |members| || s.cancelled || s.abandoned)
    && (s.returned ==> s.closed)
  }

  ghost predicate EachOnce(ws: seq<Worker>, log: seq<Collected>, next: nat) {
    forall i: nat :: InFlight(ws, i) + Answers(log, i) == One(i < next)
  }

  predicate AllHonest(members: seq<string>, log: seq<Collected>) {
    forall c <- log :: Honest(members, c)
  }

  ghost predicate Inv(members: seq<string>, s: State) {
    && AllFit(members, s)
    && AllHonest(members, s.log)
    && EachOnce(s.workers, s.log, s.next)
    && CollectorAgrees(s)
  }

  lemma InitInv(members: seq<string>)
    requires members != []
    ensures Inv(members, Init(members))
  {
    forall i: nat
      ensures InFlight(Init(members).workers, i) == 0
    {
      InFlightOfIdle(Init(members).workers, i);
    }
  }

  lemma CollectKeepsHealthy(s: State, c: Collected)
    requires (s.healthy != "" ==> s.firstErr.None?) && HealthyIsLogged(s)
    ensures HealthyIsLogged(Collect(s, c))
  {
    LogGrows(s, c);
  }

  lemma CollectKeepsError(s: State, c: Collected)
    requires ErrorIsLogged(s)
    ensures ErrorIsLogged(Collect(s, c))
  {
    LogGrows(s, c);
  }

  lemma CollectKeepsNothing(s: State, c: Collected)
    requires NothingIsLogged(s)
    ensures NothingIsLogged(Collect(s, c))
  {
    LogGrows(s, c);
  }

  lemma CollectKeepsCancel(s: State, c: Collected)
    requires CancelIsLogged(s)
    ensures CancelIsLogged(Collect(s, c))
  {
    LogGrows(s, c);
    if s.cancelled {
      var x :| x in s.log && Bad(x);
      assert x in Collect(s, c).log;
    } else if Collect(s, c).cancelled {
      assert Bad(c) && c in Collect(s, c).log;
    }
  }

  lemma LogGrows(s: State, c: Collected)
    ensures forall x :: x in Collect(s, c).log <==> x in s.log || x == c
  {
  }

  lemma CollectKeepsAgreement(s: State, c: Collected)
    requires CollectorAgrees(s)
    ensures CollectorAgrees(Collect(s, c))
  {
    CollectKeepsHealthy(s, c);
    CollectKeepsError(s, c);
    CollectKeepsNothing(s, c);
    CollectKeepsCancel(s, c);
  }

  /** What a change of one worker keeps, if the worker still fits. */
  lemma UpdateKeepsFits(members: seq<string>, s: State, w: nat, x: Worker, s': State)
    requires AllFit(members, s) && w < |s.workers| && s'.workers == s.workers[w := x]
    requires s.next <= s'.next <= |members| && s'.fed == s.fed && s'.closed == s.closed
    requires (s.cancelled ==> s'.cancelled) && s'.abandoned == s.abandoned && s'.returned == s.returned
    requires s.fed ==> s'.next == s.next
    requires WorkerFits(members, s', x)
    ensures AllFit(members, s')
  {
    forall y | y in s'.workers
      ensures WorkerFits(members, s', y)
    {
      assert y in s.workers || y == x;
    }
  }

  /** A worker that changes hands over `answered`, if anything, and takes `taken`. */
  lemma UpdateKeepsCounts(ws: seq<Worker>, log: seq<Collected>, next: nat, w: nat, x: Worker,
                          log': seq<Collected>, next': nat)
    requires w < |ws| && EachOnce(ws, log, next)
    requires forall i: nat :: Holds(x, i) + Answers(log', i) + One(i < next)
                              == Holds(ws[w], i) + Answers(log, i) + One(i < next')
    ensures EachOnce(ws[w := x], log', next')
  {
    forall i: nat
      ensures InFlight(ws[w := x], i) + Answers(log', i) == One(i < next')
    {
      InFlightUpdate(ws, w, x, i);
      assert InFlight(ws, i) + Answers(log, i) == One(i < next);
      assert Holds(x, i) + Answers(log', i) + One(i < next) == Holds(ws[w], i) + Answers(log, i) + One(i < next');
    }
  }

  lemma ReceiveKeepsCounts(ws: seq<Worker>, log: seq<Collected>, next: nat, w: nat)
    requires w < |ws| && ws[w].Sending? && EachOnce(ws, log, next)
    ensures EachOnce(ws[w := Waiting], log + [Collected(ws[w].index, ws[w].a)], next)
  {
    var c := Collected(ws[w].index, ws[w].a);
    forall i: nat
      ensures Answers(log + [c], i) == Answers(log, i) + One(c.index == i)
    {
      AnswersAppend(log, c, i);
    }
    UpdateKeepsCounts(ws, log, next, w, Waiting, log + [c], next);
  }

  lemma ReceiveKeepsInv(members: seq<string>, s: State, w: nat)
    requires Inv(members, s) && Enabled(members, s, Receive(w))
    ensures Inv(members, Step(members, s, Receive(w)))
  {
    var c := Collected(s.workers[w].index, s.workers[w].a);
    var s' := Step(members, s, Receive(w));
    assert WorkerFits(members, s, s.workers[w]);
    UpdateKeepsFits(members, s, w, Waiting, s');
    ReceiveKeepsCounts(s.workers, s.log, s.next, w);
    CollectKeepsAgreement(s.(workers := s.workers[w := Waiting]), c);
  }

  lemma OtherStepKeepsInv(members: seq<string>, s: State, w: nat, e: Event)
    requires Inv(members, s) && Enabled(members, s, e)
    requires e == Hand(w) || e == Exit(w) || (e.Reply? && e.w == w)
    ensures Inv(members, Step(members, s, e))
  {
    var s' := Step(members, s, e);
    assert WorkerFits(members, s, s.workers[w]);
    UpdateKeepsFits(members, s, w, s'.workers[w], s');
    UpdateKeepsCounts(s.workers, s.log, s.next, w, s'.workers[w], s'.log, s'.next);
  }

  lemma StepKeepsInv(members: seq<string>, s: State, e: Event)
    requires Inv(members, s) && Enabled(members, s, e)
    ensures Inv(members, Step(members, s, e))
  {
    match e
    case Receive(w) => ReceiveKeepsInv(members, s, w);
    case Hand(w) => OtherStepKeepsInv(members, s, w, e);
    case Reply(w, _, _) => OtherStepKeepsInv(members, s, w, e);
    case Exit(w) => OtherStepKeepsInv(members, s, w, e);
    case StopFeeding | FinishFeeding | CloseAnswers | Return | Abandon =>
      var s' := Step(members, s, e);
      forall y | y in s'.workers
        ensures WorkerFits(members, s', y)
      {
        assert WorkerFits(members, s, y);
      }
  }

  lemma {:induction false} RunKeepsInv(members: seq<string>, s: State, run: seq<Event>)
    requires Inv(members, s) && Valid(members, s, run)
    ensures Inv(members, Last(members, s, run))
    decreases |run|
  {
    if run != [] {
      StepKeepsInv(members, s, run[0]);
      RunKeepsInv(members, Step(members, s, run[0]), run[1..]);
    }
  }

  lemma FirstBadOfLonger(log: seq<Collected>, c: Collected, k: nat)
    requires FirstBad(log + [c], k)
    ensures if k < |log| then FirstBad(log, k) else forall x <- log :: !Bad(x)
  {
    var log' := log + [c];
    assert forall j: nat :: j < |log| ==> log'[j] == log[j];
    assert forall x <- log :: exists j: nat :: j < |log| && log[j] == x;
  }

  lemma CollectKeepsFirst(s: State, c: Collected)
    requires CollectorAgrees(s) && FirstDecides(s)
    requires c.a.member != "" && forall x <- s.log :: x.a.member != ""
    ensures FirstDecides(Collect(s, c))
  {
    forall k: nat | FirstBad(s.log + [c], k)
      ensures var s' := Collect(s, c);
              if s'.log[k].a.err.Some? then s'.firstErr == s'.log[k].a.err && s'.healthy == ""
              else s'.healthy == s'.log[k].a.member && s'.firstErr.None?
    {
      FirstBadOfLonger(s.log, c, k);
      if k < |s.log| {
        assert s.log[k] in s.log;
      }
    }
  }

  lemma StepKeepsFirst(members: seq<string>, s: State, e: Event)
    requires "" !in members && Inv(members, s) && FirstDecides(s) && Enabled(members, s, e)
    ensures FirstDecides(Step(members, s, e))
  {
    if e.Receive? {
      var c := Collected(s.workers[e.w].index, s.workers[e.w].a);
      assert WorkerFits(members, s, s.workers[e.w]);
      assert Honest(members, c) && members[c.index] in members;
      forall x | x in s.log
        ensures x.a.member != ""
      {
        assert Honest(members, x) && members[x.index] in members;
      }
      CollectKeepsFirst(s.(workers := s.workers[e.w := Waiting]), c);
    }
  }

  lemma {:induction false} RunKeepsFirst(members: seq<string>, s: State, run: seq<Event>)
    requires "" !in members && Inv(members, s) && FirstDecides(s) && Valid(members, s, run)
    ensures FirstDecides(Last(members, s, run))
    decreases |run|
  {
    if run != [] {
      StepKeepsInv(members, s, run[0]);
      StepKeepsFirst(members, s, run[0]);
      RunKeepsFirst(members, Step(members, s, run[0]), run[1..]);
    }
  }

  // ---------------------------------------------------------------------------------------
  // What every schedule guarantees.

  /** No reachable state is stuck: until the collector has returned, some goroutine can step. */
  lemma NeverStuck(members: seq<string>, run: seq<Event>)
    requires members != [] && Valid(members, Init(members), run)
    requires !Last(members, Init(members), run).returned
    ensures exists e: Event :: !e.Abandon? && Enabled(members, Last(members, Init(members), run), e)
  {
    InitInv(members);
    RunKeepsInv(members, Init(members), run);
    var s := Last(members, Init(members), run);
    if s.closed {
      assert Enabled(members, s, Return);
    } else if w :| 0 <= w < |s.workers| && s.workers[w].Asking? {
      assert s.workers[w] in s.workers;
      assert Enabled(members, s, Reply(w, false, None));
    } else if w :| 0 <= w < |s.workers| && s.workers[w].Sending? {
      assert Enabled(members, s, Receive(w));
    } else if w :| 0 <= w < |s.workers| && s.workers[w].Waiting? {
      assert Enabled(members, s,
                     if s.fed then Exit(w) else if s.next < |members| then Hand(w) else FinishFeeding);
    } else {
      assert forall w <- s.workers :: w.Exited?;
      assert Enabled(members, s, CloseAnswers);
    }
  }

  /** At most ten members are asked about at once, and there is a worker for each of fewer. */
  lemma AtMostTenAtOnce(members: seq<string>, run: seq<Event>)
    requires members != [] && Valid(members, Init(members), run)
    ensures var workers := Last(members, Init(members), run).workers;
            |workers| <= 10 && |workers| <= |members| && (|workers| == 10 || |workers| == |members|)
  {
    InitInv(members);
    RunKeepsInv(members, Init(members), run);
  }

  /** Once the collector has returned, the feeder and every worker have ended too. */
  lemma NothingIsLeftRunning(members: seq<string>, run: seq<Event>)
    requires members != [] && Valid(members, Init(members), run)
    requires Last(members, Init(members), run).returned
    ensures var s := Last(members, Init(members), run);
            s.fed && s.closed && forall w <- s.workers :: w.Exited?
  {
    InitInv(members);
    RunKeepsInv(members, Init(members), run);
    var s := Last(members, Init(members), run);
    forall w | w in s.workers
      ensures w.Exited? && s.fed
    {
      assert WorkerFits(members, s, w);
    }
    assert s.workers[0] in s.workers;
  }

  /** A member returned was asked and answered healthy, an error was answered too, and never are
      both returned. The first such answer decides and stops the feeding. */
  lemma ReturnedWasAnswered(members: seq<string>, run: seq<Event>)
    requires members != [] && Valid(members, Init(members), run)
    ensures var s := Last(members, Init(members), run);
            && (s.healthy != "" ==>
                  s.firstErr.None? &&
                  exists c <- s.log ::
                    c.index < |members| && members[c.index] == s.healthy && c.a.healthy && c.a.err.None?)
            && (s.firstErr.Some? ==> s.healthy == "" && exists c <- s.log :: c.a.err == s.firstErr)
            && ("" !in members ==> FirstDecides(s))
            && (s.healthy != "" || s.firstErr.Some? ==> s.cancelled)
  {
    InitInv(members);
    RunKeepsInv(members, Init(members), run);
    var s := Last(members, Init(members), run);
    if "" !in members {
      RunKeepsFirst(members, Init(members), run);
    }
    if s.healthy != "" {
      var c :| c in s.log && c.a.healthy && c.a.err.None? && c.a.member == s.healthy;
      assert Honest(members, c);
    }
  }

  predicate AnsweredAt(log: seq<Collected>, i: nat) {
    exists c <- log :: c.index == i
  }

  lemma {:induction false} LoggedIndexes(log: seq<Collected>, i: nat)
    ensures Answers(log, i) > 0 ==> AnsweredAt(log, i)
  {
    if log != [] {
      LoggedIndexes(log[..|log| - 1], i);
      assert log[|log| - 1] in log;
    }
  }

  /** Every member was asked exactly once, and every answer was unhealthy. */
  ghost predicate AllAnsweredUnhealthy(members: seq<string>, s: State) {
    && (forall i: nat :: Answers(s.log, i) == One(i < |members|))
    && (forall i: nat | i < |members| :: AnsweredAt(s.log, i))
    && (forall c <- s.log :: Honest(members, c) && !Bad(c))
  }

  /** The collector has returned no healthy backend and no error, and the caller didn't give up. */
  predicate FoundNothing(s: State) {
    s.returned && s.healthy == "" && s.firstErr.None? && !s.abandoned
  }

  /** No healthy backend and no error means that every member was asked exactly once and answered
      unhealthy, if no member's URL is empty and the caller didn't give up. */
  lemma EmptyMeansAllUnhealthy(members: seq<string>, run: seq<Event>)
    requires members != [] && "" !in members && Valid(members, Init(members), run)
    requires FoundNothing(Last(members, Init(members), run))
    ensures AllAnsweredUnhealthy(members, Last(members, Init(members), run))
  {
    InitInv(members);
    RunKeepsInv(members, Init(members), run);
    NothingIsLeftRunning(members, run);
    var s := Last(members, Init(members), run);
    forall c | c in s.log
      ensures Honest(members, c) && !Bad(c)
    {
      assert members[c.index] in members;
    }
    forall i: nat
      ensures Answers(s.log, i) == One(i < |members|)
      ensures i < |members| ==> AnsweredAt(s.log, i)
    {
      InFlightOfIdle(s.workers, i);
      assert InFlight(s.workers, i) + Answers(s.log, i) == One(i < s.next);
      LoggedIndexes(s.log, i);
    }
  }

  lemma {:induction false} OneMore(members: seq<string>, s: State, run: seq<Event>, e: Event)
    requires Valid(members, s, run) && Enabled(members, Last(members, s, run), e)
    ensures Valid(members, s, run + [e])
    ensures Last(members, s, run + [e]) == Step(members, Last(members, s, run), e)
    decreases |run|
  {
    if run == [] {
      assert run + [e] == [e] && [e][1..] == [];
    } else {
      assert (run + [e])[1..] == run[1..] + [e];
      OneMore(members, Step(members, s, run[0]), run[1..], e);
    }
  }

  // A schedule that asks one member after another, of which only those without a URL are healthy.

  function Asked(members: seq<string>, n: nat): seq<Collected>
    requires n <= |members|
  {
    seq(n, i requires 0 <= i < n => Collected(i, Answer(members[i], members[i] == "", None)))
  }

  /** The first members were asked by the first worker. */
  predicate AskedInTurn(members: seq<string>, s: State, n: nat) {
    && n <= |members| && s.next == n && s.log == Asked(members, n)
    && s.workers == seq(WorkerCount(members), _ => Waiting)
    && !s.fed && !s.closed && !s.returned && !s.abandoned && s.healthy == "" && s.firstErr.None?
  }

  lemma AskNext(members: seq<string>, s: State, n: nat)
    requires AskedInTurn(members, s, n) && n < |members|
    ensures Enabled(members, s, Hand(0))
    ensures var s1 := Step(members, s, Hand(0));
            && Enabled(members, s1, Reply(0, members[n] == "", None))
            && var s2 := Step(members, s1, Reply(0, members[n] == "", None));
            && Enabled(members, s2, Receive(0)) && AskedInTurn(members, Step(members, s2, Receive(0)), n + 1)
  {
    var s1 := Step(members, s, Hand(0));
    var s2 := Step(members, s1, Reply(0, members[n] == "", None));
    var s3 := Step(members, s2, Receive(0));
    assert s3.workers == s.workers;
    assert s3.log == Asked(members, n + 1);
  }

  lemma {:induction false} AskInTurn(members: seq<string>, n: nat) returns (run: seq<Event>)
    requires members != [] && n <= |members|
    ensures Valid(members, Init(members), run) && AskedInTurn(members, Last(members, Init(members), run), n)
  {
    if n == 0 {
      run := [];
    } else {
      run := AskInTurn(members, n - 1);
      var init := Init(members);
      AskNext(members, Last(members, init, run), n - 1);
      OneMore(members, init, run, Hand(0));
      var r := run + [Hand(0)];
      OneMore(members, init, r, Reply(0, members[n - 1] == "", None));
      r := r + [Reply(0, members[n - 1] == "", None)];
      OneMore(members, init, r, Receive(0));
      run := r + [Receive(0)];
    }
  }

  /** After the last member, the first workers have found the channel closed. */
  predicate ExitedInTurn(members: seq<string>, s: State, n: nat) {
    && n <= WorkerCount(members) && s.log == Asked(members, |members|)
    && s.workers == seq(WorkerCount(members), i => if i < n then Exited else Waiting)
    && s.fed && !s.closed && !s.returned && !s.abandoned && s.healthy == "" && s.firstErr.None?
  }

  lemma {:induction false} ExitInTurn(members: seq<string>, n: nat) returns (run: seq<Event>)
    requires members != [] && n <= WorkerCount(members)
    ensures Valid(members, Init(members), run) && ExitedInTurn(members, Last(members, Init(members), run), n)
  {
    var init := Init(members);
    if n == 0 {
      var r := AskInTurn(members, |members|);
      OneMore(members, init, r, FinishFeeding);
      run := r + [FinishFeeding];
    } else {
      var r := ExitInTurn(members, n - 1);
      OneMore(members, init, r, Exit(n - 1));
      run := r + [Exit(n - 1)];
      var workers := Last(members, init, run).workers;
      assert workers == seq(WorkerCount(members), i => if i < n then Exited else Waiting);
    }
  }

  lemma HealthyWithoutUrlIsLost(members: seq<string>) returns (run: seq<Event>)
    requires "" in members
    ensures Valid(members, Init(members), run)
    ensures var s := Last(members, Init(members), run); FoundNothing(s) && !AllAnsweredUnhealthy(members, s)
  {
    var init := Init(members);
    var r := ExitInTurn(members, WorkerCount(members));
    OneMore(members, init, r, CloseAnswers);
    OneMore(members, init, r + [CloseAnswers], Return);
    run := r + [CloseAnswers] + [Return];
    var i :| 0 <= i < |members| && members[i] == "";
    var s := Last(members, init, run);
    assert s.log[i].a.healthy && s.log[i] in s.log;
  }

  /** Whatever the schedule and the answers, finding nothing means that every member was asked once
      and answered unhealthy, exactly if every member has a URL. */
  lemma WhenNothingFoundIsRight(members: seq<string>)
    requires members != []
    ensures (forall run | Valid(members, Init(members), run) && FoundNothing(Last(members, Init(members), run)) ::
               AllAnsweredUnhealthy(members, Last(members, Init(members), run)))
            <==> "" !in members
  {
    if "" in members {
      var run := HealthyWithoutUrlIsLost(members);
    } else {
      forall run | Valid(members, Init(members), run) && FoundNothing(Last(members, Init(members), run))
        ensures AllAnsweredUnhealthy(members, Last(members, Init(members), run))
      {
        EmptyMeansAllUnhealthy(members, run);
      }
    }
  }

  /** If each member's health is fixed and no question fails, every schedule gives the answer of
      asking one member after another: some healthy member if there is one, none otherwise. */
  lemma EveryScheduleFindsHealth(members: seq<string>, run: seq<Event>, health: nat -> bool)
    requires members != [] && "" !in members && Valid(members, Init(members), run)
    requires var s := Last(members, Init(members), run);
             && s.returned && !s.abandoned
             && forall c <- s.log :: c.a.err.None? && c.a.healthy == health(c.index)
    ensures var s := Last(members, Init(members), run);
            && s.firstErr.None?
            && (s.healthy != "" <==> exists i: nat :: i < |members| && health(i))
            && (s.healthy != "" ==> exists i: nat :: i < |members| && health(i) && members[i] == s.healthy)
  {
    ReturnedWasAnswered(members, run);
    var s := Last(members, Init(members), run);
    if s.healthy == "" {
      EmptyMeansAllUnhealthy(members, run);
      forall i: nat | i < |members|
        ensures !health(i)
      {
        assert AnsweredAt(s.log, i);
        var c :| c in s.log && c.index == i;
        assert !Bad(c);
      }
    }
  }
}
