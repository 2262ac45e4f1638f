/** Bounds on `vehicle_data` calls over whole runs of polls (src/sleep.rs, src/logger.rs). */
module SleepRuns {
  import opened Base
  import opened Sleep

  const STREAM_IDLE := 90

  /** How the drive stream that may follow a driving reading ended, and when. */
  datatype StreamEnd = NoStream | StreamIdle(at: Time) | StreamStopped

  /** One poll whose summary was read: when it was planned, what the probe (if any) saw and when, what
      `vehicle_data` (if called) answered and when. `data` is `None` when the call failed. */
  datatype Poll = Poll(
    summary: string, planAt: Time, reading: StreamReading, probeAt: Time,
    data: Option<Vehicle>, applyAt: Time, end: StreamEnd)

  predicate Calls(phase: Phase, p: Poll, cfg: Config) {
    match Plan(phase, p.summary, p.planAt, cfg)
    case SummaryOnly(_, _) => false
    case Probe(purpose) => AfterProbe(purpose, p.reading, phase, p.probeAt, cfg).CallVehicleData?
    case VehicleData => true
  }

  /** When the poll decided to call. */
  function CallTime(phase: Phase, p: Poll, cfg: Config): Time {
    if Plan(phase, p.summary, p.planAt, cfg).VehicleData? then p.planAt else p.probeAt
  }

  /** The phase after a successful call: a drive stream that went quiet backdates the idle clock. */
  function Fetched(phase: Phase, p: Poll, cfg: Config): Phase
    requires p.data.Some?
  {
    var applied := ApplyVehicleData(p.data.value, phase, p.applyAt, cfg);
    if applied.activity == Driving && cfg.useStreaming && p.end.StreamIdle?
    then Awake(if p.end.at >= STREAM_IDLE then p.end.at - STREAM_IDLE else p.end.at)
    else applied.phase
  }

  /** `poll_car`: a failed call keeps the phase. */
  function PollCar(phase: Phase, p: Poll, cfg: Config): Phase {
    match Plan(phase, p.summary, p.planAt, cfg)
    case SummaryOnly(next, _) => next
    case Probe(purpose) =>
      (match AfterProbe(purpose, p.reading, phase, p.probeAt, cfg)
       case CallVehicleData => if p.data.Some? then Fetched(phase, p, cfg) else phase
       case Wait(next, _) => next)
    case VehicleData => if p.data.Some? then Fetched(phase, p, cfg) else phase
  }

  function LastClock(p: Poll): Time {
    if p.end.StreamIdle? then p.end.at else p.applyAt
  }

  predicate InOrder(p: Poll) {
    p.planAt <= p.probeAt <= p.applyAt <= LastClock(p)
  }

  ghost predicate IsRun(phases: seq<Phase>, polls: seq<Poll>, cfg: Config) {
    && |phases| == |polls| + 1
    && (forall i :: 0 <= i < |polls| ==> InOrder(polls[i]) && phases[i + 1] == PollCar(phases[i], polls[i], cfg))
    && (forall i :: 0 < i < |polls| ==> LastClock(polls[i - 1]) <= polls[i].planAt)
  }

  function ClockAt(start: Time, polls: seq<Poll>, k: nat): Time
    requires k <= |polls|
  {
    if k == 0 then start else LastClock(polls[k - 1])
  }

  // ---------- When a poll calls ----------

  /** Awake; or suspended, past its deadline or seen in use; or it may be checking itself, and the stream is off, shows
      anything but nothing, or the grace has passed. */
  predicate CallDue(phase: Phase, p: Poll, cfg: Config) {
    var nothing := cfg.useStreaming && p.reading.Got? && NilSample(p.reading.sample);
    match phase
    case Awake(_) => true
    case Suspended(_, resumeAt) =>
      || (resumeAt.Some? && resumeAt.value <= p.planAt)
      || (cfg.useStreaming && p.reading.Got? && !QuietSample(p.reading.sample))
    case Checking(since) => !nothing || since + cfg.subsystemGrace <= p.probeAt || cfg.subsystemGrace == 0
    case _ => !nothing || cfg.subsystemGrace == 0
  }

  lemma CallsExactlyWhen(phase: Phase, p: Poll, cfg: Config)
    requires InOrder(p)
    ensures Calls(phase, p, cfg) <==> p.summary == "online" && CallDue(phase, p, cfg)
  {
  }

  /** What a poll of an online car without a call leaves: a suspended car keeps its idle clock and, with the stream, has
      a deadline from its first such probe; a car that may be checking itself keeps the start of the check. */
  lemma PhaseWithoutCall(phase: Phase, p: Poll, cfg: Config)
    requires p.summary == "online" && !Calls(phase, p, cfg)
    ensures phase.Suspended? ==> PollCar(phase, p, cfg) == Suspended(phase.idleSince,
              if cfg.useStreaming && phase.resumeAt.None? then Some(p.probeAt + cfg.suspendFor) else phase.resumeAt)
    ensures !phase.Suspended? ==> PollCar(phase, p, cfg) == Checking(if phase.Checking? then phase.since else p.probeAt)
  {
  }

  /** A poll without a call, by its summary or its probe, waits the interval of a sleeping car. */
  lemma UncalledWaits(phase: Phase, p: Poll, cfg: Config)
    requires !Calls(phase, p, cfg)
    ensures match Plan(phase, p.summary, p.planAt, cfg)
            case SummaryOnly(_, wait) => wait == cfg.asleepInterval
            case Probe(purpose) => AfterProbe(purpose, p.reading, phase, p.probeAt, cfg).wait == cfg.asleepInterval
            case VehicleData => false
  {
  }

  // ---------- The idle clock ----------

  /** A reading that shows use, or something that restarts the car's own sleep timer. */
  ghost predicate Busy(p: Poll, cfg: Config) {
    p.data.Some? && (!ParkedReading(p.data.value) || BusyBlock(p.data.value, cfg))
  }

  /** Something other than standing unlocked comes first. */
  ghost predicate BusyBlock(v: Vehicle, cfg: Config) {
    exists b: SleepBlock :: b != Unlocked && Holds(v, cfg, b) && !(b == Power && Holds(v, cfg, Unlocked))
  }

  /** When the last busy reading of the first `k` polls was applied. */
  ghost function LastBusy(phases: seq<Phase>, polls: seq<Poll>, cfg: Config, k: nat): Option<Time>
    requires k <= |polls| && |phases| == |polls| + 1
  {
    if k == 0 then None
    else if Calls(phases[k - 1], polls[k - 1], cfg) && Busy(polls[k - 1], cfg) then Some(polls[k - 1].applyAt)
    else LastBusy(phases, polls, cfg, k - 1)
  }

  ghost predicate IdleClockOk(phase: Phase, now: Time, lastBusy: Option<Time>, cfg: Config) {
    && (lastBusy.Some? ==> lastBusy.value <= now)
    && (phase.Awake? || phase.Suspended? ==>
          && phase.idleSince <= now
          && (lastBusy.Some? ==> lastBusy.value <= phase.idleSince + STREAM_IDLE))
    && (phase.Suspended? ==> phase.idleSince + cfg.idleBeforeSuspend <= now)
    && (phase.Checking? ==> phase.since <= now)
  }

  lemma PollKeepsIdleClock(phase: Phase, p: Poll, cfg: Config, now: Time, lastBusy: Option<Time>)
    requires IdleClockOk(phase, now, lastBusy, cfg) && InOrder(p) && now <= p.planAt
    requires cfg.idleBeforeSuspend >= 1
    ensures IdleClockOk(PollCar(phase, p, cfg), LastClock(p),
                        if Calls(phase, p, cfg) && Busy(p, cfg) then Some(p.applyAt) else lastBusy, cfg)
  {
    if Calls(phase, p, cfg) && p.data.Some? {
      assert PollCar(phase, p, cfg) == Fetched(phase, p, cfg);
    }
  }

  predicate DrivingReading(v: Vehicle) {
    v.chargingState !in {Some("Charging"), Some("Starting")} && !Still(v.shift, v.speed)
  }

  /** Since when the car is idle after a busy reading: since it was applied; after a drive whose stream went quiet,
      since the ninety seconds of quiet began. */
  function IdleFrom(p: Poll, cfg: Config): Time
    requires p.data.Some?
  {
    if DrivingReading(p.data.value) && cfg.useStreaming && p.end.StreamIdle?
    then if p.end.at >= 90 then p.end.at - 90 else p.end.at
    else p.applyAt
  }

  /** What a call with an answer leaves of the idle clock. */
  lemma CallSetsIdleClock(phase: Phase, p: Poll, cfg: Config)
    requires Calls(phase, p, cfg) && p.data.Some?
    ensures Busy(p, cfg) ==> PollCar(phase, p, cfg) == Awake(IdleFrom(p, cfg))
    ensures var idle := if phase.Awake? || phase.Suspended? then phase.idleSince else p.applyAt;
            !Busy(p, cfg) ==>
              PollCar(phase, p, cfg) ==
              if AtRest(p.data.value, cfg) && cfg.idleBeforeSuspend <= Since(p.applyAt, idle)
              then Suspended(idle, if cfg.useStreaming then None else Some(p.applyAt + cfg.suspendFor))
              else Awake(idle)
  {
    assert PollCar(phase, p, cfg) == Fetched(phase, p, cfg);
    var v := p.data.value;
    ActivitySays(v);
    FirstBlockCounts(v, cfg);
    var block := WhatBlocksSleep(v, cfg);
    if ParkedReading(v) && block.Some? {
      BusyUnlessUnlocked(v, cfg, block.value);
    }
  }

  lemma BusyUnlessUnlocked(v: Vehicle, cfg: Config, first: SleepBlock)
    requires FirstToHold(v, cfg, first)
    ensures BusyBlock(v, cfg) <==> first != Unlocked
  {
    assert first != Unlocked ==> Holds(v, cfg, first) && !(first == Power && Holds(v, cfg, Unlocked));
  }

  /** Poll `i` is busy; the polls after it, up to the `k`-th, answer and are not. */
  ghost predicate Resting(phases: seq<Phase>, polls: seq<Poll>, cfg: Config, i: nat, k: nat) {
    && IsRun(phases, polls, cfg) && i < k <= |polls|
    && Calls(phases[i], polls[i], cfg) && Busy(polls[i], cfg)
    && forall j :: i < j < k ==> polls[j].summary == "online" && polls[j].data.Some? && !Busy(polls[j], cfg)
  }

  ghost predicate SuspendsBy(phases: seq<Phase>, i: nat, k: nat)
    requires k < |phases|
  {
    exists j :: i < j <= k && phases[j].Suspended?
  }

  /** The poll finds the car at rest, the threshold after `idle`. */
  ghost predicate RestDue(p: Poll, cfg: Config, idle: Time) {
    p.data.Some? && AtRest(p.data.value, cfg) && idle + cfg.idleBeforeSuspend <= p.applyAt
  }

  lemma OneMoreAnswer(phase: Phase, p: Poll, cfg: Config, idle: Time)
    requires phase == Awake(idle) && InOrder(p) && idle <= p.planAt
    requires p.summary == "online" && p.data.Some? && !Busy(p, cfg)
    ensures PollCar(phase, p, cfg).Suspended? <==> RestDue(p, cfg, idle)
    ensures PollCar(phase, p, cfg).Suspended? || PollCar(phase, p, cfg) == phase
  {
    hide Busy, AtRest;
    CallsExactlyWhen(phase, p, cfg);
    CallSetsIdleClock(phase, p, cfg);
  }

  /** One of the polls after `i`, before `k`, does. */
  ghost predicate RestDueBy(polls: seq<Poll>, cfg: Config, i: nat, k: nat, idle: Time)
    requires k <= |polls|
  {
    exists j :: i < j < k && RestDue(polls[j], cfg, idle)
  }

  /** After a busy reading logging is suspended as soon as, and no sooner than, a reading finds the car at rest with the
      threshold gone by, however long the car stands unlocked or still in between. */
  lemma {:induction false} SuspendsAtTheThreshold(phases: seq<Phase>, polls: seq<Poll>, cfg: Config, i: nat, k: nat)
    requires Resting(phases, polls, cfg, i, k)
    ensures SuspendsBy(phases, i, k) <==> RestDueBy(polls, cfg, i, k, IdleFrom(polls[i], cfg))
    ensures !SuspendsBy(phases, i, k) ==> phases[k] == Awake(IdleFrom(polls[i], cfg))
    ensures IdleFrom(polls[i], cfg) <= LastClock(polls[k - 1])
    decreases k
  {
    assert polls[i].data.Some?;
    hide Busy, RestDue, IdleFrom, Calls, PollCar;
    if k == i + 1 {
      CallSetsIdleClock(phases[i], polls[i], cfg);
      IdleFromIsPast(polls[i], cfg);
    } else {
      SuspendsAtTheThreshold(phases, polls, cfg, i, k - 1);
      OneMorePoll(phases, polls, cfg, i, k - 1);
    }
  }

  lemma OneMorePoll(phases: seq<Phase>, polls: seq<Poll>, cfg: Config, i: nat, n: nat)
    requires Resting(phases, polls, cfg, i, n + 1) && i < n
    requires SuspendsBy(phases, i, n) <==> RestDueBy(polls, cfg, i, n, IdleFrom(polls[i], cfg))
    requires !SuspendsBy(phases, i, n) ==> phases[n] == Awake(IdleFrom(polls[i], cfg))
    requires IdleFrom(polls[i], cfg) <= LastClock(polls[n - 1])
    ensures SuspendsBy(phases, i, n + 1) <==> RestDueBy(polls, cfg, i, n + 1, IdleFrom(polls[i], cfg))
    ensures !SuspendsBy(phases, i, n + 1) ==> phases[n + 1] == Awake(IdleFrom(polls[i], cfg))
    ensures IdleFrom(polls[i], cfg) <= LastClock(polls[n])
  {
    assert polls[i].data.Some?;
    hide Busy, RestDue, IdleFrom, Calls, PollCar;
    var idle := IdleFrom(polls[i], cfg);
    assert InOrder(polls[n]) && LastClock(polls[n - 1]) <= polls[n].planAt;
    assert phases[n + 1] == PollCar(phases[n], polls[n], cfg);
    assert polls[n].summary == "online" && polls[n].data.Some? && !Busy(polls[n], cfg);
    hide IsRun, Resting;
    if !SuspendsBy(phases, i, n) { OneMoreAnswer(phases[n], polls[n], cfg, idle); }
    assert SuspendsBy(phases, i, n + 1) <==> SuspendsBy(phases, i, n) || phases[n + 1].Suspended?;
    assert RestDueBy(polls, cfg, i, n + 1, idle) <==>
      RestDueBy(polls, cfg, i, n, idle) || RestDue(polls[n], cfg, idle);
  }

  lemma IdleFromIsPast(p: Poll, cfg: Config)
    requires InOrder(p) && p.data.Some?
    ensures IdleFrom(p, cfg) <= LastClock(p)
  {
  }

  /** In every run, the idle clock is not ahead of now, the last busy reading is at most the stream's idle time
      after it, and a suspended car has been idle for the whole threshold. */
  lemma {:induction false} IdleClockHolds(phases: seq<Phase>, polls: seq<Poll>, cfg: Config, start: Time, k: nat)
    requires IsRun(phases, polls, cfg) && k <= |polls| && cfg.idleBeforeSuspend >= 1
    requires phases[0] == Startup && (polls != [] ==> start <= polls[0].planAt)
    ensures IdleClockOk(phases[k], ClockAt(start, polls, k), LastBusy(phases, polls, cfg, k), cfg)
  {
    if k > 0 {
      IdleClockHolds(phases, polls, cfg, start, k - 1);
      PollKeepsIdleClock(phases[k - 1], polls[k - 1], cfg, ClockAt(start, polls, k - 1),
                         LastBusy(phases, polls, cfg, k - 1));
    }
  }

  /** A poll suspends logging only when the last busy reading is the idle threshold, less the stream's slack, ago. */
  lemma SuspensionComesAfterQuiet(phases: seq<Phase>, polls: seq<Poll>, cfg: Config, start: Time, k: nat)
    requires IsRun(phases, polls, cfg) && k < |polls| && cfg.idleBeforeSuspend >= 1
    requires phases[0] == Startup && start <= polls[0].planAt
    requires !phases[k].Suspended? && phases[k + 1].Suspended?
    ensures var busy := LastBusy(phases, polls, cfg, k + 1);
            && Calls(phases[k], polls[k], cfg)
            && phases[k + 1].idleSince + cfg.idleBeforeSuspend <= polls[k].applyAt
            && (busy.Some? ==> busy.value + cfg.idleBeforeSuspend <= polls[k].applyAt + STREAM_IDLE)
  {
    IdleClockHolds(phases, polls, cfg, start, k + 1);
  }

  // ---------- A suspended, quiet car ----------

  /** Online, nothing on the stream, and a parked, unblocked reading if one is taken. */
  ghost predicate Quiet(p: Poll, cfg: Config) {
    && p.summary == "online"
    && (p.reading.Got? ==> QuietSample(p.reading.sample))
    && p.data.Some? && AtRest(p.data.value, cfg)
  }

  /** Where a suspended car stands after the call of poll `i`: the deadline is fixed by the first probe. */
  ghost predicate Armed(phases: seq<Phase>, polls: seq<Poll>, cfg: Config, i: nat, k: nat)
    requires i < k <= |polls| && |phases| == |polls| + 1
  {
    && phases[k].Suspended?
    && (if cfg.useStreaming
        then phases[k].resumeAt ==
             if k == i + 1 then None else Some(polls[i + 1].probeAt + cfg.suspendFor)
        else phases[k].resumeAt == Some(polls[i].applyAt + cfg.suspendFor))
  }

  ghost predicate QuietSince(phases: seq<Phase>, polls: seq<Poll>, cfg: Config, i: nat, j: nat)
    requires |phases| == |polls| + 1
  {
    && i < j <= |polls|
    && Calls(phases[i], polls[i], cfg) && phases[i + 1].Suspended?
    && (forall k :: i <= k < j ==> Quiet(polls[k], cfg))
    && (forall k :: i < k < j ==> !Calls(phases[k], polls[k], cfg))
  }

  lemma {:induction false} FirstProbeFixesDeadline(phases: seq<Phase>, polls: seq<Poll>, cfg: Config, i: nat, k: nat)
    requires IsRun(phases, polls, cfg) && QuietSince(phases, polls, cfg, i, k)
    ensures Armed(phases, polls, cfg, i, k)
    decreases k
  {
    if k == i + 1 {
      assert Quiet(polls[i], cfg);
    } else {
      FirstProbeFixesDeadline(phases, polls, cfg, i, k - 1);
      assert Quiet(polls[k - 1], cfg) && !Calls(phases[k - 1], polls[k - 1], cfg);
    }
  }

  /** Consecutive calls to a suspended, quiet car are at least `suspendFor` apart. */
  lemma CallsAreFarApart(phases: seq<Phase>, polls: seq<Poll>, cfg: Config, i: nat, j: nat)
    requires IsRun(phases, polls, cfg) && j < |polls| && QuietSince(phases, polls, cfg, i, j)
    requires Quiet(polls[j], cfg) && Calls(phases[j], polls[j], cfg)
    ensures polls[i].applyAt + cfg.suspendFor <= CallTime(phases[j], polls[j], cfg)
    ensures phases[j].Suspended? && CallTime(phases[j], polls[j], cfg) == polls[j].planAt
  {
    FirstProbeFixesDeadline(phases, polls, cfg, i, j);
    if i + 1 < |polls| {
      TimesGrow(phases, polls, cfg, i, i + 1);
    }
  }

  lemma TimesGrow(phases: seq<Phase>, polls: seq<Poll>, cfg: Config, i: nat, k: nat)
    requires IsRun(phases, polls, cfg) && i < k < |polls| && k == i + 1
    ensures polls[i].applyAt <= polls[k].planAt
  {
    assert InOrder(polls[i]) && LastClock(polls[k - 1]) <= polls[k].planAt;
  }

  /** `g` bounds the time between the plans of two polls, and from a call to the end of the next poll's probe. */
  ghost predicate GapsAtMost(phases: seq<Phase>, polls: seq<Poll>, cfg: Config, g: nat)
    requires |phases| == |polls| + 1
  {
    forall k :: 0 < k < |polls| ==>
      if Calls(phases[k - 1], polls[k - 1], cfg)
      then polls[k].planAt <= polls[k - 1].applyAt + g && polls[k].probeAt <= polls[k - 1].applyAt + g
      else polls[k].planAt <= polls[k - 1].planAt + g
  }

  /** ... and at most `suspendFor` plus two poll gaps apart. */
  lemma CallsAreNotTooFarApart(phases: seq<Phase>, polls: seq<Poll>, cfg: Config, i: nat, j: nat, g: nat)
    requires IsRun(phases, polls, cfg) && j < |polls| && QuietSince(phases, polls, cfg, i, j)
    requires Quiet(polls[j], cfg) && GapsAtMost(phases, polls, cfg, g)
    ensures polls[j].planAt <= polls[i].applyAt + cfg.suspendFor + 2 * g
    ensures polls[j].planAt >= polls[i].applyAt + g + cfg.suspendFor && j > i + 1 ==> Calls(phases[j], polls[j], cfg)
  {
    FirstProbeFixesDeadline(phases, polls, cfg, i, j);
    assert polls[i + 1].probeAt <= polls[i].applyAt + g;
    if j > i + 1 {
      FirstProbeFixesDeadline(phases, polls, cfg, i, j - 1);
      assert Quiet(polls[j - 1], cfg) && !Calls(phases[j - 1], polls[j - 1], cfg);
      assert polls[j].planAt <= polls[j - 1].planAt + g;
    }
  }

  /** The call finds the car still quiet and suspends it again, so the bounds apply from call to call. */
  lemma QuietCallSuspendsAgain(phase: Phase, p: Poll, cfg: Config, now: Time, lastBusy: Option<Time>)
    requires phase.Suspended? && Quiet(p, cfg) && Calls(phase, p, cfg)
    requires IdleClockOk(phase, now, lastBusy, cfg) && InOrder(p) && now <= p.planAt
    ensures PollCar(phase, p, cfg).Suspended? && PollCar(phase, p, cfg).idleSince == phase.idleSince
  {
    SuspendsWhen(p.data.value, phase, p.applyAt, cfg);
    ActivitySays(p.data.value);
  }

  /** From poll `a` up to poll `b` a suspended car stays online, parked, unblocked and quiet on the stream. */
  ghost predicate StaysQuiet(phases: seq<Phase>, polls: seq<Poll>, cfg: Config, start: Time, a: nat, b: nat)
    requires |phases| == |polls| + 1
  {
    && IsRun(phases, polls, cfg) && cfg.idleBeforeSuspend >= 1
    && phases[0] == Startup && (polls != [] ==> start <= polls[0].planAt)
    && a <= b <= |polls| && phases[a].Suspended?
    && forall k :: a <= k < b ==> Quiet(polls[k], cfg)
  }

  lemma {:induction false} QuietCarStaysSuspended(
      phases: seq<Phase>, polls: seq<Poll>, cfg: Config, start: Time, a: nat, b: nat, k: nat)
    requires |phases| == |polls| + 1 && StaysQuiet(phases, polls, cfg, start, a, b) && a <= k <= b
    ensures phases[k].Suspended? && phases[k].idleSince == phases[a].idleSince
  {
    if k > a {
      QuietCarStaysSuspended(phases, polls, cfg, start, a, b, k - 1);
      assert Quiet(polls[k - 1], cfg) && InOrder(polls[k - 1]);
      IdleClockHolds(phases, polls, cfg, start, k - 1);
      if Calls(phases[k - 1], polls[k - 1], cfg) {
        ClockBefore(phases, polls, cfg, start, k - 1);
        QuietCallSuspendsAgain(phases[k - 1], polls[k - 1], cfg, ClockAt(start, polls, k - 1),
                               LastBusy(phases, polls, cfg, k - 1));
      }
    }
  }

  lemma ClockBefore(phases: seq<Phase>, polls: seq<Poll>, cfg: Config, start: Time, k: nat)
    requires IsRun(phases, polls, cfg) && k < |polls| && start <= polls[0].planAt
    ensures ClockAt(start, polls, k) <= polls[k].planAt
  {
  }

  /** While a suspended car stays quiet, any two consecutive `vehicle_data` calls are at least `suspendFor` apart,
      and with gaps of at most `g` between polls at most `suspendFor + 2 * g`, with the stream or without. */
  lemma QuietCallsAreSpaced(
      phases: seq<Phase>, polls: seq<Poll>, cfg: Config, start: Time, a: nat, b: nat, i: nat, j: nat, g: nat)
    requires |phases| == |polls| + 1 && StaysQuiet(phases, polls, cfg, start, a, b)
    requires a <= i < j < b && Calls(phases[i], polls[i], cfg) && Calls(phases[j], polls[j], cfg)
    requires forall k :: i < k < j ==> !Calls(phases[k], polls[k], cfg)
    ensures polls[i].applyAt + cfg.suspendFor <= CallTime(phases[j], polls[j], cfg)
    ensures GapsAtMost(phases, polls, cfg, g) ==>
              CallTime(phases[j], polls[j], cfg) <= polls[i].applyAt + cfg.suspendFor + 2 * g
  {
    QuietCarStaysSuspended(phases, polls, cfg, start, a, b, i + 1);
    assert QuietSince(phases, polls, cfg, i, j);
    CallsAreFarApart(phases, polls, cfg, i, j);
    if GapsAtMost(phases, polls, cfg, g) {
      CallsAreNotTooFarApart(phases, polls, cfg, i, j, g);
    }
  }

  // ---------- A call that fails ----------

  /** Any call that fails keeps the phase. One the plan asked for is made again at the next online poll. One that a
      stream sample raised is made again exactly when the next online poll is past the deadline, or sees such a sample
      in its turn: use of a suspended car, anything but nil power in a car that may be checking itself. */
  lemma FailedCallIsRetried(phase: Phase, p: Poll, next: Poll, cfg: Config)
    requires Calls(phase, p, cfg) && p.data.None? && next.summary == "online"
    requires InOrder(p) && InOrder(next) && LastClock(p) <= next.planAt
    ensures PollCar(phase, p, cfg) == phase
    ensures Plan(phase, p.summary, p.planAt, cfg).VehicleData? ==> Calls(phase, next, cfg)
    ensures phase.Suspended? ==>
      (Calls(phase, next, cfg) <==>
        (phase.resumeAt.Some? && phase.resumeAt.value <= next.planAt) ||
        (cfg.useStreaming && next.reading.Got? && !QuietSample(next.reading.sample)))
    ensures !phase.Suspended? && !Plan(phase, p.summary, p.planAt, cfg).VehicleData? ==>
      (Calls(phase, next, cfg) <==>
        !(next.reading.Got? && NilSample(next.reading.sample)) ||
        Since(next.probeAt, if phase.Checking? then phase.since else next.probeAt) >= cfg.subsystemGrace)
  {
  }

  // ---------- A subsystem check ----------

  /** Online, and the stream answered with nil power, no gear and no speed. */
  predicate NilProbe(p: Poll) {
    p.summary == "online" && p.reading.Got? && NilSample(p.reading.sample)
  }

  /** When the check began: at the first nil probe. */
  function CheckStart(phases: seq<Phase>, polls: seq<Poll>): Time
    requires phases != [] && polls != []
  {
    if phases[0].Checking? then phases[0].since else polls[0].probeAt
  }

  ghost predicate NilRun(phases: seq<Phase>, polls: seq<Poll>, cfg: Config, k: nat) {
    && IsRun(phases, polls, cfg) && k < |polls|
    && cfg.useStreaming && cfg.subsystemGrace >= 1
    && (phases[0] == Startup || phases[0] == Asleep || (phases[0].Checking? && phases[0].since <= polls[0].planAt))
    && (forall i :: 0 <= i <= k ==> NilProbe(polls[i]))
    && (forall i :: 0 <= i < k ==> !Calls(phases[i], polls[i], cfg))
  }

  lemma {:induction false} CheckKeepsItsStart(phases: seq<Phase>, polls: seq<Poll>, cfg: Config, k: nat)
    requires NilRun(phases, polls, cfg, k) && k > 0
    ensures phases[k] == Checking(CheckStart(phases, polls)) && CheckStart(phases, polls) <= polls[k].planAt
  {
    assert NilProbe(polls[k - 1]) && !Calls(phases[k - 1], polls[k - 1], cfg);
    assert InOrder(polls[k - 1]) && LastClock(polls[k - 1]) <= polls[k].planAt;
    if k > 1 {
      CheckKeepsItsStart(phases, polls, cfg, k - 1);
    }
  }

  /** While probes see only nil power, a call comes never before the grace has passed since the first of them,
      and at the first online poll planned after that. */
  lemma SubsystemCheckIsLeftAlone(phases: seq<Phase>, polls: seq<Poll>, cfg: Config, k: nat)
    requires NilRun(phases, polls, cfg, k)
    ensures Calls(phases[k], polls[k], cfg) ==>
              CheckStart(phases, polls) + cfg.subsystemGrace <= CallTime(phases[k], polls[k], cfg)
    ensures CheckStart(phases, polls) + cfg.subsystemGrace <= polls[k].planAt ==> Calls(phases[k], polls[k], cfg)
  {
    assert NilProbe(polls[k]) && InOrder(polls[k]);
    if k > 0 {
      CheckKeepsItsStart(phases, polls, cfg, k);
    }
  }

  /** And there is no other time for it: with only nil power seen so far, a poll calls exactly when its probe comes the
      grace or more after the first of them. */
  lemma CheckEndsAtTheGrace(phases: seq<Phase>, polls: seq<Poll>, cfg: Config, k: nat)
    requires NilRun(phases, polls, cfg, k)
    ensures Calls(phases[k], polls[k], cfg) <==> CheckStart(phases, polls) + cfg.subsystemGrace <= polls[k].probeAt
  {
    assert NilProbe(polls[k]) && InOrder(polls[k]);
    if k > 0 {
      CheckKeepsItsStart(phases, polls, cfg, k);
    }
  }

  // ---------- A sleeping car ----------

  /** A poll whose summary says asleep or offline never calls and leaves the phase `Asleep`, whatever it was; any other
      summary that is not "online" never calls either, and keeps the phase. */
  lemma OnlyOnlineCalls(phase: Phase, p: Poll, cfg: Config)
    ensures p.summary == "asleep" || p.summary == "offline" ==> PollCar(phase, p, cfg) == Asleep
    ensures p.summary != "asleep" && p.summary != "offline" && p.summary != "online" ==> PollCar(phase, p, cfg) == phase
    ensures p.summary != "online" ==> !Calls(phase, p, cfg)
  {
  }

  /** Poll `i` finds the car asleep or offline; from the next one up to poll `k` it is online and only nil power is
      seen. */
  ghost predicate SleepsOn(phases: seq<Phase>, polls: seq<Poll>, cfg: Config, i: nat, k: nat) {
    && IsRun(phases, polls, cfg) && i < k < |polls| && cfg.useStreaming && cfg.subsystemGrace >= 1
    && (polls[i].summary == "asleep" || polls[i].summary == "offline")
    && forall j :: i < j <= k ==> NilProbe(polls[j])
  }

  lemma ProbesGoOn(phases: seq<Phase>, polls: seq<Poll>, cfg: Config, j: nat)
    requires IsRun(phases, polls, cfg) && j + 1 < |polls|
    ensures polls[j].probeAt <= polls[j + 1].probeAt
  {
    assert InOrder(polls[j]) && InOrder(polls[j + 1]) && LastClock(polls[j + 1 - 1]) <= polls[j + 1].planAt;
  }

  /** Some poll of `a..b` makes a call. */
  ghost predicate SomeCall(phases: seq<Phase>, polls: seq<Poll>, cfg: Config, a: nat, b: nat)
    requires |phases| == |polls| + 1 && b <= |polls|
  {
    exists j :: a <= j < b && Calls(phases[j], polls[j], cfg)
  }

  /** The first call after that, if it is not made before poll `k`, is made there exactly when the grace is over. */
  lemma FirstCallAfterSleep(phases: seq<Phase>, polls: seq<Poll>, cfg: Config, i: nat, k: nat)
    requires SleepsOn(phases, polls, cfg, i, k) && !SomeCall(phases, polls, cfg, i, k)
    ensures Calls(phases[k], polls[k], cfg) <==> polls[i + 1].probeAt + cfg.subsystemGrace <= polls[k].probeAt
  {
    hide Calls, PollCar;
    var n := i + 1;
    OnlyOnlineCalls(phases[i], polls[i], cfg);
    RunFrom(phases, polls, cfg, n);
    assert NilRun(phases[n..], polls[n..], cfg, k - n);
    CheckEndsAtTheGrace(phases[n..], polls[n..], cfg, k - n);
  }

  /** With the stream on, a car that was found asleep and then shows only nil power is called by some poll up to `k`
      exactly when the probe of `k` comes the grace or more after the first of those probes: not before, and then. */
  lemma {:induction false} SleepingCarIsLeftAlone(phases: seq<Phase>, polls: seq<Poll>, cfg: Config, i: nat, k: nat)
    requires SleepsOn(phases, polls, cfg, i, k)
    ensures SomeCall(phases, polls, cfg, i, k + 1) <==>
            polls[i + 1].probeAt + cfg.subsystemGrace <= polls[k].probeAt
    decreases k
  {
    hide Calls, PollCar;
    OnlyOnlineCalls(phases[i], polls[i], cfg);
    if k > i + 1 {
      SleepingCarIsLeftAlone(phases, polls, cfg, i, k - 1);
      ProbesGoOn(phases, polls, cfg, k - 1);
    }
    assert SomeCall(phases, polls, cfg, i, k + 1) <==>
      SomeCall(phases, polls, cfg, i, k) || Calls(phases[k], polls[k], cfg);
    if !SomeCall(phases, polls, cfg, i, k) { FirstCallAfterSleep(phases, polls, cfg, i, k); }
  }

  lemma RunFrom(phases: seq<Phase>, polls: seq<Poll>, cfg: Config, n: nat)
    requires IsRun(phases, polls, cfg) && n <= |polls|
    ensures IsRun(phases[n..], polls[n..], cfg)
  {
    forall i | 0 < i < |polls[n..]| ensures LastClock(polls[n..][i - 1]) <= polls[n..][i].planAt {
      assert LastClock(polls[n + i - 1]) <= polls[n + i].planAt;
    }
  }
}
