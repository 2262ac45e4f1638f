/** When to call `vehicle_data`, and when to leave the car alone (src/sleep.rs). Times are in seconds. */
module Sleep {
  import opened Base

  type Time = nat

  datatype Config = Config(
    useStreaming: bool, reqNotUnlocked: bool, asleepInterval: nat, idleBeforeSuspend: nat, suspendFor: nat,
    subsystemGrace: nat, idlePoll: nat, userPresentPoll: nat, keeperPoll: nat, blockedPoll: nat, activePoll: nat)
  {
    predicate AllIntervals(ok: nat -> bool) {
      && ok(asleepInterval) && ok(idleBeforeSuspend) && ok(suspendFor) && ok(subsystemGrace) && ok(idlePoll)
      && ok(userPresentPoll) && ok(keeperPoll) && ok(blockedPoll) && ok(activePoll)
    }
  }

  function AtLeastOne(n: int): nat {
    if n < 1 then 1 else n
  }

  function ConfigFor(
      suspendMin: int, suspendAfterIdleMin: int, useStreaming: bool, reqNotUnlocked: bool,
      activePollSecs: nat, fast: bool): (cfg: Config)
    ensures cfg.useStreaming == useStreaming && cfg.reqNotUnlocked == reqNotUnlocked
    ensures cfg.AllIntervals(t => t >= 1)
    ensures fast ==> cfg.AllIntervals(t => t == cfg.activePoll)
    ensures !fast ==> cfg.subsystemGrace == 300 && cfg.asleepInterval == 30 && cfg.userPresentPoll == 15
    ensures !fast ==> cfg.idlePoll == cfg.blockedPoll && cfg.keeperPoll == 2 * cfg.idlePoll
    ensures !fast && useStreaming ==> cfg.idleBeforeSuspend == 180 && cfg.suspendFor == 1800 && cfg.idlePoll == 30
    ensures !fast && !useStreaming ==> cfg.idlePoll == 15 && cfg.idleBeforeSuspend % 60 == cfg.suspendFor % 60 == 0
    ensures !fast && !useStreaming && suspendMin >= 1 ==> cfg.suspendFor == 60 * suspendMin
    ensures !fast && !useStreaming && suspendAfterIdleMin >= 1 ==> cfg.idleBeforeSuspend == 60 * suspendAfterIdleMin
    ensures !fast && !useStreaming && suspendMin < 1 ==> cfg.suspendFor == 60
    ensures !fast && !useStreaming && suspendAfterIdleMin < 1 ==> cfg.idleBeforeSuspend == 60
    ensures activePollSecs >= 1 ==> cfg.activePoll == activePollSecs
  {
    var active := AtLeastOne(activePollSecs);
    var scale := (secs: int) => if fast then active else AtLeastOne(secs);
    var multiplier := if useStreaming then 2 else 1;
    var idleBefore := if useStreaming then 3 * 60 else AtLeastOne(suspendAfterIdleMin) * 60;
    var suspendFor := if useStreaming then 30 * 60 else AtLeastOne(suspendMin) * 60;
    Config(useStreaming, reqNotUnlocked, scale(30), scale(idleBefore), scale(suspendFor), scale(5 * 60),
           scale(15 * multiplier), scale(15), scale(30 * multiplier), scale(15 * multiplier), active)
  }

  datatype Phase =
    | Startup
    | Asleep
    | Checking(since: Time)
    | Awake(idleSince: Time)
    | Suspended(idleSince: Time, resumeAt: Option<Time>)

  datatype Purpose = Wake | Suspend

  datatype Action = SummaryOnly(phase: Phase, wait: nat) | Probe(purpose: Purpose) | VehicleData

  datatype Sample = Sample(speed: Option<real>, power: Option<real>, shift: Option<string>)

  datatype StreamReading = Got(sample: Sample) | Error | Timeout

  datatype ProbeOutcome = CallVehicleData | Wait(phase: Phase, wait: nat)

  datatype Activity = Driving | Charging | Parked

  datatype SleepBlock =
    UserPresent | Preconditioning | DogMode | Sentry | Update | Doors | Trunk | Unlocked | Power
  {
    predicate ResetsIdle() { !Unlocked? }

    function PollAfter(cfg: Config): nat {
      match this
      case UserPresent => cfg.userPresentPoll
      case Preconditioning => cfg.keeperPoll
      case DogMode => cfg.keeperPoll
      case Sentry => cfg.keeperPoll
      case _ => cfg.blockedPoll
    }
  }

  /** The fields of a `vehicle_data` answer that decide about sleep. */
  datatype Vehicle = Vehicle(
    chargingState: Option<string>, shift: Option<string>, speed: Option<real>, power: Option<real>,
    userPresent: Option<bool>, preconditioning: Option<bool>, keeperMode: Option<string>, sentry: Option<bool>,
    updateStatus: Option<string>, downloadPerc: Option<real>,
    doorOpen: bool, lidOpen: bool, locked: Option<bool>)

  datatype Applied = Applied(phase: Phase, wait: nat, activity: Activity, block: Option<SleepBlock>)

  function Since(now: Time, then_: Time): nat {
    if now < then_ then 0 else now - then_
  }

  function Plan(phase: Phase, summary: string, now: Time, cfg: Config): Action {
    if summary == "asleep" || summary == "offline" then SummaryOnly(Asleep, cfg.asleepInterval)
    else if summary != "online" then SummaryOnly(phase, cfg.asleepInterval)
    else match phase
      case Suspended(_, resumeAt) =>
        if resumeAt.Some? && now >= resumeAt.value then VehicleData
        else if cfg.useStreaming then Probe(Suspend)
        else SummaryOnly(phase, cfg.asleepInterval)
      case Checking(since) =>
        if Since(now, since) >= cfg.subsystemGrace then VehicleData
        else if cfg.useStreaming then Probe(Wake)
        else VehicleData
      case Asleep => if cfg.useStreaming then Probe(Wake) else VehicleData
      case Startup => if cfg.useStreaming then Probe(Wake) else VehicleData
      case Awake(_) => VehicleData
  }

  predicate InGear(shift: Option<string>) {
    shift == Some("D") || shift == Some("R") || shift == Some("N")
  }

  predicate Positive(x: Option<real>) { x.Some? && x.value > 0.0 }

  predicate ShiftOrSpeed(s: Sample) { InGear(s.shift) || Positive(s.speed) }

  predicate WakeIsReal(s: Sample) { s.power.Some? || ShiftOrSpeed(s) }

  predicate SuspendIsActive(s: Sample) { ShiftOrSpeed(s) || (s.power.Some? && s.power.value != 0.0) }

  function AfterProbe(purpose: Purpose, reading: StreamReading, phase: Phase, now: Time, cfg: Config): ProbeOutcome {
    match purpose
    case Wake =>
      if reading.Got? && !WakeIsReal(reading.sample) then
        var since := if phase.Checking? then phase.since else now;
        if Since(now, since) >= cfg.subsystemGrace then CallVehicleData
        else Wait(Checking(since), cfg.asleepInterval)
      else CallVehicleData
    case Suspend =>
      if reading.Got? && SuspendIsActive(reading.sample) then CallVehicleData
      else
        var idleSince := if phase.Suspended? then phase.idleSince else now;
        var resumeAt := if phase.Suspended? then phase.resumeAt else None;
        Wait(Suspended(idleSince, if resumeAt.Some? then resumeAt else Some(now + cfg.suspendFor)), cfg.asleepInterval)
  }

  function ActivityOf(v: Vehicle): Activity {
    if v.chargingState == Some("Charging") || v.chargingState == Some("Starting") then Charging
    else if InGear(v.shift) || Positive(v.speed) then Driving
    else Parked
  }

  /** The first thing that would keep the car awake; none means logging may be suspended. */
  function WhatBlocksSleep(v: Vehicle, cfg: Config): Option<SleepBlock> {
    if v.userPresent == Some(true) then Some(UserPresent)
    else if v.preconditioning == Some(true) then Some(Preconditioning)
    else if v.keeperMode == Some("dog") then Some(DogMode)
    else if v.sentry == Some(true) then Some(Sentry)
    else if v.updateStatus == Some("installing") then Some(Update)
    else if v.updateStatus == Some("downloading") && (v.downloadPerc.None? || v.downloadPerc.value < 100.0)
    then Some(Update)
    else if v.doorOpen then Some(Doors)
    else if v.lidOpen then Some(Trunk)
    else if cfg.reqNotUnlocked && v.locked == Some(false) then Some(Unlocked)
    else if Positive(v.power) then Some(Power)
    else None
  }

  function IdleStart(phase: Phase, now: Time): Time {
    match phase
    case Awake(idleSince) => idleSince
    case Suspended(idleSince, _) => idleSince
    case _ => now
  }

  function ApplyVehicleData(v: Vehicle, phase: Phase, now: Time, cfg: Config): Applied {
    var idleSince := IdleStart(phase, now);
    var activity := ActivityOf(v);
    if activity != Parked then Applied(Awake(now), cfg.activePoll, activity, None)
    else match WhatBlocksSleep(v, cfg)
      case Some(block) =>
        var elapsed := Since(now, idleSince) >= cfg.idleBeforeSuspend;
        Applied(Awake(if block.ResetsIdle() then now else idleSince), block.PollAfter(cfg), activity,
                if elapsed then Some(block) else None)
      case None =>
        if Since(now, idleSince) >= cfg.idleBeforeSuspend
        then Applied(Suspended(idleSince, if cfg.useStreaming then None else Some(now + cfg.suspendFor)),
                     cfg.asleepInterval, activity, None)
        else Applied(Awake(idleSince), cfg.idlePoll, activity, None)
  }

  // ---------- What samples and readings mean ----------

  /** Not in gear, and not known to move. */
  predicate Still(shift: Option<string>, speed: Option<real>) {
    shift !in {Some("D"), Some("R"), Some("N")} && (speed.None? || speed.value <= 0.0)
  }

  /** All that a car checking itself shows: no power value, no gear, no speed. */
  predicate NilSample(s: Sample) { s.power.None? && Still(s.shift, s.speed) }

  /** No use of a suspended car: no power, no gear, no speed. */
  predicate QuietSample(s: Sample) { (s.power.None? || s.power.value == 0.0) && Still(s.shift, s.speed) }

  lemma SamplesSay(s: Sample)
    ensures WakeIsReal(s) <==> !NilSample(s)
    ensures SuspendIsActive(s) <==> !QuietSample(s)
  {
  }

  /** Neither charging nor driving. */
  predicate ParkedReading(v: Vehicle) {
    v.chargingState !in {Some("Charging"), Some("Starting")} && Still(v.shift, v.speed)
  }

  lemma ActivitySays(v: Vehicle)
    ensures ActivityOf(v) == Parked <==> ParkedReading(v)
    ensures ActivityOf(v) == Charging <==> v.chargingState in {Some("Charging"), Some("Starting")}
  {
  }

  /** What each block stands for, and how early it is asked about. */
  predicate Holds(v: Vehicle, cfg: Config, b: SleepBlock) {
    match b
    case UserPresent => v.userPresent == Some(true)
    case Preconditioning => v.preconditioning == Some(true)
    case DogMode => v.keeperMode == Some("dog")
    case Sentry => v.sentry == Some(true)
    case Update => v.updateStatus == Some("installing") || (v.updateStatus == Some("downloading") && !Downloaded(v))
    case Doors => v.doorOpen
    case Trunk => v.lidOpen
    case Unlocked => cfg.reqNotUnlocked && v.locked == Some(false)
    case Power => v.power.Some? && v.power.value > 0.0
  }

  predicate Downloaded(v: Vehicle) { v.downloadPerc.Some? && v.downloadPerc.value >= 100.0 }

  function Rank(b: SleepBlock): nat {
    match b
    case UserPresent => 0
    case Preconditioning => 1
    case DogMode => 2
    case Sentry => 3
    case Update => 4
    case Doors => 5
    case Trunk => 6
    case Unlocked => 7
    case Power => 8
  }

  predicate FirstToHold(v: Vehicle, cfg: Config, b: SleepBlock) {
    Holds(v, cfg, b) && forall c: SleepBlock :: Rank(c) < Rank(b) ==> !Holds(v, cfg, c)
  }

  /** The first block that holds is the one reported, and none exactly when none holds. */
  lemma FirstBlockCounts(v: Vehicle, cfg: Config)
    ensures WhatBlocksSleep(v, cfg) == None <==> forall b: SleepBlock :: !Holds(v, cfg, b)
    ensures forall b: SleepBlock :: WhatBlocksSleep(v, cfg) == Some(b) <==> FirstToHold(v, cfg, b)
  {
    forall b: SleepBlock
      ensures WhatBlocksSleep(v, cfg) == Some(b) ==> FirstToHold(v, cfg, b)
    {
    }
    if WhatBlocksSleep(v, cfg) == None {
      forall b: SleepBlock ensures !Holds(v, cfg, b) {
      }
    } else {
      var first := WhatBlocksSleep(v, cfg).value;
      forall b: SleepBlock | Holds(v, cfg, b) && Rank(b) <= Rank(first) ensures b == first {
      }
    }
  }

  /** At rest: parked, with nothing that keeps it awake. */
  ghost predicate AtRest(v: Vehicle, cfg: Config) {
    ParkedReading(v) && forall b: SleepBlock :: !Holds(v, cfg, b)
  }

  function PollOf(cfg: Config, b: SleepBlock): nat {
    if b == UserPresent then cfg.userPresentPoll
    else if b in {Preconditioning, DogMode, Sentry} then cfg.keeperPoll
    else cfg.blockedPoll
  }

  /** How long a reading waits for the next: as little as the car's use asks for. */
  lemma WaitsSay(v: Vehicle, phase: Phase, now: Time, cfg: Config)
    ensures var applied := ApplyVehicleData(v, phase, now, cfg);
            && (!ParkedReading(v) ==> applied.wait == cfg.activePoll)
            && (AtRest(v, cfg) ==>
                  applied.wait == if applied.phase.Suspended? then cfg.asleepInterval else cfg.idlePoll)
            && forall b: SleepBlock ::
                 ParkedReading(v) && FirstToHold(v, cfg, b) ==> applied.wait == PollOf(cfg, b)
  {
    ActivitySays(v);
    FirstBlockCounts(v, cfg);
  }

  /** A reading suspends logging exactly when the car is at rest and has been idle for the threshold; a blocked car that
      idle is reported, with its first block. */
  lemma SuspendsWhen(v: Vehicle, phase: Phase, now: Time, cfg: Config)
    ensures var applied, idle := ApplyVehicleData(v, phase, now, cfg), Since(now, IdleStart(phase, now));
            && (applied.phase.Suspended? <==> AtRest(v, cfg) && idle >= cfg.idleBeforeSuspend)
            && (applied.phase.Suspended? || applied.phase.Awake?)
            && (applied.block.Some? <==> ParkedReading(v) && !AtRest(v, cfg) && idle >= cfg.idleBeforeSuspend)
            && (applied.block.Some? ==> Some(applied.block.value) == WhatBlocksSleep(v, cfg))
  {
    ActivitySays(v);
    FirstBlockCounts(v, cfg);
  }
}
