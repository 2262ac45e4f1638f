/** At most one session of a car is open, whatever id a snapshot hands back (src/logger.rs). */
module Sessions {
  import opened Base
  import opened Chrono
  import opened Tables
  import opened Rollup
  import opened Fences
  import opened Ledger

  /** A drive or a charging process, by id. */
  datatype Session = OnRoad(id: Id) | OnPlug(id: Id)

  predicate Present(db: Db, s: Session) {
    match s
    case OnRoad(d) => d in db.drives
    case OnPlug(p) => p in db.processes
  }

  function CarOf(db: Db, s: Session): Id
    requires Present(db, s)
  {
    match s
    case OnRoad(d) => db.drives[d].car
    case OnPlug(p) => db.processes[p].car
  }

  function StartOf(db: Db, s: Session): nat
    requires Present(db, s)
  {
    match s
    case OnRoad(d) => db.drives[d].startDate
    case OnPlug(p) => db.processes[p].startDate
  }

  function EndOf(db: Db, s: Session): Option<nat>
    requires Present(db, s)
  {
    match s
    case OnRoad(d) => db.drives[d].endDate
    case OnPlug(p) => db.processes[p].endDate
  }

  predicate IsOpen(db: Db, s: Session) {
    Present(db, s) && EndOf(db, s).None?
  }

  predicate IsOpenFor(db: Db, car: Id, s: Session) {
    IsOpen(db, s) && CarOf(db, s) == car
  }

  ghost predicate OneOpen(db: Db) {
    forall a, b :: IsOpen(db, a) && IsOpen(db, b) && CarOf(db, a) == CarOf(db, b) ==> a == b
  }

  ghost predicate NoneOpen(db: Db, car: Id) {
    forall s :: !IsOpenFor(db, car, s)
  }

  /** No session opens between `db` and `after`. */
  ghost predicate OnlyCloses(db: Db, after: Db) {
    forall s :: IsOpen(after, s) ==>
      IsOpen(db, s) && CarOf(after, s) == CarOf(db, s) && StartOf(after, s) == StartOf(db, s)
  }

  lemma OnlyClosesEmpty(db: Db, after: Db, car: Id)
    requires OnlyCloses(db, after)
    ensures OpenDrives(db, car) == map[] ==> OpenDrives(after, car) == map[]
    ensures OpenCharges(db, car) == map[] ==> OpenCharges(after, car) == map[]
  {
    forall d | d in OpenDrives(after, car) ensures d in OpenDrives(db, car) {
      assert IsOpen(after, OnRoad(d));
    }
    forall p | p in OpenCharges(after, car) ensures p in OpenCharges(db, car) {
      assert IsOpen(after, OnPlug(p));
    }
  }

  lemma CloseDriveCloses(db: Db, d: Id)
    ensures OnlyCloses(db, CloseDrive(db, d))
    ensures !IsOpen(CloseDrive(db, d), OnRoad(d))
    ensures CloseDrive(db, d).processes == db.processes && CloseDrive(db, d).charges == db.charges
  {
    hide CloseDrive;
  }

  lemma {:induction false} CloseDrivesCloses(db: Db, todo: Dates)
    ensures var after := CloseDrives(db, todo);
            && OnlyCloses(db, after)
            && (forall d :: d in todo ==> !IsOpen(after, OnRoad(d)))
            && after.processes == db.processes && after.charges == db.charges
    decreases |todo|
  {
    hide CloseDrive;
    if todo != map[] {
      var d := Earliest(todo);
      CloseDriveCloses(db, d);
      CloseDrivesCloses(CloseDrive(db, d), todo - {d});
      assert forall k :: k in todo ==> k == d || k in todo - {d};
    }
  }

  lemma CompleteChargeCloses(db: Db, car: Id, p: Id)
    ensures var step := CompleteCharge(db, car, p);
            && OnlyCloses(db, step.db)
            && (step.ok ==> !IsOpen(step.db, OnPlug(p)))
            && step.db.drives == db.drives && step.db.positions == db.positions && step.db.charges == db.charges
  {
    hide CompleteCharge;
  }

  lemma {:induction false} CompleteChargesCloses(db: Db, car: Id, todo: Dates)
    ensures var step := CompleteCharges(db, car, todo);
            && OnlyCloses(db, step.db)
            && (step.ok ==> forall p :: p in todo ==> !IsOpen(step.db, OnPlug(p)))
            && step.db.drives == db.drives && step.db.positions == db.positions && step.db.charges == db.charges
    decreases |todo|
  {
    hide CompleteCharge;
    if todo != map[] {
      var p := Earliest(todo);
      CompleteChargeCloses(db, car, p);
      if CompleteCharge(db, car, p).ok {
        CompleteChargesCloses(CompleteCharge(db, car, p).db, car, todo - {p});
        assert forall k :: k in todo ==> k == p || k in todo - {p};
      }
    }
  }

  lemma CloseOpenDrivesCloses(db: Db, car: Id)
    ensures var after := CloseOpenDrives(db, car);
            && OnlyCloses(db, after)
            && (forall d :: !IsOpenFor(after, car, OnRoad(d)))
            && OpenDrives(after, car) == map[]
  {
    hide CloseDrives;
    CloseDrivesCloses(db, OpenDrives(db, car));
    var after := CloseOpenDrives(db, car);
    forall d ensures !IsOpenFor(after, car, OnRoad(d)) {
      if IsOpenFor(db, car, OnRoad(d)) {
        assert d in OpenDrives(db, car);
      }
    }
    assert forall d :: d in OpenDrives(after, car) ==> IsOpenFor(after, car, OnRoad(d));
  }

  lemma CompleteOpenChargesCloses(db: Db, car: Id)
    ensures var step := CompleteOpenCharges(db, car);
            && OnlyCloses(db, step.db)
            && (step.ok ==> forall p :: !IsOpenFor(step.db, car, OnPlug(p)))
            && (step.ok ==> OpenCharges(step.db, car) == map[])
            && step.db.drives == db.drives
  {
    hide CompleteCharges;
    CompleteChargesCloses(db, car, OpenCharges(db, car));
    var step := CompleteOpenCharges(db, car);
    if step.ok {
      forall p ensures !IsOpenFor(step.db, car, OnPlug(p)) {
        if IsOpenFor(db, car, OnPlug(p)) {
          assert p in OpenCharges(db, car);
        }
      }
      assert forall p :: p in OpenCharges(step.db, car) ==> IsOpenFor(step.db, car, OnPlug(p));
    }
  }

  lemma CloseStaleCloses(db: Db, car: Id, now: nat)
    ensures OnlyCloses(db, CloseStale(db, car, now).db)
  {
    hide CloseDrives, CompleteCharges, StaleDrives, StaleCharges;
    CloseDrivesCloses(db, StaleDrives(db, car, now));
    var drivesClosed := CloseDrives(db, StaleDrives(db, car, now));
    CompleteChargesCloses(drivesClosed, car, StaleCharges(drivesClosed, car, now));
  }

  lemma AttachCloses(db: Db, car: Id, r: Reading, now: nat, handed: Id)
    ensures OnlyCloses(db, AttachRecent(Snapshot(db, car, r, now), car, handed, now))
  {
    hide HasRecentPoint, OpenDrives, Snapshot;
  }

  lemma SnapshotCloses(db: Db, car: Id, r: Reading, now: nat)
    ensures OnlyCloses(db, Snapshot(db, car, r, now))
  {
    hide Snapshot;
  }

  lemma OpeningKeepsOneOpen(db: Db, after: Db, s: Session)
    requires OneOpen(db) && IsOpen(after, s) && NoneOpen(db, CarOf(after, s))
    requires forall t :: t != s && IsOpen(after, t) ==> IsOpen(db, t) && CarOf(after, t) == CarOf(db, t)
    ensures OneOpen(after)
  {
    assert forall t :: t != s && IsOpen(after, t) && CarOf(after, t) == CarOf(after, s) ==>
      IsOpenFor(db, CarOf(after, s), t);
  }

  lemma NothingOpen(db: Db, car: Id)
    requires OpenDrives(db, car) == map[] && OpenCharges(db, car) == map[]
    ensures NoneOpen(db, car)
  {
    forall s ensures !IsOpenFor(db, car, s) {
      match s {
        case OnRoad(d) => assert d !in OpenDrives(db, car);
        case OnPlug(p) => assert p !in OpenCharges(db, car);
      }
    }
  }

  lemma DriveTailSessions(db: Db, car: Id, r: Reading, now: nat, handed: Id)
    requires OneOpen(db) && OpenCharges(db, car) == map[]
    ensures var tick := DriveTickTail(db, car, r, now, handed);
            && OneOpen(tick.db)
            && (tick.ok ==> (exists d :: IsOpenFor(tick.db, car, OnRoad(d))) &&
                            OpenCharges(tick.db, car) == map[])
  {
    var tick := DriveTickTail(db, car, r, now, handed);
    var open := OpenDrives(db, car);
    if open != map[] {
      assert OnlyCloses(db, tick.db);
      OnlyClosesEmpty(db, tick.db, car);
      assert IsOpenFor(tick.db, car, OnRoad(Latest(open)));
    } else if tick.ok {
      NothingOpen(db, car);
      OpeningKeepsOneOpen(db, tick.db, OnRoad(NextId(db.drives.Keys)));
      assert IsOpenFor(tick.db, car, OnRoad(NextId(db.drives.Keys)));
    }
  }

  /** A driving poll that runs to its end leaves one open drive and no open charge. */
  lemma DriveTickSessions(db: Db, car: Id, r: Reading, now: nat, handed: Id)
    requires OneOpen(db)
    ensures var tick := DriveTick(db, car, r, now, handed);
            && OneOpen(tick.db)
            && (tick.ok ==> (exists d :: IsOpenFor(tick.db, car, OnRoad(d))) &&
                            OpenCharges(tick.db, car) == map[])
  {
    hide CompleteOpenCharges, CloseStale, Snapshot, DriveTickTail;
    var charged := CompleteOpenCharges(db, car);
    CompleteOpenChargesCloses(db, car);
    if charged.ok {
      CloseStaleCloses(charged.db, car, now);
      var swept := CloseStale(charged.db, car, now);
      if swept.ok {
        SnapshotCloses(swept.db, car, r, now);
        OnlyClosesEmpty(charged.db, swept.db, car);
        OnlyClosesEmpty(swept.db, Snapshot(swept.db, car, r, now), car);
        DriveTailSessions(Snapshot(swept.db, car, r, now), car, r, now, handed);
      }
    }
  }

  lemma ChargeTailSessions(db: Db, car: Id, r: Reading, now: nat, handed: Id)
    requires OneOpen(db) && OpenDrives(db, car) == map[]
    ensures var tick := ChargeTickTail(db, car, r, now, handed);
            && OneOpen(tick.db)
            && OpenDrives(tick.db, car) == map[]
            && (tick.ok ==> exists p :: IsOpenFor(tick.db, car, OnPlug(p)))
  {
    var tick := ChargeTickTail(db, car, r, now, handed);
    var open := OpenCharges(db, car);
    if open != map[] {
      assert OnlyCloses(db, tick.db);
      assert IsOpenFor(tick.db, car, OnPlug(Latest(open)));
    } else if tick.ok {
      NothingOpen(db, car);
      OpeningKeepsOneOpen(db, tick.db, OnPlug(NextId(db.processes.Keys)));
      assert IsOpenFor(tick.db, car, OnPlug(NextId(db.processes.Keys)));
    }
  }

  /** A charging poll that runs to its end leaves one open charge and no open drive. */
  lemma ChargeTickSessions(db: Db, car: Id, r: Reading, now: nat, handed: Id)
    requires OneOpen(db)
    ensures var tick := ChargeTick(db, car, r, now, handed);
            && OneOpen(tick.db)
            && OpenDrives(tick.db, car) == map[]
            && (tick.ok ==> exists p :: IsOpenFor(tick.db, car, OnPlug(p)))
  {
    hide CloseOpenDrives, CloseStale, Snapshot, AttachRecent, ChargeTickTail;
    var attached := AttachRecent(Snapshot(db, car, r, now), car, handed, now);
    AttachCloses(db, car, r, now, handed);
    CloseOpenDrivesCloses(attached, car);
    var parked := CloseOpenDrives(attached, car);
    CloseStaleCloses(parked, car, now);
    var swept := CloseStale(parked, car, now);
    OnlyClosesEmpty(parked, swept.db, car);
    if swept.ok {
      ChargeTailSessions(swept.db, car, r, now, handed);
    }
  }

  /** The end of a stream leaves no open drive of the car; its charges and the other cars' drives stay. */
  lemma StreamEndSessions(db: Db, car: Id, now: nat)
    ensures var after := Apply(db, StreamEndStep(car, now));
            && (forall d :: !IsOpenFor(after, car, OnRoad(d)))
            && after.processes == db.processes
            && forall d :: d in db.drives && db.drives[d].car != car ==>
                 d in after.drives && after.drives[d] == db.drives[d]
  {
    CloseOpenDrivesCloses(db, car);
    assert OnlyCloses(db, CloseOpenDrives(db, car));
    CloseDrivesLeaves(db, OpenDrives(db, car));
  }

  lemma {:induction false} CloseDrivesLeaves(db: Db, todo: Dates)
    ensures var after := CloseDrives(db, todo);
            && after.processes == db.processes
            && forall d :: d in db.drives && d !in todo ==> d in after.drives && after.drives[d] == db.drives[d]
    decreases todo.Keys
  {
    if todo != map[] {
      var d := Earliest(todo);
      CloseDrivesLeaves(CloseDrive(db, d), todo - {d});
    }
  }

  /** A parked poll that runs to its end leaves no open session. */
  lemma IdleTickSessions(db: Db, car: Id, r: Reading, now: nat, handed: Id)
    ensures var tick := IdleTick(db, car, r, now, handed);
            && OnlyCloses(db, tick.db)
            && (forall d :: !IsOpenFor(tick.db, car, OnRoad(d)))
            && (tick.ok ==> NoneOpen(tick.db, car))
  {
    var attached := AttachRecent(Snapshot(db, car, r, now), car, handed, now);
    AttachCloses(db, car, r, now, handed);
    CloseOpenDrivesCloses(attached, car);
    CompleteOpenChargesCloses(CloseOpenDrives(attached, car), car);
    var tick := IdleTick(db, car, r, now, handed);
    if tick.ok {
      forall s ensures !IsOpenFor(tick.db, car, s) {
        match s {
          case OnRoad(d) =>
          case OnPlug(p) =>
        }
      }
    }
  }

  /** A repair that runs to its end closes every session of every car it visits, however many were open. */
  lemma {:induction false} RepairCloses(db: Db, cars: Dates)
    ensures var step := Repair(db, cars);
            && OnlyCloses(db, step.db)
            && (step.ok ==> forall car :: car in cars ==> NoneOpen(step.db, car))
    decreases |cars|
  {
    if cars != map[] {
      var car := Earliest(cars);
      CloseOpenDrivesCloses(db, car);
      CompleteOpenChargesCloses(CloseOpenDrives(db, car), car);
      var closed := CompleteOpenCharges(CloseOpenDrives(db, car), car);
      if closed.ok {
        forall s ensures !IsOpenFor(closed.db, car, s) {
          match s {
            case OnRoad(d) =>
            case OnPlug(p) =>
          }
        }
        RepairCloses(closed.db, cars - {car});
        assert forall k :: k in cars ==> k == car || k in cars - {car};
      }
    }
  }

  lemma RestartCloses(db: Db)
    ensures var step := Restart(db);
            && OnlyCloses(db, step.db)
            && (step.ok ==> forall car :: car in db.cars ==> NoneOpen(step.db, car))
  {
    hide CatchUp, Repair;
    assert OnlyCloses(db, CatchUp(db));
    RepairCloses(CatchUp(db), AllCars(db));
    assert forall car :: car in db.cars ==> car in AllCars(db);
  }

  lemma StepKeepsOneOpen(db: Db, s: Step)
    requires OneOpen(db)
    ensures OneOpen(Apply(db, s))
  {
    match s {
      case DriveStep(car, now, r, handed) => DriveTickSessions(db, car, r, now, handed);
      case ChargeStep(car, now, r, handed) => ChargeTickSessions(db, car, r, now, handed);
      case IdleStep(car, now, r, handed) => IdleTickSessions(db, car, r, now, handed);
      case StreamStep(car, now, r) =>
        assert OnlyCloses(db, StreamRow(db, car, r, now));
      case StreamEndStep(car, now) => CloseOpenDrivesCloses(db, car);
      case RestartStep(now) => RestartCloses(db);
    }
  }

  /** Over every run, in every state, a car has at most one open session: a drive or a charge, never both. */
  lemma {:induction false} AtMostOneOpenSession(dbs: seq<Db>, steps: seq<Step>, k: nat)
    requires IsRun(dbs, steps) && k <= |steps| && OneOpen(dbs[0])
    ensures OneOpen(dbs[k])
  {
    hide Apply, OneOpen;
    if k > 0 {
      AtMostOneOpenSession(dbs, steps, k - 1);
      StepKeepsOneOpen(dbs[k - 1], steps[k - 1]);
    }
  }

  // ---------- A car whose efficiency is NULL ----------

  /** The car's open charge has ticks, and completing it fails on the efficiency column. */
  ghost predicate Blocked(db: Db, car: Id) {
    EfficiencyUnreadable(db, car) && exists p :: p in OpenCharges(db, car) && ChargeRows(db, p) != map[]
  }

  lemma CompletingFailsWhenBlocked(db: Db, car: Id)
    requires OneOpen(db)
    ensures CompleteOpenCharges(db, car).ok <==> !Blocked(db, car)
    ensures Blocked(db, car) ==> CompleteOpenCharges(db, car).db == db
  {
    var open := OpenCharges(db, car);
    if open != map[] {
      var p := Earliest(open);
      forall q | q in open ensures q == p {
        assert IsOpen(db, OnPlug(q)) && IsOpen(db, OnPlug(p));
      }
      assert open - {p} == map[];
      ChargeStepOutcome(db, car, p);
      assert Blocked(db, car) <==> EfficiencyUnreadable(db, car) && ChargeRows(db, p) != map[];
      var step := CompleteCharge(db, car, p);
      assert step.ok ==> CompleteCharges(step.db, car, open - {p}) == Outcome(step.db, true);
    }
  }

  lemma ChargeStepOutcome(db: Db, car: Id, p: Id)
    ensures CompleteCharge(db, car, p).ok <==> ChargeRows(db, p) == map[] || !EfficiencyUnreadable(db, car)
  {
    hide CompletedProcess, PriceCharge;
  }

  /** Whether a car is blocked depends on the cars, the charges and their ticks. */
  ghost predicate SamePlugsOf(db: Db, after: Db, car: Id) {
    && after.cars == db.cars && after.charges == db.charges
    && (forall p :: p in OpenCharges(after, car) <==> p in OpenCharges(db, car))
  }

  lemma SameBlocked(db: Db, after: Db, car: Id)
    requires SamePlugsOf(db, after, car)
    ensures Blocked(after, car) <==> Blocked(db, car)
  {
    forall p ensures ChargeRows(after, p) == ChargeRows(db, p) {
    }
  }

  /** The drives and the points are not among them. */
  ghost predicate LeavesCharges(db: Db, after: Db) {
    && after.cars == db.cars && after.charges == db.charges && after.processes == db.processes
    && after.positions.Keys == db.positions.Keys
  }

  lemma {:induction false} ClosingLeavesCharges(db: Db, todo: Dates)
    ensures LeavesCharges(db, CloseDrives(db, todo))
    ensures forall d :: d in db.drives && d !in todo ==>
              d in CloseDrives(db, todo).drives && CloseDrives(db, todo).drives[d] == db.drives[d]
    decreases |todo|
  {
    hide CloseDrive;
    if todo != map[] {
      var d := Earliest(todo);
      ClosingLeavesCharges(CloseDrive(db, d), todo - {d});
    }
  }

  /** Completing charges leaves the other ones, the ticks, the cars and the drives. */
  lemma {:induction false} CompletingLeavesOthers(db: Db, car: Id, todo: Dates)
    ensures var after := CompleteCharges(db, car, todo).db;
            && after.cars == db.cars && after.charges == db.charges && after.drives == db.drives
            && after.positions == db.positions
            && (forall q :: q in db.processes && q !in todo ==>
                  q in after.processes && after.processes[q] == db.processes[q])
            && (forall q :: q in after.processes && q !in todo ==> q in db.processes)
    decreases |todo|
  {
    hide CompleteCharge;
    if todo != map[] {
      var p := Earliest(todo);
      if CompleteCharge(db, car, p).ok { CompletingLeavesOthers(CompleteCharge(db, car, p).db, car, todo - {p}); }
    }
  }

  lemma CompletingOpenLeavesOthers(db: Db, car: Id)
    ensures var after := CompleteOpenCharges(db, car).db;
            && after.cars == db.cars && after.charges == db.charges && after.drives == db.drives
            && after.positions == db.positions
            && (forall c :: c != car ==> SamePlugsOf(db, after, c))
            && (forall q :: q in db.processes && q !in OpenCharges(db, car) ==>
                  q in after.processes && after.processes[q] == db.processes[q])
  {
    hide CompleteCharges;
    CompletingLeavesOthers(db, car, OpenCharges(db, car));
    CompleteOpenChargesCloses(db, car);
    var after := CompleteOpenCharges(db, car).db;
    forall c, p | c != car && p in OpenCharges(after, c) ensures p in OpenCharges(db, c) {
      assert IsOpen(after, OnPlug(p)) && IsOpen(db, OnPlug(p));
    }
  }

  predicate Arrives(db: Db, handed: Id) {
    handed in db.positions || handed == NextPosition(db)
  }

  /** A driving poll runs to its end exactly when the car is not blocked and it has a drive that goes on, or a row to
      open one with; a driving poll of a blocked car changes nothing. */
  lemma DriveTickRunsWhen(db: Db, car: Id, r: Reading, now: nat, handed: Id)
    requires OneOpen(db)
    ensures DriveTick(db, car, r, now, handed).ok <==>
            !Blocked(db, car) &&
            (Arrives(db, handed) || exists d :: d in OpenDrives(db, car) && d !in StaleDrives(db, car, now))
    ensures Blocked(db, car) ==> DriveTick(db, car, r, now, handed).db == db
  {
    hide CompleteOpenCharges, Blocked, Snapshot, OneOpen, CloseStale, StaleDrives;
    CompletingFailsWhenBlocked(db, car);
    CompleteOpenChargesCloses(db, car);
    var charged := CompleteOpenCharges(db, car);
    if charged.ok {
      CompletingOpenLeavesOthers(db, car);
      SweepRunsWithoutCharges(charged.db, car, now);
      SameStaleDrives(db, charged.db, car, now);
      DrivesThatGoOn(charged.db, car, now);
    }
  }

  lemma SameStaleDrives(db: Db, after: Db, car: Id, now: nat)
    requires after.drives == db.drives && after.positions == db.positions
    ensures OpenDrives(after, car) == OpenDrives(db, car) && StaleDrives(after, car, now) == StaleDrives(db, car, now)
  {
    hide IsStale, LastDate;
    forall d ensures DriveRows(after, d) == DriveRows(db, d) {
    }
  }

  lemma DrivesThatGoOn(db: Db, car: Id, now: nat)
    requires OpenCharges(db, car) == map[]
    ensures var swept := CloseStale(db, car, now).db;
            && swept.positions.Keys == db.positions.Keys
            && (OpenDrives(swept, car) != map[] <==>
                  exists d :: d in OpenDrives(db, car) && d !in StaleDrives(db, car, now))
  {
    hide CloseDrives, StaleDrives, IsStale, LastDate;
    var stale := StaleDrives(db, car, now);
    var swept := CloseDrives(db, stale);
    CloseDrivesCloses(db, stale);
    ClosingLeavesCharges(db, stale);
    OnlyClosesEmpty(db, swept, car);
    assert StaleCharges(swept, car, now) == map[];
    if d :| d in OpenDrives(db, car) && d !in stale {
      assert d in OpenDrives(swept, car);
    }
    if OpenDrives(swept, car) != map[] {
      var d :| d in OpenDrives(swept, car);
      assert IsOpen(swept, OnRoad(d)) && IsOpen(db, OnRoad(d));
    }
  }

  lemma SweepRunsWithoutCharges(db: Db, car: Id, now: nat)
    requires OpenCharges(db, car) == map[]
    ensures CloseStale(db, car, now).ok
  {
    hide CloseDrives, StaleDrives;
    CloseDrivesCloses(db, StaleDrives(db, car, now));
    var mid := CloseDrives(db, StaleDrives(db, car, now));
    OnlyClosesEmpty(db, mid, car);
    assert StaleCharges(mid, car, now) == map[];
  }

  lemma ParkedLeavesCharges(db: Db, car: Id, r: Reading, now: nat, handed: Id)
    requires OneOpen(db)
    ensures var parked := CloseOpenDrives(AttachRecent(Snapshot(db, car, r, now), car, handed, now), car);
            && SamePlugsOf(db, parked, car) && OneOpen(parked)
            && OpenDrives(parked, car) == map[] && parked.processes == db.processes
            && parked.positions.Keys == db.positions.Keys + {NextPosition(db)}
  {
    hide Snapshot, HasRecentPoint, OpenDrives, CloseDrives;
    var attached := AttachRecent(Snapshot(db, car, r, now), car, handed, now);
    AttachCloses(db, car, r, now, handed);
    ClosingLeavesCharges(attached, OpenDrives(attached, car));
    CloseOpenDrivesCloses(attached, car);
  }

  /** A parked poll runs to its end exactly when the car is not blocked. */
  lemma IdleTickRunsWhen(db: Db, car: Id, r: Reading, now: nat, handed: Id)
    requires OneOpen(db)
    ensures IdleTick(db, car, r, now, handed).ok <==> !Blocked(db, car)
  {
    hide Snapshot, AttachRecent, CloseOpenDrives, CompleteOpenCharges, Blocked, OneOpen, SamePlugsOf;
    var parked := CloseOpenDrives(AttachRecent(Snapshot(db, car, r, now), car, handed, now), car);
    ParkedLeavesCharges(db, car, r, now, handed);
    SameBlocked(db, parked, car);
    CompletingFailsWhenBlocked(parked, car);
  }

  /** A charging poll runs to its end exactly when it need not complete the charge of a blocked car, and it has a
      charge that goes on, or a row to open one with. */
  lemma ChargeTickRunsWhen(db: Db, car: Id, r: Reading, now: nat, handed: Id)
    requires OneOpen(db)
    ensures ChargeTick(db, car, r, now, handed).ok <==>
            !(Blocked(db, car) && StaleCharges(db, car, now) != map[]) &&
            (Arrives(db, handed) || exists p :: p in OpenCharges(db, car) && p !in StaleCharges(db, car, now))
  {
    hide Snapshot, AttachRecent, CloseOpenDrives, CloseStale, Blocked, OneOpen, StaleCharges;
    var parked := CloseOpenDrives(AttachRecent(Snapshot(db, car, r, now), car, handed, now), car);
    ParkedLeavesCharges(db, car, r, now, handed);
    SameBlocked(db, parked, car);
    SameStaleCharges(db, parked, car, now);
    ChargesThatGoOn(parked, car, now);
  }

  lemma SameStaleCharges(db: Db, after: Db, car: Id, now: nat)
    requires after.processes == db.processes && after.charges == db.charges
    ensures OpenCharges(after, car) == OpenCharges(db, car)
    ensures StaleCharges(after, car, now) == StaleCharges(db, car, now)
  {
    hide IsStale, LastDate;
    forall p ensures ChargeRows(after, p) == ChargeRows(db, p) {
    }
  }

  lemma ChargesThatGoOn(db: Db, car: Id, now: nat)
    requires OneOpen(db) && OpenDrives(db, car) == map[]
    ensures var swept := CloseStale(db, car, now);
            && swept.db.positions == db.positions
            && (swept.ok <==> !(Blocked(db, car) && StaleCharges(db, car, now) != map[]))
            && (swept.ok ==> (OpenCharges(swept.db, car) != map[] <==>
                  exists p :: p in OpenCharges(db, car) && p !in StaleCharges(db, car, now)))
  {
    hide IsStale, LastDate, CompleteCharges, Blocked, OneOpen;
    var stale := StaleCharges(db, car, now);
    var swept := CompleteCharges(db, car, stale);
    assert StaleDrives(db, car, now) == map[];
    assert CloseStale(db, car, now) == swept;
    CompletingLeavesOthers(db, car, stale);
    CompleteChargesCloses(db, car, stale);
    OnlyOneOpenCharge(db, car);
    if stale != map[] {
      assert stale == OpenCharges(db, car);
      CompletingFailsWhenBlocked(db, car);
    } else {
      assert CompleteCharges(db, car, stale) == Outcome(db, true) by { NothingToComplete(db, car, stale); }
    }
    if OpenCharges(swept.db, car) != map[] {
      var p :| p in OpenCharges(swept.db, car);
      assert IsOpen(swept.db, OnPlug(p)) && IsOpen(db, OnPlug(p));
    }
    if p :| p in OpenCharges(db, car) && p !in stale {
      assert p in OpenCharges(swept.db, car);
    }
  }

  lemma NothingToComplete(db: Db, car: Id, todo: Dates)
    requires todo == map[]
    ensures CompleteCharges(db, car, todo) == Outcome(db, true)
  {
  }

  lemma OnlyOneOpenCharge(db: Db, car: Id)
    requires OneOpen(db)
    ensures forall p, q :: p in OpenCharges(db, car) && q in OpenCharges(db, car) ==> p == q
  {
    forall p, q | p in OpenCharges(db, car) && q in OpenCharges(db, car) ensures p == q {
      assert IsOpen(db, OnPlug(p)) && IsOpen(db, OnPlug(q));
    }
  }

  lemma RepairCarRuns(db: Db, car: Id)
    requires OneOpen(db)
    ensures RepairCar(db, car).ok <==> !Blocked(db, car)
    ensures OneOpen(RepairCar(db, car).db)
    ensures forall c :: c != car ==> (Blocked(RepairCar(db, car).db, c) <==> Blocked(db, c))
    ensures forall s, c :: c != car && IsOpenFor(db, c, s) ==> IsOpenFor(RepairCar(db, car).db, c, s)
    ensures Blocked(db, car) ==> forall s :: IsOpenFor(db, car, s) ==> IsOpenFor(RepairCar(db, car).db, car, s)
  {
    hide CloseDrives, CompleteOpenCharges, Blocked;
    var parked := CloseOpenDrives(db, car);
    ClosingLeavesCharges(db, OpenDrives(db, car));
    CloseOpenDrivesCloses(db, car);
    CompleteOpenChargesCloses(parked, car);
    CompletingOpenLeavesOthers(parked, car);
    SameBlocked(db, parked, car);
    CompletingFailsWhenBlocked(parked, car);
    forall c | c != car ensures Blocked(RepairCar(db, car).db, c) <==> Blocked(db, c) {
      SameBlocked(db, parked, c);
      SameBlocked(parked, RepairCar(db, car).db, c);
    }
    if Blocked(db, car) { BlockedHasNoDrive(db, car); }
  }

  lemma BlockedHasNoDrive(db: Db, car: Id)
    requires OneOpen(db) && Blocked(db, car)
    ensures OpenDrives(db, car) == map[]
  {
    var p :| p in OpenCharges(db, car) && ChargeRows(db, p) != map[];
    forall d ensures d !in OpenDrives(db, car) {
      if d in OpenDrives(db, car) { assert IsOpen(db, OnRoad(d)) && IsOpen(db, OnPlug(p)); }
    }
  }

  /** A repair runs to its end exactly when no car is blocked. */
  lemma {:induction false} RepairRunsWhen(db: Db, cars: Dates)
    requires OneOpen(db)
    ensures Repair(db, cars).ok <==> forall car :: car in cars ==> !Blocked(db, car)
    decreases |cars|
  {
    hide CloseOpenDrives, CompleteOpenCharges, Blocked, OneOpen;
    if cars != map[] {
      var car := Earliest(cars);
      RepairCarRuns(db, car);
      if RepairCar(db, car).ok { RepairRunsWhen(RepairCar(db, car).db, cars - {car}); }
    }
  }

  /** One blocked car stops it: what that car and the cars after it had open stays open. */
  lemma {:induction false} RepairStopsAtBlocked(db: Db, cars: Dates, blocked: Id, c: Id)
    requires OneOpen(db) && blocked in cars && Blocked(db, blocked)
    requires c in cars && (c == blocked || Before(cars, blocked, c))
    ensures forall s :: IsOpenFor(db, c, s) ==> IsOpenFor(Repair(db, cars).db, c, s)
    decreases |cars|
  {
    hide CloseOpenDrives, CompleteOpenCharges, Blocked, OneOpen, IsOpenFor;
    var car := Earliest(cars);
    RepairCarRuns(db, car);
    if car != blocked {
      assert Before(cars, car, blocked);
      if RepairCar(db, car).ok {
        RepairStopsAtBlocked(RepairCar(db, car).db, cars - {car}, blocked, c);
      }
    }
  }

  /** So the logger's repair at start runs to its end exactly when no car is blocked; else the sessions of the blocked
      car and of every car with a greater id stay open. */
  lemma RestartRunsWhen(db: Db)
    requires OneOpen(db)
    ensures Restart(db).ok <==> forall car :: car in db.cars ==> !Blocked(db, car)
    ensures forall blocked, c, s :: Blocked(db, blocked) && c in db.cars && blocked <= c && IsOpenFor(db, c, s) ==>
              IsOpenFor(Restart(db).db, c, s)
  {
    hide CatchUp, Repair, Blocked, OneOpen;
    var grouped := CatchUp(db);
    assert OnlyCloses(db, grouped);
    assert OneOpen(grouped) by { OneOpenAfter(db, grouped); }
    forall car ensures Blocked(grouped, car) <==> Blocked(db, car) { SameBlocked(db, grouped, car); }
    RepairRunsWhen(grouped, AllCars(grouped));
    forall blocked, c, s | Blocked(db, blocked) && c in db.cars && blocked <= c && IsOpenFor(db, c, s)
      ensures IsOpenFor(Restart(db).db, c, s)
    {
      BlockedIsACar(db, blocked);
      assert IsOpenFor(grouped, c, s);
      RepairStopsAtBlocked(grouped, AllCars(grouped), blocked, c);
    }
  }

  lemma OneOpenAfter(db: Db, after: Db)
    requires OneOpen(db) && OnlyCloses(db, after)
    ensures OneOpen(after)
  {
  }

  lemma BlockedIsACar(db: Db, car: Id)
    requires Blocked(db, car)
    ensures car in db.cars
  {
  }
}
