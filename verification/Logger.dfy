/** The logger's statements, in order, over one connection (src/logger.rs): each method does to the tables what
    `Ledger` says in one expression. `now` is the one clock value of a tick. */
module Logger {
  import opened Base
  import opened Chrono
  import opened Tables
  import opened Rollup
  import opened Fences
  import opened Ledger
  import opened Sessions
  import opened Sweep
  import opened Integrity
  import opened Roads
  import opened Gaps
  import opened RollupRuns
  import opened ChargeFacts
  import opened Connections

  /** The id comes from `last_insert_rowid()`, asked after the hour was refreshed. */
  method PersistSnapshot(conn: Connection, car: Id, r: Reading, now: nat) returns (id: Id)
    modifies conn
    ensures conn.View() == Snapshot(old(conn.View()), car, r, now)
    ensures id == SnapshotId(old(conn.View()), car, r, now)
  {
    hide RefreshHour, Group;
    var p := NextId(conn.positions.Keys);
    conn.positions := conn.positions[p := Position(now, car, None, r.place, r.odometer, r.ideal, r.battery)];
    conn.lastRowid := p;
    RefreshPositionHour(conn, car, now);
    return conn.lastRowid;
  }

  method DropDrive(conn: Connection, d: Id)
    modifies conn`positions, conn`drives
    ensures conn.View() == old(conn.View()).(positions := FreePositions(old(conn.View()), d),
                                             drives := old(conn.drives) - {d})
  {
    conn.positions := map p | p in conn.positions ::
      if conn.positions[p].drive == Some(d) then conn.positions[p].(drive := None) else conn.positions[p];
    conn.drives := conn.drives - {d};
  }

  method CloseOneDrive(conn: Connection, d: Id)
    modifies conn
    ensures conn.View() == CloseDrive(old(conn.View()), d) && conn.lastRowid == old(conn.lastRowid)
  {
    hide StartKm, EndKm, StartIdeal, EndIdeal, GeofenceAt, FreePositions, Minutes;
    var db := conn.View();
    var rows := DriveRows(db, d);
    var startKm, endKm := StartKm(db, d), EndKm(db, d);
    var distance := if startKm.Some? && endKm.Some? then Some(endKm.value - startKm.value) else None;
    if |rows| < 2 || OrZero(distance) < 0.01 {
      DropDrive(conn, d);
      return;
    }
    var first, last := Earliest(rows), Latest(rows);
    var startFence := FindGeofence(conn.metric, conn.fences, conn.positions[first].place);
    var endFence := FindGeofence(conn.metric, conn.fences, conn.positions[last].place);
    if d in conn.drives {
      conn.drives := conn.drives[d := conn.drives[d].(
        startDate := rows[first], endDate := Some(rows[last]), startPos := Some(first), endPos := Some(last),
        startKm := startKm, endKm := endKm, distance := distance, durationMin := Some(Minutes(rows[first], rows[last])),
        startIdeal := StartIdeal(db, d), endIdeal := EndIdeal(db, d),
        startFence := startFence, endFence := endFence)];
    }
  }

  /** One call of `close_drive` per row of a query's answer. */
  method CloseEach(conn: Connection, ids: Dates)
    modifies conn
    ensures conn.View() == CloseDrives(old(conn.View()), ids) && conn.lastRowid == old(conn.lastRowid)
  {
    hide CloseDrive;
    var todo := ids;
    while todo != map[]
      invariant CloseDrives(conn.View(), todo) == CloseDrives(old(conn.View()), ids)
      invariant conn.lastRowid == old(conn.lastRowid)
      decreases |todo|
    {
      var d := Earliest(todo);
      CloseOneDrive(conn, d);
      todo := todo - {d};
    }
  }

  method CompleteOneCharge(conn: Connection, car: Id, p: Id) returns (ok: bool)
    modifies conn
    ensures Outcome(conn.View(), ok) == CompleteCharge(old(conn.View()), car, p)
    ensures conn.lastRowid == old(conn.lastRowid)
  {
    hide CompletedProcess, PriceCharge;
    var db := conn.View();
    var rows := ChargeRows(db, p);
    if |rows| == 0 {
      conn.invoices := DeleteProcess(db, p).invoices;
      conn.processes := conn.processes - {p};
      return true;
    }
    if car in conn.cars && conn.cars[car].efficiency.None? {
      return false;
    }
    if p in conn.processes {
      conn.processes := conn.processes[p := CompletedProcess(db, car, p)];
      var position := conn.processes[p].position;
      if position in conn.positions {
        PriceChargeGeofence(conn, p, conn.positions[position].place);
      }
    }
    return true;
  }

  method CompleteEach(conn: Connection, car: Id, ids: Dates) returns (ok: bool)
    modifies conn
    ensures Outcome(conn.View(), ok) == CompleteCharges(old(conn.View()), car, ids)
    ensures conn.lastRowid == old(conn.lastRowid)
  {
    hide CompleteCharge;
    var todo := ids;
    while todo != map[]
      invariant CompleteCharges(conn.View(), car, todo) == CompleteCharges(old(conn.View()), car, ids)
      invariant conn.lastRowid == old(conn.lastRowid)
      decreases |todo|
    {
      var p := Earliest(todo);
      var completed := CompleteOneCharge(conn, car, p);
      if !completed {
        return false;
      }
      todo := todo - {p};
    }
    return true;
  }

  method CloseAllDrives(conn: Connection, car: Id)
    modifies conn
    ensures conn.View() == CloseOpenDrives(old(conn.View()), car) && conn.lastRowid == old(conn.lastRowid)
  {
    hide CloseDrives, OpenDrives;
    CloseEach(conn, OpenDrives(conn.View(), car));
  }

  method CompleteAllCharges(conn: Connection, car: Id) returns (ok: bool)
    modifies conn
    ensures Outcome(conn.View(), ok) == CompleteOpenCharges(old(conn.View()), car)
    ensures conn.lastRowid == old(conn.lastRowid)
  {
    hide CompleteCharges, OpenCharges;
    ok := CompleteEach(conn, car, OpenCharges(conn.View(), car));
  }

  method CloseStaleSessions(conn: Connection, car: Id, now: nat) returns (ok: bool)
    modifies conn
    ensures Outcome(conn.View(), ok) == CloseStale(old(conn.View()), car, now)
    ensures SweptExactly(old(conn.View()), conn.View(), ok, car, now)
    ensures conn.lastRowid == old(conn.lastRowid)
  {
    hide CloseDrives, CompleteCharges, StaleDrives, StaleCharges, SweptExactly;
    SweepIsExact(conn.View(), car, now);
    CloseEach(conn, StaleDrives(conn.View(), car, now));
    ok := CompleteEach(conn, car, StaleCharges(conn.View(), car, now));
  }

  method AttachRecentPosition(conn: Connection, car: Id, p: Id, now: nat)
    modifies conn`positions
    ensures conn.View() == AttachRecent(old(conn.View()), car, p, now)
  {
    hide HasRecentPoint, OpenDrives;
    var open := OpenDrives(conn.View(), car);
    if p in conn.positions && conn.positions[p].drive.None? && HasRecentPoint(conn.View(), car, now) && open != map[] {
      conn.positions := conn.positions[p := conn.positions[p].(drive := Some(Latest(open)))];
    }
  }

  /** Extend the open drive, or insert one at the snapshot's point; either way the point is filed on it. */
  method ExtendOrOpenDrive(conn: Connection, car: Id, r: Reading, now: nat, pos: Id) returns (ok: bool)
    modifies conn
    ensures Outcome(conn.View(), ok) == DriveTickTail(old(conn.View()), car, r, now, pos)
  {
    hide OpenDrives;
    var open := OpenDrives(conn.View(), car);
    var drive;
    if open != map[] {
      drive := Latest(open);
    } else {
      if pos !in conn.positions {
        return false;
      }
      drive := NextId(conn.drives.Keys);
      conn.drives := conn.drives[drive :=
        Drive(car, now, None, Some(pos), None, r.odometer, None, None, None, r.ideal, None, None, None)];
      conn.lastRowid := drive;
    }
    if pos in conn.positions {
      conn.positions := conn.positions[pos := conn.positions[pos].(drive := Some(drive))];
    }
    return true;
  }

  method PersistDriveTick(conn: Connection, car: Id, r: Reading, now: nat) returns (ok: bool)
    modifies conn
    ensures var swept := CloseStale(CompleteOpenCharges(old(conn.View()), car).db, car, now).db;
            Outcome(conn.View(), ok) ==
            DriveTick(old(conn.View()), car, r, now, SnapshotId(swept, car, r, now))
  {
    hide CompleteOpenCharges, CloseStale, Snapshot, SnapshotId, DriveTickTail;
    ok := CompleteAllCharges(conn, car);
    if !ok {
      return;
    }
    ok := CloseStaleSessions(conn, car, now);
    if !ok {
      return;
    }
    var pos := PersistSnapshot(conn, car, r, now);
    ok := ExtendOrOpenDrive(conn, car, r, now, pos);
  }

  /** Extend the open charge, or insert one; then its tick, then the running energy. */
  method ExtendOrOpenCharge(conn: Connection, car: Id, r: Reading, now: nat, pos: Id) returns (ok: bool)
    modifies conn
    ensures Outcome(conn.View(), ok) == ChargeTickTail(old(conn.View()), car, r, now, pos)
  {
    hide OpenCharges;
    var open := OpenCharges(conn.View(), car);
    var p;
    if open != map[] {
      p := Latest(open);
      assert p in conn.processes by { OpenChargesExist(conn.View(), car); }
    } else {
      if pos !in conn.positions {
        return false;
      }
      p := NextId(conn.processes.Keys);
      conn.processes := conn.processes[p := Process(car, now, None, pos, Some(0.0), None, None, None, None)];
    }
    var energy := OrZero(r.energy);
    var tick := NextId(conn.charges.Keys);
    conn.charges := conn.charges[tick := Charge(p, now, energy, r.rated)];
    conn.lastRowid := tick;
    conn.processes := conn.processes[p := conn.processes[p].(added := Some(energy))];
    return true;
  }

  lemma OpenChargesExist(db: Db, car: Id)
    ensures forall p :: p in OpenCharges(db, car) ==> p in db.processes
  {
  }

  method PersistChargeTick(conn: Connection, car: Id, r: Reading, now: nat) returns (ok: bool)
    modifies conn
    ensures Outcome(conn.View(), ok) ==
            ChargeTick(old(conn.View()), car, r, now, SnapshotId(old(conn.View()), car, r, now))
  {
    hide CloseOpenDrives, CloseStale, Snapshot, SnapshotId, AttachRecent, ChargeTickTail;
    var pos := PersistSnapshot(conn, car, r, now);
    AttachRecentPosition(conn, car, pos, now);
    CloseAllDrives(conn, car);
    ok := CloseStaleSessions(conn, car, now);
    if !ok {
      return;
    }
    ok := ExtendOrOpenCharge(conn, car, r, now, pos);
  }

  /** An idle poll: `persist_snapshot`, then `finish_idle`. */
  method PersistIdle(conn: Connection, car: Id, r: Reading, now: nat) returns (ok: bool)
    modifies conn
    ensures Outcome(conn.View(), ok) ==
            IdleTick(old(conn.View()), car, r, now, SnapshotId(old(conn.View()), car, r, now))
  {
    hide CloseOpenDrives, CompleteOpenCharges, Snapshot, SnapshotId, AttachRecent;
    var pos := PersistSnapshot(conn, car, r, now);
    AttachRecentPosition(conn, car, pos, now);
    CloseAllDrives(conn, car);
    ok := CompleteAllCharges(conn, car);
  }

  method IngestStreamRow(conn: Connection, car: Id, r: Reading, now: nat)
    modifies conn
    ensures conn.View() == StreamRow(old(conn.View()), car, r, now)
  {
    hide OpenDrives;
    var db := conn.View();
    var open := OpenDrives(db, car);
    var drive := if open == map[] then None else Some(MaxId(open.Keys));
    var rows := if drive.Some? then DriveRows(db, drive.value) else PoolRows(db, car);
    if !SampleDue(rows, now) {
      return;
    }
    var p := NextId(conn.positions.Keys);
    conn.positions := conn.positions[p := Position(now, car, drive, r.place, r.odometer, None, r.battery)];
    conn.lastRowid := p;
  }

  method RepairOpenSessions(conn: Connection) returns (ok: bool)
    modifies conn
    ensures Outcome(conn.View(), ok) == Repair(old(conn.View()), AllCars(old(conn.View())))
  {
    hide CloseOpenDrives, CompleteOpenCharges, AllCars;
    var todo := AllCars(conn.View());
    while todo != map[]
      invariant Repair(conn.View(), todo) == Repair(old(conn.View()), AllCars(old(conn.View())))
      decreases |todo|
    {
      var car := Earliest(todo);
      CloseAllDrives(conn, car);
      ok := CompleteAllCharges(conn, car);
      if !ok {
        return;
      }
      todo := todo - {car};
    }
    return true;
  }

  method Start(conn: Connection) returns (ok: bool)
    modifies conn
    ensures Outcome(conn.View(), ok) == Restart(old(conn.View()))
  {
    hide CatchUp, Repair, AllCars;
    EnsurePositionHourly(conn);
    assert AllCars(conn.View()) == AllCars(old(conn.View())) by { CatchUpKeepsCars(old(conn.View())); }
    ok := RepairOpenSessions(conn);
  }

  lemma CatchUpKeepsCars(db: Db)
    ensures AllCars(CatchUp(db)) == AllCars(db)
  {
    hide CatchUp;
  }

  /** What one call on the connection amounts to: the step the code takes, with the id it reads back. */
  function WrittenStep(db: Db, s: Step): Step {
    match s
    case DriveStep(car, now, r, _) => DriveStep(car, now, r, SnapshotId(AtSnapshot(db, s), car, r, now))
    case ChargeStep(car, now, r, _) => ChargeStep(car, now, r, SnapshotId(db, car, r, now))
    case IdleStep(car, now, r, _) => IdleStep(car, now, r, SnapshotId(db, car, r, now))
    case _ => s
  }

  /** The loop of the program: one call per step. Every theorem about runs therefore speaks of these tables. */
  method Perform(conn: Connection, s: Step)
    modifies conn
    ensures conn.View() == Apply(old(conn.View()), WrittenStep(old(conn.View()), s))
    ensures AsWritten(old(conn.View()), WrittenStep(old(conn.View()), s))
  {
    hide DriveTick, ChargeTick, IdleTick, StreamRow, SnapshotId;
    hide CloseOpenDrives, CompleteOpenCharges, CloseStale, Restart;
    var ok;
    match s {
      case DriveStep(car, now, r, _) => ok := PersistDriveTick(conn, car, r, now);
      case ChargeStep(car, now, r, _) => ok := PersistChargeTick(conn, car, r, now);
      case IdleStep(car, now, r, _) => ok := PersistIdle(conn, car, r, now);
      case StreamStep(car, now, r) => IngestStreamRow(conn, car, r, now);
      case StreamEndStep(car, now) => CloseAllDrives(conn, car);
      case RestartStep(now) => ok := Start(conn);
    }
  }

  lemma SameClock(start: nat, steps: seq<Step>, written: seq<Step>)
    requires |written| == |steps| && forall i :: 0 <= i < |steps| ==> written[i].now == steps[i].now
    ensures Monotone(start, written) <==> Monotone(start, steps)
    ensures Clock(start, written, |steps|) == Clock(start, steps, |steps|)
  {
    assert forall i :: 0 <= i < |steps| ==> Clock(start, written, i) == Clock(start, steps, i);
  }

  /** The program run: the states it passes through are a run of `Ledger` steps, so from a repaired start no car ever
      has two open sessions, the rollup agrees with its table, closed charges are final and nothing is deleted; with a
      clock that does not go back the tables stay steady, and no charge has a gap; and closed drives are final when no
      poll took a point off one. */
  method Run(conn: Connection, steps: seq<Step>, ghost start: nat, ghost prior: set<Session>)
      returns (ghost dbs: seq<Db>, ghost written: seq<Step>)
    modifies conn
    ensures IsRun(dbs, written) && |written| == |steps|
    ensures dbs[0] == old(conn.View()) && dbs[|steps|] == conn.View()
    ensures forall i :: 0 <= i < |steps| ==>
      AsWritten(dbs[i], written[i]) && written[i] == WrittenStep(dbs[i], steps[i])
    ensures OneOpen(old(conn.View())) ==> OneOpen(conn.View())
    ensures RollupAgrees(old(conn.View())) ==> RollupAgrees(conn.View())
    ensures ChargesFollow(old(conn.View()), conn.View()) && NothingDeleted(old(conn.View()), conn.View())
    ensures Monotone(start, steps) && Steady(old(conn.View()), start) ==>
      && Steady(conn.View(), Clock(start, steps, |steps|))
      && (ChargesTight(old(conn.View()), prior) ==> ChargesTight(conn.View(), prior))
    ensures (forall i :: 0 <= i < |steps| ==> !TakesClosedPoint(dbs[i], written[i])) ==>
      KeepsClosed(old(conn.View()), conn.View())
  {
    hide Apply, AsWritten, WrittenStep, OneOpen, RollupAgrees, ChargesFollow, NothingDeleted, Steady, ChargesTight;
    hide Monotone, Clock, TakesClosedPoint, KeepsClosed;
    dbs, written := [conn.View()], [];
    for k := 0 to |steps|
      invariant |written| == k && IsRun(dbs, written)
      invariant dbs[0] == old(conn.View()) && dbs[k] == conn.View()
      invariant forall i :: 0 <= i < k ==> AsWritten(dbs[i], written[i]) && written[i] == WrittenStep(dbs[i], steps[i])
    {
      Perform(conn, steps[k]);
      written := written + [WrittenStep(dbs[k], steps[k])];
      dbs := dbs + [conn.View()];
    }
    RunResults(dbs, steps, written, start, prior);
  }

  lemma RunResults(dbs: seq<Db>, steps: seq<Step>, written: seq<Step>, start: nat, prior: set<Session>)
    requires IsRun(dbs, written) && |written| == |steps|
    requires forall i :: 0 <= i < |steps| ==> written[i] == WrittenStep(dbs[i], steps[i])
    ensures var n := |steps|;
            && (OneOpen(dbs[0]) ==> OneOpen(dbs[n]))
            && (RollupAgrees(dbs[0]) ==> RollupAgrees(dbs[n]))
            && ChargesFollow(dbs[0], dbs[n]) && NothingDeleted(dbs[0], dbs[n])
            && (Monotone(start, steps) && Steady(dbs[0], start) ==>
                  && Steady(dbs[n], Clock(start, steps, n))
                  && (ChargesTight(dbs[0], prior) ==> ChargesTight(dbs[n], prior)))
            && ((forall i :: 0 <= i < n ==> !TakesClosedPoint(dbs[i], written[i])) ==> KeepsClosed(dbs[0], dbs[n]))
  {
    forall i | 0 <= i < |steps| ensures written[i].now == steps[i].now { SameNow(dbs[i], steps[i]); }
    hide Apply, OneOpen, RollupAgrees, ChargesFollow, NothingDeleted, Steady, ChargesTight, Monotone, Clock;
    hide TakesClosedPoint, KeepsClosed, WrittenStep;
    var n := |steps|;
    SameClock(start, steps, written);
    if OneOpen(dbs[0]) { AtMostOneOpenSession(dbs, written, n); }
    if RollupAgrees(dbs[0]) { RollupAlwaysAgrees(dbs, written, n); }
    if Monotone(start, steps) && Steady(dbs[0], start) {
      AlwaysSteady(dbs, written, start, n);
      if ChargesTight(dbs[0], prior) { NoChargeHasAGap(dbs, written, start, prior, n); }
    }
    ClosedChargesAreFinal(dbs, written, 0, n);
    NoPositionIsDeleted(dbs, written, 0, n);
    ClosedDrivesAreFinal(dbs, written, n);
  }

  lemma SameNow(db: Db, s: Step)
    ensures WrittenStep(db, s).now == s.now
  {
  }
}
