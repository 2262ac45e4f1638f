/** What every step of the ledger keeps, whatever id a snapshot hands back (src/logger.rs). */
module Integrity {
  import opened Base
  import opened Chrono
  import opened Tables
  import opened Rollup
  import opened Fences
  import opened Ledger
  import opened Sessions
  import opened Changes

  ghost predicate PositionOk(db: Db, now: nat, p: Id) {
    p in db.positions ==>
      && db.positions[p].date <= now
      && (db.positions[p].drive.Some? ==> db.positions[p].drive.value in db.drives)
  }

  ghost predicate DriveOk(db: Db, now: nat, d: Id) {
    d in db.drives ==>
      && db.drives[d].startDate <= now
      && (db.drives[d].endDate.Some? ==> db.drives[d].startDate <= db.drives[d].endDate.value <= now)
  }

  ghost predicate ChargeOk(db: Db, now: nat, c: Id) {
    c in db.charges ==>
      var row := db.charges[c];
      && row.process in db.processes
      && db.processes[row.process].startDate <= row.date <= now
  }

  ghost predicate ProcessOk(db: Db, now: nat, q: Id) {
    q in db.processes ==>
      var row := db.processes[q];
      && row.position in db.positions
      && row.startDate <= now
      && (row.endDate.Some? ==> row.startDate <= row.endDate.value <= now)
  }

  /** Two sessions of one car follow each other; they may touch. */
  ghost predicate Follows(db: Db, a: Session, b: Session) {
    Present(db, a) && Present(db, b) && a != b && CarOf(db, a) == CarOf(db, b) && EndOf(db, a).Some? ==>
      if EndOf(db, b).Some?
      then EndOf(db, a).value <= StartOf(db, b) || EndOf(db, b).value <= StartOf(db, a)
      else EndOf(db, a).value <= StartOf(db, b)
  }

  ghost predicate ChargesInOrder(db: Db) {
    forall a, b :: Follows(db, OnPlug(a), OnPlug(b))
  }

  /** At most one session of a car is open; rows refer to rows that exist; nothing is dated after now; sessions end
      after they start, and the charges of a car follow each other. */
  ghost predicate Steady(db: Db, now: nat) {
    && OneOpen(db)
    && (forall p :: PositionOk(db, now, p))
    && (forall d :: DriveOk(db, now, d))
    && (forall c :: ChargeOk(db, now, c))
    && (forall q :: ProcessOk(db, now, q))
    && ChargesInOrder(db)
  }

  lemma SteadyLater(db: Db, now: nat, later: nat)
    requires Steady(db, now) && now <= later
    ensures Steady(db, later)
  {
    hide OneOpen, ChargesInOrder;
    forall p ensures PositionOk(db, later, p) { assert PositionOk(db, now, p); }
    forall d ensures DriveOk(db, later, d) { assert DriveOk(db, now, d); }
    forall c ensures ChargeOk(db, later, c) { assert ChargeOk(db, now, c); }
    forall q ensures ProcessOk(db, later, q) { assert ProcessOk(db, now, q); }
  }

  lemma SteadyIsOneOpen(db: Db, now: nat)
    requires Steady(db, now)
    ensures OneOpen(db)
  {
  }

  // ---------- Each change ----------

  /** Charges and processes are as they were, and no position is gone. */
  ghost predicate SamePlugs(db: Db, after: Db) {
    after.processes == db.processes && after.charges == db.charges && db.positions.Keys <= after.positions.Keys
  }

  lemma SamePlugsSteady(db: Db, after: Db, now: nat)
    requires Steady(db, now) && SamePlugs(db, after)
    requires OneOpen(after) && (forall p :: PositionOk(after, now, p)) && forall d :: DriveOk(after, now, d)
    ensures Steady(after, now)
  {
    hide OneOpen, PositionOk, DriveOk;
    forall c ensures ChargeOk(after, now, c) { assert ChargeOk(db, now, c); }
    forall q ensures ProcessOk(after, now, q) { assert ProcessOk(db, now, q); }
    forall a, b ensures Follows(after, OnPlug(a), OnPlug(b)) { assert Follows(db, OnPlug(a), OnPlug(b)); }
  }

  /** The drive closed starts at its first point and ends at its last. */
  lemma ClosedDates(db: Db, now: nat, d: Id)
    requires Steady(db, now) && d in db.drives && DriveRows(db, d) != map[]
    ensures var done := ClosedDrive(db, d);
            done.startDate <= now && done.endDate.Some? && done.startDate <= done.endDate.value <= now
  {
    hide OneOpen;
    var rows := DriveRows(db, d);
    var first, last := Earliest(rows), Latest(rows);
    assert PositionOk(db, now, first) && PositionOk(db, now, last);
    assert first != last ==> Before(rows, first, last);
  }

  lemma NotTooShort(db: Db, d: Id)
    requires !TooShort(db, d)
    ensures |DriveRows(db, d)| >= 2
  {
  }

  lemma CloseDriveSteady(db: Db, now: nat, d: Id)
    requires Steady(db, now) && d in db.drives && db.drives[d].endDate.None?
    ensures Steady(CloseDrive(db, d), now)
  {
    hide OneOpen, ClosedDrive, TooShort, ChargesInOrder;
    var after := CloseDrive(db, d);
    CloseDriveCloses(db, d);
    assert OneOpen(after) by { OnlyClosesOneOpen(db, after); }
    if !TooShort(db, d) {
      NotTooShort(db, d);
      ClosedDates(db, now, d);
    }
    forall p ensures PositionOk(after, now, p) { assert PositionOk(db, now, p); }
    forall e ensures DriveOk(after, now, e) { assert DriveOk(db, now, e); }
    SamePlugsSteady(db, after, now);
  }

  lemma LastChargeDate(db: Db, now: nat, p: Id)
    requires Steady(db, now) && p in db.processes && ChargeRows(db, p) != map[]
    ensures db.processes[p].startDate <= ChargeRows(db, p)[Latest(ChargeRows(db, p))] <= now
  {
    hide OneOpen, ChargesInOrder;
    var last := Latest(ChargeRows(db, p));
    assert ChargeOk(db, now, last);
  }

  /** Ending an open session no earlier than it started keeps the sessions of its car in order. */
  lemma EndFollows(db: Db, after: Db, s: Session, a: Session, b: Session)
    requires OneOpen(db) && IsOpen(db, s) && Present(after, s) && EndOf(after, s).Some?
    requires CarOf(after, s) == CarOf(db, s) && StartOf(db, s) <= StartOf(after, s) <= EndOf(after, s).value
    requires forall t :: t != s && Present(after, t) ==> SameSpan(db, after, t)
    requires Follows(db, a, b) && Follows(db, b, a)
    ensures Follows(after, a, b)
  {
    if a == s && Present(after, b) && IsOpen(after, b) {
      assert IsOpen(db, b);
    }
  }

  /** The session is the same car's, from the same start to the same end. */
  ghost predicate SameSpan(db: Db, after: Db, t: Session)
    requires Present(after, t)
  {
    Present(db, t) && CarOf(after, t) == CarOf(db, t) && StartOf(after, t) == StartOf(db, t) &&
    EndOf(after, t) == EndOf(db, t)
  }

  lemma CompleteChargeSteady(db: Db, now: nat, car: Id, p: Id)
    requires Steady(db, now) && p in db.processes && db.processes[p].endDate.None?
    ensures Steady(CompleteCharge(db, car, p).db, now)
  {
    hide CompleteCharge, OneOpen;
    var after := CompleteCharge(db, car, p).db;
    CompleteChargeCloses(db, car, p);
    assert OneOpen(after) by { OnlyClosesOneOpen(db, after); }
    if ChargeRows(db, p) != map[] {
      LastChargeDate(db, now, p);
    }
    forall q ensures PositionOk(after, now, q) { assert PositionOk(db, now, q); }
    forall d ensures DriveOk(after, now, d) { assert DriveOk(db, now, d); }
    forall c ensures ChargeOk(after, now, c) {
      assert ChargeOk(db, now, c);
      if c in db.charges && db.charges[c].process == p {
        assert c in ChargeRows(db, p);
      }
    }
    forall q ensures ProcessOk(after, now, q) { assert ProcessOk(db, now, q); }
    forall a, b ensures Follows(after, OnPlug(a), OnPlug(b)) {
      assert Follows(db, OnPlug(a), OnPlug(b)) && Follows(db, OnPlug(b), OnPlug(a));
      if p in after.processes && after.processes[p].endDate.Some? {
        EndFollows(db, after, OnPlug(p), OnPlug(a), OnPlug(b));
      }
    }
  }

  /** A new row, on no drive or on an open one. */
  lemma InsertSteady(db: Db, after: Db, now: nat)
    requires Steady(db, now) && NextPosition(db) in after.positions
    requires after == db.(positions := db.positions[NextPosition(db) := after.positions[NextPosition(db)]],
                          hourly := after.hourly, nextHourRow := after.nextHourRow)
    requires PositionOk(after, now, NextPosition(db))
    ensures Steady(after, now)
  {
    hide OneOpen, ChargesInOrder;
    assert OneOpen(after) by { SessionsSame(db, after); }
    forall p ensures PositionOk(after, now, p) { assert PositionOk(db, now, p); }
    forall d ensures DriveOk(after, now, d) { assert DriveOk(db, now, d); }
    SamePlugsSteady(db, after, now);
  }

  lemma SessionsSame(db: Db, after: Db)
    requires OneOpen(db) && after.drives == db.drives && after.processes == db.processes
    ensures OneOpen(after)
  {
    forall a, b | IsOpen(after, a) && IsOpen(after, b) && CarOf(after, a) == CarOf(after, b) ensures a == b {
      assert IsOpen(db, a) && IsOpen(db, b);
    }
  }

  lemma FileSteady(db: Db, now: nat, p: Id, d: Id)
    requires Steady(db, now) && p in db.positions && d in db.drives
    ensures Steady(SetDrive(db, p, d), now)
  {
    hide OneOpen, ChargesInOrder;
    var after := SetDrive(db, p, d);
    assert OneOpen(after) by { SessionsSame(db, after); }
    forall q ensures PositionOk(after, now, q) { assert PositionOk(db, now, q); }
    forall e ensures DriveOk(after, now, e) { assert DriveOk(db, now, e); }
    SamePlugsSteady(db, after, now);
  }

  lemma OpenDriveSteady(db: Db, now: nat, car: Id, r: Reading, p: Id)
    requires Steady(db, now) && NoneOpen(db, car) && p in db.positions
    ensures Steady(OpenDrive(db, car, r, now, p), now)
  {
    hide OneOpen, ChargesInOrder;
    var after := OpenDrive(db, car, r, now, p);
    assert OneOpen(after) by { OpeningKeepsOneOpen(db, after, OnRoad(NextId(db.drives.Keys))); }
    forall q ensures PositionOk(after, now, q) { assert PositionOk(db, now, q); }
    forall e ensures DriveOk(after, now, e) { assert DriveOk(db, now, e); }
    SamePlugsSteady(db, after, now);
  }

  lemma OpenChargeSteady(db: Db, now: nat, car: Id, p: Id)
    requires Steady(db, now) && NoneOpen(db, car) && p in db.positions
    ensures Steady(db.(processes := db.processes[NextId(db.processes.Keys) := NewProcess(car, now, p)]), now)
  {
    hide OneOpen;
    var q := NextId(db.processes.Keys);
    var after := db.(processes := db.processes[q := NewProcess(car, now, p)]);
    assert OneOpen(after) by { OpeningKeepsOneOpen(db, after, OnPlug(q)); }
    forall k ensures PositionOk(after, now, k) { assert PositionOk(db, now, k); }
    forall d ensures DriveOk(after, now, d) { assert DriveOk(db, now, d); }
    forall c ensures ChargeOk(after, now, c) { assert ChargeOk(db, now, c); }
    forall k ensures ProcessOk(after, now, k) { assert ProcessOk(db, now, k); }
    forall a, b ensures Follows(after, OnPlug(a), OnPlug(b)) {
      assert Follows(db, OnPlug(a), OnPlug(b)) && ProcessOk(db, now, a) && ProcessOk(db, now, b);
    }
  }

  lemma AddChargeSteady(db: Db, now: nat, p: Id, r: Reading)
    requires Steady(db, now) && p in db.processes && db.processes[p].startDate <= now
    ensures Steady(AddCharge(db, p, r, now), now)
  {
    hide OneOpen;
    var after := AddCharge(db, p, r, now);
    assert OneOpen(after) by { OnlyClosesOneOpen(db, after); }
    forall q ensures PositionOk(after, now, q) { assert PositionOk(db, now, q); }
    forall d ensures DriveOk(after, now, d) { assert DriveOk(db, now, d); }
    forall c ensures ChargeOk(after, now, c) { assert ChargeOk(db, now, c); }
    forall q ensures ProcessOk(after, now, q) { assert ProcessOk(db, now, q); }
    forall a, b ensures Follows(after, OnPlug(a), OnPlug(b)) { assert Follows(db, OnPlug(a), OnPlug(b)); }
  }

  lemma StreamSteady(db: Db, car: Id, r: Reading, now: nat)
    requires Steady(db, now)
    ensures Steady(StreamRow(db, car, r, now), now)
  {
    hide Steady, SampleDue, StreamRows;
    if SampleDue(StreamRows(db, car), now) {
      InsertSteady(db, StreamRow(db, car, r, now), now);
    }
  }

  lemma SnapSteady(db: Db, car: Id, r: Reading, now: nat)
    requires Steady(db, now)
    ensures Steady(Snapshot(db, car, r, now), now)
  {
    hide Steady, Snapshot;
    InsertSteady(db, Snapshot(db, car, r, now), now);
  }

  lemma RegroupSteady(db: Db, now: nat)
    requires Steady(db, now)
    ensures Steady(CatchUp(db), now)
  {
    hide CatchUp, OneOpen, ChargesInOrder;
    var after := CatchUp(db);
    assert OneOpen(after) by { SessionsSame(db, after); }
    forall p ensures PositionOk(after, now, p) { assert PositionOk(db, now, p); }
    forall d ensures DriveOk(after, now, d) { assert DriveOk(db, now, d); }
    SamePlugsSteady(db, after, now);
  }

  lemma ChangeSteady(db: Db, c: Change, s: Step)
    requires CanMake(db, c, s) && Steady(db, s.now)
    ensures Steady(Make(db, c, s), s.now)
  {
    hide Steady, CloseDrive, CompleteCharge, Snapshot, SetDrive, OpenDrive, AddCharge, StreamRow, CatchUp;
    match c {
      case CloseOne(d) => CloseDriveSteady(db, s.now, d);
      case CompleteOne(p) => CompleteChargeSteady(db, s.now, db.processes[p].car, p);
      case Snap => SnapSteady(db, s.car, s.reading, s.now);
      case File(p, d) => FileSteady(db, s.now, p, d);
      case Open(p) =>
        NothingOpen(db, s.car);
        OpenDriveSteady(db, s.now, s.car, s.reading, p);
      case Begin(p) =>
        NothingOpen(db, s.car);
        OpenChargeSteady(db, s.now, s.car, p);
        var q := NextId(db.processes.Keys);
        AddChargeSteady(db.(processes := db.processes[q := NewProcess(s.car, s.now, p)]), s.now, q, s.reading);
      case Tick(q) =>
        StartedBefore(db, s.now, q);
        AddChargeSteady(db, s.now, q, s.reading);
      case Stream => StreamSteady(db, s.car, s.reading, s.now);
      case Regroup => RegroupSteady(db, s.now);
    }
  }

  lemma StartedBefore(db: Db, now: nat, q: Id)
    requires Steady(db, now) && q in db.processes
    ensures db.processes[q].startDate <= now
  {
    assert ProcessOk(db, now, q);
  }

  // ---------- Steps and runs ----------

  lemma StepSteady(db: Db, now: nat, s: Step)
    requires Steady(db, now) && now <= s.now
    ensures Steady(Apply(db, s), s.now)
  {
    SteadyLater(db, now, s.now);
    hide Steady, CanMake, Make, Apply;
    forall d, c | CanMake(d, c, s) && Steady(d, s.now) ensures Steady(Make(d, c, s), s.now) { ChangeSteady(d, c, s); }
    StepKeeps(d => Steady(d, s.now), db, s);
  }

  /** In every state of every run with a clock that does not go back, whatever ids the polls are handed. */
  lemma {:induction false} AlwaysSteady(dbs: seq<Db>, steps: seq<Step>, start: nat, k: nat)
    requires IsRun(dbs, steps) && Monotone(start, steps) && k <= |steps| && Steady(dbs[0], start)
    ensures Steady(dbs[k], Clock(start, steps, k))
  {
    hide Steady, Apply;
    if k > 0 {
      AlwaysSteady(dbs, steps, start, k - 1);
      StepSteady(dbs[k - 1], Clock(start, steps, k - 1), steps[k - 1]);
    }
  }

  lemma SteadyAt(dbs: seq<Db>, steps: seq<Step>, start: nat, k: nat)
    requires IsRun(dbs, steps) && Monotone(start, steps) && k < |steps| && Steady(dbs[0], start)
    ensures Steady(dbs[k], steps[k].now)
  {
    hide Steady, Apply;
    AlwaysSteady(dbs, steps, start, k);
    SteadyLater(dbs[k], Clock(start, steps, k), steps[k].now);
  }

  /** A property that steady tables keep under every other change is kept by a step exactly when its filing fits. */
  lemma SteadyKeepsWhenFit(inv: Db -> bool, db: Db, s: Step, fits: bool)
    requires Steady(db, s.now) && inv(db)
    requires forall d, c: Change :: CanMake(d, c, s) && !c.Files() && Steady(d, s.now) && inv(d) ==> inv(Make(d, c, s))
    requires FilesPoint(db, s) && Steady(AtFiling(db, s), s.now) && inv(AtFiling(db, s)) ==>
               (inv(Filed(db, s)) <==> fits)
    ensures HoldsThroughout(inv, db, s) <==> (FilesPoint(db, s) ==> fits)
  {
    hide Steady, CanMake, Make, Apply, AtFiling;
    var both := d => Steady(d, s.now) && inv(d);
    forall d, c: Change | CanMake(d, c, s) && !c.Files() && both(d) ensures both(Make(d, c, s)) {
      ChangeSteady(d, c, s);
    }
    if FilesPoint(db, s) && both(AtFiling(db, s)) {
      FilingAllowed(db, s);
      ChangeSteady(AtFiling(db, s), Filing(db, s), s);
    }
    StepKeepsWhenFit(both, db, s, fits);
    StepSteady(db, s.now, s);
    if FilesPoint(db, s) {
      assert Steady(Filed(db, s), s.now) by {
        FilingAllowed(db, s);
        ChangeSteady(AtFiling(db, s), Filing(db, s), s);
      }
    }
  }

  /** So the charges of a car never overlap; they may touch. */
  lemma ChargesNeverOverlap(dbs: seq<Db>, steps: seq<Step>, start: nat, k: nat, a: Id, b: Id)
    requires IsRun(dbs, steps) && Monotone(start, steps) && k <= |steps| && Steady(dbs[0], start)
    requires a in dbs[k].processes && b in dbs[k].processes && a != b
    requires dbs[k].processes[a].car == dbs[k].processes[b].car
    requires dbs[k].processes[a].endDate.Some? && dbs[k].processes[b].endDate.Some?
    ensures var p, q := dbs[k].processes[a], dbs[k].processes[b];
            p.endDate.value <= q.startDate || q.endDate.value <= p.startDate
  {
    AlwaysSteady(dbs, steps, start, k);
    assert Follows(dbs[k], OnPlug(a), OnPlug(b));
  }

  /** No position is deleted. */
  ghost predicate NothingDeleted(db: Db, after: Db) {
    db.positions.Keys <= after.positions.Keys
  }

  lemma ChangeDeletesNothing(db: Db, c: Change, s: Step)
    requires CanMake(db, c, s)
    ensures NothingDeleted(db, Make(db, c, s))
  {
    hide CloseDrive, CompleteCharge, Snapshot, StreamDrive, SampleDue, StreamRows, CatchUp, NewDrive, NewProcess;
  }

  lemma StepDeletesNothing(db: Db, s: Step)
    ensures NothingDeleted(db, Apply(db, s))
  {
    hide Apply, CanMake, Make;
    forall d, c ensures Holds(NothingDeleted, d, c, s) {
      if CanMake(d, c, s) { ChangeDeletesNothing(d, c, s); }
    }
    StepFollows(NothingDeleted, db, s);
  }

  lemma {:induction false} NoPositionIsDeleted(dbs: seq<Db>, steps: seq<Step>, j: nat, k: nat)
    requires IsRun(dbs, steps) && j <= k <= |steps|
    ensures NothingDeleted(dbs[j], dbs[k])
    decreases k
  {
    hide Apply;
    if j < k {
      NoPositionIsDeleted(dbs, steps, j, k - 1);
      StepDeletesNothing(dbs[k - 1], steps[k - 1]);
    }
  }

  /** A ledger with no sessions and no points is steady, whatever its fences and invoices. */
  lemma EmptyLedgerIsSteady(db: Db)
    requires db.positions == map[] && db.drives == map[] && db.processes == map[] && db.charges == map[]
    ensures Steady(db, 0)
  {
  }
}
