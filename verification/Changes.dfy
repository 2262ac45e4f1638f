/** Each step of the ledger is a sequence of single changes, so what every change keeps every step keeps. */
module Changes {
  import opened Base
  import opened Chrono
  import opened Tables
  import opened Rollup
  import opened Fences
  import opened Ledger
  import opened Sessions

  /** One change to the tables; the car, the reading and the clock are those of the step. */
  datatype Change =
    | CloseOne(d: Id)
    | CompleteOne(p: Id)
    | Snap
    | File(p: Id, d: Id)
    | Open(p: Id)
    | Begin(p: Id)
    | Tick(q: Id)
    | Stream
    | Regroup
  {
    predicate Closes() { CloseOne? || CompleteOne? }

    /** The point the poll goes on with is put on a drive. */
    predicate Files() { File? || Open? }
  }

  /** A session whose last reading, or else its start, is not stale. */
  predicate CurrentDrive(db: Db, d: Id, now: nat) {
    d in db.drives && !IsStale(LastDate(DriveRows(db, d), db.drives[d].startDate), now)
  }

  predicate CurrentCharge(db: Db, q: Id, now: nat) {
    q in db.processes && !IsStale(LastDate(ChargeRows(db, q), db.processes[q].startDate), now)
  }

  /** A restart closes the sessions of every car, any other step those of its own. */
  predicate Visits(s: Step, car: Id) {
    s.RestartStep? || s.car == car
  }

  predicate CanMake(db: Db, c: Change, s: Step) {
    match c
    case CloseOne(d) => d in db.drives && db.drives[d].endDate.None? && Visits(s, db.drives[d].car)
    case CompleteOne(p) => p in db.processes && db.processes[p].endDate.None? && Visits(s, db.processes[p].car)
    case Snap => s.IsPoll()
    case File(p, d) =>
      && s.IsPoll() && p in db.positions && d in OpenDrives(db, s.car)
      && (s.DriveStep? || db.positions[p].drive.None?)
    case Open(p) => s.DriveStep? && p in db.positions && NoSession(db, s.car)
    case Begin(p) => s.ChargeStep? && p in db.positions && NoSession(db, s.car)
    case Tick(q) => s.ChargeStep? && q in OpenCharges(db, s.car) && CurrentCharge(db, q, s.now)
    case Stream => s.StreamStep?
    case Regroup => s.RestartStep?
  }

  predicate NoSession(db: Db, car: Id) {
    OpenDrives(db, car) == map[] && OpenCharges(db, car) == map[]
  }

  function Make(db: Db, c: Change, s: Step): Db
    requires CanMake(db, c, s)
  {
    match c
    case CloseOne(d) => CloseDrive(db, d)
    case CompleteOne(p) => CompleteCharge(db, db.processes[p].car, p).db
    case Snap => Snapshot(db, s.car, s.reading, s.now)
    case File(p, d) => SetDrive(db, p, d)
    case Open(p) => OpenDrive(db, s.car, s.reading, s.now, p)
    case Begin(p) => BeginCharge(db, s.car, s.reading, s.now, p)
    case Tick(q) => AddCharge(db, q, s.reading, s.now)
    case Stream => StreamRow(db, s.car, s.reading, s.now)
    case Regroup => CatchUp(db)
  }

  /** The row a poll has just inserted. */
  ghost predicate NewRow(db: Db, p: Id, s: Step)
    requires s.IsPoll()
  {
    && p in db.positions && (forall q :: q in db.positions ==> q <= p)
    && db.positions[p] == SnapshotRow(s.car, s.reading, s.now)
  }

  // ---------- Lifting a relation from changes to steps ----------

  ghost predicate Preorder(rel: (Db, Db) -> bool) {
    (forall a :: rel(a, a)) && forall a, b, c :: rel(a, b) && rel(b, c) ==> rel(a, c)
  }

  ghost predicate Holds(rel: (Db, Db) -> bool, db: Db, c: Change, s: Step) {
    CanMake(db, c, s) ==> rel(db, Make(db, c, s))
  }

  ghost predicate HoldsOfClosings(rel: (Db, Db) -> bool, s: Step) {
    forall db, c: Change :: c.Closes() ==> Holds(rel, db, c, s)
  }

  /** ... of every change but the filing of a point. */
  ghost predicate HoldsOfOthers(rel: (Db, Db) -> bool, s: Step) {
    forall db, c: Change :: !c.Files() ==> Holds(rel, db, c, s)
  }

  ghost predicate HoldsOfChanges(rel: (Db, Db) -> bool, s: Step) {
    forall db, c :: Holds(rel, db, c, s)
  }

  lemma Chain(rel: (Db, Db) -> bool, a: Db, b: Db, c: Db)
    requires Preorder(rel) && rel(a, b) && rel(b, c)
    ensures rel(a, c)
  {
  }

  lemma Same(rel: (Db, Db) -> bool, a: Db)
    requires Preorder(rel)
    ensures rel(a, a)
  {
  }

  ghost predicate AllOpenDrives(db: Db, todo: Dates, s: Step) {
    forall d :: d in todo ==> d in db.drives && db.drives[d].endDate.None? && Visits(s, db.drives[d].car)
  }

  ghost predicate AllOpenCharges(db: Db, car: Id, todo: Dates) {
    forall p :: p in todo ==> p in db.processes && db.processes[p].endDate.None? && db.processes[p].car == car
  }

  lemma {:induction false} CloseDrivesLift(rel: (Db, Db) -> bool, db: Db, todo: Dates, s: Step)
    requires Preorder(rel) && HoldsOfClosings(rel, s) && AllOpenDrives(db, todo, s)
    ensures rel(db, CloseDrives(db, todo))
    decreases |todo|
  {
    hide CloseDrive, Preorder;
    if todo == map[] {
      Same(rel, db);
    } else {
      var d := Earliest(todo);
      assert Holds(rel, db, CloseOne(d), s);
      CloseDrivesLift(rel, CloseDrive(db, d), todo - {d}, s);
      Chain(rel, db, CloseDrive(db, d), CloseDrives(db, todo));
    }
  }

  lemma {:induction false} CompleteChargesLift(rel: (Db, Db) -> bool, db: Db, car: Id, todo: Dates, s: Step)
    requires Preorder(rel) && HoldsOfClosings(rel, s) && AllOpenCharges(db, car, todo) && Visits(s, car)
    ensures rel(db, CompleteCharges(db, car, todo).db)
    decreases |todo|
  {
    hide CompleteCharge, Preorder;
    if todo == map[] {
      Same(rel, db);
    } else {
      var p := Earliest(todo);
      var step := CompleteCharge(db, car, p);
      assert Holds(rel, db, CompleteOne(p), s);
      if step.ok {
        CompleteChargesLift(rel, step.db, car, todo - {p}, s);
        Chain(rel, db, step.db, CompleteCharges(db, car, todo).db);
      }
    }
  }

  lemma CloseOpenDrivesLift(rel: (Db, Db) -> bool, db: Db, car: Id, s: Step)
    requires Preorder(rel) && HoldsOfClosings(rel, s) && Visits(s, car)
    ensures rel(db, CloseOpenDrives(db, car))
  {
    hide Preorder, HoldsOfClosings, CloseDrives;
    CloseDrivesLift(rel, db, OpenDrives(db, car), s);
  }

  lemma CompleteOpenChargesLift(rel: (Db, Db) -> bool, db: Db, car: Id, s: Step)
    requires Preorder(rel) && HoldsOfClosings(rel, s) && Visits(s, car)
    ensures rel(db, CompleteOpenCharges(db, car).db)
  {
    hide Preorder, HoldsOfClosings, CompleteCharges;
    CompleteChargesLift(rel, db, car, OpenCharges(db, car), s);
  }

  lemma CloseStaleLift(rel: (Db, Db) -> bool, db: Db, car: Id, now: nat, s: Step)
    requires Preorder(rel) && HoldsOfClosings(rel, s) && Visits(s, car)
    ensures rel(db, CloseDrives(db, StaleDrives(db, car, now)))
    ensures rel(CloseDrives(db, StaleDrives(db, car, now)), CloseStale(db, car, now).db)
    ensures rel(db, CloseStale(db, car, now).db)
  {
    hide Preorder, HoldsOfClosings, CloseDrives, CompleteCharges, IsStale, LastDate;
    var parked := CloseDrives(db, StaleDrives(db, car, now));
    CloseDrivesLift(rel, db, StaleDrives(db, car, now), s);
    CompleteChargesLift(rel, parked, car, StaleCharges(parked, car, now), s);
    Chain(rel, db, parked, CloseStale(db, car, now).db);
  }

  lemma {:induction false} RepairLift(rel: (Db, Db) -> bool, db: Db, cars: Dates, s: Step)
    requires Preorder(rel) && HoldsOfClosings(rel, s) && s.RestartStep?
    ensures rel(db, Repair(db, cars).db)
    decreases |cars|
  {
    hide Preorder, HoldsOfClosings, CloseOpenDrives, CompleteOpenCharges;
    if cars == map[] {
      Same(rel, db);
    } else {
      var car := Earliest(cars);
      var parked := CloseOpenDrives(db, car);
      var closed := CompleteOpenCharges(parked, car);
      CloseOpenDrivesLift(rel, db, car, s);
      CompleteOpenChargesLift(rel, parked, car, s);
      Chain(rel, db, parked, closed.db);
      if closed.ok {
        RepairLift(rel, closed.db, cars - {car}, s);
        Chain(rel, db, closed.db, Repair(db, cars).db);
      }
    }
  }

  // ---------- The rows of the sessions a closing leaves ----------

  function RowsOf(db: Db, s: Session): Dates {
    match s
    case OnRoad(d) => DriveRows(db, d)
    case OnPlug(p) => ChargeRows(db, p)
  }

  /** The sessions that remain have the rows they had. */
  ghost predicate RowsKept(db: Db, after: Db) {
    && (forall s :: Present(after, s) ==> Present(db, s) && RowsOf(after, s) == RowsOf(db, s))
    && (forall s :: Present(db, s) && EndOf(db, s).Some? ==> Present(after, s) && EndOf(after, s).Some?)
  }

  lemma RowsKeptIsPreorder()
    ensures Preorder(RowsKept)
  {
    hide RowsOf;
    forall a, b, c | RowsKept(a, b) && RowsKept(b, c) ensures RowsKept(a, c) {
      forall s | Present(c, s) ensures Present(a, s) && RowsOf(c, s) == RowsOf(a, s) {
        assert Present(b, s);
      }
      forall s | Present(a, s) && EndOf(a, s).Some? ensures Present(c, s) && EndOf(c, s).Some? {
        assert Present(b, s) && EndOf(b, s).Some?;
      }
    }
  }

  lemma CloseDriveRows(db: Db, d: Id)
    requires d in db.drives && db.drives[d].endDate.None?
    ensures RowsKept(db, CloseDrive(db, d))
  {
    hide CloseDrive, DriveRows;
    var after := CloseDrive(db, d);
    forall s | Present(after, s) ensures Present(db, s) && RowsOf(after, s) == RowsOf(db, s) {
      match s {
        case OnRoad(e) => CloseDriveLeavesRows(db, d, e);
        case OnPlug(p) => assert ChargeRows(after, p) == ChargeRows(db, p);
      }
    }
  }

  lemma CloseDriveLeavesRows(db: Db, d: Id, e: Id)
    requires d in db.drives && e in CloseDrive(db, d).drives
    ensures DriveRows(CloseDrive(db, d), e) == DriveRows(db, e)
  {
    hide TooShort, ClosedDrive;
    assert forall p :: OnDrive(CloseDrive(db, d), p, e) <==> OnDrive(db, p, e);
  }

  lemma CompleteChargeRows(db: Db, car: Id, p: Id)
    requires p in db.processes && db.processes[p].endDate.None?
    ensures RowsKept(db, CompleteCharge(db, car, p).db)
  {
    hide CompleteCharge;
    var after := CompleteCharge(db, car, p).db;
    CompleteChargeCloses(db, car, p);
    forall s | Present(after, s) ensures Present(db, s) && RowsOf(after, s) == RowsOf(db, s) {
      match s {
        case OnRoad(e) => assert DriveRows(after, e) == DriveRows(db, e);
        case OnPlug(q) => assert ChargeRows(after, q) == ChargeRows(db, q);
      }
    }
  }

  lemma ClosingsKeepRows(s: Step)
    ensures Preorder(RowsKept) && HoldsOfClosings(RowsKept, s)
  {
    hide RowsKept, CloseDrive, CompleteCharge;
    RowsKeptIsPreorder();
    forall db, c: Change | c.Closes() ensures Holds(RowsKept, db, c, s) {
      if CanMake(db, c, s) {
        match c {
          case CloseOne(d) => CloseDriveRows(db, d);
          case CompleteOne(p) => CompleteChargeRows(db, db.processes[p].car, p);
        }
      }
    }
  }

  /** What the stale check leaves open is not stale. */
  lemma NothingStaleLeft(db: Db, car: Id, now: nat)
    ensures var step := CloseStale(db, car, now);
            && (forall d :: d in OpenDrives(step.db, car) ==> CurrentDrive(step.db, d, now))
            && (step.ok ==> forall p :: p in OpenCharges(step.db, car) ==> CurrentCharge(step.db, p, now))
  {
    hide IsStale, LastDate, CloseDrives, CompleteCharges, Preorder, HoldsOfClosings;
    var s := StreamEndStep(car, now);
    var stale := StaleDrives(db, car, now);
    var mid := CloseDrives(db, stale);
    var staleCharges := StaleCharges(mid, car, now);
    var step := CloseStale(db, car, now);
    CloseDrivesCloses(db, stale);
    CompleteChargesCloses(mid, car, staleCharges);
    ClosingsKeepRows(s);
    CloseStaleLift(RowsKept, db, car, now, s);
    assert RowsKept(db, mid) && RowsKept(mid, step.db);
    forall d | d in OpenDrives(step.db, car) ensures CurrentDrive(step.db, d, now) {
      assert IsOpen(step.db, OnRoad(d)) && IsOpen(mid, OnRoad(d)) && IsOpen(db, OnRoad(d));
      assert d !in stale;
      assert RowsOf(step.db, OnRoad(d)) == RowsOf(mid, OnRoad(d)) == RowsOf(db, OnRoad(d));
    }
    if step.ok {
      forall p | p in OpenCharges(step.db, car) ensures CurrentCharge(step.db, p, now) {
        assert IsOpen(step.db, OnPlug(p)) && IsOpen(mid, OnPlug(p));
        assert p !in staleCharges;
        assert RowsOf(step.db, OnPlug(p)) == RowsOf(mid, OnPlug(p));
      }
    }
  }

  // ---------- Filing a point ----------

  /** The tables when a poll's point is filed, or would be. */
  function AtFiling(db: Db, s: Step): Db
    requires s.IsPoll()
  {
    Snapshot(AtSnapshot(db, s), s.car, s.reading, s.now)
  }

  /** The poll puts the row it was handed on a drive. */
  predicate FilesPoint(db: Db, s: Step) {
    s.IsPoll() &&
    var at := AtFiling(db, s);
    s.handed in at.positions &&
    if s.DriveStep?
    then CompleteOpenCharges(db, s.car).ok && CloseStale(CompleteOpenCharges(db, s.car).db, s.car, s.now).ok
    else at.positions[s.handed].drive.None? && HasRecentPoint(at, s.car, s.now) && OpenDrives(at, s.car) != map[]
  }

  function Filing(db: Db, s: Step): (c: Change)
    requires s.IsPoll()
    ensures c.Files()
  {
    var open := OpenDrives(AtFiling(db, s), s.car);
    if open == map[] then Open(s.handed) else File(s.handed, Latest(open))
  }

  lemma FilingAllowed(db: Db, s: Step)
    requires FilesPoint(db, s)
    ensures CanMake(AtFiling(db, s), Filing(db, s), s)
  {
    hide CompleteOpenCharges, CloseStale, HasRecentPoint, Snapshot;
    if s.DriveStep? {
      var charged := CompleteOpenCharges(db, s.car);
      CompleteOpenChargesCloses(db, s.car);
      CloseStaleCloses(charged.db, s.car, s.now);
      OnlyClosesEmpty(charged.db, AtSnapshot(db, s), s.car);
      SnapshotRows(AtSnapshot(db, s), s);
    }
  }

  /** The tables once the point is filed. */
  function Filed(db: Db, s: Step): Db
    requires FilesPoint(db, s)
  {
    FilingAllowed(db, s);
    Make(AtFiling(db, s), Filing(db, s), s)
  }

  // ---------- Ticks ----------

  lemma ClosingsToo(rel: (Db, Db) -> bool, s: Step)
    requires HoldsOfOthers(rel, s)
    ensures HoldsOfClosings(rel, s)
  {
  }

  lemma ChangeHolds(rel: (Db, Db) -> bool, db: Db, c: Change, s: Step)
    requires HoldsOfOthers(rel, s) && CanMake(db, c, s) && !c.Files()
    ensures rel(db, Make(db, c, s))
  {
    hide Make, CanMake;
    assert Holds(rel, db, c, s);
  }

  /** After a snapshot its row is new, and the drives have the rows they had. */
  lemma SnapshotRows(db: Db, s: Step)
    requires s.IsPoll()
    ensures var snap := Snapshot(db, s.car, s.reading, s.now);
            && NewRow(snap, NextPosition(db), s)
            && (forall d :: CurrentDrive(db, d, s.now) ==> CurrentDrive(snap, d, s.now))
            && (forall d :: DriveRows(snap, d) == DriveRows(db, d))
            && OpenDrives(snap, s.car) == OpenDrives(db, s.car) && OpenCharges(snap, s.car) == OpenCharges(db, s.car)
  {
    hide Snapshot;
    var snap := Snapshot(db, s.car, s.reading, s.now);
    forall d ensures DriveRows(snap, d) == DriveRows(db, d) {
      assert forall p :: OnDrive(snap, p, d) <==> OnDrive(db, p, d);
    }
  }

  /** Up to the filing. */
  lemma AtFilingLifts(rel: (Db, Db) -> bool, db: Db, s: Step)
    requires Preorder(rel) && HoldsOfOthers(rel, s) && s.IsPoll()
    requires s.DriveStep? ==> CompleteOpenCharges(db, s.car).ok
    ensures rel(db, AtFiling(db, s))
  {
    hide Preorder, HoldsOfOthers, HoldsOfClosings, CompleteOpenCharges, CloseStale, Snapshot;
    var at := AtSnapshot(db, s);
    if s.DriveStep? {
      ClosingsToo(rel, s);
      CompleteOpenChargesLift(rel, db, s.car, s);
      CloseStaleLift(rel, CompleteOpenCharges(db, s.car).db, s.car, s.now, s);
      Chain(rel, db, CompleteOpenCharges(db, s.car).db, at);
    } else {
      Same(rel, db);
    }
    ChangeHolds(rel, at, Snap, s);
    Chain(rel, db, at, AtFiling(db, s));
  }

  lemma DriveTickLift(rel: (Db, Db) -> bool, db: Db, s: Step)
    requires Preorder(rel) && HoldsOfOthers(rel, s) && s.DriveStep?
    requires FilesPoint(db, s) ==> rel(AtFiling(db, s), Filed(db, s))
    ensures rel(db, Apply(db, s))
  {
    hide Preorder, HoldsOfOthers, HoldsOfClosings, CompleteOpenCharges, CloseStale, Snapshot, SetDrive, OpenDrive;
    hide OpenDrives;
    ClosingsToo(rel, s);
    var charged := CompleteOpenCharges(db, s.car);
    CompleteOpenChargesLift(rel, db, s.car, s);
    if charged.ok {
      var swept := CloseStale(charged.db, s.car, s.now);
      CloseStaleLift(rel, charged.db, s.car, s.now, s);
      Chain(rel, db, charged.db, swept.db);
      if swept.ok {
        AtFilingLifts(rel, db, s);
        DriveTailIs(db, s);
        if FilesPoint(db, s) { Chain(rel, db, AtFiling(db, s), Filed(db, s)); }
      }
    }
  }

  /** A driving poll that gets that far ends with the filing, or leaves the tables when the row is not there. */
  lemma DriveTailIs(db: Db, s: Step)
    requires s.DriveStep? && CompleteOpenCharges(db, s.car).ok
    requires CloseStale(CompleteOpenCharges(db, s.car).db, s.car, s.now).ok
    ensures Apply(db, s) == if FilesPoint(db, s) then Filed(db, s) else AtFiling(db, s)
  {
    hide CompleteOpenCharges, CloseStale, Snapshot, OpenDrive, NewDrive, OpenDrives;
  }

  lemma ParkedLift(rel: (Db, Db) -> bool, db: Db, s: Step)
    requires Preorder(rel) && HoldsOfOthers(rel, s) && (s.ChargeStep? || s.IdleStep?)
    requires FilesPoint(db, s) ==> rel(AtFiling(db, s), Filed(db, s))
    ensures var snap := Snapshot(db, s.car, s.reading, s.now);
            rel(db, CloseOpenDrives(AttachRecent(snap, s.car, s.handed, s.now), s.car))
  {
    hide Preorder, HoldsOfOthers, HoldsOfClosings, Snapshot, AttachRecent, CloseOpenDrives;
    ClosingsToo(rel, s);
    AtFilingLifts(rel, db, s);
    AttachIs(db, s);
    var attached := AttachRecent(AtFiling(db, s), s.car, s.handed, s.now);
    if FilesPoint(db, s) { Chain(rel, db, AtFiling(db, s), attached); }
    CloseOpenDrivesLift(rel, attached, s.car, s);
    Chain(rel, db, attached, CloseOpenDrives(attached, s.car));
  }

  lemma AttachIs(db: Db, s: Step)
    requires s.ChargeStep? || s.IdleStep?
    ensures AttachRecent(AtFiling(db, s), s.car, s.handed, s.now) ==
            if FilesPoint(db, s) then Filed(db, s) else AtFiling(db, s)
  {
    hide Snapshot, HasRecentPoint, OpenDrives;
  }

  lemma ChargeTickLift(rel: (Db, Db) -> bool, db: Db, s: Step)
    requires Preorder(rel) && HoldsOfOthers(rel, s) && s.ChargeStep?
    requires FilesPoint(db, s) ==> rel(AtFiling(db, s), Filed(db, s))
    ensures rel(db, Apply(db, s))
  {
    hide Preorder, HoldsOfOthers, HoldsOfClosings, Snapshot, AttachRecent, CloseOpenDrives, CloseStale;
    hide ChargeTickTail, CurrentDrive, CurrentCharge, OpenDrives, OpenCharges, FilesPoint, AtFiling, Filed;
    ClosingsToo(rel, s);
    var attached := AttachRecent(Snapshot(db, s.car, s.reading, s.now), s.car, s.handed, s.now);
    var parked := CloseOpenDrives(attached, s.car);
    ParkedLift(rel, db, s);
    var swept := CloseStale(parked, s.car, s.now);
    CloseStaleLift(rel, parked, s.car, s.now, s);
    Chain(rel, db, parked, swept.db);
    if swept.ok {
      CloseOpenDrivesCloses(attached, s.car);
      CloseStaleCloses(parked, s.car, s.now);
      OnlyClosesEmpty(parked, swept.db, s.car);
      NothingStaleLeft(parked, s.car, s.now);
      ChargeTailLift(rel, swept.db, s);
      Chain(rel, db, swept.db, Apply(db, s));
    }
  }

  lemma ChargeTailLift(rel: (Db, Db) -> bool, db: Db, s: Step)
    requires Preorder(rel) && HoldsOfOthers(rel, s) && s.ChargeStep? && OpenDrives(db, s.car) == map[]
    requires forall p :: p in OpenCharges(db, s.car) ==> CurrentCharge(db, p, s.now)
    ensures rel(db, ChargeTickTail(db, s.car, s.reading, s.now, s.handed).db)
  {
    hide Preorder, HoldsOfOthers, CurrentCharge, AddCharge;
    var open := OpenCharges(db, s.car);
    if open != map[] {
      ChangeHolds(rel, db, Tick(Latest(open)), s);
    } else if s.handed in db.positions {
      ChangeHolds(rel, db, Begin(s.handed), s);
    } else {
      Same(rel, db);
    }
  }

  lemma IdleTickLift(rel: (Db, Db) -> bool, db: Db, s: Step)
    requires Preorder(rel) && HoldsOfOthers(rel, s) && s.IdleStep?
    requires FilesPoint(db, s) ==> rel(AtFiling(db, s), Filed(db, s))
    ensures rel(db, Apply(db, s))
  {
    hide Preorder, HoldsOfOthers, HoldsOfClosings, Snapshot, AttachRecent, CloseOpenDrives, CompleteOpenCharges;
    hide FilesPoint, AtFiling, Filed;
    ClosingsToo(rel, s);
    var parked := CloseOpenDrives(AttachRecent(Snapshot(db, s.car, s.reading, s.now), s.car, s.handed, s.now), s.car);
    ParkedLift(rel, db, s);
    CompleteOpenChargesLift(rel, parked, s.car, s);
    Chain(rel, db, parked, Apply(db, s));
  }

  /** A preorder that holds of every change but the filing of a point, and of this step's filing, holds of the
      step. Nothing is asked of the id the poll was handed. */
  lemma StepLifts(rel: (Db, Db) -> bool, db: Db, s: Step)
    requires Preorder(rel) && HoldsOfOthers(rel, s)
    requires FilesPoint(db, s) ==> rel(AtFiling(db, s), Filed(db, s))
    ensures rel(db, Apply(db, s))
  {
    hide Preorder, HoldsOfOthers, HoldsOfClosings, CloseOpenDrives, CatchUp, Repair, StreamRow;
    hide DriveTick, ChargeTick, IdleTick, AllCars, FilesPoint, AtFiling, Filed;
    match s {
      case DriveStep(_, _, _, _) => DriveTickLift(rel, db, s);
      case ChargeStep(_, _, _, _) => ChargeTickLift(rel, db, s);
      case IdleStep(_, _, _, _) => IdleTickLift(rel, db, s);
      case StreamStep(_, _, _) => ChangeHolds(rel, db, Stream, s);
      case StreamEndStep(car, _) =>
        ClosingsToo(rel, s);
        CloseOpenDrivesLift(rel, db, car, s);
      case RestartStep(_) =>
        ClosingsToo(rel, s);
        ChangeHolds(rel, db, Regroup, s);
        RepairLift(rel, CatchUp(db), AllCars(db), s);
        Chain(rel, db, CatchUp(db), Apply(db, s));
    }
  }

  /** A preorder that holds of every change holds of every step. */
  lemma StepFollows(rel: (Db, Db) -> bool, db: Db, s: Step)
    requires Preorder(rel) && HoldsOfChanges(rel, s)
    ensures rel(db, Apply(db, s))
  {
    hide Preorder, Make, CanMake, AtFiling;
    if FilesPoint(db, s) {
      FilingAllowed(db, s);
      assert Holds(rel, AtFiling(db, s), Filing(db, s), s);
    }
    StepLifts(rel, db, s);
  }

  /** The same for a property of the tables: what every change keeps every step keeps. */
  lemma StepKeeps(inv: Db -> bool, db: Db, s: Step)
    requires forall d, c :: CanMake(d, c, s) && inv(d) ==> inv(Make(d, c, s))
    requires inv(db)
    ensures inv(Apply(db, s))
  {
    hide Make, Apply;
    StepFollows((a, b) => inv(a) ==> inv(b), db, s);
  }

  // ---------- Properties that depend on the row a poll is handed ----------

  /** The property holds after the step, and in between, once the point is filed. */
  ghost predicate HoldsThroughout(inv: Db -> bool, db: Db, s: Step) {
    inv(Apply(db, s)) && (FilesPoint(db, s) ==> inv(Filed(db, s)))
  }

  /** What every other change keeps a step keeps exactly when its filing does. */
  lemma StepKeepsWhenFit(inv: Db -> bool, db: Db, s: Step, fits: bool)
    requires inv(db)
    requires forall d, c: Change :: CanMake(d, c, s) && !c.Files() && inv(d) ==> inv(Make(d, c, s))
    requires FilesPoint(db, s) && inv(AtFiling(db, s)) ==> (inv(Filed(db, s)) <==> fits)
    ensures HoldsThroughout(inv, db, s) <==> (FilesPoint(db, s) ==> fits)
    ensures FilesPoint(db, s) ==> inv(AtFiling(db, s))
  {
    hide Make, Apply, AtFiling, Filed, CompleteOpenCharges;
    var rel := (a, b) => inv(a) ==> inv(b);
    if FilesPoint(db, s) { AtFilingLifts(rel, db, s); }
    if FilesPoint(db, s) ==> fits { StepLifts(rel, db, s); }
  }

  /** In every state of the run up to `n`, and in between, once a point is filed. */
  ghost predicate AllAlong(inv: Db -> bool, dbs: seq<Db>, steps: seq<Step>, n: nat)
    requires n <= |steps| && |dbs| == |steps| + 1
  {
    inv(dbs[0]) && forall k :: 0 <= k < n ==> HoldsThroughout(inv, dbs[k], steps[k])
  }

  /** Over runs: the property holds all along exactly when every step fits. */
  lemma {:induction false} RunKeepsWhenFit(
      inv: Db -> bool, fits: (Db, Step) -> bool, dbs: seq<Db>, steps: seq<Step>, n: nat)
    requires IsRun(dbs, steps) && n <= |steps| && inv(dbs[0])
    requires forall k :: 0 <= k < n && inv(dbs[k]) ==>
      (HoldsThroughout(inv, dbs[k], steps[k]) <==> fits(dbs[k], steps[k]))
    ensures AllAlong(inv, dbs, steps, n) <==> forall k :: 0 <= k < n ==> fits(dbs[k], steps[k])
    ensures AllAlong(inv, dbs, steps, n) ==> forall k :: 0 <= k <= n ==> inv(dbs[k])
  {
    hide Apply;
    if n > 0 {
      RunKeepsWhenFit(inv, fits, dbs, steps, n - 1);
      assert AllAlong(inv, dbs, steps, n) <==>
        AllAlong(inv, dbs, steps, n - 1) && HoldsThroughout(inv, dbs[n - 1], steps[n - 1]);
    }
  }

  // ---------- The row a poll has just inserted ----------

  /** A poll that goes on with the row it inserted files that row, on a drive whose last reading is not stale. */
  lemma ExactFiling(db: Db, s: Step)
    requires FilesPoint(db, s) && Exact(db, s) && OneOpen(db)
    ensures NewRow(AtFiling(db, s), s.handed, s)
    ensures Filing(db, s).File? ==> CurrentDrive(AtFiling(db, s), Filing(db, s).d, s.now)
  {
    hide Snapshot, NewRow, CurrentDrive, OpenDrives, CompleteOpenCharges, CloseStale, HasRecentPoint, OneOpen;
    var before, at := AtSnapshot(db, s), AtFiling(db, s);
    SnapshotRows(before, s);
    if OpenDrives(at, s.car) != map[] {
      if s.DriveStep? {
        NothingStaleLeft(CompleteOpenCharges(db, s.car).db, s.car, s.now);
      } else {
        assert OneOpen(at) by { SnapshotCloses(db, s.car, s.reading, s.now); OnlyClosesOneOpen(db, at); }
        RecentPointIsLast(at, s.car, s.now);
      }
    }
  }

  lemma OnlyClosesOneOpen(db: Db, after: Db)
    requires OnlyCloses(db, after) && OneOpen(db)
    ensures OneOpen(after)
  {
  }

  lemma RecentPointIsLast(db: Db, car: Id, now: nat)
    requires OneOpen(db) && HasRecentPoint(db, car, now) && OpenDrives(db, car) != map[]
    ensures CurrentDrive(db, Latest(OpenDrives(db, car)), now)
  {
    var q :| q in db.positions && db.positions[q].drive.Some? &&
      db.positions[q].drive.value in OpenDrives(db, car) && !IsStale(db.positions[q].date, now);
    var d := Latest(OpenDrives(db, car));
    assert IsOpen(db, OnRoad(d)) && IsOpen(db, OnRoad(db.positions[q].drive.value));
    var rows := DriveRows(db, d);
    assert q in rows;
    assert q != Latest(rows) ==> Before(rows, q, Latest(rows));
  }
}
