/** Drives and their points: what each step keeps, exactly when the row a poll is handed fits (src/logger.rs). */
module Roads {
  import opened Base
  import opened Chrono
  import opened Tables
  import opened Rollup
  import opened Fences
  import opened Ledger
  import opened Sessions
  import opened Changes
  import opened Integrity

  // ---------- Closed drives are final and say what their points say ----------

  /** What the row of a drive closed by the logger says about its points. */
  ghost predicate DriveFacts(db: Db, d: Id)
    requires d in db.drives
  {
    var rows, drive := DriveRows(db, d), db.drives[d];
    && |rows| >= 2 && rows != map[]
    && drive.startPos == Some(Earliest(rows)) && drive.endPos == Some(Latest(rows))
    && drive.startDate == rows[Earliest(rows)] && drive.endDate == Some(rows[Latest(rows)])
    && drive.durationMin == Some(Minutes(rows[Earliest(rows)], rows[Latest(rows)]))
    && drive.startKm == StartKm(db, d) && drive.startKm.Some?
    && drive.endKm == EndKm(db, d) && drive.endKm.Some?
    && drive.distance == Some(drive.endKm.value - drive.startKm.value)
    && drive.distance.value >= 0.01
    && drive.startIdeal == StartIdeal(db, d) && drive.endIdeal == EndIdeal(db, d)
  }

  ghost predicate SameDrive(db: Db, after: Db, d: Id) {
    && d in db.drives && d in after.drives && after.drives[d] == db.drives[d]
    && (forall p :: OnDrive(db, p, d) ==> OnDrive(after, p, d) && after.positions[p] == db.positions[p])
    && (forall p :: OnDrive(after, p, d) ==> OnDrive(db, p, d))
  }

  ghost predicate IsClosedDrive(db: Db, d: Id) {
    d in db.drives && db.drives[d].endDate.Some?
  }

  ghost predicate KeepsClosed(db: Db, after: Db) {
    forall d :: IsClosedDrive(db, d) ==> SameDrive(db, after, d)
  }

  /** Drives that were closed and their points are as they were; drives that close say what their points say. */
  ghost predicate DrivesFollow(db: Db, after: Db) {
    && KeepsClosed(db, after)
    && forall d :: IsClosedDrive(after, d) ==> IsClosedDrive(db, d) || DriveFacts(after, d)
  }

  lemma KeepsClosedTransitive(a: Db, b: Db, c: Db)
    requires KeepsClosed(a, b) && KeepsClosed(b, c)
    ensures KeepsClosed(a, c)
  {
    forall d | IsClosedDrive(a, d) ensures SameDrive(a, c, d) {
      assert SameDrive(a, b, d);
      assert IsClosedDrive(b, d);
      assert SameDrive(b, c, d);
    }
  }

  lemma DrivesFollowTransitive(a: Db, b: Db, c: Db)
    requires DrivesFollow(a, b) && DrivesFollow(b, c)
    ensures DrivesFollow(a, c)
  {
    hide DriveFacts;
    KeepsClosedTransitive(a, b, c);
    forall d | IsClosedDrive(c, d) ensures IsClosedDrive(a, d) || DriveFacts(c, d) {
      if IsClosedDrive(b, d) && !IsClosedDrive(a, d) {
        SameDriveSameFacts(b, c, d);
      }
    }
  }

  lemma SelfFollows(db: Db)
    ensures DrivesFollow(db, db)
  {
    hide DriveFacts;
  }

  lemma DrivesFollowIsPreorder()
    ensures Preorder(DrivesFollow) && Preorder(KeepsClosed)
  {
    hide DrivesFollow;
    forall a ensures DrivesFollow(a, a) { SelfFollows(a); }
    forall a, b, c | DrivesFollow(a, b) && DrivesFollow(b, c) ensures DrivesFollow(a, c) {
      DrivesFollowTransitive(a, b, c);
    }
    forall a, b, c | KeepsClosed(a, b) && KeepsClosed(b, c) ensures KeepsClosed(a, c) {
      KeepsClosedTransitive(a, b, c);
    }
  }

  lemma SameDriveSameFacts(db: Db, after: Db, d: Id)
    requires SameDrive(db, after, d)
    ensures DriveRows(after, d) == DriveRows(db, d)
    ensures OdometerRows(after, d) == OdometerRows(db, d) && IdealRows(after, d) == IdealRows(db, d)
    ensures DriveFacts(after, d) <==> DriveFacts(db, d)
  {
    SameDriveSameRows(db, after, d);
    SameDriveSameEnds(db, after, d);
    hide SameDrive, DriveRows, StartKm, EndKm, StartIdeal, EndIdeal;
  }

  lemma SameDriveSameRows(db: Db, after: Db, d: Id)
    requires SameDrive(db, after, d)
    ensures DriveRows(after, d) == DriveRows(db, d)
    ensures OdometerRows(after, d) == OdometerRows(db, d) && IdealRows(after, d) == IdealRows(db, d)
  {
    forall p ensures p in DriveRows(after, d) <==> p in DriveRows(db, d) {
      assert OnDrive(after, p, d) <==> OnDrive(db, p, d);
    }
    forall p ensures p in OdometerRows(after, d) <==> p in OdometerRows(db, d) {
      assert OnDrive(after, p, d) <==> OnDrive(db, p, d);
    }
    forall p ensures p in IdealRows(after, d) <==> p in IdealRows(db, d) {
      assert OnDrive(after, p, d) <==> OnDrive(db, p, d);
    }
  }

  lemma SameDriveSameEnds(db: Db, after: Db, d: Id)
    requires SameDrive(db, after, d)
    requires OdometerRows(after, d) == OdometerRows(db, d) && IdealRows(after, d) == IdealRows(db, d)
    ensures StartKm(after, d) == StartKm(db, d) && EndKm(after, d) == EndKm(db, d)
    ensures StartIdeal(after, d) == StartIdeal(db, d) && EndIdeal(after, d) == EndIdeal(db, d)
  {
    forall p | p in OdometerRows(db, d) ensures after.positions[p] == db.positions[p] { assert OnDrive(db, p, d); }
    forall p | p in IdealRows(db, d) ensures after.positions[p] == db.positions[p] { assert OnDrive(db, p, d); }
  }

  lemma ClosedDriveHasFacts(db: Db, d: Id)
    requires d in db.drives && !TooShort(db, d)
    ensures IsClosedDrive(CloseDrive(db, d), d) && DriveFacts(CloseDrive(db, d), d)
  {
    var after := CloseDrive(db, d);
    assert after.positions == db.positions;
    assert DriveRows(after, d) == DriveRows(db, d);
    assert OdometerRows(after, d) == OdometerRows(db, d);
    assert IdealRows(after, d) == IdealRows(db, d);
  }

  lemma CloseDriveFollows(db: Db, d: Id)
    requires d in db.drives && db.drives[d].endDate.None?
    ensures DrivesFollow(db, CloseDrive(db, d))
  {
    hide DriveFacts, TooShort, ClosedDrive;
    var after := CloseDrive(db, d);
    forall e | IsClosedDrive(db, e) ensures SameDrive(db, after, e) {
      assert forall p :: OnDrive(after, p, e) <==> OnDrive(db, p, e);
    }
    if !TooShort(db, d) { ClosedDriveHasFacts(db, d); }
  }

  lemma SameRoadsFollow(db: Db, after: Db)
    requires after.drives == db.drives && after.positions == db.positions
    ensures DrivesFollow(db, after)
  {
    hide DriveFacts;
    forall e | IsClosedDrive(db, e) ensures SameDrive(db, after, e) {
      assert forall p :: OnDrive(after, p, e) <==> OnDrive(db, p, e);
    }
  }

  /** A new row on no drive, or on an open one. */
  lemma InsertFollows(db: Db, after: Db, k: Id)
    requires after.drives == db.drives && k !in db.positions && k in after.positions
    requires after.positions == db.positions[k := after.positions[k]]
    requires after.positions[k].drive.Some? ==> !IsClosedDrive(db, after.positions[k].drive.value)
    ensures DrivesFollow(db, after)
  {
    hide DriveFacts;
    forall e | IsClosedDrive(db, e) ensures SameDrive(db, after, e) {
      assert forall p :: OnDrive(after, p, e) <==> OnDrive(db, p, e);
    }
  }

  lemma StreamFollows(db: Db, car: Id, r: Reading, now: nat)
    ensures DrivesFollow(db, StreamRow(db, car, r, now))
  {
    hide DrivesFollow, SampleDue, StreamRows;
    if SampleDue(StreamRows(db, car), now) {
      InsertFollows(db, StreamRow(db, car, r, now), NextPosition(db));
    } else {
      SelfFollows(db);
    }
  }

  lemma ChangeDrives(db: Db, c: Change, s: Step)
    requires CanMake(db, c, s) && !c.Files()
    ensures DrivesFollow(db, Make(db, c, s))
  {
    hide DrivesFollow, CloseDrive, CompleteCharge, Snapshot, StreamRow, CatchUp;
    if c.CloseOne? {
      CloseDriveFollows(db, c.d);
    } else if c.Snap? {
      InsertFollows(db, Make(db, c, s), NextPosition(db));
    } else if c.Stream? {
      StreamFollows(db, s.car, s.reading, s.now);
    } else {
      SameRoadsFollow(db, Make(db, c, s));
    }
  }

  predicate OnClosed(db: Db, p: Id) {
    p in db.positions && db.positions[p].drive.Some? && IsClosed(db, db.positions[p].drive.value)
  }

  predicate IsClosed(db: Db, d: Id) { d in db.drives && db.drives[d].endDate.Some? }

  /** Filing a point disturbs a closed drive exactly when it takes the point off one. */
  lemma FilingDrives(db: Db, c: Change, s: Step)
    requires CanMake(db, c, s) && c.Files()
    ensures DrivesFollow(db, Make(db, c, s)) <==> !OnClosed(db, c.p)
    ensures KeepsClosed(db, Make(db, c, s)) <==> !OnClosed(db, c.p)
  {
    hide DriveFacts;
    var after := Make(db, c, s);
    if OnClosed(db, c.p) {
      var e := db.positions[c.p].drive.value;
      assert IsClosedDrive(db, e) && OnDrive(db, c.p, e) && !OnDrive(after, c.p, e);
    } else {
      forall e | IsClosedDrive(db, e) ensures SameDrive(db, after, e) {
        assert forall p :: OnDrive(after, p, e) <==> OnDrive(db, p, e);
      }
    }
  }

  /** The poll takes a point off a drive that is closed when it does so. */
  predicate TakesPoint(db: Db, s: Step) {
    FilesPoint(db, s) && OnClosed(AtFiling(db, s), s.handed)
  }

  /** The poll takes a point off a drive that was closed before the poll. */
  predicate TakesClosedPoint(db: Db, s: Step) {
    s.DriveStep? && FilesPoint(db, s) && OnClosed(db, s.handed)
  }

  ghost predicate DrivesThroughout(db: Db, s: Step) {
    DrivesFollow(db, Apply(db, s)) && (FilesPoint(db, s) ==> DrivesFollow(AtFiling(db, s), Filed(db, s)))
  }

  lemma OthersFollow(s: Step)
    ensures HoldsOfOthers(DrivesFollow, s) && HoldsOfOthers(KeepsClosed, s)
  {
    hide CanMake, Make, DriveFacts, KeepsClosed;
    forall db, c: Change | !c.Files() && CanMake(db, c, s) ensures DrivesFollow(db, Make(db, c, s)) {
      ChangeDrives(db, c, s);
    }
  }

  /** The facts of closed drives stand through a step, at each of its statements, exactly when the poll takes no
      point off a closed drive. */
  lemma StepDrives(db: Db, s: Step)
    ensures DrivesThroughout(db, s) <==> !TakesPoint(db, s)
  {
    hide DrivesFollow, Apply, AtFiling, OnClosed, Preorder, HoldsOfOthers;
    OthersFollow(s);
    DrivesFollowIsPreorder();
    if FilesPoint(db, s) {
      FilingAllowed(db, s);
      FilingDrives(AtFiling(db, s), Filing(db, s), s);
    }
    if !TakesPoint(db, s) { StepLifts(DrivesFollow, db, s); }
  }

  /** Closed drives and their points survive a step exactly when it takes no point off a drive closed before it. */
  lemma StepKeepsClosed(db: Db, s: Step)
    ensures KeepsClosed(db, Apply(db, s)) <==> !TakesClosedPoint(db, s)
  {
    hide KeepsClosed, Apply, AtFiling, OnClosed, Preorder, HoldsOfOthers, Filed;
    OthersFollow(s);
    DrivesFollowIsPreorder();
    if FilesPoint(db, s) {
      AtFilingLifts(KeepsClosed, db, s);
      if s.DriveStep? {
        DriveTailIs(db, s);
        DriveFiling(db, s);
      } else {
        FreePoint(db, s);
        StepLifts(KeepsClosed, db, s);
      }
    } else {
      StepLifts(KeepsClosed, db, s);
    }
  }

  /** Parked polls file free points only. */
  lemma FreePoint(db: Db, s: Step)
    requires FilesPoint(db, s) && !s.DriveStep?
    ensures KeepsClosed(AtFiling(db, s), Filed(db, s))
  {
    hide KeepsClosed, Snapshot, HasRecentPoint, Make;
    FilingAllowed(db, s);
    FilingDrives(AtFiling(db, s), Filing(db, s), s);
  }

  lemma DriveFiling(db: Db, s: Step)
    requires FilesPoint(db, s) && KeepsClosed(db, AtFiling(db, s))
    ensures KeepsClosed(db, Filed(db, s)) <==> !OnClosed(db, s.handed)
  {
    hide AtFiling, FilesPoint;
    FilingAllowed(db, s);
    var at, after := AtFiling(db, s), Filed(db, s);
    MovesOnePoint(at, Filing(db, s), s);
    if OnClosed(db, s.handed) {
      var e := db.positions[s.handed].drive.value;
      assert IsClosedDrive(db, e) && OnDrive(db, s.handed, e) && SameDrive(db, at, e);
    } else {
      forall e | IsClosedDrive(db, e) ensures SameDrive(db, after, e) {
        assert SameDrive(db, at, e) && !OnDrive(db, s.handed, e);
        assert forall p :: OnDrive(after, p, e) <==> OnDrive(at, p, e);
      }
    }
  }

  lemma MovesOnePoint(db: Db, c: Change, s: Step)
    requires CanMake(db, c, s) && c.Files()
    ensures var after := Make(db, c, s);
            && (forall e :: IsClosedDrive(db, e) ==> e in after.drives && after.drives[e] == db.drives[e])
            && (forall p, e :: IsClosedDrive(db, e) ==>
                  (OnDrive(after, p, e) <==> OnDrive(db, p, e) && p != c.p))
            && (forall p :: p != c.p && p in db.positions ==>
                  p in after.positions && after.positions[p] == db.positions[p])
  {
    hide NewDrive;
  }

  /** Over every run: closed drives and their points stay as they are exactly when no poll is handed a point of a
      closed drive to file. */
  lemma ClosedDrivesAreFinal(dbs: seq<Db>, steps: seq<Step>, n: nat)
    requires IsRun(dbs, steps) && n <= |steps|
    ensures (forall j, k :: 0 <= j <= k <= n ==> KeepsClosed(dbs[j], dbs[k])) <==>
            (forall k :: 0 <= k < n ==> !TakesClosedPoint(dbs[k], steps[k]))
  {
    hide KeepsClosed, TakesClosedPoint, Apply;
    forall k | 0 <= k < n ensures KeepsClosed(dbs[k], dbs[k + 1]) <==> !TakesClosedPoint(dbs[k], steps[k]) {
      StepKeepsClosed(dbs[k], steps[k]);
    }
    if forall j, k :: 0 <= j <= k <= n ==> KeepsClosed(dbs[j], dbs[k]) {
      forall k | 0 <= k < n ensures !TakesClosedPoint(dbs[k], steps[k]) {
        var next := k + 1;
        assert KeepsClosed(dbs[k], dbs[next]);
      }
    }
    if forall k :: 0 <= k < n ==> !TakesClosedPoint(dbs[k], steps[k]) {
      forall j, k | 0 <= j <= k <= n ensures KeepsClosed(dbs[j], dbs[k]) { KeptFromTo(dbs, j, k, n); }
    }
  }

  lemma {:induction false} KeptFromTo(dbs: seq<Db>, j: nat, k: nat, n: nat)
    requires j <= k <= n < |dbs| && forall i :: 0 <= i < n ==> KeepsClosed(dbs[i], dbs[i + 1])
    ensures KeepsClosed(dbs[j], dbs[k])
    decreases k
  {
    DrivesFollowIsPreorder();
    hide KeepsClosed;
    if j < k { KeptFromTo(dbs, j, k - 1, n); }
  }

  /** ... and when no poll takes a point off a drive, closed by then, every drive closed along the way goes on to say
      what its points say. */
  lemma {:induction false} ClosedDrivesKeepTheirFacts(dbs: seq<Db>, steps: seq<Step>, j: nat, k: nat)
    requires IsRun(dbs, steps) && j <= k <= |steps|
    requires forall i :: j <= i < k ==> !TakesPoint(dbs[i], steps[i])
    ensures DrivesFollow(dbs[j], dbs[k])
    decreases k
  {
    hide DrivesFollow, TakesPoint, Apply;
    DrivesFollowIsPreorder();
    if j < k {
      ClosedDrivesKeepTheirFacts(dbs, steps, j, k - 1);
      StepDrives(dbs[k - 1], steps[k - 1]);
    }
  }

  // ---------- Points lie on drives of their own car ----------

  ghost predicate CarOk(db: Db, p: Id) {
    p in db.positions && db.positions[p].drive.Some? && db.positions[p].drive.value in db.drives ==>
      db.drives[db.positions[p].drive.value].car == db.positions[p].car
  }

  ghost predicate CarsMatch(db: Db) {
    forall p :: CarOk(db, p)
  }

  lemma ChangeCars(db: Db, c: Change, s: Step)
    requires CanMake(db, c, s) && !c.Files() && CarsMatch(db)
    ensures CarsMatch(Make(db, c, s))
  {
    hide CloseDrive, CompleteCharge, Snapshot, CatchUp, SampleDue, StreamRows;
    var after := Make(db, c, s);
    if c.CloseOne? { CloseDriveMoves(db, c.d); }
    forall p ensures CarOk(after, p) { assert CarOk(db, p); }
  }

  /** Closing a drive frees its points or leaves them. */
  lemma CloseDriveMoves(db: Db, d: Id)
    ensures var after := CloseDrive(db, d).positions;
            && after.Keys == db.positions.Keys
            && forall p :: p in after && after[p] != db.positions[p] ==> after[p] == db.positions[p].(drive := None)
  {
    hide TooShort, ClosedDrive;
  }

  lemma FilingCars(db: Db, c: Change, s: Step)
    requires CanMake(db, c, s) && c.Files() && CarsMatch(db) && Steady(db, s.now)
    ensures CarsMatch(Make(db, c, s)) <==> db.positions[c.p].car == s.car
  {
    hide OneOpen, ChargesInOrder;
    var after := Make(db, c, s);
    assert CarOk(after, c.p) <==> db.positions[c.p].car == s.car;
    forall p | p != c.p ensures CarOk(after, p) { assert CarOk(db, p) && PositionOk(db, s.now, p); }
  }

  /** The row filed, if it was there before the poll, is the car's own. */
  predicate OwnPoint(db: Db, s: Step) {
    FilesPoint(db, s) && s.handed in db.positions ==> db.positions[s.handed].car == s.car
  }

  predicate SameStamp(a: Position, b: Position) {
    a.car == b.car && a.date == b.date
  }

  /** Rows keep their car and their date, and new ones are the car's. */
  ghost predicate RowsStand(db: Db, after: Db, car: Id) {
    && (forall p :: p in db.positions ==> p in after.positions && SameStamp(after.positions[p], db.positions[p]))
    && (forall p :: p in after.positions && p !in db.positions ==> after.positions[p].car == car)
  }

  lemma ChangeStands(db: Db, c: Change, s: Step)
    requires CanMake(db, c, s) && s.IsPoll() && !c.Files()
    ensures RowsStand(db, Make(db, c, s), s.car)
  {
    hide CloseDrive, CompleteCharge, Snapshot;
    if c.CloseOne? { CloseDriveMoves(db, c.d); }
  }

  lemma AtFilingStands(db: Db, s: Step)
    requires FilesPoint(db, s)
    ensures RowsStand(db, AtFiling(db, s), s.car)
  {
    hide CanMake, Make, AtFiling, CompleteOpenCharges;
    var rel := (a, b) => RowsStand(a, b, s.car);
    forall d, c: Change | CanMake(d, c, s) && !c.Files() ensures rel(d, Make(d, c, s)) { ChangeStands(d, c, s); }
    AtFilingLifts(rel, db, s);
  }

  lemma StepCars(db: Db, s: Step)
    requires Steady(db, s.now) && CarsMatch(db)
    ensures HoldsThroughout(CarsMatch, db, s) <==> OwnPoint(db, s)
  {
    hide Steady, CarsMatch, CanMake, Make, Apply, AtFiling;
    forall d, c: Change | CanMake(d, c, s) && !c.Files() && CarsMatch(d) ensures CarsMatch(Make(d, c, s)) {
      ChangeCars(d, c, s);
    }
    var fits := FilesPoint(db, s) && AtFiling(db, s).positions[s.handed].car == s.car;
    if FilesPoint(db, s) {
      AtFilingStands(db, s);
      FilingAllowed(db, s);
      if Steady(AtFiling(db, s), s.now) && CarsMatch(AtFiling(db, s)) { FilingCars(AtFiling(db, s), Filing(db, s), s); }
    }
    SteadyKeepsWhenFit(CarsMatch, db, s, fits);
  }

  /** Over every run: points lie on drives of their own car, in every state and once each point is filed, exactly when
      each row filed is the car's own. */
  lemma PointsLieOnTheirCarsDrives(dbs: seq<Db>, steps: seq<Step>, start: nat, n: nat)
    requires IsRun(dbs, steps) && Monotone(start, steps) && n <= |steps|
    requires Steady(dbs[0], start) && CarsMatch(dbs[0])
    ensures AllAlong(CarsMatch, dbs, steps, n) <==> forall k :: 0 <= k < n ==> OwnPoint(dbs[k], steps[k])
    ensures AllAlong(CarsMatch, dbs, steps, n) ==> forall k :: 0 <= k <= n ==> CarsMatch(dbs[k])
  {
    hide Steady, CarsMatch, Apply, OwnPoint, HoldsThroughout, AllAlong;
    forall k | 0 <= k < n && CarsMatch(dbs[k])
      ensures HoldsThroughout(CarsMatch, dbs[k], steps[k]) <==> OwnPoint(dbs[k], steps[k])
    {
      SteadyAt(dbs, steps, start, k);
      StepCars(dbs[k], steps[k]);
    }
    RunKeepsWhenFit(CarsMatch, OwnPoint, dbs, steps, n);
  }

  // ---------- The sessions of a car follow each other ----------

  /** A point of an open drive is not dated before the end of a session of the drive's car. */
  ghost predicate PointFollows(db: Db, p: Id, t: Session) {
    p in db.positions && db.positions[p].drive.Some? && Present(db, t) && EndOf(db, t).Some? ==>
      var d := db.positions[p].drive.value;
      d in db.drives && db.drives[d].endDate.None? && CarOf(db, t) == db.drives[d].car ==>
        EndOf(db, t).value <= db.positions[p].date
  }

  ghost predicate Ordered(db: Db) {
    (forall a, b :: Follows(db, a, b)) && forall p, t :: PointFollows(db, p, t)
  }

  /** The row is dated no earlier than any session of the car ended. */
  ghost predicate AfterEnds(db: Db, p: Id, car: Id)
    requires p in db.positions
  {
    forall t :: Present(db, t) && EndOf(db, t).Some? && CarOf(db, t) == car ==>
      EndOf(db, t).value <= db.positions[p].date
  }

  lemma EndsBeforeNow(db: Db, now: nat, t: Session)
    requires Steady(db, now) && Present(db, t)
    ensures StartOf(db, t) <= now && (EndOf(db, t).Some? ==> StartOf(db, t) <= EndOf(db, t).value <= now)
  {
    hide OneOpen, ChargesInOrder;
    match t {
      case OnRoad(d) => assert DriveOk(db, now, d);
      case OnPlug(q) => assert ProcessOk(db, now, q);
    }
  }

  /** A drive that ends takes its ends from its points, which all follow the sessions before. */
  lemma EndOrdered(db: Db, d: Id, now: nat)
    requires Steady(db, now) && Ordered(db) && d in db.drives && db.drives[d].endDate.None? && !TooShort(db, d)
    ensures Ordered(CloseDrive(db, d))
  {
    hide ClosedDrive, TooShort, OneOpen, ChargesInOrder, Follows;
    NotTooShort(db, d);
    var after := CloseDrive(db, d);
    ClosedDates(db, now, d);
    var first := Earliest(DriveRows(db, d));
    assert OnDrive(db, first, d) && after.drives[d].startDate == db.positions[first].date by { ClosedStart(db, d); }
    assert IsOpen(db, OnRoad(d));
    forall a, b ensures Follows(after, a, b) {
      assert Follows(db, a, b) && PointFollows(db, first, a) && PointFollows(db, first, b);
      ClosedFollows(db, after, d, first, a, b);
    }
    forall p, t ensures PointFollows(after, p, t) {
      assert PointFollows(db, p, t);
      if t == OnRoad(d) { OpenDriveIsAlone(db, p, d); }
    }
  }

  lemma ClosedStart(db: Db, d: Id)
    requires d in db.drives && !TooShort(db, d)
    ensures var first := Earliest(DriveRows(db, d)); CloseDrive(db, d).drives[d].startDate == db.positions[first].date
  {
    hide StartKm, EndKm, Distance, StartIdeal, EndIdeal, Minutes, GeofenceAt;
  }

  lemma OpenDriveIsAlone(db: Db, p: Id, d: Id)
    requires OneOpen(db) && IsOpen(db, OnRoad(d))
    ensures p in db.positions && db.positions[p].drive.Some? ==>
      var e := db.positions[p].drive.value;
      IsOpen(db, OnRoad(e)) && db.drives[e].car == db.drives[d].car ==> e == d
  {
  }

  lemma ClosedFollows(db: Db, after: Db, d: Id, first: Id, a: Session, b: Session)
    requires OneOpen(db) && IsOpen(db, OnRoad(d)) && OnDrive(db, first, d) && after.processes == db.processes
    requires d in after.drives && after.drives == db.drives[d := after.drives[d]]
    requires after.drives[d].car == db.drives[d].car && after.drives[d].startDate == db.positions[first].date
    requires after.drives[d].endDate.Some? && after.drives[d].startDate <= after.drives[d].endDate.value
    requires Follows(db, a, b) && PointFollows(db, first, a) && PointFollows(db, first, b)
    ensures Follows(after, a, b)
  {
    if a == OnRoad(d) && Present(after, b) && b != a && IsOpen(after, b) && CarOf(after, b) == CarOf(after, a) {
      assert IsOpen(db, b);
    }
  }

  lemma DropOrdered(db: Db, d: Id)
    requires Ordered(db) && TooShort(db, d)
    ensures Ordered(CloseDrive(db, d))
  {
    hide TooShort;
    var after := CloseDrive(db, d);
    forall a, b ensures Follows(after, a, b) { assert Follows(db, a, b); }
    forall p, t ensures PointFollows(after, p, t) { assert PointFollows(db, p, t); }
  }

  lemma CompleteOrdered(db: Db, car: Id, q: Id, now: nat)
    requires Steady(db, now) && Ordered(db) && q in db.processes && db.processes[q].endDate.None?
    ensures Ordered(CompleteCharge(db, car, q).db)
  {
    hide CompleteCharge, OneOpen, ChargesInOrder;
    var after := CompleteCharge(db, car, q).db;
    if ChargeRows(db, q) != map[] { LastChargeDate(db, now, q); }
    forall a, b ensures Follows(after, a, b) {
      assert Follows(db, a, b) && Follows(db, b, a);
      if q in after.processes && after.processes[q].endDate.Some? {
        EndFollows(db, after, OnPlug(q), a, b);
      }
    }
    forall p, t ensures PointFollows(after, p, t) {
      assert PointFollows(db, p, t);
      if t == OnPlug(q) { NoDriveBeside(db, p, q); }
    }
  }

  lemma NoDriveBeside(db: Db, p: Id, q: Id)
    requires OneOpen(db) && IsOpen(db, OnPlug(q))
    ensures p in db.positions && db.positions[p].drive.Some? && IsOpen(db, OnRoad(db.positions[p].drive.value)) ==>
            db.drives[db.positions[p].drive.value].car != db.processes[q].car
  {
  }

  /** Sessions as they were, but for columns that are not a start or an end; no point joins an open drive. */
  lemma SameSpansOrdered(db: Db, after: Db)
    requires Ordered(db) && after.positions == db.positions && after.drives == db.drives
    requires forall t :: Present(after, t) ==> SameSpan(db, after, t)
    ensures Ordered(after)
  {
    forall a, b ensures Follows(after, a, b) { assert Follows(db, a, b); }
    forall p, t ensures PointFollows(after, p, t) { assert PointFollows(db, p, t); }
  }

  /** A new row: on no drive, or dated now. */
  lemma InsertOrdered(db: Db, after: Db, now: nat, k: Id)
    requires Steady(db, now) && Ordered(db) && k in after.positions
    requires after == db.(positions := db.positions[k := after.positions[k]],
                          hourly := after.hourly, nextHourRow := after.nextHourRow)
    requires after.positions[k].drive.Some? ==> after.positions[k].date == now
    ensures Ordered(after)
  {
    hide Steady;
    forall a, b ensures Follows(after, a, b) { assert Follows(db, a, b); }
    forall p, t ensures PointFollows(after, p, t) {
      assert PointFollows(db, p, t);
      if Present(db, t) { EndsBeforeNow(db, now, t); }
    }
  }

  /** A session that opens now follows every closed session of its car. */
  lemma BeginOrdered(db: Db, after: Db, now: nat, s: Session)
    requires Steady(db, now) && Ordered(db) && after.positions == db.positions
    requires !Present(db, s) && IsOpen(after, s) && StartOf(after, s) == now
    requires forall t :: t != s && Present(after, t) ==> SameSpan(db, after, t)
    requires forall d :: d in after.drives && OnRoad(d) != s ==> d in db.drives && after.drives[d] == db.drives[d]
    requires forall p :: p in db.positions && db.positions[p].drive.Some? ==> OnRoad(db.positions[p].drive.value) != s
    ensures Ordered(after)
  {
    hide Steady;
    forall a, b ensures Follows(after, a, b) {
      assert Follows(db, a, b);
      if Present(db, a) { EndsBeforeNow(db, now, a); }
      if Present(db, b) { EndsBeforeNow(db, now, b); }
    }
    forall p, t ensures PointFollows(after, p, t) { assert PointFollows(db, p, t); }
  }

  lemma ChangeOrdered(db: Db, c: Change, s: Step)
    requires CanMake(db, c, s) && !c.Files() && Steady(db, s.now) && Ordered(db)
    ensures Ordered(Make(db, c, s))
  {
    hide Steady, Ordered, CloseDrive, CompleteCharge, Snapshot, CatchUp, TooShort, SampleDue, StreamRows;
    SteadyIsOneOpen(db, s.now);
    if c.CloseOne? {
      if TooShort(db, c.d) { DropOrdered(db, c.d); } else { EndOrdered(db, c.d, s.now); }
    } else if c.CompleteOne? {
      CompleteOrdered(db, db.processes[c.p].car, c.p, s.now);
    } else if c.Snap? || c.Regroup? || (c.Stream? && SampleDue(StreamRows(db, s.car), s.now)) {
      if c.Regroup? {
        SameSpansOrdered(db, Make(db, c, s));
      } else {
        InsertOrdered(db, Make(db, c, s), s.now, NextPosition(db));
      }
    } else if c.Begin? {
      BeginOrdered(db, Make(db, c, s), s.now, OnPlug(NextId(db.processes.Keys)));
    } else {
      SameSpansOrdered(db, Make(db, c, s));
    }
  }

  /** Filing a point keeps the order exactly when the point is dated after every end of the car. */
  lemma FilingOrdered(db: Db, c: Change, s: Step)
    requires CanMake(db, c, s) && c.Files() && Steady(db, s.now) && Ordered(db)
    ensures Ordered(Make(db, c, s)) <==> AfterEnds(db, c.p, s.car)
  {
    var mid := if c.Open? then Opened(db, s, c.p) else db;
    if c.Open? { OpenedOrdered(db, s, c.p); }
    var d := if c.Open? then NextId(db.drives.Keys) else c.d;
    assert Make(db, c, s) == SetDrive(mid, c.p, d);
    SetDriveOrdered(mid, c.p, d);
    assert AfterEnds(mid, c.p, s.car) <==> AfterEnds(db, c.p, s.car) by { SameEnds(db, mid, c.p, s.car); }
  }

  function Opened(db: Db, s: Step, p: Id): Db
    requires s.IsPoll()
  {
    db.(drives := db.drives[NextId(db.drives.Keys) := NewDrive(s.car, s.reading, s.now, p)])
  }

  lemma OpenedOrdered(db: Db, s: Step, p: Id)
    requires s.IsPoll() && Steady(db, s.now) && Ordered(db)
    ensures Ordered(Opened(db, s, p))
  {
    hide Ordered, OneOpen, ChargesInOrder;
    var d := NextId(db.drives.Keys);
    forall q | q in db.positions && db.positions[q].drive.Some? ensures db.positions[q].drive.value != d {
      assert PositionOk(db, s.now, q);
    }
    BeginOrdered(db, Opened(db, s, p), s.now, OnRoad(d));
  }

  lemma SameEnds(db: Db, mid: Db, p: Id, car: Id)
    requires p in db.positions && mid.positions == db.positions && mid.processes == db.processes
    requires forall d :: d in mid.drives && mid.drives[d].endDate.Some? ==>
               d in db.drives && db.drives[d] == mid.drives[d]
    requires forall d :: d in db.drives ==> d in mid.drives && mid.drives[d] == db.drives[d]
    ensures AfterEnds(mid, p, car) <==> AfterEnds(db, p, car)
  {
    forall t ensures Present(db, t) && EndOf(db, t).Some? <==> Present(mid, t) && EndOf(mid, t).Some? {
    }
  }

  lemma SetDriveOrdered(db: Db, p: Id, d: Id)
    requires Ordered(db) && p in db.positions && d in db.drives && db.drives[d].endDate.None?
    ensures Ordered(SetDrive(db, p, d)) <==> AfterEnds(db, p, db.drives[d].car)
  {
    var after := SetDrive(db, p, d);
    if Ordered(after) {
      forall t | Present(db, t) && EndOf(db, t).Some? && CarOf(db, t) == db.drives[d].car
        ensures EndOf(db, t).value <= db.positions[p].date
      {
        assert PointFollows(after, p, t);
      }
    }
    if AfterEnds(db, p, db.drives[d].car) {
      forall a, b ensures Follows(after, a, b) { assert Follows(db, a, b); }
      forall q, t ensures PointFollows(after, q, t) { assert PointFollows(db, q, t); }
    }
  }

  /** The row filed is dated after every end of the car. */
  ghost predicate FollowsEnds(db: Db, s: Step) {
    FilesPoint(db, s) ==> AfterEnds(AtFiling(db, s), s.handed, s.car)
  }

  lemma StepOrdered(db: Db, s: Step)
    requires Steady(db, s.now) && Ordered(db)
    ensures HoldsThroughout(Ordered, db, s) <==> FollowsEnds(db, s)
  {
    hide Steady, Ordered, CanMake, Make, Apply, AtFiling, AfterEnds;
    forall d, c: Change | CanMake(d, c, s) && !c.Files() && Steady(d, s.now) && Ordered(d)
      ensures Ordered(Make(d, c, s))
    {
      ChangeOrdered(d, c, s);
    }
    var fits := FilesPoint(db, s) && AfterEnds(AtFiling(db, s), s.handed, s.car);
    if FilesPoint(db, s) && Steady(AtFiling(db, s), s.now) && Ordered(AtFiling(db, s)) {
      FilingAllowed(db, s);
      FilingOrdered(AtFiling(db, s), Filing(db, s), s);
    }
    SteadyKeepsWhenFit(Ordered, db, s, fits);
  }

  /** Over every run: the sessions of a car follow each other, and the points of an open drive the sessions before it,
      exactly when each row filed is dated after every end of the car. */
  lemma SessionsFollowEachOther(dbs: seq<Db>, steps: seq<Step>, start: nat, n: nat)
    requires IsRun(dbs, steps) && Monotone(start, steps) && n <= |steps|
    requires Steady(dbs[0], start) && Ordered(dbs[0])
    ensures AllAlong(Ordered, dbs, steps, n) <==> forall k :: 0 <= k < n ==> FollowsEnds(dbs[k], steps[k])
    ensures AllAlong(Ordered, dbs, steps, n) ==> forall k :: 0 <= k <= n ==> Ordered(dbs[k])
  {
    hide Steady, Ordered, Apply, FollowsEnds, HoldsThroughout, AllAlong;
    forall k | 0 <= k < n && Ordered(dbs[k])
      ensures HoldsThroughout(Ordered, dbs[k], steps[k]) <==> FollowsEnds(dbs[k], steps[k])
    {
      SteadyAt(dbs, steps, start, k);
      StepOrdered(dbs[k], steps[k]);
    }
    RunKeepsWhenFit(Ordered, FollowsEnds, dbs, steps, n);
  }

  /** So then the closed drives and charges of one car never overlap; they may touch. */
  lemma SessionsNeverOverlap(dbs: seq<Db>, steps: seq<Step>, start: nat, k: nat, a: Session, b: Session)
    requires IsRun(dbs, steps) && Monotone(start, steps) && k <= |steps|
    requires Steady(dbs[0], start) && Ordered(dbs[0])
    requires forall i :: 0 <= i < k ==> FollowsEnds(dbs[i], steps[i])
    requires Present(dbs[k], a) && Present(dbs[k], b) && a != b && CarOf(dbs[k], a) == CarOf(dbs[k], b)
    requires EndOf(dbs[k], a).Some? && EndOf(dbs[k], b).Some?
    ensures EndOf(dbs[k], a).value <= StartOf(dbs[k], b) || EndOf(dbs[k], b).value <= StartOf(dbs[k], a)
  {
    hide Steady, FollowsEnds, Apply, AllAlong;
    SessionsFollowEachOther(dbs, steps, start, k);
    assert Follows(dbs[k], a, b);
  }

  // ---------- A poll that goes on with its own row ----------

  /** Its row is on no drive, the car's own, and dated now, after every end. */
  lemma ExactFits(db: Db, s: Step)
    requires Exact(db, s) && Steady(db, s.now)
    ensures !TakesPoint(db, s) && OwnPoint(db, s) && FollowsEnds(db, s)
  {
    if FilesPoint(db, s) {
      SteadyIsOneOpen(db, s.now);
      ExactFiling(db, s);
      AtFilingStands(db, s);
      SteadyAtFiling(db, s);
      hide AtFiling, Exact, FilesPoint;
      NewRowFollows(AtFiling(db, s), s);
    }
  }

  lemma NewRowFollows(db: Db, s: Step)
    requires s.IsPoll() && NewRow(db, s.handed, s) && Steady(db, s.now)
    ensures AfterEnds(db, s.handed, s.car)
  {
    hide Steady;
    forall t | Present(db, t) && EndOf(db, t).Some? && CarOf(db, t) == s.car
      ensures EndOf(db, t).value <= db.positions[s.handed].date
    {
      EndsBeforeNow(db, s.now, t);
    }
  }

  lemma SteadyAtFiling(db: Db, s: Step)
    requires FilesPoint(db, s) && Steady(db, s.now)
    ensures Steady(AtFiling(db, s), s.now)
  {
    hide Steady, CanMake, Make, AtFiling, CompleteOpenCharges;
    var rel := (a, b) => Steady(a, s.now) ==> Steady(b, s.now);
    forall d, c: Change | CanMake(d, c, s) && Steady(d, s.now) ensures Steady(Make(d, c, s), s.now) {
      ChangeSteady(d, c, s);
    }
    AtFilingLifts(rel, db, s);
  }
}
