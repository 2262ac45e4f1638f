/** A stretch of driving polls is one drive (src/logger.rs). */
module DriveStretches {
  import opened Base
  import opened Chrono
  import opened Tables
  import opened Rollup
  import opened Fences
  import opened Ledger
  import opened Sessions
  import opened Changes
  import opened Integrity
  import opened Roads
  import opened Sweep

  // ---------- Where the point of a driving poll goes ----------

  /** The point is on an open drive of the car; a fresh open drive there was gains it and else is as it was; with none
      the drive has no other point. */
  ghost predicate PointGoesTo(db: Db, after: Db, s: Step, d: Id)
    requires s.IsPoll()
  {
    && s.handed !in db.positions
    && OnDrive(after, s.handed, d) && d in OpenDrives(after, s.car) && after.positions[s.handed].date == s.now
    && (forall e :: e in OpenDrives(db, s.car) && FreshDrive(db, e, s.now) ==>
          e == d && after.drives[d] == db.drives[d] && Gains(db, after, s.handed, d))
    && ((forall e :: e in OpenDrives(db, s.car) ==> !FreshDrive(db, e, s.now)) ==>
          forall q :: OnDrive(after, q, d) ==> q == s.handed)
  }

  /** The drive gains the point and keeps those it had. */
  ghost predicate Gains(db: Db, after: Db, p: Id, d: Id) {
    && !OnDrive(db, p, d)
    && (forall q :: OnDrive(db, q, d) ==> OnDrive(after, q, d) && after.positions[q] == db.positions[q])
    && (forall q :: OnDrive(after, q, d) ==> OnDrive(db, q, d) || q == p)
  }

  /** Drives of the car and their points are as they were, and there are no others of it. */
  ghost predicate DrivesStand(a: Db, b: Db, car: Id) {
    && (forall d :: d in a.drives && a.drives[d].car == car ==>
          d in b.drives && b.drives[d] == a.drives[d] && SamePoints(a, b, d))
    && (forall d :: d in b.drives && b.drives[d].car == car ==> d in a.drives && a.drives[d].car == car)
  }

  ghost predicate SamePoints(a: Db, b: Db, d: Id) {
    && (forall q :: OnDrive(a, q, d) ==> OnDrive(b, q, d) && b.positions[q] == a.positions[q])
    && (forall q :: OnDrive(b, q, d) ==> OnDrive(a, q, d))
  }

  lemma SameFreshDrive(db: Db, after: Db, d: Id, now: nat)
    requires d in db.drives && d in after.drives && after.drives[d] == db.drives[d] && SamePoints(db, after, d)
    ensures FreshDrive(after, d, now) <==> FreshDrive(db, d, now)
  {
    hide Recent;
    if q :| OnDrive(db, q, d) && Recent(db.positions[q].date, now) { assert OnDrive(after, q, d); }
    if q :| OnDrive(after, q, d) && Recent(after.positions[q].date, now) { assert OnDrive(db, q, d); }
    if q :| OnDrive(db, q, d) { assert OnDrive(after, q, d); }
    if q :| OnDrive(after, q, d) { assert OnDrive(db, q, d); }
  }

  /** The open drives after the check are the fresh ones before it, as they were. */
  lemma SweepLeavesFreshDrives(db: Db, s: Step)
    requires s.IsPoll()
    ensures var swept := CloseStale(db, s.car, s.now).db;
            forall d :: d in OpenDrives(swept, s.car) <==> d in OpenDrives(db, s.car) && FreshDrive(db, d, s.now)
    ensures var swept := CloseStale(db, s.car, s.now).db;
            forall d :: d in OpenDrives(swept, s.car) ==> swept.drives[d] == db.drives[d] && SamePoints(db, swept, d)
  {
    hide CloseStale, FreshDrive;
    var swept := CloseStale(db, s.car, s.now).db;
    CloseStaleCloses(db, s.car, s.now);
    forall d ensures d in OpenDrives(swept, s.car) <==> d in OpenDrives(db, s.car) && FreshDrive(db, d, s.now) {
      if d in OpenDrives(swept, s.car) { assert IsOpen(swept, OnRoad(d)) && IsOpen(db, OnRoad(d)); }
      if d in db.drives { SweepIsExactForDrives(db, s.car, s.now, d); }
    }
    forall d | d in OpenDrives(swept, s.car) ensures swept.drives[d] == db.drives[d] && SamePoints(db, swept, d) {
      assert d in OpenDrives(db, s.car);
      SweepIsExactForDrives(db, s.car, s.now, d);
    }
  }

  lemma FreePointJoins(db: Db, p: Id, d: Id)
    requires p in db.positions && db.positions[p].drive.None?
    ensures var after := SetDrive(db, p, d);
            && OnDrive(after, p, d) && after.positions[p].date == db.positions[p].date && after.drives == db.drives
            && Gains(db, after, p, d) && forall e :: e != d ==> SamePoints(db, after, e)
  {
  }

  lemma NoPointsYet(db: Db, now: nat, d: Id)
    requires Steady(db, now) && d !in db.drives
    ensures forall q :: !OnDrive(db, q, d)
  {
    hide OneOpen, ChargesInOrder;
    forall q ensures !OnDrive(db, q, d) { assert PositionOk(db, now, q); }
  }

  /** Filing a new row puts it on the open drive, or on a new one. */
  lemma NewPointGoesTo(at: Db, c: Change, s: Step, d: Id)
    requires c.Files() && CanMake(at, c, s) && s.DriveStep? && NewRow(at, s.handed, s) && c.p == s.handed
    requires Steady(at, s.now) && d == if c.Open? then NextId(at.drives.Keys) else c.d
    ensures var after := Make(at, c, s);
            && OnDrive(after, s.handed, d) && d in OpenDrives(after, s.car) && after.positions[s.handed].date == s.now
            && (c.File? ==> after.drives == at.drives)
            && Gains(at, after, s.handed, d)
            && (c.Open? ==> forall q :: OnDrive(after, q, d) ==> q == s.handed)
  {
    hide SetDrive, Steady, Gains, SamePoints;
    if c.Open? {
      NoPointsYet(at, s.now, d);
      var mid := at.(drives := at.drives[d := NewDrive(s.car, s.reading, s.now, s.handed)]);
      FreePointJoins(mid, s.handed, d);
      SamePositionsGain(at, mid, Make(at, c, s), s.handed, d);
    } else {
      FreePointJoins(at, s.handed, d);
    }
  }

  lemma SamePositionsGain(db: Db, mid: Db, after: Db, p: Id, d: Id)
    requires mid.positions == db.positions && Gains(mid, after, p, d)
    ensures Gains(db, after, p, d)
    ensures (forall q :: !OnDrive(db, q, d)) ==> forall q :: OnDrive(after, q, d) ==> q == p
  {
    assert forall q :: OnDrive(mid, q, d) <==> OnDrive(db, q, d);
  }

  /** A driving poll that runs to its end and goes on with its own row puts it on the fresh open drive of its car if
      there is one; else on a drive that has no other point. */
  lemma PointLands(db: Db, s: Step)
    requires Steady(db, s.now) && s.DriveStep? && Exact(db, s)
    requires DriveTick(db, s.car, s.reading, s.now, s.handed).ok
    ensures exists d :: PointGoesTo(db, Apply(db, s), s, d)
  {
    SteadyIsOneOpen(db, s.now);
    ExactPollFiles(db, s);
    ExactFiling(db, s);
    SteadyAtFiling(db, s);
    FilingAllowed(db, s);
    DriveTailIs(db, s);
    OpenWhenFiled(db, s);
    FilingIsOf(db, s);
    var at, c := AtFiling(db, s), Filing(db, s);
    hide AtFiling, Filing, CanMake, Make, Apply, Steady, Exact, FilesPoint, FreshDrive, NextId;
    var d := if c.Open? then NextId(at.drives.Keys) else c.d;
    NewPointGoesTo(at, c, s, d);
    FiledPoint(db, at, Apply(db, s), s, d, c.File?);
  }

  lemma ExactPollFiles(db: Db, s: Step)
    requires s.DriveStep? && Exact(db, s) && DriveTick(db, s.car, s.reading, s.now, s.handed).ok
    ensures CompleteOpenCharges(db, s.car).ok && CloseStale(CompleteOpenCharges(db, s.car).db, s.car, s.now).ok
    ensures FilesPoint(db, s) && s.handed !in db.positions
  {
    hide CompleteOpenCharges, CloseStale, Snapshot, DriveTickTail;
    SnapshotRows(AtSnapshot(db, s), s);
    CompletingOpenLeavesOthers(db, s.car);
    SweepLeavesKeys(CompleteOpenCharges(db, s.car).db, s.car, s.now);
  }

  lemma SweepLeavesKeys(db: Db, car: Id, now: nat)
    ensures CloseStale(db, car, now).db.positions.Keys == db.positions.Keys
  {
    hide CloseDrives, CompleteCharges, StaleDrives, StaleCharges;
    ClosingLeavesCharges(db, StaleDrives(db, car, now));
    var mid := CloseDrives(db, StaleDrives(db, car, now));
    CompletingLeavesOthers(mid, car, StaleCharges(mid, car, now));
  }

  /** When the point is filed, the open drives are the fresh ones before the poll, as they were. */
  lemma OpenWhenFiled(db: Db, s: Step)
    requires s.DriveStep? && CompleteOpenCharges(db, s.car).ok
    ensures var at := AtFiling(db, s);
            && (forall d :: d in OpenDrives(at, s.car) <==> d in OpenDrives(db, s.car) && FreshDrive(db, d, s.now))
            && (forall d :: d in OpenDrives(at, s.car) ==> at.drives[d] == db.drives[d] && SamePoints(db, at, d))
  {
    hide CompleteOpenCharges, CloseStale, Snapshot, FreshDrive, SamePoints;
    var charged, before := CompleteOpenCharges(db, s.car).db, AtSnapshot(db, s);
    SamePointsCharged(db, s.car, s.now);
    SweepLeavesFreshDrives(charged, s);
    SnapshotKeepsPoints(before, s);
    forall d | d in OpenDrives(AtFiling(db, s), s.car)
      ensures AtFiling(db, s).drives[d] == db.drives[d] && SamePoints(db, AtFiling(db, s), d)
    {
      assert SamePoints(db, charged, d) && SamePoints(charged, before, d) && SamePoints(before, AtFiling(db, s), d);
      SamePointsChain(db, charged, before, d);
      SamePointsChain(db, before, AtFiling(db, s), d);
    }
  }

  lemma SamePointsChain(a: Db, b: Db, c: Db, d: Id)
    requires SamePoints(a, b, d) && SamePoints(b, c, d)
    ensures SamePoints(a, c, d)
  {
  }

  lemma SamePointsCharged(db: Db, car: Id, now: nat)
    ensures var charged := CompleteOpenCharges(db, car).db;
            && charged.drives == db.drives && OpenDrives(charged, car) == OpenDrives(db, car)
            && (forall d :: SamePoints(db, charged, d))
            && forall d :: d in OpenDrives(db, car) ==> (FreshDrive(charged, d, now) <==> FreshDrive(db, d, now))
  {
    hide CompleteOpenCharges, FreshDrive;
    var charged := CompleteOpenCharges(db, car).db;
    CompletingOpenLeavesOthers(db, car);
    forall d | d in OpenDrives(db, car) ensures FreshDrive(charged, d, now) <==> FreshDrive(db, d, now) {
      SameFreshDrive(db, charged, d, now);
    }
  }

  lemma FilingIsOf(db: Db, s: Step)
    requires s.IsPoll()
    ensures var open, c := OpenDrives(AtFiling(db, s), s.car), Filing(db, s);
            c.p == s.handed && (if c.Open? then open == map[] else c.File? && c.d in open)
  {
    hide AtFiling;
  }

  lemma SnapshotKeepsPoints(db: Db, s: Step)
    requires s.IsPoll()
    ensures var snap := Snapshot(db, s.car, s.reading, s.now);
            snap.drives == db.drives && OpenDrives(snap, s.car) == OpenDrives(db, s.car) &&
            forall d :: SamePoints(db, snap, d)
  {
    hide Snapshot;
  }

  lemma FiledPoint(db: Db, at: Db, after: Db, s: Step, d: Id, joins: bool)
    requires s.IsPoll() && s.handed !in db.positions
    requires forall e :: e in OpenDrives(at, s.car) <==> e in OpenDrives(db, s.car) && FreshDrive(db, e, s.now)
    requires forall e :: e in OpenDrives(at, s.car) ==> at.drives[e] == db.drives[e] && SamePoints(db, at, e)
    requires OneOpen(at)
    requires if joins then d in OpenDrives(at, s.car) && after.drives == at.drives else OpenDrives(at, s.car) == map[]
    requires OnDrive(after, s.handed, d) && d in OpenDrives(after, s.car) && after.positions[s.handed].date == s.now
    requires Gains(at, after, s.handed, d)
    requires !joins ==> forall q :: OnDrive(after, q, d) ==> q == s.handed
    ensures PointGoesTo(db, after, s, d)
  {
    hide FreshDrive;
    if joins {
      forall e | e in OpenDrives(at, s.car) ensures e == d { assert IsOpen(at, OnRoad(e)) && IsOpen(at, OnRoad(d)); }
      assert SamePoints(db, at, d);
    }
  }

  /** A row that was on no drive joins none of this car. */
  lemma JoiningStands(db: Db, after: Db, k: Id, car: Id)
    requires k in after.positions && after.positions == db.positions[k := after.positions[k]]
    requires k in db.positions ==> db.positions[k].drive.None?
    requires after.positions[k].drive.Some? ==> !RoadOf(db, after.positions[k].drive.value, car)
    requires forall d :: RoadOf(db, d, car) ==> d in after.drives && after.drives[d] == db.drives[d]
    requires forall d :: RoadOf(after, d, car) ==> RoadOf(db, d, car)
    ensures DrivesStand(db, after, car)
  {
    forall d | RoadOf(db, d, car) ensures SamePoints(db, after, d) {
      assert forall q :: OnDrive(after, q, d) <==> OnDrive(db, q, d);
    }
  }

  predicate RoadOf(db: Db, d: Id, car: Id) {
    d in db.drives && db.drives[d].car == car
  }

  lemma SameRoadsStand(db: Db, after: Db, car: Id)
    requires after.positions == db.positions && after.drives == db.drives
    ensures DrivesStand(db, after, car)
  {
  }

  lemma ClosingStands(db: Db, e: Id, car: Id)
    requires e in db.drives && db.drives[e].car != car
    ensures DrivesStand(db, CloseDrive(db, e), car)
  {
    hide CloseDrive, SamePoints;
    forall d | RoadOf(db, d, car) ensures d in CloseDrive(db, e).drives && SamePoints(db, CloseDrive(db, e), d) {
      OneCloseLeavesDrive(db, e, d);
      SamePointsWhen(db, CloseDrive(db, e), d);
    }
  }

  lemma SamePointsWhen(a: Db, b: Db, d: Id)
    requires forall q :: OnDrive(b, q, d) == OnDrive(a, q, d) && (OnDrive(a, q, d) ==> b.positions[q] == a.positions[q])
    ensures SamePoints(a, b, d)
  {
  }

  lemma ChangeLeavesOtherDrives(db: Db, c: Change, s: Step, car: Id)
    requires CanMake(db, c, s) && !c.Files() && !s.RestartStep? && s.car != car
    ensures DrivesStand(db, Make(db, c, s), car)
  {
    hide CloseDrive, CompleteCharge, Snapshot, CatchUp, SampleDue, StreamRows, StreamDrive, DrivesStand;
    if c.CloseOne? {
      ClosingStands(db, c.d, car);
    } else if c.Snap? {
      JoiningStands(db, Make(db, c, s), NextPosition(db), car);
    } else if c.Stream? {
      StreamLeavesOtherDrives(db, s, car);
    } else {
      SameRoadsStand(db, Make(db, c, s), car);
    }
  }

  lemma StreamLeavesOtherDrives(db: Db, s: Step, car: Id)
    requires s.StreamStep? && s.car != car
    ensures DrivesStand(db, StreamRow(db, s.car, s.reading, s.now), car)
  {
    hide SampleDue, StreamRows, DrivesStand, StreamDrive;
    StreamDriveIsOf(db, s.car);
    if SampleDue(StreamRows(db, s.car), s.now) {
      JoiningStands(db, StreamRow(db, s.car, s.reading, s.now), NextPosition(db), car);
    } else {
      SameRoadsStand(db, db, car);
    }
  }

  lemma StreamDriveIsOf(db: Db, car: Id)
    ensures StreamDrive(db, car).Some? ==> RoadOf(db, StreamDrive(db, car).value, car)
  {
  }

  /** A new row filed for another car joins no drive of this one. */
  lemma FilingLeavesOtherDrives(db: Db, c: Change, s: Step, car: Id)
    requires CanMake(db, c, s) && c.Files() && s.car != car
    requires db.positions[c.p].drive.None?
    ensures DrivesStand(db, Make(db, c, s), car)
  {
    hide DrivesStand;
    JoiningStands(db, Make(db, c, s), c.p, car);
  }

  /** A step of another car that goes on with its own row, if it is a poll, leaves the drives of this car alone. */
  lemma StepLeavesOtherDrives(db: Db, s: Step, car: Id)
    requires OneOpen(db) && Exact(db, s) && !s.RestartStep? && s.car != car
    ensures DrivesStand(db, Apply(db, s), car)
  {
    hide Apply, CanMake, Make, OneOpen, Exact, AtFiling;
    var rel := (a, b) => DrivesStand(a, b, car);
    forall d, c: Change | CanMake(d, c, s) && !c.Files() ensures rel(d, Make(d, c, s)) {
      ChangeLeavesOtherDrives(d, c, s, car);
    }
    if FilesPoint(db, s) {
      ExactFiling(db, s);
      FilingAllowed(db, s);
      FilingIsOf(db, s);
      FilingLeavesOtherDrives(AtFiling(db, s), Filing(db, s), s, car);
    }
    StepLifts(rel, db, s);
  }

  // ---------- A stretch of driving polls ----------

  /** A step of another car, or a driving poll of this one that runs to its end; each poll goes on with its own row. */
  ghost predicate DrivesOn(db: Db, s: Step, car: Id) {
    && !s.RestartStep? && Exact(db, s)
    && (s.car == car ==> s.DriveStep? && DriveTick(db, s.car, s.reading, s.now, s.handed).ok)
  }

  ghost predicate Driving(dbs: seq<Db>, steps: seq<Step>, car: Id, a: nat, b: nat) {
    && |dbs| == |steps| + 1 && IsRun(dbs, steps) && a < b <= |steps| && Of(steps[a], car)
    && forall k :: a <= k < b ==> DrivesOn(dbs[k], steps[k], car)
  }

  /** The point a poll goes on with. */
  function PointFiled(s: Step): Id {
    if s.IsPoll() then s.handed else 0
  }

  /** The point is on an open drive of the car. */
  predicate OnOpen(db: Db, car: Id, p: Id) {
    p in db.positions && db.positions[p].drive.Some? && db.positions[p].drive.value in OpenDrives(db, car)
  }

  /** The car's open drive holds point `p` of date `date`, and none later. */
  ghost predicate LastPoint(db: Db, car: Id, p: Id, date: nat) {
    && OnOpen(db, car, p) && db.positions[p].date == date
    && forall q :: OnDrive(db, q, db.positions[p].drive.value) ==> db.positions[q].date <= date
  }

  lemma LastPointIsFresh(db: Db, car: Id, p: Id, date: nat, now: nat)
    requires LastPoint(db, car, p, date)
    ensures FreshDrive(db, db.positions[p].drive.value, now) <==> Recent(date, now)
  {
    var d := db.positions[p].drive.value;
    assert OnDrive(db, p, d);
    if q :| OnDrive(db, q, d) && Recent(db.positions[q].date, now) {
      assert db.positions[q].date / 1000 <= date / 1000;
    }
  }

  lemma OnlyOneOpenDrive(db: Db, car: Id)
    requires OneOpen(db)
    ensures forall d, e :: d in OpenDrives(db, car) && e in OpenDrives(db, car) ==> d == e
  {
    forall d, e | d in OpenDrives(db, car) && e in OpenDrives(db, car) ensures d == e {
      assert IsOpen(db, OnRoad(d)) && IsOpen(db, OnRoad(e));
    }
  }

  /** A driving poll leaves its point on the open drive, as the last. The points of the drive that was open are still
      on the open one exactly when that drive was fresh; no other point is. */
  lemma PollFilesLast(db: Db, s: Step, car: Id, p: Id, date: nat)
    requires DrivesOn(db, s, car) && Of(s, car) && Steady(db, s.now) && Steady(Apply(db, s), s.now)
    ensures LastPoint(Apply(db, s), car, PointFiled(s), s.now)
    ensures LastPoint(db, car, p, date) ==>
      forall q :: q in db.positions ==> (OnOpen(Apply(db, s), car, q) <==> OnOpen(db, car, q) && Recent(date, s.now))
  {
    hide Apply, FreshDrive, Recent;
    SteadyIsOneOpen(db, s.now);
    SteadyIsOneOpen(Apply(db, s), s.now);
    PointLands(db, s);
    OnlyOneOpenDrive(db, car);
    OnlyOneOpenDrive(Apply(db, s), car);
    hide Steady, OneOpen, Exact;
    var after := Apply(db, s);
    forall q | q in after.positions ensures after.positions[q].date <= s.now { DatedBy(after, s.now, q); }
    if LastPoint(db, car, p, date) {
      LastPointIsFresh(db, car, p, date, s.now);
      var d :| PointGoesTo(db, after, s, d);
      PointsAfter(db, after, s, d, db.positions[p].drive.value);
    }
  }

  lemma DatedBy(db: Db, now: nat, q: Id)
    requires Steady(db, now) && q in db.positions
    ensures db.positions[q].date <= now
  {
    assert PositionOk(db, now, q);
  }

  lemma PointsAfter(db: Db, after: Db, s: Step, d: Id, e: Id)
    requires s.IsPoll() && PointGoesTo(db, after, s, d) && e in OpenDrives(db, s.car)
    requires forall f :: f in OpenDrives(db, s.car) ==> f == e
    requires forall f :: f in OpenDrives(after, s.car) ==> f == d
    ensures forall q :: q in db.positions ==>
              (OnOpen(after, s.car, q) <==> OnOpen(db, s.car, q) && FreshDrive(db, e, s.now))
  {
    hide FreshDrive;
    forall q | q in db.positions
      ensures OnOpen(after, s.car, q) <==> OnOpen(db, s.car, q) && FreshDrive(db, e, s.now)
    {
      assert OnOpen(after, s.car, q) <==> OnDrive(after, q, d);
      assert OnOpen(db, s.car, q) <==> OnDrive(db, q, e);
    }
  }

  /** Steps of other cars change neither. */
  lemma OtherKeepsPoints(db: Db, s: Step, car: Id, p: Id, date: nat)
    requires DrivesOn(db, s, car) && !Of(s, car) && OneOpen(db) && LastPoint(db, car, p, date)
    requires NothingDeleted(db, Apply(db, s))
    ensures LastPoint(Apply(db, s), car, p, date)
    ensures forall q :: q in db.positions ==> (OnOpen(Apply(db, s), car, q) <==> OnOpen(db, car, q))
  {
    hide Apply, OneOpen, Exact;
    StepLeavesOtherDrives(db, s, car);
    var after := Apply(db, s);
    forall d, q | d in OpenDrives(after, car) && OnDrive(after, q, d)
      ensures d in OpenDrives(db, car) && OnDrive(db, q, d) && after.positions[q] == db.positions[q]
    {
      assert SamePoints(db, after, d);
    }
    forall d, q | d in OpenDrives(db, car) && OnDrive(db, q, d)
      ensures d in OpenDrives(after, car) && OnDrive(after, q, d)
    {
      assert SamePoints(db, after, d);
    }
    forall q | q in db.positions ensures OnOpen(after, car, q) <==> OnOpen(db, car, q) {
      if OnOpen(after, car, q) { assert OnDrive(after, q, after.positions[q].drive.value); }
      if OnOpen(db, car, q) { assert OnDrive(db, q, db.positions[q].drive.value); }
    }
    assert OnDrive(db, p, db.positions[p].drive.value);
  }

  /** After `k` steps of it: the last point is the last poll's. */
  lemma {:induction false} AfterLastPoint(
      dbs: seq<Db>, steps: seq<Step>, start: nat, car: Id, a: nat, b: nat, k: nat)
    requires Driving(dbs, steps, car, a, b) && a < k <= b && Monotone(start, steps) && Steady(dbs[0], start)
    ensures var j := Last(steps, car, a, k); LastPoint(dbs[k], car, PointFiled(steps[j]), steps[j].now)
    decreases k
  {
    hide Apply, Steady, LastPoint, DrivesOn, IsRun, Monotone, NothingDeleted;
    var s := steps[k - 1];
    DriveStretchAt(dbs, steps, start, car, a, b, k - 1);
    if Of(s, car) {
      PollFilesLast(dbs[k - 1], s, car, 0, 0);
    } else {
      AfterLastPoint(dbs, steps, start, car, a, b, k - 1);
      var j := Last(steps, car, a, k - 1);
      OtherKeepsPoints(dbs[k - 1], s, car, PointFiled(steps[j]), steps[j].now);
    }
  }

  lemma DriveStretchAt(dbs: seq<Db>, steps: seq<Step>, start: nat, car: Id, a: nat, b: nat, k: nat)
    requires Driving(dbs, steps, car, a, b) && a <= k < b && Monotone(start, steps) && Steady(dbs[0], start)
    ensures DrivesOn(dbs[k], steps[k], car) && dbs[k + 1] == Apply(dbs[k], steps[k])
    ensures Steady(dbs[k], steps[k].now) && Steady(dbs[k + 1], steps[k].now)
    ensures OneOpen(dbs[k]) && NothingDeleted(dbs[k], dbs[k + 1])
  {
    hide Apply, Steady, DrivesOn, NothingDeleted, OneOpen;
    SteadyAt(dbs, steps, start, k);
    AlwaysSteady(dbs, steps, start, k + 1);
    SteadyIsOneOpen(dbs[k], steps[k].now);
    StepDeletesNothing(dbs[k], steps[k]);
  }

  /** The point of the poll at `k`, if it is one of the car, is in state `n` on an open drive of the car. */
  ghost predicate StillOn(dbs: seq<Db>, steps: seq<Step>, car: Id, k: nat, n: nat)
    requires k < n < |dbs| && n <= |steps|
  {
    Of(steps[k], car) ==> OnOpen(dbs[n], car, PointFiled(steps[k]))
  }

  /** A stretch of driving polls that go on with their own rows has all its points on one drive, the one open at the
      end, exactly when no two of them in a row are more than fifteen minutes apart. */
  lemma {:induction false} OneStretchOneDrive(dbs: seq<Db>, steps: seq<Step>, start: nat, car: Id, a: nat, n: nat)
    requires Driving(dbs, steps, car, a, n) && Monotone(start, steps) && Steady(dbs[0], start)
    ensures (forall k :: a <= k < n ==> StillOn(dbs, steps, car, k, n)) <==>
            (forall k :: a < k < n ==> NoPause(steps, car, a, k))
    ensures forall d, e :: d in OpenDrives(dbs[n], car) && e in OpenDrives(dbs[n], car) ==> d == e
    decreases n
  {
    hide Apply, Steady, Monotone, DrivesOn, IsRun, LastPoint, OnOpen, NoPause, NothingDeleted;
    OneDriveAt(dbs, steps, start, car, a, n);
    var k := n - 1;
    DriveStretchAt(dbs, steps, start, car, a, n, k);
    if k > a {
      OneStretchOneDrive(dbs, steps, start, car, a, k);
      AfterLastPoint(dbs, steps, start, car, a, n, k);
      OneMoreStep(dbs, steps, start, car, a, n);
    } else {
      PollFilesLast(dbs[k], steps[k], car, 0, 0);
      LastIsOnOpen(dbs[n], car, PointFiled(steps[k]), steps[k].now);
    }
  }

  lemma OneDriveAt(dbs: seq<Db>, steps: seq<Step>, start: nat, car: Id, a: nat, n: nat)
    requires Driving(dbs, steps, car, a, n) && Monotone(start, steps) && Steady(dbs[0], start)
    ensures forall d, e :: d in OpenDrives(dbs[n], car) && e in OpenDrives(dbs[n], car) ==> d == e
  {
    hide Apply, Steady, Monotone;
    AlwaysSteady(dbs, steps, start, n);
    SteadyIsOneOpen(dbs[n], Clock(start, steps, n));
    OnlyOneOpenDrive(dbs[n], car);
  }

  lemma LastIsOnOpen(db: Db, car: Id, p: Id, date: nat)
    requires LastPoint(db, car, p, date)
    ensures OnOpen(db, car, p) && p in db.positions
  {
  }

  lemma OneMoreStep(dbs: seq<Db>, steps: seq<Step>, start: nat, car: Id, a: nat, n: nat)
    requires Driving(dbs, steps, car, a, n) && a < n - 1 && Monotone(start, steps) && Steady(dbs[0], start)
    ensures var m := n - 1;
            (forall k :: a <= k < n ==> StillOn(dbs, steps, car, k, n)) <==>
            (forall k :: a <= k < m ==> StillOn(dbs, steps, car, k, m)) && NoPause(steps, car, a, m)
  {
    hide Apply, Steady, Monotone, DrivesOn, IsRun, LastPoint, OnOpen, NothingDeleted, Recent;
    var m := n - 1;
    var j := Last(steps, car, a, m);
    DriveStretchAt(dbs, steps, start, car, a, n, m);
    AfterLastPoint(dbs, steps, start, car, a, n, m);
    PointsAreThere(dbs, steps, start, car, a, n, m);
    if Of(steps[m], car) {
      PollFilesLast(dbs[m], steps[m], car, PointFiled(steps[j]), steps[j].now);
      LastIsOnOpen(dbs[n], car, PointFiled(steps[m]), steps[m].now);
      if forall k :: a <= k < n ==> StillOn(dbs, steps, car, k, n) { assert StillOn(dbs, steps, car, a, n); }
      forall k | a <= k < m
        ensures Of(steps[k], car) ==>
          (StillOn(dbs, steps, car, k, n) <==> StillOn(dbs, steps, car, k, m) && NoPause(steps, car, a, m))
      {
      }
    } else {
      OtherKeepsPoints(dbs[m], steps[m], car, PointFiled(steps[j]), steps[j].now);
      forall k | a <= k < m ensures StillOn(dbs, steps, car, k, n) <==> StillOn(dbs, steps, car, k, m) {
      }
    }
  }

  /** The points filed are rows of the table. */
  lemma {:induction false} PointsAreThere(dbs: seq<Db>, steps: seq<Step>, start: nat, car: Id, a: nat, b: nat, n: nat)
    requires Driving(dbs, steps, car, a, b) && a < n <= b && Monotone(start, steps) && Steady(dbs[0], start)
    ensures forall k :: a <= k < n && Of(steps[k], car) ==> PointFiled(steps[k]) in dbs[n].positions
    decreases n
  {
    hide Apply, Steady, Monotone, DrivesOn, IsRun, LastPoint;
    var m := n - 1;
    DriveStretchAt(dbs, steps, start, car, a, b, m);
    if m > a { PointsAreThere(dbs, steps, start, car, a, b, m); }
    if Of(steps[m], car) {
      AfterLastPoint(dbs, steps, start, car, a, b, n);
      LastIsOnOpen(dbs[n], car, PointFiled(steps[m]), steps[m].now);
    }
  }
}
