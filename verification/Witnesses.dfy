/** Inputs the program can receive on which it does not do what it is for (src/logger.rs, src/db.rs). */
module Witnesses {
  import opened Base
  import opened Chrono
  import opened Tables
  import opened Rollup
  import opened Fences
  import opened Ledger
  import opened Sessions
  import opened Changes
  import opened Integrity
  import opened Roads
  import opened Gaps
  import opened Compaction
  import opened Sampling
  import opened SnapshotIds

  // ---------- A driving poll that is handed an earlier row ----------

  const NO_RANGE := Reading(ORIGIN, None, None, None, None, None)
  const RANGE := NO_RANGE.(ideal := Some(1.0))

  /** A row without a battery range: a streamed one, or a poll's whose answer had none. */
  function Point(date: nat, car: Id, drive: Option<Id>, km: Option<real>): Position {
    Position(date, car, drive, ORIGIN, km, None, None)
  }

  function Holding(metric: Metric, positions: map<Id, Position>, drives: map<Id, Drive>): Db {
    Db(metric, map[], positions, drives, map[], map[], map[], 1, [], map[])
  }

  /** The poll the code makes: it goes on with the rowid of the hour it has just refreshed. */
  function Poll(db: Db, car: Id, now: nat): Step {
    DriveStep(car, now, RANGE, db.nextHourRow)
  }

  ghost predicate Quiet(db: Db, car: Id, now: nat) {
    OpenCharges(db, car) == map[] && StaleDrives(db, car, now) == map[]
  }

  lemma QuietPoll(db: Db, car: Id, now: nat)
    requires Quiet(db, car, now) && db.nextHourRow in db.positions
    ensures var s := Poll(db, car, now);
            && AsWritten(db, s) && FilesPoint(db, s) && AtFiling(db, s) == Snapshot(db, car, RANGE, now)
            && Apply(db, s) == DriveTickTail(Snapshot(db, car, RANGE, now), car, RANGE, now, db.nextHourRow).db
  {
    hide Snapshot, DriveTickTail, StaleDrives;
    assert CompleteOpenCharges(db, car) == Outcome(db, true) by { NothingToComplete(db, car, OpenCharges(db, car)); }
    assert StaleCharges(db, car, now) == map[];
    assert CloseStale(db, car, now) == Outcome(db, true);
    HandedTheHour(db, car, now);
  }

  lemma HandedTheHour(db: Db, car: Id, now: nat)
    ensures SnapshotId(db, car, RANGE, now) == db.nextHourRow
  {
    var more := db.positions[NextPosition(db) := SnapshotRow(car, RANGE, now)];
    GroupIsEmpty(more, (car, Hour(now)));
    assert NextPosition(db) in more && InHour(more[NextPosition(db)], (car, Hour(now)));
  }

  /** The row handed is moved to drive `d`; the row inserted, `k`, stays on none. */
  ghost predicate Files(db: Db, after: Db, car: Id, now: nat, k: Id, d: Id)
    requires db.nextHourRow in db.positions
  {
    var p := db.nextHourRow;
    && after.positions == db.positions[k := SnapshotRow(car, RANGE, now)][p := db.positions[p].(drive := Some(d))]
    && after.drives ==
         (if OpenDrives(db, car) == map[] then db.drives[d := NewDrive(car, RANGE, now, p)] else db.drives)
    && after.processes == db.processes && after.charges == db.charges && after.nextHourRow == p + 1
  }

  /** A poll files the row it is handed on the open drive, or on a new one. */
  lemma QuietPollIs(db: Db, car: Id, now: nat, k: Id, d: Id)
    requires Quiet(db, car, now) && db.nextHourRow in db.positions && k == NextPosition(db)
    requires d == if OpenDrives(db, car) == map[] then NextId(db.drives.Keys) else Latest(OpenDrives(db, car))
    ensures Files(db, Apply(db, Poll(db, car, now)), car, now, k, d) && AsWritten(db, Poll(db, car, now))
  {
    hide Snapshot, StaleDrives;
    QuietPoll(db, car, now);
    SnapshotMovesIds(db, car, RANGE, now);
    var snap := Snapshot(db, car, RANGE, now);
    assert OpenDrives(snap, car) == OpenDrives(db, car);
  }

  // ---------- A closed drive loses its points, and a second one covers its time ----------

  /** What two polls without a range and the end of the stream leave: a closed drive of one minute. */
  function OneDrive(metric: Metric): Db {
    Holding(metric,
            map[1 := Point(0, 1, Some(1), Some(0.0)), 2 := Point(60_000, 1, Some(1), Some(1.0))],
            map[1 := Drive(1, 0, Some(60_000), Some(1), Some(2), Some(0.0), Some(1.0), Some(1.0), Some(1),
                           None, None, None, None)])
  }

  lemma TwoRows(rows: Dates, a: Id, b: Id)
    requires rows.Keys == {a, b} && a < b && rows[a] <= rows[b]
    ensures Earliest(rows) == a && Latest(rows) == b && |rows| == 2
  {
    assert |rows| == |rows.Keys| && |{a, b}| == 2;
  }

  lemma OneDriveIsGood(metric: Metric)
    ensures AllGood(OneDrive(metric), 60_000) && RollupAgrees(OneDrive(metric))
  {
    var db := OneDrive(metric);
    OneDriveHasFacts(db.metric);
    OneDriveIsSteady(db.metric);
    hide DriveFacts, Steady;
    var rows := DriveRows(db, 1);
    assert rows.Keys == {1, 2};
    assert Compact(db).positions == db.positions by { assert Referenced(db, 1) && Referenced(db, 2); }
    forall d ensures NoGapIn(db, {}, OnRoad(d)) {
    }
  }

  lemma OneDriveHasFacts(metric: Metric)
    ensures DriveFacts(OneDrive(metric), 1)
  {
    var db := OneDrive(metric);
    var rows := DriveRows(db, 1);
    assert rows.Keys == {1, 2};
    TwoRows(rows, 1, 2);
    assert OdometerRows(db, 1) == rows && IdealRows(db, 1) == map[];
  }

  lemma OneDriveIsSteady(metric: Metric)
    ensures Steady(OneDrive(metric), 60_000)
  {
  }

  /** The next poll, as the code makes it, takes the first point off the closed drive. */
  lemma AClosedDriveLosesAPoint(metric: Metric)
    ensures var db := OneDrive(metric);
            var s := Poll(db, 1, 61_000);
            && AllGood(db, 60_000) && RollupAgrees(db) && AsWritten(db, s)
            && TakesClosedPoint(db, s) && !KeepsClosed(db, Apply(db, s))
  {
    hide AllGood, Apply, AtFiling;
    var db := OneDrive(metric);
    OneDriveIsGood(metric);
    assert Quiet(db, 1, 61_000) by { OneDriveIsQuiet(metric); }
    QuietPoll(db, 1, 61_000);
    StepKeepsClosed(db, Poll(db, 1, 61_000));
  }

  lemma OneDriveIsQuiet(metric: Metric)
    ensures Quiet(OneDrive(metric), 1, 61_000) && OpenDrives(OneDrive(metric), 1) == map[]
  {
  }

  /** The closed drive, and an open one that holds its first point. */
  ghost predicate FirstMoved(metric: Metric, db: Db) {
    && db.positions.Keys == {1, 2, 3} && db.positions[3].drive.None?
    && db.positions[1] == Point(0, 1, Some(2), Some(0.0)) && db.positions[2] == Point(60_000, 1, Some(1), Some(1.0))
    && db.drives == OneDrive(metric).drives[2 := NewDrive(1, RANGE, 61_000, 1)]
    && db.processes == map[] && db.nextHourRow == 2
  }

  lemma FirstPoll(metric: Metric)
    ensures var db := OneDrive(metric);
            AsWritten(db, Poll(db, 1, 61_000)) && FirstMoved(metric, Apply(db, Poll(db, 1, 61_000)))
  {
    var db := OneDrive(metric);
    OneDriveIsQuiet(metric);
    assert db.drives.Keys == {1} && db.positions.Keys == {1, 2};
    NextIdIs({1}, 2);
    NextIdIs({1, 2}, 3);
    hide Apply, AsWritten, Quiet;
    QuietPollIs(db, 1, 61_000, 3, 2);
  }

  lemma FirstMovedIsQuiet(metric: Metric, db: Db)
    requires FirstMoved(metric, db)
    ensures Quiet(db, 1, 62_000) && OpenDrives(db, 1) == map[2 := 61_000]
  {
    assert DriveRows(db, 2) == map[1 := 0];
    OnlyOne(DriveRows(db, 2), 1);
  }

  /** ... and its second point too. */
  ghost predicate BothMoved(metric: Metric, db: Db) {
    && db.positions.Keys == {1, 2, 3, 4} && db.positions[3].drive.None? && db.positions[4].drive.None?
    && db.positions[1] == Point(0, 1, Some(2), Some(0.0)) && db.positions[2] == Point(60_000, 1, Some(2), Some(1.0))
    && db.drives == OneDrive(metric).drives[2 := NewDrive(1, RANGE, 61_000, 1)]
  }

  lemma ThenBothMoved(metric: Metric, db: Db, after: Db)
    requires FirstMoved(metric, db) && OpenDrives(db, 1) != map[] && Files(db, after, 1, 62_000, 4, 2)
    ensures BothMoved(metric, after)
  {
    hide NewDrive, OpenDrives;
  }

  lemma SecondPoll(metric: Metric, db: Db)
    requires FirstMoved(metric, db)
    ensures AsWritten(db, Poll(db, 1, 62_000)) && BothMoved(metric, Apply(db, Poll(db, 1, 62_000)))
  {
    FirstMovedIsQuiet(metric, db);
    OnlyOne(OpenDrives(db, 1), 2);
    NextIdIs({1, 2, 3}, 4);
    hide Apply, AsWritten, Quiet, Files, BothMoved;
    QuietPollIs(db, 1, 62_000, 4, 2);
    ThenBothMoved(metric, db, Apply(db, Poll(db, 1, 62_000)));
  }

  lemma OnlyOne(rows: Dates, k: Id)
    requires rows.Keys == {k}
    ensures rows != map[] && Latest(rows) == k && Earliest(rows) == k && rows - {k} == map[]
  {
    assert k in rows;
  }

  /** The end of the stream closes the second drive, from its first point to its last. */
  lemma SecondDriveCloses(metric: Metric, db: Db)
    requires BothMoved(metric, db)
    ensures var after := Apply(db, StreamEndStep(1, 63_000)).drives;
            && 2 in after && after[2].car == 1 && after[2].startDate == 0 && after[2].endDate == Some(60_000)
            && 1 in after && after[1] == OneDrive(metric).drives[1]
  {
    var rows := DriveRows(db, 2);
    assert rows.Keys == {1, 2};
    TwoRows(rows, 1, 2);
    assert OdometerRows(db, 2) == rows;
    assert Distance(db, 2) == Some(1.0);
    assert OpenDrives(db, 1).Keys == {2};
    OneToClose(db, 1, 2);
  }

  /** Two such polls and the end of the stream leave a second closed drive of the same car over the same minute. */
  lemma TwoDrivesOfOneMinute(metric: Metric)
    ensures var db := OneDrive(metric);
            var mid := Apply(db, Poll(db, 1, 61_000));
            var last := Apply(mid, Poll(mid, 1, 62_000));
            var after := Apply(last, StreamEndStep(1, 63_000)).drives;
            && AllGood(db, 60_000) && AsWritten(db, Poll(db, 1, 61_000)) && AsWritten(mid, Poll(mid, 1, 62_000))
            && 1 in after && 2 in after && after[1].car == after[2].car == 1
            && after[1].startDate == after[2].startDate == 0
            && after[1].endDate == after[2].endDate == Some(60_000)
  {
    hide AllGood, Apply, AsWritten, FirstMoved, BothMoved;
    var db := OneDrive(metric);
    OneDriveIsGood(metric);
    FirstPoll(metric);
    var mid := Apply(db, Poll(db, 1, 61_000));
    SecondPoll(metric, mid);
    SecondDriveCloses(metric, Apply(mid, Poll(mid, 1, 62_000)));
  }

  lemma NextIdIs(used: set<Id>, id: Id)
    requires id - 1 in used && forall k :: k in used ==> k < id
    ensures NextId(used) == id
  {
  }

  // ---------- A drive gets a point from half an hour before ----------

  /** A streamed row on no drive, and later a drive that a poll without a range opened. */
  function EarlierRow(metric: Metric): Db {
    Holding(metric,
            map[1 := Point(0, 1, None, None), 2 := Point(2_000_000, 1, Some(1), None)],
            map[1 := NewDrive(1, NO_RANGE, 2_000_000, 2)])
  }

  lemma EarlierRowIsGood(metric: Metric)
    ensures AllGood(EarlierRow(metric), 2_000_000) && RollupAgrees(EarlierRow(metric))
  {
    var db := EarlierRow(metric);
    assert DriveRows(db, 1) == map[2 := 2_000_000];
    EarlierRowIsSteady(metric);
    hide Steady;
    forall d ensures NoGapIn(db, {}, OnRoad(d)) {
    }
    assert Compact(db).positions == db.positions by {
      assert db.drives[1].startPos == Some(2);
      assert Referenced(db, 2);
    }
  }

  lemma EarlierRowIsSteady(metric: Metric)
    ensures Steady(EarlierRow(metric), 2_000_000)
  {
  }

  lemma EarlierRowIsQuiet(metric: Metric)
    ensures var db := EarlierRow(metric);
            Quiet(db, 1, 2_001_000) && OpenDrives(db, 1) == map[1 := 2_000_000]
  {
    var db := EarlierRow(metric);
    assert DriveRows(db, 1) == map[2 := 2_000_000];
    OnlyOne(DriveRows(db, 1), 2);
  }

  /** The next poll files it, and leaves a gap of more than half an hour. */
  lemma ADriveGetsAGap(metric: Metric)
    ensures var db := EarlierRow(metric);
            var s := Poll(db, 1, 2_001_000);
            AllGood(db, 2_000_000) && RollupAgrees(db) && AsWritten(db, s) && !DrivesTight(Apply(db, s), {})
  {
    hide AllGood, RollupAgrees, Apply, AsWritten, Quiet;
    var db := EarlierRow(metric);
    EarlierRowIsGood(metric);
    EarlierRowIsQuiet(metric);
    OnlyOne(OpenDrives(db, 1), 1);
    NextIdIs({1, 2}, 3);
    assert db.positions.Keys == {1, 2};
    QuietPollIs(db, 1, 2_001_000, 3, 1);
    GapAfter(metric, Apply(db, Poll(db, 1, 2_001_000)));
  }

  lemma GapAfter(metric: Metric, after: Db)
    requires OpenDrives(EarlierRow(metric), 1) != map[] && Files(EarlierRow(metric), after, 1, 2_001_000, 3, 1)
    ensures !DrivesTight(after, {})
  {
    hide NewDrive;
    assert DriveRows(after, 1) == map[1 := 0, 2 := 2_000_000];
    assert Adjacent(DriveRows(after, 1), 1, 2);
    assert !NoGapIn(after, {}, OnRoad(1));
  }

  // ---------- A drive gets another car's point ----------

  function OtherCar(metric: Metric): Db {
    Holding(metric, map[1 := Point(0, 2, None, None)], map[])
  }

  lemma OtherCarIsGood(metric: Metric)
    ensures AllGood(OtherCar(metric), 0) && RollupAgrees(OtherCar(metric))
  {
    var db := OtherCar(metric);
    assert Compact(db).positions == db.positions;
  }

  /** A first poll: car 1 starts to drive, and the point filed on its drive is car 2's. */
  lemma ADriveTakesAnotherCarsPoint(metric: Metric)
    ensures var db := OtherCar(metric);
            var s := Poll(db, 1, 1_000);
            AllGood(db, 0) && RollupAgrees(db) && AsWritten(db, s) && !CarsMatch(Apply(db, s))
  {
    hide AllGood, RollupAgrees, Apply, AsWritten;
    var db := OtherCar(metric);
    OtherCarIsGood(metric);
    assert Quiet(db, 1, 1_000) && OpenDrives(db, 1) == map[];
    NextIdIs({1}, 2);
    assert db.positions.Keys == {1} && db.drives.Keys == {};
    hide Quiet;
    QuietPollIs(db, 1, 1_000, 2, 1);
    var after := Apply(db, Poll(db, 1, 1_000));
    assert !CarOk(after, 1);
  }

  // ---------- Compaction removes a streamed row the gate let in ----------

  /** Two streamed rows on no drive. */
  function TwoStreamed(metric: Metric): Db {
    Holding(metric, map[1 := Point(0, 1, None, None), 2 := Point(100_000, 1, None, None)], map[])
  }

  lemma TwoStreamedIsGood(metric: Metric)
    ensures AllGood(TwoStreamed(metric), 100_000) && RollupAgrees(TwoStreamed(metric))
  {
    var db := TwoStreamed(metric);
    TwoStreamedIsSteady(metric);
    hide Steady;
    assert Compact(db).positions == db.positions by { assert !Rivals(db.positions, 1, 2); }
  }

  lemma TwoStreamedIsSteady(metric: Metric)
    ensures Steady(TwoStreamed(metric), 100_000)
  {
  }

  /** A drive opened with the first of them, and a snapshot on none. */
  ghost predicate OpenedEarly(db: Db) {
    && db.positions.Keys == {1, 2, 3} && db.positions[3] == SnapshotRow(1, RANGE, 101_000)
    && db.positions[1] == Point(0, 1, Some(1), None) && db.positions[2] == Point(100_000, 1, None, None)
    && db.drives == map[1 := NewDrive(1, RANGE, 101_000, 1)] && db.processes == map[]
  }

  lemma OpensEarly(metric: Metric)
    ensures var db := TwoStreamed(metric);
            AsWritten(db, Poll(db, 1, 101_000)) && OpenedEarly(Apply(db, Poll(db, 1, 101_000)))
  {
    var db := TwoStreamed(metric);
    assert Quiet(db, 1, 101_000) && OpenDrives(db, 1) == map[];
    assert db.positions.Keys == {1, 2} && db.drives.Keys == {};
    NextIdIs({1, 2}, 3);
    hide Apply, AsWritten, Quiet, Files, OpenedEarly;
    QuietPollIs(db, 1, 101_000, 3, 1);
    ThenOpenedEarly(metric, Apply(db, Poll(db, 1, 101_000)));
  }

  lemma ThenOpenedEarly(metric: Metric, after: Db)
    requires OpenDrives(TwoStreamed(metric), 1) == map[] && Files(TwoStreamed(metric), after, 1, 101_000, 3, 1)
    ensures OpenedEarly(after)
  {
    hide NewDrive, OpenDrives;
  }

  /** ... and a streamed row on that drive, in the bucket of the second. */
  ghost predicate Crowded(db: Db) {
    && db.positions.Keys == {1, 2, 3, 4} && db.positions[3] == SnapshotRow(1, RANGE, 101_000)
    && db.positions[1] == Point(0, 1, Some(1), None) && db.positions[2] == Point(100_000, 1, None, None)
    && db.positions[4] == Point(102_000, 1, Some(1), None)
    && db.drives == map[1 := NewDrive(1, RANGE, 101_000, 1)] && db.processes == map[]
  }

  lemma StreamsLate(db: Db)
    requires OpenedEarly(db)
    ensures Crowded(Apply(db, StreamStep(1, 102_000, NO_RANGE)))
  {
    assert OpenDrives(db, 1).Keys == {1};
    assert StreamDrive(db, 1) == Some(1);
    assert DriveRows(db, 1) == map[1 := 0];
    OnlyOne(DriveRows(db, 1), 1);
    NextIdIs({1, 2, 3}, 4);
  }

  lemma DropsAndThins(db: Db)
    requires Crowded(db)
    ensures var after := Apply(db, StreamEndStep(1, 103_000));
            4 in after.positions && 4 !in Compact(after).positions
  {
    hide TooShort, Compact, CloseOpenDrives, OpenDrives;
    CrowdedIsShort(db);
    OneToClose(db, 1, 1);
    Drops(db);
    Thins(CloseDrive(db, 1));
  }

  lemma CrowdedIsShort(db: Db)
    requires Crowded(db)
    ensures TooShort(db, 1) && OpenDrives(db, 1).Keys == {1}
  {
    assert OdometerRows(db, 1) == map[];
  }

  lemma OneToClose(db: Db, car: Id, d: Id)
    requires OpenDrives(db, car).Keys == {d}
    ensures CloseOpenDrives(db, car) == CloseDrive(db, d)
  {
    hide CloseDrive;
    OnlyOne(OpenDrives(db, car), d);
    assert CloseDrives(CloseDrive(db, d), map[]) == CloseDrive(db, d);
  }

  lemma Drops(db: Db)
    requires Crowded(db) && TooShort(db, 1)
    ensures var after := CloseDrive(db, 1);
            && after.drives == map[] && after.processes == map[] && 2 in after.positions && 4 in after.positions
            && after.positions[2] == db.positions[2] && after.positions[4] == Point(102_000, 1, None, None)
  {
    hide TooShort;
  }

  lemma Thins(db: Db)
    requires 2 in db.positions && 4 in db.positions && db.drives == map[] && db.processes == map[]
    requires db.positions[2] == Point(100_000, 1, None, None) && db.positions[4] == Point(102_000, 1, None, None)
    ensures 4 !in Compact(db).positions
  {
    assert Rivals(db.positions, 4, 2);
  }

  /** A poll as the code makes it, a streamed row and the end of the stream leave compaction a row to remove. */
  lemma CompactionRemovesARow(metric: Metric)
    ensures var db := TwoStreamed(metric);
            var mid := Apply(db, Poll(db, 1, 101_000));
            var after := Apply(Apply(mid, StreamStep(1, 102_000, NO_RANGE)), StreamEndStep(1, 103_000));
            && AllGood(db, 100_000) && RollupAgrees(db) && AsWritten(db, Poll(db, 1, 101_000))
            && 4 in after.positions && 4 !in Compact(after).positions
  {
    hide AllGood, RollupAgrees, Apply, AsWritten, OpenedEarly, Crowded, Compact;
    TwoStreamedIsGood(metric);
    OpensEarly(metric);
    var db := TwoStreamed(metric);
    var mid := Apply(db, Poll(db, 1, 101_000));
    StreamsLate(mid);
    DropsAndThins(Apply(mid, StreamStep(1, 102_000, NO_RANGE)));
  }

  // ---------- An answer without a range ----------

  function OneStreamed(metric: Metric): Db {
    Holding(metric, map[1 := Point(0, 1, None, None)], map[])
  }

  /** The snapshot of a parked poll without a range is stored a second after a streamed row, in its bucket. */
  lemma AnAnswerWithoutARangeCrowds(metric: Metric)
    ensures var db, s := OneStreamed(metric), IdleStep(1, 1_000, NO_RANGE, 2);
            var after := Apply(db, s);
            AsWritten(db, s) && Compact(db) == db && 2 in after.positions && 2 !in Compact(after).positions
  {
    var db := OneStreamed(metric);
    assert Compact(db).positions == db.positions;
    assert db.positions.Keys == {1};
    NextIdIs({1}, 2);
    hide NextId, Compact;
    ParkedSnapshot(db);
    Thinned(Apply(db, IdleStep(1, 1_000, NO_RANGE, 2)));
  }

  lemma ParkedSnapshot(db: Db)
    requires db.drives == map[] && db.processes == map[] && NextPosition(db) == 2
    requires forall p :: p in db.positions ==> db.positions[p].ideal.None?
    ensures AsWritten(db, IdleStep(1, 1_000, NO_RANGE, 2))
    ensures var after := Apply(db, IdleStep(1, 1_000, NO_RANGE, 2));
            && after.positions == db.positions[2 := Point(1_000, 1, None, None)]
            && after.drives == map[] && after.processes == map[]
  {
    hide Snapshot, NextId, SnapshotId;
    HandsBackItsRow(db, 1, NO_RANGE, 1_000);
    var snap := Snapshot(db, 1, NO_RANGE, 1_000);
    assert OpenDrives(snap, 1) == map[] && OpenCharges(snap, 1) == map[];
    assert CloseOpenDrives(snap, 1) == snap;
    NothingToComplete(snap, 1, OpenCharges(snap, 1));
  }

  lemma Thinned(db: Db)
    requires 1 in db.positions && 2 in db.positions && db.drives == map[] && db.processes == map[]
    requires db.positions[1] == Point(0, 1, None, None) && db.positions[2] == Point(1_000, 1, None, None)
    ensures 2 !in Compact(db).positions
  {
    assert Rivals(db.positions, 2, 1);
  }

  // ---------- A streamed row comes late ----------

  function OpenAtZero(metric: Metric): Db {
    Holding(metric, map[1 := Point(0, 1, Some(1), None)], map[1 := NewDrive(1, NO_RANGE, 0, 1)])
  }

  /** A streamed row joins a drive whose last point is a thousand seconds old. */
  lemma AStreamedRowComesLate(metric: Metric)
    ensures var db, s := OpenAtZero(metric), StreamStep(1, 1_000_000, NO_RANGE);
            AllGood(db, 0) && LateStream(db, s) && !DrivesTight(Apply(db, s), {})
  {
    var db, s := OpenAtZero(metric), StreamStep(1, 1_000_000, NO_RANGE);
    OpenAtZeroIsGood(metric);
    assert OpenDrives(db, 1).Keys == {1};
    assert StreamDrive(db, 1) == Some(1);
    assert DriveRows(db, 1) == map[1 := 0];
    OnlyOne(DriveRows(db, 1), 1);
    hide Steady, Apply, DrivesTight;
    SteadyLater(db, 0, 1_000_000);
    StreamTight(db, s, {});
  }

  lemma OpenAtZeroIsGood(metric: Metric)
    ensures AllGood(OpenAtZero(metric), 0)
  {
    var db := OpenAtZero(metric);
    assert DriveRows(db, 1) == map[1 := 0];
    forall d ensures NoGapIn(db, {}, OnRoad(d)) {
    }
    assert Compact(db).positions == db.positions;
  }

  // ---------- A car without an efficiency ----------

  /** A charging poll that runs to its end leaves such a car blocked. */
  lemma AChargingPollBlocks(db: Db, s: Step)
    requires OneOpen(db) && s.ChargeStep? && EfficiencyUnreadable(db, s.car)
    requires ChargeTick(db, s.car, s.reading, s.now, s.handed).ok
    ensures Blocked(Apply(db, s), s.car)
  {
    hide Snapshot, AttachRecent, CloseOpenDrives, CloseStale, OneOpen, SamePlugsOf;
    var parked := CloseOpenDrives(AttachRecent(Snapshot(db, s.car, s.reading, s.now), s.car, s.handed, s.now), s.car);
    ParkedLeavesCharges(db, s.car, s.reading, s.now, s.handed);
    assert parked.cars == db.cars by { SameCars(db, parked, s.car); }
    var swept := CloseStale(parked, s.car, s.now).db;
    CloseStaleKeepsCars(parked, s.car, s.now);
    TailTicks(swept, s);
  }

  lemma SameCars(db: Db, after: Db, car: Id)
    requires SamePlugsOf(db, after, car)
    ensures after.cars == db.cars
  {
  }

  lemma CloseStaleKeepsCars(db: Db, car: Id, now: nat)
    ensures CloseStale(db, car, now).db.cars == db.cars
  {
    hide CloseDrives, CompleteCharges, StaleDrives, StaleCharges;
    var stale := StaleDrives(db, car, now);
    ClosingLeavesCharges(db, stale);
    var mid := CloseDrives(db, stale);
    CompletingLeavesOthers(mid, car, StaleCharges(mid, car, now));
  }

  lemma TailTicks(db: Db, s: Step)
    requires s.ChargeStep? && EfficiencyUnreadable(db, s.car)
    requires ChargeTickTail(db, s.car, s.reading, s.now, s.handed).ok
    ensures Blocked(ChargeTickTail(db, s.car, s.reading, s.now, s.handed).db, s.car)
  {
    hide AddCharge, Blocked;
    var open, q := OpenCharges(db, s.car), NextId(db.processes.Keys);
    if open == map[] {
      TickBlocks(db.(processes := db.processes[q := NewProcess(s.car, s.now, s.handed)]), s.car, q, s.reading, s.now);
    } else {
      TickBlocks(db, s.car, Latest(open), s.reading, s.now);
    }
  }

  lemma TickBlocks(db: Db, car: Id, q: Id, r: Reading, now: nat)
    requires EfficiencyUnreadable(db, car) && q in OpenCharges(db, car)
    ensures Blocked(AddCharge(db, q, r, now), car)
  {
    var after, c := AddCharge(db, q, r, now), NextId(db.charges.Keys);
    assert c in ChargeRows(after, q) && q in OpenCharges(after, car);
  }

  /** A file with one car, registered by a login. */
  function OneCar(metric: Metric): Db {
    Holding(metric, map[], map[]).(cars := map[1 := Car("", None)])
  }

  /** Its first charging poll blocks it. */
  lemma TheFirstChargeBlocks(metric: Metric)
    ensures var db, s := OneCar(metric), ChargeStep(1, 0, NO_RANGE, 1);
            AllGood(db, 0) && AsWritten(db, s) && Blocked(Apply(db, s), 1)
  {
    var db, s := OneCar(metric), ChargeStep(1, 0, NO_RANGE, 1);
    BlankIsAllGood(db);
    assert NextPosition(db) == 1 by { assert db.positions.Keys == {}; }
    assert SnapshotId(db, 1, NO_RANGE, 0) == 1;
    assert OpenCharges(db, 1) == map[];
    assert OneOpen(db);
    hide Apply, SnapshotId, OneOpen, AllGood, ChargeTick;
    ChargeTickRunsWhen(db, 1, NO_RANGE, 0, 1);
    AChargingPollBlocks(db, s);
  }

  // ---------- The place (0, 0) ----------

  /** A fence around (0, 0) labels it at a rematch and not at close. */
  lemma AFenceAroundTheOrigin(metric: Metric, fence: Fence)
    requires fence.center == ORIGIN && metric(ORIGIN, ORIGIN) == 0.0 && fence.radius >= 0.0
    ensures GeofenceAt(metric, [fence], ORIGIN) == None && Nearest(metric, [fence], ORIGIN) == Some(fence.id)
  {
    assert Contains(metric, [fence][0], ORIGIN);
    assert IsNearest(metric, [fence], ORIGIN, Nearest(metric, [fence], ORIGIN));
  }

  // ---------- An old bucket that is wrong ----------

  /** Rows of hours 0 and 10; the rollup has the bucket of hour 10 only. */
  function OldHourMissing(metric: Metric): Db {
    var p := Point(0, 1, None, None).(ideal := Some(1.0));
    var positions := map[1 := p, 2 := p.(date := 36_000_000)];
    Holding(metric, positions, map[]).(hourly := map[(1, 10) := HourRow(1, 1.0, None, None)], nextHourRow := 2)
  }

  /** The catch-up at start does not see it: it starts an hour before the newest bucket. */
  lemma TheCatchUpMissesAnOldHour(metric: Metric)
    ensures !HourAgrees(OldHourMissing(metric), (1, 0)) && !RollupAgrees(CatchUp(OldHourMissing(metric)))
  {
    var db := OldHourMissing(metric);
    assert 1 in db.positions && InHour(db.positions[1], (1, 0));
    assert db.hourly.Keys == {(1, 10)};
    assert OutOfReach(db, (1, 0));
    hide CatchUp;
    CatchUpRepairs(db);
  }
}
