/** The hourly rollup agrees with its table after every step, whatever id a snapshot hands back. */
module RollupRuns {
  import opened Base
  import opened Tables
  import opened Rollup
  import opened Ledger
  import opened Compaction
  import opened Changes

  /** The ideal-range rows are the same but for the drive they are on, and the rollup was not written. */
  ghost predicate RollupUntouched(db: Db, after: Db) {
    && after.hourly == db.hourly
    && (forall p :: Ideal(db.positions, p) <==> Ideal(after.positions, p))
    && (forall p :: Ideal(db.positions, p) && Ideal(after.positions, p) ==>
          after.positions[p].(drive := None) == db.positions[p].(drive := None))
  }

  lemma UntouchedAgrees(db: Db, after: Db)
    requires RollupAgrees(db) && RollupUntouched(db, after)
    ensures RollupAgrees(after)
  {
    hide RollupAgrees;
    SamplesKept(db.positions, after.positions);
    AgreesAfterSamePositions(db, after);
  }

  lemma CloseDriveRollup(db: Db, d: Id)
    ensures RollupUntouched(db, CloseDrive(db, d))
  {
    hide TooShort, ClosedDrive;
  }

  /** Neither the positions nor the rollup changed. */
  lemma SameTablesRollup(db: Db, after: Db)
    requires RollupAgrees(db) && after.positions == db.positions && after.hourly == db.hourly
    ensures RollupAgrees(after)
  {
    hide RollupAgrees;
    UntouchedAgrees(db, after);
  }

  lemma SetDriveRollup(db: Db, p: Id, d: Id)
    ensures RollupUntouched(db, SetDrive(db, p, d))
  {
  }

  lemma ChangeRollup(db: Db, c: Change, s: Step)
    requires CanMake(db, c, s) && RollupAgrees(db)
    ensures RollupAgrees(Make(db, c, s))
  {
    hide RollupAgrees, RollupUntouched, CloseDrive, CompleteCharge, RefreshHour, SetDrive, CatchUp;
    hide SampleDue, StreamRows, StreamDrive;
    match c {
      case CloseOne(d) =>
        CloseDriveRollup(db, d);
        UntouchedAgrees(db, CloseDrive(db, d));
      case Snap => RefreshAgrees(db, NextPosition(db), SnapshotRow(s.car, s.reading, s.now));
      case File(p, d) =>
        SetDriveRollup(db, p, d);
        UntouchedAgrees(db, SetDrive(db, p, d));
      case Open(p) =>
        var d := NextId(db.drives.Keys);
        var mid := db.(drives := db.drives[d := NewDrive(s.car, s.reading, s.now, p)]);
        SameTablesRollup(db, mid);
        SetDriveRollup(mid, p, d);
        UntouchedAgrees(mid, SetDrive(mid, p, d));
      case Stream => StreamRollup(db, s.car, s.reading, s.now);
      case Regroup =>
        CatchUpIsIdempotent(db);
        SameTablesRollup(db, CatchUp(db));
      case _ => SameTablesRollup(db, Make(db, c, s));
    }
  }

  lemma StreamRollup(db: Db, car: Id, r: Reading, now: nat)
    requires RollupAgrees(db)
    ensures RollupAgrees(StreamRow(db, car, r, now))
  {
    hide RollupAgrees, SampleDue, StreamRows, StreamDrive;
    UntouchedAgrees(db, StreamRow(db, car, r, now));
  }

  /** Each step, with any handed id, keeps the rollup in agreement. */
  lemma StepRollup(db: Db, s: Step)
    requires RollupAgrees(db)
    ensures RollupAgrees(Apply(db, s))
  {
    hide RollupAgrees, CanMake, Make, Apply;
    forall d, c | CanMake(d, c, s) && RollupAgrees(d) ensures RollupAgrees(Make(d, c, s)) { ChangeRollup(d, c, s); }
    StepKeeps(d => RollupAgrees(d), db, s);
  }

  /** Over every run, `position_hourly` equals the from-scratch grouping in every state, and after a compaction: it has
      a bucket for exactly the cars and hours with rows to average, and each says what those rows say. */
  lemma {:induction false} RollupAlwaysAgrees(dbs: seq<Db>, steps: seq<Step>, k: nat)
    requires IsRun(dbs, steps) && k <= |steps| && RollupAgrees(dbs[0])
    ensures RollupAgrees(dbs[k]) && RollupAgrees(Compact(dbs[k]))
    ensures BucketsSay(dbs[k]) && BucketsSay(Compact(dbs[k]))
  {
    hide RollupAgrees, BucketsSay, Apply, Compact;
    if k > 0 {
      RollupAlwaysAgrees(dbs, steps, k - 1);
      StepRollup(dbs[k - 1], steps[k - 1]);
    }
    CompactRollup(dbs[k]);
    AgreeingRollupSays(dbs[k]);
    AgreeingRollupSays(Compact(dbs[k]));
  }

  /** Ids from 1 on have been handed out to every bucket there is. */
  predicate IdForEach(db: Db) { |db.hourly| < db.nextHourRow }

  lemma RefreshTakesAnId(db: Db, car: Id, date: nat)
    requires IdForEach(db)
    ensures IdForEach(RefreshHour(db, car, date))
  {
    hide Group, Aggregate;
    var after := RefreshHour(db, car, date);
    assert after.hourly == db.hourly || after.hourly.Keys == db.hourly.Keys + {(car, Hour(date))};
    assert |after.hourly.Keys| == |after.hourly| && |db.hourly.Keys| == |db.hourly|;
  }

  lemma CatchUpTakesIds(db: Db)
    requires IdForEach(db)
    ensures IdForEach(CatchUp(db))
  {
    hide GroupKeys, AggregateOf, ReadFrom;
    var after, rows := CatchUp(db), ReadFrom(db.positions, CatchUpFrom(db));
    assert after.hourly.Keys == db.hourly.Keys + GroupKeys(rows);
    assert |after.hourly.Keys| == |after.hourly| && |db.hourly.Keys| == |db.hourly|;
  }

  lemma ChangeKeepsIdForEach(db: Db, c: Change, s: Step)
    requires CanMake(db, c, s) && IdForEach(db)
    ensures IdForEach(Make(db, c, s))
  {
    hide CloseDrive, CompleteCharge, RefreshHour, CatchUp, SampleDue, StreamRows, StreamDrive, SnapshotRow, IdForEach;
    match c {
      case Snap =>
        var more := db.(positions := db.positions[NextPosition(db) := SnapshotRow(s.car, s.reading, s.now)]);
        SameIdForEach(db, more);
        RefreshTakesAnId(more, s.car, s.now);
      case Regroup => CatchUpTakesIds(db);
      case _ => SameIdForEach(db, Make(db, c, s));
    }
  }

  lemma SameIdForEach(db: Db, after: Db)
    requires after.hourly == db.hourly && after.nextHourRow == db.nextHourRow && IdForEach(db)
    ensures IdForEach(after)
  {
  }

  /** Over every run, restarts included, there are at least as many rowids handed out as there are buckets. */
  lemma {:induction false} EachBucketHasAnId(dbs: seq<Db>, steps: seq<Step>, k: nat)
    requires IsRun(dbs, steps) && k <= |steps| && IdForEach(dbs[0])
    ensures IdForEach(dbs[k])
  {
    hide IdForEach, Apply, CanMake, Make;
    if k > 0 {
      EachBucketHasAnId(dbs, steps, k - 1);
      var s := steps[k - 1];
      forall d, c | CanMake(d, c, s) && IdForEach(d) ensures IdForEach(Make(d, c, s)) { ChangeKeepsIdForEach(d, c, s); }
      StepKeeps(d => IdForEach(d), dbs[k - 1], s);
    }
  }
}
