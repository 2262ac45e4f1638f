/** What the rows the logger writes say, in terms of the rows they are taken from (src/logger.rs). */
module Columns {
  import opened Base
  import opened Chrono
  import opened Tables
  import opened Rollup
  import opened Fences
  import opened Ledger
  import opened Sessions
  import opened Integrity
  import opened Sweep
  import opened Roads

  // ---------- A drive and its points ----------

  /** Earlier, or as early with the smaller id. */
  predicate EarlierPoint(db: Db, p: Id, q: Id) {
    && p in db.positions && q in db.positions
    && (db.positions[p].date < db.positions[q].date || (db.positions[p].date == db.positions[q].date && p < q))
  }

  /** A column of positions that may be empty. */
  datatype Column = AnyRow | Odometer | IdealRange
  {
    predicate Has(row: Position) {
      match this
      case AnyRow => true
      case Odometer => row.odometer.Some?
      case IdealRange => row.ideal.Some?
    }
  }

  predicate PointWith(db: Db, d: Id, c: Column, p: Id) {
    p in db.positions && db.positions[p].drive == Some(d) && c.Has(db.positions[p])
  }

  ghost predicate FirstWith(db: Db, d: Id, c: Column, p: Id) {
    PointWith(db, d, c, p) && forall q :: PointWith(db, d, c, q) && q != p ==> EarlierPoint(db, p, q)
  }

  ghost predicate LastWith(db: Db, d: Id, c: Column, p: Id) {
    PointWith(db, d, c, p) && forall q :: PointWith(db, d, c, q) && q != p ==> EarlierPoint(db, q, p)
  }

  /** Two points, and ten metres from the first odometer reading to the last. */
  ghost predicate LongEnough(db: Db, d: Id) {
    && (exists p, q :: p != q && PointWith(db, d, AnyRow, p) && PointWith(db, d, AnyRow, q))
    && exists p, q :: FirstWith(db, d, Odometer, p) && LastWith(db, d, Odometer, q) &&
                      db.positions[q].odometer.value - db.positions[p].odometer.value >= 0.01
  }

  /** The ends are the first and the last point, and the length the minutes between them. */
  ghost predicate EndsSay(db: Db, d: Id, row: Drive, p: Id, q: Id) {
    && FirstWith(db, d, AnyRow, p) && LastWith(db, d, AnyRow, q) && p != q
    && row.startPos == Some(p) && row.startDate == db.positions[p].date
    && row.endPos == Some(q) && row.endDate == Some(db.positions[q].date)
    && row.durationMin.Some?
    && -30_000 <= db.positions[q].date - db.positions[p].date - row.durationMin.value * 60_000 < 30_000
  }

  /** The kilometres are those of the first and the last odometer reading. */
  ghost predicate OdometerSays(db: Db, d: Id, row: Drive, p: Id, q: Id) {
    && FirstWith(db, d, Odometer, p) && LastWith(db, d, Odometer, q)
    && row.startKm == db.positions[p].odometer && row.endKm == db.positions[q].odometer
    && row.distance == Some(db.positions[q].odometer.value - db.positions[p].odometer.value)
  }

  /** The ranges are those of the first and the last ideal range. */
  ghost predicate RangeSays(db: Db, d: Id, row: Drive) {
    if exists p :: PointWith(db, d, IdealRange, p)
    then exists p, q :: FirstWith(db, d, IdealRange, p) && LastWith(db, d, IdealRange, q) &&
           row.startIdeal == db.positions[p].ideal && row.endIdeal == db.positions[q].ideal
    else row.startIdeal == None && row.endIdeal == None
  }

  ghost predicate DriveSays(db: Db, d: Id) {
    && d in db.drives
    && (exists p, q :: EndsSay(db, d, db.drives[d], p, q)) && (exists p, q :: OdometerSays(db, d, db.drives[d], p, q))
    && RangeSays(db, d, db.drives[d])
  }

  lemma RowsAreFirst(db: Db, d: Id)
    ensures var rows := DriveRows(db, d); rows != map[] ==>
              FirstWith(db, d, AnyRow, Earliest(rows)) && LastWith(db, d, AnyRow, Latest(rows))
    ensures var rows := OdometerRows(db, d); rows != map[] ==>
              FirstWith(db, d, Odometer, Earliest(rows)) && LastWith(db, d, Odometer, Latest(rows))
    ensures var rows := IdealRows(db, d); rows != map[] ==>
              FirstWith(db, d, IdealRange, Earliest(rows)) && LastWith(db, d, IdealRange, Latest(rows))
  {
    RowsAreWith(db, d);
    FirstOfRows(db, d, AnyRow, DriveRows(db, d));
    FirstOfRows(db, d, Odometer, OdometerRows(db, d));
    FirstOfRows(db, d, IdealRange, IdealRows(db, d));
  }

  lemma RowsAreWith(db: Db, d: Id)
    ensures forall p :: (p in DriveRows(db, d) <==> PointWith(db, d, AnyRow, p)) &&
                        (p in OdometerRows(db, d) <==> PointWith(db, d, Odometer, p)) &&
                        (p in IdealRows(db, d) <==> PointWith(db, d, IdealRange, p))
    ensures forall p :: p in DriveRows(db, d) ==> DriveRows(db, d)[p] == db.positions[p].date
    ensures forall p :: p in OdometerRows(db, d) ==> OdometerRows(db, d)[p] == db.positions[p].date
    ensures forall p :: p in IdealRows(db, d) ==> IdealRows(db, d)[p] == db.positions[p].date
  {
  }

  lemma FirstOfRows(db: Db, d: Id, c: Column, rows: Dates)
    requires forall p :: p in rows <==> PointWith(db, d, c, p)
    requires forall p :: p in rows ==> p in db.positions && rows[p] == db.positions[p].date
    ensures rows != map[] ==> FirstWith(db, d, c, Earliest(rows)) && LastWith(db, d, c, Latest(rows))
  {
    if rows != map[] {
      var first, last := Earliest(rows), Latest(rows);
      forall q | PointWith(db, d, c, q) && q != first ensures EarlierPoint(db, first, q) {
        assert Before(rows, first, q);
      }
      forall q | PointWith(db, d, c, q) && q != last ensures EarlierPoint(db, q, last) {
        assert Before(rows, q, last);
      }
    }
  }

  lemma TwoPoints(rows: Dates)
    ensures |rows| >= 2 <==> exists p, q :: p in rows && q in rows && p != q
  {
    assert |rows| == |rows.Keys|;
    if p, q :| p in rows && q in rows && p != q {
      assert |{p, q}| == 2 && {p, q} <= rows.Keys;
      SubsetSize({p, q}, rows.Keys);
    }
    if |rows| >= 2 {
      var p :| p in rows.Keys;
      assert |rows.Keys - {p}| >= 1;
      var q :| q in rows.Keys - {p};
      assert q in rows;
    }
  }

  lemma EndsDiffer(rows: Dates)
    requires |rows| >= 2
    ensures rows != map[] && Earliest(rows) != Latest(rows)
  {
    TwoPoints(rows);
    var a, b :| a in rows && b in rows && a != b;
    var first, last := Earliest(rows), Latest(rows);
    var j := if a != first then a else b;
    assert Before(rows, first, j) && (j == last || Before(rows, j, last));
  }

  lemma {:induction false} SubsetSize(a: set<Id>, b: set<Id>)
    requires a <= b
    ensures |a| <= |b|
    decreases |a|
  {
    if a != {} {
      var x :| x in a;
      SubsetSize(a - {x}, b - {x});
    }
  }

  lemma OneFirst(db: Db, d: Id, c: Column, p: Id, q: Id)
    ensures FirstWith(db, d, c, p) && FirstWith(db, d, c, q) ==> p == q
    ensures LastWith(db, d, c, p) && LastWith(db, d, c, q) ==> p == q
  {
  }

  /** Closing keeps a drive exactly when it is long enough. */
  lemma LongEnoughIsKept(db: Db, d: Id)
    ensures LongEnough(db, d) <==> !TooShort(db, d)
  {
    RowsAreFirst(db, d);
    RowsAreWith(db, d);
    TwoPoints(DriveRows(db, d));
    var rows := OdometerRows(db, d);
    if rows != map[] {
      forall p, q | FirstWith(db, d, Odometer, p) && LastWith(db, d, Odometer, q)
        ensures p == Earliest(rows) && q == Latest(rows)
      {
        OneFirst(db, d, Odometer, p, Earliest(rows));
        OneFirst(db, d, Odometer, q, Latest(rows));
      }
    }
  }

  /** The facts of a closed drive, point by point. */
  lemma FactsSay(db: Db, d: Id)
    requires d in db.drives && DriveFacts(db, d)
    ensures DriveSays(db, d)
  {
    RowsAreFirst(db, d);
    RowsAreWith(db, d);
    var rows, km, row := DriveRows(db, d), OdometerRows(db, d), db.drives[d];
    TwoPoints(rows);
    var p, q := Earliest(rows), Latest(rows);
    EndsDiffer(rows);
    assert EndsSay(db, d, row, p, q);
    assert OdometerSays(db, d, row, Earliest(km), Latest(km));
  }

  /** The points of a drive dropped are on no drive, and the others as they were. */
  predicate Freed(db: Db, after: Db, d: Id) {
    && after.positions.Keys == db.positions.Keys
    && forall p :: p in db.positions && p in after.positions ==>
         if db.positions[p].drive == Some(d) then after.positions[p] == db.positions[p].(drive := None)
         else after.positions[p] == db.positions[p]
  }

  /** Closing an open drive keeps it exactly when it is long enough, and then it says what its points say; else its
      points are on no drive. Points, other drives and all other tables stay. */
  lemma CloseDriveSays(db: Db, d: Id)
    requires d in db.drives && db.drives[d].endDate.None?
    ensures var after := CloseDrive(db, d);
            && (LongEnough(db, d) ==> DriveSays(after, d) && after.positions == db.positions)
            && (!LongEnough(db, d) ==> d !in after.drives && Freed(db, after, d))
            && (forall e :: e in db.drives && e != d ==> e in after.drives && after.drives[e] == db.drives[e])
            && after == db.(positions := after.positions, drives := after.drives)
  {
    hide DriveSays, LongEnough, TooShort, ClosedDrive;
    LongEnoughIsKept(db, d);
    if LongEnough(db, d) {
      ClosedDriveHasFacts(db, d);
      hide DriveFacts;
      FactsSay(CloseDrive(db, d), d);
    }
  }

  /** Over every run: a drive closed along the way says what its points say, as long as no poll takes a point off a
      drive that is closed by then. */
  lemma ClosedDrivesSay(dbs: seq<Db>, steps: seq<Step>, j: nat, k: nat, d: Id)
    requires IsRun(dbs, steps) && j <= k <= |steps|
    requires forall i :: j <= i < k ==> !TakesPoint(dbs[i], steps[i])
    requires !IsClosedDrive(dbs[j], d) && IsClosedDrive(dbs[k], d)
    ensures DriveSays(dbs[k], d)
  {
    hide DriveFacts, TakesPoint, Apply, DriveSays;
    ClosedDrivesKeepTheirFacts(dbs, steps, j, k);
    FactsSay(dbs[k], d);
  }

  // ---------- A charge and its ticks ----------

  predicate EarlierTick(db: Db, c: Id, t: Id) {
    && c in db.charges && t in db.charges
    && (db.charges[c].date < db.charges[t].date || (db.charges[c].date == db.charges[t].date && c < t))
  }

  /** A tick of the charge; with a rated range when `rated` says so. */
  predicate TickWith(db: Db, p: Id, rated: bool, c: Id) {
    c in db.charges && db.charges[c].process == p && (rated ==> db.charges[c].rated.Some?)
  }

  ghost predicate FirstTick(db: Db, p: Id, rated: bool, c: Id) {
    TickWith(db, p, rated, c) && forall t :: TickWith(db, p, rated, t) && t != c ==> EarlierTick(db, c, t)
  }

  ghost predicate LastTick(db: Db, p: Id, rated: bool, c: Id) {
    TickWith(db, p, rated, c) && forall t :: TickWith(db, p, rated, t) && t != c ==> EarlierTick(db, t, c)
  }

  /** It ends with its last tick, lasts from its first, and added the most any tick reads. */
  ghost predicate TicksSay(db: Db, p: Id, row: Process, c: Id, t: Id) {
    && FirstTick(db, p, false, c) && LastTick(db, p, false, t)
    && row.endDate == Some(db.charges[t].date) && row.durationMin.Some?
    && -30_000 <= db.charges[t].date - db.charges[c].date - row.durationMin.value * 60_000 < 30_000
    && row.added.Some? && (exists m :: TickWith(db, p, false, m) && db.charges[m].energy == row.added.value)
    && forall m :: TickWith(db, p, false, m) ==> db.charges[m].energy <= row.added.value
  }

  /** The rated range it gained, from the first tick with one to the last. */
  ghost predicate Gained(db: Db, p: Id, km: real) {
    exists c, t :: FirstTick(db, p, true, c) && LastTick(db, p, true, t) &&
                   km == db.charges[t].rated.value - db.charges[c].rated.value
  }

  /** What it used: the range gained times the efficiency, when both are positive; else what stood there. */
  ghost predicate UsedSays(db: Db, car: Id, p: Id, was: Option<real>, used: Option<real>) {
    if car in db.cars && db.cars[car].efficiency.Some? && db.cars[car].efficiency.value > 0.0 &&
       exists km :: Gained(db, p, km) && km > 0.0
    then exists km :: Gained(db, p, km) && km > 0.0 && used.Some? && used.value == km * db.cars[car].efficiency.value
    else used == was
  }

  lemma TicksAreWith(db: Db, p: Id)
    ensures var rows := ChargeRows(db, p); rows != map[] ==>
              FirstTick(db, p, false, Earliest(rows)) && LastTick(db, p, false, Latest(rows))
    ensures var rows := RatedRows(db, p); rows != map[] ==>
              FirstTick(db, p, true, Earliest(rows)) && LastTick(db, p, true, Latest(rows))
    ensures forall c :: (c in ChargeRows(db, p) <==> TickWith(db, p, false, c)) &&
                        (c in RatedRows(db, p) <==> TickWith(db, p, true, c))
  {
    FirstOfTicks(db, p, false, ChargeRows(db, p));
    FirstOfTicks(db, p, true, RatedRows(db, p));
  }

  lemma FirstOfTicks(db: Db, p: Id, rated: bool, rows: Dates)
    requires forall c :: c in rows <==> TickWith(db, p, rated, c)
    requires forall c :: c in rows ==> c in db.charges && rows[c] == db.charges[c].date
    ensures rows != map[] ==> FirstTick(db, p, rated, Earliest(rows)) && LastTick(db, p, rated, Latest(rows))
  {
    if rows != map[] {
      var first, last := Earliest(rows), Latest(rows);
      forall t | TickWith(db, p, rated, t) && t != first ensures EarlierTick(db, first, t) {
        assert Before(rows, first, t);
      }
      forall t | TickWith(db, p, rated, t) && t != last ensures EarlierTick(db, t, last) {
        assert Before(rows, t, last);
      }
    }
  }

  /** The energy used, with the gain from the first rated tick to the last. */
  lemma EnergyIsGain(db: Db, car: Id, p: Id, gain: real)
    requires RatedRows(db, p) != map[]
    requires var rows := RatedRows(db, p);
      gain == db.charges[Latest(rows)].rated.value - db.charges[Earliest(rows)].rated.value
    ensures EnergyUsed(db, car, p).Some? <==>
            car in db.cars && db.cars[car].efficiency.Some? && db.cars[car].efficiency.value > 0.0 && gain > 0.0
    ensures EnergyUsed(db, car, p).Some? ==>
            EnergyUsed(db, car, p).value == gain * db.cars[car].efficiency.value
  {
    var rows := RatedRows(db, p);
    if EnergyUsed(db, car, p).Some? {
      GainTimes(db.charges[Earliest(rows)].rated.value, db.charges[Latest(rows)].rated.value,
                db.cars[car].efficiency.value, gain);
    }
  }

  lemma UsedIsGained(db: Db, car: Id, p: Id, was: Option<real>)
    ensures UsedSays(db, car, p, was, if EnergyUsed(db, car, p).Some? then EnergyUsed(db, car, p) else was)
  {
    TicksAreWith(db, p);
    var rows := RatedRows(db, p);
    if rows != map[] {
      var gain := db.charges[Latest(rows)].rated.value - db.charges[Earliest(rows)].rated.value;
      assert Gained(db, p, gain);
      EnergyIsGain(db, car, p, gain);
      forall km | Gained(db, p, km) ensures km == gain { OneGain(db, p, km, gain); }
      hide EnergyUsed, Gained;
      assert EnergyUsed(db, car, p).Some? ==> UsedSays(db, car, p, was, EnergyUsed(db, car, p));
    }
  }

  lemma GainTimes(start: real, end: real, efficiency: real, gain: real)
    requires gain == end - start && gain > 0.0 && efficiency > 0.0
    ensures RangeEnergy(start, end, efficiency).Some?
    ensures RangeEnergy(start, end, efficiency).value == gain * efficiency
  {
    assert gain * efficiency == (end - start) * efficiency;
  }

  lemma OneGain(db: Db, p: Id, a: real, b: real)
    requires Gained(db, p, a) && Gained(db, p, b)
    ensures a == b
  {
  }

  /** Completing a charge with ticks of a car whose efficiency can be read: it says what its ticks say; its car, start
      and point stay, and so do the other charges, the ticks and the invoices. */
  lemma CompleteChargeSays(db: Db, car: Id, p: Id)
    requires p in db.processes && (exists c :: TickWith(db, p, false, c)) && !EfficiencyUnreadable(db, car)
    ensures var after := CompleteCharge(db, car, p).db;
            && p in after.processes && (exists c, t :: TicksSay(db, p, after.processes[p], c, t))
            && UsedSays(db, car, p, db.processes[p].used, after.processes[p].used)
            && SameOrigin(after.processes[p], db.processes[p])
            && after.charges == db.charges && after.invoices == db.invoices
            && forall q :: q in db.processes && q != p ==> q in after.processes && after.processes[q] == db.processes[q]
  {
    hide MaxEnergy, Minutes, EnergyUsed, UsedSays;
    TicksAreWith(db, p);
    var rows := ChargeRows(db, p);
    assert rows != map[];
    var c, t, row := Earliest(rows), Latest(rows), CompletedProcess(db, car, p);
    UsedIsGained(db, car, p, db.processes[p].used);
    MaxIsATick(db, p);
    CompletedIs(db, car, p);
    assert TicksSay(db, p, CompleteCharge(db, car, p).db.processes[p], c, t);
  }

  lemma MaxIsATick(db: Db, p: Id)
    requires ChargeRows(db, p) != map[]
    ensures var most := MaxEnergy(db, ChargeRows(db, p));
            && (exists m :: TickWith(db, p, false, m) && db.charges[m].energy == most)
            && forall m :: TickWith(db, p, false, m) ==> db.charges[m].energy <= most
  {
    hide MaxEnergy;
    var rows := ChargeRows(db, p);
    var m :| m in rows && db.charges[m].energy == MaxEnergy(db, rows);
    assert TickWith(db, p, false, m);
  }

  lemma CompletedIs(db: Db, car: Id, p: Id)
    requires p in db.processes && ChargeRows(db, p) != map[] && !EfficiencyUnreadable(db, car)
    ensures var after := CompleteCharge(db, car, p).db;
            && p in after.processes && after.charges == db.charges && after.positions == db.positions
            && after.processes[p].(fence := None, cost := None) ==
               CompletedProcess(db, car, p).(fence := None, cost := None)
  {
    hide CompletedProcess, PriceCharge;
  }

  /** A charge without ticks goes, and of the invoices only links to it. */
  lemma EmptyChargeGoes(db: Db, car: Id, p: Id)
    requires forall c :: !TickWith(db, p, false, c)
    ensures var step := CompleteCharge(db, car, p);
            && step.ok && step.db == db.(processes := db.processes - {p}, invoices := step.db.invoices)
            && step.db.invoices.Keys == db.invoices.Keys
            && forall s :: s in db.invoices && s in step.db.invoices ==>
                 if db.invoices[s].process == Some(p) then step.db.invoices[s] == db.invoices[s].(process := None)
                 else step.db.invoices[s] == db.invoices[s]
  {
    TicksAreWith(db, p);
    assert ChargeRows(db, p) == map[];
  }

  // ---------- The rows of polls and of the stream ----------

  /** The row says what was read, when and of which car. */
  ghost predicate RowSays(row: Position, car: Id, r: Reading, now: nat, drive: Option<Id>, ideal: Option<real>) {
    && row.date == now && row.car == car && row.drive == drive && row.place == r.place
    && row.odometer == r.odometer && row.battery == r.battery && row.ideal == ideal
  }

  /** The table has one more row, with the greatest id; the others are as they were. */
  ghost predicate OneMoreRow(db: Db, after: Db, k: Id) {
    && k !in db.positions && k in after.positions && after.positions == db.positions[k := after.positions[k]]
    && forall p :: p in db.positions ==> p < k
  }

  lemma SnapshotSays(db: Db, car: Id, r: Reading, now: nat)
    ensures var after := Snapshot(db, car, r, now);
            && OneMoreRow(db, after, NextPosition(db))
            && RowSays(after.positions[NextPosition(db)], car, r, now, None, r.ideal)
  {
    hide RefreshHour;
  }

  /** In an hour without other ranged rows of the car, the bucket is the reading itself. */
  lemma OnePollHour(db: Db, car: Id, r: Reading, now: nat)
    requires r.ideal.Some? && forall p :: p in db.positions ==> !OfHour(db.positions[p], car, now / 3_600_000)
    ensures var after := Snapshot(db, car, r, now).hourly;
            && (car, now / 3_600_000) in after
            && after[(car, now / 3_600_000)] == HourRow(1, r.ideal.value, r.battery, r.odometer)
  {
    var hour, k, row := now / 3_600_000, NextPosition(db), SnapshotRow(car, r, now);
    var more := db.positions[k := row];
    HourOfDate(now, hour);
    assert k in more && OfHour(more[k], car, hour);
    hide RefreshHour, OfHour, BucketSays, NextId;
    RefreshedSays(db.(positions := more), car, now);
    LoneBucket(db.positions, k, row, car, hour, Snapshot(db, car, r, now).hourly[(car, hour)]);
  }

  lemma LoneBucket(positions: map<Id, Position>, k: Id, row: Position, car: Id, hour: nat, bucket: HourRow)
    requires k !in positions && OfHour(row, car, hour) && BucketSays(positions[k := row], car, hour, bucket)
    requires forall p :: p in positions ==> !OfHour(positions[p], car, hour)
    ensures bucket == HourRow(1, row.ideal.value, row.battery, row.odometer)
  {
    hide IsMean;
    var more := positions[k := row];
    assert IdealColumn(more, car, hour) == map[k := row.ideal.value];
    assert BatteryColumn(more, car, hour) == if row.battery.Some? then map[k := row.battery.value] else map[];
    assert OdometerColumn(more, car, hour) == if row.odometer.Some? then map[k := row.odometer.value] else map[];
    OneValue(k, row.ideal.value, Some(bucket.ideal));
    if row.battery.Some? { OneValue(k, row.battery.value, bucket.battery); } else { NoValue(bucket.battery); }
    if row.odometer.Some? { OneValue(k, row.odometer.value, bucket.odometer); } else { NoValue(bucket.odometer); }
  }

  lemma NoValue(mean: Option<real>)
    requires IsMean(map[], mean)
    ensures mean == None
  {
  }

  lemma OneValue(k: Id, value: real, mean: Option<real>)
    requires IsMean(map[k := value], mean)
    ensures mean == Some(value) && |map[k := value]| == 1
  {
    assert k in map[k := value];
  }

  predicate OpenOf(db: Db, car: Id, d: Id) {
    d in db.drives && db.drives[d].car == car && db.drives[d].endDate.None?
  }

  /** The open drive with the greatest id, or none without one. */
  ghost predicate StreamsTo(db: Db, car: Id, to: Option<Id>) {
    match to
    case Some(d) => OpenOf(db, car, d) && forall e: Id :: OpenOf(db, car, e) ==> e <= d
    case None => forall e: Id :: !OpenOf(db, car, e)
  }

  /** The rows a streamed row is kept apart from: the drive's, or the car's on no drive. */
  predicate Neighbour(db: Db, car: Id, to: Option<Id>, p: Id) {
    p in db.positions && db.positions[p].drive == to && (to.None? ==> db.positions[p].car == car)
  }

  /** A streamed row is stored exactly when every such row is at least five seconds older, in whole seconds, and then it
      says what was streamed, without a range, on that drive. */
  lemma StreamSays(db: Db, car: Id, r: Reading, now: nat, to: Option<Id>)
    requires StreamsTo(db, car, to)
    ensures var after := StreamRow(db, car, r, now);
            if forall p :: Neighbour(db, car, to, p) ==> db.positions[p].date / 1000 + 5 <= now / 1000
            then OneMoreRow(db, after, NextPosition(db)) && after == db.(positions := after.positions) &&
                 RowSays(after.positions[NextPosition(db)], car, r, now, to, None)
            else after == db
  {
    StreamsToIs(db, car, to);
    var rows := StreamRows(db, car);
    assert forall p :: p in rows <==> Neighbour(db, car, to, p);
    assert forall p :: p in rows ==> rows[p] == db.positions[p].date;
    DueWhenAllAreOld(rows, now);
    hide SampleDue, StreamRows, StreamDrive;
  }

  lemma DueWhenAllAreOld(rows: Dates, now: nat)
    ensures SampleDue(rows, now) <==> forall p :: p in rows ==> rows[p] / 1000 + 5 <= now / 1000
  {
    if rows != map[] {
      var last := Latest(rows);
      forall p | p in rows ensures rows[p] / 1000 <= rows[last] / 1000 {
        assert p != last ==> Before(rows, p, last);
      }
    }
  }

  lemma StreamsToIs(db: Db, car: Id, to: Option<Id>)
    requires StreamsTo(db, car, to)
    ensures StreamDrive(db, car) == to
  {
    var open := OpenDrives(db, car);
    assert forall d :: d in open.Keys <==> OpenOf(db, car, d);
  }

  // ---------- Sessions that open ----------

  /** A drive opened says what the reading says, from now on, at the point it is opened with. */
  lemma OpenDriveSays(db: Db, car: Id, r: Reading, now: nat, p: Id)
    requires p in db.positions
    ensures var after, d := OpenDrive(db, car, r, now, p), NextId(db.drives.Keys);
            && d !in db.drives && OpenOf(after, car, d) && after.drives == db.drives[d := after.drives[d]]
            && after.drives[d].startDate == now && after.drives[d].startPos == Some(p)
            && after.drives[d].startKm == r.odometer && after.drives[d].startIdeal == r.ideal
            && after.positions == db.positions[p := db.positions[p].(drive := Some(d))]
  {
  }

  /** A charging poll adds one tick, with the energy and the range it reads, to the open charge; that charge shows the
      energy of its last reading, and one that begins starts now, at the point it is handed. */
  lemma ChargeShowsEnergy(db: Db, car: Id, r: Reading, now: nat, handed: Id)
    requires ChargeTickTail(db, car, r, now, handed).ok
    ensures var after := ChargeTickTail(db, car, r, now, handed).db;
            exists q, c :: q in OpenCharges(after, car) && TickSays(db, after, q, c, r, now) &&
              (q in db.processes || (after.processes[q].startDate == now && after.processes[q].position == handed))
  {
    var open := OpenCharges(db, car);
    var q := if open != map[] then Latest(open) else NextId(db.processes.Keys);
    var after := ChargeTickTail(db, car, r, now, handed).db;
    assert q in OpenCharges(after, car) && TickSays(db, after, q, NextId(db.charges.Keys), r, now);
  }

  ghost predicate TickSays(db: Db, after: Db, q: Id, c: Id, r: Reading, now: nat) {
    var energy := if r.energy.Some? then r.energy.value else 0.0;
    && c !in db.charges && (forall t :: t in db.charges ==> t < c)
    && after.charges == db.charges[c := Charge(q, now, energy, r.rated)]
    && q in after.processes && after.processes[q].added == Some(energy)
  }

  ghost predicate StartedLast(db: Db, car: Id, d: Id) {
    OpenOf(db, car, d) && forall e :: OpenOf(db, car, e) ==> db.drives[e].startDate <= db.drives[d].startDate
  }

  /** The point of a parked poll joins the open drive that started last, exactly when it is on none and some open drive
      of the car has a point at most fifteen minutes old; nothing else changes. */
  lemma AttachSays(db: Db, car: Id, p: Id, now: nat)
    ensures var after := AttachRecent(db, car, p, now);
            if p in db.positions && db.positions[p].drive.None? &&
               exists q, d :: OpenOf(db, car, d) && OnDrive(db, q, d) && Recent(db.positions[q].date, now)
            then exists d :: StartedLast(db, car, d) &&
                   after == db.(positions := db.positions[p := db.positions[p].(drive := Some(d))])
            else after == db
  {
    var open := OpenDrives(db, car);
    assert forall d :: d in open <==> OpenOf(db, car, d);
    forall q | q in db.positions ensures IsStale(db.positions[q].date, now) <==> !Recent(db.positions[q].date, now) {
      StaleIsNotRecent(db.positions[q].date, now);
    }
    if q, d :| OpenOf(db, car, d) && OnDrive(db, q, d) && Recent(db.positions[q].date, now) {
      assert db.positions[q].drive.value in open;
      assert HasRecentPoint(db, car, now);
      var last := Latest(open);
      forall e | OpenOf(db, car, e) ensures db.drives[e].startDate <= db.drives[last].startDate {
        assert e != last ==> Before(open, e, last);
      }
      assert StartedLast(db, car, last);
    } else {
      forall q | q in db.positions && db.positions[q].drive.Some? && db.positions[q].drive.value in open
        ensures IsStale(db.positions[q].date, now)
      {
        assert OnDrive(db, q, db.positions[q].drive.value);
      }
    }
  }

  // ---------- The poll that ends a drive ----------

  /** If the drive is kept, the row `p` from `now` is its last point and it ends there. */
  ghost predicate EndsWith(after: Db, d: Id, p: Id, now: nat) {
    d in after.drives ==>
      OnDrive(after, p, d) && after.drives[d].endPos == Some(p) && after.drives[d].endDate == Some(now)
  }

  /** `p`, from `now`, is the last row there is, and it is on `d`, the one open drive of the car. */
  ghost predicate JustJoined(db: Db, car: Id, d: Id, p: Id, now: nat) {
    && OnDrive(db, p, d) && db.positions[p].date == now
    && (forall q :: q in db.positions ==> q <= p && db.positions[q].date <= now)
    && forall e :: e in OpenDrives(db, car) <==> e == d
  }

  lemma PointJoins(db: Db, car: Id, r: Reading, now: nat, d: Id)
    requires Steady(db, now) && OpenOf(db, car, d)
    requires exists q :: OnDrive(db, q, d) && Recent(db.positions[q].date, now)
    ensures var p := NextPosition(db);
            JustJoined(AttachRecent(Snapshot(db, car, r, now), car, p, now), car, d, p, now)
  {
    hide Recent, AttachRecent, Snapshot;
    var p, snap := NextPosition(db), Snapshot(db, car, r, now);
    assert snap.drives == db.drives && p !in db.positions;
    assert snap.positions == db.positions[p := SnapshotRow(car, r, now)];
    SnapshotSays(db, car, r, now);
    var q :| OnDrive(db, q, d) && Recent(db.positions[q].date, now);
    assert OpenOf(snap, car, d) && OnDrive(snap, q, d) && Recent(snap.positions[q].date, now);
    forall e | OpenOf(snap, car, e) ensures e == d {
      assert IsOpen(db, OnRoad(e)) && IsOpen(db, OnRoad(d));
    }
    assert snap.positions[p].drive.None? && snap.positions[p].date == now;
    AttachSays(snap, car, p, now);
    var mid := AttachRecent(snap, car, p, now);
    assert mid == snap.(positions := snap.positions[p := snap.positions[p].(drive := Some(d))]);
    assert forall e :: e in OpenDrives(mid, car) <==> OpenOf(snap, car, e);
    forall k | k in db.positions ensures db.positions[k].date <= now && k <= p {
      assert PositionOk(db, now, k);
    }
  }

  lemma LastPointEnds(db: Db, car: Id, d: Id, p: Id, now: nat)
    requires JustJoined(db, car, d, p, now)
    ensures EndsWith(CloseOpenDrives(db, car), d, p, now)
  {
    hide ClosedDrive, TooShort;
    var open := OpenDrives(db, car);
    assert open.Keys == {d} && Earliest(open) == d && open - {d} == map[];
    assert CloseDrives(CloseDrive(db, d), open - {d}) == CloseDrive(db, d);
    if !TooShort(db, d) { ClosedAtLast(db, d, p, now); }
  }

  lemma ClosedAtLast(db: Db, d: Id, p: Id, now: nat)
    requires d in db.drives && OnDrive(db, p, d) && db.positions[p].date == now
    requires forall q :: q in db.positions ==> q <= p && db.positions[q].date <= now
    ensures p in DriveRows(db, d)
    ensures ClosedDrive(db, d).endPos == Some(p) && ClosedDrive(db, d).endDate == Some(now)
  {
    var rows := DriveRows(db, d);
    assert p in rows && Latest(rows) != p ==> Before(rows, p, Latest(rows));
  }

  lemma EndStays(db: Db, after: Db, d: Id, p: Id, now: nat)
    requires after.positions == db.positions && after.drives == db.drives && EndsWith(db, d, p, now)
    ensures EndsWith(after, d, p, now)
  {
  }

  /** A parked or charging poll that goes on with its own row ends the open drive with that row, when the drive has a
      point at most fifteen minutes old. */
  lemma ParkingEndsTheDrive(db: Db, car: Id, r: Reading, now: nat, d: Id)
    requires Steady(db, now) && OpenOf(db, car, d)
    requires exists q :: OnDrive(db, q, d) && Recent(db.positions[q].date, now)
    ensures EndsWith(IdleTick(db, car, r, now, NextPosition(db)).db, d, NextPosition(db), now)
    ensures EndsWith(ChargeTick(db, car, r, now, NextPosition(db)).db, d, NextPosition(db), now)
  {
    hide Steady, OneOpen, CloseOpenDrives, CompleteOpenCharges, CloseStale, EndsWith, JustJoined;
    hide Snapshot, AttachRecent, OpenDrives;
    var p := NextPosition(db);
    var mid := AttachRecent(Snapshot(db, car, r, now), car, p, now);
    PointJoins(db, car, r, now, d);
    LastPointEnds(mid, car, d, p, now);
    var closed := CloseOpenDrives(mid, car);
    CompletingOpenLeavesOthers(closed, car);
    EndStays(closed, CompleteOpenCharges(closed, car).db, d, p, now);
    CloseOpenDrivesCloses(mid, car);
    NothingToSweep(closed, car, now);
    var swept := CloseStale(closed, car, now);
    EndStays(closed, swept.db, d, p, now);
    if swept.ok { EndStays(swept.db, ChargeTickTail(swept.db, car, r, now, p).db, d, p, now); }
  }

  lemma NothingToSweep(db: Db, car: Id, now: nat)
    requires OpenDrives(db, car) == map[]
    ensures var after := CloseStale(db, car, now).db; after.positions == db.positions && after.drives == db.drives
  {
    assert StaleDrives(db, car, now) == map[];
    CompletingLeavesOthers(db, car, StaleCharges(db, car, now));
  }
}
