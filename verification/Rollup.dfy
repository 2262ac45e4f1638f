/** The hourly rollup of ideal-range positions (src/db.rs). */
module Rollup {
  import opened Base
  import opened Tables

  /** The columns of an ideal-range position that an hour averages. */
  datatype Sample = Sample(ideal: real, battery: Option<real>, odometer: Option<real>)

  predicate InHour(p: Position, key: HourKey) {
    p.ideal.Some? && p.car == key.0 && Hour(p.date) == key.1
  }

  /** One group of the `GROUP BY car_id, hour`. */
  function Group(positions: map<Id, Position>, key: HourKey): map<Id, Sample> {
    map p | p in positions && InHour(positions[p], key) ::
      Sample(positions[p].ideal.value, positions[p].battery, positions[p].odometer)
  }

  function Sum(column: map<Id, real>): real {
    if column == map[] then 0.0 else
      var k := MaxId(column.Keys);
      column[k] + Sum(column - {k})
  }

  function Average(column: map<Id, real>): Option<real> {
    if column == map[] then None else Some(Sum(column) / (|column| as real))
  }

  function Ideals(group: map<Id, Sample>): map<Id, real> {
    map p | p in group :: group[p].ideal
  }

  function Batteries(group: map<Id, Sample>): map<Id, real> {
    map p | p in group && group[p].battery.Some? :: group[p].battery.value
  }

  function Odometers(group: map<Id, Sample>): map<Id, real> {
    map p | p in group && group[p].odometer.Some? :: group[p].odometer.value
  }

  function Aggregate(group: map<Id, Sample>): HourRow
    requires group != map[]
  {
    assert Ideals(group).Keys == group.Keys;
    HourRow(|group|, Average(Ideals(group)).value, Average(Batteries(group)), Average(Odometers(group)))
  }

  /** The keys a from-scratch `GROUP BY` produces. */
  ghost predicate IsGroup(positions: map<Id, Position>, key: HourKey) {
    exists p :: p in positions && InHour(positions[p], key)
  }

  /** `position_hourly` holds exactly what grouping the whole table afresh would give for `key`. */
  ghost predicate HourAgrees(db: Db, key: HourKey) {
    if IsGroup(db.positions, key)
    then key in db.hourly && Group(db.positions, key) != map[] &&
         db.hourly[key] == Aggregate(Group(db.positions, key))
    else key !in db.hourly
  }

  ghost predicate RollupAgrees(db: Db) {
    forall key: HourKey :: HourAgrees(db, key)
  }

  /** Rebuild the bucket of one car and hour: `INSERT OR REPLACE` of at most one row. */
  function RefreshHour(db: Db, car: Id, date: nat): (after: Db)
    ensures after == db.(hourly := after.hourly, nextHourRow := after.nextHourRow)
  {
    var key := (car, Hour(date));
    var group := Group(db.positions, key);
    if group == map[] then db
    else db.(hourly := db.hourly[key := Aggregate(group)], nextHourRow := db.nextHourRow + 1)
  }

  lemma GroupIsEmpty(positions: map<Id, Position>, key: HourKey)
    ensures Group(positions, key) == map[] <==> !IsGroup(positions, key)
  {
    if exists p :: p in positions && InHour(positions[p], key) {
      var p :| p in positions && InHour(positions[p], key);
      assert p in Group(positions, key);
    }
  }

  /** Changing positions without touching the columns of an ideal-range row leaves every hour alone. */
  ghost predicate SameSamples(a: map<Id, Position>, b: map<Id, Position>) {
    forall key: HourKey :: Group(a, key) == Group(b, key)
  }

  ghost predicate Ideal(positions: map<Id, Position>, p: Id) {
    p in positions && positions[p].ideal.Some?
  }

  lemma SamplesKept(a: map<Id, Position>, b: map<Id, Position>)
    requires forall p :: Ideal(a, p) <==> Ideal(b, p)
    requires forall p :: Ideal(a, p) && Ideal(b, p) ==> b[p].(drive := None) == a[p].(drive := None)
    ensures SameSamples(a, b)
  {
    forall key: HourKey ensures Group(a, key) == Group(b, key) {
      forall p ensures p in Group(a, key) <==> p in Group(b, key) {
        if Ideal(a, p) { assert b[p].(drive := None) == a[p].(drive := None); }
        assert p in Group(a, key) <==> Ideal(a, p) && InHour(a[p], key);
        assert p in Group(b, key) <==> Ideal(b, p) && InHour(b[p], key);
      }
      forall p | p in Group(a, key) ensures Group(a, key)[p] == Group(b, key)[p] {
        assert Ideal(a, p) && b[p].(drive := None) == a[p].(drive := None);
      }
    }
  }

  lemma AgreesAfterSamePositions(db: Db, after: Db)
    requires RollupAgrees(db) && SameSamples(db.positions, after.positions) && after.hourly == db.hourly
    ensures RollupAgrees(after)
  {
    forall key: HourKey ensures HourAgrees(after, key) {
      GroupIsEmpty(db.positions, key);
      GroupIsEmpty(after.positions, key);
      assert HourAgrees(db, key);
    }
  }

  lemma GroupAfterInsert(positions: map<Id, Position>, id: Id, p: Position, key: HourKey)
    requires id !in positions && !InHour(p, key)
    ensures Group(positions[id := p], key) == Group(positions, key)
  {
  }

  /** Inserting a row and refreshing its hour keeps the rollup in agreement. */
  lemma RefreshAgrees(db: Db, id: Id, p: Position)
    requires RollupAgrees(db) && id !in db.positions
    ensures RollupAgrees(RefreshHour(db.(positions := db.positions[id := p]), p.car, p.date))
  {
    hide Aggregate;
    var more := db.positions[id := p];
    var after := RefreshHour(db.(positions := more), p.car, p.date);
    forall key: HourKey ensures HourAgrees(after, key) {
      GroupIsEmpty(more, key);
      assert id in Group(more, key) <==> InHour(p, key);
      if key != (p.car, Hour(p.date)) || Group(more, key) == map[] {
        OtherHourAgrees(db, id, p, key, after);
      }
    }
  }

  lemma OtherHourAgrees(db: Db, id: Id, p: Position, key: HourKey, after: Db)
    requires RollupAgrees(db) && id !in db.positions && !InHour(p, key)
    requires after.positions == db.positions[id := p]
    requires key in after.hourly <==> key in db.hourly
    requires key in db.hourly ==> after.hourly[key] == db.hourly[key]
    ensures HourAgrees(after, key)
  {
    GroupIsEmpty(db.positions, key);
    GroupIsEmpty(after.positions, key);
    GroupAfterInsert(db.positions, id, p, key);
    assert HourAgrees(db, key);
  }

  /** The cut of the start-up catch-up: one hour before the newest bucket of any car. */
  function CatchUpFrom(db: Db): int {
    if db.hourly == map[] then 0 else (NewestHour(db.hourly.Keys) - 1) * 3_600_000
  }

  function NewestHour(keys: set<HourKey>): (hour: int)
    requires keys != {}
    ensures (exists key :: key in keys && key.1 == hour) && forall key :: key in keys ==> key.1 <= hour
  {
    var hours := set key | key in keys :: key.1;
    assert forall key :: key in keys ==> key.1 in hours;
    MaxId(hours)
  }

  /** The rows the catch-up reads: those dated at or after the cut. */
  function ReadFrom(positions: map<Id, Position>, cut: int): map<Id, Position> {
    map p | p in positions && positions[p].date >= cut :: positions[p]
  }

  /** The groups of a set of rows, as keys. */
  function GroupKeys(positions: map<Id, Position>): (keys: set<HourKey>)
    ensures forall key :: key in keys <==> IsGroup(positions, key)
  {
    set p | p in positions && positions[p].ideal.Some? :: (positions[p].car, Hour(positions[p].date))
  }

  /** Start-up catch-up: regroup the rows after the cut and replace those buckets. */
  function CatchUp(db: Db): (after: Db)
    ensures after == db.(hourly := after.hourly, nextHourRow := after.nextHourRow)
  {
    var rows := ReadFrom(db.positions, CatchUpFrom(db));
    db.(hourly := Regrouped(db.hourly, rows), nextHourRow := db.nextHourRow + |GroupKeys(rows)|)
  }

  /** `INSERT OR REPLACE` of every group of `rows`. */
  function Regrouped(hourly: map<HourKey, HourRow>, rows: map<Id, Position>): map<HourKey, HourRow> {
    map key: HourKey | key in hourly.Keys + GroupKeys(rows) ::
      if key in GroupKeys(rows) then AggregateOf(rows, key) else hourly[key]
  }

  function AggregateOf(positions: map<Id, Position>, key: HourKey): HourRow
    requires IsGroup(positions, key)
  {
    GroupIsEmpty(positions, key);
    Aggregate(Group(positions, key))
  }

  /** The cut never splits an hour: a bucket is rebuilt from all its rows or not at all. */
  lemma CutKeepsHoursWhole(db: Db, key: HourKey)
    ensures Group(ReadFrom(db.positions, CatchUpFrom(db)), key) ==
            if key.1 * 3_600_000 >= CatchUpFrom(db) then Group(db.positions, key) else map[]
  {
    var cut := CatchUpFrom(db);
    assert cut % 3_600_000 == 0;
    forall p | p in db.positions && Hour(db.positions[p].date) == key.1
      ensures db.positions[p].date >= cut <==> key.1 * 3_600_000 >= cut
    {
      var d := db.positions[p].date;
      assert key.1 * 3_600_000 <= d < (key.1 + 1) * 3_600_000;
    }
  }

  /** A bucket `catch-up` can leave wrong: one two hours or more before another, or one whose rows are all gone. */
  ghost predicate OutOfReach(db: Db, key: HourKey) {
    (exists newer :: newer in db.hourly && key.1 + 1 < newer.1) || !IsGroup(db.positions, key)
  }

  lemma BeforeTheCut(db: Db, key: HourKey)
    ensures key.1 * 3_600_000 < CatchUpFrom(db) <==> exists newer :: newer in db.hourly && key.1 + 1 < newer.1
  {
    if db.hourly != map[] {
      var newest :| newest in db.hourly.Keys && newest.1 == NewestHour(db.hourly.Keys);
    }
  }

  /** The catch-up repairs the rollup exactly when every bucket it does not rebuild was right already. */
  lemma CatchUpRepairs(db: Db)
    ensures RollupAgrees(CatchUp(db)) <==> forall key: HourKey :: OutOfReach(db, key) ==> HourAgrees(db, key)
  {
    var after := CatchUp(db);
    var rows := ReadFrom(db.positions, CatchUpFrom(db));
    forall key: HourKey
      ensures OutOfReach(db, key) ==> (HourAgrees(after, key) <==> HourAgrees(db, key))
      ensures !OutOfReach(db, key) ==> HourAgrees(after, key)
    {
      CutKeepsHoursWhole(db, key);
      BeforeTheCut(db, key);
      GroupIsEmpty(db.positions, key);
      GroupIsEmpty(rows, key);
    }
  }

  /** On a rollup that agrees, the catch-up changes nothing. */
  lemma CatchUpIsIdempotent(db: Db)
    requires RollupAgrees(db)
    ensures CatchUp(db).hourly == db.hourly
  {
    hide CatchUp;
    var after := CatchUp(db);
    forall key: HourKey
      ensures key in after.hourly <==> key in db.hourly
      ensures key in db.hourly ==> after.hourly[key] == db.hourly[key]
    {
      assert HourAgrees(db, key);
      CatchUpLeavesHour(db, key);
    }
  }

  lemma CatchUpLeavesHour(db: Db, key: HourKey)
    requires HourAgrees(db, key)
    ensures key in CatchUp(db).hourly <==> key in db.hourly
    ensures key in db.hourly ==> CatchUp(db).hourly[key] == db.hourly[key]
  {
    hide Aggregate, CatchUpFrom, ReadFrom, Group;
    CutKeepsHoursWhole(db, key);
    GroupIsEmpty(db.positions, key);
    GroupIsEmpty(ReadFrom(db.positions, CatchUpFrom(db)), key);
  }

  // ---------- What a bucket says about its rows ----------

  /** A row of the car and hour with an ideal range. */
  predicate OfHour(p: Position, car: Id, hour: nat) {
    p.ideal.Some? && p.car == car && hour * 3_600_000 <= p.date < (hour + 1) * 3_600_000
  }

  function IdealColumn(positions: map<Id, Position>, car: Id, hour: nat): map<Id, real> {
    map p | p in positions && OfHour(positions[p], car, hour) :: positions[p].ideal.value
  }

  function BatteryColumn(positions: map<Id, Position>, car: Id, hour: nat): map<Id, real> {
    map p | p in positions && OfHour(positions[p], car, hour) && positions[p].battery.Some? ::
      positions[p].battery.value
  }

  function OdometerColumn(positions: map<Id, Position>, car: Id, hour: nat): map<Id, real> {
    map p | p in positions && OfHour(positions[p], car, hour) && positions[p].odometer.Some? ::
      positions[p].odometer.value
  }

  /** The mean of a column: none for an empty one; else as often as there are values it is their sum, and it lies
      between two of them. */
  ghost predicate IsMean(column: map<Id, real>, mean: Option<real>) {
    if column == map[] then mean == None
    else
      && mean.Some? && (|column| as real) * mean.value == Sum(column)
      && (exists p :: p in column && column[p] <= mean.value) && (exists p :: p in column && mean.value <= column[p])
  }

  /** The bucket counts the rows of its car and hour and averages each of their columns. */
  ghost predicate BucketSays(positions: map<Id, Position>, car: Id, hour: nat, row: HourRow) {
    && row.n == |IdealColumn(positions, car, hour)| && row.n > 0
    && IsMean(IdealColumn(positions, car, hour), Some(row.ideal))
    && IsMean(BatteryColumn(positions, car, hour), row.battery)
    && IsMean(OdometerColumn(positions, car, hour), row.odometer)
  }

  /** A sum does not depend on the order of its values: any one can be taken last. */
  lemma {:induction false} SumInsert(column: map<Id, real>, k: Id, v: real)
    requires k !in column
    ensures Sum(column[k := v]) == Sum(column) + v
    decreases |column|
  {
    var more := column[k := v];
    assert k in more.Keys;
    var last := MaxId(more.Keys);
    if last == k {
      assert more - {k} == column;
    } else {
      forall j | j in column.Keys ensures j <= last { assert j in more.Keys; }
      assert last in column.Keys;
      assert last == MaxId(column.Keys);
      assert more - {last} == (column - {last})[k := v];
      SumInsert(column - {last}, k, v);
    }
  }

  function Times(n: nat, x: real): real { (n as real) * x }

  lemma OneMore(n: nat, x: real)
    ensures Times(n + 1, x) == Times(n, x) + x && Times(0, x) == 0.0
  {
    var r := n as real;
    assert (n + 1) as real == r + 1.0;
    assert (r + 1.0) * x == r * x + x;
  }

  /** Values that are all more than `x`, or all less. */
  lemma {:induction false} SumAbove(column: map<Id, real>, x: real)
    requires column != map[] && forall p :: p in column ==> x < column[p]
    ensures Times(|column|, x) < Sum(column)
    decreases |column|
  {
    hide Times;
    var k := MaxId(column.Keys);
    var rest := column - {k};
    OneMore(|rest|, x);
    if rest != map[] { SumAbove(rest, x); }
  }

  lemma {:induction false} SumBelow(column: map<Id, real>, x: real)
    requires column != map[] && forall p :: p in column ==> column[p] < x
    ensures Sum(column) < Times(|column|, x)
    decreases |column|
  {
    hide Times;
    var k := MaxId(column.Keys);
    var rest := column - {k};
    OneMore(|rest|, x);
    if rest != map[] { SumBelow(rest, x); }
  }

  lemma AverageIsMean(column: map<Id, real>)
    ensures IsMean(column, Average(column))
  {
    if column != map[] {
      var n := |column| as real;
      var mean := Sum(column) / n;
      assert n * mean == Sum(column);
      if forall p :: p in column ==> mean < column[p] { SumAbove(column, mean); }
      if forall p :: p in column ==> column[p] < mean { SumBelow(column, mean); }
    }
  }

  lemma HourOfDate(date: nat, hour: nat)
    ensures Hour(date) == hour <==> hour * 3_600_000 <= date < (hour + 1) * 3_600_000
  {
  }

  lemma ColumnsOfGroup(positions: map<Id, Position>, car: Id, hour: nat)
    ensures var group := Group(positions, (car, hour));
            && Ideals(group) == IdealColumn(positions, car, hour)
            && Batteries(group) == BatteryColumn(positions, car, hour)
            && Odometers(group) == OdometerColumn(positions, car, hour)
            && |group| == |IdealColumn(positions, car, hour)|
  {
    var key := (car, hour);
    var group := Group(positions, key);
    forall p | p in positions ensures InHour(positions[p], key) <==> OfHour(positions[p], car, hour) {
      HourOfDate(positions[p].date, hour);
    }
    assert group.Keys == IdealColumn(positions, car, hour).Keys;
    assert |group| == |group.Keys| && |IdealColumn(positions, car, hour)| == |IdealColumn(positions, car, hour).Keys|;
  }

  /** An aggregated group is such a bucket. */
  lemma AggregateSays(positions: map<Id, Position>, car: Id, hour: nat)
    requires Group(positions, (car, hour)) != map[]
    ensures BucketSays(positions, car, hour, Aggregate(Group(positions, (car, hour))))
  {
    hide IsMean, Average, IdealColumn, BatteryColumn, OdometerColumn, Ideals, Batteries, Odometers, Group;
    ColumnsOfGroup(positions, car, hour);
    AverageIsMean(IdealColumn(positions, car, hour));
    AverageIsMean(BatteryColumn(positions, car, hour));
    AverageIsMean(OdometerColumn(positions, car, hour));
    NonEmptyGroup(positions, car, hour);
  }

  lemma NonEmptyGroup(positions: map<Id, Position>, car: Id, hour: nat)
    requires Group(positions, (car, hour)) != map[]
    ensures |Group(positions, (car, hour))| > 0 && Average(IdealColumn(positions, car, hour)).Some?
  {
    ColumnsOfGroup(positions, car, hour);
  }

  /** So a rollup that agrees has a bucket for exactly the cars and hours with such rows, and each says that of them. */
  lemma AgreeingBucketSays(db: Db, car: Id, hour: nat)
    requires HourAgrees(db, (car, hour))
    ensures (car, hour) in db.hourly <==> exists p :: p in db.positions && OfHour(db.positions[p], car, hour)
    ensures (car, hour) in db.hourly ==> BucketSays(db.positions, car, hour, db.hourly[(car, hour)])
  {
    hide BucketSays, Aggregate, Group;
    if (car, hour) in db.hourly { AggregateSays(db.positions, car, hour); }
    if p :| p in db.positions && OfHour(db.positions[p], car, hour) {
      HourOfDate(db.positions[p].date, hour);
      assert InHour(db.positions[p], (car, hour));
    }
    if p :| p in db.positions && InHour(db.positions[p], (car, hour)) {
      HourOfDate(db.positions[p].date, hour);
      assert OfHour(db.positions[p], car, hour);
    }
  }

  /** After a refresh the bucket of the hour, if it has such rows, is there and says that of them. */
  lemma RefreshedSays(db: Db, car: Id, date: nat)
    requires exists p :: p in db.positions && OfHour(db.positions[p], car, Hour(date))
    ensures var after := RefreshHour(db, car, date);
            && (car, Hour(date)) in after.hourly
            && BucketSays(db.positions, car, Hour(date), after.hourly[(car, Hour(date))])
  {
    hide BucketSays, Aggregate;
    var p :| p in db.positions && OfHour(db.positions[p], car, Hour(date));
    HourOfDate(db.positions[p].date, Hour(date));
    assert InHour(db.positions[p], (car, Hour(date)));
    GroupIsEmpty(db.positions, (car, Hour(date)));
    AggregateSays(db.positions, car, Hour(date));
  }

  ghost predicate BucketsSay(db: Db) {
    forall car: Id, hour: nat ::
      && ((car, hour) in db.hourly <==> exists p :: p in db.positions && OfHour(db.positions[p], car, hour))
      && ((car, hour) in db.hourly ==> BucketSays(db.positions, car, hour, db.hourly[(car, hour)]))
  }

  lemma AgreeingRollupSays(db: Db)
    requires RollupAgrees(db)
    ensures BucketsSay(db)
  {
    hide BucketSays, HourAgrees, OfHour;
    forall car: Id, hour: nat
      ensures (car, hour) in db.hourly <==> exists p :: p in db.positions && OfHour(db.positions[p], car, hour)
      ensures (car, hour) in db.hourly ==> BucketSays(db.positions, car, hour, db.hourly[(car, hour)])
    {
      assert HourAgrees(db, (car, hour));
      AgreeingBucketSays(db, car, hour);
    }
  }

  /** A mean moves by the value that joins its column. */
  ghost predicate Moved(before: map<Id, real>, after: map<Id, real>, value: Option<real>) {
    if value.None? then after == before
    else |after| == |before| + 1 && Sum(after) == Sum(before) + value.value
  }

  /** A row of the hour moves count times mean of each column by its own value in that column, and by nothing where
      it has none. */
  lemma InsertMovesColumns(positions: map<Id, Position>, id: Id, p: Position, car: Id, hour: nat)
    requires id !in positions && OfHour(p, car, hour)
    ensures var more := positions[id := p];
            && Moved(IdealColumn(positions, car, hour), IdealColumn(more, car, hour), p.ideal)
            && Moved(BatteryColumn(positions, car, hour), BatteryColumn(more, car, hour), p.battery)
            && Moved(OdometerColumn(positions, car, hour), OdometerColumn(more, car, hour), p.odometer)
  {
    IdealJoins(positions, id, p, car, hour);
    BatteryJoins(positions, id, p, car, hour);
    OdometerJoins(positions, id, p, car, hour);
  }

  function Joined(column: map<Id, real>, id: Id, value: Option<real>): map<Id, real> {
    if value.Some? then column[id := value.value] else column
  }

  lemma JoinedMoves(column: map<Id, real>, id: Id, value: Option<real>)
    requires id !in column
    ensures Moved(column, Joined(column, id, value), value)
  {
    if value.Some? {
      SumInsert(column, id, value.value);
      assert |column[id := value.value]| == |column.Keys + {id}|;
    }
  }

  lemma IdealJoins(positions: map<Id, Position>, id: Id, p: Position, car: Id, hour: nat)
    requires id !in positions && OfHour(p, car, hour)
    ensures Moved(IdealColumn(positions, car, hour), IdealColumn(positions[id := p], car, hour), p.ideal)
  {
    hide Moved;
    JoinedMoves(IdealColumn(positions, car, hour), id, p.ideal);
    assert IdealColumn(positions[id := p], car, hour) == Joined(IdealColumn(positions, car, hour), id, p.ideal);
  }

  lemma BatteryJoins(positions: map<Id, Position>, id: Id, p: Position, car: Id, hour: nat)
    requires id !in positions && OfHour(p, car, hour)
    ensures Moved(BatteryColumn(positions, car, hour), BatteryColumn(positions[id := p], car, hour), p.battery)
  {
    hide Moved;
    JoinedMoves(BatteryColumn(positions, car, hour), id, p.battery);
    assert BatteryColumn(positions[id := p], car, hour) == Joined(BatteryColumn(positions, car, hour), id, p.battery);
  }

  lemma OdometerJoins(positions: map<Id, Position>, id: Id, p: Position, car: Id, hour: nat)
    requires id !in positions && OfHour(p, car, hour)
    ensures Moved(OdometerColumn(positions, car, hour), OdometerColumn(positions[id := p], car, hour), p.odometer)
  {
    hide Moved;
    JoinedMoves(OdometerColumn(positions, car, hour), id, p.odometer);
    var before := OdometerColumn(positions, car, hour);
    assert OdometerColumn(positions[id := p], car, hour) == Joined(before, id, p.odometer);
  }
}
