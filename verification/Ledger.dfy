/** What each logger tick does to the tables (src/logger.rs). One tick runs under one clock value. */
module Ledger {
  import opened Base
  import opened Chrono
  import opened Tables
  import opened Rollup
  import opened Fences

  /** The fields of one `vehicle_data` answer that the ledger stores. */
  datatype Reading = Reading(
    place: Place, odometer: Option<real>, ideal: Option<real>, rated: Option<real>,
    battery: Option<real>, energy: Option<real>)

  /** The tables after an operation, and whether it ran to its end. */
  datatype Outcome = Outcome(db: Db, ok: bool)

  // ---------- Queries ----------

  function OpenDrives(db: Db, car: Id): Dates {
    map d | d in db.drives && db.drives[d].car == car && db.drives[d].endDate.None? :: db.drives[d].startDate
  }

  function OpenCharges(db: Db, car: Id): Dates {
    map p | p in db.processes && db.processes[p].car == car && db.processes[p].endDate.None? ::
      db.processes[p].startDate
  }

  predicate OnDrive(db: Db, p: Id, d: Id) {
    p in db.positions && db.positions[p].drive == Some(d)
  }

  function DriveRows(db: Db, d: Id): Dates {
    map p | p in db.positions && OnDrive(db, p, d) :: db.positions[p].date
  }

  function OdometerRows(db: Db, d: Id): Dates {
    map p | p in db.positions && OnDrive(db, p, d) && db.positions[p].odometer.Some? :: db.positions[p].date
  }

  function IdealRows(db: Db, d: Id): Dates {
    map p | p in db.positions && OnDrive(db, p, d) && db.positions[p].ideal.Some? :: db.positions[p].date
  }

  function ChargeRows(db: Db, p: Id): Dates {
    map c | c in db.charges && db.charges[c].process == p :: db.charges[c].date
  }

  function RatedRows(db: Db, p: Id): Dates {
    map c | c in db.charges && db.charges[c].process == p && db.charges[c].rated.Some? :: db.charges[c].date
  }

  /** Dates compare as text with a cutoff of whole seconds, so only whole seconds count. */
  predicate IsStale(date: nat, now: nat) {
    Seconds(date) + SESSION_GAP_SECS < Seconds(now)
  }

  const SESSION_GAP_SECS := 15 * 60
  const STREAM_SAMPLE_SECS := 5

  function LastDate(rows: Dates, otherwise: nat): nat {
    if rows == map[] then otherwise else rows[Latest(rows)]
  }

  function StaleDrives(db: Db, car: Id, now: nat): Dates {
    map d | d in OpenDrives(db, car) && IsStale(LastDate(DriveRows(db, d), db.drives[d].startDate), now) ::
      db.drives[d].startDate
  }

  function StaleCharges(db: Db, car: Id, now: nat): Dates {
    map p | p in OpenCharges(db, car) && IsStale(LastDate(ChargeRows(db, p), db.processes[p].startDate), now) ::
      db.processes[p].startDate
  }

  // ---------- Closing a drive ----------

  function Odometer(db: Db, p: Id): real
    requires p in db.positions && db.positions[p].odometer.Some?
  {
    db.positions[p].odometer.value
  }

  function StartKm(db: Db, d: Id): Option<real> {
    var rows := OdometerRows(db, d);
    if rows == map[] then None else Some(Odometer(db, Earliest(rows)))
  }

  function EndKm(db: Db, d: Id): Option<real> {
    var rows := OdometerRows(db, d);
    if rows == map[] then None else Some(Odometer(db, Latest(rows)))
  }

  function StartIdeal(db: Db, d: Id): Option<real> {
    var rows := IdealRows(db, d);
    if rows == map[] then None else db.positions[Earliest(rows)].ideal
  }

  function EndIdeal(db: Db, d: Id): Option<real> {
    var rows := IdealRows(db, d);
    if rows == map[] then None else db.positions[Latest(rows)].ideal
  }

  function Distance(db: Db, d: Id): Option<real> {
    if StartKm(db, d).Some? && EndKm(db, d).Some?
    then Some(EndKm(db, d).value - StartKm(db, d).value)
    else None
  }

  /** Fewer than two points, or less than ten metres. */
  predicate TooShort(db: Db, d: Id) {
    |DriveRows(db, d)| < 2 || OrZero(Distance(db, d)) < 0.01
  }

  /** The nearest minute; half a minute rounds up. */
  function Minutes(from: nat, to: nat): (m: int)
    ensures -30_000 <= to - from - m * 60_000 < 30_000
  {
    (to - from + 30_000) / 60_000
  }

  function ClosedDrive(db: Db, d: Id): Drive
    requires d in db.drives && DriveRows(db, d) != map[]
  {
    var rows := DriveRows(db, d);
    var first, last := Earliest(rows), Latest(rows);
    Drive(db.drives[d].car, rows[first], Some(rows[last]), Some(first), Some(last),
          StartKm(db, d), EndKm(db, d), Distance(db, d), Some(Minutes(rows[first], rows[last])),
          StartIdeal(db, d), EndIdeal(db, d),
          GeofenceAt(db.metric, db.fences, db.positions[first].place),
          GeofenceAt(db.metric, db.fences, db.positions[last].place))
  }

  function FreePositions(db: Db, d: Id): map<Id, Position> {
    map p | p in db.positions :: if OnDrive(db, p, d) then db.positions[p].(drive := None) else db.positions[p]
  }

  /** All that closing `d` changes: its row, closed or gone, and the drive of positions. */
  ghost predicate TouchesOneDrive(db: Db, after: Db, d: Id) {
    && after == db.(positions := after.positions, drives := after.drives)
    && after.positions.Keys == db.positions.Keys
    && SameExcept(after.drives, db.drives, d)
    && (d in after.drives ==> d in db.drives && after.drives[d].car == db.drives[d].car)
    && (d in after.drives ==> after.drives[d].endDate.Some?)
  }

  function CloseDrive(db: Db, d: Id): (after: Db)
    ensures TouchesOneDrive(db, after, d)
  {
    if TooShort(db, d) then db.(positions := FreePositions(db, d), drives := db.drives - {d})
    else if d !in db.drives then db
    else db.(drives := db.drives[d := ClosedDrive(db, d)])
  }

  function CloseDrives(db: Db, todo: Dates): Db
    decreases |todo|
  {
    if todo == map[] then db
    else CloseDrives(CloseDrive(db, Earliest(todo)), todo - {Earliest(todo)})
  }

  // ---------- Completing a charge ----------

  function DeleteProcess(db: Db, p: Id): Db {
    db.(processes := db.processes - {p},
        invoices := map s | s in db.invoices ::
          if db.invoices[s].process == Some(p) then db.invoices[s].(process := None) else db.invoices[s])
  }

  /** `MAX(charge_energy_added)` over a group of charge rows. */
  function MaxEnergy(db: Db, rows: Dates): (r: real)
    requires rows != map[] && forall c :: c in rows ==> c in db.charges
    ensures exists c :: c in rows && db.charges[c].energy == r
    ensures forall c :: c in rows ==> db.charges[c].energy <= r
    decreases |rows|
  {
    var k := Earliest(rows);
    var rest := rows - {k};
    assert forall c :: c in rows ==> c == k || c in rest;
    if rest == map[] then db.charges[k].energy
    else
      var most := MaxEnergy(db, rest);
      if most < db.charges[k].energy then db.charges[k].energy else most
  }

  /** Energy taken, from the gain in rated range. */
  function EnergyUsed(db: Db, car: Id, p: Id): Option<real> {
    var rows := RatedRows(db, p);
    if rows == map[] || car !in db.cars || db.cars[car].efficiency.None? then None
    else RangeEnergy(db.charges[Earliest(rows)].rated.value, db.charges[Latest(rows)].rated.value,
                     db.cars[car].efficiency.value)
  }

  function RangeEnergy(start: real, end: real, efficiency: real): Option<real> {
    if end > start && efficiency > 0.0 then Some((end - start) * efficiency) else None
  }

  function CompletedProcess(db: Db, car: Id, p: Id): (done: Process)
    requires p in db.processes && ChargeRows(db, p) != map[]
    ensures done.endDate == Some(ChargeRows(db, p)[Latest(ChargeRows(db, p))])
    ensures done == db.processes[p].(endDate := done.endDate, durationMin := done.durationMin,
                                     added := done.added, used := done.used)
  {
    var rows := ChargeRows(db, p);
    var end := rows[Latest(rows)];
    var used := EnergyUsed(db, car, p);
    db.processes[p].(endDate := Some(end),
                     durationMin := Some(Minutes(rows[Earliest(rows)], end)),
                     added := Some(MaxEnergy(db, rows)),
                     used := if used.Some? then used else db.processes[p].used)
  }

  /** The efficiency column of a car that has one row: `NULL` there fails the read. */
  predicate EfficiencyUnreadable(db: Db, car: Id) {
    car in db.cars && db.cars[car].efficiency.None?
  }

  /** The columns of a charging process that are written once. */
  predicate SameOrigin(a: Process, b: Process) {
    a.car == b.car && a.startDate == b.startDate && a.position == b.position
  }

  /** All that completing `p` changes: its row, and the link of an invoice to a deleted row. */
  ghost predicate TouchesOneProcess(db: Db, after: Db, p: Id) {
    && after == db.(processes := after.processes, invoices := after.invoices)
    && SameExcept(after.processes, db.processes, p)
    && (p in after.processes ==> p in db.processes && after.invoices == db.invoices)
    && (p in after.processes ==> SameOrigin(after.processes[p], db.processes[p]))
  }

  function CompleteCharge(db: Db, car: Id, p: Id): (step: Outcome)
    ensures TouchesOneProcess(db, step.db, p)
    ensures !step.ok ==> step.db == db
    ensures p in db.processes && p !in step.db.processes ==> ChargeRows(db, p) == map[]
    ensures p in step.db.processes && step.db != db ==>
      ChargeRows(db, p) != map[] && step.db.processes[p].endDate == Some(ChargeRows(db, p)[Latest(ChargeRows(db, p))])
    ensures step.ok && p in step.db.processes ==> step.db.processes[p].endDate.Some?
  {
    if ChargeRows(db, p) == map[] then Outcome(DeleteProcess(db, p), true)
    else if EfficiencyUnreadable(db, car) then Outcome(db, false)
    else if p !in db.processes then Outcome(db, true)
    else
      var done := CompletedProcess(db, car, p);
      var closed := db.(processes := db.processes[p := done]);
      Outcome(if done.position in db.positions
              then PriceCharge(closed, p, db.positions[done.position].place) else closed, true)
  }

  function CompleteCharges(db: Db, car: Id, todo: Dates): Outcome
    decreases |todo|
  {
    if todo == map[] then Outcome(db, true)
    else
      var step := CompleteCharge(db, car, Earliest(todo));
      if !step.ok then step else CompleteCharges(step.db, car, todo - {Earliest(todo)})
  }

  // ---------- Parts of a tick ----------

  function CloseOpenDrives(db: Db, car: Id): Db {
    CloseDrives(db, OpenDrives(db, car))
  }

  function CompleteOpenCharges(db: Db, car: Id): Outcome {
    CompleteCharges(db, car, OpenCharges(db, car))
  }

  function CloseStale(db: Db, car: Id, now: nat): Outcome {
    var drivesClosed := CloseDrives(db, StaleDrives(db, car, now));
    CompleteCharges(drivesClosed, car, StaleCharges(drivesClosed, car, now))
  }

  /** The id the next position gets. */
  function NextPosition(db: Db): Id { NextId(db.positions.Keys) }

  function SnapshotRow(car: Id, r: Reading, now: nat): Position {
    Position(now, car, None, r.place, r.odometer, r.ideal, r.battery)
  }

  function Snapshot(db: Db, car: Id, r: Reading, now: nat): (after: Db)
    ensures after == db.(positions := db.positions[NextPosition(db) := SnapshotRow(car, r, now)],
                         hourly := after.hourly, nextHourRow := after.nextHourRow)
  {
    RefreshHour(db.(positions := db.positions[NextPosition(db) := SnapshotRow(car, r, now)]), car, now)
  }

  /** The id `persist_snapshot` hands back: `last_insert_rowid`, read after the hour was refreshed. */
  function SnapshotId(db: Db, car: Id, r: Reading, now: nat): Id {
    var more := db.positions[NextPosition(db) := SnapshotRow(car, r, now)];
    if Group(more, (car, Hour(now))) == map[] then NextPosition(db) else db.nextHourRow
  }

  /** `UPDATE positions SET drive_id` by id: no row, no effect. */
  function SetDrive(db: Db, p: Id, d: Id): Db {
    if p in db.positions then db.(positions := db.positions[p := db.positions[p].(drive := Some(d))]) else db
  }

  predicate HasRecentPoint(db: Db, car: Id, now: nat) {
    exists p :: p in db.positions && db.positions[p].drive.Some? &&
      db.positions[p].drive.value in OpenDrives(db, car) && !IsStale(db.positions[p].date, now)
  }

  function AttachRecent(db: Db, car: Id, p: Id, now: nat): Db {
    if p in db.positions && db.positions[p].drive.None? && HasRecentPoint(db, car, now)
       && OpenDrives(db, car) != map[]
    then SetDrive(db, p, Latest(OpenDrives(db, car)))
    else db
  }

  function NewDrive(car: Id, r: Reading, now: nat, p: Id): Drive {
    Drive(car, now, None, Some(p), None, r.odometer, None, None, None, r.ideal, None, None, None)
  }

  function NewProcess(car: Id, now: nat, p: Id): Process {
    Process(car, now, None, p, Some(0.0), None, None, None, None)
  }

  /** Open a drive at position `p`. A missing position breaks the foreign key. */
  function OpenDrive(db: Db, car: Id, r: Reading, now: nat, p: Id): Db
    requires p in db.positions
  {
    var d := NextId(db.drives.Keys);
    SetDrive(db.(drives := db.drives[d := NewDrive(car, r, now, p)]), p, d)
  }

  function AddCharge(db: Db, p: Id, r: Reading, now: nat): Db
    requires p in db.processes
  {
    var energy := OrZero(r.energy);
    db.(charges := db.charges[NextId(db.charges.Keys) := Charge(p, now, energy, r.rated)],
        processes := db.processes[p := db.processes[p].(added := Some(energy))])
  }

  /** Open a charge at position `p`, with its first tick. */
  function BeginCharge(db: Db, car: Id, r: Reading, now: nat, p: Id): Db {
    var q := NextId(db.processes.Keys);
    AddCharge(db.(processes := db.processes[q := NewProcess(car, now, p)]), q, r, now)
  }

  // ---------- Ticks, given the id the snapshot hands back ----------

  function DriveTick(db: Db, car: Id, r: Reading, now: nat, handed: Id): Outcome {
    var charged := CompleteOpenCharges(db, car);
    if !charged.ok then charged else
      var swept := CloseStale(charged.db, car, now);
      if !swept.ok then swept else
        DriveTickTail(Snapshot(swept.db, car, r, now), car, r, now, handed)
  }

  function DriveTickTail(db: Db, car: Id, r: Reading, now: nat, handed: Id): Outcome {
    var open := OpenDrives(db, car);
    if open != map[] then Outcome(SetDrive(db, handed, Latest(open)), true)
    else if handed !in db.positions then Outcome(db, false)
    else Outcome(OpenDrive(db, car, r, now, handed), true)
  }

  function ChargeTick(db: Db, car: Id, r: Reading, now: nat, handed: Id): Outcome {
    var attached := AttachRecent(Snapshot(db, car, r, now), car, handed, now);
    var swept := CloseStale(CloseOpenDrives(attached, car), car, now);
    if !swept.ok then swept else ChargeTickTail(swept.db, car, r, now, handed)
  }

  function ChargeTickTail(db: Db, car: Id, r: Reading, now: nat, handed: Id): Outcome {
    var open := OpenCharges(db, car);
    if open != map[] then Outcome(AddCharge(db, Latest(open), r, now), true)
    else if handed !in db.positions then Outcome(db, false)
    else Outcome(BeginCharge(db, car, r, now, handed), true)
  }

  function IdleTick(db: Db, car: Id, r: Reading, now: nat, handed: Id): Outcome {
    var attached := AttachRecent(Snapshot(db, car, r, now), car, handed, now);
    CompleteOpenCharges(CloseOpenDrives(attached, car), car)
  }

  /** The open drive a streamed row goes to: the one with the greatest id. */
  function StreamDrive(db: Db, car: Id): Option<Id> {
    var open := OpenDrives(db, car);
    if open == map[] then None else
      Some(MaxId(open.Keys))
  }

  /** The rows of a car that are on no drive. */
  function PoolRows(db: Db, car: Id): Dates {
    map p | p in db.positions && db.positions[p].car == car && db.positions[p].drive.None? :: db.positions[p].date
  }

  /** The rows a streamed row is spaced against: its drive's, or the car's rows on no drive. */
  function StreamRows(db: Db, car: Id): Dates {
    match StreamDrive(db, car)
    case Some(d) => DriveRows(db, d)
    case None => PoolRows(db, car)
  }

  predicate SampleDue(rows: Dates, now: nat) {
    rows == map[] || Seconds(rows[Latest(rows)]) + STREAM_SAMPLE_SECS <= Seconds(now)
  }

  /** A streamed row carries no battery range. */
  function StreamRow(db: Db, car: Id, r: Reading, now: nat): Db {
    if !SampleDue(StreamRows(db, car), now) then db
    else db.(positions := db.positions[NextPosition(db) :=
      Position(now, car, StreamDrive(db, car), r.place, r.odometer, None, r.battery)])
  }

  /** What a repair does for one car. */
  function RepairCar(db: Db, car: Id): Outcome {
    CompleteOpenCharges(CloseOpenDrives(db, car), car)
  }

  /** Close every session of every car, in id order, until one read fails. */
  function Repair(db: Db, cars: Dates): Outcome
    decreases |cars|
  {
    if cars == map[] then Outcome(db, true)
    else
      var car := Earliest(cars);
      var closed := RepairCar(db, car);
      if !closed.ok then closed else Repair(closed.db, cars - {car})
  }

  function AllCars(db: Db): Dates {
    map car | car in db.cars :: 0
  }

  /** Opening the database and starting the logger: catch the rollup up, close what a crash left open. */
  function Restart(db: Db): Outcome {
    Repair(CatchUp(db), AllCars(db))
  }

  // ---------- Runs ----------

  /** One thing the logger does. `handed` is the id the snapshot of a poll hands back. */
  datatype Step =
    | DriveStep(car: Id, now: nat, reading: Reading, handed: Id)
    | ChargeStep(car: Id, now: nat, reading: Reading, handed: Id)
    | IdleStep(car: Id, now: nat, reading: Reading, handed: Id)
    | StreamStep(car: Id, now: nat, reading: Reading)
    | StreamEndStep(car: Id, now: nat)
    | RestartStep(now: nat)
  {
    predicate IsPoll() { DriveStep? || ChargeStep? || IdleStep? }
  }

  function Apply(db: Db, s: Step): Db {
    match s
    case DriveStep(car, now, r, handed) => DriveTick(db, car, r, now, handed).db
    case ChargeStep(car, now, r, handed) => ChargeTick(db, car, r, now, handed).db
    case IdleStep(car, now, r, handed) => IdleTick(db, car, r, now, handed).db
    case StreamStep(car, now, r) => StreamRow(db, car, r, now)
    case StreamEndStep(car, now) => CloseOpenDrives(db, car)
    case RestartStep(now) => Restart(db).db
  }

  ghost predicate IsRun(dbs: seq<Db>, steps: seq<Step>) {
    |dbs| == |steps| + 1 && forall i :: 0 <= i < |steps| ==> dbs[i + 1] == Apply(dbs[i], steps[i])
  }

  /** The clock never goes back. */
  ghost predicate Monotone(start: nat, steps: seq<Step>) {
    forall i :: 0 <= i < |steps| ==> Clock(start, steps, i) <= steps[i].now
  }

  function Clock(start: nat, steps: seq<Step>, i: nat): nat
    requires i <= |steps|
  {
    if i == 0 then start else steps[i - 1].now
  }

  /** The tables at the moment a poll takes its snapshot. */
  function AtSnapshot(db: Db, s: Step): Db {
    if s.DriveStep? then CloseStale(CompleteOpenCharges(db, s.car).db, s.car, s.now).db else db
  }

  /** The poll goes on with the id the code reads back. */
  ghost predicate AsWritten(db: Db, s: Step) {
    s.IsPoll() ==> s.handed == SnapshotId(AtSnapshot(db, s), s.car, s.reading, s.now)
  }

  /** The poll goes on with the id of the row it inserted. */
  ghost predicate Exact(db: Db, s: Step) {
    s.IsPoll() ==> s.handed == NextPosition(AtSnapshot(db, s))
  }
}
