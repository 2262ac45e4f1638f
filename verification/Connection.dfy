/** The database connection: tables that statements change in place (src/db.rs, src/locations.rs). */
module Connections {
  import opened Base
  import opened Tables
  import opened Rollup
  import opened Fences
  import opened Ledger
  import opened Compaction

  class Connection {
    const metric: Metric
    var cars: map<Id, Car>
    var positions: map<Id, Position>
    var drives: map<Id, Drive>
    var processes: map<Id, Process>
    var charges: map<Id, Charge>
    var hourly: map<HourKey, HourRow>
    var nextHourRow: Id
    var fences: seq<Fence>
    var invoices: map<string, Invoice>
    /** What `last_insert_rowid()` answers. */
    var lastRowid: Id

    function View(): Db
      reads this
    {
      Db(metric, cars, positions, drives, processes, charges, hourly, nextHourRow, fences, invoices)
    }

    constructor (db: Db)
      ensures View() == db && lastRowid == 0
    {
      metric, cars, positions, drives := db.metric, db.cars, db.positions, db.drives;
      processes, charges, hourly, nextHourRow := db.processes, db.charges, db.hourly, db.nextHourRow;
      fences, invoices, lastRowid := db.fences, db.invoices, 0;
    }
  }

  // ---------- src/db.rs ----------

  method RefreshPositionHour(conn: Connection, car: Id, date: nat)
    modifies conn`hourly, conn`nextHourRow, conn`lastRowid
    ensures conn.View() == RefreshHour(old(conn.View()), car, date)
    ensures conn.lastRowid == if Group(conn.positions, (car, Hour(date))) == map[] then old(conn.lastRowid)
                              else old(conn.nextHourRow)
    ensures (exists p :: p in conn.positions && OfHour(conn.positions[p], car, Hour(date))) ==>
      (car, Hour(date)) in conn.hourly && BucketSays(conn.positions, car, Hour(date), conn.hourly[(car, Hour(date))])
  {
    hide BucketSays, OfHour, Aggregate, Group;
    ghost var was := conn.View();
    var group := Group(conn.positions, (car, Hour(date)));
    if group != map[] {
      conn.hourly := conn.hourly[(car, Hour(date)) := Aggregate(group)];
      conn.lastRowid := conn.nextHourRow;
      conn.nextHourRow := conn.nextHourRow + 1;
    }
    if exists p :: p in conn.positions && OfHour(conn.positions[p], car, Hour(date)) {
      RefreshedSays(was, car, date);
    }
  }

  /** Start-up: an empty rollup is built whole, any other from an hour before its newest bucket. */
  method EnsurePositionHourly(conn: Connection)
    modifies conn`hourly, conn`nextHourRow
    ensures conn.View() == CatchUp(old(conn.View()))
  {
    hide Regrouped, GroupKeys, NewestHour;
    var cut := 0;
    if conn.hourly != map[] {
      cut := (NewestHour(conn.hourly.Keys) - 1) * 3_600_000;
    }
    var rows := ReadFrom(conn.positions, cut);
    conn.hourly, conn.nextHourRow := Regrouped(conn.hourly, rows), conn.nextHourRow + |GroupKeys(rows)|;
  }

  datatype CompactStats = CompactStats(before: nat, after: nat, removed: nat)

  /** The rows of drive `d`, or of no drive, that the deletion for it removes. */
  function Leftover(db: Db, positions: map<Id, Position>, drive: Option<Id>): set<Id> {
    set p | p in positions && positions[p].drive == drive && positions[p].ideal.None?
            && !Referenced(db, p) && !Least(positions, p)
  }

  /** Which rows are left once the drives outside `todo` have been thinned. */
  ghost predicate ThinnedBut(db: Db, positions: map<Id, Position>, todo: set<Id>, pool: bool) {
    && (forall p :: p in positions ==> p in db.positions && positions[p] == db.positions[p])
    && (forall p :: p in db.positions ==> (p in positions <==> Kept(db, p) || Waits(db, p, todo, pool)))
  }

  /** The deletion that would remove `p` has not run yet. */
  predicate Waits(db: Db, p: Id, todo: set<Id>, pool: bool)
    requires p in db.positions
  {
    match db.positions[p].drive
    case Some(d) => d in todo
    case None => pool
  }

  lemma DeletionThins(db: Db, positions: map<Id, Position>, todo: set<Id>, pool: bool, drive: Option<Id>)
    requires ThinnedBut(db, positions, todo, pool)
    requires match drive case Some(d) => d in todo case None => pool
    ensures ThinnedBut(db, positions - Leftover(db, positions, drive),
                       if drive.Some? then todo - {drive.value} else todo, pool && drive.Some?)
  {
    hide Kept, Referenced;
    forall p | p in db.positions && db.positions[p].drive == drive && db.positions[p].ideal.None?
      ensures p in positions && (Least(positions, p) <==> Least(db.positions, p))
    {
      assert Waits(db, p, todo, pool);
      SameRivals(db, positions, todo, pool, p);
    }
    forall p | p in db.positions && db.positions[p].drive == drive
      ensures p in positions && (p in Leftover(db, positions, drive) <==> !Kept(db, p))
    {
      assert Waits(db, p, todo, pool);
      KeptMeans(db, p);
    }
  }

  lemma KeptMeans(db: Db, p: Id)
    requires p in db.positions
    ensures Kept(db, p) <==> db.positions[p].ideal.Some? || Referenced(db, p) || Least(db.positions, p)
  {
  }

  /** Until its deletion runs a group still has all its rows. */
  lemma SameRivals(db: Db, positions: map<Id, Position>, todo: set<Id>, pool: bool, p: Id)
    requires ThinnedBut(db, positions, todo, pool) && p in db.positions && Waits(db, p, todo, pool)
    ensures p in positions && (Least(positions, p) <==> Least(db.positions, p))
  {
    hide Kept;
    forall q | q in db.positions && SameGroup(db.positions[p], db.positions[q])
      ensures q in positions
    {
      assert Waits(db, q, todo, pool);
    }
    forall q ensures Rivals(positions, p, q) <==> Rivals(db.positions, p, q) {
    }
  }

  lemma NothingThinnedYet(db: Db, drives: set<Id>)
    requires drives == set p | p in db.positions && db.positions[p].drive.Some? :: db.positions[p].drive.value
    ensures ThinnedBut(db, db.positions, drives, true)
  {
    hide Kept;
  }

  /** One `DELETE`: the rows of one drive, or of none. */
  method DeleteLeftover(conn: Connection, drive: Option<Id>) returns (removed: nat)
    modifies conn`positions
    ensures conn.positions == old(conn.positions) - Leftover(old(conn.View()), old(conn.positions), drive)
    ensures |conn.positions| + removed == |old(conn.positions)|
  {
    var gone := Leftover(conn.View(), conn.positions, drive);
    RemovalCounts(conn.positions, gone);
    conn.positions := conn.positions - gone;
    return |gone|;
  }

  /** One deletion per drive, then one for the rows on no drive. What the deletions count is what is missing,
      and the refusal to vacuum an emptied table never happens. */
  method CompactStreamPositions(conn: Connection) returns (stats: Option<CompactStats>)
    modifies conn`positions
    ensures conn.View() == Compact(old(conn.View()))
    ensures stats.Some? && stats.value.before == |old(conn.positions)| && stats.value.after == |conn.positions|
    ensures stats.value.before == stats.value.after + stats.value.removed
  {
    hide Leftover, ThinnedBut, Compact;
    ghost var was := conn.View();
    var before := |conn.positions|;
    var driveIds := set p | p in conn.positions && conn.positions[p].drive.Some? :: conn.positions[p].drive.value;
    var removed := 0;
    NothingThinnedYet(was, driveIds);
    while driveIds != {}
      invariant conn.View() == was.(positions := conn.positions)
      invariant ThinnedBut(was, conn.positions, driveIds, true)
      invariant before == |conn.positions| + removed
      decreases driveIds
    {
      var d := MaxId(driveIds);
      LeftoverReadsSessions(was, conn.View(), Some(d));
      DeletionThins(was, conn.positions, driveIds, true, Some(d));
      var n := DeleteLeftover(conn, Some(d));
      removed := removed + n;
      driveIds := driveIds - {d};
    }
    LeftoverReadsSessions(was, conn.View(), None);
    DeletionThins(was, conn.positions, {}, true, None);
    var n := DeleteLeftover(conn, None);
    removed := removed + n;
    AllThinned(was, conn.positions);
    GuardIsNeverReached(was);
    if before > 0 && |conn.positions| == 0 {
      return None;
    }
    return Some(CompactStats(before, |conn.positions|, removed));
  }

  lemma AllThinned(db: Db, positions: map<Id, Position>)
    requires ThinnedBut(db, positions, {}, false)
    ensures db.(positions := positions) == Compact(db)
  {
    hide Kept;
    forall p ensures p in positions <==> p in Compact(db).positions {
      assert p in db.positions ==> !Waits(db, p, {}, false);
    }
  }

  lemma LeftoverReadsSessions(db: Db, other: Db, drive: Option<Id>)
    requires other == db.(positions := other.positions)
    ensures Leftover(other, other.positions, drive) == Leftover(db, other.positions, drive)
  {
    forall p ensures Referenced(other, p) <==> Referenced(db, p) {
    }
  }

  lemma RemovalCounts(positions: map<Id, Position>, gone: set<Id>)
    requires gone <= positions.Keys
    ensures |positions - gone| + |gone| == |positions|
  {
    assert (positions - gone).Keys == positions.Keys - gone;
    assert |positions.Keys| == |positions| && |(positions - gone).Keys| == |positions - gone|;
  }

  // ---------- src/locations.rs ----------

  /** The pass of the location job: clear every label, look every place up again, price what no invoice owns. */
  method RematchTables(conn: Connection)
    modifies conn`processes, conn`drives
    ensures conn.View() == Rematch(old(conn.View()))
  {
    ghost var was := conn.View();
    hide PlaceLabel, FencePrice;
    Reassign(conn);
    RecalculateCosts(conn);
    LabelsAndPrices(was, conn.View());
  }

  method Reassign(conn: Connection)
    modifies conn`processes, conn`drives
    ensures conn.View() == old(conn.View()).(processes := conn.processes, drives := conn.drives)
    ensures conn.processes == LabelledProcesses(old(conn.View()), {})
    ensures conn.drives == LabelledDrives(old(conn.View()), {}, {})
  {
    hide PlaceLabel;
    conn.processes := map p | p in conn.processes :: conn.processes[p].(fence := None);
    conn.drives := map d | d in conn.drives :: conn.drives[d].(startFence := None, endFence := None);
    LabelCharges(conn, old(conn.View()));
    LabelStarts(conn, old(conn.View()));
    LabelEnds(conn, old(conn.View()));
  }

  /** The labels once all charges but those in `todo` are looked up. */
  ghost function LabelledProcesses(db: Db, todo: set<Id>): map<Id, Process> {
    map p | p in db.processes ::
      db.processes[p].(fence := if p in todo then None else PlaceLabel(db, Some(db.processes[p].position)))
  }

  ghost function LabelledDrives(db: Db, starts: set<Id>, ends: set<Id>): map<Id, Drive> {
    map d | d in db.drives ::
      db.drives[d].(startFence := if d in starts then None else PlaceLabel(db, db.drives[d].startPos),
                    endFence := if d in ends then None else PlaceLabel(db, db.drives[d].endPos))
  }

  predicate Placed(positions: map<Id, Position>, position: Option<Id>) {
    position.Some? && position.value in positions
  }

  lemma ChargesToLabel(db: Db)
    ensures LabelledProcesses(db, db.processes.Keys) ==
            LabelledProcesses(db, set p | p in db.processes && db.processes[p].position in db.positions)
  {
    hide Nearest;
  }

  lemma OneChargeLabelled(db: Db, todo: set<Id>, p: Id)
    requires p in todo && p in db.processes && db.processes[p].position in db.positions
    ensures var was := LabelledProcesses(db, todo);
            && p in was && was[p].position == db.processes[p].position
            && was[p := was[p].(fence := Nearest(db.metric, db.fences, db.positions[was[p].position].place))] ==
               LabelledProcesses(db, todo - {p})
  {
    hide Nearest;
  }

  method LabelCharges(conn: Connection, ghost was: Db)
    requires conn.View() == was.(processes := conn.processes, drives := conn.drives)
    requires conn.processes == LabelledProcesses(was, was.processes.Keys)
    modifies conn`processes
    ensures conn.processes == LabelledProcesses(was, {})
  {
    ChargesToLabel(was);
    var todo := set p | p in conn.processes && conn.processes[p].position in conn.positions;
    assert todo == set p | p in was.processes && was.processes[p].position in was.positions;
    hide LabelledProcesses, Nearest;
    while todo != {}
      invariant conn.View() == was.(processes := conn.processes, drives := conn.drives)
      invariant conn.processes == LabelledProcesses(was, todo)
      invariant forall p :: p in todo ==> p in was.processes && was.processes[p].position in was.positions
      decreases todo
    {
      var p := MaxId(todo);
      OneChargeLabelled(was, todo, p);
      var place := conn.positions[conn.processes[p].position].place;
      conn.processes := conn.processes[p := conn.processes[p].(fence := Nearest(conn.metric, conn.fences, place))];
      todo := todo - {p};
    }
  }

  function StartTargets(drives: map<Id, Drive>, positions: map<Id, Position>): (todo: set<Id>)
    ensures forall d :: d in todo ==> d in drives && Placed(positions, drives[d].startPos)
  {
    set d | d in drives && Placed(positions, drives[d].startPos)
  }

  function EndTargets(drives: map<Id, Drive>, positions: map<Id, Position>): (todo: set<Id>)
    ensures forall d :: d in todo ==> d in drives && Placed(positions, drives[d].endPos)
  {
    set d | d in drives && Placed(positions, drives[d].endPos)
  }

  lemma DrivesToLabel(db: Db)
    ensures var none := LabelledDrives(db, db.drives.Keys, db.drives.Keys);
            && StartTargets(none, db.positions) == StartTargets(db.drives, db.positions)
            && none == LabelledDrives(db, StartTargets(db.drives, db.positions), db.drives.Keys)
    ensures var half := LabelledDrives(db, {}, db.drives.Keys);
            && EndTargets(half, db.positions) == EndTargets(db.drives, db.positions)
            && half == LabelledDrives(db, {}, EndTargets(db.drives, db.positions))
  {
    hide Nearest;
  }

  lemma StartLabelled(db: Db, starts: set<Id>, ends: set<Id>, d: Id)
    requires d in starts && d in db.drives && Placed(db.positions, db.drives[d].startPos)
    ensures db.drives[d].startPos.Some? && db.drives[d].startPos.value in db.positions
    ensures var was := LabelledDrives(db, starts, ends);
            && d in was && was[d].startPos == db.drives[d].startPos
            && was[d := was[d].(startFence := Nearest(db.metric, db.fences, db.positions[was[d].startPos.value].place))]
               == LabelledDrives(db, starts - {d}, ends)
  {
    hide Nearest;
  }

  lemma EndLabelled(db: Db, starts: set<Id>, ends: set<Id>, d: Id)
    requires d in ends && d in db.drives && Placed(db.positions, db.drives[d].endPos)
    ensures db.drives[d].endPos.Some? && db.drives[d].endPos.value in db.positions
    ensures var was := LabelledDrives(db, starts, ends);
            && d in was && was[d].endPos == db.drives[d].endPos
            && was[d := was[d].(endFence := Nearest(db.metric, db.fences, db.positions[was[d].endPos.value].place))]
               == LabelledDrives(db, starts, ends - {d})
  {
    hide Nearest;
  }

  method LabelStarts(conn: Connection, ghost was: Db)
    requires conn.View() == was.(processes := conn.processes, drives := conn.drives)
    requires conn.drives == LabelledDrives(was, was.drives.Keys, was.drives.Keys)
    modifies conn`drives
    ensures conn.drives == LabelledDrives(was, {}, was.drives.Keys)
  {
    hide LabelledDrives, Nearest, StartTargets, Placed;
    DrivesToLabel(was);
    var todo := StartTargets(conn.drives, conn.positions);
    while todo != {}
      invariant conn.View() == was.(processes := conn.processes, drives := conn.drives)
      invariant conn.drives == LabelledDrives(was, todo, was.drives.Keys)
      invariant forall d :: d in todo ==> d in was.drives && Placed(was.positions, was.drives[d].startPos)
      decreases todo
    {
      var d := MaxId(todo);
      StartLabelled(was, todo, was.drives.Keys, d);
      var place := conn.positions[conn.drives[d].startPos.value].place;
      conn.drives := conn.drives[d := conn.drives[d].(startFence := Nearest(conn.metric, conn.fences, place))];
      todo := todo - {d};
    }
  }

  method LabelEnds(conn: Connection, ghost was: Db)
    requires conn.View() == was.(processes := conn.processes, drives := conn.drives)
    requires conn.drives == LabelledDrives(was, {}, was.drives.Keys)
    modifies conn`drives
    ensures conn.drives == LabelledDrives(was, {}, {})
  {
    hide LabelledDrives, Nearest, EndTargets, Placed;
    DrivesToLabel(was);
    var todo := EndTargets(conn.drives, conn.positions);
    while todo != {}
      invariant conn.View() == was.(processes := conn.processes, drives := conn.drives)
      invariant conn.drives == LabelledDrives(was, {}, todo)
      invariant forall d :: d in todo ==> d in was.drives && Placed(was.positions, was.drives[d].endPos)
      decreases todo
    {
      var d := MaxId(todo);
      EndLabelled(was, {}, todo, d);
      var place := conn.positions[conn.drives[d].endPos.value].place;
      conn.drives := conn.drives[d := conn.drives[d].(endFence := Nearest(conn.metric, conn.fences, place))];
      todo := todo - {d};
    }
  }

  lemma LabelsAndPrices(was: Db, after: Db)
    requires after == was.(processes := after.processes, drives := LabelledDrives(was, {}, {}))
    requires Recalculated(was.(processes := LabelledProcesses(was, {})), after.processes)
    ensures after == Rematch(was)
  {
    hide PlaceLabel, FencePrice, CostsByLabel;
    var labelled := was.(processes := LabelledProcesses(was, {}));
    forall p | p in was.processes ensures after.processes[p] == RelabelledProcess(was, p) {
      assert Invoiced(labelled, p) == Invoiced(was, p);
      if !Invoiced(was, p) {
        LabelFixesCost(was.fences, after.processes[p]);
        PriceDependsOn(was.fences, labelled.processes[p].fence, after.processes[p], was.processes[p]);
      }
    }
    assert after.processes == Rematch(was).processes;
    assert after.drives == Rematch(was).drives;
  }

  /** The `i`-th fence is the first with this id. */
  ghost predicate Named(fences: seq<Fence>, i: nat, id: Id) {
    i < |fences| && fences[i].id == id && forall j :: 0 <= j < i ==> fences[j].id != id
  }

  /** The row costs what the fence of its own label sets for it, and nothing without such a fence. */
  ghost predicate CostsByLabel(fences: seq<Fence>, row: Process) {
    || (row.cost.None? && (row.fence.None? || forall i :: 0 <= i < |fences| ==> fences[i].id != row.fence.value))
    || (row.fence.Some? && exists i: nat :: Named(fences, i, row.fence.value) && row.cost == Price(fences[i], row))
  }

  /** There is one such cost. */
  lemma LabelFixesCost(fences: seq<Fence>, row: Process)
    ensures CostsByLabel(fences, row) <==> row.cost == FencePrice(fences, row.fence, row)
  {
    hide Price;
    if row.fence.Some? { FenceIsNamed(fences, row.fence.value); }
  }

  lemma {:induction false} FenceIsNamed(fences: seq<Fence>, id: Id)
    ensures match FenceOf(fences, id)
            case None => forall i :: 0 <= i < |fences| ==> fences[i].id != id
            case Some(f) => (exists i: nat :: Named(fences, i, id) && fences[i] == f) &&
                            forall i: nat :: Named(fences, i, id) ==> fences[i] == f
  {
    if fences != [] && fences[0].id != id {
      FenceIsNamed(fences[1..], id);
      if i: nat :| Named(fences[1..], i, id) {
        assert Named(fences, i + 1, id);
      }
      forall i: nat | Named(fences, i, id) ensures Named(fences[1..], i - 1, id) {
      }
    } else if fences != [] {
      assert Named(fences, 0, id);
    }
  }

  /** A process an invoice owns is as it was; any other keeps all but its cost, which is the one its label sets. */
  ghost predicate Recalculated(was: Db, after: map<Id, Process>) {
    && after.Keys == was.processes.Keys
    && forall p :: p in after ==>
         if Invoiced(was, p) then after[p] == was.processes[p]
         else after[p] == was.processes[p].(cost := after[p].cost) && CostsByLabel(was.fences, after[p])
  }

  method RecalculateCosts(conn: Connection)
    modifies conn`processes
    ensures Recalculated(old(conn.View()), conn.processes)
  {
    ghost var was := conn.View();
    conn.processes := map p | p in conn.processes ::
      if Invoiced(conn.View(), p) then conn.processes[p]
      else conn.processes[p].(cost := FencePrice(conn.fences, conn.processes[p].fence, conn.processes[p]));
    hide FencePrice, CostsByLabel;
    forall p | p in was.processes && !Invoiced(was, p) ensures CostsByLabel(was.fences, conn.processes[p]) {
      PriceDependsOn(was.fences, was.processes[p].fence, was.processes[p], conn.processes[p]);
      LabelFixesCost(was.fences, conn.processes[p]);
    }
  }

  /** So doing it again changes nothing. */
  lemma RecalculatedOnce(was: Db, once: map<Id, Process>, twice: map<Id, Process>)
    requires Recalculated(was, once) && Recalculated(was.(processes := once), twice)
    ensures twice == once
  {
    hide CostsByLabel, FencePrice;
    forall p | p in once ensures twice[p] == once[p] {
      assert Invoiced(was.(processes := once), p) == Invoiced(was, p);
      if !Invoiced(was, p) {
        LabelFixesCost(was.fences, once[p]);
        LabelFixesCost(was.fences, twice[p]);
        PriceDependsOn(was.fences, once[p].fence, once[p], twice[p]);
      }
    }
  }

  method PriceChargeGeofence(conn: Connection, pid: Id, place: Place)
    requires pid in conn.processes
    modifies conn`processes
    ensures conn.View() == PriceCharge(old(conn.View()), pid, place)
  {
    var fenceId := FindGeofence(conn.metric, conn.fences, place);
    if fenceId.None? {
      return;
    }
    ghost var was := conn.View();
    conn.processes := conn.processes[pid := conn.processes[pid].(fence := fenceId)];
    assert Invoiced(conn.View(), pid) == Invoiced(was, pid);
    if !Invoiced(conn.View(), pid) {
      var p := conn.processes[pid];
      conn.processes := conn.processes[pid := p.(cost := FencePrice(conn.fences, p.fence, p))];
    }
  }
}
