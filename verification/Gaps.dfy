/** No session holds two consecutive readings more than fifteen minutes apart (src/logger.rs). */
module Gaps {
  import opened Base
  import opened Chrono
  import opened Tables
  import opened Rollup
  import opened Ledger
  import opened Sessions
  import opened Changes
  import opened Integrity
  import opened Roads

  ghost predicate Adjacent(rows: Dates, p: Id, q: Id) {
    && p in rows && q in rows && Before(rows, p, q)
    && forall r :: r in rows ==> !(Before(rows, p, r) && Before(rows, r, q))
  }

  /** Consecutive readings are at most fifteen minutes apart, in whole seconds. */
  ghost predicate Tight(rows: Dates) {
    forall p, q :: Adjacent(rows, p, q) ==> p in rows && q in rows && !IsStale(rows[p], rows[q])
  }

  /** After a later reading the adjacent pairs are the old ones and the last one with the new one. */
  lemma AppendAdjacent(rows: Dates, k: Id, date: nat, p: Id, q: Id)
    requires k !in rows && forall j :: j in rows ==> rows[j] <= date && j < k
    ensures Adjacent(rows[k := date], p, q) <==>
            Adjacent(rows, p, q) || (q == k && rows != map[] && p == Latest(rows))
  {
    var more := rows[k := date];
    if p in rows && q in rows {
      assert !Before(more, k, q);
      forall r | r in rows
        ensures Before(more, p, r) == Before(rows, p, r) && Before(more, r, q) == Before(rows, r, q)
      {
      }
    } else if p in rows && q == k {
      var last := Latest(rows);
      assert p != last ==> Before(rows, p, last);
      assert Before(more, last, k);
    }
  }

  /** A later reading keeps the rows tight exactly when the last one is not stale by then. */
  lemma AppendTight(rows: Dates, k: Id, date: nat)
    requires Tight(rows) && k !in rows
    requires forall j :: j in rows ==> rows[j] <= date && j < k
    ensures Tight(rows[k := date]) <==> (rows == map[] || !IsStale(rows[Latest(rows)], date))
  {
    hide IsStale, Adjacent;
    var more := rows[k := date];
    forall p, q
      ensures Adjacent(more, p, q) <==> Adjacent(rows, p, q) || (q == k && rows != map[] && p == Latest(rows))
    {
      AppendAdjacent(rows, k, date, p, q);
    }
    forall p, q | Adjacent(rows, p, q) ensures p in rows && q in rows && p != k && q != k {
      AdjacentRows(rows, p, q);
    }
    if rows != map[] {
      assert Adjacent(more, Latest(rows), k);
    }
  }

  lemma AdjacentRows(rows: Dates, p: Id, q: Id)
    requires Adjacent(rows, p, q)
    ensures p in rows && q in rows
  {
  }

  // ---------- A reading anywhere among the others ----------

  /** Not too long before the first reading, nor after the last. */
  predicate Near(rows: Dates, date: nat) {
    rows == map[] || (!IsStale(date, rows[Earliest(rows)]) && !IsStale(rows[Latest(rows)], date))
  }

  /** Staleness only grows with the distance. */
  lemma StaleGrows(a: nat, b: nat, c: nat, d: nat)
    requires a <= b && c <= d
    ensures IsStale(b, c) ==> IsStale(a, d)
    ensures b >= c ==> !IsStale(b, c)
  {
    assert Seconds(a) <= Seconds(b) && Seconds(c) <= Seconds(d);
    if b >= c { assert Seconds(c) <= Seconds(b); }
  }

  /** The last reading before `k`, when there is one. */
  lemma Predecessor(rows: Dates, k: Id, date: nat, q: Id) returns (p: Id)
    requires k !in rows && Adjacent(rows[k := date], k, q) && q in rows && q != Earliest(rows)
    ensures Adjacent(rows, p, q) && rows[p] <= date
  {
    var more := rows[k := date];
    var earlier := set r | r in rows && Before(more, r, k);
    var first := Earliest(rows);
    assert Before(rows, first, q) && !(Before(more, k, first) && Before(more, first, q));
    assert first in earlier;
    LastExists(rows, earlier);
    p :| p in rows && IsLastOf(rows, earlier, p);
    forall r | r in rows ensures !(Before(rows, p, r) && Before(rows, r, q)) {
      assert !(Before(more, k, r) && Before(more, r, q));
      assert Before(rows, p, r) ==> r !in earlier;
    }
  }

  /** The first reading after `k`, when there is one. */
  lemma Successor(rows: Dates, k: Id, date: nat, p: Id) returns (q: Id)
    requires k !in rows && Adjacent(rows[k := date], p, k) && p in rows && p != Latest(rows)
    ensures Adjacent(rows, p, q) && date <= rows[q]
  {
    var more := rows[k := date];
    var later := set r | r in rows && Before(more, k, r);
    var last := Latest(rows);
    assert Before(rows, p, last) && !(Before(more, p, last) && Before(more, last, k));
    assert last in later;
    FirstExists(rows, later);
    q :| q in rows && IsFirstOf(rows, later, q);
    forall r | r in rows ensures !(Before(rows, p, r) && Before(rows, r, q)) {
      assert !(Before(more, p, r) && Before(more, r, k));
      assert Before(rows, r, q) ==> r !in later;
    }
  }

  /** A reading anywhere keeps the rows tight exactly when it is near them. */
  lemma InsertTight(rows: Dates, k: Id, date: nat)
    requires Tight(rows) && k !in rows
    ensures Tight(rows[k := date]) <==> Near(rows, date)
  {
    hide Tight, IsStale;
    var more := rows[k := date];
    if Near(rows, date) {
      forall p, q | Adjacent(more, p, q) ensures !IsStale(more[p], more[q]) { NearAdjacent(rows, k, date, p, q); }
      TightWhen(more);
    }
    if rows != map[] && Tight(more) { TightIsNear(rows, k, date); }
    if rows == map[] { OneIsTight(more, k); }
  }

  lemma TightWhen(rows: Dates)
    requires forall p, q :: Adjacent(rows, p, q) ==> p in rows && q in rows && !IsStale(rows[p], rows[q])
    ensures Tight(rows)
  {
  }

  lemma OneIsTight(rows: Dates, k: Id)
    requires rows.Keys == {k}
    ensures Tight(rows)
  {
  }

  lemma NearAdjacent(rows: Dates, k: Id, date: nat, p: Id, q: Id)
    requires Tight(rows) && k !in rows && Near(rows, date) && Adjacent(rows[k := date], p, q)
    ensures !IsStale(rows[k := date][p], rows[k := date][q])
  {
    hide IsStale;
    var more := rows[k := date];
    if p == k {
      if q != Earliest(rows) {
        var r := Predecessor(rows, k, date, q);
        StaleGrows(rows[r], date, rows[q], rows[q]);
      }
    } else if q == k {
      if p != Latest(rows) {
        var r := Successor(rows, k, date, p);
        StaleGrows(rows[p], rows[p], date, rows[r]);
      }
    } else {
      forall r | r in rows ensures !(Before(rows, p, r) && Before(rows, r, q)) {
        assert !(Before(more, p, r) && Before(more, r, q));
      }
      assert Adjacent(rows, p, q);
    }
  }

  lemma TightIsNear(rows: Dates, k: Id, date: nat)
    requires k !in rows && rows != map[] && Tight(rows[k := date])
    ensures Near(rows, date)
  {
    hide IsStale;
    var more := rows[k := date];
    var first, last := Earliest(rows), Latest(rows);
    if Before(more, k, first) {
      forall r | r in more ensures !(Before(more, k, r) && Before(more, r, first)) {
      }
      assert Adjacent(more, k, first);
    } else {
      StaleGrows(date, date, rows[first], rows[first]);
    }
    if Before(more, last, k) {
      forall r | r in more ensures !(Before(more, last, r) && Before(more, r, k)) {
      }
      assert Adjacent(more, last, k);
    } else {
      StaleGrows(rows[last], rows[last], date, date);
    }
  }

  /** The neighbours of a reading are close enough without it. */
  ghost predicate Bridged(rows: Dates, k: Id) {
    forall p, q :: Adjacent(rows, p, k) && Adjacent(rows, k, q) ==> p in rows && q in rows && !IsStale(rows[p], rows[q])
  }

  /** Taking a reading away keeps the rows tight exactly when its neighbours are close. */
  lemma RemoveTight(rows: Dates, k: Id)
    requires Tight(rows) && k in rows
    ensures Tight(rows - {k}) <==> Bridged(rows, k)
  {
    hide IsStale;
    var fewer := rows - {k};
    forall p, q ensures Adjacent(fewer, p, q) <==>
        (Adjacent(rows, p, q) && p != k && q != k) || (Adjacent(rows, p, k) && Adjacent(rows, k, q))
    {
      RemoveAdjacent(rows, k, p, q);
    }
  }

  lemma RemoveAdjacent(rows: Dates, k: Id, p: Id, q: Id)
    requires k in rows
    ensures Adjacent(rows - {k}, p, q) <==>
            (Adjacent(rows, p, q) && p != k && q != k) || (Adjacent(rows, p, k) && Adjacent(rows, k, q))
  {
    var fewer := rows - {k};
    if Adjacent(fewer, p, q) && !Adjacent(rows, p, q) {
      forall r | r in fewer ensures !(Before(rows, p, r) && Before(rows, r, q)) {
        assert !(Before(fewer, p, r) && Before(fewer, r, q));
      }
      assert Before(rows, p, k) && Before(rows, k, q);
    }
    if Adjacent(rows, p, k) && Adjacent(rows, k, q) {
      forall r | r in fewer ensures !(Before(fewer, p, r) && Before(fewer, r, q)) {
        assert !(Before(rows, p, r) && Before(rows, r, k)) && !(Before(rows, k, r) && Before(rows, r, q));
      }
    }
  }

  // ---------- Charges, whatever ids the polls are handed ----------

  /** `prior`: sessions that were closed before the run and need not be the logger's. */
  ghost predicate NoGapIn(db: Db, prior: set<Session>, s: Session) {
    if s in prior then Present(db, s) && EndOf(db, s).Some? else Present(db, s) ==> Tight(RowsOf(db, s))
  }

  ghost predicate ChargesTight(db: Db, prior: set<Session>) {
    forall q :: NoGapIn(db, prior, OnPlug(q))
  }

  ghost predicate DrivesTight(db: Db, prior: set<Session>) {
    forall d :: NoGapIn(db, prior, OnRoad(d))
  }

  lemma RowsKeptNoGap(db: Db, after: Db, prior: set<Session>, s: Session)
    requires RowsKept(db, after) && NoGapIn(db, prior, s)
    ensures NoGapIn(after, prior, s)
  {
    hide Tight, RowsOf;
  }

  lemma SamePlugsTight(db: Db, after: Db, prior: set<Session>)
    requires after.processes == db.processes && after.charges == db.charges && ChargesTight(db, prior)
    ensures ChargesTight(after, prior)
  {
    hide Tight;
    forall q ensures NoGapIn(after, prior, OnPlug(q)) {
      assert NoGapIn(db, prior, OnPlug(q)) && ChargeRows(after, q) == ChargeRows(db, q);
    }
  }

  lemma TickTight(db: Db, prior: set<Session>, q: Id, r: Reading, now: nat)
    requires Steady(db, now) && ChargesTight(db, prior) && q in db.processes && db.processes[q].endDate.None?
    requires CurrentCharge(db, q, now) || ChargeRows(db, q) == map[]
    ensures ChargesTight(AddCharge(db, q, r, now), prior)
  {
    hide Tight, IsStale, OneOpen, ChargesInOrder;
    var after, c := AddCharge(db, q, r, now), NextId(db.charges.Keys);
    forall j | j in ChargeRows(db, q) ensures ChargeRows(db, q)[j] <= now && j < c {
      assert ChargeOk(db, now, j);
    }
    assert ChargeRows(after, q) == ChargeRows(db, q)[c := now];
    assert NoGapIn(db, prior, OnPlug(q));
    AppendTight(ChargeRows(db, q), c, now);
    forall p ensures NoGapIn(after, prior, OnPlug(p)) {
      assert NoGapIn(db, prior, OnPlug(p));
      assert p != q ==> ChargeRows(after, p) == ChargeRows(db, p);
    }
  }

  lemma BeginTight(db: Db, prior: set<Session>, s: Step, p: Id)
    requires CanMake(db, Begin(p), s) && Steady(db, s.now) && ChargesTight(db, prior)
    ensures ChargesTight(Make(db, Begin(p), s), prior)
  {
    hide Tight, Steady, AddCharge;
    NothingOpen(db, s.car);
    OpenChargeSteady(db, s.now, s.car, p);
    var q := NextId(db.processes.Keys);
    var mid := db.(processes := db.processes[q := NewProcess(s.car, s.now, p)]);
    NoChargesYet(db, s.now, q);
    assert ChargeRows(mid, q) == map[];
    OneIsTight(map[q := s.now], q);
    EmptyIsTight();
    forall k ensures NoGapIn(mid, prior, OnPlug(k)) {
      assert NoGapIn(db, prior, OnPlug(k)) && ChargeRows(mid, k) == ChargeRows(db, k);
    }
    TickTight(mid, prior, q, s.reading, s.now);
  }

  lemma EmptyIsTight()
    ensures Tight(map[])
  {
  }

  lemma NoChargesYet(db: Db, now: nat, q: Id)
    requires Steady(db, now) && q !in db.processes
    ensures ChargeRows(db, q) == map[]
  {
    hide OneOpen, ChargesInOrder;
    forall c ensures c !in ChargeRows(db, q) { assert ChargeOk(db, now, c); }
  }

  lemma ChangeCharges(db: Db, c: Change, s: Step, prior: set<Session>)
    requires CanMake(db, c, s) && Steady(db, s.now) && ChargesTight(db, prior)
    ensures ChargesTight(Make(db, c, s), prior)
  {
    hide Steady, ChargesTight, Tight, CompleteCharge, CloseDrive, Snapshot, StreamRow, CatchUp, AddCharge;
    if c.CompleteOne? {
      CompleteTight(db, c, s, prior);
    } else if c.Begin? {
      BeginTight(db, prior, s, c.p);
    } else if c.Tick? {
      TickTight(db, prior, c.q, s.reading, s.now);
    } else {
      LeavesPlugs(db, c, s);
      SamePlugsTight(db, Make(db, c, s), prior);
    }
  }

  lemma LeavesPlugs(db: Db, c: Change, s: Step)
    requires CanMake(db, c, s) && !c.CompleteOne? && !c.Begin? && !c.Tick?
    ensures Make(db, c, s).processes == db.processes && Make(db, c, s).charges == db.charges
  {
    hide CloseDrive, Snapshot, CatchUp;
  }

  lemma CompleteTight(db: Db, c: Change, s: Step, prior: set<Session>)
    requires CanMake(db, c, s) && c.CompleteOne? && ChargesTight(db, prior)
    ensures ChargesTight(Make(db, c, s), prior)
  {
    hide Tight, CompleteCharge, RowsKept, NoGapIn;
    CompleteChargeRows(db, db.processes[c.p].car, c.p);
    forall q ensures NoGapIn(Make(db, c, s), prior, OnPlug(q)) {
      assert NoGapIn(db, prior, OnPlug(q));
      RowsKeptNoGap(db, Make(db, c, s), prior, OnPlug(q));
    }
  }

  lemma StepCharges(db: Db, prior: set<Session>, s: Step)
    requires Steady(db, s.now) && ChargesTight(db, prior)
    ensures ChargesTight(Apply(db, s), prior)
  {
    hide Steady, ChargesTight, CanMake, Make, Apply;
    forall d, c | CanMake(d, c, s) && Steady(d, s.now) && ChargesTight(d, prior)
      ensures Steady(Make(d, c, s), s.now) && ChargesTight(Make(d, c, s), prior)
    {
      ChangeSteady(d, c, s);
      ChangeCharges(d, c, s, prior);
    }
    StepKeeps(d => Steady(d, s.now) && ChargesTight(d, prior), db, s);
  }

  /** Over every run with a clock that does not go back, whatever ids the polls are handed. */
  lemma {:induction false} NoChargeHasAGap(dbs: seq<Db>, steps: seq<Step>, start: nat, prior: set<Session>, k: nat)
    requires IsRun(dbs, steps) && Monotone(start, steps) && k <= |steps|
    requires Steady(dbs[0], start) && ChargesTight(dbs[0], prior)
    ensures ChargesTight(dbs[k], prior)
  {
    hide Steady, ChargesTight, Apply;
    if k > 0 {
      NoChargeHasAGap(dbs, steps, start, prior, k - 1);
      SteadyAt(dbs, steps, start, k - 1);
      StepCharges(dbs[k - 1], prior, steps[k - 1]);
    }
  }

  // ---------- Drives, exactly when what they gain or lose fits ----------

  lemma SameRoadsTight(db: Db, after: Db, prior: set<Session>)
    requires after.drives == db.drives && after.positions == db.positions && DrivesTight(db, prior)
    ensures DrivesTight(after, prior)
  {
    hide Tight;
    forall d ensures NoGapIn(after, prior, OnRoad(d)) {
      assert NoGapIn(db, prior, OnRoad(d)) && DriveRows(after, d) == DriveRows(db, d);
    }
  }

  lemma SnapTight(db: Db, s: Step, prior: set<Session>)
    requires s.IsPoll() && DrivesTight(db, prior)
    ensures DrivesTight(Snapshot(db, s.car, s.reading, s.now), prior)
  {
    hide Tight, Snapshot;
    SnapshotRows(db, s);
    forall d ensures NoGapIn(Snapshot(db, s.car, s.reading, s.now), prior, OnRoad(d)) {
      assert NoGapIn(db, prior, OnRoad(d));
    }
  }

  lemma CloseTight(db: Db, d: Id, prior: set<Session>)
    requires d in db.drives && db.drives[d].endDate.None? && DrivesTight(db, prior)
    ensures DrivesTight(CloseDrive(db, d), prior)
  {
    hide CloseDrive, RowsKept, NoGapIn;
    CloseDriveRows(db, d);
    forall e ensures NoGapIn(CloseDrive(db, d), prior, OnRoad(e)) {
      assert NoGapIn(db, prior, OnRoad(e));
      RowsKeptNoGap(db, CloseDrive(db, d), prior, OnRoad(e));
    }
  }

  lemma ChangeRoads(db: Db, c: Change, s: Step, prior: set<Session>)
    requires CanMake(db, c, s) && !c.Files() && !c.Stream? && DrivesTight(db, prior)
    ensures DrivesTight(Make(db, c, s), prior)
  {
    hide DrivesTight, CompleteCharge, CloseDrive, Snapshot, CatchUp;
    if c.CloseOne? {
      CloseTight(db, c.d, prior);
    } else if c.Snap? {
      SnapTight(db, s, prior);
    } else {
      SameRoadsTight(db, Make(db, c, s), prior);
    }
  }

  /** Moving point `p` to drive `d` takes it from the rows of its old drive and adds it to those of `d`. */
  lemma MovedRows(db: Db, p: Id, d: Id, e: Id)
    requires p in db.positions
    ensures DriveRows(SetDrive(db, p, d), e) ==
            if e == d then DriveRows(db, d)[p := db.positions[p].date] else DriveRows(db, e) - {p}
  {
    var after := SetDrive(db, p, d);
    forall q ensures OnDrive(after, q, e) <==> if q == p then e == d else OnDrive(db, q, e) {
    }
  }

  /** Putting `p` on `d` leaves no gap: it is there already, or it is near the points of `d` and its neighbours on
      the drive it leaves are close without it. */
  ghost predicate FileFits(db: Db, p: Id, d: Id, prior: set<Session>)
    requires p in db.positions
  {
    || OnDrive(db, p, d)
    || (&& Near(DriveRows(db, d), db.positions[p].date)
        && (db.positions[p].drive.Some? && OnRoad(db.positions[p].drive.value) !in prior ==>
              Bridged(DriveRows(db, db.positions[p].drive.value), p)))
  }

  lemma MoveTight(db: Db, p: Id, d: Id, prior: set<Session>)
    requires DrivesTight(db, prior) && p in db.positions && d in db.drives && OnRoad(d) !in prior
    requires db.positions[p].drive.Some? ==> db.positions[p].drive.value in db.drives
    ensures DrivesTight(SetDrive(db, p, d), prior) <==> FileFits(db, p, d, prior)
  {
    hide Tight, Near, Bridged;
    var after := SetDrive(db, p, d);
    MovedRows(db, p, d, d);
    assert NoGapIn(db, prior, OnRoad(d));
    if OnDrive(db, p, d) {
      assert DriveRows(after, d) == DriveRows(db, d);
    } else {
      InsertTight(DriveRows(db, d), p, db.positions[p].date);
      assert NoGapIn(after, prior, OnRoad(d)) <==> Near(DriveRows(db, d), db.positions[p].date);
    }
    if db.positions[p].drive.Some? && db.positions[p].drive.value != d {
      var e := db.positions[p].drive.value;
      MovedRows(db, p, d, e);
      assert NoGapIn(db, prior, OnRoad(e));
      if OnRoad(e) !in prior { RemoveTight(DriveRows(db, e), p); }
      assert NoGapIn(after, prior, OnRoad(e)) <==> (OnRoad(e) in prior || Bridged(DriveRows(db, e), p));
    }
    forall e | e != d && !OnDrive(db, p, e) ensures NoGapIn(after, prior, OnRoad(e)) {
      MovedRows(db, p, d, e);
      assert NoGapIn(db, prior, OnRoad(e)) && DriveRows(after, e) == DriveRows(db, e);
    }
  }

  lemma NoRowsYet(db: Db, now: nat, d: Id)
    requires Steady(db, now) && d !in db.drives
    ensures DriveRows(db, d) == map[]
  {
    hide OneOpen, ChargesInOrder;
    forall q ensures !OnDrive(db, q, d) { assert PositionOk(db, now, q); }
  }

  /** The drive a point is filed on. */
  function Target(db: Db, c: Change): Id
    requires c.Files()
  {
    if c.Open? then NextId(db.drives.Keys) else c.d
  }

  lemma FilingTight(db: Db, c: Change, s: Step, prior: set<Session>)
    requires CanMake(db, c, s) && c.Files() && Steady(db, s.now) && DrivesTight(db, prior)
    ensures DrivesTight(Make(db, c, s), prior) <==> FileFits(db, c.p, Target(db, c), prior)
  {
    hide OneOpen, ChargesInOrder, Tight, Near, Bridged, SetDrive;
    var d := Target(db, c);
    assert PositionOk(db, s.now, c.p) && NoGapIn(db, prior, OnRoad(d));
    if c.Open? {
      var mid := db.(drives := db.drives[d := NewDrive(s.car, s.reading, s.now, c.p)]);
      NoRowsYet(db, s.now, d);
      EmptyIsTight();
      forall e ensures DriveRows(mid, e) == DriveRows(db, e) {
        assert forall q :: OnDrive(mid, q, e) <==> OnDrive(db, q, e);
      }
      forall e ensures NoGapIn(mid, prior, OnRoad(e)) { assert NoGapIn(db, prior, OnRoad(e)); }
      MoveTight(mid, c.p, d, prior);
    } else {
      MoveTight(db, c.p, d, prior);
    }
  }

  // ---------- Steps and runs ----------

  /** A streamed row that joins an open drive more than fifteen minutes after its last point. */
  ghost predicate LateStream(db: Db, s: Step) {
    && s.StreamStep? && StreamDrive(db, s.car).Some?
    && var rows := DriveRows(db, StreamDrive(db, s.car).value);
       rows != map[] && IsStale(rows[Latest(rows)], s.now)
  }

  /** The point a poll files, if any, leaves no gap. */
  ghost predicate FilingFits(db: Db, s: Step, prior: set<Session>) {
    FilesPoint(db, s) ==> FileFits(AtFiling(db, s), s.handed, Target(AtFiling(db, s), Filing(db, s)), prior)
  }

  ghost predicate GapFits(db: Db, s: Step, prior: set<Session>) {
    !LateStream(db, s) && FilingFits(db, s, prior)
  }

  /** A new row joins its drive, if any; the others have the rows they had. */
  lemma NewRowJoins(db: Db, after: Db, k: Id, e: Id)
    requires k !in db.positions && k in after.positions
    requires after.positions == db.positions[k := after.positions[k]]
    ensures DriveRows(after, e) ==
            if OnDrive(after, k, e) then DriveRows(db, e)[k := after.positions[k].date] else DriveRows(db, e)
  {
    assert forall q :: q != k ==> (OnDrive(after, q, e) <==> OnDrive(db, q, e));
  }

  lemma StreamJoins(db: Db, s: Step, e: Id)
    requires s.StreamStep? && SampleDue(StreamRows(db, s.car), s.now)
    ensures DriveRows(Apply(db, s), e) ==
            if StreamDrive(db, s.car) == Some(e) then DriveRows(db, e)[NextPosition(db) := s.now] else DriveRows(db, e)
  {
    hide SampleDue, StreamDrive, StreamRows, DriveRows;
    NewRowJoins(db, Apply(db, s), NextPosition(db), e);
  }

  lemma StreamTight(db: Db, s: Step, prior: set<Session>)
    requires s.StreamStep? && Steady(db, s.now) && DrivesTight(db, prior)
    ensures DrivesTight(Apply(db, s), prior) <==> !LateStream(db, s)
  {
    hide Tight, IsStale, SampleDue, OneOpen, ChargesInOrder, StreamDrive, StreamRows, DriveRows;
    var after, k := Apply(db, s), NextPosition(db);
    var to := StreamDrive(db, s.car);
    StreamDriveIsOpen(db, s.car);
    if SampleDue(StreamRows(db, s.car), s.now) {
      forall e: Id | to != Some(e) ensures NoGapIn(after, prior, OnRoad(e)) {
        StreamJoins(db, s, e);
        assert NoGapIn(db, prior, OnRoad(e));
      }
      if to.Some? {
        StreamJoins(db, s, to.value);
        RowsAreEarlier(db, s.now, to.value);
        assert NoGapIn(db, prior, OnRoad(to.value));
        AppendTight(DriveRows(db, to.value), k, s.now);
        assert NoGapIn(after, prior, OnRoad(to.value)) <==> !LateStream(db, s);
      }
    } else {
      NotDueIsNotLate(db, s);
    }
  }

  lemma RowsAreEarlier(db: Db, now: nat, d: Id)
    requires Steady(db, now)
    ensures forall j :: j in DriveRows(db, d) ==> DriveRows(db, d)[j] <= now && j < NextPosition(db)
  {
    hide OneOpen, ChargesInOrder;
    forall j | j in DriveRows(db, d) ensures DriveRows(db, d)[j] <= now && j < NextPosition(db) {
      assert PositionOk(db, now, j);
    }
  }

  lemma StreamDriveIsOpen(db: Db, car: Id)
    ensures StreamDrive(db, car).Some? ==>
      var d := StreamDrive(db, car).value; d in db.drives && db.drives[d].endDate.None? && db.drives[d].car == car
  {
  }

  lemma NotDueIsNotLate(db: Db, s: Step)
    requires s.StreamStep? && !SampleDue(StreamRows(db, s.car), s.now)
    ensures !LateStream(db, s)
  {
    hide StreamDrive;
  }

  /** A step leaves no gap in a drive exactly when it is not a late streamed row and the point it files fits. */
  lemma StepGaps(db: Db, s: Step, prior: set<Session>)
    requires Steady(db, s.now) && DrivesTight(db, prior)
    ensures HoldsThroughout(d => DrivesTight(d, prior), db, s) <==> GapFits(db, s, prior)
  {
    hide Steady, DrivesTight, CanMake, Make, Apply, AtFiling, FileFits, LateStream;
    var tight := d => DrivesTight(d, prior);
    if s.StreamStep? {
      StreamTight(db, s, prior);
    } else {
      forall d, c: Change | CanMake(d, c, s) && !c.Files() && Steady(d, s.now) && tight(d)
        ensures tight(Make(d, c, s))
      {
        NoStreamChange(d, c, s);
        ChangeRoads(d, c, s, prior);
      }
      if FilesPoint(db, s) && Steady(AtFiling(db, s), s.now) && tight(AtFiling(db, s)) {
        FilingAllowed(db, s);
        FilingTight(AtFiling(db, s), Filing(db, s), s, prior);
      }
      SteadyKeepsWhenFit(tight, db, s, FilesPoint(db, s) && FilingFits(db, s, prior));
      assert !LateStream(db, s) by { OnlyStreamsAreLate(db, s); }
    }
  }

  lemma OnlyStreamsAreLate(db: Db, s: Step)
    requires !s.StreamStep?
    ensures !LateStream(db, s)
  {
  }

  lemma NoStreamChange(db: Db, c: Change, s: Step)
    requires CanMake(db, c, s) && !s.StreamStep?
    ensures !c.Stream?
  {
  }

  /** Over every run: no drive has a gap in any state, or once a point is filed, exactly when no streamed row comes
      late and every point filed fits. */
  lemma NoDriveHasAGap(dbs: seq<Db>, steps: seq<Step>, start: nat, prior: set<Session>, n: nat)
    requires IsRun(dbs, steps) && Monotone(start, steps) && n <= |steps|
    requires Steady(dbs[0], start) && DrivesTight(dbs[0], prior)
    ensures AllAlong(d => DrivesTight(d, prior), dbs, steps, n) <==>
            forall k :: 0 <= k < n ==> GapFits(dbs[k], steps[k], prior)
    ensures AllAlong(d => DrivesTight(d, prior), dbs, steps, n) ==>
            forall k :: 0 <= k <= n ==> DrivesTight(dbs[k], prior)
  {
    hide Steady, DrivesTight, Apply, GapFits, HoldsThroughout, AllAlong;
    var tight := d => DrivesTight(d, prior);
    forall k | 0 <= k < n && tight(dbs[k])
      ensures HoldsThroughout(tight, dbs[k], steps[k]) <==> GapFits(dbs[k], steps[k], prior)
    {
      SteadyAt(dbs, steps, start, k);
      StepGaps(dbs[k], steps[k], prior);
    }
    RunKeepsWhenFit(tight, (d, s) => GapFits(d, s, prior), dbs, steps, n);
  }

  /** The row a poll has just inserted always fits: the stale check, or the recent point, vouches for the drive. */
  lemma ExactFilingFits(db: Db, s: Step, prior: set<Session>)
    requires Exact(db, s) && Steady(db, s.now)
    ensures FilingFits(db, s, prior)
  {
    if FilesPoint(db, s) {
      SteadyIsOneOpen(db, s.now);
      ExactFiling(db, s);
      SteadyAtFiling(db, s);
      NewRowFits(AtFiling(db, s), Filing(db, s), s, prior);
    }
  }

  lemma NewRowFits(db: Db, c: Change, s: Step, prior: set<Session>)
    requires c.Files() && s.IsPoll() && Steady(db, s.now) && NewRow(db, c.p, s)
    requires c.File? ==> CurrentDrive(db, c.d, s.now)
    ensures FileFits(db, c.p, Target(db, c), prior)
  {
    hide OneOpen, ChargesInOrder, Bridged;
    var d := Target(db, c);
    if c.Open? {
      NoRowsYet(db, s.now, d);
    } else if DriveRows(db, d) != map[] {
      var rows := DriveRows(db, d);
      assert PositionOk(db, s.now, Earliest(rows));
      StaleGrows(s.now, s.now, rows[Earliest(rows)], rows[Earliest(rows)]);
    }
  }

  /** In milliseconds the bound is one second looser: the cutoff is cut to whole seconds. */
  lemma FifteenMinutesAndALittle()
    ensures !IsStale(0, 900_999) && 900_999 > 15 * 60 * 1000
    ensures forall date: nat, now: nat :: date <= now ==>
      && (!IsStale(date, now) ==> now - date < 15 * 60 * 1000 + 1000)
      && (now - date <= 15 * 60 * 1000 ==> !IsStale(date, now))
  {
  }
}
