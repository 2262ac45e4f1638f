/** The id a snapshot hands back, and when it is the row it inserted (src/logger.rs, src/db.rs). */
module SnapshotIds {
  import opened Base
  import opened Chrono
  import opened Tables
  import opened Rollup
  import opened Fences
  import opened Ledger
  import opened Sessions
  import opened Changes
  import opened Integrity
  import opened Roads
  import opened Gaps
  import opened Compaction
  import opened Sampling

  /** The refresh of the hour inserts a row: this reading or an earlier one of the hour has an ideal range. */
  ghost predicate RefreshInserts(db: Db, car: Id, r: Reading, now: nat) {
    r.ideal.Some? || IsGroup(db.positions, (car, Hour(now)))
  }

  lemma RefreshInsertsWhen(db: Db, car: Id, r: Reading, now: nat)
    ensures var more := db.positions[NextPosition(db) := SnapshotRow(car, r, now)];
            Group(more, (car, Hour(now))) == map[] <==> !RefreshInserts(db, car, r, now)
  {
    var key := (car, Hour(now));
    var more := db.positions[NextPosition(db) := SnapshotRow(car, r, now)];
    GroupIsEmpty(more, key);
    if r.ideal.Some? {
      assert NextPosition(db) in more && InHour(more[NextPosition(db)], key);
    } else if IsGroup(db.positions, key) {
      var p :| p in db.positions && InHour(db.positions[p], key);
      assert p in more && InHour(more[p], key);
    }
  }

  /** The snapshot hands back the row it inserted exactly when the refresh inserts nothing,
      or happens to give its own row the same id. */
  lemma HandsBackItsRow(db: Db, car: Id, r: Reading, now: nat)
    ensures SnapshotId(db, car, r, now) == NextPosition(db) <==>
            !RefreshInserts(db, car, r, now) || db.nextHourRow == NextPosition(db)
  {
    hide RefreshInserts, Group;
    RefreshInsertsWhen(db, car, r, now);
  }

  /** The poll hands back the row it inserts; checked on the tables before the call. */
  ghost predicate IdsAgree(db: Db, s: Step) {
    s.IsPoll() ==> !RefreshInserts(db, s.car, s.reading, s.now) || db.nextHourRow == NextPosition(db)
  }

  /** Rows, but for the drive they are on, and both kinds of ids are as they were. */
  ghost predicate SameIds(db: Db, after: Db) {
    && after.nextHourRow == db.nextHourRow && after.positions.Keys == db.positions.Keys
    && forall p :: p in db.positions ==>
         p in after.positions && after.positions[p] == db.positions[p].(drive := after.positions[p].drive)
  }

  lemma ClosingsKeepIds(s: Step)
    ensures Preorder(SameIds) && HoldsOfClosings(SameIds, s)
  {
    hide CloseDrive, CompleteCharge;
    forall db, c: Change | c.Closes() ensures Holds(SameIds, db, c, s) {
      if CanMake(db, c, s) { ClosingKeepsIds(db, c, s); }
    }
  }

  lemma ClosingKeepsIds(db: Db, c: Change, s: Step)
    requires CanMake(db, c, s) && c.Closes()
    ensures SameIds(db, Make(db, c, s))
  {
    hide CloseDrive, CompleteCharge;
    if c.CloseOne? { CloseDriveMoves(db, c.d); }
  }

  lemma AtSnapshotIds(db: Db, s: Step)
    requires s.IsPoll()
    ensures SameIds(db, AtSnapshot(db, s))
  {
    hide CompleteOpenCharges, CloseStale, Preorder, HoldsOfClosings, SameIds;
    ClosingsKeepIds(s);
    if s.DriveStep? {
      CompleteOpenChargesLift(SameIds, db, s.car, s);
      CloseStaleLift(SameIds, CompleteOpenCharges(db, s.car).db, s.car, s.now, s);
      Chain(SameIds, db, CompleteOpenCharges(db, s.car).db, AtSnapshot(db, s));
    } else {
      Same(SameIds, db);
    }
  }

  lemma SameRefresh(db: Db, after: Db, car: Id, r: Reading, now: nat)
    requires SameIds(db, after)
    ensures RefreshInserts(after, car, r, now) <==> RefreshInserts(db, car, r, now)
    ensures NextPosition(after) == NextPosition(db)
  {
    var key := (car, Hour(now));
    if IsGroup(db.positions, key) {
      var p :| p in db.positions && InHour(db.positions[p], key);
      assert p in after.positions && InHour(after.positions[p], key);
    }
    if IsGroup(after.positions, key) {
      var p :| p in after.positions && InHour(after.positions[p], key);
      assert p in db.positions && InHour(db.positions[p], key);
    }
  }

  lemma WrittenPollIsExact(db: Db, s: Step)
    requires AsWritten(db, s)
    ensures Exact(db, s) <==> IdsAgree(db, s)
  {
    hide AtSnapshot, RefreshInserts, SnapshotId;
    if s.IsPoll() {
      HandsBackItsRow(AtSnapshot(db, s), s.car, s.reading, s.now);
      AtSnapshotIds(db, s);
      SameRefresh(db, AtSnapshot(db, s), s.car, s.reading, s.now);
    }
  }

  // ---------- The ids drift apart and stay apart ----------

  /** Position ids run ahead of the rowids of the rollup. */
  predicate Ahead(db: Db) {
    db.nextHourRow < NextPosition(db)
  }

  lemma NextAfterInsert(used: set<Id>)
    ensures NextId(used + {NextId(used)}) == NextId(used) + 1
  {
    var id := NextId(used);
    assert id in used + {id};
    var next := NextId(used + {id});
    assert next != 1 ==> next - 1 in used + {id};
  }

  /** A snapshot moves the position ids on by one and the rollup's by at most one. */
  lemma SnapshotMovesIds(db: Db, car: Id, r: Reading, now: nat)
    ensures var after := Snapshot(db, car, r, now);
            && NextPosition(after) == NextPosition(db) + 1
            && after.nextHourRow == db.nextHourRow + if RefreshInserts(db, car, r, now) then 1 else 0
  {
    hide RefreshInserts, Group, Aggregate;
    RefreshInsertsWhen(db, car, r, now);
    assert Snapshot(db, car, r, now).positions.Keys == db.positions.Keys + {NextPosition(db)};
    NextAfterInsert(db.positions.Keys);
  }

  /** How far the position ids run ahead. */
  function Lead(db: Db): int { NextPosition(db) - db.nextHourRow }

  lemma SameLead(db: Db, after: Db)
    requires after.nextHourRow == db.nextHourRow && after.positions.Keys == db.positions.Keys
    ensures Lead(after) == Lead(db)
  {
  }

  /** A snapshot without a group in its hour, and a stored streamed row, add one to the lead; other changes none. */
  lemma ChangeLead(db: Db, c: Change, s: Step)
    requires CanMake(db, c, s) && !c.Regroup?
    ensures Lead(Make(db, c, s)) - Lead(db) ==
            if c.Snap? then (if RefreshInserts(db, s.car, s.reading, s.now) then 0 else 1)
            else if c.Stream? then (if SampleDue(StreamRows(db, s.car), s.now) then 1 else 0)
            else 0
  {
    hide CloseDrive, CompleteCharge, Snapshot, RefreshInserts, StreamRow, SampleDue, NewDrive, NewProcess, NextPosition;
    if c.Snap? {
      SnapshotMovesIds(db, s.car, s.reading, s.now);
    } else if c.Stream? {
      StreamLead(db, s.car, s.reading, s.now);
    } else {
      SameLead(db, Make(db, c, s));
    }
  }

  lemma NotRegrouped(db: Db, c: Change, s: Step)
    requires CanMake(db, c, s) && !s.RestartStep?
    ensures !c.Regroup? && (s.StreamEndStep? || s.IsPoll() ==> !c.Stream?)
  {
  }

  /** A poll with an ideal range, or the end of a drive stream that stored nothing. */
  predicate KeepsStep(s: Step) {
    s.StreamEndStep? || (s.IsPoll() && s.reading.ideal.Some?)
  }

  /** The lead never shrinks but at a restart; a poll with an ideal range leaves it, a stored streamed row adds one. */
  lemma StepLead(db: Db, s: Step)
    requires !s.RestartStep?
    ensures Lead(Apply(db, s)) >= Lead(db)
    ensures KeepsStep(s) ==> Lead(Apply(db, s)) == Lead(db)
    ensures s.StreamStep? && SampleDue(StreamRows(db, s.car), s.now) ==> Lead(Apply(db, s)) == Lead(db) + 1
  {
    if s.StreamStep? {
      ChangeLead(db, Stream, s);
    }
    hide Lead, CanMake, Make, Apply, SampleDue, StreamRows;
    var rel := (a, b) => if KeepsStep(s) then Lead(b) == Lead(a) else Lead(b) >= Lead(a);
    forall d, c | CanMake(d, c, s) ensures rel(d, Make(d, c, s)) {
      NotRegrouped(d, c, s);
      ChangeLead(d, c, s);
    }
    StepFollows(rel, db, s);
  }

  /** Once the position ids are ahead, no step but a restart closes the lead. */
  lemma StaysAhead(db: Db, s: Step)
    requires Ahead(db) && !s.RestartStep?
    ensures Ahead(Apply(db, s))
  {
    hide Apply, NextPosition;
    StepLead(db, s);
  }

  /** From a fresh file, and until the first streamed row, restart or reading without a range, the two ids grow
      together: every poll as the code writes it goes on with its own row, and what is proved of exact runs holds. */
  lemma {:induction false} PollsAloneAreExact(dbs: seq<Db>, steps: seq<Step>, k: nat)
    requires IsRun(dbs, steps) && k <= |steps| && Lead(dbs[0]) == 0
    requires forall i :: 0 <= i < |steps| ==> AsWritten(dbs[i], steps[i]) && KeepsStep(steps[i])
    ensures Lead(dbs[k]) == 0 && forall i :: 0 <= i < k ==> Exact(dbs[i], steps[i])
  {
    hide Apply, AsWritten, Exact, Lead;
    if k > 0 {
      PollsAloneAreExact(dbs, steps, k - 1);
      StepLead(dbs[k - 1], steps[k - 1]);
      InStepIsExact(dbs[k - 1], steps[k - 1]);
    }
  }

  /** Everything the other files ask of a step holds of a poll with a range that goes on with its own row. */
  ghost predicate FitsAll(db: Db, s: Step) {
    && OwnPoint(db, s) && FollowsEnds(db, s) && !TakesPoint(db, s)
    && GapFits(db, s, {}) && SampleStepFits(db, s) && Ranged(s)
  }

  lemma ExactFitsAll(db: Db, s: Step)
    requires Exact(db, s) && Steady(db, s.now) && KeepsStep(s)
    ensures FitsAll(db, s)
  {
    hide Exact, Steady, OwnPoint, FollowsEnds, TakesPoint, FilingFits, SampleStepFits;
    ExactFits(db, s);
    ExactFilingFits(db, s, {});
    ExactSampleFits(db, s);
  }

  ghost predicate Blank(db: Db) {
    db.positions == map[] && db.drives == map[] && db.processes == map[] && db.charges == map[]
  }

  /** Steady; points on drives of their own car; sessions one after the other; closed drives that say what their
      points say; no gap in any session; nothing for compaction to remove. */
  ghost predicate AllGood(db: Db, now: nat) {
    && Steady(db, now) && CarsMatch(db) && Ordered(db)
    && (forall d :: IsClosedDrive(db, d) ==> DriveFacts(db, d))
    && DrivesTight(db, {}) && ChargesTight(db, {}) && Compact(db) == db
  }

  lemma BlankIsAllGood(db: Db)
    requires Blank(db)
    ensures AllGood(db, 0) && Spaced(db)
  {
    EmptyLedgerIsSteady(db);
    hide Steady;
    assert Compact(db).positions == db.positions;
  }

  lemma FreshPollsFit(dbs: seq<Db>, steps: seq<Step>)
    requires IsRun(dbs, steps) && Monotone(0, steps) && Steady(dbs[0], 0) && Lead(dbs[0]) == 0
    requires forall i :: 0 <= i < |steps| ==> AsWritten(dbs[i], steps[i]) && KeepsStep(steps[i])
    ensures forall i :: 0 <= i < |steps| ==> FitsAll(dbs[i], steps[i])
  {
    hide Steady, FitsAll, Apply, AsWritten, Exact, Lead, KeepsStep;
    PollsAloneAreExact(dbs, steps, |steps|);
    forall i | 0 <= i < |steps| ensures FitsAll(dbs[i], steps[i]) {
      SteadyAt(dbs, steps, 0, i);
      ExactFitsAll(dbs[i], steps[i]);
    }
  }

  /** So from an empty file, on polls alone, the code as written keeps all of that in every state. */
  lemma FreshPollsAreSound(dbs: seq<Db>, steps: seq<Step>, k: nat)
    requires IsRun(dbs, steps) && Monotone(0, steps) && k <= |steps| && Blank(dbs[0]) && dbs[0].nextHourRow == 1
    requires forall i :: 0 <= i < |steps| ==> AsWritten(dbs[i], steps[i]) && KeepsStep(steps[i])
    ensures AllGood(dbs[k], Clock(0, steps, k))
  {
    BlankIsAllGood(dbs[0]);
    assert Lead(dbs[0]) == 0;
    hide Steady, CarsMatch, Ordered, DriveFacts, DrivesTight, ChargesTight, Spaced, DrivesFollow, Apply, AsWritten;
    hide Lead, KeepsStep, OwnPoint, FollowsEnds, TakesPoint, GapFits, SampleStepFits, Ranged, Compact, Blank, AllAlong;
    hide IsRun, Monotone, Clock, IsClosedDrive;
    FreshPollsFit(dbs, steps);
    AlwaysSteady(dbs, steps, 0, k);
    PointsLieOnTheirCarsDrives(dbs, steps, 0, k);
    SessionsFollowEachOther(dbs, steps, 0, k);
    NoDriveHasAGap(dbs, steps, 0, {}, k);
    NoChargeHasAGap(dbs, steps, 0, {}, k);
    CompactionRemovesNothing(dbs, steps, 0, k);
    ClosedDrivesKeepTheirFacts(dbs, steps, 0, k);
    FactsSinceBlank(dbs[0], dbs[k]);
  }

  lemma FactsSinceBlank(db: Db, after: Db)
    requires Blank(db) && DrivesFollow(db, after)
    ensures forall d :: IsClosedDrive(after, d) ==> DriveFacts(after, d)
  {
    hide DriveFacts;
  }

  lemma InStepIsExact(db: Db, s: Step)
    requires Lead(db) == 0 && AsWritten(db, s)
    ensures Exact(db, s)
  {
    hide AtSnapshot, RefreshInserts, AsWritten, Exact;
    WrittenPollIsExact(db, s);
  }

  lemma StreamLead(db: Db, car: Id, r: Reading, now: nat)
    ensures Lead(StreamRow(db, car, r, now)) ==
            Lead(db) + if SampleDue(StreamRows(db, car), now) then 1 else 0
  {
    hide SampleDue, StreamRows, StreamDrive;
    if SampleDue(StreamRows(db, car), now) {
      assert StreamRow(db, car, r, now).positions.Keys == db.positions.Keys + {NextPosition(db)};
      NextAfterInsert(db.positions.Keys);
    }
  }

  /** In a run of the code as written, once one streamed row has put the position ids ahead, every later
      poll with an ideal range goes on with a row that is not the one it inserted, until a restart. */
  lemma {:induction false} EveryLaterPollMisses(dbs: seq<Db>, steps: seq<Step>, k: nat)
    requires IsRun(dbs, steps) && k < |steps| && Ahead(dbs[0])
    requires forall i :: 0 <= i < |steps| ==> AsWritten(dbs[i], steps[i]) && !steps[i].RestartStep?
    requires steps[k].IsPoll() && steps[k].reading.ideal.Some?
    ensures !Exact(dbs[k], steps[k])
  {
    hide Apply, AsWritten;
    AheadAllAlong(dbs, steps, k);
    var s := steps[k];
    assert AsWritten(dbs[k], s);
    WrittenPollIsExact(dbs[k], s);
  }

  lemma {:induction false} AheadAllAlong(dbs: seq<Db>, steps: seq<Step>, k: nat)
    requires IsRun(dbs, steps) && k <= |steps| && Ahead(dbs[0])
    requires forall i :: 0 <= i < |steps| ==> !steps[i].RestartStep?
    ensures Ahead(dbs[k])
  {
    hide Apply;
    if k > 0 {
      AheadAllAlong(dbs, steps, k - 1);
      StaysAhead(dbs[k - 1], steps[k - 1]);
    }
  }
}
