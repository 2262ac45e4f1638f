/** Thinning the streamed positions (src/db.rs). */
module Compaction {
  import opened Base
  import opened Chrono
  import opened Tables
  import opened Rollup
  import opened Ledger
  import opened Sessions
  import opened Integrity
  import opened Roads

  function Bucket(date: nat): nat { Seconds(date) / STREAM_SAMPLE_SECS }

  /** A position some drive or charge refers to. */
  predicate Referenced(db: Db, p: Id) {
    || (exists d :: d in db.drives && (db.drives[d].startPos == Some(p) || db.drives[d].endPos == Some(p)))
    || (exists q :: q in db.processes && db.processes[q].position == p)
  }

  /** Rows of one `GROUP BY`: the same drive, or no drive and the same car. */
  predicate SameGroup(a: Position, b: Position) {
    a.drive == b.drive && (a.drive.None? ==> a.car == b.car)
  }

  /** Two streamed rows of one group in one bucket. */
  predicate Rivals(positions: map<Id, Position>, p: Id, q: Id) {
    && p in positions && q in positions
    && positions[p].ideal.None? && positions[q].ideal.None?
    && SameGroup(positions[p], positions[q])
    && Bucket(positions[p].date) == Bucket(positions[q].date)
  }

  /** `MIN(id)` of its bucket. */
  predicate Least(positions: map<Id, Position>, p: Id) {
    forall q :: q in positions && Rivals(positions, p, q) ==> p <= q
  }

  predicate Kept(db: Db, p: Id)
    requires p in db.positions
  {
    db.positions[p].ideal.Some? || Referenced(db, p) || Least(db.positions, p)
  }

  /** The whole compaction as one filter, in no order. */
  function Compact(db: Db): Db {
    db.(positions := map p | p in db.positions && Kept(db, p) :: db.positions[p])
  }

  /** Every streamed row has a row in its group and bucket that survives. */
  lemma {:induction false} BucketSurvives(db: Db, p: Id)
    requires p in db.positions && db.positions[p].ideal.None?
    ensures exists q :: q in Compact(db).positions && Rivals(db.positions, p, q) && Least(db.positions, q)
    decreases p
  {
    if Least(db.positions, p) {
      assert Rivals(db.positions, p, p) && p in Compact(db).positions;
    } else {
      var r :| r in db.positions && Rivals(db.positions, p, r) && r < p;
      BucketSurvives(db, r);
      var q :| q in Compact(db).positions && Rivals(db.positions, r, q) && Least(db.positions, q);
      assert Rivals(db.positions, p, q);
    }
  }

  /** A second compaction removes nothing. */
  lemma CompactIsIdempotent(db: Db)
    ensures Compact(Compact(db)) == Compact(db)
  {
    var once := Compact(db);
    forall p | p in once.positions ensures Kept(once, p) {
      if db.positions[p].ideal.None? && !Referenced(db, p) {
        assert Least(db.positions, p);
        forall q | q in once.positions && Rivals(once.positions, p, q) ensures p <= q {
          assert Rivals(db.positions, p, q);
        }
      }
    }
    assert Compact(once).positions == once.positions;
  }

  /** No drive, and no car's rows on no drive, loses all its rows. */
  lemma GroupsStayNonEmpty(db: Db, p: Id)
    requires p in db.positions
    ensures exists q :: q in Compact(db).positions && SameGroup(db.positions[p], db.positions[q])
  {
    if db.positions[p].ideal.Some? {
      assert p in Compact(db).positions && SameGroup(db.positions[p], db.positions[p]);
    } else {
      BucketSurvives(db, p);
      var q :| q in Compact(db).positions && Rivals(db.positions, p, q);
      assert SameGroup(db.positions[p], db.positions[q]);
    }
  }

  /** The guard against an empty result is never reached. */
  lemma GuardIsNeverReached(db: Db)
    ensures db.positions != map[] ==> Compact(db).positions != map[]
  {
    if p :| p in db.positions {
      GroupsStayNonEmpty(db, p);
    }
  }

  /** Rows that sessions refer to survive. */
  lemma ReferencesSurvive(db: Db, p: Id)
    requires p in db.positions && Referenced(db, p)
    ensures p in Compact(db).positions && Compact(db).positions[p] == db.positions[p]
  {
  }

  /** An earlier streamed row of the same drive, or of the same car where both are on no drive, from the same five
      seconds. */
  ghost predicate OlderInBucket(db: Db, p: Id, q: Id)
    requires p in db.positions
  {
    && q in db.positions && q < p && db.positions[q].ideal.None?
    && db.positions[q].drive == db.positions[p].drive
    && (db.positions[p].drive.None? ==> db.positions[q].car == db.positions[p].car)
    && db.positions[q].date / 5000 == db.positions[p].date / 5000
  }

  /** A row goes exactly when it is streamed, no drive starts or ends with it, no charge was begun at it, and its five
      seconds have an earlier row. */
  lemma RemovedWhen(db: Db, p: Id)
    requires p in db.positions
    ensures p !in Compact(db).positions <==>
            && db.positions[p].ideal.None?
            && (forall d :: d in db.drives ==> db.drives[d].startPos != Some(p) && db.drives[d].endPos != Some(p))
            && (forall q :: q in db.processes ==> db.processes[q].position != p)
            && exists q :: OlderInBucket(db, p, q)
    ensures p in Compact(db).positions ==> Compact(db).positions[p] == db.positions[p]
  {
    if db.positions[p].ideal.None? {
      forall q: Id ensures OlderInBucket(db, p, q) <==> q < p && Rivals(db.positions, p, q) {
        if q in db.positions {
          SameBucket(db.positions[p].date, db.positions[q].date);
        }
      }
    }
  }

  lemma SameBucket(a: nat, b: nat)
    ensures Bucket(a) == Bucket(b) <==> a / 5000 == b / 5000
  {
    assert Bucket(a) == a / 5000 && Bucket(b) == b / 5000;
  }

  /** Nothing that the ledger relies on breaks: no session refers to a row removed. */
  lemma CompactKeepsSteady(db: Db, now: nat)
    requires Steady(db, now)
    ensures Steady(Compact(db), now)
  {
    hide Least, OneOpen, ChargesInOrder;
    var after := Compact(db);
    SameSessionsStayOpen(db, after);
    forall p ensures PositionOk(after, now, p) { assert PositionOk(db, now, p); }
    forall d ensures DriveOk(after, now, d) { assert DriveOk(db, now, d); }
    forall c ensures ChargeOk(after, now, c) { assert ChargeOk(db, now, c); }
    forall q ensures ProcessOk(after, now, q) { assert ProcessOk(db, now, q); }
  }

  lemma SameSessionsStayOpen(db: Db, after: Db)
    requires after.drives == db.drives && after.processes == db.processes && after.charges == db.charges
    ensures OneOpen(db) ==> OneOpen(after)
    ensures ChargesInOrder(db) ==> ChargesInOrder(after)
  {
    forall a ensures IsOpen(after, a) <==> IsOpen(db, a) {
    }
    forall a, b ensures Follows(after, a, b) == Follows(db, a, b) {
    }
  }

  lemma CompactRollup(db: Db)
    requires RollupAgrees(db)
    ensures RollupAgrees(Compact(db))
  {
    hide HourAgrees, Kept;
    var after := Compact(db);
    forall p ensures Ideal(db.positions, p) <==> Ideal(after.positions, p) { IdealIsKept(db, p); }
    SamplesKept(db.positions, after.positions);
    AgreesAfterSamePositions(db, after);
  }

  lemma IdealIsKept(db: Db, p: Id)
    ensures Ideal(db.positions, p) <==> Ideal(Compact(db).positions, p)
  {
  }

  lemma CompactRows(db: Db, d: Id)
    ensures forall p :: p in DriveRows(Compact(db), d) ==>
      p in DriveRows(db, d) && DriveRows(Compact(db), d)[p] == DriveRows(db, d)[p]
    ensures IdealRows(Compact(db), d) == IdealRows(db, d)
  {
    var after := Compact(db);
    forall p ensures p in IdealRows(after, d) <==> p in IdealRows(db, d) {
      assert p in IdealRows(db, d) ==> Kept(db, p);
    }
  }

  lemma FirstOfFewer(rows: Dates, fewer: Dates, k: Id)
    requires forall p :: p in fewer ==> p in rows && fewer[p] == rows[p]
    requires k in fewer
    ensures IsEarliest(rows, k) ==> IsEarliest(fewer, k)
    ensures IsLatest(rows, k) ==> IsLatest(fewer, k)
  {
    forall j | j in fewer
      ensures Before(fewer, k, j) == Before(rows, k, j) && Before(fewer, j, k) == Before(rows, j, k)
    {
    }
  }

  lemma EarliestIsUnique(rows: Dates, k: Id)
    requires rows != map[] && IsEarliest(rows, k)
    ensures Earliest(rows) == k
  {
    assert IsEarliest(rows, Earliest(rows));
  }

  lemma LatestIsUnique(rows: Dates, k: Id)
    requires rows != map[] && IsLatest(rows, k)
    ensures Latest(rows) == k
  {
    assert IsLatest(rows, Latest(rows));
  }

  /** Recomputing a closed drive after compaction gives the same ends, dates and ideal ranges. */
  lemma ClosedDriveRecomputes(db: Db, d: Id)
    requires d in db.drives && db.drives[d].endDate.Some? && DriveFacts(db, d)
    ensures var after := Compact(db);
            var rows, drive := DriveRows(after, d), db.drives[d];
            && rows != map[]
            && drive.startPos == Some(Earliest(rows)) && drive.endPos == Some(Latest(rows))
            && drive.startDate == rows[Earliest(rows)] && drive.endDate == Some(rows[Latest(rows)])
            && drive.startIdeal == StartIdeal(after, d) && drive.endIdeal == EndIdeal(after, d)
  {
    hide Kept, StartKm, EndKm;
    var after := Compact(db);
    var rows := DriveRows(db, d);
    var first, last := Earliest(rows), Latest(rows);
    assert Referenced(db, first) && Referenced(db, last);
    ReferencesSurvive(db, first);
    ReferencesSurvive(db, last);
    CompactRows(db, d);
    assert OnDrive(after, first, d) && OnDrive(after, last, d);
    var fewer := DriveRows(after, d);
    assert first in fewer && last in fewer;
    FirstOfFewer(rows, fewer, first);
    FirstOfFewer(rows, fewer, last);
    EarliestIsUnique(fewer, first);
    LatestIsUnique(fewer, last);
    IdealEndsKept(db, d);
  }

  lemma IdealEndsKept(db: Db, d: Id)
    ensures StartIdeal(Compact(db), d) == StartIdeal(db, d) && EndIdeal(Compact(db), d) == EndIdeal(db, d)
  {
    hide Kept;
    CompactRows(db, d);
  }

  /** The points a distance is taken from are the same after compaction exactly when it keeps them. */
  lemma OdometerEndsSurvive(db: Db, d: Id)
    requires OdometerRows(db, d) != map[]
    ensures var rows, fewer := OdometerRows(db, d), OdometerRows(Compact(db), d);
            Kept(db, Earliest(rows)) && Kept(db, Latest(rows)) <==>
            fewer != map[] && Earliest(fewer) == Earliest(rows) && Latest(fewer) == Latest(rows)
  {
    hide Kept;
    var rows, fewer := OdometerRows(db, d), OdometerRows(Compact(db), d);
    var first, last := Earliest(rows), Latest(rows);
    forall p ensures p in fewer <==> p in rows && Kept(db, p) {
    }
    if Kept(db, first) && Kept(db, last) {
      FirstOfFewer(rows, fewer, first);
      FirstOfFewer(rows, fewer, last);
      EarliestIsUnique(fewer, first);
      LatestIsUnique(fewer, last);
    }
  }

  /** So the distance of a drive recomputes to the same value when compaction keeps the first and the last point with
      an odometer; it always does when those are the ends of the drive. */
  lemma DistanceRecomputes(db: Db, d: Id)
    requires d in db.drives && DriveFacts(db, d)
    ensures var rows, drive := OdometerRows(db, d), db.drives[d];
            && (Kept(db, Earliest(rows)) && Kept(db, Latest(rows)) ==> Distance(Compact(db), d) == drive.distance)
            && (db.positions[drive.startPos.value].odometer.Some? && db.positions[drive.endPos.value].odometer.Some? ==>
                  Kept(db, Earliest(rows)) && Kept(db, Latest(rows)))
  {
    OdometerEndsSurvive(db, d);
    var drive := db.drives[d];
    var first, last := drive.startPos.value, drive.endPos.value;
    if db.positions[first].odometer.Some? && db.positions[last].odometer.Some? {
      OdometerEnds(db, d, first, last);
      assert Referenced(db, first) && Referenced(db, last);
    }
  }

  lemma OdometerEnds(db: Db, d: Id, first: Id, last: Id)
    requires IsEarliest(DriveRows(db, d), first) && IsLatest(DriveRows(db, d), last)
    requires first in db.positions && last in db.positions
    requires db.positions[first].odometer.Some? && db.positions[last].odometer.Some?
    ensures first in OdometerRows(db, d) && last in OdometerRows(db, d)
    ensures IsEarliest(OdometerRows(db, d), first) && IsLatest(OdometerRows(db, d), last)
    ensures Earliest(OdometerRows(db, d)) == first && Latest(OdometerRows(db, d)) == last
  {
    FirstOfFewer(DriveRows(db, d), OdometerRows(db, d), first);
    FirstOfFewer(DriveRows(db, d), OdometerRows(db, d), last);
    EarliestIsUnique(OdometerRows(db, d), first);
    LatestIsUnique(OdometerRows(db, d), last);
  }
}
