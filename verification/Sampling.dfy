/** The stream's sampling gate leaves compaction nothing to remove (src/logger.rs, src/db.rs). */
module Sampling {
  import opened Base
  import opened Chrono
  import opened Tables
  import opened Rollup
  import opened Ledger
  import opened Sessions
  import opened Changes
  import opened Integrity
  import opened Roads
  import opened Compaction

  /** On no drive, or on a drive that may still be dropped. */
  predicate Loose(db: Db, p: Id)
    requires p in db.positions
  {
    var drive := db.positions[p].drive;
    drive.None? || (drive.value in db.drives && db.drives[drive.value].endDate.None?)
  }

  predicate Streamed(db: Db, p: Id) {
    p in db.positions && db.positions[p].ideal.None?
  }

  /** Two streamed rows that are in one group, or will be if the open drive is dropped. */
  predicate Mates(db: Db, p: Id, q: Id) {
    && p != q && Streamed(db, p) && Streamed(db, q)
    && ((db.positions[p].drive.Some? && db.positions[p].drive == db.positions[q].drive) ||
        (Loose(db, p) && Loose(db, q) && db.positions[p].car == db.positions[q].car))
  }

  /** A streamed row on no drive, and an open drive of its car. */
  predicate Waiting(db: Db, p: Id, d: Id) {
    && Streamed(db, p) && db.positions[p].drive.None?
    && d in db.drives && db.drives[d].endDate.None? && db.drives[d].car == db.positions[p].car
  }

  /** The drive has a point no earlier than `date`. */
  ghost predicate Reaches(db: Db, d: Id, date: nat) {
    exists w :: OnDrive(db, w, d) && date <= db.positions[w].date
  }

  /** Mates lie in different buckets, and an open drive reaches the streamed rows of its car that are on no drive. */
  ghost predicate Sampled(db: Db) {
    && (forall p, q :: Mates(db, p, q) ==> Bucket(db.positions[p].date) != Bucket(db.positions[q].date))
    && (forall p, d :: Waiting(db, p, d) ==> Reaches(db, d, db.positions[p].date))
  }

  /** ... and points lie on drives of their own car. */
  ghost predicate Spaced(db: Db) {
    CarsMatch(db) && Sampled(db)
  }

  /** A sampled table is one compaction leaves as it is. */
  lemma SampledIsCompact(db: Db)
    requires Sampled(db)
    ensures Compact(db) == db
  {
    forall p | p in db.positions ensures Kept(db, p) {
      if db.positions[p].ideal.None? {
        forall q | q in db.positions && Rivals(db.positions, p, q) ensures p <= q {
          assert q != p ==> Mates(db, p, q);
        }
      }
    }
    assert Compact(db).positions == db.positions;
  }

  // ---------- Changes that bring no two streamed rows together ----------

  /** Mates were mates; a row that waits for a drive did so before, and the drive keeps its points. */
  ghost predicate StaysApart(db: Db, after: Db) {
    && (forall p, q :: Mates(after, p, q) ==>
          Mates(db, p, q) &&
          after.positions[p].date == db.positions[p].date && after.positions[q].date == db.positions[q].date)
    && (forall p, d :: Waiting(after, p, d) ==>
          Waiting(db, p, d) && after.positions[p].date == db.positions[p].date && KeepsPoints(db, after, d))
  }

  ghost predicate KeepsPoints(db: Db, after: Db, d: Id) {
    forall w :: OnDrive(db, w, d) ==> OnDrive(after, w, d) && after.positions[w].date == db.positions[w].date
  }

  lemma ApartIsSampled(db: Db, after: Db)
    requires Sampled(db) && StaysApart(db, after)
    ensures Sampled(after)
  {
    forall p, d | Waiting(after, p, d) ensures Reaches(after, d, after.positions[p].date) {
      assert Waiting(db, p, d) && KeepsPoints(db, after, d);
      var w :| OnDrive(db, w, d) && db.positions[p].date <= db.positions[w].date;
      assert OnDrive(after, w, d);
    }
  }

  /** Two rows of a dropped drive, or one of them and a row on no drive, were mates already. */
  lemma DropApart(db: Db, d: Id)
    requires OneOpen(db) && CarsMatch(db) && d in db.drives && db.drives[d].endDate.None? && TooShort(db, d)
    ensures StaysApart(db, CloseDrive(db, d))
  {
    hide TooShort;
    var after := CloseDrive(db, d);
    forall p, q | Mates(after, p, q)
      ensures Mates(db, p, q)
      ensures after.positions[p].date == db.positions[p].date && after.positions[q].date == db.positions[q].date
    {
      assert CarOk(db, p) && CarOk(db, q);
    }
    forall p, e | Waiting(after, p, e)
      ensures Waiting(db, p, e) && after.positions[p].date == db.positions[p].date && KeepsPoints(db, after, e)
    {
      assert CarOk(db, p);
      assert IsOpen(db, OnRoad(e)) && IsOpen(db, OnRoad(d));
    }
  }

  lemma EndApart(db: Db, d: Id)
    requires d in db.drives && db.drives[d].endDate.None? && !TooShort(db, d)
    ensures StaysApart(db, CloseDrive(db, d))
  {
    hide TooShort, ClosedDrive;
  }

  lemma SameRoadsSampled(db: Db, after: Db)
    requires after.positions == db.positions && after.drives == db.drives && Sampled(db)
    ensures Sampled(after)
  {
    forall p, q ensures Mates(after, p, q) == Mates(db, p, q) {
    }
    forall p, d | Waiting(after, p, d) ensures Reaches(after, d, after.positions[p].date) {
      assert Waiting(db, p, d);
      var w :| OnDrive(db, w, d) && db.positions[p].date <= db.positions[w].date;
      assert OnDrive(after, w, d);
    }
  }

  /** A row with a battery range is not a streamed row. */
  lemma SnapshotApart(db: Db, car: Id, r: Reading, now: nat)
    requires r.ideal.Some?
    ensures StaysApart(db, Snapshot(db, car, r, now))
  {
    hide Snapshot;
    var after := Snapshot(db, car, r, now);
    forall p, q | Mates(after, p, q)
      ensures Mates(db, p, q)
      ensures after.positions[p].date == db.positions[p].date && after.positions[q].date == db.positions[q].date
    {
      assert Streamed(after, p) && Streamed(after, q);
    }
    forall p, d | Waiting(after, p, d)
      ensures Waiting(db, p, d) && after.positions[p].date == db.positions[p].date && KeepsPoints(db, after, d)
    {
      assert Streamed(after, p);
    }
  }

  // ---------- The gate ----------

  predicate LooseRow(db: Db, q: Id, car: Id) {
    Streamed(db, q) && Loose(db, q) && db.positions[q].car == car
  }

  lemma LooseIsOpen(db: Db, q: Id, car: Id)
    requires LooseRow(db, q, car) && CarOk(db, q)
    ensures db.positions[q].drive.Some? ==> db.positions[q].drive.value in OpenDrives(db, car)
  {
  }

  /** Every loose streamed row of the car is at least a bucket older than a row the gate lets in. */
  lemma GateSpacing(db: Db, car: Id, now: nat, q: Id)
    requires OneOpen(db) && Spaced(db) && SampleDue(StreamRows(db, car), now)
    requires LooseRow(db, q, car)
    ensures Seconds(db.positions[q].date) + STREAM_SAMPLE_SECS <= Seconds(now)
  {
    var rows := StreamRows(db, car);
    assert CarOk(db, q);
    match StreamDrive(db, car) {
      case Some(d) =>
        assert IsOpen(db, OnRoad(d));
        if db.positions[q].drive.Some? {
          assert IsOpen(db, OnRoad(db.positions[q].drive.value));
          NoneLater(rows, q, db.positions[q].date);
        } else {
          assert Waiting(db, q, d);
          var w :| OnDrive(db, w, d) && db.positions[q].date <= db.positions[w].date;
          NoneLater(rows, w, db.positions[q].date);
        }
      case None =>
        LooseIsOpen(db, q, car);
        NoneLater(rows, q, db.positions[q].date);
    }
  }

  lemma NoneLater(rows: Dates, w: Id, date: nat)
    requires w in rows && date <= rows[w]
    ensures rows != map[] && date <= rows[Latest(rows)] && Seconds(date) <= Seconds(rows[Latest(rows)])
  {
    assert w != Latest(rows) ==> Before(rows, w, Latest(rows));
  }

  lemma StreamSampled(db: Db, car: Id, r: Reading, now: nat)
    requires OneOpen(db) && Spaced(db)
    ensures Sampled(StreamRow(db, car, r, now))
  {
    hide SampleDue, StreamRows, OneOpen, CarsMatch;
    var after := StreamRow(db, car, r, now);
    var k := NextPosition(db);
    if SampleDue(StreamRows(db, car), now) {
      StreamDriveIsOpen(db, car);
      forall p, q | Mates(after, p, q) ensures Bucket(after.positions[p].date) != Bucket(after.positions[q].date) {
        if p == k {
          NewMate(db, after, car, k, q);
          GateSpacing(db, car, now, q);
        } else if q == k {
          assert Mates(after, k, p);
          NewMate(db, after, car, k, p);
          GateSpacing(db, car, now, p);
        } else {
          assert Mates(db, p, q);
        }
      }
      assert forall d :: Waiting(after, k, d) ==> d in OpenDrives(db, car);
      forall p, d | Waiting(after, p, d) ensures Reaches(after, d, after.positions[p].date) {
        if p != k {
          assert Waiting(db, p, d);
          var w :| OnDrive(db, w, d) && db.positions[p].date <= db.positions[w].date;
          assert OnDrive(after, w, d);
        }
      }
    }
  }

  lemma StreamDriveIsOpen(db: Db, car: Id)
    ensures match StreamDrive(db, car)
            case Some(d) => d in db.drives && db.drives[d].endDate.None? && db.drives[d].car == car
            case None => OpenDrives(db, car) == map[]
  {
  }

  lemma NewMate(db: Db, after: Db, car: Id, k: Id, q: Id)
    requires CarsMatch(db) && k !in db.positions && k in after.positions
    requires after == db.(positions := db.positions[k := after.positions[k]])
    requires after.positions[k].car == car && after.positions[k].drive == StreamDrive(db, car)
    requires Mates(after, k, q)
    ensures LooseRow(db, q, car)
  {
    assert CarOk(db, q);
    StreamDriveIsOpen(db, car);
  }

  /** The snapshot of every poll carries a battery range. */
  ghost predicate Ranged(s: Step) {
    s.IsPoll() ==> s.reading.ideal.Some?
  }

  lemma ChangeSpaced(db: Db, c: Change, s: Step)
    requires CanMake(db, c, s) && !c.Files() && Ranged(s) && OneOpen(db) && Spaced(db)
    ensures Spaced(Make(db, c, s))
  {
    hide OneOpen, CarsMatch, Sampled, StaysApart, CloseDrive, CompleteCharge, Snapshot, StreamRow, CatchUp, TooShort;
    ChangeCars(db, c, s);
    if c.CloseOne? {
      if TooShort(db, c.d) { DropApart(db, c.d); } else { EndApart(db, c.d); }
      ApartIsSampled(db, Make(db, c, s));
    } else if c.Snap? {
      SnapshotApart(db, s.car, s.reading, s.now);
      ApartIsSampled(db, Make(db, c, s));
    } else if c.Stream? {
      StreamSampled(db, s.car, s.reading, s.now);
    } else {
      SameRoadsSampled(db, Make(db, c, s));
    }
  }

  // ---------- Filing a point ----------

  /** Filing `p` for `car` brings no two streamed rows together: the row is the car's own; if it is a streamed row, no
      other loose one of the car is in its bucket; and a drive opened with it reaches those on no drive. */
  ghost predicate SampleFits(db: Db, p: Id, car: Id, opens: bool)
    requires p in db.positions
  {
    && db.positions[p].car == car
    && (Streamed(db, p) ==> forall q :: LooseRow(db, q, car) && q != p ==>
          Bucket(db.positions[q].date) != Bucket(db.positions[p].date))
    && (opens ==> forall q :: LooseRow(db, q, car) && q != p ==> db.positions[q].date <= db.positions[p].date)
  }

  /** Point `p` of the car is put on its open drive `d`, which `opens` says is new. */
  ghost predicate PutOn(db: Db, after: Db, p: Id, d: Id, car: Id, opens: bool) {
    && p in db.positions && db.positions[p].car == car
    && after.positions == db.positions[p := db.positions[p].(drive := Some(d))]
    && d in after.drives && after.drives[d].endDate.None? && after.drives[d].car == car
    && after.drives == db.drives[d := after.drives[d]]
    && (opens ==> d !in db.drives && OpenDrives(db, car) == map[])
    && (!opens ==> after.drives == db.drives)
    && (forall q :: q in db.positions && db.positions[q].drive.Some? ==> db.positions[q].drive.value in db.drives)
  }

  lemma FilingPutsOn(db: Db, c: Change, s: Step)
    requires CanMake(db, c, s) && c.Files() && Steady(db, s.now) && db.positions[c.p].car == s.car
    ensures PutOn(db, Make(db, c, s), c.p, if c.Open? then NextId(db.drives.Keys) else c.d, s.car, c.Open?)
  {
    hide OneOpen, ChargesInOrder;
    forall q | q in db.positions && db.positions[q].drive.Some? ensures db.positions[q].drive.value in db.drives {
      assert PositionOk(db, s.now, q);
    }
  }

  lemma SampledFits(db: Db, after: Db, p: Id, d: Id, car: Id, opens: bool)
    requires PutOn(db, after, p, d, car, opens) && CarsMatch(db) && Sampled(after)
    ensures SampleFits(db, p, car, opens)
  {
    forall q | LooseRow(db, q, car) && q != p
      ensures Streamed(db, p) ==> Bucket(db.positions[q].date) != Bucket(db.positions[p].date)
      ensures opens ==> db.positions[q].date <= db.positions[p].date
    {
      assert CarOk(db, q);
      assert Streamed(db, p) ==> Mates(after, p, q);
      if opens {
        LooseIsOpen(db, q, car);
        assert Waiting(after, q, d);
      }
    }
  }

  lemma FitsSampled(db: Db, after: Db, p: Id, d: Id, car: Id, opens: bool)
    requires PutOn(db, after, p, d, car, opens) && OneOpen(db) && Spaced(db) && SampleFits(db, p, car, opens)
    ensures Sampled(after)
  {
    hide OneOpen;
    forall a, b | Mates(after, a, b) ensures Bucket(after.positions[a].date) != Bucket(after.positions[b].date) {
      assert CarOk(db, a) && CarOk(db, b);
      assert a != p && b != p ==> Mates(db, a, b);
      assert a == p ==> LooseRow(db, b, car);
      assert b == p ==> LooseRow(db, a, car);
    }
    forall a, e | Waiting(after, a, e) ensures Reaches(after, e, after.positions[a].date) {
      if e == d && opens {
        assert LooseRow(db, a, car) && OnDrive(after, p, d);
      } else {
        assert Waiting(db, a, e);
        var w :| OnDrive(db, w, e) && db.positions[a].date <= db.positions[w].date;
        if w == p { StaysPut(db, after, p, d, car, opens, e); }
        assert OnDrive(after, w, e);
      }
    }
  }

  /** A point of an open drive of its own car is filed where it is. */
  lemma StaysPut(db: Db, after: Db, p: Id, d: Id, car: Id, opens: bool, e: Id)
    requires PutOn(db, after, p, d, car, opens) && OneOpen(db) && CarsMatch(db)
    requires OnDrive(db, p, e) && IsOpen(db, OnRoad(e))
    ensures e == d
  {
    assert CarOk(db, p) && e in OpenDrives(db, car);
    assert IsOpen(db, OnRoad(d));
  }

  lemma FilingSpaced(db: Db, c: Change, s: Step)
    requires CanMake(db, c, s) && c.Files() && Steady(db, s.now) && Spaced(db)
    ensures Spaced(Make(db, c, s)) <==> SampleFits(db, c.p, s.car, c.Open?)
  {
    hide Steady, CarsMatch, Sampled, PutOn, Make;
    SteadyIsOneOpen(db, s.now);
    FilingCars(db, c, s);
    if db.positions[c.p].car == s.car {
      var d := if c.Open? then NextId(db.drives.Keys) else c.d;
      FilingPutsOn(db, c, s);
      if Sampled(Make(db, c, s)) { SampledFits(db, Make(db, c, s), c.p, d, s.car, c.Open?); }
      if SampleFits(db, c.p, s.car, c.Open?) { FitsSampled(db, Make(db, c, s), c.p, d, s.car, c.Open?); }
    }
  }

  // ---------- Steps and runs ----------

  ghost predicate SampleStepFits(db: Db, s: Step) {
    FilesPoint(db, s) ==> SampleFits(AtFiling(db, s), s.handed, s.car, Filing(db, s).Open?)
  }

  lemma StepSampled(db: Db, s: Step)
    requires Steady(db, s.now) && Ranged(s) && Spaced(db)
    ensures HoldsThroughout(Spaced, db, s) <==> SampleStepFits(db, s)
  {
    hide Steady, Spaced, CanMake, Make, Apply, AtFiling, SampleFits, Ranged;
    forall d, c: Change | CanMake(d, c, s) && !c.Files() && Steady(d, s.now) && Spaced(d)
      ensures Spaced(Make(d, c, s))
    {
      SteadyIsOneOpen(d, s.now);
      ChangeSpaced(d, c, s);
    }
    if FilesPoint(db, s) && Steady(AtFiling(db, s), s.now) && Spaced(AtFiling(db, s)) {
      FilingAllowed(db, s);
      FilingSpaced(AtFiling(db, s), Filing(db, s), s);
    }
    SteadyKeepsWhenFit(Spaced, db, s, FilesPoint(db, s) && SampleStepFits(db, s));
  }

  /** Over every run whose snapshots carry a battery range: streamed rows stay spaced exactly when every row filed
      fits, and then compaction has nothing to remove in any state. */
  lemma CompactionRemovesNothing(dbs: seq<Db>, steps: seq<Step>, start: nat, n: nat)
    requires IsRun(dbs, steps) && Monotone(start, steps) && n <= |steps|
    requires forall i :: 0 <= i < |steps| ==> Ranged(steps[i])
    requires Steady(dbs[0], start) && Spaced(dbs[0])
    ensures AllAlong(Spaced, dbs, steps, n) <==> forall k :: 0 <= k < n ==> SampleStepFits(dbs[k], steps[k])
    ensures AllAlong(Spaced, dbs, steps, n) ==> forall k :: 0 <= k <= n ==> Compact(dbs[k]) == dbs[k]
  {
    hide Steady, Spaced, Apply, SampleStepFits, HoldsThroughout, AllAlong, Compact;
    forall k | 0 <= k < n && Spaced(dbs[k])
      ensures HoldsThroughout(Spaced, dbs[k], steps[k]) <==> SampleStepFits(dbs[k], steps[k])
    {
      SteadyAt(dbs, steps, start, k);
      assert Ranged(steps[k]);
      StepSampled(dbs[k], steps[k]);
    }
    RunKeepsWhenFit(Spaced, SampleStepFits, dbs, steps, n);
    forall k | 0 <= k <= n && Spaced(dbs[k]) ensures Compact(dbs[k]) == dbs[k] { SpacedIsCompact(dbs[k]); }
  }

  lemma SpacedIsCompact(db: Db)
    requires Spaced(db)
    ensures Compact(db) == db
  {
    SampledIsCompact(db);
  }

  /** A poll with a battery range that goes on with its own row always fits. */
  lemma ExactSampleFits(db: Db, s: Step)
    requires Exact(db, s) && Ranged(s) && Steady(db, s.now)
    ensures SampleStepFits(db, s)
  {
    if FilesPoint(db, s) {
      SteadyIsOneOpen(db, s.now);
      ExactFiling(db, s);
      SteadyAtFiling(db, s);
      hide AtFiling, Exact, FilesPoint, SampleFits;
      NewRowIsSpaced(AtFiling(db, s), s, Filing(db, s).Open?);
    }
  }

  lemma NewRowIsSpaced(db: Db, s: Step, opens: bool)
    requires s.IsPoll() && NewRow(db, s.handed, s) && Ranged(s) && Steady(db, s.now)
    ensures SampleFits(db, s.handed, s.car, opens)
  {
    hide Steady;
    forall q | q in db.positions ensures db.positions[q].date <= s.now { NotAhead(db, s.now, q); }
  }

  lemma NotAhead(db: Db, now: nat, q: Id)
    requires Steady(db, now) && q in db.positions
    ensures db.positions[q].date <= now
  {
    assert PositionOk(db, now, q);
  }
}
