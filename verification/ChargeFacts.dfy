/** What a completed charge says about its ticks, for good, whatever id a snapshot hands back (src/logger.rs). */
module ChargeFacts {
  import opened Base
  import opened Chrono
  import opened Tables
  import opened Rollup
  import opened Fences
  import opened Ledger
  import opened Sessions
  import opened Changes

  ghost predicate ClosedCharge(db: Db, p: Id) {
    p in db.processes && db.processes[p].endDate.Some?
  }

  predicate TickOf(db: Db, c: Id, p: Id) {
    c in db.charges && db.charges[c].process == p
  }

  /** The last tick ends the charge, the first and the last set its length, the greatest reading is its energy,
      and a gain in rated range times the car's efficiency is what it used. */
  ghost predicate Facts(db: Db, p: Id)
    requires p in db.processes
  {
    var rows, row := ChargeRows(db, p), db.processes[p];
    && rows != map[]
    && row.endDate == Some(rows[Latest(rows)])
    && row.durationMin == Some(Minutes(rows[Earliest(rows)], rows[Latest(rows)]))
    && row.added.Some?
    && (exists c :: TickOf(db, c, p) && db.charges[c].energy == row.added.value)
    && (forall c :: TickOf(db, c, p) ==> db.charges[c].energy <= row.added.value)
    && (EnergyUsed(db, row.car, p).Some? ==> row.used == EnergyUsed(db, row.car, p))
  }

  ghost predicate SameCharge(db: Db, after: Db, p: Id) {
    && p in db.processes && p in after.processes && after.processes[p] == db.processes[p]
    && (forall c :: TickOf(db, c, p) ==> TickOf(after, c, p) && after.charges[c] == db.charges[c])
    && (forall c :: TickOf(after, c, p) ==> TickOf(db, c, p))
  }

  /** Charges that were closed are as they were; those that close say what their ticks say. */
  ghost predicate ChargesFollow(db: Db, after: Db) {
    && after.cars == db.cars
    && (forall p :: ClosedCharge(db, p) ==> SameCharge(db, after, p))
    && (forall p :: ClosedCharge(after, p) ==> ClosedCharge(db, p) || Facts(after, p))
  }

  lemma SameChargeSameFacts(db: Db, after: Db, p: Id)
    requires SameCharge(db, after, p) && after.cars == db.cars
    ensures Facts(db, p) ==> Facts(after, p)
  {
    hide EnergyUsed, Minutes;
    assert forall c :: TickOf(db, c, p) <==> TickOf(after, c, p);
    assert ChargeRows(after, p) == ChargeRows(db, p);
    EnergyUsedReads(db, after, db.processes[p].car, p);
  }

  /** The energy used depends on the rated ticks and the car. */
  lemma EnergyUsedReads(db: Db, after: Db, car: Id, p: Id)
    requires after.cars == db.cars
    requires forall c :: TickOf(db, c, p) ==> TickOf(after, c, p) && after.charges[c] == db.charges[c]
    requires forall c :: TickOf(after, c, p) ==> TickOf(db, c, p)
    ensures EnergyUsed(after, car, p) == EnergyUsed(db, car, p)
  {
    hide RangeEnergy;
    forall c ensures c in RatedRows(after, p) <==> c in RatedRows(db, p) {
      assert TickOf(db, c, p) <==> TickOf(after, c, p);
    }
    var rows := RatedRows(db, p);
    assert RatedRows(after, p) == rows;
    if rows != map[] {
      assert TickOf(db, Latest(rows), p) && TickOf(db, Earliest(rows), p);
    }
  }

  lemma FollowsTransitive(a: Db, b: Db, c: Db)
    requires ChargesFollow(a, b) && ChargesFollow(b, c)
    ensures ChargesFollow(a, c)
  {
    hide Facts;
    forall p | ClosedCharge(a, p) ensures SameCharge(a, c, p) {
      assert SameCharge(a, b, p);
      assert ClosedCharge(b, p);
      assert SameCharge(b, c, p);
    }
    forall p | ClosedCharge(c, p) ensures ClosedCharge(a, p) || Facts(c, p) {
      if ClosedCharge(b, p) && !ClosedCharge(a, p) {
        assert SameCharge(b, c, p);
        SameChargeSameFacts(b, c, p);
      }
    }
  }

  /** Neither a process nor a tick changed. */
  lemma SameTablesFollow(db: Db, after: Db)
    requires after.cars == db.cars && after.processes == db.processes && after.charges == db.charges
    ensures ChargesFollow(db, after)
  {
    hide Facts;
  }

  /** Completing an open charge of `car`. */
  lemma CompleteChargeFollows(db: Db, car: Id, p: Id)
    requires !ClosedCharge(db, p) && (p in db.processes ==> db.processes[p].car == car)
    ensures var after := CompleteCharge(db, car, p).db;
            && ChargesFollow(db, after) && after.charges == db.charges
            && SameExcept(after.processes, db.processes, p)
  {
    hide Facts, CompleteCharge;
    var after := CompleteCharge(db, car, p).db;
    if ClosedCharge(after, p) {
      CompletedHasFacts(db, car, p);
    }
  }

  lemma CompletedHasFacts(db: Db, car: Id, p: Id)
    requires p in db.processes && db.processes[p].car == car && !ClosedCharge(db, p)
    requires ClosedCharge(CompleteCharge(db, car, p).db, p)
    ensures Facts(CompleteCharge(db, car, p).db, p)
  {
    hide MaxEnergy, Minutes, EnergyUsed;
    var after, rows := CompleteCharge(db, car, p).db, ChargeRows(db, p);
    assert rows != map[];
    PricedLikeCompleted(db, car, p);
    assert ChargeRows(after, p) == rows;
    EnergyUsedReads(db, after, car, p);
    forall c ensures TickOf(after, c, p) <==> c in rows {
    }
    MaxReads(db, p);
  }

  lemma MaxReads(db: Db, p: Id)
    requires ChargeRows(db, p) != map[]
    ensures var most := MaxEnergy(db, ChargeRows(db, p));
            && (exists c :: TickOf(db, c, p) && db.charges[c].energy == most)
            && (forall c :: TickOf(db, c, p) ==> db.charges[c].energy <= most)
  {
    hide MaxEnergy;
    var rows := ChargeRows(db, p);
    var c :| c in rows && db.charges[c].energy == MaxEnergy(db, rows);
    assert TickOf(db, c, p);
    forall c | TickOf(db, c, p) ensures db.charges[c].energy <= MaxEnergy(db, rows) { assert c in rows; }
  }

  /** Pricing leaves what completing wrote. */
  lemma PricedLikeCompleted(db: Db, car: Id, p: Id)
    requires p in db.processes && ChargeRows(db, p) != map[] && !ClosedCharge(db, p)
    requires ClosedCharge(CompleteCharge(db, car, p).db, p)
    ensures var after, done := CompleteCharge(db, car, p).db, CompletedProcess(db, car, p);
            && after.cars == db.cars && after.charges == db.charges
            && after.processes[p].(fence := done.fence, cost := done.cost) == done
  {
    hide CompletedProcess, PriceCharge;
  }

  lemma OpenChargeFollow(db: Db, after: Db, p: Id)
    requires p !in db.processes && p in after.processes && after.processes[p].endDate.None?
    requires after == db.(processes := db.processes[p := after.processes[p]])
    ensures ChargesFollow(db, after)
  {
    hide Facts;
  }

  lemma AddChargeFollow(db: Db, p: Id, r: Reading, now: nat)
    requires p in db.processes && db.processes[p].endDate.None?
    ensures ChargesFollow(db, AddCharge(db, p, r, now))
  {
    hide Facts;
    var after := AddCharge(db, p, r, now);
    assert forall c :: c in db.charges ==> c in after.charges && after.charges[c] == db.charges[c];
    forall q | ClosedCharge(db, q) ensures SameCharge(db, after, q) {
      assert q != p;
    }
  }

  lemma ChangeFollows(db: Db, c: Change, s: Step)
    requires CanMake(db, c, s)
    ensures ChargesFollow(db, Make(db, c, s))
  {
    hide ChargesFollow, CloseDrive, CompleteCharge, Snapshot, AddCharge, CatchUp, SampleDue, StreamRows, StreamDrive;
    match c {
      case CompleteOne(p) => CompleteChargeFollows(db, db.processes[p].car, p);
      case Begin(p) =>
        var q := NextId(db.processes.Keys);
        var begun := db.(processes := db.processes[q := NewProcess(s.car, s.now, p)]);
        OpenChargeFollow(db, begun, q);
        AddChargeFollow(begun, q, s.reading, s.now);
        FollowsTransitive(db, begun, Make(db, c, s));
      case Tick(q) => AddChargeFollow(db, q, s.reading, s.now);
      case _ => SameTablesFollow(db, Make(db, c, s));
    }
  }

  lemma FollowsIsPreorder()
    ensures Preorder(ChargesFollow)
  {
    hide ChargesFollow;
    forall a ensures ChargesFollow(a, a) { SameTablesFollow(a, a); }
    forall a, b, c | ChargesFollow(a, b) && ChargesFollow(b, c) ensures ChargesFollow(a, c) {
      FollowsTransitive(a, b, c);
    }
  }

  /** Every step leaves closed charges and their ticks alone, and what it closes says what its ticks say. */
  lemma StepKeepsCharges(db: Db, s: Step)
    ensures ChargesFollow(db, Apply(db, s))
  {
    hide ChargesFollow, CanMake, Make, Apply, Preorder;
    FollowsIsPreorder();
    forall d, c | CanMake(d, c, s) ensures ChargesFollow(d, Make(d, c, s)) { ChangeFollows(d, c, s); }
    StepFollows(ChargesFollow, db, s);
  }

  /** Over every run: between two states no closed charge and none of its ticks changes, and every charge closed in
      between says, in the later state, what its ticks say. */
  lemma {:induction false} ClosedChargesAreFinal(dbs: seq<Db>, steps: seq<Step>, j: nat, k: nat)
    requires IsRun(dbs, steps) && j <= k <= |steps|
    ensures ChargesFollow(dbs[j], dbs[k])
    decreases k
  {
    hide Apply, ChargesFollow;
    if j == k {
      SameTablesFollow(dbs[j], dbs[j]);
    } else {
      ClosedChargesAreFinal(dbs, steps, j, k - 1);
      StepKeepsCharges(dbs[k - 1], steps[k - 1]);
      FollowsTransitive(dbs[j], dbs[k - 1], dbs[k]);
    }
  }

  // ---------- A car whose efficiency is NULL ----------

  /** Its open charge and a tick of it are there still. */
  lemma StillBlocked(db: Db, after: Db, car: Id, p: Id, t: Id)
    requires EfficiencyUnreadable(db, car) && after.cars == db.cars
    requires p in OpenCharges(db, car) && t in ChargeRows(db, p)
    requires p in after.processes && after.processes[p].car == car && after.processes[p].endDate.None?
    requires t in after.charges && after.charges[t].process == p
    ensures Blocked(after, car)
  {
    assert p in OpenCharges(after, car) && t in ChargeRows(after, p);
  }

  lemma ChangeKeepsBlocked(db: Db, c: Change, s: Step, car: Id)
    requires CanMake(db, c, s) && Blocked(db, car)
    ensures Blocked(Make(db, c, s), car)
  {
    hide CloseDrive, Snapshot, CompleteCharge, CatchUp, SampleDue, StreamRows, StreamDrive;
    var p :| p in OpenCharges(db, car) && ChargeRows(db, p) != map[];
    var t :| t in ChargeRows(db, p);
    hide Blocked;
    if c.CompleteOne? { ChargeStepOutcome(db, db.processes[c.p].car, c.p); }
    StillBlocked(db, Make(db, c, s), car, p, t);
  }

  lemma StepKeepsBlocked(db: Db, s: Step, car: Id)
    requires Blocked(db, car)
    ensures Blocked(Apply(db, s), car)
  {
    hide Blocked, CanMake, Make, Apply;
    forall d, c | CanMake(d, c, s) && Blocked(d, car) ensures Blocked(Make(d, c, s), car) {
      ChangeKeepsBlocked(d, c, s, car);
    }
    StepKeeps(d => Blocked(d, car), db, s);
  }

  /** Over every run: a blocked car stays blocked, and its charge open, through polls, streams and restarts. */
  lemma {:induction false} BlockedForGood(dbs: seq<Db>, steps: seq<Step>, car: Id, k: nat)
    requires IsRun(dbs, steps) && k <= |steps| && Blocked(dbs[0], car)
    ensures Blocked(dbs[k], car)
  {
    hide Apply, Blocked;
    if k > 0 {
      BlockedForGood(dbs, steps, car, k - 1);
      StepKeepsBlocked(dbs[k - 1], steps[k - 1], car);
    }
  }
}
