/** What the stale check closes and what it leaves, exactly (src/logger.rs). */
module Sweep {
  import opened Base
  import opened Chrono
  import opened Tables
  import opened Ledger
  import opened Sessions

  // ---------- What the stale check closes, and what it leaves ----------

  /** At most fifteen minutes before, in whole seconds. */
  predicate Recent(date: nat, now: nat) {
    now / 1000 - date / 1000 <= 15 * 60
  }

  /** The drive has a point that is recent, or has none and started recently. */
  ghost predicate FreshDrive(db: Db, d: Id, now: nat) {
    d in db.drives &&
    if exists q :: OnDrive(db, q, d)
    then exists q :: OnDrive(db, q, d) && Recent(db.positions[q].date, now)
    else Recent(db.drives[d].startDate, now)
  }

  predicate TickOf(db: Db, c: Id, p: Id) {
    c in db.charges && db.charges[c].process == p
  }

  /** The charge has a tick that is recent, or has none and started recently. */
  ghost predicate FreshCharge(db: Db, p: Id, now: nat) {
    p in db.processes &&
    if exists c :: TickOf(db, c, p)
    then exists c :: TickOf(db, c, p) && Recent(db.charges[c].date, now)
    else Recent(db.processes[p].startDate, now)
  }

  lemma StaleIsNotRecent(date: nat, now: nat)
    ensures IsStale(date, now) <==> !Recent(date, now)
  {
  }

  /** The last date is recent exactly when some date is. */
  lemma LastIsRecent(rows: Dates, otherwise: nat, now: nat)
    ensures !IsStale(LastDate(rows, otherwise), now) <==>
            if rows == map[] then Recent(otherwise, now) else exists k :: k in rows && Recent(rows[k], now)
  {
    if rows != map[] {
      var last := Latest(rows);
      StaleIsNotRecent(rows[last], now);
      if k :| k in rows && Recent(rows[k], now) {
        assert k != last ==> Before(rows, k, last);
        assert rows[k] / 1000 <= rows[last] / 1000;
      }
    }
  }

  lemma StaleDrivesAreNotFresh(db: Db, car: Id, d: Id, now: nat)
    requires d in OpenDrives(db, car)
    ensures d in StaleDrives(db, car, now) <==> !FreshDrive(db, d, now)
  {
    hide IsStale, LastDate, Recent;
    var rows := DriveRows(db, d);
    LastIsRecent(rows, db.drives[d].startDate, now);
    assert forall q :: OnDrive(db, q, d) <==> q in rows;
  }

  lemma StaleChargesAreNotFresh(db: Db, car: Id, p: Id, now: nat)
    requires p in OpenCharges(db, car)
    ensures p in StaleCharges(db, car, now) <==> !FreshCharge(db, p, now)
  {
    hide IsStale, LastDate, Recent;
    var rows := ChargeRows(db, p);
    LastIsRecent(rows, db.processes[p].startDate, now);
    assert forall c :: TickOf(db, c, p) <==> c in rows;
  }

  /** The stale check leaves an open drive of the car as it is, points and all, when it is fresh, and else it is no
      longer open; every other drive is left alone. */
  lemma SweepIsExactForDrives(db: Db, car: Id, now: nat, d: Id)
    requires d in db.drives
    ensures var after := CloseStale(db, car, now).db;
            if d in OpenDrives(db, car) && !FreshDrive(db, d, now) then !IsOpen(after, OnRoad(d))
            else d in after.drives && after.drives[d] == db.drives[d]
    ensures var after := CloseStale(db, car, now).db;
            !(d in OpenDrives(db, car) && !FreshDrive(db, d, now)) ==>
              forall q :: OnDrive(after, q, d) == OnDrive(db, q, d) && (OnDrive(db, q, d) ==>
                after.positions[q] == db.positions[q])
  {
    hide CloseDrives, CompleteCharges, StaleDrives, StaleCharges, FreshDrive;
    var stale := StaleDrives(db, car, now);
    var mid := CloseDrives(db, stale);
    CloseDrivesCloses(db, stale);
    CompletingLeavesOthers(mid, car, StaleCharges(mid, car, now));
    if d in OpenDrives(db, car) {
      StaleDrivesAreNotFresh(db, car, d, now);
    } else {
      OnlyOpenAreStale(db, car, now);
    }
    if d !in stale { ClosingLeavesDrive(db, stale, d); }
  }

  lemma OnlyOpenAreStale(db: Db, car: Id, now: nat)
    ensures forall d :: d in StaleDrives(db, car, now) ==> d in OpenDrives(db, car)
    ensures forall p :: p in StaleCharges(db, car, now) ==> p in OpenCharges(db, car)
  {
  }

  lemma {:induction false} ClosingLeavesDrive(db: Db, todo: Dates, d: Id)
    requires d in db.drives && d !in todo
    ensures var after := CloseDrives(db, todo);
            && d in after.drives && after.drives[d] == db.drives[d]
            && forall q :: OnDrive(after, q, d) == OnDrive(db, q, d) &&
                           (OnDrive(db, q, d) ==> after.positions[q] == db.positions[q])
    decreases |todo|
  {
    hide CloseDrive;
    if todo != map[] {
      var e := Earliest(todo);
      OneCloseLeavesDrive(db, e, d);
      ClosingLeavesDrive(CloseDrive(db, e), todo - {e}, d);
    }
  }

  lemma OneCloseLeavesDrive(db: Db, e: Id, d: Id)
    requires d in db.drives && d != e
    ensures var after := CloseDrive(db, e);
            && d in after.drives && after.drives[d] == db.drives[d]
            && forall q :: OnDrive(after, q, d) == OnDrive(db, q, d) &&
                           (OnDrive(db, q, d) ==> after.positions[q] == db.positions[q])
  {
    hide TooShort, ClosedDrive;
  }

  /** The same for charges: one that is fresh is left as it is; one that is not is no longer open once the check runs to
      its end; no tick is touched. */
  lemma SweepIsExactForCharges(db: Db, car: Id, now: nat, p: Id)
    requires p in db.processes
    ensures var step := CloseStale(db, car, now);
            if p in OpenCharges(db, car) && !FreshCharge(db, p, now) then step.ok ==> !IsOpen(step.db, OnPlug(p))
            else p in step.db.processes && step.db.processes[p] == db.processes[p]
    ensures CloseStale(db, car, now).db.charges == db.charges
  {
    hide CloseDrives, CompleteCharges, StaleDrives, StaleCharges, FreshCharge;
    var mid := CloseDrives(db, StaleDrives(db, car, now));
    ClosingLeavesCharges(db, StaleDrives(db, car, now));
    SameStaleCharges(db, mid, car, now);
    var stale := StaleCharges(mid, car, now);
    CompletingLeavesOthers(mid, car, stale);
    CompleteChargesCloses(mid, car, stale);
    if p in OpenCharges(db, car) {
      StaleChargesAreNotFresh(db, car, p, now);
    } else {
      OnlyOpenAreStale(db, car, now);
    }
  }

  lemma SweepLeavesTicks(db: Db, car: Id, now: nat)
    ensures CloseStale(db, car, now).db.charges == db.charges
  {
    hide CloseDrives, CompleteCharges, StaleDrives, StaleCharges;
    ClosingLeavesCharges(db, StaleDrives(db, car, now));
    var mid := CloseDrives(db, StaleDrives(db, car, now));
    CompletingLeavesOthers(mid, car, StaleCharges(mid, car, now));
  }

  /** The check in one: per drive, per charge, and no tick is touched. */
  ghost predicate SweptExactly(db: Db, after: Db, ok: bool, car: Id, now: nat) {
    && after.charges == db.charges
    && (forall d :: d in db.drives ==>
          if d in OpenDrives(db, car) && !FreshDrive(db, d, now) then !IsOpen(after, OnRoad(d))
          else d in after.drives && after.drives[d] == db.drives[d])
    && (forall p :: p in db.processes ==>
          if p in OpenCharges(db, car) && !FreshCharge(db, p, now) then ok ==> !IsOpen(after, OnPlug(p))
          else p in after.processes && after.processes[p] == db.processes[p])
  }

  lemma SweepIsExact(db: Db, car: Id, now: nat)
    ensures SweptExactly(db, CloseStale(db, car, now).db, CloseStale(db, car, now).ok, car, now)
  {
    hide CloseStale, FreshDrive, FreshCharge;
    var step := CloseStale(db, car, now);
    SweepLeavesTicks(db, car, now);
    forall d | d in db.drives
      ensures if d in OpenDrives(db, car) && !FreshDrive(db, d, now) then !IsOpen(step.db, OnRoad(d))
              else d in step.db.drives && step.db.drives[d] == db.drives[d]
    {
      SweepIsExactForDrives(db, car, now, d);
    }
    forall p | p in db.processes
      ensures if p in OpenCharges(db, car) && !FreshCharge(db, p, now) then step.ok ==> !IsOpen(step.db, OnPlug(p))
              else p in step.db.processes && step.db.processes[p] == db.processes[p]
    {
      SweepIsExactForCharges(db, car, now, p);
    }
  }

  // ---------- Polls of one car in a row ----------

  predicate Of(s: Step, car: Id) { !s.RestartStep? && s.car == car }

  /** The last poll of the car before `k`. */
  function Last(steps: seq<Step>, car: Id, a: nat, k: nat): (j: nat)
    requires a < k <= |steps|
    ensures a <= j < k && (Of(steps[a], car) ==> Of(steps[j], car))
    ensures forall i :: j < i < k ==> !Of(steps[i], car)
    decreases k
  {
    if k - 1 == a || Of(steps[k - 1], car) then k - 1 else Last(steps, car, a, k - 1)
  }

  /** The poll at `k`, if it is one of the car, comes at most fifteen minutes after the one before. */
  ghost predicate NoPause(steps: seq<Step>, car: Id, a: nat, k: nat)
    requires a < k < |steps|
  {
    Of(steps[k], car) ==> Recent(steps[Last(steps, car, a, k)].now, steps[k].now)
  }
}
