/** A stretch of charging polls is one process (src/logger.rs). */
module ChargeStretches {
  import opened Base
  import opened Chrono
  import opened Tables
  import opened Rollup
  import opened Fences
  import opened Ledger
  import opened Sessions
  import opened Changes
  import opened Integrity
  import opened Sweep

  // ---------- Where the tick of a charging poll goes ----------

  /** Every tick belongs to a process that is there. */
  ghost predicate TicksRefer(db: Db) {
    forall c :: c in db.charges ==> db.charges[c].process in db.processes
  }

  lemma ClosingKeepsTicks(db: Db, c: Change, s: Step)
    requires CanMake(db, c, s) && c.Closes() && TicksRefer(db)
    ensures TicksRefer(Make(db, c, s))
  {
    hide CloseDrive, CompleteCharge;
    forall t | t in db.charges ensures db.charges[t].process in Make(db, c, s).processes {
      if c.CompleteOne? && db.charges[t].process == c.p { assert t in ChargeRows(db, c.p); }
    }
  }

  lemma SweepKeepsTicks(db: Db, s: Step)
    requires TicksRefer(db) && s.IsPoll()
    ensures TicksRefer(CloseStale(db, s.car, s.now).db)
  {
    hide TicksRefer, CanMake, Make;
    var rel := (a, b) => TicksRefer(a) ==> TicksRefer(b);
    forall d, c: Change | CanMake(d, c, s) && c.Closes() ensures rel(d, Make(d, c, s)) {
      if TicksRefer(d) { ClosingKeepsTicks(d, c, s); }
    }
    CloseStaleLift(rel, db, s.car, s.now, s);
  }

  /** The tick: its process is open and the car's; it is the fresh one, or else it has no other tick. */
  ghost predicate TickGoesTo(db: Db, after: Db, s: Step, q: Id)
    requires s.IsPoll()
  {
    var c := NextId(db.charges.Keys);
    && after.charges == db.charges[c := Charge(q, s.now, OrZero(s.reading.energy), s.reading.rated)]
    && q in OpenCharges(after, s.car)
    && (forall p :: p in OpenCharges(db, s.car) && FreshCharge(db, p, s.now) ==> p == q)
    && ((forall p :: p in OpenCharges(db, s.car) ==> !FreshCharge(db, p, s.now)) ==>
          forall t :: TickOf(after, t, q) ==> t == c)
  }

  lemma SameFreshCharge(db: Db, after: Db, p: Id, now: nat)
    requires p in db.processes && p in after.processes && after.processes[p] == db.processes[p]
    requires after.charges == db.charges
    ensures FreshCharge(after, p, now) <==> FreshCharge(db, p, now)
  {
    assert forall c :: TickOf(after, c, p) <==> TickOf(db, c, p);
  }

  lemma TailLands(db: Db, s: Step)
    requires s.ChargeStep? && TicksRefer(db) && OneOpen(db)
    requires forall p :: p in OpenCharges(db, s.car) ==> FreshCharge(db, p, s.now)
    requires ChargeTickTail(db, s.car, s.reading, s.now, s.handed).ok
    ensures exists q :: TickGoesTo(db, ChargeTickTail(db, s.car, s.reading, s.now, s.handed).db, s, q)
  {
    hide FreshCharge, OneOpen;
    var open, after := OpenCharges(db, s.car), ChargeTickTail(db, s.car, s.reading, s.now, s.handed).db;
    OnlyOneOpenCharge(db, s.car);
    var q := if open != map[] then Latest(open) else NextId(db.processes.Keys);
    assert TickGoesTo(db, after, s, q);
  }

  /** A charging poll that runs to its end adds one tick, now, to the fresh open charge of its car if there is one; else
      to one that has no other tick. */
  lemma TickLands(db: Db, s: Step)
    requires OneOpen(db) && TicksRefer(db) && s.ChargeStep?
    requires ChargeTick(db, s.car, s.reading, s.now, s.handed).ok
    ensures exists q :: TickGoesTo(db, Apply(db, s), s, q)
  {
    hide Snapshot, AttachRecent, CloseOpenDrives, CloseStale, OneOpen, FreshCharge, ChargeTickTail;
    var parked := CloseOpenDrives(AttachRecent(Snapshot(db, s.car, s.reading, s.now), s.car, s.handed, s.now), s.car);
    ParkedLeavesCharges(db, s.car, s.reading, s.now, s.handed);
    var swept := CloseStale(parked, s.car, s.now);
    SweepKeepsTicks(parked, s);
    CloseStaleCloses(parked, s.car, s.now);
    assert OneOpen(swept.db) by { OneOpenAfter(parked, swept.db); }
    SweepLeavesFresh(parked, s);
    TailLands(swept.db, s);
    var q :| TickGoesTo(swept.db, Apply(db, s), s, q);
    SweptTick(db, parked, swept.db, Apply(db, s), s, q);
  }

  /** The open charges after the check are the fresh ones before it. */
  lemma SweepLeavesFresh(db: Db, s: Step)
    requires s.IsPoll() && CloseStale(db, s.car, s.now).ok
    ensures var swept := CloseStale(db, s.car, s.now).db;
            && swept.charges == db.charges
            && (forall p ::
                  p in OpenCharges(swept, s.car) <==> p in OpenCharges(db, s.car) && FreshCharge(db, p, s.now))
            && (forall p :: p in OpenCharges(swept, s.car) ==> FreshCharge(swept, p, s.now))
  {
    hide CloseStale, FreshCharge;
    var swept := CloseStale(db, s.car, s.now).db;
    CloseStaleCloses(db, s.car, s.now);
    SweepLeavesTicks(db, s.car, s.now);
    forall p ensures p in OpenCharges(swept, s.car) <==> p in OpenCharges(db, s.car) && FreshCharge(db, p, s.now) {
      if p in OpenCharges(swept, s.car) { assert IsOpen(swept, OnPlug(p)) && IsOpen(db, OnPlug(p)); }
      if p in db.processes { SweepIsExactForCharges(db, s.car, s.now, p); }
    }
    forall p | p in OpenCharges(swept, s.car) ensures FreshCharge(swept, p, s.now) {
      SweepIsExactForCharges(db, s.car, s.now, p);
      SameFreshCharge(db, swept, p, s.now);
    }
  }

  lemma SweptTick(db: Db, parked: Db, swept: Db, after: Db, s: Step, q: Id)
    requires s.IsPoll() && TickGoesTo(swept, after, s, q)
    requires parked.processes == db.processes && parked.charges == db.charges == swept.charges
    requires forall p ::
               p in OpenCharges(swept, s.car) <==> p in OpenCharges(parked, s.car) && FreshCharge(parked, p, s.now)
    requires forall p :: p in OpenCharges(swept, s.car) ==> FreshCharge(swept, p, s.now)
    ensures TickGoesTo(db, after, s, q)
  {
    hide FreshCharge;
    assert OpenCharges(parked, s.car) == OpenCharges(db, s.car);
    forall p | p in OpenCharges(db, s.car) ensures FreshCharge(db, p, s.now) <==> FreshCharge(parked, p, s.now) {
      SameFreshCharge(db, parked, p, s.now);
    }
  }

  // ---------- Steps of other cars ----------

  /** The charges of the car and their ticks are as they were, and every tick is. */
  ghost predicate ChargesStand(a: Db, b: Db, car: Id) {
    && (forall q :: q in a.processes && a.processes[q].car == car ==>
          q in b.processes && b.processes[q] == a.processes[q])
    && (forall c :: c in a.charges ==> c in b.charges && b.charges[c] == a.charges[c])
    && (forall c :: c in b.charges && c !in a.charges ==> !OfCar(a, b.charges[c].process, car))
  }

  predicate OfCar(db: Db, q: Id, car: Id) {
    q in db.processes && db.processes[q].car == car
  }

  lemma ChangeLeavesOtherCharges(db: Db, c: Change, s: Step, car: Id)
    requires CanMake(db, c, s) && !s.RestartStep? && s.car != car
    ensures ChargesStand(db, Make(db, c, s), car)
  {
    hide CloseDrive, CompleteCharge, Snapshot, CatchUp, StreamRows, StreamDrive, SampleDue;
  }

  lemma StepLeavesOtherCharges(db: Db, s: Step, car: Id)
    requires !s.RestartStep? && s.car != car
    ensures ChargesStand(db, Apply(db, s), car)
  {
    hide Apply, CanMake, Make;
    var rel := (a, b) => ChargesStand(a, b, car);
    forall d, c | CanMake(d, c, s) ensures rel(d, Make(d, c, s)) { ChangeLeavesOtherCharges(d, c, s, car); }
    StepFollows(rel, db, s);
  }

  /** A tick is never changed. */
  ghost predicate TicksStay(a: Db, b: Db) {
    forall c :: c in a.charges ==> c in b.charges && b.charges[c] == a.charges[c]
  }

  lemma StepKeepsTicks(db: Db, s: Step)
    ensures TicksStay(db, Apply(db, s))
  {
    hide Apply, CanMake, Make;
    forall d, c | CanMake(d, c, s) ensures TicksStay(d, Make(d, c, s)) { ChangeKeepsTicks(d, c, s); }
    StepFollows(TicksStay, db, s);
  }

  lemma ChangeKeepsTicks(db: Db, c: Change, s: Step)
    requires CanMake(db, c, s)
    ensures TicksStay(db, Make(db, c, s))
  {
    hide CloseDrive, CompleteCharge, Snapshot, CatchUp, StreamRows, StreamDrive, SampleDue;
  }

  lemma {:induction false} TicksStayAlong(dbs: seq<Db>, steps: seq<Step>, j: nat, k: nat)
    requires IsRun(dbs, steps) && j <= k <= |steps|
    ensures TicksStay(dbs[j], dbs[k])
    decreases k
  {
    hide Apply;
    if j < k {
      TicksStayAlong(dbs, steps, j, k - 1);
      StepKeepsTicks(dbs[k - 1], steps[k - 1]);
    }
  }

  // ---------- A stretch of charging polls ----------

  /** A step of another car, or a charging poll of this one that runs to its end. */
  ghost predicate ChargesOn(db: Db, s: Step, car: Id) {
    && !s.RestartStep?
    && (s.car == car ==> s.ChargeStep? && ChargeTick(db, s.car, s.reading, s.now, s.handed).ok)
  }

  /** From step `a` up to `b` the car is only polled charging, each time to the end, the first time at `a`; other cars
      may do anything, and nothing is restarted. */
  ghost predicate Charging(dbs: seq<Db>, steps: seq<Step>, car: Id, a: nat, b: nat) {
    && |dbs| == |steps| + 1 && IsRun(dbs, steps) && a < b <= |steps| && Of(steps[a], car)
    && forall k :: a <= k < b ==> ChargesOn(dbs[k], steps[k], car)
  }

  /** The tick the poll at `k` adds. */
  function Tick(dbs: seq<Db>, k: nat): Id
    requires k < |dbs|
  {
    NextId(dbs[k].charges.Keys)
  }

  lemma SteadyTicksRefer(db: Db, now: nat)
    requires Steady(db, now)
    ensures TicksRefer(db) && OneOpen(db)
    ensures forall c :: c in db.charges ==> db.charges[c].date <= now
  {
    forall c | c in db.charges ensures db.charges[c].process in db.processes && db.charges[c].date <= now {
      assert ChargeOk(db, now, c);
    }
  }

  /** The car's open charge holds tick `c` of date `date`, and none later. */
  ghost predicate LastTick(db: Db, car: Id, c: Id, date: nat) {
    && c in db.charges && db.charges[c].date == date && db.charges[c].process in OpenCharges(db, car)
    && forall t :: TickOf(db, t, db.charges[c].process) ==> db.charges[t].date <= date
  }

  lemma LastTickStands(db: Db, after: Db, car: Id, c: Id, date: nat)
    requires LastTick(db, car, c, date) && ChargesStand(db, after, car)
    ensures LastTick(after, car, c, date)
  {
    forall t | TickOf(after, t, after.charges[c].process) ensures after.charges[t].date <= date {
      assert TickOf(db, t, db.charges[c].process);
    }
  }

  lemma {:induction false} AfterLastTick(
      dbs: seq<Db>, steps: seq<Step>, start: nat, car: Id, a: nat, b: nat, k: nat)
    requires Charging(dbs, steps, car, a, b) && a < k <= b && Monotone(start, steps) && Steady(dbs[0], start)
    ensures var j := Last(steps, car, a, k); LastTick(dbs[k], car, Tick(dbs, j), steps[j].now)
    decreases k
  {
    hide Apply, Steady, LastTick, NextId, ChargesOn, IsRun, Monotone;
    var s := steps[k - 1];
    StretchAt(dbs, steps, start, car, a, b, k - 1);
    if Of(s, car) {
      PollTicks(dbs[k - 1], s, car);
    } else {
      AfterLastTick(dbs, steps, start, car, a, b, k - 1);
      var j := Last(steps, car, a, k - 1);
      OtherKeepsLast(dbs[k - 1], s, car, Tick(dbs, j), steps[j].now);
    }
  }

  lemma StretchAt(dbs: seq<Db>, steps: seq<Step>, start: nat, car: Id, a: nat, b: nat, k: nat)
    requires Charging(dbs, steps, car, a, b) && a <= k < b && Monotone(start, steps) && Steady(dbs[0], start)
    ensures ChargesOn(dbs[k], steps[k], car) && dbs[k + 1] == Apply(dbs[k], steps[k])
    ensures Steady(dbs[k], steps[k].now) && Steady(dbs[k + 1], steps[k].now)
  {
    hide Apply, Steady, ChargesOn;
    SteadyAt(dbs, steps, start, k);
    AlwaysSteady(dbs, steps, start, k + 1);
  }

  lemma PollTicks(db: Db, s: Step, car: Id)
    requires ChargesOn(db, s, car) && Of(s, car) && Steady(db, s.now) && Steady(Apply(db, s), s.now)
    ensures LastTick(Apply(db, s), car, NextId(db.charges.Keys), s.now)
  {
    hide Steady, Apply, LastTick, NextId, TicksRefer, OneOpen;
    SteadyTicksRefer(db, s.now);
    SteadyTicksRefer(Apply(db, s), s.now);
    TickLands(db, s);
    JustTicked(db, Apply(db, s), s);
  }

  lemma OtherKeepsLast(db: Db, s: Step, car: Id, c: Id, date: nat)
    requires ChargesOn(db, s, car) && !Of(s, car) && LastTick(db, car, c, date)
    ensures LastTick(Apply(db, s), car, c, date)
  {
    hide Apply, LastTick, ChargesStand;
    StepLeavesOtherCharges(db, s, car);
    LastTickStands(db, Apply(db, s), car, c, date);
  }

  lemma JustTicked(db: Db, after: Db, s: Step)
    requires s.IsPoll() && (exists q :: TickGoesTo(db, after, s, q))
    requires forall c :: c in after.charges ==> after.charges[c].date <= s.now
    ensures LastTick(after, s.car, NextId(db.charges.Keys), s.now)
  {
  }

  lemma LastTickIsFresh(db: Db, car: Id, c: Id, date: nat, now: nat)
    requires LastTick(db, car, c, date)
    ensures FreshCharge(db, db.charges[c].process, now) <==> Recent(date, now)
  {
    var q := db.charges[c].process;
    assert TickOf(db, c, q);
    if t :| TickOf(db, t, q) && Recent(db.charges[t].date, now) {
      assert db.charges[t].date / 1000 <= date / 1000;
    }
  }

  /** Two ticks are on one process. */
  ghost predicate Together(db: Db, c: Id, t: Id) {
    c in db.charges && t in db.charges && db.charges[c].process == db.charges[t].process
  }

  /** The tick of a charging poll goes to the process of the one before exactly when no more than fifteen minutes lie
      between the two. */
  lemma NextTickIsTogether(dbs: seq<Db>, steps: seq<Step>, start: nat, car: Id, a: nat, b: nat, k: nat)
    requires Charging(dbs, steps, car, a, b) && a < k < b && Of(steps[k], car)
    requires Monotone(start, steps) && Steady(dbs[0], start)
    ensures var j := Last(steps, car, a, k);
            Together(dbs[k + 1], Tick(dbs, j), Tick(dbs, k)) <==> Recent(steps[j].now, steps[k].now)
  {
    hide Apply, Steady, NextId, FreshCharge, Recent;
    var j, s := Last(steps, car, a, k), steps[k];
    AfterLastTick(dbs, steps, start, car, a, b, k);
    SteadyAt(dbs, steps, start, k);
    SteadyTicksRefer(dbs[k], s.now);
    TickLands(dbs[k], s);
    LastTickIsFresh(dbs[k], car, Tick(dbs, j), steps[j].now, s.now);
    NewTick(dbs[k], dbs[k + 1], s, Tick(dbs, j));
  }

  lemma NewTick(db: Db, after: Db, s: Step, c: Id)
    requires s.IsPoll() && (exists q :: TickGoesTo(db, after, s, q)) && OneOpen(db)
    requires c in db.charges && db.charges[c].process in OpenCharges(db, s.car)
    ensures Together(after, c, NextId(db.charges.Keys)) <==> FreshCharge(db, db.charges[c].process, s.now)
  {
    hide FreshCharge, OneOpen;
    OnlyOneOpenCharge(db, s.car);
    var q :| TickGoesTo(db, after, s, q);
    assert Together(after, c, NextId(db.charges.Keys)) ==> TickOf(after, c, q);
  }

  /** The tick added at `k` is there ever after. */
  lemma TickIsThere(dbs: seq<Db>, steps: seq<Step>, start: nat, car: Id, a: nat, b: nat, k: nat, n: nat)
    requires Charging(dbs, steps, car, a, b) && Monotone(start, steps) && Steady(dbs[0], start)
    requires a <= k < n <= b && Of(steps[k], car)
    ensures Tick(dbs, k) in dbs[n].charges && Tick(dbs, k) in dbs[b].charges
    ensures dbs[b].charges[Tick(dbs, k)] == dbs[n].charges[Tick(dbs, k)]
  {
    hide Apply, Steady, NextId, Monotone;
    AfterLastTick(dbs, steps, start, car, a, b, k + 1);
    assert Last(steps, car, a, k + 1) == k;
    TicksStayAlong(dbs, steps, k + 1, n);
    TicksStayAlong(dbs, steps, n, b);
  }

  /** Its tick is, in the end, on the process of the first. */
  ghost predicate WithTheFirst(dbs: seq<Db>, steps: seq<Step>, car: Id, a: nat, b: nat, k: nat)
    requires a < k < b < |dbs| && b <= |steps|
  {
    Of(steps[k], car) ==> Together(dbs[b], Tick(dbs, a), Tick(dbs, k))
  }

  /** A stretch of charging polls puts all its ticks on one process exactly when no two of them in a row are more than
      fifteen minutes apart. */
  lemma OneStretchOneCharge(dbs: seq<Db>, steps: seq<Step>, start: nat, car: Id, a: nat, b: nat)
    requires Charging(dbs, steps, car, a, b) && Monotone(start, steps) && Steady(dbs[0], start)
    ensures (forall k :: a < k < b ==> WithTheFirst(dbs, steps, car, a, b, k)) <==>
            (forall k :: a < k < b ==> NoPause(steps, car, a, k))
  {
    TogetherUpTo(dbs, steps, start, car, a, b, b);
  }

  lemma {:induction false} TogetherUpTo(
      dbs: seq<Db>, steps: seq<Step>, start: nat, car: Id, a: nat, b: nat, n: nat)
    requires Charging(dbs, steps, car, a, b) && a < n <= b && Monotone(start, steps) && Steady(dbs[0], start)
    ensures (forall k :: a < k < n ==> WithTheFirst(dbs, steps, car, a, b, k)) <==>
            (forall k :: a < k < n ==> NoPause(steps, car, a, k))
    decreases n
  {
    hide Apply, Steady, Monotone, ChargesOn, IsRun, WithTheFirst, NoPause;
    var k := n - 1;
    if k > a {
      TogetherUpTo(dbs, steps, start, car, a, b, k);
      if forall i :: a < i < k ==> WithTheFirst(dbs, steps, car, a, b, i) {
        OneMoreTick(dbs, steps, start, car, a, b, k);
      }
    }
  }

  lemma OneMoreTick(dbs: seq<Db>, steps: seq<Step>, start: nat, car: Id, a: nat, b: nat, k: nat)
    requires Charging(dbs, steps, car, a, b) && a < k < b && Monotone(start, steps) && Steady(dbs[0], start)
    requires forall i :: a < i < k ==> WithTheFirst(dbs, steps, car, a, b, i)
    ensures WithTheFirst(dbs, steps, car, a, b, k) <==> NoPause(steps, car, a, k)
  {
    hide Apply, Steady, Recent, Monotone, IsRun, Tick, ChargesOn;
    if Of(steps[k], car) {
      var j := Last(steps, car, a, k);
      NextTickIsTogether(dbs, steps, start, car, a, b, k);
      TickIsThere(dbs, steps, start, car, a, b, k, k + 1);
      TickIsThere(dbs, steps, start, car, a, b, j, k + 1);
      TickIsThere(dbs, steps, start, car, a, b, a, k + 1);
      assert j != a ==> WithTheFirst(dbs, steps, car, a, b, j);
    }
  }
}
