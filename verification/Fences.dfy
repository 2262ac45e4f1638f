/** Geofence labels and the prices they set (src/locations.rs). */
module Fences {
  import opened Base
  import opened Tables

  const ORIGIN := Place(0.0, 0.0)

  predicate Contains(metric: Metric, fence: Fence, place: Place) {
    metric(place, fence.center) <= fence.radius
  }

  /** What a label means: the nearest fence around `place`, the first in scan order among equals. */
  ghost predicate IsNearest(metric: Metric, fences: seq<Fence>, place: Place, fenceId: Option<Id>) {
    match fenceId
    case None => forall i :: 0 <= i < |fences| ==> metric(place, fences[i].center) > fences[i].radius
    case Some(id) => exists i :: 0 <= i < |fences| && fences[i].id == id && NearestAt(metric, fences, place, i)
  }

  ghost predicate NearestAt(metric: Metric, fences: seq<Fence>, place: Place, i: nat)
    requires i < |fences|
  {
    && metric(place, fences[i].center) <= fences[i].radius
    && forall j :: 0 <= j < |fences| && metric(place, fences[j].center) <= fences[j].radius ==>
         var di, dj := metric(place, fences[i].center), metric(place, fences[j].center);
         di < dj || (di == dj && i <= j)
  }

  lemma NearestIsUnique(metric: Metric, fences: seq<Fence>, place: Place, a: Option<Id>, b: Option<Id>)
    requires IsNearest(metric, fences, place, a) && IsNearest(metric, fences, place, b)
    ensures a == b
  {
    if a.Some? && b.Some? {
      var i :| 0 <= i < |fences| && fences[i].id == a.value && NearestAt(metric, fences, place, i);
      var j :| 0 <= j < |fences| && fences[j].id == b.value && NearestAt(metric, fences, place, j);
    }
  }

  /** The candidates of the rematch, a `filter_map` over the fences. */
  function Candidates(metric: Metric, fences: seq<Fence>, place: Place): (found: seq<(real, nat)>)
  {
    if fences == [] then [] else
      var rest, last := fences[..|fences| - 1], |fences| - 1;
      Candidates(metric, rest, place) +
      (if Contains(metric, fences[last], place) then [(metric(place, fences[last].center), last)] else [])
  }

  /** `min_by` keeps the first of equal minima. */
  function MinBy(found: seq<(real, nat)>): (best: Option<(real, nat)>)
  {
    if found == [] then None else
      var last := found[|found| - 1];
      match MinBy(found[..|found| - 1])
      case None => Some(last)
      case Some(b) => if b.0 <= last.0 then Some(b) else Some(last)
  }

  /** The label `reassign` gives a place. */
  function Nearest(metric: Metric, fences: seq<Fence>, place: Place): (fenceId: Option<Id>)
    ensures IsNearest(metric, fences, place, fenceId)
  {
    MinByIsNearest(metric, fences, place);
    match MinBy(Candidates(metric, fences, place))
    case None => None
    case Some(b) => Some(fences[b.1].id)
  }

  lemma {:induction false} MinByIsNearest(metric: Metric, fences: seq<Fence>, place: Place)
    ensures match MinBy(Candidates(metric, fences, place))
            case None => forall i :: 0 <= i < |fences| ==> !Contains(metric, fences[i], place)
            case Some(b) => b.1 < |fences| && b.0 == metric(place, fences[b.1].center) &&
                            NearestAt(metric, fences, place, b.1)
  {
    if fences != [] {
      var n := |fences| - 1;
      MinByIsNearest(metric, fences[..n], place);
      var before := Candidates(metric, fences[..n], place);
      if Contains(metric, fences[n], place) {
        assert Candidates(metric, fences, place)[..|before|] == before;
      } else {
        assert Candidates(metric, fences, place) == before;
      }
      assert forall i :: 0 <= i < n ==> fences[..n][i] == fences[i];
    }
  }

  /** The label a session gets when it closes: a place at (0, 0) is never looked up. */
  function GeofenceAt(metric: Metric, fences: seq<Fence>, place: Place): (fenceId: Option<Id>)
  {
    if place == ORIGIN then None else Nearest(metric, fences, place)
  }

  /** The scan of `geofence_at` finds the label the rematch would give, except at (0, 0). */
  method FindGeofence(metric: Metric, fences: seq<Fence>, place: Place) returns (fenceId: Option<Id>)
    ensures place == ORIGIN ==> fenceId == None
    ensures place != ORIGIN ==> IsNearest(metric, fences, place, fenceId)
    ensures fenceId == GeofenceAt(metric, fences, place)
  {
    if place == ORIGIN {
      return None;
    }
    var nearest: Option<(real, Id)> := None;
    ghost var at := 0;
    for k := 0 to |fences|
      invariant nearest.None? ==> forall i :: 0 <= i < k ==> !Contains(metric, fences[i], place)
      invariant nearest.Some? ==> at < k && nearest.value == (metric(place, fences[at].center), fences[at].id) &&
                                  NearestAt(metric, fences[..k], place, at)
    {
      var distance := metric(place, fences[k].center);
      assert fences[..k + 1][..k] == fences[..k];
      if distance <= fences[k].radius && (nearest.None? || distance < nearest.value.0) {
        nearest := Some((distance, fences[k].id));
        at := k;
      }
    }
    assert fences[..|fences|] == fences;
    fenceId := if nearest.Some? then Some(nearest.value.1) else None;
    NearestIsUnique(metric, fences, place, fenceId, Nearest(metric, fences, place));
  }

  function OrZero(x: Option<real>): real {
    if x.Some? then x.value else 0.0
  }

  /** The larger of the energy taken from the grid and the energy added to the battery. */
  function BilledEnergy(p: Process): real {
    if OrZero(p.used) < OrZero(p.added) then OrZero(p.added) else OrZero(p.used)
  }

  /** A session fee and a rate; either may be missing. */
  function Charged(fence: Fence, amount: real): real {
    OrZero(fence.sessionFee) + OrZero(fence.costPerUnit) * amount
  }

  /** The price of a charging session at one fence. */
  function Price(fence: Fence, p: Process): (cost: Option<real>)
  {
    if fence.costPerUnit.None? && fence.sessionFee.None? then None
    else match fence.billing
      case PerKwh => Some(Charged(fence, BilledEnergy(p)))
      case PerMinute => Some(Charged(fence, if p.durationMin.Some? then p.durationMin.value as real else 0.0))
      case OtherBilling => None
  }

  /** A fence with neither amount, or with an unknown billing, sets no price; any other price is the fee and the
      rate's share added up. More energy never costs less. */
  lemma PriceAddsUp(fence: Fence, p: Process, q: Process)
    ensures Price(fence, p) == None <==>
            (fence.costPerUnit.None? && fence.sessionFee.None?) || fence.billing.OtherBilling?
    ensures Price(fence, p).Some? && fence.costPerUnit.Some? && fence.sessionFee.Some? ==>
      var feeOnly, rateOnly := Price(fence.(costPerUnit := None), p), Price(fence.(sessionFee := None), p);
      feeOnly == fence.sessionFee && rateOnly.Some? && Price(fence, p).value == feeOnly.value + rateOnly.value
    ensures OrZero(p.used) <= BilledEnergy(p) && OrZero(p.added) <= BilledEnergy(p)
    ensures BilledEnergy(p) == OrZero(p.used) || BilledEnergy(p) == OrZero(p.added)
    ensures fence.billing.PerKwh? && Price(fence, p).Some? && OrZero(fence.costPerUnit) >= 0.0 ==>
      BilledEnergy(p) <= BilledEnergy(q) ==> Price(fence, p).value <= Price(fence, q).value
  {
    var rate := OrZero(fence.costPerUnit);
    if rate >= 0.0 && BilledEnergy(p) <= BilledEnergy(q) {
      assert rate * BilledEnergy(p) <= rate * BilledEnergy(q);
    }
  }

  /** Minutes charged; none known counts as none. */
  function BilledMinutes(p: Process): int { if p.durationMin.Some? then p.durationMin.value else 0 }

  /** Two sessions at one fence differ by the rate for each minute, or for each kilowatt-hour of the larger energy;
      with nothing to bill there is the fee alone. */
  lemma PricePerUnit(fence: Fence, p: Process, q: Process)
    requires fence.costPerUnit.Some? || fence.sessionFee.Some?
    ensures !fence.billing.OtherBilling? ==> Price(fence, p).Some? && Price(fence, q).Some?
    ensures fence.billing.PerMinute? ==>
      Price(fence, p).value - Price(fence, q).value ==
      OrZero(fence.costPerUnit) * ((BilledMinutes(p) - BilledMinutes(q)) as real)
    ensures fence.billing.PerKwh? ==>
      Price(fence, p).value - Price(fence, q).value == OrZero(fence.costPerUnit) * (BilledEnergy(p) - BilledEnergy(q))
    ensures fence.billing.PerMinute? && BilledMinutes(p) == 0 ==> Price(fence, p) == Some(OrZero(fence.sessionFee))
    ensures fence.billing.PerKwh? && BilledEnergy(p) == 0.0 ==> Price(fence, p) == Some(OrZero(fence.sessionFee))
  {
    var rate, m, n := OrZero(fence.costPerUnit), BilledMinutes(p) as real, BilledMinutes(q) as real;
    assert rate * m - rate * n == rate * (m - n);
    assert rate * BilledEnergy(p) - rate * BilledEnergy(q) == rate * (BilledEnergy(p) - BilledEnergy(q));
    assert (BilledMinutes(p) - BilledMinutes(q)) as real == m - n;
  }

  function FenceOf(fences: seq<Fence>, id: Id): (fence: Option<Fence>)
  {
    if fences == [] then None
    else if fences[0].id == id then Some(fences[0])
    else FenceOf(fences[1..], id)
  }

  /** The price of the fence a session is labelled with, `NULL` without one. */
  function FencePrice(fences: seq<Fence>, fenceId: Option<Id>, p: Process): (cost: Option<real>)
    ensures fenceId.None? ==> cost == None
  {
    if fenceId.None? || FenceOf(fences, fenceId.value).None? then None
    else Price(FenceOf(fences, fenceId.value).value, p)
  }

  /** A price depends on the energy and the duration only. */
  lemma PriceDependsOn(fences: seq<Fence>, fenceId: Option<Id>, p: Process, q: Process)
    requires p.added == q.added && p.used == q.used && p.durationMin == q.durationMin
    ensures FencePrice(fences, fenceId, p) == FencePrice(fences, fenceId, q)
  {
    hide Charged;
    assert BilledEnergy(p) == BilledEnergy(q);
  }

  /** Some invoice owns the cost of process `pid`. */
  predicate Invoiced(db: Db, pid: Id) {
    exists s :: s in db.invoices && db.invoices[s].process == Some(pid)
  }

  function PlaceLabel(db: Db, position: Option<Id>): Option<Id> {
    if position.Some? && position.value in db.positions
    then Nearest(db.metric, db.fences, db.positions[position.value].place)
    else None
  }

  function RelabelledProcess(db: Db, pid: Id): Process
    requires pid in db.processes
  {
    var p := db.processes[pid];
    var fenceId := PlaceLabel(db, Some(p.position));
    p.(fence := fenceId, cost := if Invoiced(db, pid) then p.cost else FencePrice(db.fences, fenceId, p))
  }

  function RelabelledDrive(db: Db, d: Id): Drive
    requires d in db.drives
  {
    var drive := db.drives[d];
    drive.(startFence := PlaceLabel(db, drive.startPos), endFence := PlaceLabel(db, drive.endPos))
  }

  /** One pass of the location job over every record. */
  function Rematch(db: Db): Db {
    db.(processes := map pid | pid in db.processes :: RelabelledProcess(db, pid),
        drives := map d | d in db.drives :: RelabelledDrive(db, d))
  }

  /** Label one session from a place and price it when no invoice owns the cost. */
  function PriceCharge(db: Db, pid: Id, place: Place): (priced: Db)
    requires pid in db.processes
    ensures pid in priced.processes
    ensures priced == db.(processes := db.processes[pid :=
      db.processes[pid].(fence := priced.processes[pid].fence, cost := priced.processes[pid].cost)])
  {
    var fenceId := GeofenceAt(db.metric, db.fences, place);
    if fenceId.None? then db
    else
      var p := db.processes[pid].(fence := fenceId);
      db.(processes := db.processes[pid :=
        if Invoiced(db, pid) then p else p.(cost := FencePrice(db.fences, fenceId, p))])
  }

  /** A write to the fence table. Deleting a fence clears the labels that name it, and only those. */
  datatype FenceWrite = Insert(fence: Fence) | Update(fence: Fence) | Delete(id: Id)

  function WriteFence(db: Db, w: FenceWrite): Db {
    match w
    case Insert(f) => db.(fences := db.fences + [f.(id := NextId(set i | 0 <= i < |db.fences| :: db.fences[i].id))])
    case Update(f) =>
      db.(fences := seq(|db.fences|, i requires 0 <= i < |db.fences| =>
        if db.fences[i].id == f.id then f else db.fences[i]))
    case Delete(id) =>
      db.(fences := Without(db.fences, id),
          processes := map pid | pid in db.processes ::
            db.processes[pid].(fence := Cleared(db.processes[pid].fence, id)),
          drives := map d | d in db.drives ::
            db.drives[d].(startFence := Cleared(db.drives[d].startFence, id),
                          endFence := Cleared(db.drives[d].endFence, id)))
  }

  function Without(fences: seq<Fence>, id: Id): seq<Fence> {
    if fences == [] then []
    else (if fences[0].id == id then [] else [fences[0]]) + Without(fences[1..], id)
  }

  function Cleared(fenceId: Option<Id>, id: Id): Option<Id> {
    if fenceId == Some(id) then None else fenceId
  }

  /** Taking the one fence of an id away leaves those before and after it, in order. */
  lemma {:induction false} WithoutOne(before: seq<Fence>, fence: Fence, after: seq<Fence>)
    requires forall f :: f in before || f in after ==> f.id != fence.id
    ensures Without(before + [fence] + after, fence.id) == before + after
  {
    var all := before + [fence] + after;
    if before == [] {
      WithoutNone(after, fence.id);
      assert all[1..] == after;
    } else {
      assert all[1..] == before[1..] + [fence] + after;
      WithoutOne(before[1..], fence, after);
    }
  }

  lemma {:induction false} WithoutNone(fences: seq<Fence>, id: Id)
    requires forall f :: f in fences ==> f.id != id
    ensures Without(fences, id) == fences
  {
    if fences != [] { WithoutNone(fences[1..], id); }
  }

  predicate Unlabelled(was: Option<Id>, now: Option<Id>, id: Id) {
    if was == Some(id) then now == None else now == was
  }

  /** A new fence comes last, as given, under an id of its own. */
  ghost predicate Inserted(was: seq<Fence>, now: seq<Fence>, f: Fence) {
    && |now| == |was| + 1 && now[..|was|] == was && now[|was|].(id := f.id) == f
    && forall i :: 0 <= i < |was| ==> was[i].id != now[|was|].id
  }

  /** The fence of that id is replaced where it stands. */
  ghost predicate Updated(was: seq<Fence>, now: seq<Fence>, f: Fence) {
    |now| == |was| && forall i :: 0 <= i < |was| ==> now[i] == if was[i].id == f.id then f else was[i]
  }

  /** Labels that name the fence are cleared, and nothing else of any record changes. */
  ghost predicate LabelsCleared(db: Db, after: Db, id: Id) {
    && after.processes.Keys == db.processes.Keys && after.drives.Keys == db.drives.Keys
    && (forall p :: p in db.processes && p in after.processes ==>
          after.processes[p].(fence := None) == db.processes[p].(fence := None) &&
          Unlabelled(db.processes[p].fence, after.processes[p].fence, id))
    && (forall d :: d in db.drives && d in after.drives ==>
          after.drives[d].(startFence := None, endFence := None) ==
          db.drives[d].(startFence := None, endFence := None) &&
          Unlabelled(db.drives[d].startFence, after.drives[d].startFence, id) &&
          Unlabelled(db.drives[d].endFence, after.drives[d].endFence, id))
  }

  lemma FenceWritesSay(db: Db, w: FenceWrite)
    ensures w.Insert? ==> Inserted(db.fences, WriteFence(db, w).fences, w.fence)
    ensures w.Update? ==> Updated(db.fences, WriteFence(db, w).fences, w.fence)
    ensures w.Insert? || w.Update? ==> WriteFence(db, w) == db.(fences := WriteFence(db, w).fences)
    ensures w.Delete? ==> LabelsCleared(db, WriteFence(db, w), w.id)
  {
    if w.Insert? {
      var ids := set i | 0 <= i < |db.fences| :: db.fences[i].id;
      forall i | 0 <= i < |db.fences| ensures db.fences[i].id != NextId(ids) {
        assert db.fences[i].id in ids;
      }
    }
  }
}
