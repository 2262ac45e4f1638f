/** Who owns a label and a cost: the ledger, the location job, the fence table and the invoices together. */
module Ownership {
  import opened Base
  import opened Chrono
  import opened Tables
  import opened Rollup
  import opened Fences
  import opened Ledger
  import opened Sessions
  import opened Changes
  import opened Invoices
  import Jobs

  /** Foreign keys into the positions table. */
  ghost predicate ProcessRef(db: Db, q: Id) {
    q in db.processes ==> db.processes[q].position in db.positions
  }

  ghost predicate DriveRef(db: Db, d: Id) {
    d in db.drives ==>
      && (db.drives[d].startPos.Some? ==> db.drives[d].startPos.value in db.positions)
      && (db.drives[d].endPos.Some? ==> db.drives[d].endPos.value in db.positions)
  }

  /** A place away from (0, 0) carries the nearest fence around it. */
  ghost predicate RightFence(db: Db, p: Id, fenceId: Option<Id>)
  {
    p in db.positions && db.positions[p].place != ORIGIN ==>
      IsNearest(db.metric, db.fences, db.positions[p].place, fenceId)
  }

  /** A closed charge is labelled and, without an invoice, costs the price of its fence; an open one is
      labelled right or not at all, and costs nothing where there is no fence. */
  ghost predicate ProcessLabelled(db: Db, q: Id) {
    q in db.processes && db.processes[q].position in db.positions &&
    db.positions[db.processes[q].position].place != ORIGIN ==>
      var row := db.processes[q];
      var near := Nearest(db.metric, db.fences, db.positions[row.position].place);
      if row.endDate.Some?
      then row.fence == near && (!Invoiced(db, q) ==> row.cost == FencePrice(db.fences, near, row))
      else (row.fence == None || row.fence == near) && (near == None && !Invoiced(db, q) ==> row.cost == None)
  }

  ghost predicate DriveLabelled(db: Db, d: Id) {
    d in db.drives && db.drives[d].endDate.Some? ==>
      && (db.drives[d].startPos.Some? ==> RightFence(db, db.drives[d].startPos.value, db.drives[d].startFence))
      && (db.drives[d].endPos.Some? ==> RightFence(db, db.drives[d].endPos.value, db.drives[d].endFence))
  }

  /** What holds of the books at all times, and, when `clean`, of the labels and prices too. */
  ghost predicate Books(db: Db, clean: bool) {
    && Linked(db)
    && (forall q :: ProcessRef(db, q))
    && (forall d :: DriveRef(db, d))
    && (clean ==> (forall q :: ProcessLabelled(db, q)) && (forall d :: DriveLabelled(db, d)))
  }

  /** Fences, links and places are as they were. */
  ghost predicate SamePlaces(db: Db, after: Db) {
    && after.metric == db.metric && after.fences == db.fences && after.invoices == db.invoices
    && (forall p :: p in db.positions ==> p in after.positions && after.positions[p].place == db.positions[p].place)
  }

  lemma SameProcess(db: Db, after: Db, q: Id)
    requires SamePlaces(db, after) && q in db.processes && q in after.processes
    requires after.processes[q] == db.processes[q]
    requires ProcessRef(db, q)
    ensures ProcessRef(after, q) && (ProcessLabelled(db, q) ==> ProcessLabelled(after, q))
  {
    hide FencePrice;
  }

  lemma SameDriveRow(db: Db, after: Db, d: Id)
    requires SamePlaces(db, after) && d in db.drives && d in after.drives
    requires after.drives[d] == db.drives[d]
    requires DriveRef(db, d)
    ensures DriveRef(after, d) && (DriveLabelled(db, d) ==> DriveLabelled(after, d))
  {
  }

  /** Neither the processes nor the invoices changed. */
  lemma SameLinks(db: Db, after: Db)
    requires Linked(db) && after.invoices == db.invoices
    requires forall q :: q in db.processes ==> q in after.processes && after.processes[q].cost == db.processes[q].cost
    ensures Linked(after)
  {
    forall s ensures LinkOk(after, s) { assert LinkOk(db, s); }
    forall s, t ensures LinksApart(after, s, t) { assert LinksApart(db, s, t); }
  }

  /** Drives and processes are as they were, and no place moved. */
  lemma SameRowsBooks(db: Db, after: Db, clean: bool)
    requires Books(db, clean) && SamePlaces(db, after)
    requires after.drives == db.drives && after.processes == db.processes
    ensures Books(after, clean)
  {
    hide ProcessLabelled, DriveLabelled, Linked;
    SameLinks(db, after);
    forall q ensures ProcessRef(after, q) && (clean ==> ProcessLabelled(after, q)) {
      assert ProcessRef(db, q);
      if q in db.processes { SameProcess(db, after, q); } else { NoProcess(after, q); }
    }
    forall d ensures DriveRef(after, d) && (clean ==> DriveLabelled(after, d)) {
      assert DriveRef(db, d);
      if d in db.drives { SameDriveRow(db, after, d); } else { NoDrive(after, d); }
    }
  }

  lemma NoProcess(db: Db, q: Id)
    requires q !in db.processes
    ensures ProcessLabelled(db, q)
  {
  }

  lemma NoDrive(db: Db, d: Id)
    requires d !in db.drives
    ensures DriveLabelled(db, d)
  {
  }

  // ---------- The ledger's operations ----------

  lemma CloseDrivePlaces(db: Db, d: Id)
    ensures SamePlaces(db, CloseDrive(db, d)) && CloseDrive(db, d).processes == db.processes
  {
    hide TooShort, ClosedDrive;
  }

  /** A drive that closes gets the fences a rematch would give its ends. */
  lemma ClosedDriveIsLabelled(db: Db, d: Id)
    requires d in db.drives && !TooShort(db, d)
    ensures DriveRef(CloseDrive(db, d), d) && DriveLabelled(CloseDrive(db, d), d)
  {
    hide StartKm, EndKm, StartIdeal, EndIdeal, Distance;
  }

  lemma CloseDriveBooks(db: Db, d: Id, clean: bool)
    requires Books(db, clean) && d in db.drives && db.drives[d].endDate.None?
    ensures Books(CloseDrive(db, d), clean)
  {
    hide ProcessLabelled, DriveLabelled, Linked, CloseDrive, TooShort;
    var after := CloseDrive(db, d);
    CloseDrivePlaces(db, d);
    SameLinks(db, after);
    forall q ensures ProcessRef(after, q) && (clean ==> ProcessLabelled(after, q)) {
      assert ProcessRef(db, q);
      if q in db.processes { SameProcess(db, after, q); } else { NoProcess(after, q); }
    }
    forall e ensures DriveRef(after, e) && (clean ==> DriveLabelled(after, e)) {
      assert DriveRef(db, e);
      if e !in after.drives {
        NoDrive(after, e);
      } else if e != d {
        SameDriveRow(db, after, e);
      } else {
        DroppedOrClosed(db, d);
        ClosedDriveIsLabelled(db, d);
      }
    }
  }

  lemma DroppedOrClosed(db: Db, d: Id)
    ensures d in CloseDrive(db, d).drives ==> !TooShort(db, d)
  {
    hide TooShort, ClosedDrive;
  }

  lemma DeletedLinks(db: Db, p: Id)
    requires Linked(db)
    ensures Linked(DeleteProcess(db, p))
    ensures forall q :: q != p ==> (Invoiced(DeleteProcess(db, p), q) <==> Invoiced(db, q))
  {
    var after := DeleteProcess(db, p);
    forall s ensures LinkOk(after, s) { assert LinkOk(db, s); }
    forall s, t ensures LinksApart(after, s, t) { assert LinksApart(db, s, t); }
    forall q | q != p ensures Invoiced(after, q) <==> Invoiced(db, q) {
      if Invoiced(db, q) {
        var s :| s in db.invoices && db.invoices[s].process == Some(q);
        assert s in after.invoices && after.invoices[s].process == Some(q);
      }
    }
  }

  lemma DeleteProcessBooks(db: Db, p: Id, clean: bool)
    requires Books(db, clean)
    ensures Books(DeleteProcess(db, p), clean)
  {
    hide Linked, DriveLabelled, Invoiced, FencePrice;
    var after := DeleteProcess(db, p);
    DeletedLinks(db, p);
    forall q ensures ProcessRef(after, q) && (clean ==> ProcessLabelled(after, q)) {
      assert ProcessRef(db, q);
      assert clean ==> ProcessLabelled(db, q);
    }
    forall d ensures DriveRef(after, d) && (clean ==> DriveLabelled(after, d)) {
      assert DriveRef(db, d);
      DriveLabelsNeedOnlyDrives(db, after, d);
    }
  }

  lemma DriveLabelsNeedOnlyDrives(db: Db, after: Db, d: Id)
    requires after.drives == db.drives && after.positions == db.positions
    requires after.metric == db.metric && after.fences == db.fences
    ensures DriveLabelled(after, d) <==> DriveLabelled(db, d)
  {
  }

  /** Completing a charge, whatever its row was changed to before it is priced. */
  lemma PriceChargeBooks(db: Db, p: Id, row: Process, clean: bool)
    requires Books(db, clean) && p in db.processes && db.processes[p].endDate.None?
    requires row.endDate.Some? && row.position == db.processes[p].position
    requires row.fence == db.processes[p].fence && row.cost == db.processes[p].cost
    requires row.position in db.positions
    ensures var closed := db.(processes := db.processes[p := row]);
            Books(PriceCharge(closed, p, db.positions[row.position].place), clean)
  {
    hide Linked, DriveLabelled, ProcessLabelled, PriceCharge;
    assert ProcessRef(db, p);
    var closed := db.(processes := db.processes[p := row]);
    var after := PriceCharge(closed, p, db.positions[row.position].place);
    assert Invoiced(closed, p) == Invoiced(db, p);
    if Invoiced(db, p) {
      InvoicedCostStays(closed, p, db.positions[row.position].place);
    }
    LinksAfterPricing(db, after, p);
    forall q ensures ProcessRef(after, q) && (clean ==> ProcessLabelled(after, q)) {
      assert ProcessRef(db, q);
      if q == p {
        if clean { PricedIsLabelled(db, p, row); }
      } else if q in db.processes {
        SameProcess(db, after, q);
      } else {
        NoProcess(after, q);
      }
    }
    forall d ensures DriveRef(after, d) && (clean ==> DriveLabelled(after, d)) {
      assert DriveRef(db, d);
      DriveLabelsNeedOnlyDrives(db, after, d);
    }
  }

  lemma InvoicedCostStays(db: Db, p: Id, place: Place)
    requires p in db.processes && Invoiced(db, p)
    ensures PriceCharge(db, p, place).processes[p].cost == db.processes[p].cost
  {
  }

  lemma LinksAfterPricing(db: Db, after: Db, p: Id)
    requires Linked(db) && after.invoices == db.invoices && p in db.processes && p in after.processes
    requires SameExcept(after.processes, db.processes, p)
    requires Invoiced(db, p) ==> after.processes[p].cost == db.processes[p].cost
    ensures Linked(after)
  {
    forall s ensures LinkOk(after, s) { assert LinkOk(db, s); }
    forall s, t ensures LinksApart(after, s, t) { assert LinksApart(db, s, t); }
  }

  lemma PricedIsLabelled(db: Db, p: Id, row: Process)
    requires p in db.processes && db.processes[p].endDate.None? && ProcessLabelled(db, p)
    requires row.position in db.positions
    requires row.endDate.Some? && row.position == db.processes[p].position
    requires row.fence == db.processes[p].fence && row.cost == db.processes[p].cost
    ensures var closed := db.(processes := db.processes[p := row]);
            ProcessLabelled(PriceCharge(closed, p, db.positions[row.position].place), p)
  {
    hide FencePrice;
    var closed := db.(processes := db.processes[p := row]);
    assert Invoiced(closed, p) == Invoiced(db, p);
    var after := PriceCharge(closed, p, db.positions[row.position].place);
    assert Invoiced(after, p) == Invoiced(db, p);
    var near := Nearest(db.metric, db.fences, db.positions[row.position].place);
    PriceDependsOn(db.fences, near, after.processes[p], row.(fence := near));
  }

  lemma CompleteChargeBooks(db: Db, car: Id, p: Id, clean: bool)
    requires Books(db, clean) && p in db.processes && db.processes[p].endDate.None?
    ensures Books(CompleteCharge(db, car, p).db, clean)
  {
    hide Books, DeleteProcess, PriceCharge, CompletedProcess, ChargeRows;
    if ChargeRows(db, p) == map[] {
      DeleteProcessBooks(db, p, clean);
    } else if !EfficiencyUnreadable(db, car) {
      PositionExists(db, p, clean);
      PriceChargeBooks(db, p, CompletedProcess(db, car, p), clean);
    }
  }

  lemma PositionExists(db: Db, p: Id, clean: bool)
    requires Books(db, clean) && p in db.processes
    ensures db.processes[p].position in db.positions
  {
    assert ProcessRef(db, p);
  }

  lemma OpenDriveBooks(db: Db, car: Id, r: Reading, now: nat, p: Id, clean: bool)
    requires Books(db, clean) && p in db.positions
    ensures Books(OpenDrive(db, car, r, now, p), clean)
  {
    hide ProcessLabelled, DriveLabelled, Linked;
    var d := NextId(db.drives.Keys);
    var after := OpenDrive(db, car, r, now, p);
    SameLinks(db, after);
    forall q ensures ProcessRef(after, q) && (clean ==> ProcessLabelled(after, q)) {
      assert ProcessRef(db, q);
      if q in db.processes { SameProcess(db, after, q); } else { NoProcess(after, q); }
    }
    forall e ensures DriveRef(after, e) && (clean ==> DriveLabelled(after, e)) {
      assert DriveRef(db, e);
      if e in db.drives {
        SameDriveRow(db, after, e);
      } else {
        OpenNeedsNoLabel(after, e);
      }
    }
  }

  lemma OpenNeedsNoLabel(db: Db, d: Id)
    requires d in db.drives ==> db.drives[d].endDate.None?
    ensures DriveLabelled(db, d)
  {
  }

  lemma AddChargeBooks(db: Db, p: Id, r: Reading, now: nat, clean: bool)
    requires Books(db, clean) && p in db.processes && db.processes[p].endDate.None?
    ensures Books(AddCharge(db, p, r, now), clean)
  {
    hide DriveLabelled, Linked, FencePrice;
    var after := AddCharge(db, p, r, now);
    SameLinks(db, after);
    forall q ensures ProcessRef(after, q) && (clean ==> ProcessLabelled(after, q)) {
      assert ProcessRef(db, q);
      assert clean ==> ProcessLabelled(db, q);
      assert Invoiced(after, q) == Invoiced(db, q);
    }
    forall d ensures DriveRef(after, d) && (clean ==> DriveLabelled(after, d)) {
      assert DriveRef(db, d);
      DriveLabelsNeedOnlyDrives(db, after, d);
    }
  }

  lemma OpenChargeBooks(db: Db, car: Id, now: nat, p: Id, clean: bool)
    requires Books(db, clean) && p in db.positions
    ensures Books(db.(processes := db.processes[NextId(db.processes.Keys) := NewProcess(car, now, p)]), clean)
  {
    hide DriveLabelled, Linked, FencePrice;
    var after := db.(processes := db.processes[NextId(db.processes.Keys) := NewProcess(car, now, p)]);
    SameLinks(db, after);
    forall q ensures ProcessRef(after, q) && (clean ==> ProcessLabelled(after, q)) {
      assert ProcessRef(db, q);
      assert clean ==> ProcessLabelled(db, q);
      assert Invoiced(after, q) == Invoiced(db, q);
    }
    forall d ensures DriveRef(after, d) && (clean ==> DriveLabelled(after, d)) {
      assert DriveRef(db, d);
      DriveLabelsNeedOnlyDrives(db, after, d);
    }
  }

  /** The other changes touch neither drives nor processes, and move no place. */
  lemma SamePlacesOtherwise(db: Db, c: Change, s: Step)
    requires CanMake(db, c, s) && (c.Snap? || c.File? || c.Stream? || c.Regroup?)
    ensures var after := Make(db, c, s);
            SamePlaces(db, after) && after.drives == db.drives && after.processes == db.processes
  {
    hide Snapshot, CatchUp, SampleDue, StreamRows, StreamDrive;
  }

  lemma ChangeBooks(db: Db, c: Change, s: Step, clean: bool)
    requires CanMake(db, c, s) && Books(db, clean)
    ensures Books(Make(db, c, s), clean)
  {
    hide Books, CloseDrive, CompleteCharge, Snapshot, OpenDrive, AddCharge, CatchUp, StreamRow, SetDrive, SamePlaces;
    match c {
      case CloseOne(d) => CloseDriveBooks(db, d, clean);
      case CompleteOne(p) => CompleteChargeBooks(db, db.processes[p].car, p, clean);
      case Open(p) => OpenDriveBooks(db, s.car, s.reading, s.now, p, clean);
      case Begin(p) =>
        var q := NextId(db.processes.Keys);
        OpenChargeBooks(db, s.car, s.now, p, clean);
        AddChargeBooks(db.(processes := db.processes[q := NewProcess(s.car, s.now, p)]), q, s.reading, s.now, clean);
      case Tick(q) => AddChargeBooks(db, q, s.reading, s.now, clean);
      case _ =>
        SamePlacesOtherwise(db, c, s);
        SameRowsBooks(db, Make(db, c, s), clean);
    }
  }

  /** No ledger step spoils the books, whatever id a snapshot hands back. */
  lemma StepBooks(db: Db, s: Step, clean: bool)
    requires Books(db, clean)
    ensures Books(Apply(db, s), clean)
  {
    hide Books, CanMake, Make, Apply;
    forall d, c | CanMake(d, c, s) && Books(d, clean) ensures Books(Make(d, c, s), clean) {
      ChangeBooks(d, c, s, clean);
    }
    StepKeeps(d => Books(d, clean), db, s);
  }

  // ---------- Rematch, fence writes, invoices ----------

  /** A rematch makes the books clean, from any labels and prices. */
  lemma RematchCleans(db: Db, clean: bool)
    requires Books(db, clean)
    ensures Books(Rematch(db), true)
  {
    hide Nearest, FencePrice;
    var after := Rematch(db);
    assert Linked(after) by { RematchLinks(db); }
    forall q ensures ProcessRef(after, q) && ProcessLabelled(after, q) {
      assert ProcessRef(db, q);
      if q in db.processes {
        assert Invoiced(after, q) == Invoiced(db, q);
        PriceIgnoresLabel(db, q);
      }
    }
    forall d ensures DriveRef(after, d) && DriveLabelled(after, d) { assert DriveRef(db, d); }
  }

  lemma RematchLinks(db: Db)
    requires Linked(db)
    ensures Linked(Rematch(db))
  {
    hide PlaceLabel, FencePrice;
    var after := Rematch(db);
    forall s ensures LinkOk(after, s) { assert LinkOk(db, s); }
    forall s, t ensures LinksApart(after, s, t) { assert LinksApart(db, s, t); }
  }

  lemma PriceIgnoresLabel(db: Db, q: Id)
    requires q in db.processes
    ensures var row := RelabelledProcess(db, q);
            FencePrice(db.fences, row.fence, row) == FencePrice(db.fences, row.fence, db.processes[q])
  {
    hide PlaceLabel, FencePrice, Invoiced;
    var row := RelabelledProcess(db, q);
    PriceDependsOn(db.fences, row.fence, row, db.processes[q]);
  }

  lemma WriteFenceBooks(db: Db, w: FenceWrite, clean: bool)
    requires Books(db, clean)
    ensures Books(WriteFence(db, w), false)
  {
    hide Linked, ProcessLabelled, DriveLabelled;
    var after := WriteFence(db, w);
    SameLinks(db, after);
    forall q ensures ProcessRef(after, q) { assert ProcessRef(db, q); }
    forall d ensures DriveRef(after, d) { assert DriveRef(db, d); }
  }

  lemma SyncBooks(db: Db, item: Item, order: seq<Id>, clean: bool)
    requires Books(db, clean)
    ensures Books(SyncItem(db, item, order), clean)
  {
    hide Linked, LinksKept, SyncItem, ProcessRef, DriveRef, ProcessLabelled, DriveLabelled;
    var after := SyncItem(db, item, order);
    SyncItemLinks(db, item, order);
    forall q ensures ProcessRef(after, q) && (clean ==> ProcessLabelled(after, q)) {
      assert ProcessRef(db, q);
      assert clean ==> ProcessLabelled(db, q);
      SyncedProcess(db, item, order, q);
    }
    forall d ensures DriveRef(after, d) && (clean ==> DriveLabelled(after, d)) {
      assert DriveRef(db, d);
      SyncedDrive(db, item, order, d);
    }
  }

  lemma SyncedProcess(db: Db, item: Item, order: seq<Id>, q: Id)
    requires LinksKept(db, SyncItem(db, item, order)) && ProcessRef(db, q)
    ensures var after := SyncItem(db, item, order);
            ProcessRef(after, q) && (ProcessLabelled(db, q) ==> ProcessLabelled(after, q))
  {
    hide LinksKept, SyncItem, Nearest, FencePrice, Invoiced;
    SyncTouches(db, item, order);
    SyncInvoices(db, item, order, q);
  }

  lemma SyncedDrive(db: Db, item: Item, order: seq<Id>, d: Id)
    requires DriveRef(db, d)
    ensures var after := SyncItem(db, item, order);
            DriveRef(after, d) && (DriveLabelled(db, d) ==> DriveLabelled(after, d))
  {
    hide SyncItem, DriveLabelled;
    SyncTouches(db, item, order);
    DriveLabelsNeedOnlyDrives(db, SyncItem(db, item, order), d);
  }

  lemma SyncTouches(db: Db, item: Item, order: seq<Id>)
    ensures var after := SyncItem(db, item, order);
            after == db.(invoices := after.invoices, processes := after.processes)
  {
    hide Upsert, MatchProcess;
  }

  /** A process keeps its row, or it now has an invoice and only its cost changed. */
  lemma SyncInvoices(db: Db, item: Item, order: seq<Id>, q: Id)
    requires LinksKept(db, SyncItem(db, item, order))
    ensures var after := SyncItem(db, item, order);
            && (q in after.processes <==> q in db.processes)
            && (Invoiced(db, q) ==> Invoiced(after, q))
            && (q in db.processes && !Invoiced(after, q) ==> after.processes[q] == db.processes[q])
            && (q in db.processes ==> after.processes[q].(cost := None) == db.processes[q].(cost := None))
  {
    hide SyncItem;
    var after := SyncItem(db, item, order);
    SyncChangesOneProcess(db, item, order);
    var link := after.invoices[item.session].process;
    if Invoiced(db, q) {
      var s :| s in db.invoices && db.invoices[s].process == Some(q);
      assert s in after.invoices && after.invoices[s].process == Some(q);
    }
    assert link == Some(q) ==> Invoiced(after, q);
  }

  lemma SyncChangesOneProcess(db: Db, item: Item, order: seq<Id>)
    ensures var after := SyncItem(db, item, order);
            && item.session in after.invoices
            && var link := after.invoices[item.session].process;
               && after.processes.Keys == db.processes.Keys
               && (forall p :: p in db.processes && link != Some(p) ==> after.processes[p] == db.processes[p])
               && (forall p :: p in db.processes ==>
                     after.processes[p].(cost := None) == db.processes[p].(cost := None))
  {
    hide Upsert, MatchProcess, Link;
    var found := MatchProcess(Upsert(db, item), item, order);
    if found.Some? {
      LinkChanges(Upsert(db, item), item, found.value);
    }
  }

  // ---------- The whole system ----------

  /** The tables and the location job. */
  datatype System = System(db: Db, job: Jobs.Protocol)

  /** One atomic thing anyone does. `order` is the scan order of the candidate query. */
  datatype Event =
    | LedgerEvent(step: Step)
    | SyncEvent(item: Item, order: seq<Id>)
    | FenceEvent(write: FenceWrite)
    | JobEvent(action: Jobs.Action)

  /** A write to a fence that is not there is answered with an error and changes nothing. */
  predicate FenceExists(db: Db, w: FenceWrite) {
    match w
    case Insert(_) => true
    case Update(f) => FenceOf(db.fences, f.id).Some?
    case Delete(id) => FenceOf(db.fences, id).Some?
  }

  predicate CanHappen(s: System, e: Event) {
    match e
    case LedgerEvent(_) => true
    case SyncEvent(_, _) => true
    case FenceEvent(_) => true
    case JobEvent(a) => !a.Write? && Jobs.Enabled(s.job, a)
  }

  ghost function Happen(s: System, e: Event): System
    requires CanHappen(s, e)
  {
    match e
    case LedgerEvent(step) => s.(db := Apply(s.db, step))
    case SyncEvent(item, order) => s.(db := SyncItem(s.db, item, order))
    case FenceEvent(w) =>
      if FenceExists(s.db, w) then System(WriteFence(s.db, w), Jobs.Act(s.job, Jobs.Write)) else s
    case JobEvent(a) =>
      System(if a.Pass? && a.ok then Rematch(s.db) else s.db, Jobs.Act(s.job, a))
  }

  ghost predicate IsHistory(states: seq<System>, events: seq<Event>) {
    |states| == |events| + 1 &&
    forall i :: 0 <= i < |events| ==>
      CanHappen(states[i], events[i]) && states[i + 1] == Happen(states[i], events[i])
  }

  /** No fence was written since the last pass, and that pass succeeded. */
  predicate UpToDate(job: Jobs.Protocol) {
    job.lastOk && job.covered == job.writes
  }

  ghost predicate SystemOk(s: System) {
    Jobs.ProtocolOk(s.job) && Books(s.db, UpToDate(s.job))
  }

  lemma EventKeepsSystem(s: System, e: Event)
    requires SystemOk(s) && CanHappen(s, e)
    ensures SystemOk(Happen(s, e))
  {
    hide Books, Apply, Rematch, WriteFence, SyncItem, Jobs.ProtocolOk;
    var after := Happen(s, e);
    match e {
      case LedgerEvent(step) => StepBooks(s.db, step, UpToDate(s.job));
      case SyncEvent(item, order) => SyncBooks(s.db, item, order, UpToDate(s.job));
      case FenceEvent(w) =>
        if FenceExists(s.db, w) {
          WriteFenceBooks(s.db, w, UpToDate(s.job));
          Jobs.ActKeepsProtocol(s.job, Jobs.Write);
          NeverMoreCovered(s.job);
        }
      case JobEvent(a) =>
        Jobs.ActKeepsProtocol(s.job, a);
        if a.Pass? {
          if a.ok {
            RematchCleans(s.db, UpToDate(s.job));
          } else {
            Weaken(s.db, UpToDate(s.job));
          }
        }
    }
  }

  lemma NeverMoreCovered(job: Jobs.Protocol)
    requires Jobs.ProtocolOk(job)
    ensures job.covered <= job.writes
  {
  }

  lemma Weaken(db: Db, clean: bool)
    requires Books(db, clean)
    ensures Books(db, false)
  {
  }

  lemma {:induction false} HistoryKeepsSystem(states: seq<System>, events: seq<Event>, k: nat)
    requires IsHistory(states, events) && k <= |events| && SystemOk(states[0])
    ensures SystemOk(states[k])
  {
    hide SystemOk, Happen;
    if k > 0 {
      HistoryKeepsSystem(states, events, k - 1);
      EventKeepsSystem(states[k - 1], events[k - 1]);
    }
  }

  /** A closed charge has the nearest fence, and costs its invoice's total or else the fence price. */
  ghost predicate ChargeSettled(db: Db, q: Id)
    requires q in db.processes && db.processes[q].position in db.positions
  {
    var row := db.processes[q];
    && IsNearest(db.metric, db.fences, db.positions[row.position].place, row.fence)
    && (forall s :: s in db.invoices && db.invoices[s].process == Some(q) ==> row.cost == Some(db.invoices[s].total))
    && ((forall s :: s in db.invoices ==> db.invoices[s].process != Some(q)) ==>
          row.cost == FencePrice(db.fences, row.fence, row))
  }

  lemma CleanChargeSettled(db: Db, q: Id)
    requires Books(db, true) && q in db.processes && db.processes[q].endDate.Some?
    requires db.processes[q].position in db.positions && db.positions[db.processes[q].position].place != ORIGIN
    ensures ChargeSettled(db, q)
  {
    hide FencePrice;
    assert ProcessLabelled(db, q);
    forall s | s in db.invoices && db.invoices[s].process == Some(q)
      ensures db.processes[q].cost == Some(db.invoices[s].total)
    {
      assert LinkOk(db, s);
    }
  }

  /** In every interleaving, when the job has completed and every fence write has had its start, each closed
      charge away from (0, 0) carries the nearest fence of the current table and costs its invoice's total,
      or else that fence's price. */
  lemma ChargesSettleWhenJobCompletes(states: seq<System>, events: seq<Event>, k: nat, q: Id)
    requires IsHistory(states, events) && k <= |events|
    requires states[0].job == Jobs.START && Books(states[0].db, false)
    requires states[k].job.job.status.Completed? && states[k].job.uncalled == {}
    requires q in states[k].db.processes && states[k].db.processes[q].endDate.Some?
    ensures var db := states[k].db;
            && db.processes[q].position in db.positions
            && (db.positions[db.processes[q].position].place != ORIGIN ==> ChargeSettled(db, q))
  {
    hide Books, ChargeSettled, Happen;
    JobCompletedIsUpToDate(states, events, k);
    PositionExists(states[k].db, q, true);
    if states[k].db.positions[states[k].db.processes[q].position].place != ORIGIN {
      CleanChargeSettled(states[k].db, q);
    }
  }

  /** ... and so do both ends of each closed drive. */
  lemma DrivesSettleWhenJobCompletes(states: seq<System>, events: seq<Event>, k: nat, d: Id)
    requires IsHistory(states, events) && k <= |events|
    requires states[0].job == Jobs.START && Books(states[0].db, false)
    requires states[k].job.job.status.Completed? && states[k].job.uncalled == {}
    requires d in states[k].db.drives && states[k].db.drives[d].endDate.Some?
    ensures var db, row := states[k].db, states[k].db.drives[d];
            && (row.startPos.Some? ==>
                  row.startPos.value in db.positions && RightFence(db, row.startPos.value, row.startFence))
            && (row.endPos.Some? ==> row.endPos.value in db.positions && RightFence(db, row.endPos.value, row.endFence))
  {
    hide Happen, RightFence;
    JobCompletedIsUpToDate(states, events, k);
    assert DriveLabelled(states[k].db, d) && DriveRef(states[k].db, d);
  }

  lemma JobCompletedIsUpToDate(states: seq<System>, events: seq<Event>, k: nat)
    requires IsHistory(states, events) && k <= |events|
    requires states[0].job == Jobs.START && Books(states[0].db, false)
    requires states[k].job.job.status.Completed? && states[k].job.uncalled == {}
    ensures Books(states[k].db, true)
  {
    hide Books, Happen;
    HistoryKeepsSystem(states, events, k);
    var job := states[k].job;
    if job.writes > 0 {
      assert Jobs.Covered(job, job.writes - 1);
    }
    assert job.covered == job.writes;
  }

  // ---------- The job does complete ----------

  /** No call, no fence write, and every pass succeeds; anything else may go on. */
  predicate Calm(e: Event) {
    match e
    case LedgerEvent(_) => true
    case SyncEvent(_, _) => true
    case FenceEvent(_) => false
    case JobEvent(a) => Jobs.Succeeds(a)
  }

  lemma CalmGoesOn(s: System, e: Event)
    requires Jobs.ProtocolOk(s.job) && CanHappen(s, e) && Calm(e)
    requires Jobs.EndsWell(s.job) || s.job.job.status.Completed?
    ensures var after := Happen(s, e).job;
            && Jobs.ProtocolOk(after) && after.uncalled == s.job.uncalled
            && (Jobs.EndsWell(after) || after.job.status.Completed?)
  {
    hide Apply, Rematch, SyncItem, Jobs.ProtocolOk;
    if e.JobEvent? {
      Jobs.ActKeepsProtocol(s.job, e.action);
      if Jobs.EndsWell(s.job) { Jobs.SuccessGoesOn(s.job, e.action); } else { Jobs.CompletedStays(s.job, e.action); }
    }
  }

  /** Once writes and calls stop and every pass succeeds, however all else goes on: when the worker that is at work has
      ended, the job is completed and, every write called for, everything is settled. */
  lemma {:induction false} CalmHistorySettles(states: seq<System>, events: seq<Event>, j: nat, k: nat)
    requires IsHistory(states, events) && j <= k <= |events|
    requires states[0].job == Jobs.START && Books(states[0].db, false)
    requires Jobs.EndsWell(states[j].job) && states[j].job.uncalled == {}
    requires forall i :: j <= i < k ==> Calm(events[i])
    ensures states[k].job.uncalled == {} && (Jobs.EndsWell(states[k].job) || states[k].job.job.status.Completed?)
    ensures states[k].job.workers == [] ==> states[k].job.job.status.Completed? && Books(states[k].db, true)
    decreases k
  {
    hide Books, Happen, Jobs.EndsWell;
    HistoryKeepsSystem(states, events, j);
    if j < k {
      CalmHistorySettles(states, events, j, k - 1);
      HistoryKeepsSystem(states, events, k - 1);
      CalmGoesOn(states[k - 1], events[k - 1]);
    }
    Jobs.EndedIsNotAtWork(states[k].job);
    if states[k].job.workers == [] { JobCompletedIsUpToDate(states, events, k); }
  }

  /** One more event after a history. */
  lemma Extend(states: seq<System>, events: seq<Event>, e: Event)
    requires IsHistory(states, events) && CanHappen(states[|events|], e)
    ensures IsHistory(states + [Happen(states[|events|], e)], events + [e])
  {
    hide Happen, CanHappen;
  }

  /** Every call still owed is made. */
  lemma {:induction false} CallAll(states: seq<System>, events: seq<Event>)
    returns (more: seq<System>, done: seq<Event>)
    requires IsHistory(states, events) && states[0].job == Jobs.START && Books(states[0].db, false)
    ensures IsHistory(more, done) && states <= more && events <= done && more[|done|].job.uncalled == {}
    decreases states[|events|].job.uncalled
  {
    hide Books, Happen, Jobs.ProtocolOk;
    var last := states[|events|];
    if last.job.uncalled == {} {
      return states, events;
    }
    var w :| w in last.job.uncalled;
    var e := JobEvent(Jobs.Call(Some(w)));
    Extend(states, events, e);
    CallTakes(last, w);
    more, done := CallAll(states + [Happen(last, e)], events + [e]);
  }

  lemma CallTakes(s: System, w: nat)
    requires w in s.job.uncalled
    ensures CanHappen(s, JobEvent(Jobs.Call(Some(w))))
    ensures Happen(s, JobEvent(Jobs.Call(Some(w)))).job.uncalled == s.job.uncalled - {w}
  {
  }

  lemma CallStarts(s: System)
    requires Jobs.ProtocolOk(s.job)
    ensures var after := Happen(s, JobEvent(Jobs.Call(None))).job;
            Jobs.ProtocolOk(after) && Jobs.EndsWell(after) && after.uncalled == s.job.uncalled
  {
    Jobs.ActKeepsProtocol(s.job, Jobs.Call(None));
  }

  /** The worker goes on until it ends. */
  lemma {:induction false} LetItWork(states: seq<System>, events: seq<Event>, j: nat)
    returns (more: seq<System>, done: seq<Event>)
    requires IsHistory(states, events) && states[0].job == Jobs.START && Books(states[0].db, false) && j <= |events|
    requires forall i :: j <= i < |events| ==> Calm(events[i])
    ensures IsHistory(more, done) && states <= more && events <= done && more[|done|].job.workers == []
    ensures forall i :: j <= i < |done| ==> Calm(done[i])
    decreases Jobs.StepsLeft(states[|events|].job)
  {
    hide Books, Happen, Jobs.StepsLeft;
    var last := states[|events|];
    if last.job.workers == [] {
      return states, events;
    }
    HistoryKeepsSystem(states, events, |events|);
    var a := Jobs.NextOfWorker(last.job);
    Jobs.OneActionOfWork(last.job, a);
    Extend(states, events, JobEvent(a));
    assert Happen(last, JobEvent(a)).job == Jobs.Act(last.job, a) by { JobActs(last, a); }
    more, done := LetItWork(states + [Happen(last, JobEvent(a))], events + [JobEvent(a)], j);
  }

  lemma JobActs(s: System, a: Jobs.Action)
    requires CanHappen(s, JobEvent(a))
    ensures Happen(s, JobEvent(a)).job == Jobs.Act(s.job, a)
  {
  }

  /** From every state of every interleaving the job can complete with every write called for and everything settled:
      make the calls still owed and one more, and let the worker end. */
  lemma SettlingIsReachable(states: seq<System>, events: seq<Event>)
    returns (more: seq<System>, done: seq<Event>)
    requires IsHistory(states, events) && states[0].job == Jobs.START && Books(states[0].db, false)
    ensures IsHistory(more, done) && states <= more && events <= done
    ensures var last := more[|done|];
            last.job.job.status.Completed? && last.job.uncalled == {} && Books(last.db, true)
  {
    hide Books, Happen, Jobs.EndsWell;
    more, done := CallAll(states, events);
    HistoryKeepsSystem(more, done, |done|);
    var e, j := JobEvent(Jobs.Call(None)), |done| + 1;
    CallStarts(more[|done|]);
    Extend(more, done, e);
    ghost var called, calls := more + [Happen(more[|done|], e)], done + [e];
    more, done := LetItWork(called, calls, j);
    assert more[j] == called[j];
    CalmHistorySettles(more, done, j, |done|);
  }

  /** At (0, 0) the two ways of labelling disagree: a rematch looks the place up, closing does not. */
  lemma TheOriginIsLabelledByRematchOnly(metric: Metric, fences: seq<Fence>)
    ensures GeofenceAt(metric, fences, ORIGIN) == Nearest(metric, fences, ORIGIN) <==>
            forall i :: 0 <= i < |fences| ==> !Contains(metric, fences[i], ORIGIN)
  {
    assert IsNearest(metric, fences, ORIGIN, Nearest(metric, fences, ORIGIN));
  }
}
