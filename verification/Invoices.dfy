/** Matching Tesla invoices to charging processes (src/invoices.rs). */
module Invoices {
  import opened Base
  import opened Tables
  import opened Fences

  const MATCH_SECS := 25 * 60
  const MAX_PAGES := 80

  /** One parsed row of the charging history. `start` is in seconds. */
  datatype Item = Item(session: string, vin: string, start: int, total: real, energy: Option<real>)

  /** A row of the candidate query: process id, start in seconds, energy added. */
  datatype Row = Row(id: Id, secs: int, kwh: Option<real>)

  function Gap(item: Item, row: Row): int {
    if row.secs < item.start then item.start - row.secs else row.secs - item.start
  }

  function Penalty(item: Item, row: Row): real {
    if item.energy.None? || row.kwh.None? then 0.0
    else
      var d := item.energy.value - row.kwh.value;
      if d < 0.0 then -d else d
  }

  predicate Eligible(item: Item, row: Row) { Gap(item, row) < MATCH_SECS }

  /** Smaller time gap, then smaller energy gap. */
  predicate Better(item: Item, a: Row, b: Row) {
    Gap(item, a) < Gap(item, b) || (Gap(item, a) == Gap(item, b) && Penalty(item, a) < Penalty(item, b))
  }

  /** The first lexicographic minimum among the eligible rows. */
  ghost predicate FirstBest(item: Item, rows: seq<Row>, i: nat) {
    && i < |rows| && Eligible(item, rows[i])
    && (forall j :: 0 <= j < |rows| && Eligible(item, rows[j]) ==> !Better(item, rows[j], rows[i]))
    && (forall j :: 0 <= j < i && Eligible(item, rows[j]) ==> Better(item, rows[i], rows[j]))
  }

  ghost predicate IsMatch(item: Item, rows: seq<Row>, found: Option<Id>) {
    match found
    case None => forall i :: 0 <= i < |rows| ==> !Eligible(item, rows[i])
    case Some(id) => exists i: nat :: FirstBest(item, rows, i) && rows[i].id == id
  }

  lemma MatchIsUnique(item: Item, rows: seq<Row>, a: Option<Id>, b: Option<Id>)
    requires IsMatch(item, rows, a) && IsMatch(item, rows, b)
    ensures a == b
  {
    if a.Some? && b.Some? {
      var i: nat :| FirstBest(item, rows, i) && rows[i].id == a.value;
      var j: nat :| FirstBest(item, rows, j) && rows[j].id == b.value;
      assert !Better(item, rows[i], rows[j]) && !Better(item, rows[j], rows[i]);
      assert i == j;
    }
  }

  // ---------- The match in seconds and kilowatt-hours ----------

  /** Under 25 minutes before or after the invoice. */
  predicate InWindow(item: Item, secs: int) { -1500 < secs - item.start < 1500 }

  /** `d` seconds before or after it. */
  predicate SecondsApart(item: Item, secs: int, d: nat) {
    secs == item.start + d || secs == item.start - d
  }

  predicate NearerInTime(item: Item, secs: int, d: nat) { item.start - d < secs < item.start + d }

  /** `e` more or less energy than billed; no difference when either is unknown. */
  predicate KwhApart(item: Item, kwh: Option<real>, e: real) {
    if item.energy.None? || kwh.None? then e == 0.0
    else e >= 0.0 && (kwh.value == item.energy.value + e || kwh.value == item.energy.value - e)
  }

  predicate NearerInKwh(item: Item, kwh: Option<real>, e: real) {
    if item.energy.None? || kwh.None? then 0.0 < e
    else item.energy.value - e < kwh.value < item.energy.value + e
  }

  predicate AsNearInKwh(item: Item, kwh: Option<real>, e: real) {
    item.energy.None? || kwh.None? || item.energy.value - e <= kwh.value <= item.energy.value + e
  }

  /** Row `i` is `d` seconds off and `e` in energy; no row is nearer in time, none of those as near in time is nearer
      in energy, and no earlier one is as near in both. */
  ghost predicate NearestRow(item: Item, rows: seq<Row>, i: nat, d: nat, e: real) {
    && i < |rows| && d < 1500 && SecondsApart(item, rows[i].secs, d) && KwhApart(item, rows[i].kwh, e)
    && (forall r :: r in rows ==> !NearerInTime(item, r.secs, d))
    && (forall r :: r in rows && SecondsApart(item, r.secs, d) ==> !NearerInKwh(item, r.kwh, e))
    && (forall j :: 0 <= j < i && SecondsApart(item, rows[j].secs, d) ==> !AsNearInKwh(item, rows[j].kwh, e))
  }

  ghost predicate NearestMatch(item: Item, rows: seq<Row>, found: Option<Id>) {
    match found
    case None => forall r :: r in rows ==> !InWindow(item, r.secs)
    case Some(id) => exists i: nat, d: nat, e: real :: i < |rows| && NearestRow(item, rows, i, d, e) && rows[i].id == id
  }

  lemma FirstBestIsNearest(item: Item, rows: seq<Row>, i: nat)
    requires FirstBest(item, rows, i)
    ensures NearestRow(item, rows, i, Gap(item, rows[i]), Penalty(item, rows[i]))
  {
    var d, e := Gap(item, rows[i]), Penalty(item, rows[i]);
    forall r | r in rows
      ensures !NearerInTime(item, r.secs, d)
      ensures SecondsApart(item, r.secs, d) ==> !NearerInKwh(item, r.kwh, e)
    {
      var j :| 0 <= j < |rows| && rows[j] == r;
      assert Eligible(item, rows[j]) ==> !Better(item, rows[j], rows[i]);
    }
    forall j | 0 <= j < i && SecondsApart(item, rows[j].secs, d) ensures !AsNearInKwh(item, rows[j].kwh, e) {
      assert Eligible(item, rows[j]) ==> Better(item, rows[i], rows[j]);
    }
  }

  /** The first lexicographic minimum is the nearest in time, then in energy, then the first. */
  lemma MatchIsNearest(item: Item, rows: seq<Row>, found: Option<Id>)
    requires IsMatch(item, rows, found)
    ensures NearestMatch(item, rows, found)
  {
    if found.Some? {
      var i: nat :| FirstBest(item, rows, i) && rows[i].id == found.value;
      FirstBestIsNearest(item, rows, i);
    } else {
      forall r | r in rows ensures !InWindow(item, r.secs) {
        var j :| 0 <= j < |rows| && rows[j] == r;
        assert !Eligible(item, rows[j]);
      }
    }
  }

  /** The scan that keeps the best row so far. */
  method BestMatch(item: Item, rows: seq<Row>) returns (found: Option<Id>)
    ensures IsMatch(item, rows, found) && NearestMatch(item, rows, found)
    ensures found == ChosenId(item, rows)
  {
    var best: Option<Row> := None;
    ghost var at := 0;
    for k := 0 to |rows|
      invariant best.None? ==> forall i :: 0 <= i < k ==> !Eligible(item, rows[i])
      invariant best.Some? ==> at < k && best.value == rows[at] && FirstBest(item, rows[..k], at)
    {
      var row := rows[k];
      assert rows[..k + 1][..k] == rows[..k];
      if Gap(item, row) < MATCH_SECS {
        if best.None? || Better(item, row, best.value) {
          best := Some(row);
          at := k;
        }
      }
    }
    assert rows[..|rows|] == rows;
    found := if best.Some? then Some(best.value.id) else None;
    MatchIsUnique(item, rows, found, ChosenId(item, rows));
    MatchIsNearest(item, rows, found);
  }

  function ChosenId(item: Item, rows: seq<Row>): Option<Id> {
    var best := Choose(item, rows);
    if best.Some? then Some(best.value.id) else None
  }

  /** The same choice as a function of the rows. */
  function Choose(item: Item, rows: seq<Row>): (best: Option<Row>)
    ensures IsMatch(item, rows, if best.Some? then Some(best.value.id) else None)
    ensures best.Some? ==> best.value in rows && Eligible(item, best.value)
  {
    ChooseIsFirstBest(item, rows);
    var best := ChooseAt(item, rows);
    assert best.Some? ==> exists i: nat :: FirstBest(item, rows, i) && rows[i] == best.value;
    best
  }

  function ChooseAt(item: Item, rows: seq<Row>): Option<Row> {
    if rows == [] then None
    else
      var last := rows[|rows| - 1];
      var best := ChooseAt(item, rows[..|rows| - 1]);
      if Eligible(item, last) && (best.None? || Better(item, last, best.value)) then Some(last) else best
  }

  lemma BetterChains(item: Item, a: Row, b: Row, c: Row)
    requires Better(item, a, b) && !Better(item, c, b)
    ensures Better(item, a, c) && !Better(item, c, a)
  {
  }

  lemma {:induction false} ChooseIsFirstBest(item: Item, rows: seq<Row>)
    ensures ChooseAt(item, rows).None? ==> forall i :: 0 <= i < |rows| ==> !Eligible(item, rows[i])
    ensures ChooseAt(item, rows).Some? ==>
      exists i: nat :: FirstBest(item, rows, i) && rows[i] == ChooseAt(item, rows).value
  {
    hide Better, Eligible;
    if rows != [] {
      var n := |rows| - 1;
      var fewer := rows[..n];
      ChooseIsFirstBest(item, fewer);
      assert forall i :: 0 <= i < n ==> fewer[i] == rows[i];
      var best := ChooseAt(item, fewer);
      if best.Some? {
        var i: nat :| FirstBest(item, fewer, i) && fewer[i] == best.value;
        if Eligible(item, rows[n]) && Better(item, rows[n], best.value) {
          LaterIsBest(item, rows, i);
        } else {
          assert FirstBest(item, rows, i);
        }
      } else if Eligible(item, rows[n]) {
        NotBetterThanItself(item, rows[n]);
        assert FirstBest(item, rows, n);
      }
    }
  }

  lemma NotBetterThanItself(item: Item, a: Row)
    ensures !Better(item, a, a)
  {
  }

  lemma LaterIsBest(item: Item, rows: seq<Row>, i: nat)
    requires rows != [] && var n := |rows| - 1;
      FirstBest(item, rows[..n], i) && Eligible(item, rows[n]) && Better(item, rows[n], rows[i])
    ensures FirstBest(item, rows, |rows| - 1)
  {
    hide Better, Eligible;
    var n := |rows| - 1;
    NotBetterThanItself(item, rows[n]);
    forall j | 0 <= j < n && Eligible(item, rows[j])
      ensures Better(item, rows[n], rows[j]) && !Better(item, rows[j], rows[n])
    {
      assert rows[..n][j] == rows[j];
      BetterChains(item, rows[n], rows[i], rows[j]);
    }
  }

  // ---------- The tables ----------

  /** A process the candidate query returns. */
  predicate Candidate(db: Db, item: Item, p: Id) {
    && p in db.processes && db.processes[p].car in db.cars
    && db.cars[db.processes[p].car].vin == item.vin
    && !Invoiced(db, p)
    && Eligible(item, RowOf(db, p))
  }

  function RowOf(db: Db, p: Id): Row
    requires p in db.processes
  {
    Row(p, Seconds(db.processes[p].startDate), db.processes[p].added)
  }

  /** The candidate rows, in the order the query scans the processes. */
  function Rows(db: Db, item: Item, order: seq<Id>): (rows: seq<Row>)
    ensures forall r :: r in rows <==> r.id in order && Candidate(db, item, r.id) && r == RowOf(db, r.id)
  {
    if order == [] then []
    else (if Candidate(db, item, order[0]) then [RowOf(db, order[0])] else []) + Rows(db, item, order[1..])
  }

  /** Insert the invoice, or update all but its VIN and its link. */
  function Upsert(db: Db, item: Item): (after: Db)
    ensures after == db.(invoices := after.invoices) && item.session in after.invoices
    ensures after.invoices[item.session].process ==
            if item.session in db.invoices then db.invoices[item.session].process else None
  {
    var s := item.session;
    var vin := if s in db.invoices then db.invoices[s].vin else item.vin;
    var link := if s in db.invoices then db.invoices[s].process else None;
    db.(invoices := db.invoices[s := Invoice(vin, item.start, item.total, item.energy, link)])
  }

  function MatchProcess(db: Db, item: Item, order: seq<Id>): Option<Id> {
    if item.session in db.invoices && db.invoices[item.session].process.Some?
    then db.invoices[item.session].process
    else
      ChosenId(item, Rows(db, item, order))
  }

  function Link(db: Db, item: Item, p: Id): Db
    requires item.session in db.invoices
  {
    var linked := db.(invoices := db.invoices[item.session := db.invoices[item.session].(process := Some(p))]);
    if p in db.processes
    then linked.(processes := db.processes[p := db.processes[p].(cost := Some(item.total))])
    else linked
  }

  /** Store one invoice, find its process, and hand it the cost. */
  function SyncItem(db: Db, item: Item, order: seq<Id>): Db {
    var stored := Upsert(db, item);
    var p := MatchProcess(stored, item, order);
    if p.Some? then Link(stored, item, p.value) else stored
  }

  /** A process of the invoice's car that no invoice owns. */
  predicate FreeProcess(db: Db, item: Item, p: Id) {
    && p in db.processes && db.processes[p].car in db.cars && db.cars[db.processes[p].car].vin == item.vin
    && !Invoiced(db, p)
  }

  /** The free process that starts nearest to the invoice, under 25 minutes off; none when none does. */
  ghost predicate NearestFree(db: Db, item: Item, found: Option<Id>) {
    match found
    case None => forall p :: FreeProcess(db, item, p) ==> !InWindow(item, db.processes[p].startDate / 1000)
    case Some(q) =>
      && FreeProcess(db, item, q)
      && exists d: nat, e: real :: NearestAmong(db, item, q, d, e)
  }

  ghost predicate NearestAmong(db: Db, item: Item, q: Id, d: nat, e: real)
    requires q in db.processes
  {
    && d < 1500 && SecondsApart(item, db.processes[q].startDate / 1000, d) && KwhApart(item, db.processes[q].added, e)
    && forall p :: FreeProcess(db, item, p) ==>
         var secs := db.processes[p].startDate / 1000;
         !NearerInTime(item, secs, d) && !(SecondsApart(item, secs, d) && NearerInKwh(item, db.processes[p].added, e))
  }

  lemma CandidatesAreFree(db: Db, item: Item, p: Id)
    ensures Candidate(db, item, p) <==> FreeProcess(db, item, p) && InWindow(item, db.processes[p].startDate / 1000)
  {
  }

  lemma MatchIsNearestFree(db: Db, item: Item, order: seq<Id>, found: Option<Id>)
    requires IsMatch(item, Rows(db, item, order), found) && forall p :: p in db.processes ==> p in order
    ensures NearestFree(db, item, found)
  {
    hide Candidate, FreeProcess, Invoiced, IsMatch, NearestRow;
    var rows := Rows(db, item, order);
    MatchIsNearest(item, rows, found);
    forall p | p in db.processes && FreeProcess(db, item, p) && InWindow(item, db.processes[p].startDate / 1000)
      ensures RowOf(db, p) in rows
    {
      CandidatesAreFree(db, item, p);
      FreeIsThere(db, item, p);
    }
    forall p | FreeProcess(db, item, p) ensures p in db.processes { FreeIsThere(db, item, p); }
    if found.Some? {
      var i: nat, d: nat, e: real :| i < |rows| && NearestRow(item, rows, i, d, e) && rows[i].id == found.value;
      NearestRowSays(item, rows, i, d, e);
      CandidatesAreFree(db, item, found.value);
      forall p | p in db.processes && FreeProcess(db, item, p)
        ensures var secs := db.processes[p].startDate / 1000;
                && !NearerInTime(item, secs, d)
                && !(SecondsApart(item, secs, d) && NearerInKwh(item, db.processes[p].added, e))
      {
        var secs := db.processes[p].startDate / 1000;
        assert NearerInTime(item, secs, d) || SecondsApart(item, secs, d) ==> InWindow(item, secs);
      }
      assert NearestAmong(db, item, found.value, d, e);
    }
  }

  lemma FreeIsThere(db: Db, item: Item, p: Id)
    requires FreeProcess(db, item, p)
    ensures p in db.processes
  {
  }

  lemma NearestRowSays(item: Item, rows: seq<Row>, i: nat, d: nat, e: real)
    requires NearestRow(item, rows, i, d, e)
    ensures i < |rows| && rows[i] in rows && d < 1500
    ensures SecondsApart(item, rows[i].secs, d) && KwhApart(item, rows[i].kwh, e)
    ensures forall r :: r in rows ==> !NearerInTime(item, r.secs, d)
    ensures forall r :: r in rows ==> !(SecondsApart(item, r.secs, d) && NearerInKwh(item, r.kwh, e))
  {
  }

  // ---------- What syncs keep ----------

  /** A linked process exists and costs what its invoice says. */
  ghost predicate LinkOk(db: Db, s: string) {
    s in db.invoices && db.invoices[s].process.Some? ==>
      var p := db.invoices[s].process.value;
      p in db.processes && db.processes[p].cost == Some(db.invoices[s].total)
  }

  ghost predicate LinksApart(db: Db, s: string, t: string) {
    s in db.invoices && t in db.invoices && s != t && db.invoices[s].process.Some? ==>
      db.invoices[s].process != db.invoices[t].process
  }

  /** Links are one-to-one and own the cost of their process. */
  ghost predicate Linked(db: Db) {
    (forall s :: LinkOk(db, s)) && forall s, t :: LinksApart(db, s, t)
  }

  /** A link once made names the same process for ever. */
  ghost predicate LinksKept(db: Db, after: Db) {
    forall s :: s in db.invoices && db.invoices[s].process.Some? ==>
      s in after.invoices && after.invoices[s].process == db.invoices[s].process
  }

  lemma SyncItemLinks(db: Db, item: Item, order: seq<Id>)
    requires Linked(db)
    ensures Linked(SyncItem(db, item, order)) && LinksKept(db, SyncItem(db, item, order))
  {
    hide Choose, Rows, Better;
    var stored := Upsert(db, item);
    var after := SyncItem(db, item, order);
    var p := MatchProcess(stored, item, order);
    if p.Some? {
      NewLinkIsFree(stored, item, order);
    }
    forall s ensures LinkOk(after, s) {
      assert LinkOk(db, s) && LinkOk(db, item.session) && LinksApart(db, item.session, s);
    }
    forall s, t ensures LinksApart(after, s, t) {
      assert LinksApart(db, s, t);
    }
  }

  /** The process found is the one already linked, or one no invoice is linked to. */
  lemma NewLinkIsFree(db: Db, item: Item, order: seq<Id>)
    requires MatchProcess(db, item, order).Some? && item.session in db.invoices
    ensures var p := MatchProcess(db, item, order).value;
            if db.invoices[item.session].process.Some?
            then db.invoices[item.session].process == Some(p)
            else p in db.processes && forall s :: s in db.invoices ==> db.invoices[s].process != Some(p)
  {
    if db.invoices[item.session].process.None? {
      var best := Choose(item, Rows(db, item, order));
      assert best.value in Rows(db, item, order);
      assert Candidate(db, item, best.value.id);
    }
  }

  /** After the sync of an item, its process costs its total, and the link is the best free process. */
  lemma SyncItemOwnsCost(db: Db, item: Item, order: seq<Id>)
    requires Linked(db)
    requires forall p :: p in db.processes ==> p in order
    ensures var after := SyncItem(db, item, order);
            var link := after.invoices[item.session].process;
            && item.session in after.invoices && after.invoices[item.session].total == item.total
            && (link.Some? ==> link.value in after.processes && after.processes[link.value].cost == Some(item.total))
            && (item.session in db.invoices && db.invoices[item.session].process.Some? ==>
                  link == db.invoices[item.session].process)
            && ((item.session in db.invoices ==> db.invoices[item.session].process.None?) ==>
                  IsMatch(item, Rows(db, item, order), link) && NearestFree(db, item, link) &&
                  (link.None? <==> forall p :: !Candidate(db, item, p)))
  {
    hide ChosenId, Rows, Better, FirstBest, IsMatch, Candidate, Linked, NearestFree;
    var stored := Upsert(db, item);
    SyncItemLinks(db, item, order);
    SyncStoresTotal(db, item, order);
    if SyncItem(db, item, order).invoices[item.session].process.Some? {
      LinkedCost(SyncItem(db, item, order), item.session);
    }
    if item.session in db.invoices ==> db.invoices[item.session].process.None? {
      forall p ensures Candidate(stored, item, p) == Candidate(db, item, p) { UpsertKeepsCandidate(db, item, p); }
      SameRowsWhenSameCandidates(db, stored, item, order);
      RowsAreTheCandidates(db, item, order);
      LinkIsTheMatch(db, item, order);
      MatchIsNearestFree(db, item, order, ChosenId(item, Rows(db, item, order)));
    }
  }

  lemma LinkIsTheMatch(db: Db, item: Item, order: seq<Id>)
    requires item.session in db.invoices ==> db.invoices[item.session].process.None?
    requires Rows(Upsert(db, item), item, order) == Rows(db, item, order)
    ensures SyncItem(db, item, order).invoices[item.session].process == ChosenId(item, Rows(db, item, order))
  {
    hide ChosenId, Rows, Upsert, Link;
    var found := MatchProcess(Upsert(db, item), item, order);
    if found.Some? {
      LinkChanges(Upsert(db, item), item, found.value);
    }
  }

  /** A link touches one invoice's link and one process's cost. */
  lemma LinkChanges(db: Db, item: Item, p: Id)
    requires item.session in db.invoices
    ensures var after := Link(db, item, p);
            && after == db.(invoices := after.invoices, processes := after.processes)
            && item.session in after.invoices && after.invoices[item.session].process == Some(p)
            && after.processes.Keys == db.processes.Keys
            && (forall q :: q in db.processes && q != p ==> after.processes[q] == db.processes[q])
            && (forall q :: q in db.processes ==> after.processes[q].(cost := None) == db.processes[q].(cost := None))
  {
  }

  lemma RowsAreTheCandidates(db: Db, item: Item, order: seq<Id>)
    requires forall p :: p in db.processes ==> p in order
    ensures ChosenId(item, Rows(db, item, order)).None? <==> forall p :: !Candidate(db, item, p)
    ensures IsMatch(item, Rows(db, item, order), ChosenId(item, Rows(db, item, order)))
  {
    hide Choose, Better;
    var rows := Rows(db, item, order);
    forall p ensures Candidate(db, item, p) <==> p in db.processes && RowOf(db, p) in rows {
    }
    if ChosenId(item, rows).None? {
      assert forall r :: r in rows ==> !Eligible(item, r);
    } else {
      assert Choose(item, rows).value in rows;
    }
  }

  lemma UpsertKeepsCandidate(db: Db, item: Item, p: Id)
    ensures Candidate(Upsert(db, item), item, p) <==> Candidate(db, item, p)
  {
    hide Invoiced;
    UpsertKeepsInvoiced(db, item, p);
  }

  lemma UpsertKeepsInvoiced(db: Db, item: Item, p: Id)
    ensures Invoiced(Upsert(db, item), p) <==> Invoiced(db, p)
  {
    var after := Upsert(db, item);
    if Invoiced(db, p) {
      var s :| s in db.invoices && db.invoices[s].process == Some(p);
      assert s in after.invoices && after.invoices[s].process == Some(p);
    }
  }

  lemma {:induction false} SameRowsWhenSameCandidates(db: Db, after: Db, item: Item, order: seq<Id>)
    requires after.processes == db.processes
    requires forall p :: Candidate(after, item, p) == Candidate(db, item, p)
    ensures Rows(after, item, order) == Rows(db, item, order)
  {
    if order != [] {
      SameRowsWhenSameCandidates(db, after, item, order[1..]);
    }
  }

  /** A sync of an item writes one invoice: its start, total and energy are the item's, its VIN the one it was first
      listed with; of the processes at most one cost changes, to the total. */
  lemma SyncItemSays(db: Db, item: Item, order: seq<Id>)
    ensures var after, s := SyncItem(db, item, order), item.session;
            && s in after.invoices
            && (forall t :: t in db.invoices && t != s ==> t in after.invoices && after.invoices[t] == db.invoices[t])
            && after.invoices[s].start == item.start && after.invoices[s].total == item.total
            && after.invoices[s].energy == item.energy
            && after.invoices[s].vin == (if s in db.invoices then db.invoices[s].vin else item.vin)
            && after.processes.Keys == db.processes.Keys
            && forall p :: p in db.processes && p in after.processes ==>
                 if after.invoices[s].process == Some(p)
                 then after.processes[p] == db.processes[p].(cost := Some(item.total))
                 else after.processes[p] == db.processes[p]
  {
    var stored := Upsert(db, item);
    if stored.invoices[item.session].process.Some? { LinkedIsFound(stored, item, order); }
    hide MatchProcess;
    var found := MatchProcess(stored, item, order);
    if found.Some? { LinkSays(stored, item, found.value); }
  }

  lemma LinkedIsFound(db: Db, item: Item, order: seq<Id>)
    requires item.session in db.invoices && db.invoices[item.session].process.Some?
    ensures MatchProcess(db, item, order) == db.invoices[item.session].process
  {
    hide ChosenId, Rows;
  }

  lemma LinkSays(db: Db, item: Item, p: Id)
    requires item.session in db.invoices
    ensures var after := Link(db, item, p);
            && after.invoices == db.invoices[item.session := db.invoices[item.session].(process := Some(p))]
            && after.processes.Keys == db.processes.Keys
            && forall q :: q in db.processes ==>
                 after.processes[q] == if q == p then db.processes[q].(cost := Some(item.total)) else db.processes[q]
  {
    LinkedProcesses(db, item, p);
    hide Link;
    LinkedInvoices(db, item, p);
  }

  lemma LinkedInvoices(db: Db, item: Item, p: Id)
    requires item.session in db.invoices
    ensures Link(db, item, p).invoices ==
            db.invoices[item.session := db.invoices[item.session].(process := Some(p))]
  {
  }

  lemma LinkedProcesses(db: Db, item: Item, p: Id)
    requires item.session in db.invoices
    ensures Link(db, item, p).processes ==
            if p in db.processes then db.processes[p := db.processes[p].(cost := Some(item.total))] else db.processes
  {
  }

  // ---------- Whole syncs ----------

  /** The items of any number of pages, cars and syncs, each with its scan order. */
  function SyncAll(db: Db, items: seq<(Item, seq<Id>)>): Db {
    if items == [] then db
    else
      var n := |items| - 1;
      SyncItem(SyncAll(db, items[..n]), items[n].0, items[n].1)
  }

  /** Over any sequence of syncs links stay one-to-one, never change, and own the cost of their process. */
  lemma {:induction false} SyncsKeepLinks(db: Db, items: seq<(Item, seq<Id>)>)
    requires Linked(db)
    ensures Linked(SyncAll(db, items)) && LinksKept(db, SyncAll(db, items))
  {
    hide Linked, SyncItem;
    if items != [] {
      var n := |items| - 1;
      SyncsKeepLinks(db, items[..n]);
      SyncItemLinks(SyncAll(db, items[..n]), items[n].0, items[n].1);
    }
  }

  /** A linked invoice's process costs the total of the last item synced for that invoice. */
  lemma {:induction false} LatestTotalWins(db: Db, items: seq<(Item, seq<Id>)>, k: nat)
    requires Linked(db) && k < |items|
    requires forall j :: k < j < |items| ==> items[j].0.session != items[k].0.session
    ensures var after, s := SyncAll(db, items), items[k].0.session;
            && s in after.invoices && after.invoices[s].total == items[k].0.total
            && (after.invoices[s].process.Some? ==>
                  after.invoices[s].process.value in after.processes &&
                  after.processes[after.invoices[s].process.value].cost == Some(items[k].0.total))
  {
    hide Linked, SyncItem;
    var n := |items| - 1;
    var s := items[k].0.session;
    SyncsKeepLinks(db, items);
    if k == n {
      SyncStoresTotal(SyncAll(db, items[..n]), items[n].0, items[n].1);
    } else {
      LatestTotalWins(db, items[..n], k);
      OtherInvoiceUntouched(SyncAll(db, items[..n]), items[n].0, items[n].1, s);
    }
    if SyncAll(db, items).invoices[s].process.Some? {
      LinkedCost(SyncAll(db, items), s);
    }
  }

  lemma LinkedCost(db: Db, s: string)
    requires Linked(db) && s in db.invoices && db.invoices[s].process.Some?
    ensures db.invoices[s].process.value in db.processes
    ensures db.processes[db.invoices[s].process.value].cost == Some(db.invoices[s].total)
  {
    assert LinkOk(db, s);
  }

  lemma SyncStoresTotal(db: Db, item: Item, order: seq<Id>)
    ensures item.session in SyncItem(db, item, order).invoices
    ensures SyncItem(db, item, order).invoices[item.session].total == item.total
  {
    hide MatchProcess;
  }

  lemma OtherInvoiceUntouched(db: Db, item: Item, order: seq<Id>, s: string)
    requires s in db.invoices && s != item.session
    ensures s in SyncItem(db, item, order).invoices && SyncItem(db, item, order).invoices[s] == db.invoices[s]
  {
    hide MatchProcess;
  }
}
