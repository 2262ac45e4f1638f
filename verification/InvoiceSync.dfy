/** The charging-history sync of one car: the page loop, and the statements for each item (src/invoices.rs). */
module InvoiceSync {
  import opened Base
  import opened Tables
  import opened Fences
  import opened Invoices
  import opened Connections

  /** One parsed answer of the charging-history call. */
  datatype Page = Page(items: seq<Item>, hasMore: bool, total: Option<int>)

  /** What the call answers for each page number. */
  type History = nat -> Page

  function Ids(items: seq<Item>): set<string> {
    set i | 0 <= i < |items| :: items[i].session
  }

  /** The invoices listed on pages 1 to `n`. */
  function SeenAfter(history: History, n: nat): set<string> {
    if n == 0 then {} else SeenAfter(history, n - 1) + Ids(history(n).items)
  }

  /** The items of pages 1 to `n`, as they were listed. */
  function Listed(history: History, n: nat): seq<Item> {
    if n == 0 then [] else Listed(history, n - 1) + history(n).items
  }

  /** The first listing of each invoice, in order. */
  function Firsts(listed: seq<Item>): seq<Item> {
    if listed == [] then [] else
      var n := |listed| - 1;
      Firsts(listed[..n]) + if listed[n].session in Ids(listed[..n]) then [] else [listed[n]]
  }

  ghost predicate IsFirst(listed: seq<Item>, k: nat) {
    k < |listed| && forall j :: 0 <= j < k ==> listed[j].session != listed[k].session
  }

  /** Where the `i`-th of them was listed. */
  function ListedAt(listed: seq<Item>, i: nat): (k: nat)
    requires i < |Firsts(listed)|
    ensures k < |listed|
  {
    var n := |listed| - 1;
    if i < |Firsts(listed[..n])| then ListedAt(listed[..n], i) else n
  }

  /** No other listing of its invoice comes before it, and they keep their order. */
  lemma {:induction false} FirstsAreFirst(listed: seq<Item>, i: nat)
    requires i < |Firsts(listed)|
    ensures IsFirst(listed, ListedAt(listed, i)) && listed[ListedAt(listed, i)] == Firsts(listed)[i]
    ensures i > 0 ==> ListedAt(listed, i - 1) < ListedAt(listed, i)
  {
    var n := |listed| - 1;
    if i < |Firsts(listed[..n])| {
      FirstsAreFirst(listed[..n], i);
    } else {
      NotListedBefore(listed[..n], listed[n]);
    }
  }

  lemma NotListedBefore(listed: seq<Item>, item: Item)
    requires item.session !in Ids(listed)
    ensures forall j :: 0 <= j < |listed| ==> listed[j].session != item.session
  {
    forall j | 0 <= j < |listed| ensures listed[j].session in Ids(listed) {
    }
  }

  /** Each first listing is one of them. */
  lemma {:induction false} EachFirstIsKept(listed: seq<Item>, k: nat)
    requires IsFirst(listed, k)
    ensures listed[k] in Firsts(listed)
  {
    var n := |listed| - 1;
    if k < n {
      EachFirstIsKept(listed[..n], k);
    }
  }

  /** One of each invoice listed. */
  lemma {:induction false} FirstsAreDistinct(listed: seq<Item>)
    ensures Distinct(Firsts(listed)) && Ids(Firsts(listed)) == Ids(listed)
  {
    hide Ids, Distinct;
    NoIds();
    if listed != [] {
      var n := |listed| - 1;
      FirstsAreDistinct(listed[..n]);
      IdsAfterAppend(listed[..n], listed[n]);
      IdsAfterAppend(Firsts(listed[..n]), listed[n]);
      assert listed == listed[..n] + [listed[n]];
      assert Firsts(listed[..n]) + [] == Firsts(listed[..n]);
    }
  }

  lemma {:induction false} SeenIsListed(history: History, n: nat)
    ensures Ids(Listed(history, n)) == SeenAfter(history, n)
  {
    hide Ids;
    NoIds();
    if n > 0 {
      SeenIsListed(history, n - 1);
      IdsAfterJoin(Listed(history, n - 1), history(n).items);
    }
  }

  lemma IdsAfterJoin(a: seq<Item>, b: seq<Item>)
    ensures Ids(a + b) == Ids(a) + Ids(b)
  {
    forall s | s in Ids(a) + Ids(b) ensures s in Ids(a + b) {
      if s in Ids(a) {
        var i :| 0 <= i < |a| && a[i].session == s;
        assert (a + b)[i].session == s;
      } else {
        var i :| 0 <= i < |b| && b[i].session == s;
        assert (a + b)[|a| + i].session == s;
      }
    }
  }

  /** A negative total is cast to an unsigned one, larger than any count. */
  predicate MoreByTotal(total: Option<int>, seen: nat) {
    total.Some? && (total.value < 0 || seen < total.value)
  }

  predicate BringsNew(history: History, page: nat)
    requires page >= 1
  {
    !(Ids(history(page).items) <= SeenAfter(history, page - 1))
  }

  predicate AsksForMore(history: History, full: bool, page: nat) {
    && page < MAX_PAGES
    && (history(page).hasMore || MoreByTotal(history(page).total, |SeenAfter(history, page)|) || (full && page == 1))
  }

  /** The walk turns every page before `pages` and stops there. */
  ghost predicate StopsAt(history: History, full: bool, pages: nat) {
    && 1 <= pages <= MAX_PAGES
    && !(BringsNew(history, pages) && AsksForMore(history, full, pages))
    && forall k :: 1 <= k < pages ==> BringsNew(history, k) && AsksForMore(history, full, k)
  }

  lemma StopIsUnique(history: History, full: bool, a: nat, b: nat)
    requires StopsAt(history, full, a) && StopsAt(history, full, b)
    ensures a == b
  {
    hide BringsNew, AsksForMore;
  }

  /** Every invoice on page `k` was listed on a page before. */
  ghost predicate NothingNew(history: History, k: nat) {
    forall i :: 0 <= i < |history(k).items| ==> ListedBefore(history, k, history(k).items[i].session)
  }

  ghost predicate ListedBefore(history: History, k: nat, session: string) {
    exists j: nat, i: nat :: 1 <= j < k && i < |history(j).items| && history(j).items[i].session == session
  }

  /** Why the walk goes no further than page `k`: nothing new on it; the 80th page; or it does not say there is more,
      not all invoices it counts are still to be seen, and it is not the first page of a full sync. */
  ghost predicate Enough(history: History, full: bool, k: nat) {
    || NothingNew(history, k) || k >= 80
    || (&& !history(k).hasMore && !(full && k == 1)
        && (history(k).total.None? || 0 <= history(k).total.value <= |SeenAfter(history, k)|))
  }

  lemma {:induction false} SeenIsListedBefore(history: History, k: nat, session: string)
    requires k >= 1
    ensures session in SeenAfter(history, k - 1) <==> ListedBefore(history, k, session)
  {
    if k > 1 {
      SeenIsListedBefore(history, k - 1, session);
      if session in Ids(history(k - 1).items) {
        var i: nat :| i < |history(k - 1).items| && history(k - 1).items[i].session == session;
        assert 1 <= k - 1 < k && history(k - 1).items[i].session == session;
      }
      if j: nat, i: nat :| 1 <= j < k && i < |history(j).items| && history(j).items[i].session == session {
        if j == k - 1 { assert history(j).items[i].session in Ids(history(j).items); }
      }
    }
  }

  /** The walk stops at the first page that is enough. */
  lemma StopsAtTheFirstEnough(history: History, full: bool, pages: nat)
    ensures StopsAt(history, full, pages) <==>
            1 <= pages && Enough(history, full, pages) && forall k :: 1 <= k < pages ==> !Enough(history, full, k)
  {
    forall k: nat | k >= 1
      ensures !Enough(history, full, k) <==> BringsNew(history, k) && AsksForMore(history, full, k)
    {
      EnoughOrNot(history, full, k);
    }
    EightyIsEnough(history, full);
    hide Enough, BringsNew, AsksForMore;
    if forall k :: 1 <= k < pages ==> !Enough(history, full, k) {
      assert pages <= 80;
    }
  }

  lemma EnoughOrNot(history: History, full: bool, k: nat)
    requires k >= 1
    ensures !Enough(history, full, k) <==> BringsNew(history, k) && AsksForMore(history, full, k)
  {
    hide SeenAfter, BringsNew, NothingNew;
    NewOrNot(history, k);
  }

  lemma EightyIsEnough(history: History, full: bool)
    ensures Enough(history, full, 80)
  {
  }

  lemma NewOrNot(history: History, k: nat)
    requires k >= 1
    ensures NothingNew(history, k) <==> !BringsNew(history, k)
  {
    hide SeenAfter, ListedBefore;
    var items := history(k).items;
    forall i | 0 <= i < |items| ensures items[i].session in Ids(items) {
    }
    forall session ensures session in SeenAfter(history, k - 1) <==> ListedBefore(history, k, session) {
      SeenIsListedBefore(history, k, session);
    }
  }

  ghost predicate Distinct(items: seq<Item>) {
    forall i, j :: 0 <= i < j < |items| ==> items[i].session != items[j].session
  }

  function InOrder(items: seq<Item>, order: seq<Id>): seq<(Item, seq<Id>)> {
    seq(|items|, i requires 0 <= i < |items| => (items[i], order))
  }

  // ---------- One item ----------

  method UpsertInvoice(conn: Connection, item: Item)
    modifies conn`invoices
    ensures conn.View() == Upsert(old(conn.View()), item)
  {
    var s := item.session;
    if s in conn.invoices {
      conn.invoices := conn.invoices[s :=
        conn.invoices[s].(start := item.start, total := item.total, energy := item.energy)];
    } else {
      conn.invoices := conn.invoices[s := Invoice(item.vin, item.start, item.total, item.energy, None)];
    }
  }

  /** The process already linked, else the best of the unlinked candidates. `order` is the scan order. */
  method FindProcess(conn: Connection, item: Item, order: seq<Id>) returns (p: Option<Id>)
    ensures p == MatchProcess(conn.View(), item, order)
  {
    hide Rows, ChosenId;
    if item.session in conn.invoices && conn.invoices[item.session].process.Some? {
      return conn.invoices[item.session].process;
    }
    var rows := Rows(conn.View(), item, order);
    p := BestMatch(item, rows);
  }

  method StoreItem(conn: Connection, item: Item, order: seq<Id>)
    modifies conn`invoices, conn`processes
    ensures conn.View() == SyncItem(old(conn.View()), item, order)
  {
    hide MatchProcess;
    UpsertInvoice(conn, item);
    var p := FindProcess(conn, item, order);
    if p.Some? {
      conn.invoices := conn.invoices[item.session := conn.invoices[item.session].(process := p)];
      if p.value in conn.processes {
        conn.processes := conn.processes[p.value := conn.processes[p.value].(cost := Some(item.total))];
      }
    }
  }

  // ---------- Pages ----------

  /** Keep the items whose invoice was not seen before, marking them seen: the first listings that this page adds to
      those of the pages `before`. */
  method KeepUnseen(items: seq<Item>, seen: set<string>, ghost before: seq<Item>)
      returns (kept: seq<Item>, seenNow: set<string>)
    requires seen == Ids(before)
    ensures seenNow == Ids(before + items) == seen + Ids(items) && |seenNow| == |seen| + |kept|
    ensures Firsts(before + items) == Firsts(before) + kept
    ensures Distinct(kept) && Ids(kept) == Ids(items) - seen
    ensures kept != [] <==> !(Ids(items) <= seen)
  {
    hide Ids, Firsts, Distinct;
    kept, seenNow := [], seen;
    assert before + items[..0] == before;
    NoIds();
    for k := 0 to |items|
      invariant seenNow == Ids(before + items[..k])
      invariant Firsts(before + items[..k]) == Firsts(before) + kept
      invariant seen <= seenNow && (kept == [] <==> seenNow <= seen) && |seenNow| == |seen| + |kept|
      invariant Distinct(kept) && Ids(kept) == seenNow - seen
    {
      var session := items[k].session;
      assert before + items[..k + 1] == before + items[..k] + [items[k]];
      IdsAfterAppend(before + items[..k], items[k]);
      IdsAfterAppend(kept, items[k]);
      FirstsAfterAppend(before + items[..k], items[k]);
      if session !in seenNow {
        seenNow, kept := seenNow + {session}, kept + [items[k]];
      }
    }
    assert items[..|items|] == items;
    IdsAfterJoin(before, items);
  }

  lemma FirstsAfterAppend(listed: seq<Item>, item: Item)
    ensures Firsts(listed + [item]) == Firsts(listed) + if item.session in Ids(listed) then [] else [item]
  {
    assert (listed + [item])[..|listed|] == listed;
  }

  lemma NoIds()
    ensures Ids([]) == {} && Distinct([])
  {
  }

  lemma IdsAfterAppend(items: seq<Item>, item: Item)
    ensures Ids(items + [item]) == Ids(items) + {item.session}
    ensures Distinct(items) && item.session !in Ids(items) ==> Distinct(items + [item])
  {
    var more := items + [item];
    forall s | s in Ids(items) + {item.session} ensures s in Ids(more) {
      if s == item.session {
        assert more[|items|].session == s;
      } else {
        var i :| 0 <= i < |items| && items[i].session == s;
        assert more[i].session == s;
      }
    }
    forall i | 0 <= i < |items| ensures items[i].session in Ids(items) {
    }
  }

  method StorePage(conn: Connection, items: seq<Item>, order: seq<Id>)
    modifies conn`invoices, conn`processes
    ensures conn.View() == SyncAll(old(conn.View()), InOrder(items, order))
  {
    hide SyncItem;
    for k := 0 to |items|
      invariant conn.View() == SyncAll(old(conn.View()), InOrder(items[..k], order))
    {
      StoreItem(conn, items[k], order);
      assert InOrder(items[..k + 1], order)[..k] == InOrder(items[..k], order);
    }
    assert items[..|items|] == items;
  }

  lemma {:induction false} SyncsJoin(db: Db, a: seq<(Item, seq<Id>)>, b: seq<(Item, seq<Id>)>)
    ensures SyncAll(db, a + b) == SyncAll(SyncAll(db, a), b)
  {
    hide SyncItem;
    if b == [] {
      assert a + b == a;
    } else {
      var n := |b| - 1;
      SyncsJoin(db, a, b[..n]);
      assert (a + b)[..|a| + n] == a + b[..n];
    }
  }

  /** What has been stored so far: the first listing of each invoice seen, in order, into the tables as they were. */
  ghost predicate StoredSoFar(
      conn: Connection, was: Db, stored: seq<Item>, seen: set<string>, listed: seq<Item>, order: seq<Id>)
    reads conn
  {
    && seen == Ids(listed) && stored == Firsts(listed)
    && conn.View() == SyncAll(was, InOrder(stored, order))
  }

  /** The unseen items of one page, stored under one hold of the connection. */
  method TakePage(conn: Connection, items: seq<Item>, seen: set<string>, stored: seq<Item>, order: seq<Id>,
                  ghost was: Db, ghost before: seq<Item>)
    returns (anyNew: bool, seenNow: set<string>, storedNow: seq<Item>)
    requires StoredSoFar(conn, was, stored, seen, before, order)
    modifies conn`invoices, conn`processes
    ensures StoredSoFar(conn, was, storedNow, seenNow, before + items, order)
    ensures seenNow == seen + Ids(items)
    ensures anyNew <==> !(Ids(items) <= seen)
  {
    hide SyncAll, Ids, Firsts, InOrder, Distinct;
    var kept;
    kept, seenNow := KeepUnseen(items, seen, before);
    StorePage(conn, kept, order);
    StoredJoin(was, stored, kept, order);
    return kept != [], seenNow, stored + kept;
  }

  /** The page loop of one car. It ends within `MAX_PAGES` pages and stores the first listing of each invoice on the
      pages it turned, in order. */
  method SyncCar(conn: Connection, history: History, full: bool, order: seq<Id>)
    returns (pages: nat, stored: seq<Item>)
    modifies conn`invoices, conn`processes
    ensures StopsAt(history, full, pages)
    ensures stored == Firsts(Listed(history, pages))
    ensures Distinct(stored) && Ids(stored) == SeenAfter(history, pages)
    ensures conn.View() == SyncAll(old(conn.View()), InOrder(stored, order))
  {
    hide SyncAll, Ids, Firsts, InOrder, BringsNew, SeenAfter, Listed, Distinct;
    pages, stored := 1, [];
    var seen := {};
    NothingYet(history, conn.View(), order);
    while true
      invariant 1 <= pages <= MAX_PAGES
      invariant forall k :: 1 <= k < pages ==> BringsNew(history, k) && AsksForMore(history, full, k)
      invariant StoredSoFar(conn, old(conn.View()), stored, seen, Listed(history, pages - 1), order)
      decreases MAX_PAGES - pages
    {
      var page := history(pages);
      var anyNew;
      WhatIsListed(history, pages);
      FirstsAreDistinct(Listed(history, pages));
      anyNew, seen, stored :=
        TakePage(conn, page.items, seen, stored, order, old(conn.View()), Listed(history, pages - 1));
      if !anyNew {
        return;
      }
      var moreByTotal := page.total.Some? && (page.total.value < 0 || |seen| < page.total.value);
      if pages >= MAX_PAGES {
        return;
      }
      if page.hasMore || moreByTotal {
        pages := pages + 1;
        continue;
      }
      if full && pages == 1 {
        pages := pages + 1;
        continue;
      }
      return;
    }
  }

  lemma NothingYet(history: History, db: Db, order: seq<Id>)
    ensures Ids([]) == {} && Firsts([]) == [] == Listed(history, 0)
    ensures SyncAll(db, InOrder([], order)) == db
  {
  }

  lemma StoredJoin(db: Db, a: seq<Item>, b: seq<Item>, order: seq<Id>)
    ensures SyncAll(db, InOrder(a + b, order)) == SyncAll(SyncAll(db, InOrder(a, order)), InOrder(b, order))
  {
    hide SyncAll;
    SyncsJoin(db, InOrder(a, order), InOrder(b, order));
    assert InOrder(a + b, order) == InOrder(a, order) + InOrder(b, order);
  }

  lemma WhatIsListed(history: History, page: nat)
    requires page >= 1
    ensures Listed(history, page) == Listed(history, page - 1) + history(page).items
    ensures SeenAfter(history, page) == Ids(Listed(history, page))
    ensures BringsNew(history, page) <==> !(Ids(history(page).items) <= Ids(Listed(history, page - 1)))
  {
    SeenIsListed(history, page - 1);
    SeenIsListed(history, page);
  }

  /** After the walk every invoice on the pages it turned has the total of its first listing, and the process linked to
      it costs that; the other invoices are as they were. */
  lemma WalkedCosts(db: Db, history: History, pages: nat, order: seq<Id>)
    requires Linked(db)
    ensures var listed := Listed(history, pages);
            var after := SyncAll(db, InOrder(Firsts(listed), order));
            && Linked(after) && LinksKept(db, after)
            && (forall k: nat :: k < |listed| && IsFirst(listed, k) ==> CostsItsTotal(after, listed[k]))
            && forall s :: s in db.invoices && s !in Ids(listed) ==>
                 s in after.invoices && after.invoices[s] == db.invoices[s]
  {
    hide Linked, LinksKept, SyncAll, Ids, Distinct, IsFirst, CostsItsTotal, Firsts;
    var listed := Listed(history, pages);
    var items := InOrder(Firsts(listed), order);
    FirstsAreDistinct(listed);
    SyncsKeepLinks(db, items);
    forall k: nat | k < |listed| && IsFirst(listed, k) ensures CostsItsTotal(SyncAll(db, items), listed[k]) {
      EachFirstIsKept(listed, k);
      var i :| 0 <= i < |Firsts(listed)| && Firsts(listed)[i] == listed[k];
      StoredCosts(db, Firsts(listed), order, i);
    }
    OthersUntouched(db, Firsts(listed), order);
  }

  /** Its invoice has this total, and the linked process, if any, costs that. */
  ghost predicate CostsItsTotal(db: Db, item: Item) {
    && item.session in db.invoices && db.invoices[item.session].total == item.total
    && (db.invoices[item.session].process.Some? ==>
          db.invoices[item.session].process.value in db.processes &&
          db.processes[db.invoices[item.session].process.value].cost == Some(item.total))
  }

  lemma StoredCosts(db: Db, stored: seq<Item>, order: seq<Id>, i: nat)
    requires Linked(db) && Distinct(stored) && i < |stored|
    ensures CostsItsTotal(SyncAll(db, InOrder(stored, order)), stored[i])
  {
    hide Linked, SyncAll;
    LatestTotalWins(db, InOrder(stored, order), i);
  }

  lemma {:induction false} OthersUntouched(db: Db, stored: seq<Item>, order: seq<Id>)
    ensures forall s :: s in db.invoices && s !in Ids(stored) ==>
              var after := SyncAll(db, InOrder(stored, order)).invoices; s in after && after[s] == db.invoices[s]
  {
    hide SyncItem, Ids;
    if stored != [] {
      var n := |stored| - 1;
      OthersUntouched(db, stored[..n], order);
      IdsAfterAppend(stored[..n], stored[n]);
      assert stored == stored[..n] + [stored[n]];
      assert InOrder(stored, order)[..n] == InOrder(stored[..n], order);
      SyncLeavesOthers(SyncAll(db, InOrder(stored[..n], order)), stored[n], order);
    }
  }

  lemma SyncLeavesOthers(db: Db, item: Item, order: seq<Id>)
    ensures forall s :: s in db.invoices && s != item.session ==>
              s in SyncItem(db, item, order).invoices && SyncItem(db, item, order).invoices[s] == db.invoices[s]
  {
    hide MatchProcess;
  }
}
