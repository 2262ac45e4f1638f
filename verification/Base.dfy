/** Optional columns, and the order in which rows are read back by date. */
module Base {

  datatype Option<+T> = None | Some(value: T)

  type Id = nat

  /** The two tables differ at most at `k`. */
  ghost predicate SameExcept<V>(a: map<Id, V>, b: map<Id, V>, k: Id) {
    && (forall j :: j in a && j != k ==> j in b && a[j] == b[j])
    && (forall j :: j in b && j != k ==> j in a)
  }

  function MaxId(used: set<Id>): (m: Id)
    requires used != {}
    ensures m in used && forall k :: k in used ==> k <= m
  {
    MaxExists(used);
    var m :| m in used && forall k :: k in used ==> k <= m;
    m
  }

  /** The id SQLite gives a row inserted into an `INTEGER PRIMARY KEY` table. */
  function NextId(used: set<Id>): (id: Id)
    ensures forall k :: k in used ==> k < id
    ensures id == 1 || id - 1 in used
  {
    if used == {} then 1 else MaxId(used) + 1
  }

  lemma {:induction false} MaxExists(s: set<Id>)
    requires s != {}
    ensures exists m :: m in s && forall k :: k in s ==> k <= m
  {
    var x :| x in s;
    var rest := s - {x};
    assert forall k :: k in s ==> k == x || k in rest;
    if rest != {} {
      MaxExists(rest);
      var m :| m in rest && forall k :: k in rest ==> k <= m;
      if m < x {
        assert forall k :: k in s ==> k <= x;
      } else {
        assert m in s;
      }
    }
  }
}

/** Rows of one group as a map from id to date: the first and the last by (date, id). */
module Chrono {
  import opened Base

  type Dates = map<Id, nat>

  /** `ORDER BY date, id`. */
  predicate Before(rows: Dates, a: Id, b: Id)
    requires a in rows && b in rows
  {
    rows[a] < rows[b] || (rows[a] == rows[b] && a < b)
  }

  predicate IsFirstOf(rows: Dates, s: set<Id>, k: Id)
    requires s <= rows.Keys
  {
    k in s && forall j :: j in s && j != k ==> Before(rows, k, j)
  }

  predicate IsLastOf(rows: Dates, s: set<Id>, k: Id)
    requires s <= rows.Keys
  {
    k in s && forall j :: j in s && j != k ==> Before(rows, j, k)
  }

  predicate IsEarliest(rows: Dates, k: Id) { IsFirstOf(rows, rows.Keys, k) }

  predicate IsLatest(rows: Dates, k: Id) { IsLastOf(rows, rows.Keys, k) }

  function Earliest(rows: Dates): (k: Id)
    requires rows != map[]
    ensures k in rows && IsEarliest(rows, k)
  {
    FirstExists(rows, rows.Keys);
    var k :| k in rows && IsFirstOf(rows, rows.Keys, k);
    k
  }

  function Latest(rows: Dates): (k: Id)
    requires rows != map[]
    ensures k in rows && IsLatest(rows, k)
  {
    LastExists(rows, rows.Keys);
    var k :| k in rows && IsLastOf(rows, rows.Keys, k);
    k
  }

  lemma {:induction false} FirstExists(rows: Dates, s: set<Id>)
    requires s != {} && s <= rows.Keys
    ensures exists k :: k in rows && IsFirstOf(rows, s, k)
  {
    var x :| x in s;
    var rest := s - {x};
    assert forall j :: j in s ==> j == x || j in rest;
    if rest == {} {
      assert IsFirstOf(rows, s, x);
    } else {
      FirstExists(rows, rest);
      var k :| k in rows && IsFirstOf(rows, rest, k);
      assert IsFirstOf(rows, s, if Before(rows, x, k) then x else k);
    }
  }

  lemma {:induction false} LastExists(rows: Dates, s: set<Id>)
    requires s != {} && s <= rows.Keys
    ensures exists k :: k in rows && IsLastOf(rows, s, k)
  {
    var x :| x in s;
    var rest := s - {x};
    assert forall j :: j in s ==> j == x || j in rest;
    if rest == {} {
      assert IsLastOf(rows, s, x);
    } else {
      LastExists(rows, rest);
      var k :| k in rows && IsLastOf(rows, rest, k);
      assert IsLastOf(rows, s, if Before(rows, k, x) then x else k);
    }
  }
}
