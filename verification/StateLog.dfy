/** The `states` table as a run-length encoding of what the summaries said (src/logger.rs). Times are in seconds. */
module StateLog {
  import opened Base
  import opened Chrono

  datatype Row = Row(car: Id, state: string, start: nat, end: Option<nat>)

  datatype Observation = Observation(car: Id, state: string, at: nat)

  predicate IsOpen(rows: seq<Row>, car: Id, i: nat) {
    i < |rows| && rows[i].car == car && rows[i].end.None?
  }

  function OpenRows(rows: seq<Row>, car: Id): Dates {
    map i: nat | 0 <= i < |rows| && IsOpen(rows, car, i) :: rows[i].start
  }

  /** Record one summary: nothing if the open row says the same, else end it now and open a new one. */
  function RecordState(rows: seq<Row>, o: Observation): seq<Row> {
    var open := OpenRows(rows, o.car);
    var row := Row(o.car, o.state, o.at, None);
    if open == map[] then rows + [row]
    else
      var i := Latest(open);
      if rows[i].state == o.state then rows
      else rows[i := rows[i].(end := Some(o.at))] + [row]
  }

  class StateTable {
    var rows: seq<Row>

    constructor ()
      ensures rows == []
    {
      rows := [];
    }

    method Record(o: Observation)
      modifies this
      ensures rows == RecordState(old(rows), o)
    {
      var open := OpenRows(rows, o.car);
      if open == map[] {
        rows := rows + [Row(o.car, o.state, o.at, None)];
      } else {
        var i := Latest(open);
        if rows[i].state != o.state {
          rows := rows[i := rows[i].(end := Some(o.at))];
          rows := rows + [Row(o.car, o.state, o.at, None)];
        }
      }
    }
  }

  // ---------- What the table means ----------

  /** The state the table gives for a car at a time: that of its last row that has started. */
  function Decode(rows: seq<Row>, car: Id, t: nat): Option<string> {
    if rows == [] then None
    else
      var last := rows[|rows| - 1];
      if last.car == car && last.start <= t then Some(last.state) else Decode(rows[..|rows| - 1], car, t)
  }

  /** The last observation of a car at or before a time. */
  function LastSeen(seen: seq<Observation>, car: Id, t: nat): Option<string> {
    if seen == [] then None
    else
      var last := seen[|seen| - 1];
      if last.car == car && last.at <= t then Some(last.state) else LastSeen(seen[..|seen| - 1], car, t)
  }

  /** Row `j` is the next row of the car after row `i`. */
  ghost predicate Next(rows: seq<Row>, i: nat, j: nat) {
    i < j < |rows| && rows[i].car == rows[j].car && forall k :: i < k < j ==> rows[k].car != rows[i].car
  }

  ghost predicate IsLast(rows: seq<Row>, i: nat) {
    i < |rows| && forall k :: i < k < |rows| ==> rows[k].car != rows[i].car
  }

  /** Only the last row of a car is open; each end is the next start; neighbours differ. */
  ghost predicate RunLength(rows: seq<Row>) {
    && (forall i: nat :: i < |rows| ==> (rows[i].end.None? <==> IsLast(rows, i)))
    && (forall i: nat, j: nat :: Next(rows, i, j) ==>
          rows[i].end == Some(rows[j].start) && rows[i].state != rows[j].state)
  }

  ghost predicate NoneAfter(rows: seq<Row>, now: nat) {
    forall i :: 0 <= i < |rows| ==> rows[i].start <= now
  }

  function RecordAll(seen: seq<Observation>): seq<Row> {
    if seen == [] then [] else RecordState(RecordAll(seen[..|seen| - 1]), seen[|seen| - 1])
  }

  ghost predicate InOrder(seen: seq<Observation>) {
    forall i, j :: 0 <= i < j < |seen| ==> seen[i].at <= seen[j].at
  }

  lemma TheOpenRowIsTheLast(rows: seq<Row>, car: Id)
    requires RunLength(rows)
    ensures var open := OpenRows(rows, car);
            if open == map[] then forall k :: 0 <= k < |rows| ==> rows[k].car != car
            else IsLast(rows, Latest(open)) && rows[Latest(open)].car == car && rows[Latest(open)].end.None?
  {
    var open := OpenRows(rows, car);
    if open == map[] {
      forall i: nat | i < |rows| ensures !(rows[i].car == car && IsLast(rows, i)) {
        assert i !in open;
      }
      NoLastMeansNone(rows, car, |rows|);
    }
  }

  lemma {:induction false} NoLastMeansNone(rows: seq<Row>, car: Id, n: nat)
    requires n <= |rows| && forall k :: n <= k < |rows| ==> rows[k].car != car
    requires forall i: nat :: i < |rows| && rows[i].car == car ==> !IsLast(rows, i)
    ensures forall k :: 0 <= k < |rows| ==> rows[k].car != car
  {
    if n > 0 {
      if rows[n - 1].car == car {
        assert IsLast(rows, n - 1);
      }
      NoLastMeansNone(rows, car, n - 1);
    }
  }

  lemma RecordKeepsRunLength(rows: seq<Row>, o: Observation)
    requires RunLength(rows) && NoneAfter(rows, o.at)
    ensures RunLength(RecordState(rows, o)) && NoneAfter(RecordState(rows, o), o.at)
  {
    hide RunLength;
    var after := RecordState(rows, o);
    if after != rows {
      forall i: nat | i < |after| ensures after[i].end.None? <==> IsLast(after, i) { RecordEnds(rows, o, i); }
      forall i: nat, j: nat | Next(after, i, j)
        ensures after[i].end == Some(after[j].start) && after[i].state != after[j].state
      {
        RecordNext(rows, o, i, j);
      }
      FromParts(after);
    }
  }

  lemma FromParts(rows: seq<Row>)
    requires forall i: nat :: i < |rows| ==> (rows[i].end.None? <==> IsLast(rows, i))
    requires forall i: nat, j: nat :: Next(rows, i, j) ==>
      rows[i].end == Some(rows[j].start) && rows[i].state != rows[j].state
    ensures RunLength(rows)
  {
  }

  /** The row the recording ends is the one row of the car that was its last. */
  lemma RecordedRow(rows: seq<Row>, o: Observation, i: nat)
    requires RunLength(rows) && RecordState(rows, o) != rows && i < |rows|
    ensures var after := RecordState(rows, o);
            && |after| == |rows| + 1 && after[|rows|] == Row(o.car, o.state, o.at, None)
            && (if rows[i].car == o.car && rows[i].end.None?
                then rows[i].state != o.state && after[i] == rows[i].(end := Some(o.at))
                else after[i] == rows[i])
  {
    if rows[i].car == o.car && rows[i].end.None? {
      OneLast(rows, i, o.car);
    }
  }

  lemma CarsStay(rows: seq<Row>, o: Observation)
    requires RunLength(rows) && RecordState(rows, o) != rows
    ensures |RecordState(rows, o)| == |rows| + 1
    ensures forall k :: 0 <= k < |rows| ==> RecordState(rows, o)[k].car == rows[k].car
    ensures RecordState(rows, o)[|rows|] == Row(o.car, o.state, o.at, None)
  {
    hide RunLength;
    NewRowIsOpen(rows, o);
    forall k: nat | k < |rows| ensures RecordState(rows, o)[k].car == rows[k].car { RecordedRow(rows, o, k); }
  }

  lemma OpenIffLast(rows: seq<Row>, i: nat)
    requires RunLength(rows) && i < |rows|
    ensures rows[i].end.None? <==> IsLast(rows, i)
  {
  }

  lemma RecordEnds(rows: seq<Row>, o: Observation, i: nat)
    requires RunLength(rows) && RecordState(rows, o) != rows && i < |RecordState(rows, o)|
    ensures RecordState(rows, o)[i].end.None? <==> IsLast(RecordState(rows, o), i)
  {
    hide RecordState, RunLength;
    var after := RecordState(rows, o);
    CarsStay(rows, o);
    if i < |rows| {
      hide IsLast;
      RecordedRow(rows, o, i);
      LastAfterAppend(rows, after, i);
      OpenIffLast(rows, i);
    }
  }

  lemma NewRowIsOpen(rows: seq<Row>, o: Observation)
    requires RecordState(rows, o) != rows
    ensures |RecordState(rows, o)| == |rows| + 1 && RecordState(rows, o)[|rows|] == Row(o.car, o.state, o.at, None)
  {
  }

  lemma NextMeans(rows: seq<Row>, i: nat, j: nat)
    requires RunLength(rows) && Next(rows, i, j)
    ensures rows[i].end == Some(rows[j].start) && rows[i].state != rows[j].state && !IsLast(rows, i)
  {
  }

  lemma RecordNext(rows: seq<Row>, o: Observation, i: nat, j: nat)
    requires RunLength(rows) && RecordState(rows, o) != rows && Next(RecordState(rows, o), i, j)
    ensures var after := RecordState(rows, o);
            after[i].end == Some(after[j].start) && after[i].state != after[j].state
  {
    hide RecordState, RunLength;
    var after := RecordState(rows, o);
    CarsStay(rows, o);
    RecordedRow(rows, o, i);
    if j < |rows| {
      RecordedRow(rows, o, j);
      assert Next(rows, i, j);
      NextMeans(rows, i, j);
      OpenIffLast(rows, i);
    } else {
      assert forall k :: i < k < |rows| ==> after[k].car != after[i].car;
      assert IsLast(rows, i);
      OpenIffLast(rows, i);
    }
  }

  lemma LastAfterAppend(rows: seq<Row>, after: seq<Row>, i: nat)
    requires |after| == |rows| + 1 && i < |rows|
    requires forall k :: 0 <= k < |rows| ==> after[k].car == rows[k].car
    ensures IsLast(after, i) <==> IsLast(rows, i) && rows[i].car != after[|rows|].car
  {
    if IsLast(after, i) {
      assert forall k :: i < k < |rows| ==> after[k].car != after[i].car;
    }
  }

  lemma OneLast(rows: seq<Row>, i: nat, car: Id)
    requires RunLength(rows) && IsOpen(rows, car, i)
    ensures i in OpenRows(rows, car) && i == Latest(OpenRows(rows, car))
  {
    assert i in OpenRows(rows, car);
    var j := Latest(OpenRows(rows, car));
    assert IsLast(rows, i) && IsLast(rows, j);
  }

  // ---------- Decoding ----------

  lemma {:induction false} DecodeIgnoresEnds(a: seq<Row>, b: seq<Row>, car: Id, t: nat)
    requires |a| == |b|
    requires forall i :: 0 <= i < |a| ==> a[i].car == b[i].car && a[i].start == b[i].start && a[i].state == b[i].state
    ensures Decode(a, car, t) == Decode(b, car, t)
  {
    if a != [] {
      DecodeIgnoresEnds(a[..|a| - 1], b[..|b| - 1], car, t);
    }
  }

  /** From its start on, a car's last row is what the table says. */
  lemma {:induction false} DecodeLastRow(rows: seq<Row>, i: nat, t: nat)
    requires IsLast(rows, i) && rows[i].start <= t
    ensures Decode(rows, rows[i].car, t) == Some(rows[i].state)
  {
    var n := |rows| - 1;
    if i < n {
      assert forall k :: i < k < n ==> rows[..n][k].car != rows[i].car;
      DecodeLastRow(rows[..n], i, t);
    }
  }

  lemma RecordDecodes(rows: seq<Row>, o: Observation, car: Id, t: nat)
    requires RunLength(rows) && NoneAfter(rows, o.at)
    ensures Decode(RecordState(rows, o), car, t) ==
            if o.car == car && o.at <= t then Some(o.state) else Decode(rows, car, t)
  {
    TheOpenRowIsTheLast(rows, o.car);
    var open := OpenRows(rows, o.car);
    var after := RecordState(rows, o);
    if open != map[] && rows[Latest(open)].state == o.state {
      if o.car == car && o.at <= t {
        DecodeLastRow(rows, Latest(open), t);
      }
    } else {
      var n := |rows|;
      DecodeIgnoresEnds(after[..n], rows, car, t);
    }
  }

  /** For every sequence of summaries in time order, of any cars: the table is a run-length encoding, with one
      open row for each car seen, and decoding it at any time gives the last observation. */
  lemma {:induction false} StatesEncodeObservations(seen: seq<Observation>, car: Id, t: nat)
    requires InOrder(seen)
    ensures RunLength(RecordAll(seen))
    ensures seen != [] ==> NoneAfter(RecordAll(seen), seen[|seen| - 1].at)
    ensures Decode(RecordAll(seen), car, t) == LastSeen(seen, car, t)
  {
    if seen != [] {
      var n := |seen| - 1;
      StatesEncodeObservations(seen[..n], car, t);
      var rows := RecordAll(seen[..n]);
      assert NoneAfter(rows, seen[n].at) by {
        if n > 0 { assert seen[..n][n - 1].at <= seen[n].at; }
      }
      RecordKeepsRunLength(rows, seen[n]);
      RecordDecodes(rows, seen[n], car, t);
    }
  }

  /** Summaries recorded one after the other: what the table then says of any car at any time is what was last seen. */
  method RecordEach(table: StateTable, seen: seq<Observation>)
    requires table.rows == [] && InOrder(seen)
    modifies table
    ensures table.rows == RecordAll(seen) && RunLength(table.rows)
    ensures forall car, t :: Decode(table.rows, car, t) == LastSeen(seen, car, t)
  {
    hide RecordState, RunLength, NoneAfter, Decode, LastSeen;
    for k := 0 to |seen|
      invariant table.rows == RecordAll(seen[..k])
    {
      table.Record(seen[k]);
      assert seen[..k + 1][..k] == seen[..k];
    }
    assert seen[..|seen|] == seen;
    forall car, t ensures RunLength(table.rows) && Decode(table.rows, car, t) == LastSeen(seen, car, t) {
      StatesEncodeObservations(seen, car, t);
    }
    StatesEncodeObservations(seen, 0, 0);
  }
}
