/**
 The `energy_data` table: one `Row` per stored reading (the `EnergyData` model),
 and the relational building blocks the queries are made of — `WHERE` as an
 order-keeping filter, `SUM(kwh)`, and list reversal.
 */
module Readings {

  datatype Option<T> = None | Some(value: T)

  /**
   One reading. `deviceId` holds the configured device NAME (not the vendor
   identifier), `timestamp` the local time as `YYYY-MM-DD HH:MM:SS`, `voltage`
   the already scaled value and `current` the value as the device sent it.
   */
  datatype Row = Row(
    id: nat,
    deviceId: string,
    timestamp: string,
    watt: real,
    voltage: real,
    current: real,
    kwh: real)

  /** Rows are stored in insertion order and their ids strictly increase along it. */
  ghost predicate IdsIncreasing(rows: seq<Row>)
  {
    forall i, j :: 0 <= i < j < |rows| ==> rows[i].id < rows[j].id
  }

  /** `WHERE p`: the rows satisfying `p`, in table order. */
  function Where(rows: seq<Row>, p: Row -> bool): (r: seq<Row>)
    ensures |r| <= |rows|
    ensures forall x :: x in r <==> x in rows && p(x)
  {
    if rows == [] then []
    else if p(rows[0]) then [rows[0]] + Where(rows[1..], p)
    else Where(rows[1..], p)
  }

  /** The rows of one device (`filter_by(device_id=name)`, `WHERE device_id = :dev`). */
  function OfDevice(rows: seq<Row>, name: string): (r: seq<Row>)
    ensures forall x :: x in r <==> x in rows && x.deviceId == name
  {
    Where(rows, (x: Row) => x.deviceId == name)
  }

  /** Filtering keeps the id order of the table. */
  lemma {:induction false} WhereKeepsIdOrder(rows: seq<Row>, p: Row -> bool)
    requires IdsIncreasing(rows)
    ensures IdsIncreasing(Where(rows, p))
  {
    if rows != [] {
      WhereKeepsIdOrder(rows[1..], p);
      var rest := Where(rows[1..], p);
      forall x | x in rest
        ensures rows[0].id < x.id
      {
        var j :| 0 <= j < |rows[1..]| && rows[1..][j] == x;
        assert rows[j + 1] == x;
      }
    }
  }

  /** Appending one row extends the filtered view by that row exactly when it qualifies. */
  lemma {:induction false} WhereAppend(rows: seq<Row>, x: Row, p: Row -> bool)
    ensures Where(rows + [x], p) == Where(rows, p) + (if p(x) then [x] else [])
  {
    if rows == [] {
      assert rows + [x] == [x];
    } else {
      assert (rows + [x])[1..] == rows[1..] + [x];
      WhereAppend(rows[1..], x, p);
    }
  }

  /** The arithmetic sum of `kwh` over `rows` (0 for no rows). */
  function SumKwh(rows: seq<Row>): real
  {
    if rows == [] then 0.0 else rows[0].kwh + SumKwh(rows[1..])
  }

  lemma {:induction false} SumKwhAppend(a: seq<Row>, b: seq<Row>)
    ensures SumKwh(a + b) == SumKwh(a) + SumKwh(b)
  {
    if a != [] {
      assert (a + b)[1..] == a[1..] + b;
      SumKwhAppend(a[1..], b);
    } else {
      assert a + b == b;
    }
  }

  /** Splitting the table by any condition splits its `kwh` total. */
  lemma {:induction false} SumKwhSplit(rows: seq<Row>, p: Row -> bool, q: Row -> bool)
    requires forall x :: q(x) == !p(x)
    ensures SumKwh(rows) == SumKwh(Where(rows, p)) + SumKwh(Where(rows, q))
  {
    if rows != [] {
      SumKwhSplit(rows[1..], p, q);
    }
  }

  function Min(a: nat, b: nat): nat { if a <= b then a else b }

  /** Python's `list.reverse()` / `reversed(...)`. */
  function Reverse<T>(s: seq<T>): (r: seq<T>)
    ensures |r| == |s|
    ensures forall i :: 0 <= i < |s| ==> r[i] == s[|s| - 1 - i]
  {
    if s == [] then [] else Reverse(s[1..]) + [s[0]]
  }
}
