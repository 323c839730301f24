/**
 The all-time energy totals: `SELECT SUM(kwh)` over the whole table or over one
 device's rows, with `or 0` turning SQL's NULL (no rows) into 0.
 */
module Totals {
  import opened Readings

  /** SQL `SUM`: NULL over no rows, the arithmetic sum otherwise. */
  function SqlSum(rows: seq<Row>): Option<real>
  {
    if rows == [] then None else Some(SumKwh(rows))
  }

  /** `... .scalar() or 0`: a NULL sum becomes 0; a zero sum is 0 already. */
  function OrZero(s: Option<real>): (z: real)
    ensures s.None? ==> z == 0.0
    ensures s.Some? ==> z == s.value
  {
    match s
    case None => 0.0
    case Some(v) => v
  }

  /** `total_kwh_all`. */
  function TotalKwhAll(rows: seq<Row>): (t: real)
    ensures t == SumKwh(rows)
    ensures rows == [] ==> t == 0.0
  {
    OrZero(SqlSum(rows))
  }

  /** `total_kwh_device`: 0 when the device has no rows. */
  function TotalKwhDevice(rows: seq<Row>, name: string): (t: real)
    ensures t == SumKwh(OfDevice(rows, name))
    ensures (forall x :: x in rows ==> x.deviceId != name) ==> t == 0.0
  {
    var mine := OfDevice(rows, name);
    assert mine != [] ==> mine[0] in mine;
    OrZero(SqlSum(mine))
  }

  /** A device's total plus the other devices' rows make up the all-device total. */
  lemma DeviceTotalIsPart(rows: seq<Row>, name: string)
    ensures TotalKwhAll(rows) == TotalKwhDevice(rows, name) + SumKwh(Where(rows, (x: Row) => x.deviceId != name))
  {
    SumKwhSplit(rows, (x: Row) => x.deviceId == name, (x: Row) => x.deviceId != name);
  }

  /**
   Appending one reading raises the all-device total by its `kwh`, and the
   per-device total only for the device it belongs to.
   */
  lemma TotalsAfterAppend(rows: seq<Row>, x: Row, name: string)
    ensures TotalKwhAll(rows + [x]) == TotalKwhAll(rows) + x.kwh
    ensures TotalKwhDevice(rows + [x], name) ==
            TotalKwhDevice(rows, name) + (if x.deviceId == name then x.kwh else 0.0)
  {
    SumKwhAppend(rows, [x]);
    var isMine := (y: Row) => y.deviceId == name;
    WhereAppend(rows, x, isMine);
    SumKwhAppend(OfDevice(rows, name), if isMine(x) then [x] else []);
  }

  /** Two LivingRoom readings of 0.0004 and 0.0006 kWh total 0.001 kWh for that device. */
  lemma TotalExample(a: Row, b: Row, other: Row)
    requires a.deviceId == "LivingRoom" && a.kwh == 0.0004
    requires b.deviceId == "LivingRoom" && b.kwh == 0.0006
    requires other.deviceId != "LivingRoom"
    ensures TotalKwhDevice([a, other, b], "LivingRoom") == 0.001
  {
    var p := (x: Row) => x.deviceId == "LivingRoom";
    assert [a, other, b][1..] == [other, b];
    assert [other, b][1..] == [b];
    assert Where([b], p) == [b] + Where([b][1..], p);
    assert Where([a, other, b], p) == [a, b];
    assert SumKwh([a, b]) == a.kwh + SumKwh([b]);
  }
}
