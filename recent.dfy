/**
 The recency queries: `ORDER BY id DESC LIMIT n` followed by a reversal, for
 the latest-60 series (`/api/data/<device>`) and the latest-100 graph series
 (`/api/graph-data`, `/api/graph-data/<device>`). The table is kept in id
 order, so ordering by id descending is reading it backwards.
 */
module Recent {
  import opened Readings

  const DataWindow: nat := 60
  const GraphWindow: nat := 100

  /**
   `ORDER BY id DESC LIMIT n`, then `reverse()`: the last `min(n, |rows|)` rows
   of the table, in table order.
   */
  function LatestWindow(rows: seq<Row>, n: nat): (w: seq<Row>)
    ensures |w| == Min(n, |rows|)
    ensures w == rows[|rows| - Min(n, |rows|)..]
  {
    var k := Min(n, |rows|);
    var newest := Reverse(rows)[..k];
    var w := Reverse(newest);
    assert forall i :: 0 <= i < k ==> w[i] == newest[k - 1 - i];
    w
  }

  /**
   The window's ids increase, and every row left out has a smaller id than
   every row returned.
   */
  lemma LatestWindowIsNewest(rows: seq<Row>, n: nat)
    requires IdsIncreasing(rows)
    ensures IdsIncreasing(LatestWindow(rows, n))
    ensures forall x, i :: x in rows && x !in LatestWindow(rows, n) && 0 <= i < |LatestWindow(rows, n)| ==>
              x.id < LatestWindow(rows, n)[i].id
  {
    var k := Min(n, |rows|);
    var w := rows[|rows| - k..];
    forall x, i | x in rows && x !in w && 0 <= i < |w|
      ensures x.id < w[i].id
    {
      var j :| 0 <= j < |rows| && rows[j] == x;
      assert rows[|rows| - k + i] == w[i];
    }
  }

  /** The latest `n` rows of one device, oldest first. */
  function LatestOfDevice(rows: seq<Row>, name: string, n: nat): (w: seq<Row>)
    requires IdsIncreasing(rows)
    ensures forall x :: x in w ==> x in rows && x.deviceId == name
    ensures IdsIncreasing(w)
    ensures |w| == Min(n, |OfDevice(rows, name)|)
    ensures forall x, i :: x in rows && x.deviceId == name && x !in w && 0 <= i < |w| ==> x.id < w[i].id
  {
    var mine := OfDevice(rows, name);
    WhereKeepsIdOrder(rows, (x: Row) => x.deviceId == name);
    LatestWindowIsNewest(mine, n);
    LatestWindow(mine, n)
  }

  /**
   A reading just appended for a device is the newest element of that
   device's window, and the rows of every other device are untouched.
   */
  lemma AppendedReadingIsNewest(rows: seq<Row>, x: Row, n: nat, other: string)
    requires IdsIncreasing(rows + [x])
    requires n >= 1
    ensures var w := LatestOfDevice(rows + [x], x.deviceId, n); |w| >= 1 && w[|w| - 1] == x
    ensures other != x.deviceId ==> OfDevice(rows + [x], other) == OfDevice(rows, other)
  {
    WhereAppend(rows, x, (y: Row) => y.deviceId == x.deviceId);
    WhereAppend(rows, x, (y: Row) => y.deviceId == other);
  }

  /** One element of the `/api/data/<device>` answer. */
  datatype Sample = Sample(timestamp: string, watt: real, voltage: real, current: real)

  /** `get_data`: the device's latest 60 readings, oldest first. */
  function GetData(rows: seq<Row>, name: string): (r: seq<Sample>)
    requires IdsIncreasing(rows)
    ensures |r| == Min(DataWindow, |OfDevice(rows, name)|)
    ensures |r| == |LatestOfDevice(rows, name, DataWindow)|
    ensures forall i :: 0 <= i < |r| ==>
              var x := LatestOfDevice(rows, name, DataWindow)[i];
              r[i] == Sample(x.timestamp, x.watt, x.voltage, x.current)
  {
    var w := LatestOfDevice(rows, name, DataWindow);
    seq(|w|, i requires 0 <= i < |w| => Sample(w[i].timestamp, w[i].watt, w[i].voltage, w[i].current))
  }

  /** `timestamp[11:]`: the `HH:MM:SS` part, or empty when the string is that short. */
  function TimeOfDay(ts: string): (t: string)
    ensures |ts| >= 11 ==> ts == ts[..11] + t
    ensures |ts| <= 11 ==> t == ""
  {
    if |ts| <= 11 then "" else ts[11..]
  }

  /** One element of a graph-data answer; only the all-device variant names the device. */
  datatype GraphPoint = GraphPoint(time: string, current: real, watt: real, voltage: real, device: Option<string>)

  /** `api_graph_data_all`: the latest 100 rows of the whole table, oldest first. */
  function GraphDataAll(rows: seq<Row>): (r: seq<GraphPoint>)
    ensures |r| == Min(GraphWindow, |rows|)
    ensures forall i :: 0 <= i < |r| ==>
              var x := rows[|rows| - |r| + i];
              r[i] == GraphPoint(TimeOfDay(x.timestamp), x.current, x.watt, x.voltage, Some(x.deviceId))
  {
    var w := LatestWindow(rows, GraphWindow);
    seq(|w|, i requires 0 <= i < |w| =>
      GraphPoint(TimeOfDay(w[i].timestamp), w[i].current, w[i].watt, w[i].voltage, Some(w[i].deviceId)))
  }

  /** `api_graph_data_device`: the device's latest 100 rows, oldest first. */
  function GraphDataDevice(rows: seq<Row>, name: string): (r: seq<GraphPoint>)
    requires IdsIncreasing(rows)
    ensures |r| == Min(GraphWindow, |OfDevice(rows, name)|)
    ensures |r| == |LatestOfDevice(rows, name, GraphWindow)|
    ensures forall i :: 0 <= i < |r| ==>
              var x := LatestOfDevice(rows, name, GraphWindow)[i];
              r[i] == GraphPoint(TimeOfDay(x.timestamp), x.current, x.watt, x.voltage, None)
  {
    var w := LatestOfDevice(rows, name, GraphWindow);
    seq(|w|, i requires 0 <= i < |w| =>
      GraphPoint(TimeOfDay(w[i].timestamp), w[i].current, w[i].watt, w[i].voltage, None))
  }
}
