/**
 The reading table as a mutable store, and the body of one `poll_device`
 iteration: read the status reply, scale the data points, append one row.
 */
module Store {
  import opened Readings
  import opened Devices

  /** Seconds between two polls of one device (`interval=10`). */
  const DefaultInterval: nat := 10

  /** The data-point codes this outlet model uses. */
  const PowerCode := "19"
  const VoltageCode := "20"
  const CurrentCode := "18"

  /**
   How one iteration of the loop goes: `Raised` stands for every iteration that
   raises before its commit (the status call itself, a reply or `"dps"` value
   that is not a mapping, a data point that cannot be divided, a failed
   commit); otherwise the status call returned a reply whose `"dps"` entry may
   be absent.
   */
  datatype StatusReply = Raised(message: string) | Returned(dps: Option<map<string, real>>)

  /** The scaled values one iteration stores. */
  datatype Measurement = Measurement(watt: real, voltage: real, current: real, kwh: real)

  /** `dp.get(code, 0)`. */
  function DataPoint(dp: map<string, real>, code: string): real
  {
    if code in dp then dp[code] else 0.0
  }

  /**
   Power and voltage arrive in tenths and are divided by 10; current is kept
   as sent; the energy of the sample is `watt * (interval / 3600) / 1000` kWh.
   */
  function Normalize(dp: map<string, real>, interval: nat): (m: Measurement)
    ensures m.watt * 10.0 == DataPoint(dp, PowerCode)
    ensures m.voltage * 10.0 == DataPoint(dp, VoltageCode)
    ensures m.current == DataPoint(dp, CurrentCode)
    ensures m.kwh * 3600000.0 == m.watt * (interval as real)
  {
    var watt := DataPoint(dp, PowerCode) / 10.0;
    Measurement(
      watt,
      DataPoint(dp, VoltageCode) / 10.0,
      DataPoint(dp, CurrentCode),
      watt * ((interval as real) / 3600.0) / 1000.0)
  }

  /**
   A plug reporting 1500 tenths of a watt and 2300 tenths of a volt, with no
   current, stores 150 W, 230 V, 0 current and 1/2400 kWh for a 10 s interval.
   */
  lemma NormalizeExample()
    ensures Normalize(map[PowerCode := 1500.0, VoltageCode := 2300.0], DefaultInterval) ==
            Measurement(150.0, 230.0, 0.0, 1.0 / 2400.0)
  {
  }

  /**
   The id SQLite gives the next inserted row: one more than the largest id in
   the table (the last one, as ids increase and rows are never deleted), 1 for
   an empty table.
   */
  function NextId(rows: seq<Row>): (id: nat)
    requires IdsIncreasing(rows)
    ensures id >= 1
    ensures forall i :: 0 <= i < |rows| ==> rows[i].id < id
  {
    if rows == [] then 1 else rows[|rows| - 1].id + 1
  }

  /** The `energy_data` table. Rows are only ever appended. */
  class EnergyTable {
    var rows: seq<Row>

    ghost predicate Valid()
      reads this
    {
      IdsIncreasing(rows)
    }

    constructor ()
      ensures Valid() && rows == []
    {
      rows := [];
    }

    /** `db.session.add(entry)` followed by `db.session.commit()`. */
    method Add(deviceName: string, timestamp: string, m: Measurement) returns (row: Row)
      requires Valid()
      modifies this
      ensures Valid()
      ensures row == Row(NextId(old(rows)), deviceName, timestamp, m.watt, m.voltage, m.current, m.kwh)
      ensures rows == old(rows) + [row]
    {
      row := Row(NextId(rows), deviceName, timestamp, m.watt, m.voltage, m.current, m.kwh);
      rows := rows + [row];
    }
  }

  /**
   One iteration of the polling loop for `device`, with `now` the formatted
   local time. An iteration that raises before its commit is swallowed and
   stores nothing; any other reply stores exactly one row, a reply without
   `"dps"` one of zeros.
   */
  method PollOnce(table: EnergyTable, device: DeviceConfig, reply: StatusReply, now: string, interval: nat)
    returns (stored: bool)
    requires table.Valid()
    modifies table
    ensures table.Valid()
    ensures stored <==> reply.Returned?
    ensures !stored ==> table.rows == old(table.rows)
    ensures stored ==>
      var dp := if reply.dps.Some? then reply.dps.value else map[];
      var m := Normalize(dp, interval);
      table.rows == old(table.rows) + [Row(NextId(old(table.rows)), device.name, now, m.watt, m.voltage, m.current, m.kwh)]
  {
    match reply
    case Raised(_) =>
      stored := false;
    case Returned(dps) =>
      var dp := if dps.Some? then dps.value else map[];
      var m := Normalize(dp, interval);
      var _ := table.Add(device.name, now, m);
      stored := true;
  }
}
