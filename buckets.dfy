/**
 The prefix-bucket aggregations:

   SELECT SUBSTR(timestamp, 1, w) AS key, SUM(kwh) FROM energy_data
   [WHERE device_id = :dev] GROUP BY key ORDER BY key DESC LIMIT n

 for days (w = 10, n = 7), hours (w = 13, n = 24) and minutes (w = 16, n = 60,
 then reversed to oldest first), and the export's per-minute grouping, which
 is the same grouping over all minutes in ascending order.

 The grouping is computed the way an engine would — a running map from key to
 partial sum, and an ordered list of distinct keys — and proved equal to the
 meaning of the query: one bucket per distinct prefix, holding the sum of
 `kwh` over exactly the rows with that prefix.
 */
module Buckets {
  import opened TextOrder
  import opened Readings

  datatype Bucket = Bucket(key: string, total: real)

  const DayWidth: nat := 10
  const HourWidth: nat := 13
  const MinuteWidth: nat := 16
  const DayLimit: nat := 7
  const HourLimit: nat := 24
  const MinuteLimit: nat := 60

  /** The distinct group keys of `rows`. */
  ghost function KeySet(rows: seq<Row>, w: nat): set<string>
  {
    if rows == [] then {} else {Prefix(rows[0].timestamp, w)} + KeySet(rows[1..], w)
  }

  /** The rows of the group `key`. */
  function InGroup(rows: seq<Row>, w: nat, key: string): seq<Row>
  {
    Where(rows, (x: Row) => Prefix(x.timestamp, w) == key)
  }

  /** Every key is strictly smaller than all keys before it. */
  ghost predicate Descending(keys: seq<string>)
  {
    forall i, j :: 0 <= i < j < |keys| ==> Less(keys[j], keys[i])
  }

  ghost predicate DescendingBuckets(bs: seq<Bucket>)
  {
    forall i, j :: 0 <= i < j < |bs| ==> Less(bs[j].key, bs[i].key)
  }

  ghost predicate AscendingBuckets(bs: seq<Bucket>)
  {
    forall i, j :: 0 <= i < j < |bs| ==> Less(bs[i].key, bs[j].key)
  }

  /** A key belongs to the group set exactly when some row's timestamp has that prefix. */
  lemma {:induction false} KeySetMembers(rows: seq<Row>, w: nat, k: string)
    ensures k in KeySet(rows, w) <==> exists x :: x in rows && Prefix(x.timestamp, w) == k
  {
    if rows != [] {
      KeySetMembers(rows[1..], w, k);
      assert forall x :: x in rows <==> x == rows[0] || x in rows[1..] by {
        assert rows == [rows[0]] + rows[1..];
      }
    }
  }

  /** The sum of a group, peeled off at the first row. */
  lemma GroupSumCons(rows: seq<Row>, w: nat, k: string)
    requires rows != []
    ensures SumKwh(InGroup(rows, w, k)) ==
            (if Prefix(rows[0].timestamp, w) == k then rows[0].kwh else 0.0) + SumKwh(InGroup(rows[1..], w, k))
  {
  }

  /** A key no row carries has an empty group. */
  lemma {:induction false} GroupOfAbsentKey(rows: seq<Row>, w: nat, k: string)
    requires k !in KeySet(rows, w)
    ensures InGroup(rows, w, k) == []
  {
    if rows != [] {
      GroupOfAbsentKey(rows[1..], w, k);
    }
  }

  /** Adds one row's `kwh` to the partial sum of its key, opening the key at 0 when new. */
  function Bump(sums: map<string, real>, x: Row, w: nat): map<string, real>
  {
    var k := Prefix(x.timestamp, w);
    sums[k := (if k in sums then sums[k] else 0.0) + x.kwh]
  }

  /** Adding the first row to the partial sums of the others gives the sums of all rows. */
  lemma GroupSumsStep(rows: seq<Row>, w: nat, rest: map<string, real>)
    requires rows != []
    requires rest.Keys == KeySet(rows[1..], w)
    requires forall k :: k in rest ==> rest[k] == SumKwh(InGroup(rows[1..], w, k))
    ensures Bump(rest, rows[0], w).Keys == KeySet(rows, w)
    ensures forall k :: k in Bump(rest, rows[0], w) ==> Bump(rest, rows[0], w)[k] == SumKwh(InGroup(rows, w, k))
  {
    var m := Bump(rest, rows[0], w);
    forall k | k in m ensures m[k] == SumKwh(InGroup(rows, w, k)) {
      GroupSumCons(rows, w, k);
      if k !in rest {
        GroupOfAbsentKey(rows[1..], w, k);
      }
    }
  }

  /** `GROUP BY key` with `SUM(kwh)`: the running map from key to the sum of its rows. */
  function GroupSums(rows: seq<Row>, w: nat): (m: map<string, real>)
    ensures m.Keys == KeySet(rows, w)
    ensures forall k :: k in m ==> m[k] == SumKwh(InGroup(rows, w, k))
  {
    if rows == [] then map[]
    else
      var rest := GroupSums(rows[1..], w);
      GroupSumsStep(rows, w, rest);
      Bump(rest, rows[0], w)
  }

  /** Places `k` into a descending key list, once. */
  function Insert(k: string, keys: seq<string>): (r: seq<string>)
    requires Descending(keys)
    ensures Descending(r)
    ensures forall y :: y in r <==> y == k || y in keys
  {
    if keys == [] then [k]
    else if k == keys[0] then keys
    else if Less(keys[0], k) then
      assert forall j :: 0 <= j < |keys| ==> Less(keys[j], k) by {
        forall j | 0 < j < |keys| ensures Less(keys[j], k) {
          LessTransitive(keys[j], keys[0], k);
        }
      }
      [k] + keys
    else
      var rest := Insert(k, keys[1..]);
      LessTotal(k, keys[0]);
      assert forall y :: y in rest ==> Less(y, keys[0]) by {
        forall y | y in rest ensures Less(y, keys[0]) {
          if y != k {
            var j :| 0 <= j < |keys[1..]| && keys[1..][j] == y;
            assert keys[j + 1] == y;
          }
        }
      }
      assert forall y :: y in keys <==> y == keys[0] || y in keys[1..] by {
        assert keys == [keys[0]] + keys[1..];
      }
      [keys[0]] + rest
  }

  /** `GROUP BY key ORDER BY key DESC`: the distinct keys, largest first. */
  function SortedKeys(rows: seq<Row>, w: nat): (keys: seq<string>)
    ensures Descending(keys)
    ensures forall k :: k in keys <==> k in KeySet(rows, w)
  {
    if rows == [] then []
    else
      Insert(Prefix(rows[0].timestamp, w), SortedKeys(rows[1..], w))
  }

  /** Some bucket of `bs` has key `k`. */
  predicate HasKey(bs: seq<Bucket>, k: string)
  {
    exists i :: 0 <= i < |bs| && bs[i].key == k
  }

  /** Every group of `rows`, ordered by key descending, unlimited. */
  function AllBuckets(rows: seq<Row>, w: nat): (bs: seq<Bucket>)
    ensures DescendingBuckets(bs)
    ensures forall k :: k in KeySet(rows, w) <==> HasKey(bs, k)
    ensures forall i :: 0 <= i < |bs| ==> bs[i].total == SumKwh(InGroup(rows, w, bs[i].key))
  {
    var keys := SortedKeys(rows, w);
    var sums := GroupSums(rows, w);
    var bs := seq(|keys|, i requires 0 <= i < |keys| => Bucket(keys[i], sums[keys[i]]));
    assert forall k :: k in keys <==> HasKey(bs, k) by {
      forall k | k in keys ensures HasKey(bs, k) {
        var i :| 0 <= i < |keys| && keys[i] == k;
        assert bs[i].key == k;
      }
    }
    bs
  }

  /** There are exactly as many buckets as distinct keys. */
  lemma KeysAreDistinct(rows: seq<Row>, w: nat)
    ensures |AllBuckets(rows, w)| == |KeySet(rows, w)|
  {
    var all := AllBuckets(rows, w);
    var keys := set i | 0 <= i < |all| :: all[i].key;
    assert keys == KeySet(rows, w);
    DistinctCount(all);
  }

  lemma {:induction false} DistinctCount(bs: seq<Bucket>)
    requires DescendingBuckets(bs)
    ensures |set i | 0 <= i < |bs| :: bs[i].key| == |bs|
  {
    if bs != [] {
      var tail := bs[1..];
      DistinctCount(tail);
      var ks := set i | 0 <= i < |bs| :: bs[i].key;
      var kt := set i | 0 <= i < |tail| :: tail[i].key;
      assert ks == {bs[0].key} + kt by {
        forall k | k in ks ensures k in {bs[0].key} + kt {
          var i :| 0 <= i < |bs| && bs[i].key == k;
          if i > 0 { assert tail[i - 1].key == k; }
        }
      }
      assert bs[0].key !in kt by {
        if bs[0].key in kt {
          var i :| 0 <= i < |tail| && tail[i].key == bs[0].key;
          assert Less(bs[i + 1].key, bs[0].key);
          LessIrreflexive(bs[0].key);
        }
      }
    }
  }

  /**
   `LIMIT n` on a descending list: a prefix of `min(n, |bs|)` buckets, still
   descending, keeping the largest keys; the whole list when it is that short.
   */
  function Top(bs: seq<Bucket>, n: nat): (r: seq<Bucket>)
    requires DescendingBuckets(bs)
    ensures |r| == Min(n, |bs|)
    ensures r == bs[..|r|]
    ensures |bs| <= n ==> r == bs
    ensures DescendingBuckets(r)
    ensures forall k, i :: HasKey(bs, k) && !HasKey(r, k) && 0 <= i < |r| ==> Less(k, r[i].key)
  {
    var r := if |bs| <= n then bs else bs[..n];
    assert forall k, i :: HasKey(bs, k) && !HasKey(r, k) && 0 <= i < |r| ==> Less(k, r[i].key) by {
      forall k, i | HasKey(bs, k) && !HasKey(r, k) && 0 <= i < |r|
        ensures Less(k, r[i].key)
      {
        var j :| 0 <= j < |bs| && bs[j].key == k;
        assert r[i] == bs[i];
      }
    }
    r
  }

  /**
   `... ORDER BY key DESC LIMIT n`: `min(n, number of keys)` buckets with distinct keys in
   descending order, each key a prefix of some row and each total the sum of
   `kwh` over exactly the rows with that prefix; the keys returned are the `n`
   largest — any key left out is smaller than all of them — and when there are
   at most `n` keys none is left out.
   */
  function Aggregate(rows: seq<Row>, w: nat, n: nat): (r: seq<Bucket>)
    ensures |r| == Min(n, |KeySet(rows, w)|)
    ensures DescendingBuckets(r)
    ensures forall i :: 0 <= i < |r| ==>
              r[i].key in KeySet(rows, w) && r[i].total == SumKwh(InGroup(rows, w, r[i].key))
    ensures forall k, i :: k in KeySet(rows, w) && !HasKey(r, k) && 0 <= i < |r| ==> Less(k, r[i].key)
    ensures |KeySet(rows, w)| <= n ==> forall k :: k in KeySet(rows, w) ==> HasKey(r, k)
  {
    var all := AllBuckets(rows, w);
    var r := Top(all, n);
    AggregateElements(all, r, rows, w);
    KeysAreDistinct(rows, w);
    r
  }

  lemma AggregateElements(all: seq<Bucket>, r: seq<Bucket>, rows: seq<Row>, w: nat)
    requires all == AllBuckets(rows, w)
    requires |r| <= |all| && r == all[..|r|]
    ensures forall i :: 0 <= i < |r| ==>
              r[i].key in KeySet(rows, w) && r[i].total == SumKwh(InGroup(rows, w, r[i].key))
  {
    forall i | 0 <= i < |r|
      ensures r[i].key in KeySet(rows, w) && r[i].total == SumKwh(InGroup(rows, w, r[i].key))
    {
      assert r[i] == all[i] && HasKey(all, all[i].key);
    }
  }

  /** `reversed(...)` on a descending bucket list: the same buckets, ascending. */
  function Chronological(bs: seq<Bucket>): (r: seq<Bucket>)
    requires DescendingBuckets(bs)
    ensures |r| == |bs|
    ensures forall i :: 0 <= i < |r| ==> r[i] == bs[|bs| - 1 - i]
    ensures AscendingBuckets(r)
    ensures forall k :: HasKey(r, k) <==> HasKey(bs, k)
  {
    var r := Reverse(bs);
    assert forall k :: HasKey(bs, k) ==> HasKey(r, k) by {
      forall k | HasKey(bs, k) ensures HasKey(r, k) {
        var i :| 0 <= i < |bs| && bs[i].key == k;
        assert r[|bs| - 1 - i].key == k;
      }
    }
    r
  }

  /** The result of `energy_stats`. */
  datatype Stats = Stats(daily: seq<Bucket>, hourly: seq<Bucket>)

  /**
   `energy_stats`: the 7 latest days and the 24 latest hours (all of them when
   there are fewer), newest first, each the `kwh` sum of the rows sharing that
   10- or 13-character prefix.
   */
  function EnergyStats(rows: seq<Row>): (s: Stats)
    ensures DescendingBuckets(s.daily)
    ensures forall i :: 0 <= i < |s.daily| ==>
              s.daily[i].key in KeySet(rows, DayWidth) && s.daily[i].total == SumKwh(InGroup(rows, DayWidth, s.daily[i].key))
    ensures forall k, i :: k in KeySet(rows, DayWidth) && !HasKey(s.daily, k) && 0 <= i < |s.daily| ==>
              Less(k, s.daily[i].key)
    ensures |s.daily| == Min(DayLimit, |KeySet(rows, DayWidth)|)
    ensures |KeySet(rows, DayWidth)| <= DayLimit ==> forall k :: k in KeySet(rows, DayWidth) ==> HasKey(s.daily, k)
    ensures DescendingBuckets(s.hourly)
    ensures forall i :: 0 <= i < |s.hourly| ==>
              s.hourly[i].key in KeySet(rows, HourWidth) && s.hourly[i].total == SumKwh(InGroup(rows, HourWidth, s.hourly[i].key))
    ensures forall k, i :: k in KeySet(rows, HourWidth) && !HasKey(s.hourly, k) && 0 <= i < |s.hourly| ==>
              Less(k, s.hourly[i].key)
    ensures |s.hourly| == Min(HourLimit, |KeySet(rows, HourWidth)|)
    ensures |KeySet(rows, HourWidth)| <= HourLimit ==> forall k :: k in KeySet(rows, HourWidth) ==> HasKey(s.hourly, k)
  {
    Stats(Aggregate(rows, DayWidth, DayLimit), Aggregate(rows, HourWidth, HourLimit))
  }

  /**
   `minutely_stats_all`: the 60 latest minutes, reversed to oldest first. Keys
   ascend, each is the 16-character prefix of some row with the `kwh` sum of
   exactly those rows, and no minute left out is later than one returned.
   */
  function MinutelyAll(rows: seq<Row>): (r: seq<Bucket>)
    ensures |r| == Min(MinuteLimit, |KeySet(rows, MinuteWidth)|)
    ensures AscendingBuckets(r)
    ensures forall i :: 0 <= i < |r| ==>
              r[i].key in KeySet(rows, MinuteWidth) && r[i].total == SumKwh(InGroup(rows, MinuteWidth, r[i].key))
    ensures forall k, i :: k in KeySet(rows, MinuteWidth) && !HasKey(r, k) && 0 <= i < |r| ==> Less(k, r[i].key)
    ensures |KeySet(rows, MinuteWidth)| <= MinuteLimit ==> forall k :: k in KeySet(rows, MinuteWidth) ==> HasKey(r, k)
  {
    var top := Aggregate(rows, MinuteWidth, MinuteLimit);
    var r := Chronological(top);
    ReversedElements(top, r, rows, MinuteWidth);
    r
  }

  /** What holds of every bucket of a list holds of every bucket of its reversal. */
  lemma ReversedElements(top: seq<Bucket>, r: seq<Bucket>, rows: seq<Row>, w: nat)
    requires |r| == |top|
    requires forall i :: 0 <= i < |r| ==> r[i] == top[|top| - 1 - i]
    requires forall i :: 0 <= i < |top| ==>
               top[i].key in KeySet(rows, w) && top[i].total == SumKwh(InGroup(rows, w, top[i].key))
    requires forall k, i :: k in KeySet(rows, w) && !HasKey(top, k) && 0 <= i < |top| ==> Less(k, top[i].key)
    requires forall k :: HasKey(r, k) <==> HasKey(top, k)
    ensures forall i :: 0 <= i < |r| ==>
              r[i].key in KeySet(rows, w) && r[i].total == SumKwh(InGroup(rows, w, r[i].key))
    ensures forall k, i :: k in KeySet(rows, w) && !HasKey(r, k) && 0 <= i < |r| ==> Less(k, r[i].key)
  {
    forall k, i | k in KeySet(rows, w) && !HasKey(r, k) && 0 <= i < |r|
      ensures Less(k, r[i].key)
    {
      assert r[i] == top[|top| - 1 - i];
    }
  }

  /** The rows of device `name` whose timestamp has prefix `key`. */
  function DeviceGroupRows(rows: seq<Row>, name: string, w: nat, key: string): seq<Row>
  {
    Where(rows, (x: Row) => x.deviceId == name && Prefix(x.timestamp, w) == key)
  }

  /** Some row of device `name` falls in minute `key`. */
  ghost predicate IsMinuteOf(rows: seq<Row>, name: string, key: string)
  {
    exists x :: x in rows && x.deviceId == name && Prefix(x.timestamp, MinuteWidth) == key
  }

  /** Restricting to one device and then to one prefix is one combined filter. */
  lemma {:induction false} DeviceGroup(rows: seq<Row>, name: string, w: nat, key: string)
    ensures InGroup(OfDevice(rows, name), w, key) == DeviceGroupRows(rows, name, w, key)
  {
    if rows != [] {
      DeviceGroup(rows[1..], name, w, key);
    }
  }

  /**
   `minutely_stats_device`: the same view over one device's rows — its 60
   latest minutes (all of them when there are fewer), oldest first; every key
   is the minute of a row of that device, no minute of the device left out is
   later than one returned, and every total counts only the rows of that device
   in that minute.
   */
  function MinutelyDevice(rows: seq<Row>, name: string): (r: seq<Bucket>)
    ensures AscendingBuckets(r)
    ensures forall i :: 0 <= i < |r| ==>
              IsMinuteOf(rows, name, r[i].key)
    ensures forall i :: 0 <= i < |r| ==>
              r[i].total == SumKwh(DeviceGroupRows(rows, name, MinuteWidth, r[i].key))
    ensures |r| == Min(MinuteLimit, |KeySet(OfDevice(rows, name), MinuteWidth)|)
    ensures forall k, i :: IsMinuteOf(rows, name, k) && !HasKey(r, k) && 0 <= i < |r| ==> Less(k, r[i].key)
  {
    var r := MinutelyAll(OfDevice(rows, name));
    DeviceBuckets(rows, name, r);
    r
  }

  /** Buckets of one device's rows, read back against the whole table. */
  lemma DeviceBuckets(rows: seq<Row>, name: string, r: seq<Bucket>)
    requires forall i :: 0 <= i < |r| ==>
               r[i].key in KeySet(OfDevice(rows, name), MinuteWidth) &&
               r[i].total == SumKwh(InGroup(OfDevice(rows, name), MinuteWidth, r[i].key))
    requires forall k, i :: k in KeySet(OfDevice(rows, name), MinuteWidth) && !HasKey(r, k) && 0 <= i < |r| ==>
               Less(k, r[i].key)
    ensures forall k, i :: IsMinuteOf(rows, name, k) && !HasKey(r, k) && 0 <= i < |r| ==> Less(k, r[i].key)
    ensures forall i :: 0 <= i < |r| ==>
              IsMinuteOf(rows, name, r[i].key)
    ensures forall i :: 0 <= i < |r| ==>
              r[i].total == SumKwh(DeviceGroupRows(rows, name, MinuteWidth, r[i].key))
  {
    forall i | 0 <= i < |r|
      ensures IsMinuteOf(rows, name, r[i].key)
    {
      KeySetMembers(OfDevice(rows, name), MinuteWidth, r[i].key);
      var x :| x in OfDevice(rows, name) && Prefix(x.timestamp, MinuteWidth) == r[i].key;
      assert x in rows && x.deviceId == name;
    }
    forall i | 0 <= i < |r|
      ensures r[i].total == SumKwh(DeviceGroupRows(rows, name, MinuteWidth, r[i].key))
    {
      DeviceGroup(rows, name, MinuteWidth, r[i].key);
    }
    forall k, i | IsMinuteOf(rows, name, k) && !HasKey(r, k) && 0 <= i < |r|
      ensures Less(k, r[i].key)
    {
      var x :| x in rows && x.deviceId == name && Prefix(x.timestamp, MinuteWidth) == k;
      assert x in OfDevice(rows, name);
      KeySetMembers(OfDevice(rows, name), MinuteWidth, k);
    }
  }

  /**
   The rows the export reads: one device's when the `?device=` argument is a
   non-empty name, the whole table when it is absent or empty.
   */
  function ExportSelection(rows: seq<Row>, device: Option<string>): (sel: seq<Row>)
    ensures forall x :: x in sel <==> x in rows && (device.Some? && device.value != "" ==> x.deviceId == device.value)
    ensures device.None? || device.value == "" ==> sel == rows
  {
    if device.Some? && device.value != "" then OfDevice(rows, device.value) else rows
  }

  /**
   The export's minute sheet (`groupby('Minute').sum()` over the exported
   rows): one bucket for every minute of the selection, ascending, each with
   its `kwh` sum; empty when nothing is selected.
   */
  function ExportMinutely(rows: seq<Row>, device: Option<string>): (r: seq<Bucket>)
    ensures AscendingBuckets(r)
    ensures forall i :: 0 <= i < |r| ==>
              r[i].total == SumKwh(InGroup(ExportSelection(rows, device), MinuteWidth, r[i].key))
    ensures forall k :: k in KeySet(ExportSelection(rows, device), MinuteWidth) <==> HasKey(r, k)
    ensures ExportSelection(rows, device) == [] ==> r == []
  {
    var selected := ExportSelection(rows, device);
    var all := AllBuckets(selected, MinuteWidth);
    var r := Chronological(all);
    ReversedTotals(all, r, selected, MinuteWidth);
    r
  }

  /** Reversing a bucket list keeps every bucket's total equal to its group's sum. */
  lemma ReversedTotals(all: seq<Bucket>, r: seq<Bucket>, rows: seq<Row>, w: nat)
    requires |r| == |all|
    requires forall i :: 0 <= i < |r| ==> r[i] == all[|all| - 1 - i]
    requires forall i :: 0 <= i < |all| ==> all[i].total == SumKwh(InGroup(rows, w, all[i].key))
    ensures forall i :: 0 <= i < |r| ==> r[i].total == SumKwh(InGroup(rows, w, r[i].key))
  {
    forall i | 0 <= i < |r| ensures r[i].total == SumKwh(InGroup(rows, w, r[i].key)) {
      assert r[i] == all[|all| - 1 - i];
    }
  }
}
