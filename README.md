# Smart-plug energy monitor — verified model

This project models a small Flask web application. The application polls Tuya
smart plugs, stores one energy reading per poll in an SQLite table
(`energy_data`) and serves read-only views of that table: the latest readings
of a device, graph series, all-time kWh totals, and daily, hourly and
per-minute aggregations. It also has an endpoint that switches a plug on or off.

The model covers the following parts of `app.py`, one Dafny module each:

- `Readings` (`readings.dfy`) holds the `EnergyData` row and the relational
  building blocks the queries use. `WHERE` is an order-keeping filter,
  `SUM(kwh)` is a sum, and `reverse()` is a list reversal.
- `Devices` (`devices.dfy`) holds the static `DEVICES` registry, the list of
  names and the first-match lookup by name.
- `Store` (`store.dfy`) holds the table as a class that only ever appends, and
  one iteration of the polling loop. That iteration reads data points "19",
  "20" and "18", defaulting each to 0. It divides power and voltage by 10,
  keeps current as sent, derives kWh from the poll interval and appends one row.
- `Recent` (`recent.dfy`) holds the `ORDER BY id DESC LIMIT n` queries that
  are then reversed: the latest-60 series of a device and the latest-100 graph
  series, both for the whole table and for one device.
- `Totals` (`totals.dfy`) holds the all-device and per-device kWh totals. SQL
  `SUM` returns NULL over no rows, and `or 0` turns that into 0.
- `TextOrder` (`text_order.dfy`) holds `SUBSTR(timestamp, 1, w)` and the
  lexicographic order that SQLite's default collation uses for `ORDER BY`.
- `Buckets` (`buckets.dfy`) holds the prefix-bucket aggregations: daily
  (width 10, limit 7), hourly (width 13, limit 24) and per-minute (width 16,
  limit 60, returned oldest first), for all devices and for one device. It
  also holds the per-minute sheet of the Excel export.
- `Control` (`control.dfy`) holds the power endpoint. It lower-cases the state
  and checks it first (400). It then looks the device up (404). Last it issues
  the command, which gives 200 or 500 with the library's message.
- `Dashboard` (`dashboard.dfy`) holds the `polling_started` flag. The first
  dashboard request starts one poller per device, and later requests start none.

The table is kept in insertion order, and ids strictly increase along it
(`IdsIncreasing`). As a result, `ORDER BY id DESC` is the table read backwards,
and a new row's id is the last id plus one. Readings are real numbers.

Two behaviours of `app.py` are worth stating because a reader could expect
otherwise:

- The docstring of the power endpoint (app.py:295-298) documents the request
  body as `{ "state": "on" }` or `{ "state": "off" }`. The code lower-cases
  the state before checking it (app.py:299), so "ON" and "Off" are accepted
  and reported back as "on" and "off" (`Control.AcceptedSpellings`).
- A status reply without a `"dps"` entry is read as an empty map
  (app.py:66), so every data point defaults to 0 and a row of zeros is
  stored (`Store.PollOnce`). Only an iteration that raises before the commit
  stores nothing; `Raised` stands for every such iteration.

## Model

| member | source | states |
|---|---|---|
| TextOrder.Prefix | app.py:181 | `SUBSTR(ts, 1, w)` is the first `w` characters of `ts`, or all of `ts` when it is shorter |
| TextOrder.Less | app.py:159 | the `ORDER BY` text order puts a proper prefix before its extensions |
| TextOrder.LessAtFirstDifference | app.py:184 | past a common prefix, the first differing character decides the order |
| TextOrder.LessIrreflexive | app.py:184 | no key sorts before itself under the text order used by `ORDER BY minute` |
| TextOrder.LessTransitive | app.py:184 | the text order used by `ORDER BY` is transitive |
| TextOrder.LessTotal | app.py:184 | any two distinct keys are ordered one way or the other |
| Readings.Where | app.py:127 | a filter keeps exactly the rows satisfying the condition and never adds rows |
| Readings.OfDevice | app.py:127 | `filter_by(device_id=name)` keeps exactly the rows of that device |
| Readings.WhereKeepsIdOrder | app.py:127-128 | filtering a table whose ids increase gives rows whose ids still increase |
| Readings.WhereAppend | app.py:90-91 | appending a row extends a filtered view by that row exactly when the row qualifies |
| Readings.SumKwhAppend | app.py:141 | the `kwh` sum over two concatenated row lists is the sum of their sums |
| Readings.SumKwhSplit | app.py:141-148 | splitting the table by a condition and its negation splits the `kwh` total |
| Readings.Reverse | app.py:129 | `reverse()` keeps the length and puts element `i` at position `len-1-i` |
| Devices.DeviceNames | app.py:120 | the names list has one entry per configured device, in registry order |
| Devices.FindDevice | app.py:303 | None exactly when no device has the name, otherwise the first device carrying it |
| Store.Normalize | app.py:69-79 | watt×10 and voltage×10 equal the raw data points "19" and "20", current equals "18", and kwh×3 600 000 equals watt×interval |
| Store.NormalizeExample | app.py:74-79 | raw 1500/2300 with no current gives 150 W, 230 V, 0 and 1/2400 kWh over 10 s |
| Store.NextId | app.py:39 | the next id is at least 1 and larger than every id in the table |
| Store.EnergyTable.Add | app.py:82-91 | the table becomes the old table plus exactly the new row, which carries the next id, and ids keep increasing |
| Store.PollOnce | app.py:64-96 | a row is stored iff the iteration did not raise; an iteration that raised leaves the table unchanged; otherwise exactly one normalized row (zeros when "dps" is missing) is appended for the device with the given time |
| Recent.LatestWindow | app.py:268-269 | `ORDER BY id DESC LIMIT n` then reversed has `min(n, len)` rows and is the last rows of the table, in table order |
| Recent.LatestWindowIsNewest | app.py:127-129 | the window's ids increase, and every row left out is older than every row returned |
| Recent.LatestOfDevice | app.py:127-129 | at most `n` rows, all of that device, ids increasing, as many as the device has up to `n`, and no newer row of the device left out |
| Recent.AppendedReadingIsNewest | app.py:90-91 | after a row is appended, it is the last element of its device's window, and other devices' rows are unchanged |
| Recent.GetData | app.py:124-135 | `min(60, rows of device)` samples; sample `i` is the timestamp, watt, voltage and current of row `i` of the device's latest window |
| Recent.TimeOfDay | app.py:271 | `timestamp[11:]` is what follows the first 11 characters, or empty for a shorter string |
| Recent.GraphDataAll | app.py:265-277 | `min(100, len)` points, point `i` built from the matching row of the table's last rows, naming its device |
| Recent.GraphDataDevice | app.py:280-291 | `min(100, rows of device)` points; point `i` is built from row `i` of the device's latest window, with no device field |
| Totals.OrZero | app.py:141 | `or 0` reads a NULL sum as 0 and keeps any other sum |
| Totals.TotalKwhAll | app.py:138-142 | the total is the sum of `kwh` over the whole table, and 0 for an empty table |
| Totals.TotalKwhDevice | app.py:145-149 | the total is the sum of `kwh` over the device's rows, and 0 when the device has none |
| Totals.DeviceTotalIsPart | app.py:141-148 | the all-device total is the device's total plus the other rows' sum |
| Totals.TotalsAfterAppend | app.py:141-148 | appending a reading raises the all-device total by its kwh, and a device total only when the reading is that device's |
| Totals.TotalExample | app.py:148 | LivingRoom readings of 0.0004 and 0.0006 kWh, with another device's row between them, total 0.001 |
| Buckets.KeySetMembers | app.py:181 | a key is a group key exactly when some row's timestamp has that prefix |
| Buckets.GroupOfAbsentKey | app.py:181-183 | a key that no row carries has no rows in its group |
| Buckets.GroupSumsStep | app.py:181-183 | adding a row's kwh to its key's partial sum gives the group sums of the longer table |
| Buckets.GroupSums | app.py:181-183 | `GROUP BY` with `SUM(kwh)` has one entry per distinct key, holding the sum over exactly the rows of that key |
| Buckets.Insert | app.py:183-184 | inserting a key into a strictly descending key list keeps it strictly descending and adds exactly that key |
| Buckets.SortedKeys | app.py:183-184 | the distinct keys, strictly descending, exactly the keys some row carries |
| Buckets.AllBuckets | app.py:180-186 | buckets with strictly descending keys, one for each key some row carries, each with its group's sum |
| Buckets.KeysAreDistinct | app.py:183 | there are exactly as many buckets as distinct keys |
| Buckets.Top | app.py:185 | `LIMIT n` keeps a descending prefix of exactly `min(n, len)` buckets, all of them when there are few enough, and nothing left out is larger |
| Buckets.Aggregate | app.py:180-186 | exactly `min(n, number of keys)` buckets, descending, each a real key with its group's sum; any key left out is smaller than every key returned; with at most `n` keys none is left out |
| Buckets.AggregateElements | app.py:185 | every bucket in a prefix of the full list is a real key with its group's sum |
| Buckets.Chronological | app.py:188 | `reversed` gives the same buckets in ascending key order |
| Buckets.EnergyStats | app.py:152-174 | `min(7, days)` daily and `min(24, hours)` hourly buckets, newest first, with correct sums; no later day or hour left out; all of them when there are few enough |
| Buckets.MinutelyAll | app.py:177-189 | `min(60, minutes)` buckets, oldest first, with correct sums; no later minute left out; all minutes when there are at most 60 |
| Buckets.ReversedElements | app.py:188 | reversing the bucket list keeps every bucket's key, its sum and the newest-kept property |
| Buckets.DeviceGroup | app.py:195-199 | filtering by device and then by minute is the same as the combined filter |
| Buckets.MinutelyDevice | app.py:192-205 | `min(60, minutes of the device)` buckets, ascending, each the minute of one of the device's rows, its total the kwh of that device's rows in that minute; no later minute of the device left out |
| Buckets.DeviceBuckets | app.py:195-199 | buckets over the device's rows read the same against the whole table, including which minutes are left out |
| Buckets.ExportSelection | app.py:214-228 | with a non-empty `?device=` exactly that device's rows are exported; with none or an empty one, the whole table |
| Buckets.ExportMinutely | app.py:243-249 | every minute of the exported rows exactly once, ascending, with its kwh sum; empty when no row is exported |
| Buckets.ReversedTotals | app.py:245 | listing the groups in the opposite order keeps every bucket's total equal to its minute's kwh sum |
| Control.AsciiLower | app.py:299 | `.lower()` keeps the length and lower-cases each character independently |
| Control.LowerCharIs | app.py:299 | a character lower-cases to a given small letter exactly when it is that letter or its capital |
| Control.OnSpellings | app.py:299-300 | a two-character state lower-cases to "on" exactly when it is o/O followed by n/N |
| Control.OffSpellings | app.py:299-300 | a three-character state lower-cases to "off" exactly when it is o/O, f/F, f/F |
| Control.AcceptedSpellings | app.py:299-300 | a state passes the check exactly when it is "on" or "off" in any mix of cases |
| Control.ValidatePowerRequest | app.py:299-305 | a non-text state gives 500; a missing or invalid state gives 400; a valid state gives 404 exactly when no device has the name and is accepted exactly when one does; an accepted request carries the first device of that name and turns it on exactly for "on" |
| Control.ControlDevicePower | app.py:293-318 | the status is 200, 400, 404 or 500; a rejected request's 400, 404 or 500 is returned unchanged; 200 exactly when validation passes and the command succeeds, reporting the name and the lower-cased state; a failed command gives 500 with its message |
| Control.InvalidStateComesFirst | app.py:299-301 | an invalid state gives the same 400 whatever the registry, the name or the command outcome |
| Control.UnknownDeviceIsNotFound | app.py:303-305 | with a valid state, the answer is 404 exactly when no configured device has the name |
| Dashboard.Server.HandleDashboard | app.py:105-114 | the first request starts a poller for every configured device in order and sets the flag; later requests start none |
| Dashboard.TwoRequests | app.py:109-113 | of two consecutive dashboard requests, the first starts all pollers and the second none |

## Left out

- Device I/O through the Tuya library is left out. `status()` becomes a `StatusReply` input and `set_status` a `CommandOutcome` input. A failure while creating the device object for polling (lines 56-61) ends that poller before its loop, and is not modelled.
- The polling threads, `time.sleep`, the endless loop and thread scheduling are left out. `PollOnce` models one iteration, and `HandleDashboard` records which pollers were started.
- `datetime.now()` becomes an input string. The console logging with `print` is dropped.
- Floating point is left out. Readings are reals, and the rounding the responses apply (`round(…, 6)`, `round(…, 2)`, the export's `.round(6)`) is not modelled. The export rounds each row's `kWh` (line 240) before the per-minute `groupby(...).sum()` (line 245), so its minute sheet adds already-rounded values; `Buckets.ExportMinutely` adds the exact ones, and the two can differ by more than float noise (twelve 150 W readings in one minute give 0.005004 in the sheet against 0.005 in the model).
- A status reply, or a `"dps"` value, that is not a mapping is left out. `.get` raises on it (lines 66 and 69-71), which the model folds into `Raised`.
- Non-numeric data-point values are left out. Data points are modelled as reals, so the error a text value raises in the division appears only as `Raised`.
- NULL columns are left out. Every stored column has a value, so the `is not None` checks in the graph routes always take the value branch.
- Flask, JSON encoding, templates and the Excel writer are left out. The raw-data sheet of the export (lines 217-240, ordered by timestamp, with ties in engine order) is not modelled. Only its per-minute sheet is.
- Database transactions, commit failures and concurrent writers are left out. Appending a row is atomic in the model.
- A request body that is not a JSON object is left out. The `"state"` member is modelled as missing, text or not text.
- Dashboard.Server.HandleDashboard: the model handles dashboard requests one after another. In the source, the flag test (line 109) and the assignment (line 113) are separate steps, not one atomic test-and-set. `app.run(debug=True)` (line 322) serves requests on threads, so two overlapping first requests can both see the flag clear and both start a poller for every device. `TwoRequests` holds only for requests that do not overlap.
- Control.AsciiLower: lower-cases only the ASCII letters A-Z. Python's `str.lower()` also lower-cases other Unicode letters. The state check compares the result with "on" and "off", so only characters that lower-case to o, n or f could make a difference.
