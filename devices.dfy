/**
 The static device registry (`DEVICES`): configured outlets, looked up by display name.
 */
module Devices {
  import opened Readings

  datatype DeviceConfig = DeviceConfig(
    name: string,
    deviceId: string,
    localKey: string,
    ip: string,
    protocol: real)

  /** The two configured outlets. */
  const Registry: seq<DeviceConfig> := [
    DeviceConfig("LivingRoom", "bf5b8d9c7f3f2daa3f09du", "B@94pU=Yh7^p5lT5", "192.168.0.106", 3.5),
    DeviceConfig("Bedroom", "bf5b8d9c7f3f2daa3f09du", "B@94pU=Yh7^p5lT5", "192.168.0.106", 3.5)
  ]

  /** `[d['name'] for d in DEVICES]`, as served by `/api/devices`. */
  function DeviceNames(devices: seq<DeviceConfig>): (names: seq<string>)
    ensures |names| == |devices|
    ensures forall i :: 0 <= i < |devices| ==> names[i] == devices[i].name
  {
    if devices == [] then [] else [devices[0].name] + DeviceNames(devices[1..])
  }

  /**
   `next((d for d in DEVICES if d["name"] == name), None)`: the FIRST configured
   entry carrying that name, or nothing when no entry does.
   */
  function FindDevice(devices: seq<DeviceConfig>, name: string): (r: Option<DeviceConfig>)
    ensures r.None? <==> forall i :: 0 <= i < |devices| ==> devices[i].name != name
    ensures r.Some? ==> exists i :: 0 <= i < |devices| && devices[i] == r.value && r.value.name == name &&
                          forall j :: 0 <= j < i ==> devices[j].name != name
  {
    if devices == [] then None
    else if devices[0].name == name then Some(devices[0])
    else
      var r := FindDevice(devices[1..], name);
      assert r.Some? ==> exists i :: 0 < i < |devices| && devices[i] == r.value && r.value.name == name &&
                          forall j :: 0 <= j < i ==> devices[j].name != name by {
        if r.Some? {
          var k :| 0 <= k < |devices[1..]| && devices[1..][k] == r.value && r.value.name == name &&
                   forall j :: 0 <= j < k ==> devices[1..][j].name != name;
          assert devices[k + 1] == r.value;
          assert forall j :: 0 <= j < k + 1 ==> devices[j].name != name by {
            forall j | 0 <= j < k + 1 ensures devices[j].name != name {
              if j > 0 { assert devices[j] == devices[1..][j - 1]; }
            }
          }
        }
      }
      r
  }
}
