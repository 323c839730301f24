/**
 `POST /api/device/<name>/power`: validate the requested state, look the
 device up by name, then issue the on/off command. The command itself goes
 through the vendor library; its outcome is an input here.
 */
module Control {
  import opened Readings
  import opened Devices

  /** The `"state"` member of the request body. */
  datatype StateField = Missing | Text(s: string) | NotText

  /** What the vendor `set_status` call did. */
  datatype CommandOutcome = Done | Failed(message: string)

  datatype Body =
    | Switched(device: string, state: string)
    | Error(message: string)
    | InternalError

  datatype Response = Response(status: nat, body: Body)

  const InvalidState := Response(400, Error("Invalid state"))
  const DeviceNotFound := Response(404, Error("Device not found"))

  /** `str.lower()` on the ASCII letters; every other character is kept. */
  function LowerChar(c: char): char
  {
    if 'A' <= c <= 'Z' then (c as int + 32) as char else c
  }

  function AsciiLower(s: string): (r: string)
    ensures |r| == |s|
    ensures forall i :: 0 <= i < |s| ==> r[i] == LowerChar(s[i])
  {
    if s == [] then [] else [LowerChar(s[0])] + AsciiLower(s[1..])
  }

  predicate IsValidState(state: string)
  {
    state == "on" || state == "off"
  }

  /** Lower-casing gives the lower-case letter `l` exactly from `l` and its capital. */
  lemma LowerCharIs(c: char, l: char)
    requires 'a' <= l <= 'z'
    ensures LowerChar(c) == l <==> c == l || c as int == l as int - 32
  {
  }

  /** The two-letter states that lower-case to "on". */
  lemma OnSpellings(s: string)
    requires |s| == 2
    ensures AsciiLower(s) == "on" <==> (s[0] == 'o' || s[0] == 'O') && (s[1] == 'n' || s[1] == 'N')
  {
    var r := AsciiLower(s);
    LowerCharIs(s[0], 'o');
    LowerCharIs(s[1], 'n');
    assert r == "on" <==> r[0] == 'o' && r[1] == 'n';
  }

  /** The three-letter states that lower-case to "off". */
  lemma OffSpellings(s: string)
    requires |s| == 3
    ensures AsciiLower(s) == "off" <==>
            (s[0] == 'o' || s[0] == 'O') && (s[1] == 'f' || s[1] == 'F') && (s[2] == 'f' || s[2] == 'F')
  {
    var r := AsciiLower(s);
    LowerCharIs(s[0], 'o');
    LowerCharIs(s[1], 'f');
    LowerCharIs(s[2], 'f');
    assert r == "off" <==> r[0] == 'o' && r[1] == 'f' && r[2] == 'f';
  }

  /**
   The requests that pass the state check are exactly the spellings of "on"
   and "off" in any mix of upper and lower case.
   */
  lemma AcceptedSpellings(s: string)
    ensures IsValidState(AsciiLower(s)) <==>
            (|s| == 2 && (s[0] == 'o' || s[0] == 'O') && (s[1] == 'n' || s[1] == 'N')) ||
            (|s| == 3 && (s[0] == 'o' || s[0] == 'O') && (s[1] == 'f' || s[1] == 'F') && (s[2] == 'f' || s[2] == 'F'))
  {
    if |s| == 2 {
      OnSpellings(s);
      assert |AsciiLower(s)| != |"off"|;
    } else if |s| == 3 {
      OffSpellings(s);
      assert |AsciiLower(s)| != |"on"|;
    } else {
      assert |AsciiLower(s)| != |"on"| && |AsciiLower(s)| != |"off"|;
    }
  }

  /**
   The outcome of the two checks that precede the command; an accepted request
   names the device and whether `set_status` is asked to switch it on.
   */
  datatype Validation = Rejected(response: Response) | Accepted(device: DeviceConfig, state: string, turnOn: bool)

  /**
   The state is checked first (a missing one counts as ""), so an invalid
   state is rejected with 400 whatever the device name; with a valid state an
   unknown name is rejected with 404, and otherwise the first configured
   device of that name is selected. A `"state"` that is not text makes
   `.lower()` raise, which the web framework answers with a 500.
   */
  function ValidatePowerRequest(devices: seq<DeviceConfig>, name: string, field: StateField): (v: Validation)
    ensures field.NotText? ==> v == Rejected(Response(500, InternalError))
    ensures field.Missing? ==> v == Rejected(InvalidState)
    ensures field.Text? && !IsValidState(AsciiLower(field.s)) ==> v == Rejected(InvalidState)
    ensures field.Text? && IsValidState(AsciiLower(field.s)) ==>
              (v == Rejected(DeviceNotFound) <==> forall i :: 0 <= i < |devices| ==> devices[i].name != name)
    ensures field.Text? && IsValidState(AsciiLower(field.s)) ==>
              (v.Accepted? <==> exists i :: 0 <= i < |devices| && devices[i].name == name)
    ensures v.Accepted? ==>
              field.Text? && v.state == AsciiLower(field.s) && IsValidState(v.state) &&
              FindDevice(devices, name) == Some(v.device) && (v.turnOn <==> v.state == "on")
  {
    match field
    case NotText => Rejected(Response(500, InternalError))
    case Missing => Rejected(InvalidState)
    case Text(s) =>
      var state := AsciiLower(s);
      if !IsValidState(state) then Rejected(InvalidState)
      else
        match FindDevice(devices, name)
        case None => Rejected(DeviceNotFound)
        case Some(d) => Accepted(d, state, state == "on")
  }

  /**
   `control_device_power`: the validation answer, or the command's outcome —
   200 with the device name and state on success, 500 with the library's
   message on failure. `outcome` is what `set_status(state == "on")` did.
   */
  function ControlDevicePower(devices: seq<DeviceConfig>, name: string, field: StateField, outcome: CommandOutcome): (r: Response)
    ensures r.status in {200, 400, 404, 500}
    ensures r.status == 200 <==> ValidatePowerRequest(devices, name, field).Accepted? && outcome.Done?
    ensures r.status == 200 ==> r.body == Switched(name, AsciiLower(field.s))
    ensures ValidatePowerRequest(devices, name, field).Accepted? && outcome.Failed? ==>
              r == Response(500, Error(outcome.message))
    ensures ValidatePowerRequest(devices, name, field).Rejected? ==>
              r == ValidatePowerRequest(devices, name, field).response
  {
    match ValidatePowerRequest(devices, name, field)
    case Rejected(response) => response
    case Accepted(_, state, _) =>
      match outcome
      case Done => Response(200, Switched(name, state))
      case Failed(message) => Response(500, Error(message))
  }

  /**
   An invalid state gets the same 400 answer for any registry, any device
   name and any command outcome: no lookup and no command happen before it.
   */
  lemma InvalidStateComesFirst(devices1: seq<DeviceConfig>, name1: string, outcome1: CommandOutcome,
                               devices2: seq<DeviceConfig>, name2: string, outcome2: CommandOutcome, s: string)
    requires !IsValidState(AsciiLower(s))
    ensures ControlDevicePower(devices1, name1, Text(s), outcome1) == InvalidState
    ensures ControlDevicePower(devices1, name1, Text(s), outcome1) ==
            ControlDevicePower(devices2, name2, Text(s), outcome2)
  {
  }

  /** With a valid state, 404 comes exactly for names no configured device has. */
  lemma UnknownDeviceIsNotFound(devices: seq<DeviceConfig>, name: string, s: string, outcome: CommandOutcome)
    requires IsValidState(AsciiLower(s))
    ensures ControlDevicePower(devices, name, Text(s), outcome).status == 404 <==>
            forall i :: 0 <= i < |devices| ==> devices[i].name != name
  {
  }
}
