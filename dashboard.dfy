/**
 The dashboard route's lazy start of the pollers: the first request starts one
 polling thread per configured device, and a module-level flag keeps later
 requests from starting any more.
 */
module Dashboard {
  import opened Devices

  class Server {
    /** `polling_started`. */
    var pollingStarted: bool
    /** The devices a polling thread has been started for, in start order. */
    var pollers: seq<DeviceConfig>

    /** Threads exist exactly once the flag is set, one per configured device. */
    ghost predicate Valid()
      reads this
    {
      pollers == if pollingStarted then Registry else []
    }

    constructor ()
      ensures Valid() && !pollingStarted
    {
      pollingStarted := false;
      pollers := [];
    }

    /**
     `dashboard`: starts the pollers when the flag is clear, then sets it. The
     answer lists the devices started by this call: all of them on the first
     call, none on any later one.
     */
    method HandleDashboard() returns (started: seq<DeviceConfig>)
      requires Valid()
      modifies this
      ensures Valid() && pollingStarted
      ensures started == if old(pollingStarted) then [] else Registry
      ensures pollers == old(pollers) + started
    {
      started := [];
      if !pollingStarted {
        var i := 0;
        while i < |Registry|
          invariant 0 <= i <= |Registry|
          invariant started == Registry[..i]
          invariant pollers == started
        {
          pollers := pollers + [Registry[i]];
          started := started + [Registry[i]];
          i := i + 1;
        }
        pollingStarted := true;
      }
    }
  }

  /** Two requests in a row start every poller exactly once. */
  method TwoRequests() returns (first: seq<DeviceConfig>, second: seq<DeviceConfig>)
    ensures first == Registry && second == []
  {
    var server := new Server();
    first := server.HandleDashboard();
    second := server.HandleDashboard();
  }
}
