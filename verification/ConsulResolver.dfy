/** The Consul resolver's own fields and the sections of its methods that run under `mu`, each proved against the
    corresponding function of ResolverSteps. */
module ConsulResolver {
  import opened Addresses
  import opened Optional
  import Steps = ResolverSteps

  // 5 * time.Second, in nanoseconds
  const DEFAULT_DEBOUNCE := 5_000_000_000

  // The armed timers once the current one was stopped.
  function Stopped(armed: set<nat>, timer: Option<nat>): set<nat> {
    if timer.Some? then armed - {timer.value} else armed
  }

  class Resolver {
    const debounceDuration: int
    var serviceName: string
    var lastIndex: nat
    var lastAddresses: seq<Address>
    var pendingAddresses: Option<seq<Address>>
    var debounceTimer: Option<nat>
    var lastInstanceCount: nat
    // The runtime's timers: those that may still fire, and how many were created.
    var armedTimers: set<nat>
    var timersCreated: nat

    ghost function Fields(): Steps.Fields
      reads this
    {
      Steps.Fields(serviceName, lastIndex, lastAddresses, pendingAddresses, debounceTimer, armedTimers, timersCreated)
    }

    /** A zero debounce period means the default one; a negative one means none. */
    constructor (configuredDebounce: int)
      ensures debounceDuration == if configuredDebounce == 0 then DEFAULT_DEBOUNCE else configuredDebounce
      ensures Fields() == Steps.INIT.fields
    {
      debounceDuration := if configuredDebounce == 0 then DEFAULT_DEBOUNCE else configuredDebounce;
      serviceName := "";
      lastIndex := 0;
      lastAddresses := [];
      pendingAddresses := None;
      debounceTimer := None;
      lastInstanceCount := 0;
      armedTimers := {};
      timersCreated := 0;
    }

    // Timer.Stop on the current timer.
    method StopDebounceTimer()
      modifies this`armedTimers
      ensures Fields() == Steps.StopTimer(old(Fields()))
      ensures armedTimers == Stopped(old(armedTimers), debounceTimer)
    {
      if debounceTimer.Some? {
        armedTimers := armedTimers - {debounceTimer.value};
      }
    }

    // time.AfterFunc: a new timer, armed at once.
    method AfterFunc() returns (timer: nat)
      modifies this`armedTimers, this`timersCreated
      ensures timer == old(timersCreated)
      ensures Fields() == old(Fields()).(armed := old(armedTimers) + {timer}, nextTimer := timer + 1)
    {
      timer := timersCreated;
      armedTimers := armedTimers + {timer};
      timersCreated := timersCreated + 1;
    }

    /** The rename in watchKV and in updateServiceNameFromKV. */
    method Rename(name: string) returns (renamed: bool)
      modifies this`serviceName, this`lastIndex
      ensures Fields() == Steps.Rename(old(Fields()), name)
      ensures renamed <==> name != "" && name != old(serviceName)
      ensures renamed ==> serviceName == name && lastIndex == 0
      ensures !renamed ==> serviceName == old(serviceName) && lastIndex == old(lastIndex)
    {
      renamed := false;
      if name != "" && name != serviceName {
        serviceName := name;
        lastIndex := 0;
        renamed := true;
      }
    }

    /** The first locked section of discover: what the blocking query will ask for. */
    method DiscoverSnapshot() returns (service: string, waitIndex: nat)
      ensures service == Fields().serviceName && waitIndex == Fields().lastIndex
    {
      service := serviceName;
      waitIndex := lastIndex;
    }

    /** The second locked section of discover: an answer for a service that is no longer the current one is ignored. */
    method DiscoverAccept(service: string, index: nat, services: seq<ServiceEntry>)
      returns (addresses: Option<seq<Address>>)
      modifies this`lastIndex, this`lastInstanceCount
      ensures Fields() == Steps.Accept(old(Fields()), service, index)
      ensures lastIndex == if service == old(serviceName) then index else old(lastIndex)
      ensures addresses.Some? <==> service == old(serviceName)
      ensures addresses.Some? ==> ConvertedFrom(addresses.value, services) && lastInstanceCount == |services|
      ensures addresses.None? ==> lastInstanceCount == old(lastInstanceCount)
    {
      if service != serviceName {
        return None;
      }
      lastIndex := index;
      var converted := ConvertToTCPAddresses(services);
      lastInstanceCount := |converted|;
      addresses := Some(converted);
    }

    /** scheduleAddressUpdate: `publish` says that the list was committed here and must be sent under the lock. */
    method ScheduleAddressUpdate(addresses: seq<Address>) returns (publish: bool)
      modifies this
      ensures Fields() == Steps.Schedule(debounceDuration, old(Fields()), addresses)
      ensures publish <==> debounceDuration <= 0 && multiset(old(lastAddresses)) != multiset(addresses)
      ensures lastAddresses == if publish then addresses else old(lastAddresses)
      ensures multiset(old(lastAddresses)) == multiset(addresses) ==> pendingAddresses.None?
      ensures publish || pendingAddresses.None? ==>
        debounceTimer == None && armedTimers == Stopped(old(armedTimers), old(debounceTimer))
      ensures !publish && multiset(old(lastAddresses)) != multiset(addresses) ==>
        && pendingAddresses == Some(addresses) && debounceTimer == Some(old(timersCreated))
        && armedTimers == Stopped(old(armedTimers), old(debounceTimer)) + {old(timersCreated)}
        && timersCreated == old(timersCreated) + 1
      ensures lastInstanceCount == old(lastInstanceCount)
    {
      if debounceTimer.Some? {
        StopDebounceTimer();
        debounceTimer := None;
      }
      var equal := AreAddressesEqual(lastAddresses, addresses);
      if equal {
        pendingAddresses := None;
        return false;
      }
      if debounceDuration <= 0 {
        lastAddresses := addresses;
        return true;
      }
      pendingAddresses := Some(addresses);
      var timer := AfterFunc();
      debounceTimer := Some(timer);
      publish := false;
    }

    /** The locked section of a timer's callback; a nil result leaves nothing to send. */
    method CommitPending() returns (addresses: Option<seq<Address>>)
      modifies this`lastAddresses, this`pendingAddresses
      ensures Fields() == Steps.Commit(old(Fields()))
      ensures addresses == old(pendingAddresses)
      ensures lastAddresses == if addresses.Some? then addresses.value else old(lastAddresses)
      ensures pendingAddresses.None?
    {
      addresses := pendingAddresses;
      if addresses.None? {
        return;
      }
      lastAddresses := addresses.value;
      pendingAddresses := None;
    }
  }
}
