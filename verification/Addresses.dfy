/** Broker addresses and the order-insensitive comparison of two address lists. */
module Addresses {

  // Go's uint16
  type Port = p: nat | p < 0x1_0000

  datatype Address = Address(host: string, port: Port)

  // The part of a Consul health entry that is read.
  datatype ServiceEntry = ServiceEntry(serviceAddress: string, nodeAddress: string, servicePort: int)

  // uint16(port): the low sixteen bits of a two's complement integer.
  function TruncateToPort(port: int): Port {
    port % 0x1_0000
  }

  // Reading a Go map of counters: a missing key reads as zero.
  function Lookup(counts: map<Address, nat>, address: Address): nat {
    if address in counts then counts[address] else 0
  }

  ghost predicate Tallies(counts: map<Address, nat>, list: seq<Address>) {
    forall x :: Lookup(counts, x) == multiset(list)[x]
  }

  lemma TallyOneMore(list: seq<Address>, i: nat)
    requires i < |list|
    ensures multiset(list[..i + 1]) == multiset(list[..i])[list[i] := multiset(list[..i])[list[i]] + 1]
  {
    assert list[..i + 1] == list[..i] + [list[i]];
  }

  // One loop of areAddressesEqual.
  method Tally(list: seq<Address>) returns (counts: map<Address, nat>)
    ensures Tallies(counts, list)
  {
    counts := map[];
    for i := 0 to |list|
      invariant Tallies(counts, list[..i])
    {
      TallyOneMore(list, i);
      counts := counts[list[i] := Lookup(counts, list[i]) + 1];
    }
    assert list[..|list|] == list;
  }

  // A multiset with the same size as another and the same multiplicity for each of its own members has no room
  // left for a member of its own that the other lacks.
  lemma SameCountsAndSize(a: multiset<Address>, b: multiset<Address>)
    requires |a| == |b|
    requires forall x :: x in a ==> b[x] == a[x]
    ensures a == b
  {
    assert a <= b;
    assert a - b == multiset{};
    assert |b - a| == 0;
  }

  /** Only the first list's keys are compared, yet the answer is exact: equal lengths leave the second list no room
      for an address the first one lacks. */
  method AreAddressesEqual(a: seq<Address>, b: seq<Address>) returns (equal: bool)
    ensures equal <==> multiset(a) == multiset(b)
  {
    if |a| != |b| {
      assert |multiset(a)| == |a| && |multiset(b)| == |b|;
      return false;
    }
    var countsA := Tally(a);
    var countsB := Tally(b);
    var remaining := countsA.Keys;
    while remaining != {}
      invariant remaining <= countsA.Keys
      invariant forall x :: x in countsA && x !in remaining ==> Lookup(countsB, x) == Lookup(countsA, x)
    {
      var x :| x in remaining;
      if Lookup(countsB, x) != countsA[x] {
        assert Lookup(countsA, x) != Lookup(countsB, x);
        return false;
      }
      remaining := remaining - {x};
    }
    forall x | x in multiset(a)
      ensures multiset(b)[x] == multiset(a)[x]
    {
      assert Lookup(countsA, x) == multiset(a)[x];
    }
    SameCountsAndSize(multiset(a), multiset(b));
    equal := true;
  }

  // Each address is the health entry's own, with the node's host standing in for a missing one and the port truncated
  // to sixteen bits.
  ghost predicate ConvertedFrom(addresses: seq<Address>, services: seq<ServiceEntry>) {
    && |addresses| == |services|
    && forall i :: 0 <= i < |services| ==> (
      && addresses[i].host ==
         (if services[i].serviceAddress == "" then services[i].nodeAddress else services[i].serviceAddress)
      && (addresses[i].port - services[i].servicePort) % 0x1_0000 == 0)
  }

  method ConvertToTCPAddresses(services: seq<ServiceEntry>) returns (addresses: seq<Address>)
    ensures ConvertedFrom(addresses, services)
  {
    addresses := [];
    for i := 0 to |services|
      invariant ConvertedFrom(addresses, services[..i])
    {
      var host := services[i].serviceAddress;
      if host == "" {
        host := services[i].nodeAddress;
      }
      addresses := addresses + [Address(host, TruncateToPort(services[i].servicePort))];
    }
    assert services[..|services|] == services;
  }
}
