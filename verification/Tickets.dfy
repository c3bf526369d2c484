/** The round-robin counter: `next` is an atomic load followed by a separate atomic add. */
module Tickets {
  import opened Counting
  import opened Integers

  type uint64 = x: nat | x < TWO_64

  // ----- calls that overlap

  // Calls of next are numbered; each has one load and, later, one add.
  datatype Event = Load(call: nat) | Add(call: nat)

  ghost predicate MayFollow(past: seq<Event>, e: Event) {
    match e
    case Load(call) => Load(call) !in past
    case Add(call) => Load(call) in past && Add(call) !in past
  }

  ghost predicate Interleaving(trace: seq<Event>) {
    trace == [] || (Interleaving(trace[..|trace| - 1]) && MayFollow(trace[..|trace| - 1], trace[|trace| - 1]))
  }

  lemma {:induction false} InterleavingAt(trace: seq<Event>, i: nat)
    requires Interleaving(trace) && i <= |trace|
    ensures Interleaving(trace[..i])
    ensures i < |trace| ==> MayFollow(trace[..i], trace[i])
  {
    if i == |trace| {
      assert trace[..i] == trace;
    } else if i < |trace| - 1 {
      var shorter := trace[..|trace| - 1];
      InterleavingAt(shorter, i);
      assert shorter[..i] == trace[..i];
    }
  }

  datatype Counter = Counter(value: uint64, tickets: map<nat, uint64>)

  function Happen(c: Counter, e: Event): Counter {
    match e
    case Load(call) => c.(tickets := c.tickets[call := c.value])
    case Add(call) => c.(value := (c.value + 1) % TWO_64)
  }

  function Run(trace: seq<Event>): Counter {
    if trace == [] then Counter(0, map[])
    else Happen(Run(trace[..|trace| - 1]), trace[|trace| - 1])
  }

  function Adds(trace: seq<Event>): nat {
    if trace == [] then 0
    else Adds(trace[..|trace| - 1]) + (if trace[|trace| - 1].Add? then 1 else 0)
  }

  // The calls that have loaded and not yet added.
  ghost function Open(trace: seq<Event>): set<nat> {
    set e | e in trace && e.Load? && Add(e.call) !in trace :: e.call
  }

  ghost function Started(trace: seq<Event>): set<nat> {
    set e | e in trace && e.Load? :: e.call
  }

  lemma {:induction false} ValueCountsAdds(trace: seq<Event>)
    ensures Run(trace).value == Adds(trace) % TWO_64
  {
    if trace != [] {
      ValueCountsAdds(trace[..|trace| - 1]);
    }
  }

  /** A ticket is the number of adds that happened before its call's load. */
  lemma {:induction false} TicketIsAddsBeforeLoad(trace: seq<Event>, i: nat)
    requires Interleaving(trace) && i < |trace| && trace[i].Load?
    ensures trace[i].call in Run(trace).tickets
    ensures Run(trace).tickets[trace[i].call] == Adds(trace[..i]) % TWO_64
  {
    var last := |trace| - 1;
    if i == last {
      ValueCountsAdds(trace[..i]);
    } else {
      var shorter := trace[..last];
      assert shorter[..i] == trace[..i];
      TicketIsAddsBeforeLoad(shorter, i);
      assert trace[i] == shorter[i] && shorter[i] in shorter;
    }
  }

  lemma {:induction false} AddsGrow(trace: seq<Event>, i: nat, j: nat)
    requires i <= j <= |trace|
    ensures Adds(trace[..i]) <= Adds(trace[..j])
    ensures (exists k :: i <= k < j && trace[k].Add?) ==> Adds(trace[..i]) < Adds(trace[..j])
    decreases j - i
  {
    if i < j {
      AddsGrow(trace, i, j - 1);
      assert trace[..j][..j - 1] == trace[..j - 1];
    }
  }

  // No event happens twice.
  lemma EventIsNew(trace: seq<Event>, i: nat, k: nat)
    requires Interleaving(trace) && i < |trace| && k < |trace| && trace[k] == trace[i]
    ensures i <= k
  {
    InterleavingAt(trace, i);
    forall m | 0 <= m < i
      ensures trace[m] != trace[i]
    {
      assert trace[..i][m] == trace[m];
    }
  }

  lemma LoadComesFirst(trace: seq<Event>, i: nat, add: nat)
    requires Interleaving(trace) && i < |trace| && add < |trace|
    requires trace[i].Load? && trace[add] == Add(trace[i].call)
    ensures i < add
  {
    InterleavingAt(trace, add);
    var k :| 0 <= k < add && trace[..add][k] == trace[i];
    EventIsNew(trace, i, k);
  }

  lemma {:induction false} NoAddsBetween(trace: seq<Event>, i: nat, j: nat)
    requires i <= j <= |trace|
    ensures Adds(trace[..i]) == Adds(trace[..j]) <==> forall k :: i <= k < j ==> trace[k].Load?
    decreases j - i
  {
    if i < j {
      NoAddsBetween(trace, i, j - 1);
      AddsGrow(trace, i, j - 1);
      assert trace[..j][..j - 1] == trace[..j - 1];
    }
  }

  lemma TicketsMatchAdds(trace: seq<Event>, i: nat, j: nat)
    requires Interleaving(trace) && Adds(trace) < TWO_64
    requires i < j < |trace| && trace[i].Load? && trace[j].Load?
    ensures trace[i].call in Run(trace).tickets && trace[j].call in Run(trace).tickets
    ensures Run(trace).tickets[trace[i].call] == Adds(trace[..i]) <= Adds(trace[..j])
    ensures Run(trace).tickets[trace[j].call] == Adds(trace[..j])
  {
    TicketIsAddsBeforeLoad(trace, i);
    TicketIsAddsBeforeLoad(trace, j);
    AddsGrow(trace, i, j);
    assert trace[..|trace|] == trace;
    AddsGrow(trace, j, |trace|);
  }

  /** A call that returned before another began has the smaller ticket, until the counter wraps. */
  lemma FinishedCallsHaveSmallerTickets(trace: seq<Event>, i: nat, add: nat, j: nat)
    requires Interleaving(trace) && Adds(trace) < TWO_64
    requires i < |trace| && add < j < |trace|
    requires trace[i].Load? && trace[add] == Add(trace[i].call) && trace[j].Load?
    ensures trace[i].call in Run(trace).tickets && trace[j].call in Run(trace).tickets
    ensures Run(trace).tickets[trace[i].call] < Run(trace).tickets[trace[j].call]
  {
    LoadComesFirst(trace, i, add);
    TicketsMatchAdds(trace, i, j);
    NoAddsBetween(trace, i, j);
  }

  /** Two calls share a ticket if and only if nothing was added between their loads, until the counter wraps; both
      calls are then open together. */
  lemma EqualTicketsMeanOverlap(trace: seq<Event>, i: nat, j: nat)
    requires Interleaving(trace) && Adds(trace) < TWO_64
    requires i < j < |trace| && trace[i].Load? && trace[j].Load?
    ensures trace[i].call in Run(trace).tickets && trace[j].call in Run(trace).tickets
    ensures Run(trace).tickets[trace[i].call] == Run(trace).tickets[trace[j].call] <==>
      forall k :: i < k < j ==> trace[k].Load?
    ensures Run(trace).tickets[trace[i].call] == Run(trace).tickets[trace[j].call] ==>
      {trace[i].call, trace[j].call} <= Open(trace[..j + 1])
  {
    TicketsMatchAdds(trace, i, j);
    NoAddsBetween(trace, i, j);
    if forall k :: i <= k < j ==> trace[k].Load? {
      StillOpen(trace, i, j);
      StillOpen(trace, j, j);
    }
  }

  lemma StillOpen(trace: seq<Event>, i: nat, j: nat)
    requires Interleaving(trace) && i <= j < |trace| && forall k :: i <= k <= j ==> trace[k].Load?
    ensures trace[i].call in Open(trace[..j + 1])
  {
    var past := trace[..j + 1];
    assert past[i] == trace[i] && past[i] in past;
    forall k | 0 <= k <= j
      ensures past[k] != Add(trace[i].call)
    {
      if trace[k] == Add(trace[i].call) {
        LoadComesFirst(trace, i, k);
      }
    }
  }

  // An Add needs its call's Load before it.
  lemma {:induction false} NoAddBeforeLoad(trace: seq<Event>, call: nat)
    requires Interleaving(trace) && Load(call) !in trace
    ensures Add(call) !in trace
  {
    if trace != [] {
      var past := trace[..|trace| - 1];
      assert forall x :: x in past ==> x in trace;
      NoAddBeforeLoad(past, call);
      assert trace == past + [trace[|trace| - 1]];
    }
  }

  lemma OpenGrows(past: seq<Event>, e: Event)
    requires Interleaving(past) && MayFollow(past, e)
    ensures Started(past + [e]) == if e.Load? then Started(past) + {e.call} else Started(past)
    ensures Open(past + [e]) == if e.Load? then Open(past) + {e.call} else Open(past) - {e.call}
    ensures e.Load? ==> e.call !in Started(past) && e.call !in Open(past)
    ensures e.Add? ==> e.call in Open(past)
  {
    if e.Load? {
      NoAddBeforeLoad(past, e.call);
    }
  }

  lemma {:induction false} OpenCallsAreStartedMinusAdded(trace: seq<Event>)
    requires Interleaving(trace)
    ensures |Started(trace)| == Adds(trace) + |Open(trace)|
  {
    if trace != [] {
      var past, e := trace[..|trace| - 1], trace[|trace| - 1];
      OpenCallsAreStartedMinusAdded(past);
      assert trace == past + [e];
      OpenGrows(past, e);
    }
  }

  /** A ticket lags behind the number of calls started before it by exactly the calls still open at its load. */
  lemma TicketLagsByOpenCalls(trace: seq<Event>, i: nat)
    requires Interleaving(trace) && i < |trace| && trace[i].Load? && Adds(trace[..i]) < TWO_64
    ensures trace[i].call in Run(trace).tickets
    ensures Run(trace).tickets[trace[i].call] + |Open(trace[..i])| == |Started(trace[..i])|
  {
    TicketIsAddsBeforeLoad(trace, i);
    InterleavingAt(trace, i);
    OpenCallsAreStartedMinusAdded(trace[..i]);
  }

  /** With no call open the counter holds the number of calls, modulo 2^64. */
  lemma QuiescentCounter(trace: seq<Event>)
    requires Interleaving(trace) && Open(trace) == {}
    ensures Run(trace).value == |Started(trace)| % TWO_64
  {
    ValueCountsAdds(trace);
    OpenCallsAreStartedMinusAdded(trace);
  }

  // ----- calls one after another

  // int(v) for a uint64 v, and Go's remainder, which takes the sign of its left operand.
  function ToInt64(v: uint64): int {
    if v < TWO_63 then v else v - TWO_64
  }

  function GoRemainder(a: int, n: nat): int
    requires n > 0
  {
    if a >= 0 then a % n else -((-a) % n)
  }

  function Pick(ticket: uint64, n: nat): int
    requires n > 0
  {
    GoRemainder(ToInt64(ticket), n)
  }

  /** The index is in range exactly below 2^63 and at those larger tickets that happen to reach a multiple of n. */
  lemma PickInRangeIff(ticket: uint64, n: nat)
    requires n > 0
    ensures 0 <= Pick(ticket, n) < n <==> ticket < TWO_63 || (TWO_64 - ticket) % n == 0
  {
  }

  // How many of the k tickets from `start` on pick connection j.
  function Share(start: nat, k: nat, n: nat, j: nat): nat
    requires n > 0 && start + k <= TWO_63
  {
    if k == 0 then 0
    else Share(start, k - 1, n, j) + (if Pick(start + k - 1, n) == j then 1 else 0)
  }

  lemma QuotientStep(a: nat, n: nat)
    requires n > 0
    ensures (a + 1) / n == a / n + (if (a + 1) % n == 0 then 1 else 0)
  {
    var q, r := a / n, a % n;
    assert a == q * n + r;
    if r + 1 == n {
      assert a + 1 == (q + 1) * n;
      DivisionIsUnique(a + 1, n, q + 1, 0);
    } else {
      DivisionIsUnique(a + 1, n, q, r + 1);
    }
  }

  lemma MultipleIsFar(d: int, n: nat)
    ensures d >= 1 ==> d * n >= n
    ensures d <= -1 ==> d * n <= -(n as int)
  {
  }

  lemma DivisionIsUnique(a: nat, n: nat, q: nat, r: nat)
    requires n > 0 && a == q * n + r && r < n
    ensures a / n == q && a % n == r
  {
    var d := a / n - q;
    assert d * n == r - a % n by {
      assert a == (a / n) * n + a % n;
      assert d * n == (a / n) * n - q * n;
    }
    MultipleIsFar(d, n);
  }

  lemma ResidueShift(m: nat, n: nat, j: nat)
    requires j < n
    ensures (m + n - j) % n == 0 <==> m % n == j
  {
    var q, r := m / n, m % n;
    assert m == q * n + r;
    if r >= j {
      assert m + n - j == (q + 1) * n + (r - j);
      DivisionIsUnique(m + n - j, n, q + 1, r - j);
    } else {
      assert m + n - j == q * n + (r + n - j);
      DivisionIsUnique(m + n - j, n, q, r + n - j);
    }
  }

  lemma {:induction false} ShareInClosedForm(start: nat, k: nat, n: nat, j: nat)
    requires j < n && start + k <= TWO_63
    ensures Share(start, k, n, j) == (start + k + n - 1 - j) / n - (start + n - 1 - j) / n
  {
    if k > 0 {
      ShareInClosedForm(start, k - 1, n, j);
      QuotientStep(start + k - 1 + n - 1 - j, n);
      ResidueShift(start + k - 1, n, j);
    }
  }

  lemma QuotientParts(qb: nat, rb: nat, qk: nat, rk: nat, n: nat)
    requires rb < n && rk < n
    ensures (qb * n + rb + (qk * n + rk)) / n == qb + qk + (if rb + rk < n then 0 else 1)
    ensures (qk * n + rk + n - 1) / n == qk + (if rk == 0 then 0 else 1)
  {
    var carry := if rb + rk < n then 0 else 1;
    assert qb * n + rb + (qk * n + rk) == (qb + qk + carry) * n + (rb + rk - carry * n);
    DivisionIsUnique(qb * n + rb + (qk * n + rk), n, qb + qk + carry, rb + rk - carry * n);
    var up := if rk == 0 then 0 else 1;
    assert qk * n + rk + n - 1 == (qk + up) * n + (rk + n - 1 - up * n);
    DivisionIsUnique(qk * n + rk + n - 1, n, qk + up, rk + n - 1 - up * n);
  }

  lemma QuotientOfSum(b: nat, k: nat, n: nat)
    requires n > 0
    ensures k / n <= (b + k) / n - b / n <= (k + n - 1) / n
  {
    var qb, rb, qk, rk := b / n, b % n, k / n, k % n;
    assert b == qb * n + rb && k == qk * n + rk;
    QuotientParts(qb, rb, qk, rk, n);
  }

  /** Any k publishes in a row pick each of n connections floor(k/n) or ceil(k/n) times. */
  lemma RoundRobinIsFair(start: nat, k: nat, n: nat, j: nat)
    requires j < n && start + k <= TWO_63
    ensures k / n <= Share(start, k, n, j) <= (k + n - 1) / n
  {
    ShareInClosedForm(start, k, n, j);
    QuotientOfSum(start + n - 1 - j, k, n);
  }

  // ----- publishes one after another

  // execMultiConn finds a connection for the ticket.
  predicate InRange(ticket: uint64, n: nat) {
    n > 0 && 0 <= Pick(ticket, n) < n
  }

  // One publish over these connections: the counter goes from value to value' and conn is picked.
  ghost predicate Picked(conns: seq<nat>, value: uint64, value': uint64, conn: nat) {
    InRange(value, |conns|) && value' == (value + 1) % TWO_64 && conn == conns[Pick(value, |conns|)]
  }

  // Publishes in a row on one generation, with the counter's values before, between and after them.
  ghost predicate PickedInARow(conns: seq<nat>, values: seq<uint64>, picked: seq<nat>) {
    && |values| == |picked| + 1
    && forall i :: 0 <= i < |picked| ==> Picked(conns, values[i], values[i + 1], picked[i])
  }

  lemma {:induction false} ValuesInARow(conns: seq<nat>, values: seq<uint64>, picked: seq<nat>, i: nat)
    requires PickedInARow(conns, values, picked) && values[0] + |picked| <= TWO_63 && i < |values|
    ensures values[i] == values[0] + i
  {
    if i > 0 {
      ValuesInARow(conns, values, picked, i - 1);
      assert Picked(conns, values[i - 1], values[i], picked[i - 1]);
    }
  }

  lemma {:induction false} CountIsShare(conns: seq<nat>, values: seq<uint64>, picked: seq<nat>, j: nat)
    requires PickedInARow(conns, values, picked) && values[0] + |picked| <= TWO_63
    requires NoDuplicates(conns) && j < |conns|
    ensures Count(picked, conns[j]) == Share(values[0], |picked|, |conns|, j)
  {
    if picked != [] {
      var k := |picked| - 1;
      ValuesInARow(conns, values, picked, k);
      assert PickedInARow(conns, values[..k + 1], picked[..k]);
      CountIsShare(conns, values[..k + 1], picked[..k], j);
      CountOneMore(picked[..k], picked[k]);
      assert picked == picked[..k] + [picked[k]];
      assert Picked(conns, values[k], values[k + 1], picked[k]);
    }
  }

  /** On a fixed generation any k publishes in a row, none of them overlapping, pick each of its n connections
      floor(k/n) or ceil(k/n) times. */
  lemma PublishesAreFair(conns: seq<nat>, values: seq<uint64>, picked: seq<nat>, j: nat)
    requires PickedInARow(conns, values, picked) && values[0] + |picked| <= TWO_63
    requires NoDuplicates(conns) && j < |conns|
    ensures |picked| / |conns| <= Count(picked, conns[j]) <= (|picked| + |conns| - 1) / |conns|
  {
    CountIsShare(conns, values, picked, j);
    RoundRobinIsFair(values[0], |picked|, |conns|, j);
  }

  class AtomicCounter {
    var value: uint64

    constructor ()
      ensures value == 0
    {
      value := 0;
    }

    /** next, run without interference. */
    method Next() returns (current: uint64)
      modifies this
      ensures current == old(value)
      ensures value == (old(value) + 1) % TWO_64
    {
      current := value;
      value := (value + 1) % TWO_64;
    }
  }
}
