/** In which order the lists of the Consul resolver reach the receiver. */
module ResolverDelivery {
  import opened Optional
  import opened ResolverSteps
  import opened ResolverRuns
  import opened ResolverScenarios
  import opened ResolverTheorems

  // ----- leaving the select

  // No commit leaves its select before an older one has left.
  ghost predicate InCommitOrder(trace: seq<Event>) {
    forall i :: 0 <= i < |trace| && (trace[i].Sent? || trace[i].Dropped?) ==>
      forall older: nat :: older < trace[i].commit ==> Settled(trace[..i], older)
  }

  /** Leaving a select keeps the commit order if and only if no goroutine still holds an older commit. */
  lemma DeliveryInOrderIff(debounce: int, s: State, step: Step)
    requires Reachable(debounce, s) && Enabled(s, step) && (step.PublishStep? || step.SendStep?)
    ensures InCommitOrder(Next(debounce, s, step).trace) <==>
      InCommitOrder(s.trace) && forall w, older: nat :: older < LeaverCommit(s, step) ==> !Holds(s, w, older)
  {
    ReachableStatesSatisfyInv(debounce, s);
    var commit := LeaverCommit(s, step);
    assert Holds(s, LeaverOf(step), commit);
    InOrderGrows(s.trace, if step.sent then Sent(commit) else Dropped(commit));
    forall older: nat | older < commit
      ensures Settled(s.trace, older) <==> forall w :: !Holds(s, w, older)
    {
      EveryCommitIsAccountedFor(debounce, s, older);
    }
  }

  lemma InOrderGrows(trace: seq<Event>, e: Event)
    requires e.Sent? || e.Dropped?
    ensures InCommitOrder(trace + [e]) <==>
      InCommitOrder(trace) && forall older: nat :: older < e.commit ==> Settled(trace, older)
  {
    var longer := trace + [e];
    assert longer[..|trace|] == trace && longer[|trace|] == e;
    forall i | 0 <= i < |trace|
      ensures longer[..i] == trace[..i] && longer[i] == trace[i]
    {
    }
    if InCommitOrder(longer) {
      forall i | 0 <= i < |trace| && (trace[i].Sent? || trace[i].Dropped?)
        ensures forall older: nat :: older < trace[i].commit ==> Settled(trace[..i], older)
      {
        assert longer[i] == trace[i];
      }
    }
  }

  // ----- from the sends to the receives

  // The commits sent and those received, in order.
  function SentList(trace: seq<Event>): seq<nat> {
    if trace == [] then []
    else
      var earlier, e := SentList(trace[..|trace| - 1]), trace[|trace| - 1];
      if e.Sent? then earlier + [e.commit] else earlier
  }

  function ReceivedList(trace: seq<Event>): seq<nat> {
    if trace == [] then []
    else
      var earlier, e := ReceivedList(trace[..|trace| - 1]), trace[|trace| - 1];
      if e.Received? then earlier + [e.commit] else earlier
  }

  lemma ListsGrow(trace: seq<Event>, e: Event)
    ensures SentList(trace + [e]) == if e.Sent? then SentList(trace) + [e.commit] else SentList(trace)
    ensures ReceivedList(trace + [e]) == if e.Received? then ReceivedList(trace) + [e.commit] else ReceivedList(trace)
  {
    assert (trace + [e])[..|trace|] == trace;
  }

  // What was sent is what was received and what the channel still holds.
  ghost predicate Conveyed(s: State) {
    SentList(s.trace) == ReceivedList(s.trace) + s.channel
  }

  // A step that moves nothing into the channel or out of it.
  predicate LeavesChannel(step: Step) {
    !step.PublishStep? && !step.SendStep? && !step.ReceiveStep?
  }

  lemma ChannelKept(debounce: int, s: State, step: Step)
    requires Enabled(s, step) && LeavesChannel(step)
    ensures Next(debounce, s, step).channel == s.channel
    ensures forall e :: e in EventsOf(debounce, s, step) ==> !e.Sent? && !e.Received?
  {
  }

  lemma {:induction false} ListsKept(trace: seq<Event>, added: seq<Event>)
    requires forall e :: e in added ==> !e.Sent? && !e.Received?
    ensures SentList(trace + added) == SentList(trace) && ReceivedList(trace + added) == ReceivedList(trace)
  {
    if added == [] {
      assert trace + added == trace;
    } else {
      var fewer, last := added[..|added| - 1], added[|added| - 1];
      ListsKept(trace, fewer);
      ListsGrow(trace + fewer, last);
      assert trace + added == trace + fewer + [last];
    }
  }

  lemma ConveyedLeft(s: State, s': State, commit: nat, sent: bool)
    requires Conveyed(s) && s'.trace == s.trace + [LeaveEvent(commit, sent)]
    requires s'.channel == if sent then s.channel + [commit] else s.channel
    ensures Conveyed(s')
  {
    ListsGrow(s.trace, LeaveEvent(commit, sent));
  }

  lemma ConveyedReceived(s: State, s': State)
    requires Conveyed(s) && |s.channel| > 0
    requires s'.channel == s.channel[1..] && s'.trace == s.trace + [Received(s.channel[0])]
    ensures Conveyed(s')
  {
    ListsGrow(s.trace, Received(s.channel[0]));
  }

  lemma ConveyedKept(debounce: int, s: State, step: Step)
    requires Conveyed(s) && Enabled(s, step)
    ensures Conveyed(Next(debounce, s, step))
  {
    if LeavesChannel(step) {
      ChannelKept(debounce, s, step);
      EventsGrow(debounce, s, step);
      ListsKept(s.trace, EventsOf(debounce, s, step));
    } else if step.ReceiveStep? {
      ConveyedReceived(s, Next(debounce, s, step));
    } else {
      EventsGrow(debounce, s, step);
      ConveyedLeft(s, Next(debounce, s, step), LeaverCommit(s, step), step.sent);
    }
  }

  lemma {:induction false} ConveyedInRuns(debounce: int, s: State, steps: seq<Step>)
    requires Conveyed(s) && Exec(debounce, s, steps).Some?
    ensures Conveyed(Exec(debounce, s, steps).value)
    decreases |steps|
  {
    if steps != [] {
      ConveyedKept(debounce, s, steps[0]);
      ConveyedInRuns(debounce, Next(debounce, s, steps[0]), steps[1..]);
    }
  }

  /** Receiving is first in, first out: the commits received are the commits sent but for what is in the channel. */
  lemma ReceivedAsSent(debounce: int, s: State)
    requires Reachable(debounce, s)
    ensures SentList(s.trace) == ReceivedList(s.trace) + s.channel && |s.channel| <= 1
  {
    ReachableStatesSatisfyInv(debounce, s);
    var steps :| Exec(debounce, INIT, steps) == Some(s);
    ConveyedInRuns(debounce, INIT, steps);
  }

  // ----- when the sends are in the order of the commits

  function UpTo(n: nat): (list: seq<nat>)
    ensures |list| == n && forall i :: 0 <= i < n ==> list[i] == i
  {
    if n == 0 then [] else UpTo(n - 1) + [n - 1]
  }

  // No commit is made while an earlier one is still to be sent.
  ghost predicate SendersNeverOverlap(trace: seq<Event>) {
    forall i :: 0 <= i < |trace| && trace[i].Committed? ==> AllSettled(trace[..i])
  }

  ghost predicate AllSettled(trace: seq<Event>) {
    forall c: nat :: c < CommitCount(trace) ==> Settled(trace, c)
  }

  // Both properties of a trace hold of its prefixes.
  lemma Shorter(trace: seq<Event>)
    requires trace != []
    ensures var past := trace[..|trace| - 1];
      && (LawfulTrace(trace) ==> LawfulTrace(past))
      && (InCommitOrder(trace) ==> InCommitOrder(past))
      && (SendersNeverOverlap(trace) ==> SendersNeverOverlap(past))
      && past + [trace[|trace| - 1]] == trace
  {
    var past := trace[..|trace| - 1];
    forall i | 0 <= i < |past|
      ensures past[..i] == trace[..i] && past[i] == trace[i]
    {
    }
  }

  lemma SettledGrows(trace: seq<Event>, e: Event, c: nat)
    ensures Settled(trace + [e], c) <==> Settled(trace, c) || e == Sent(c) || e == Dropped(c)
  {
  }

  // The first n commits, and no others, were sent, in order.
  ghost predicate SentExactly(trace: seq<Event>, n: nat) {
    SentList(trace) == UpTo(n) && forall c: nat :: Settled(trace, c) <==> c < n
  }

  lemma SentOneMore(past: seq<Event>, e: Event, n: nat)
    requires SentExactly(past, n) && !e.Dropped? && (e.Sent? ==> e.commit == n)
    ensures SentExactly(past + [e], if e.Sent? then n + 1 else n)
  {
    ListsGrow(past, e);
    forall c: nat
      ensures Settled(past + [e], c) <==> Settled(past, c) || e == Sent(c)
    {
      SettledGrows(past, e, c);
    }
  }

  // With doneChan open a lawful trace in commit order sends 0, 1, 2 and so on.
  lemma {:induction false} InOrderSendsUpTo(trace: seq<Event>) returns (n: nat)
    requires LawfulTrace(trace) && InCommitOrder(trace) && Closed !in trace
    ensures SentExactly(trace, n) && n == |SentList(trace)|
  {
    if trace == [] {
      n := 0;
    } else {
      var past, e := trace[..|trace| - 1], trace[|trace| - 1];
      Shorter(trace);
      n := InOrderSendsUpTo(past);
      assert Lawful(past, e) && (e.Dropped? ==> Closed in past);
      if e.Sent? {
        InOrderGrows(past, e);
        assert e.commit > n ==> Settled(past, n);
      }
      SentOneMore(past, e, n);
      n := if e.Sent? then n + 1 else n;
    }
  }

  lemma UpToEnds(list: seq<nat>, last: nat, n: nat)
    requires list + [last] == UpTo(n)
    ensures n == |list| + 1 && last == |list| && list == UpTo(|list|)
  {
    assert UpTo(n) == UpTo(n - 1) + [n - 1];
    assert list == (list + [last])[..|list|];
    assert UpTo(n - 1) == UpTo(n)[..n - 1];
  }

  lemma {:induction false} UpToIsInOrder(trace: seq<Event>)
    requires LawfulTrace(trace) && Closed !in trace && SentList(trace) == UpTo(|SentList(trace)|)
    ensures InCommitOrder(trace)
    ensures forall c: nat :: c < |SentList(trace)| ==> Settled(trace, c)
  {
    if trace != [] {
      var past, e := trace[..|trace| - 1], trace[|trace| - 1];
      Shorter(trace);
      ListsGrow(past, e);
      assert Lawful(past, e) && (e.Dropped? ==> Closed in past);
      if e.Sent? {
        UpToEnds(SentList(past), e.commit, |SentList(trace)|);
      }
      UpToIsInOrder(past);
      OneMoreInOrder(past, e);
    }
  }

  lemma OneMoreInOrder(past: seq<Event>, e: Event)
    requires InCommitOrder(past) && !e.Dropped? && (e.Sent? ==> e.commit == |SentList(past)|)
    requires forall c: nat :: c < |SentList(past)| ==> Settled(past, c)
    ensures InCommitOrder(past + [e])
    ensures forall c: nat :: c < |SentList(past + [e])| ==> Settled(past + [e], c)
  {
    if e.Sent? {
      InOrderGrows(past, e);
    } else {
      SameOrder(past, e);
    }
    ListsGrow(past, e);
    forall c: nat | c < |SentList(past + [e])|
      ensures Settled(past + [e], c)
    {
      SettledGrows(past, e, c);
    }
  }

  lemma SameOrder(trace: seq<Event>, e: Event)
    requires InCommitOrder(trace) && !e.Sent? && !e.Dropped?
    ensures InCommitOrder(trace + [e])
  {
    var longer := trace + [e];
    forall i | 0 <= i < |trace|
      ensures longer[..i] == trace[..i] && longer[i] == trace[i]
    {
    }
  }

  /** While doneChan is open, the lists arrive in commit order and none is missing if and only if no commit left its
      select before an older one. */
  lemma SentInOrderIff(debounce: int, s: State)
    requires Reachable(debounce, s) && !s.closed
    ensures InCommitOrder(s.trace) <==> SentList(s.trace) == UpTo(|SentList(s.trace)|)
    ensures InCommitOrder(s.trace) ==> ReceivedList(s.trace) == UpTo(|ReceivedList(s.trace)|)
  {
    ReachableStatesSatisfyInv(debounce, s);
    ReceivedAsSent(debounce, s);
    if InCommitOrder(s.trace) {
      var n := InOrderSendsUpTo(s.trace);
      assert forall i :: 0 <= i < |ReceivedList(s.trace)| ==> ReceivedList(s.trace)[i] == SentList(s.trace)[i];
    }
    if SentList(s.trace) == UpTo(|SentList(s.trace)|) {
      UpToIsInOrder(s.trace);
    }
  }

  // ----- senders that never overlap

  /** If no commit is made while another is being sent, no commit overtakes another. */
  lemma {:induction false} SeparateSendersKeepOrder(trace: seq<Event>)
    requires LawfulTrace(trace) && SendersNeverOverlap(trace)
    ensures InCommitOrder(trace)
    ensures forall c: nat :: c + 1 < CommitCount(trace) ==> Settled(trace, c)
  {
    if trace != [] {
      var past, e := trace[..|trace| - 1], trace[|trace| - 1];
      Shorter(trace);
      SeparateSendersKeepOrder(past);
      Grow(past, e);
      assert Lawful(past, e);
      if e.Sent? || e.Dropped? {
        InOrderGrows(past, e);
      } else {
        SameOrder(past, e);
      }
      forall c: nat | c + 1 < CommitCount(trace)
        ensures Settled(trace, c)
      {
        assert e.Committed? ==> AllSettled(past);
        SettledGrows(past, e, c);
      }
    }
  }

  // The lists committed, by number.
  function CommittedLists(trace: seq<Event>): (lists: seq<AddressList>)
    ensures |lists| == CommitCount(trace)
    ensures lists == [] || lists[|lists| - 1] == LastCommitted(trace)
  {
    if trace == [] then []
    else
      var earlier, e := CommittedLists(trace[..|trace| - 1]), trace[|trace| - 1];
      if e.Committed? then earlier + [e.addrs] else earlier
  }

  // Nothing is on its way: no timer, no callback, no discover in a select, no list in the channel.
  ghost predicate AtRest(s: State) {
    Quiescent(s) && s.channel == [] && forall w, commit :: !Holds(s, w, commit)
  }

  /** At rest before Stop, after a run in commit order, every commit was received, in order, and the list received last
      is the latest one. */
  lemma ReceiverHoldsLatest(debounce: int, s: State)
    requires Reachable(debounce, s) && !s.closed && AtRest(s) && InCommitOrder(s.trace)
    ensures ReceivedList(s.trace) == UpTo(CommitCount(s.trace))
    ensures var lists := CommittedLists(s.trace);
      if lists == [] then multiset(LatestScheduled(s.trace)) == multiset([])
      else multiset(lists[|lists| - 1]) == multiset(LatestScheduled(s.trace))
  {
    ReachableStatesSatisfyInv(debounce, s);
    ReceivedAsSent(debounce, s);
    var n := InOrderSendsUpTo(s.trace);
    QuiescenceMeansLatest(debounce, s);
    NobodySendsAllSettled(s);
    assert n <= CommitCount(s.trace) by {
      if n > 0 {
        assert Settled(s.trace, n - 1);
        SettledIsOld(s.trace, n - 1);
      }
    }
    assert CommitCount(s.trace) > 0 ==> Settled(s.trace, CommitCount(s.trace) - 1);
    NothingCommitted(s.trace);
  }

  lemma NobodySendsAllSettled(s: State)
    requires SendersOk(s) && forall w, commit :: !Holds(s, w, commit)
    ensures AllSettled(s.trace)
  {
  }

  lemma {:induction false} NothingCommitted(trace: seq<Event>)
    ensures CommitCount(trace) == 0 ==> LastCommitted(trace) == []
  {
    if trace != [] {
      NothingCommitted(trace[..|trace| - 1]);
    }
  }

  // ----- without debouncing

  lemma LockFreeNobodySends(s: State)
    requires NoTimers(s) && LockFree(s)
    ensures forall w, commit :: !Holds(s, w, commit)
  {
  }

  lemma NewCommitIsAlone(debounce: int, s: State, step: Step)
    requires debounce <= 0 && Inv(debounce, s) && SendersNeverOverlap(s.trace) && Enabled(s, step)
    ensures SendersNeverOverlap(Next(debounce, s, step).trace)
  {
    EventsGrow(debounce, s, step);
    var added := EventsOf(debounce, s, step);
    if |added| >= 1 {
      OneMoreApart(s.trace, added[0]);
    }
    if |added| == 2 {
      LockFreeNobodySends(s);
      NobodySendsAllSettled(s);
      Grow(s.trace, added[0]);
      forall c: nat | c < CommitCount(s.trace)
        ensures Settled(s.trace + [added[0]], c)
      {
        SettledGrows(s.trace, added[0], c);
      }
      OneMoreApart(s.trace + [added[0]], added[1]);
    }
  }

  lemma OneMoreApart(trace: seq<Event>, e: Event)
    requires SendersNeverOverlap(trace) && (e.Committed? ==> AllSettled(trace))
    ensures SendersNeverOverlap(trace + [e])
  {
    var longer := trace + [e];
    forall i | 0 <= i < |longer| && longer[i].Committed?
      ensures AllSettled(longer[..i])
    {
      assert longer[..i] == if i < |trace| then trace[..i] else trace;
    }
  }

  lemma {:induction false} CommitsAreAlone(debounce: int, s: State, steps: seq<Step>)
    requires debounce <= 0 && Inv(debounce, s) && SendersNeverOverlap(s.trace) && Exec(debounce, s, steps).Some?
    ensures SendersNeverOverlap(Exec(debounce, s, steps).value.trace)
    decreases |steps|
  {
    if steps != [] {
      NewCommitIsAlone(debounce, s, steps[0]);
      StepKeeps(debounce, s, steps[0]);
      CommitsAreAlone(debounce, Next(debounce, s, steps[0]), steps[1..]);
    }
  }

  /** Without a debounce period the lock is held during the send, so in every run the lists arrive in commit order. */
  lemma WithoutDebounceInOrder(debounce: int, s: State)
    requires debounce <= 0 && Reachable(debounce, s)
    ensures SendersNeverOverlap(s.trace) && InCommitOrder(s.trace)
  {
    ReachableStatesSatisfyInv(debounce, s);
    var steps :| Exec(debounce, INIT, steps) == Some(s);
    CommitsAreAlone(debounce, INIT, steps);
    SeparateSendersKeepOrder(s.trace);
  }

  // ----- the order can be reversed

  // Two held commits leave in the reverse of their order.
  lemma NewerLeavesFirst(debounce: int, states: State -> bool, s: State) returns (after: State)
    requires StepClosed(debounce, states) && states(s) && s.channel == [] && !s.channelClosed
    requires s.callbacks == map[0 := AtSend(0), 1 := AtSend(1)]
    ensures states(after)
    ensures after == s.(callbacks := map[],
                        trace := s.trace + [Sent(1)] + [Received(1)] + [Sent(0)] + [Received(0)])
  {
    var s1 := Next(debounce, s, SendStep(1, true));
    Take(debounce, states, s, SendStep(1, true));
    var s2 := Next(debounce, s1, ReceiveStep);
    Take(debounce, states, s1, ReceiveStep);
    var s3 := Next(debounce, s2, SendStep(0, true));
    Take(debounce, states, s2, SendStep(0, true));
    after := Next(debounce, s3, ReceiveStep);
    Take(debounce, states, s3, ReceiveStep);
  }

  // Nothing is left to happen without a new discover, and the older of two commits was delivered last.
  ghost predicate StaleAtRest(s: State, older: AddressList, newer: AddressList) {
    && Quiescent(s) && Idle(s) && s.callbacks == map[] && s.channel == []
    && WasCommitted(s.trace, older) && CommitCount(s.trace) == 2
    && s.fields.lastAddresses == newer
    && |s.trace| >= 4 && s.trace[|s.trace| - 4..] == [Sent(1), Received(1), Sent(0), Received(0)]
  }

  // Two rounds whose commits both wait in their selects.
  ghost predicate BothWait(s: State, older: AddressList, newer: AddressList) {
    && Idle(s) && s.callbacks == map[0 := AtSend(0), 1 := AtSend(1)] && s.channel == [] && !s.channelClosed
    && WasCommitted(s.trace, older) && CommitCount(s.trace) == 2 && s.fields.lastAddresses == newer
  }

  lemma TwoRounds(debounce: int, states: State -> bool, idle: State, older: AddressList, newer: AddressList)
    returns (s: State)
    requires debounce > 0 && StepClosed(debounce, states) && states(idle) && Idle(idle)
    requires idle.callbacks == map[] && idle.channel == [] && !idle.channelClosed
    requires idle.fields.nextTimer == 0 && CommitCount(idle.trace) == 0
    requires multiset(idle.fields.lastAddresses) != multiset(older) && multiset(older) != multiset(newer)
    ensures states(s) && BothWait(s, older, newer)
  {
    var first := CommitRound(debounce, states, idle, older);
    s := CommitRound(debounce, states, first, newer);
  }

  lemma StaleListArrivesLast(debounce: int, states: State -> bool, older: AddressList, newer: AddressList)
    returns (s: State)
    requires debounce > 0 && StepClosed(debounce, states) && states(INIT)
    requires older != [] && multiset(older) != multiset(newer)
    ensures states(s) && StaleAtRest(s, older, newer)
  {
    var idle := FirstRound(debounce, states);
    assert older[0] in multiset(older);
    var waiting := TwoRounds(debounce, states, idle, older, newer);
    s := NewerLeavesFirst(debounce, states, waiting);
    ReverseAdds(waiting.trace);
    LastFour(waiting.trace, Sent(1), Received(1), Sent(0), Received(0));
  }

  lemma Uncounted(trace: seq<Event>, e: Event)
    requires !e.Scheduled? && !e.Committed?
    ensures Summarize(trace + [e]) == Summarize(trace)
  {
    Grow(trace, e);
  }

  lemma ReverseAdds(trace: seq<Event>)
    ensures Summarize(trace + [Sent(1)] + [Received(1)] + [Sent(0)] + [Received(0)]) == Summarize(trace)
  {
    var sent1 := trace + [Sent(1)];
    var received1 := sent1 + [Received(1)];
    var sent0 := received1 + [Sent(0)];
    Uncounted(trace, Sent(1));
    Uncounted(sent1, Received(1));
    Uncounted(received1, Sent(0));
    Uncounted(sent0, Received(0));
  }

  lemma LastFour(trace: seq<Event>, a: Event, b: Event, c: Event, d: Event)
    ensures var longer := trace + [a] + [b] + [c] + [d];
      longer[|longer| - 4..] == [a, b, c, d] && forall e :: e in trace ==> e in longer
  {
  }

  /** The order of commits is not the order of delivery: the last list a receiver gets can be one that a later commit
      has replaced, with nothing left to correct it. */
  lemma StaleListCanArriveLast(debounce: int, older: AddressList, newer: AddressList)
    requires debounce > 0 && older != [] && multiset(older) != multiset(newer)
    ensures exists s :: Reachable(debounce, s) && StaleAtRest(s, older, newer)
  {
    var states := ReachableIsStepClosed(debounce);
    var s := StaleListArrivesLast(debounce, states, older, newer);
  }
}
