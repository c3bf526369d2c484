/** Which lists the Consul resolver can still send once Stop has closed doneChan. */
module ResolverStop {
  import opened Addresses
  import opened Optional
  import opened ResolverSteps
  import opened ResolverRuns
  import opened ResolverScenarios

  ghost predicate SendsBetween(earlier: State, later: State) {
    exists i, c :: |earlier.trace| <= i < |later.trace| && later.trace[i] == Sent(c)
  }

  ghost predicate CanStillSend(debounce: int, s: State) {
    exists steps :: Exec(debounce, s, steps).Some? && SendsBetween(s, Exec(debounce, s, steps).value)
  }

  // A goroutine that is past its look at doneChan, or needs none, and can still schedule a list that is not the last.
  ghost predicate CanSchedule(f: Fields, p: Place) {
    match p
    case Querying(service, _) => service == f.serviceName
    case Scheduling(_, addrs) => multiset(addrs) != multiset(f.lastAddresses)
    case Publishing(_) => false
    case Left => false
    case _ => true
  }

  ghost predicate SomeoneCanSchedule(s: State) {
    exists w :: w in s.workers && CanSchedule(s.fields, s.workers[w])
  }

  ghost predicate AtCommitSomewhere(s: State) {
    exists t :: t in s.callbacks && s.callbacks[t].AtCommit?
  }

  // Someone is in a select already, or a commit can still happen: that of a callback past its look at doneChan, which
  // needs a pending list, or without debouncing that of a new list.
  ghost predicate MaySend(debounce: int, s: State) {
    || (exists t :: t in s.callbacks && s.callbacks[t].AtSend?)
    || !LockFree(s)
    || (AtCommitSomewhere(s) && s.fields.pending.Some?)
    || ((AtCommitSomewhere(s) || debounce <= 0) && SomeoneCanSchedule(s))
  }

  /** Closing doneChan does not by itself stop the sends. Once it is closed, and until updateChan is, some continuation
      still sends a list if and only if a goroutine is in its select; or a callback is past its look at doneChan and
      has a list to commit, or one that a goroutine past its own look can still schedule; or, without debouncing, such
      a goroutine alone. */
  lemma SendAfterStopIff(debounce: int, s: State)
    requires Reachable(debounce, s) && s.closed
    ensures CanStillSend(debounce, s) <==> !s.channelClosed && MaySend(debounce, s)
  {
    ReachableStatesSatisfyInv(debounce, s);
    if !s.channelClosed && MaySend(debounce, s) {
      MaySendSends(debounce, s);
    } else {
      forall steps | Exec(debounce, s, steps).Some?
        ensures !SendsBetween(s, Exec(debounce, s, steps).value)
      {
        SilentForever(debounce, s, steps);
      }
    }
  }

  // ----- nobody who may send means silence

  ghost predicate Silent(debounce: int, s: State) {
    s.closed && (s.channelClosed || !MaySend(debounce, s))
  }

  lemma {:induction false} SilentForever(debounce: int, s: State, steps: seq<Step>)
    requires Silent(debounce, s) && Exec(debounce, s, steps).Some?
    ensures !SendsBetween(s, Exec(debounce, s, steps).value)
    ensures s.trace <= Exec(debounce, s, steps).value.trace
    decreases |steps|
  {
    if steps != [] {
      var next := Next(debounce, s, steps[0]);
      SilentStep(debounce, s, steps[0]);
      SilentForever(debounce, next, steps[1..]);
    }
  }

  lemma SilentStep(debounce: int, s: State, step: Step)
    requires Silent(debounce, s) && Enabled(s, step)
    ensures var s' := Next(debounce, s, step);
      Silent(debounce, s') && s.trace <= s'.trace && !SendsBetween(s, s')
  {
    EventsGrow(debounce, s, step);
    if !s.channelClosed {
      SilentCallbacks(debounce, s, step);
      SilentWorkers(debounce, s, step);
      SilentLists(debounce, s, step);
    }
  }

  lemma SilentCallbacks(debounce: int, s: State, step: Step)
    requires s.closed && !MaySend(debounce, s) && Enabled(s, step)
    ensures var s' := Next(debounce, s, step);
      (forall t :: t in s'.callbacks ==> !s'.callbacks[t].AtSend?) && (AtCommitSomewhere(s') ==> AtCommitSomewhere(s))
  {
    var s' := Next(debounce, s, step);
    forall t | t in s'.callbacks
      ensures !s'.callbacks[t].AtSend?
      ensures s'.callbacks[t].AtCommit? ==> t in s.callbacks && s.callbacks[t].AtCommit?
    {
      assert step != FireStep(t) ==> t in s.callbacks;
    }
  }

  lemma SilentWorkers(debounce: int, s: State, step: Step)
    requires s.closed && !MaySend(debounce, s) && Enabled(s, step)
    ensures var s' := Next(debounce, s, step);
      LockFree(s') && (SomeoneCanSchedule(s') && (AtCommitSomewhere(s') || debounce <= 0) ==> SomeoneCanSchedule(s))
  {
  }

  lemma SilentLists(debounce: int, s: State, step: Step)
    requires s.closed && !MaySend(debounce, s) && Enabled(s, step)
    ensures var s' := Next(debounce, s, step);
      AtCommitSomewhere(s') && s'.fields.pending.Some? ==> AtCommitSomewhere(s) && s.fields.pending.Some?
  {
    SilentCallbacks(debounce, s, step);
  }

  // ----- whoever may send can do so

  lemma SendsAfterStep(debounce: int, s: State, step: Step)
    requires Enabled(s, step) && CanStillSend(debounce, Next(debounce, s, step))
    ensures CanStillSend(debounce, s)
  {
    var next := Next(debounce, s, step);
    EventsGrow(debounce, s, step);
    var steps :| Exec(debounce, next, steps).Some? && SendsBetween(next, Exec(debounce, next, steps).value);
    assert ([step] + steps)[1..] == steps;
    assert Exec(debounce, s, [step] + steps) == Exec(debounce, next, steps);
  }

  // A goroutine in its select needs only a receiver.
  lemma HolderSends(debounce: int, s: State, w: Sender, commit: nat)
    requires Holds(s, w, commit) && |s.channel| <= 1 && !s.channelClosed
    ensures CanStillSend(debounce, s)
    decreases |s.channel|
  {
    if |s.channel| == 0 {
      var step := match w case TimerCallback(t) => SendStep(t, true) case DiscoverCall(x) => PublishStep(x, true);
      var sent := Next(debounce, s, step);
      assert Exec(debounce, sent, []) == Some(sent);
      assert Exec(debounce, s, [step]) == Some(sent);
      assert sent.trace[|s.trace|] == Sent(commit);
    } else {
      HolderSends(debounce, Next(debounce, s, ReceiveStep), w, commit);
      SendsAfterStep(debounce, s, ReceiveStep);
    }
  }

  lemma CallbackCommits(debounce: int, s: State, t: nat)
    requires LockFree(s) && |s.channel| <= 1 && !s.channelClosed && s.fields.pending.Some?
    requires t in s.callbacks && s.callbacks[t].AtCommit?
    ensures CanStillSend(debounce, s)
  {
    var next := Next(debounce, s, CommitStep(t));
    HolderSends(debounce, next, TimerCallback(t), CommitCount(s.trace));
    SendsAfterStep(debounce, s, CommitStep(t));
  }

  // A callback past its look, or no debouncing: what makes a newly scheduled list a sent one.
  ghost predicate CommitsNext(debounce: int, s: State) {
    LockFree(s) && |s.channel| <= 1 && !s.channelClosed && (AtCommitSomewhere(s) || debounce <= 0)
  }

  lemma NewListSends(debounce: int, s: State, w: Worker)
    requires CommitsNext(debounce, s) && w in s.workers && s.workers[w].Scheduling?
    requires multiset(s.workers[w].addrs) != multiset(s.fields.lastAddresses)
    ensures CanStillSend(debounce, s)
  {
    var next := Next(debounce, s, ScheduleStep(w));
    if debounce <= 0 {
      HolderSends(debounce, next, DiscoverCall(w), CommitCount(s.trace));
    } else {
      var t :| t in s.callbacks && s.callbacks[t].AtCommit?;
      CallbackCommits(debounce, next, t);
    }
    SendsAfterStep(debounce, s, ScheduleStep(w));
  }

  lemma QuerySends(debounce: int, s: State, w: Worker)
    requires CommitsNext(debounce, s) && w in s.workers && s.workers[w].Querying?
    requires s.workers[w].service == s.fields.serviceName
    ensures CanStillSend(debounce, s)
  {
    var longer := s.fields.lastAddresses + [Address("", 0)];
    assert |multiset(longer)| == |longer| && |multiset(s.fields.lastAddresses)| == |s.fields.lastAddresses|;
    var next := Next(debounce, s, AcceptStep(w, 0, longer));
    assert AtCommitSomewhere(s) ==> AtCommitSomewhere(next);
    NewListSends(debounce, next, w);
    SendsAfterStep(debounce, s, AcceptStep(w, 0, longer));
  }

  lemma StartingSends(debounce: int, s: State, w: Worker)
    requires CommitsNext(debounce, s) && w in s.workers && s.workers[w].Starting?
    ensures CanStillSend(debounce, s)
  {
    var next := Next(debounce, s, SnapshotStep(w));
    assert AtCommitSomewhere(s) ==> AtCommitSomewhere(next);
    QuerySends(debounce, next, w);
    SendsAfterStep(debounce, s, SnapshotStep(w));
  }

  lemma FetchingSends(debounce: int, s: State, w: Worker)
    requires CommitsNext(debounce, s) && w in s.workers && s.workers[w].Fetching?
    ensures CanStillSend(debounce, s)
  {
    var step := RenameStep(w, s.fields.serviceName + "-");
    var next := Next(debounce, s, step);
    assert AtCommitSomewhere(s) ==> AtCommitSomewhere(next);
    StartingSends(debounce, next, w);
    SendsAfterStep(debounce, s, step);
  }

  lemma SchedulerSends(debounce: int, s: State, w: Worker)
    requires CommitsNext(debounce, s) && w in s.workers && CanSchedule(s.fields, s.workers[w])
    requires s.workers[w].BeforeStart? ==> w.Starter?
    ensures CanStillSend(debounce, s)
  {
    match s.workers[w]
    case BeforeStart =>
      var next := Next(debounce, s, StartStep);
      assert AtCommitSomewhere(s) ==> AtCommitSomewhere(next);
      FetchingSends(debounce, next, w);
      SendsAfterStep(debounce, s, StartStep);
    case Fetching => FetchingSends(debounce, s, w);
    case Starting => StartingSends(debounce, s, w);
    case Querying(_, _) => QuerySends(debounce, s, w);
    case Scheduling(_, _) => NewListSends(debounce, s, w);
  }

  lemma MaySendSends(debounce: int, s: State)
    requires Inv(debounce, s) && MaySend(debounce, s) && !s.channelClosed
    ensures CanStillSend(debounce, s)
  {
    if t :| t in s.callbacks && s.callbacks[t].AtSend? {
      HolderSends(debounce, s, TimerCallback(t), s.callbacks[t].commit);
    } else if w :| w in s.workers && s.workers[w].Publishing? {
      HolderSends(debounce, s, DiscoverCall(w), s.workers[w].commit);
    } else if s.fields.pending.Some? && AtCommitSomewhere(s) {
      var t :| t in s.callbacks && s.callbacks[t].AtCommit?;
      CallbackCommits(debounce, s, t);
    } else {
      var w :| w in s.workers && CanSchedule(s.fields, s.workers[w]);
      SchedulerSends(debounce, s, w);
    }
  }

  // ----- both kinds of send happen

  /** With any debounce period, and with none, there is a run in which a list is still sent after Stop closed
      doneChan, and one in which none can be. */
  lemma SendAfterStopHappens(debounce: int)
    ensures exists s :: Reachable(debounce, s) && s.closed && CanStillSend(debounce, s)
    ensures exists s :: Reachable(debounce, s) && s.closed && !CanStillSend(debounce, s)
  {
    var states := ReachableIsStepClosed(debounce);
    var idle := FirstRound(debounce, states);
    StopAndSilence(debounce, states, idle);
    if debounce > 0 {
      SendOfCallback(debounce, states, idle);
    } else {
      SendOfDiscover(debounce, states, idle);
    }
  }

  lemma StopAndSilence(debounce: int, states: State -> bool, idle: State)
    requires StepClosed(debounce, states) && states(idle) && Idle(idle) && idle.callbacks == map[]
    requires forall x :: states(x) <==> Reachable(debounce, x)
    ensures exists x :: Reachable(debounce, x) && x.closed && !CanStillSend(debounce, x)
  {
    var closed := Next(debounce, idle, CloseStep);
    Take(debounce, states, idle, CloseStep);
    SendAfterStopIff(debounce, closed);
  }

  lemma SendOfCallback(debounce: int, states: State -> bool, idle: State)
    requires debounce > 0 && StepClosed(debounce, states) && states(idle) && Idle(idle) && !idle.channelClosed
    requires idle.fields.lastAddresses == []
    requires forall x :: states(x) <==> Reachable(debounce, x)
    ensures exists x :: Reachable(debounce, x) && x.closed && CanStillSend(debounce, x)
  {
    var addrs := [Address("", 0)];
    assert addrs[0] in multiset(addrs);
    var committed := CommitRound(debounce, states, idle, addrs);
    assert committed.callbacks[idle.fields.nextTimer].AtSend?;
    StopAndSend(debounce, states, committed);
  }

  lemma SendOfDiscover(debounce: int, states: State -> bool, idle: State)
    requires debounce <= 0 && StepClosed(debounce, states) && states(idle) && Idle(idle) && !idle.channelClosed
    requires idle.fields.lastAddresses == []
    requires forall x :: states(x) <==> Reachable(debounce, x)
    ensures exists x :: Reachable(debounce, x) && x.closed && CanStillSend(debounce, x)
  {
    var addrs := [Address("", 0)];
    assert addrs[0] in multiset(addrs);
    var found := DiscoverRound(debounce, states, idle, addrs);
    var published := Next(debounce, found, ScheduleStep(ServiceWatcher));
    Take(debounce, states, found, ScheduleStep(ServiceWatcher));
    assert published.workers[ServiceWatcher].Publishing?;
    StopAndSend(debounce, states, published);
  }

  lemma StopAndSend(debounce: int, states: State -> bool, s: State)
    requires StepClosed(debounce, states) && states(s) && !s.closed && !s.channelClosed
    requires forall x :: states(x) <==> Reachable(debounce, x)
    requires !LockFree(s) || exists t :: t in s.callbacks && s.callbacks[t].AtSend?
    ensures exists x :: Reachable(debounce, x) && x.closed && CanStillSend(debounce, x)
  {
    var closed := Next(debounce, s, CloseStep);
    Take(debounce, states, s, CloseStep);
    SendAfterStopIff(debounce, closed);
  }

  // ----- sends on the closed channel

  // A goroutine is in its select and updateChan is closed: Go may choose the send, which panics.
  ghost predicate SendMayPanic(s: State) {
    s.channelClosed && exists w, commit :: Holds(s, w, commit)
  }

  /** A late callback can find updateChan closed and bring the program down; without debouncing that cannot happen,
      because every sender is one of the goroutines that Start waits for. */
  lemma SendMayPanicIff(debounce: int)
    ensures (exists s :: Reachable(debounce, s) && SendMayPanic(s)) <==> debounce > 0
  {
    if debounce > 0 {
      LateSendMayPanic(debounce);
    } else {
      forall s | Reachable(debounce, s)
        ensures !SendMayPanic(s)
      {
        ReachableStatesSatisfyInv(debounce, s);
        if s.channelClosed {
          NobodyHolds(s);
        }
      }
    }
  }

  lemma NobodyHolds(s: State)
    requires NoTimers(s) && WatchersLeft(s)
    ensures forall w, commit :: !Holds(s, w, commit)
  {
    forall w, commit
      ensures !Holds(s, w, commit)
    {
      match w
      case TimerCallback(_) =>
      case DiscoverCall(x) => assert x.Starter? || s.workers[x].Left?;
    }
  }

  lemma LateSendMayPanic(debounce: int)
    requires debounce > 0
    ensures exists s :: Reachable(debounce, s) && SendMayPanic(s)
  {
    var states := ReachableIsStepClosed(debounce);
    var idle := FirstRound(debounce, states);
    var addrs := [Address("", 0)];
    assert addrs[0] in multiset(addrs);
    var committed := CommitRound(debounce, states, idle, addrs);
    assert Holds(committed, TimerCallback(0), 0);
    var s := StopRound(debounce, states, committed);
    assert Holds(s, TimerCallback(0), 0);
  }

  // Stop, and Start comes to its end.
  lemma StopRound(debounce: int, states: State -> bool, s: State) returns (after: State)
    requires StepClosed(debounce, states) && states(s) && Idle(s) && !s.channelClosed
    ensures states(after) && after.channelClosed && after.callbacks == s.callbacks
  {
    var closed := Next(debounce, s, CloseStep);
    Take(debounce, states, s, CloseStep);
    var left := Next(debounce, closed, LeaveStep(ServiceWatcher));
    Take(debounce, states, closed, LeaveStep(ServiceWatcher));
    var both := Next(debounce, left, LeaveStep(KvWatcher));
    Take(debounce, states, left, LeaveStep(KvWatcher));
    after := Next(debounce, both, CloseChannelStep);
    Take(debounce, states, both, CloseChannelStep);
  }

  // ----- the end of the watchers

  // Only after the close does a watcher leave, and updateChan is closed once both have left.
  ghost predicate LeftAfterClose(s: State) {
    && (forall w :: w in s.workers && s.workers[w].Left? ==> s.closed && !w.Starter?)
    && (s.channelClosed ==> WatchersLeft(s))
  }

  lemma LeftAfterCloseStep(debounce: int, s: State, step: Step)
    requires LeftAfterClose(s) && Enabled(s, step)
    ensures LeftAfterClose(Moves(debounce, s, step))
  {
  }

  lemma {:induction false} LeftAfterCloseRun(debounce: int, s: State, steps: seq<Step>)
    requires LeftAfterClose(s) && Exec(debounce, s, steps).Some?
    ensures LeftAfterClose(Exec(debounce, s, steps).value)
    decreases |steps|
  {
    if steps != [] {
      LeftAfterCloseStep(debounce, s, steps[0]);
      LeftAfterCloseRun(debounce, Next(debounce, s, steps[0]), steps[1..]);
    }
  }

  /** Until Stop closes doneChan no watcher ends and updateChan stays open; once updateChan is closed both watchers have
      ended. */
  lemma WatchersEndOnlyAfterStop(debounce: int, s: State)
    requires Reachable(debounce, s)
    ensures !s.closed ==> !s.channelClosed && forall w :: w in s.workers ==> !s.workers[w].Left?
    ensures s.channelClosed ==> WatchersLeft(s)
  {
    var steps :| Exec(debounce, INIT, steps) == Some(s);
    LeftAfterCloseRun(debounce, INIT, steps);
  }
}
