/** What the Consul resolver promises about commits, sends and wait indices in every run. */
module ResolverTheorems {
  import opened Optional
  import opened ResolverSteps
  import opened ResolverRuns

  // ----- the debounce converges

  // No timer is armed and every callback has at most a send left to do.
  ghost predicate Quiescent(s: State) {
    s.fields.armed == {} && forall t :: t in s.callbacks ==> s.callbacks[t].AtSend?
  }

  /** Before Stop, the latest scheduled list is committed already, or it is the pending one and the current timer or
      a callback that has already fired will commit it. */
  lemma DebounceConverges(debounce: int, s: State)
    requires debounce > 0 && Reachable(debounce, s) && !s.closed
    ensures match s.fields.pending
      case None => multiset(s.fields.lastAddresses) == multiset(LatestScheduled(s.trace))
      case Some(addrs) =>
        && addrs == LatestScheduled(s.trace)
        && multiset(s.fields.lastAddresses) != multiset(addrs)
        && ((s.fields.timer.Some? && s.fields.armed == {s.fields.timer.value}) ||
            exists t :: t in s.callbacks && !s.callbacks[t].AtSend?)
  {
    ReachableStatesSatisfyInv(debounce, s);
    if s.fields.armed != {} {
      var t :| t in s.fields.armed;
      assert s.fields.armed == {t};
    }
  }

  /** At quiescence before Stop the committed list is the latest one, whichever callbacks outlived their Timer.Stop. */
  lemma QuiescenceMeansLatest(debounce: int, s: State)
    requires Reachable(debounce, s) && !s.closed && Quiescent(s)
    ensures s.fields.pending.None?
    ensures multiset(s.fields.lastAddresses) == multiset(LatestScheduled(s.trace))
  {
    ReachableStatesSatisfyInv(debounce, s);
  }

  /** A pending list is never stuck: the timer or a callback alone can commit it, in at most three steps. */
  lemma PendingCanBeCommitted(debounce: int, s: State) returns (steps: seq<Step>)
    requires debounce > 0 && Reachable(debounce, s) && !s.closed && s.fields.pending.Some?
    ensures |steps| <= 3
    ensures forall i :: 0 <= i < |steps| ==> steps[i].FireStep? || steps[i].DoneCheckStep? || steps[i].CommitStep?
    ensures var after := Exec(debounce, s, steps);
      after.Some? && after.value.fields.pending.None? &&
      after.value.fields.lastAddresses == LatestScheduled(s.trace)
  {
    ReachableStatesSatisfyInv(debounce, s);
    steps := WaitingCommits(debounce, s);
  }

  lemma WaitingCommits(debounce: int, s: State) returns (steps: seq<Step>)
    requires LockFree(s) && !s.closed && s.fields.pending.Some? && CommitterWaiting(s)
    ensures |steps| <= 3
    ensures forall i :: 0 <= i < |steps| ==> steps[i].FireStep? || steps[i].DoneCheckStep? || steps[i].CommitStep?
    ensures Exec(debounce, s, steps).Some?
    ensures Exec(debounce, s, steps).value.fields.pending.None?
    ensures Exec(debounce, s, steps).value.fields.lastAddresses == s.fields.pending.value
  {
    if t :| t in s.callbacks && s.callbacks[t].AtCommit? {
      steps := [CommitStep(t)];
      assert Exec(debounce, s, steps) == Some(Next(debounce, s, CommitStep(t)));
    } else if t :| t in s.callbacks && s.callbacks[t].AtDoneCheck? {
      steps := CheckThenCommit(debounce, s, t);
    } else {
      var t :| t in s.fields.armed;
      var fired := Next(debounce, s, FireStep(t));
      var rest := CheckThenCommit(debounce, fired, t);
      steps := [FireStep(t)] + rest;
      assert steps[1..] == rest;
    }
  }

  lemma CheckThenCommit(debounce: int, s: State, t: nat) returns (steps: seq<Step>)
    requires LockFree(s) && !s.closed && t in s.callbacks && s.callbacks[t].AtDoneCheck? && s.fields.pending.Some?
    ensures steps == [DoneCheckStep(t), CommitStep(t)]
    ensures Exec(debounce, s, steps).Some?
    ensures Exec(debounce, s, steps).value.fields == Commit(s.fields)
  {
    var checked := Next(debounce, s, DoneCheckStep(t));
    steps := [DoneCheckStep(t)] + [CommitStep(t)];
    assert steps[1..] == [CommitStep(t)];
    assert Exec(debounce, checked, [CommitStep(t)]) == Some(Next(debounce, checked, CommitStep(t)));
  }

  // ----- commits and sends

  /** Every run commits only the latest list, never the one committed before it, and fewer times than it schedules;
      each commit is sent or dropped at most once, and dropped only after doneChan was closed; each blocking query
      carries index zero or an index answered for the service it asks for. */
  lemma EveryRunIsLawful(debounce: int, steps: seq<Step>)
    requires Exec(debounce, INIT, steps).Some?
    ensures var trace := Exec(debounce, INIT, steps).value.trace;
      LawfulTrace(trace) && CommitCount(trace) <= ScheduleCount(trace)
  {
    ExecKeeps(debounce, INIT, steps);
  }

  // No event strictly between the two is a commit.
  ghost predicate NextCommit(trace: seq<Event>, i: nat, j: nat)
    requires i < j < |trace|
  {
    trace[i].Committed? && trace[j].Committed? && forall k :: i < k < j ==> !trace[k].Committed?
  }

  lemma LastCommittedAt(trace: seq<Event>, i: nat, j: nat)
    requires i < j <= |trace| && trace[i].Committed?
    requires forall k :: i < k < j ==> !trace[k].Committed?
    ensures LastCommitted(trace[..j]) == trace[i].addrs
  {
    Grow(trace[..j - 1], trace[j - 1]);
    assert trace[..j] == trace[..j - 1] + [trace[j - 1]];
    if i < j - 1 {
      LastCommittedAt(trace, i, j - 1);
    }
  }

  /** Two commits in a row always differ as multisets, in any reachable state's history. */
  lemma ConsecutiveCommitsDiffer(debounce: int, s: State, i: nat, j: nat)
    requires Reachable(debounce, s) && i < j < |s.trace| && NextCommit(s.trace, i, j)
    ensures multiset(s.trace[i].addrs) != multiset(s.trace[j].addrs)
  {
    ReachableStatesSatisfyInv(debounce, s);
    LastCommittedAt(s.trace, i, j);
    assert Lawful(s.trace[..j], s.trace[j]);
  }

  /** At any moment a commit has been sent once, dropped once, or is held by exactly one goroutine in its select. */
  lemma EveryCommitIsAccountedFor(debounce: int, s: State, commit: nat)
    requires Reachable(debounce, s) && commit < CommitCount(s.trace)
    ensures !(Sent(commit) in s.trace && Dropped(commit) in s.trace)
    ensures Settled(s.trace, commit) <==> forall w :: !Holds(s, w, commit)
    ensures forall w, w' :: Holds(s, w, commit) && Holds(s, w', commit) ==> w == w'
    ensures forall i, j :: 0 <= i < j < |s.trace| && s.trace[i] == s.trace[j] ==>
      s.trace[i] != Sent(commit) && s.trace[i] != Dropped(commit)
  {
    ReachableStatesSatisfyInv(debounce, s);
    forall i, j | 0 <= i < j < |s.trace| && s.trace[j] in {Sent(commit), Dropped(commit)}
      ensures s.trace[i] !in {Sent(commit), Dropped(commit)}
    {
      assert Lawful(s.trace[..j], s.trace[j]);
      assert i < j && s.trace[..j][i] == s.trace[i];
    }
  }

  // Some answer for the service carried the index.
  ghost predicate WasAnswered(trace: seq<Event>, service: string, index: nat) {
    exists i :: 0 <= i < |trace| && trace[i].Answered? && trace[i].service == service && trace[i].index == index
  }

  lemma IndexInForceWasAnswered(trace: seq<Event>, index: nat)
    requires IsIndexInForce(trace, index)
    ensures index == 0 || WasAnswered(trace, LastRenamed(trace), index)
  {
    if exists i: nat :: InForce(trace, i) {
      var i: nat :| InForce(trace, i) && index == trace[i].index;
      NoRenameAfter(trace, i);
    }
  }

  lemma {:induction false} NoRenameAfter(trace: seq<Event>, i: nat)
    requires i <= |trace| && forall k :: i <= k < |trace| ==> !trace[k].Renamed?
    ensures LastRenamed(trace) == LastRenamed(trace[..i])
  {
    if i < |trace| {
      var past := trace[..|trace| - 1];
      NoRenameAfter(past, i);
      assert past[..i] == trace[..i];
    } else {
      assert trace[..i] == trace;
    }
  }

  /** The service is the one last renamed to, and lastIndex is the index of the last answer for it that no rename
      followed, or zero without one; every query carries just these. */
  lemma NamesFollowTheTrace(debounce: int, s: State)
    requires Reachable(debounce, s)
    ensures s.fields.serviceName == LastRenamed(s.trace) && IsIndexInForce(s.trace, s.fields.lastIndex)
    ensures forall i :: 0 <= i < |s.trace| && s.trace[i].Queried? ==>
      s.trace[i].service == LastRenamed(s.trace[..i]) && IsIndexInForce(s.trace[..i], s.trace[i].waitIndex)
  {
    ReachableStatesSatisfyInv(debounce, s);
    forall i | 0 <= i < |s.trace| && s.trace[i].Queried?
      ensures s.trace[i].service == LastRenamed(s.trace[..i]) && IsIndexInForce(s.trace[..i], s.trace[i].waitIndex)
    {
      assert Lawful(s.trace[..i], s.trace[i]);
    }
  }

  /** lastIndex is zero or an index that a query for the current service name returned, through any renames. */
  lemma WaitIndexBelongsToService(debounce: int, s: State)
    requires Reachable(debounce, s)
    ensures s.fields.lastIndex == 0 || WasAnswered(s.trace, s.fields.serviceName, s.fields.lastIndex)
    ensures forall i :: 0 <= i < |s.trace| && s.trace[i].Queried? && s.trace[i].waitIndex != 0 ==>
      WasAnswered(s.trace[..i], s.trace[i].service, s.trace[i].waitIndex)
  {
    NamesFollowTheTrace(debounce, s);
    IndexInForceWasAnswered(s.trace, s.fields.lastIndex);
    forall i | 0 <= i < |s.trace| && s.trace[i].Queried? && s.trace[i].waitIndex != 0
      ensures WasAnswered(s.trace[..i], s.trace[i].service, s.trace[i].waitIndex)
    {
      IndexInForceWasAnswered(s.trace[..i], s.trace[i].waitIndex);
    }
  }

  // ----- the debounce period restarts

  // The list committed at place j is the one scheduled at place i, the latest before it.
  ghost predicate LatestBefore(trace: seq<Event>, i: nat, j: nat) {
    i < j <= |trace| && trace[i].Scheduled? && forall k :: i < k < j ==> !trace[k].Scheduled?
  }

  lemma {:induction false} SinceIsAfter(trace: seq<Event>, i: nat, e: Event)
    requires LatestBefore(trace, i, |trace|) && e in SinceScheduled(trace)
    ensures exists k :: i < k < |trace| && trace[k] == e
  {
    var past := trace[..|trace| - 1];
    if i < |trace| - 1 && trace[|trace| - 1] != e {
      assert e in SinceScheduled(past);
      SinceIsAfter(past, i, e);
      var k :| i < k < |past| && past[k] == e;
      assert trace[k] == e;
    }
  }

  lemma FiredSinceSchedule(trace: seq<Event>, i: nat, l: nat, t: nat)
    requires LawfulTrace(trace) && l < |trace| && LatestBefore(trace, i, l) && trace[l] == Fired(t)
    ensures exists k :: i < k < l && trace[k] == Armed(t)
  {
    assert Lawful(trace[..l], trace[l]);
    SinceIsAfter(trace[..l], i, Armed(t));
    var k :| i < k < |trace[..l]| && trace[..l][k] == Armed(t);
    assert trace[k] == Armed(t);
  }

  // The timer of the commit at place j fired before place i, or was armed and fired after it.
  ghost predicate FullPeriod(trace: seq<Event>, i: nat, j: nat, t: nat)
    requires i < j <= |trace|
  {
    || (exists k :: 0 <= k < i && trace[k] == Fired(t))
    || (exists k, l :: i < k < l < j && trace[k] == Armed(t) && trace[l] == Fired(t))
  }

  lemma LawfulCommitsAfterFullPeriod(trace: seq<Event>, i: nat, j: nat)
    requires LawfulTrace(trace) && j < |trace| && LatestBefore(trace, i, j)
    requires trace[j].Committed? && trace[j].maker.Some?
    ensures FullPeriod(trace, i, j, trace[j].maker.value)
  {
    var t := trace[j].maker.value;
    assert Lawful(trace[..j], trace[j]);
    var l :| 0 <= l < |trace[..j]| && trace[..j][l] == Fired(t);
    assert trace[l] == Fired(t);
    if l > i {
      FiredSinceSchedule(trace, i, l, t);
    }
  }

  /** A timer fires only if no list was scheduled since it was armed, and it is armed by a Schedule; so a pending list
      is committed only by a callback that had fired before the list was scheduled, or by a timer armed after that. */
  lemma CommitsAfterFullPeriod(debounce: int, s: State, i: nat, j: nat)
    requires Reachable(debounce, s) && j < |s.trace| && LatestBefore(s.trace, i, j)
    requires s.trace[j].Committed? && s.trace[j].maker.Some?
    ensures FullPeriod(s.trace, i, j, s.trace[j].maker.value)
  {
    ReachableStatesSatisfyInv(debounce, s);
    LawfulCommitsAfterFullPeriod(s.trace, i, j);
  }

  /** A Schedule disarms every timer; a list that it leaves pending has a timer of its own, and no other is armed. */
  lemma ScheduleRestartsTimer(debounce: int, s: State, x: Worker)
    requires Reachable(debounce, s) && Enabled(s, ScheduleStep(x))
    ensures Restarted(s, Next(debounce, s, ScheduleStep(x)))
  {
    ReachableStatesSatisfyInv(debounce, s);
    TimersRestarted(debounce, s, x);
  }

  // No timer armed before is armed after, and a list pending after waits for a timer created in between.
  ghost predicate Restarted(s: State, s': State) {
    var f, f' := s.fields, s'.fields;
    && (forall t :: t in f.armed ==> t !in f'.armed)
    && (f'.pending.None? ==> f'.armed == {})
    && (f'.pending.Some? ==>
          && f'.timer.Some? && f'.armed == {f'.timer.value}
          && Armed(f'.timer.value) !in s.trace && Armed(f'.timer.value) in s'.trace)
  }

  lemma TimersRestarted(debounce: int, s: State, x: Worker)
    requires TimersOk(s) && TimersLogged(s) && Enabled(s, ScheduleStep(x))
    requires debounce <= 0 ==> s.fields.pending.None?
    ensures Restarted(s, Next(debounce, s, ScheduleStep(x)))
  {
    OnlyNewTimerArmed(debounce, s, x);
    EventsGrow(debounce, s, ScheduleStep(x));
    var added := EventsOf(debounce, s, ScheduleStep(x));
    assert |added| == 2 ==> added[1] in added;
  }

  // ----- what the other locked sections do to the fields

  /** Renaming: a new non-empty name becomes the service's and resets the wait index; the watcher of the key then asks
      again, and any other answer of the key leaves everything as it was. */
  lemma RenameTakesEffect(debounce: int, s: State, x: Worker, name: string)
    requires Enabled(s, RenameStep(x, name))
    ensures var s' := Next(debounce, s, RenameStep(x, name));
      if name != "" && name != s.fields.serviceName then
        && s'.fields == s.fields.(serviceName := name, lastIndex := 0)
        && x in s'.workers && s'.workers[x].Starting? && s'.trace == s.trace + [Renamed(name)]
      else
        && s'.fields == s.fields && s'.trace == s.trace
        && (x.Starter? ==> x in s'.workers && s'.workers[x].Starting?)
        && (!x.Starter? ==> x !in s'.workers)
  {
  }

  // Inside discover.
  predicate Discovering(place: Place) {
    !place.BeforeStart? && !place.Fetching? && !place.Left?
  }

  ghost predicate KvWatcherRenamed(s: State) {
    KvWatcher in s.workers && Discovering(s.workers[KvWatcher]) ==> s.fields.serviceName != ""
  }

  lemma KvWatcherStep(debounce: int, s: State, step: Step)
    requires KvWatcherRenamed(s) && Enabled(s, step)
    ensures KvWatcherRenamed(Moves(debounce, s, step))
  {
  }

  lemma {:induction false} KvWatcherRun(debounce: int, s: State, steps: seq<Step>)
    requires KvWatcherRenamed(s) && Exec(debounce, s, steps).Some?
    ensures KvWatcherRenamed(Exec(debounce, s, steps).value)
    decreases |steps|
  {
    if steps != [] {
      KvWatcherStep(debounce, s, steps[0]);
      KvWatcherRun(debounce, Next(debounce, s, steps[0]), steps[1..]);
    }
  }

  /** The watcher of the key calls discover only once the key has named a service; the service watcher may ask before
      that. */
  lemma KvWatcherAsksAfterRename(debounce: int, s: State)
    requires Reachable(debounce, s) && KvWatcher in s.workers && Discovering(s.workers[KvWatcher])
    ensures LastRenamed(s.trace) != ""
  {
    var steps :| Exec(debounce, INIT, steps) == Some(s);
    KvWatcherRun(debounce, INIT, steps);
    ReachableStatesSatisfyInv(debounce, s);
  }

  /** An answer for the current service sets the wait index and goes on to be scheduled; any other is ignored. */
  lemma AnswerTakesEffect(debounce: int, s: State, x: Worker, index: nat, addrs: AddressList)
    requires Enabled(s, AcceptStep(x, index, addrs))
    ensures var s' := Next(debounce, s, AcceptStep(x, index, addrs));
      if s.workers[x].service == s.fields.serviceName then
        && s'.fields == s.fields.(lastIndex := index)
        && x in s'.workers && s'.workers[x] == Scheduling(s.fields.serviceName, addrs)
      else
        s'.fields == s.fields && x !in s'.workers
  {
  }

  /** After Stop has stopped the timer none is armed. */
  lemma StopDisarms(debounce: int, s: State)
    requires Reachable(debounce, s) && Enabled(s, StopTimerStep)
    ensures Next(debounce, s, StopTimerStep).fields == s.fields.(armed := {})
  {
    ReachableStatesSatisfyInv(debounce, s);
  }

  /** Without a debounce period the committed list is the latest one in every reachable state. */
  lemma WithoutDebounceAlwaysLatest(debounce: int, s: State)
    requires debounce <= 0 && Reachable(debounce, s)
    ensures multiset(s.fields.lastAddresses) == multiset(LatestScheduled(s.trace))
  {
    ReachableStatesSatisfyInv(debounce, s);
  }
}
