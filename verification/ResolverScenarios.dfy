/** Whole stretches of runs of the Consul resolver, as witnesses for what can happen. */
module ResolverScenarios {
  import opened Optional
  import opened ResolverSteps
  import opened ResolverRuns

  // A set of states that no enabled step leaves; the reachable states are one.
  ghost predicate StepClosed(debounce: int, states: State -> bool) {
    forall s, step :: states(s) && Enabled(s, step) ==> states(Next(debounce, s, step))
  }

  lemma Take(debounce: int, states: State -> bool, s: State, step: Step)
    requires StepClosed(debounce, states) && states(s) && Enabled(s, step)
    ensures states(Next(debounce, s, step))
  {
  }

  lemma ReachableIsStepClosed(debounce: int) returns (states: State -> bool)
    ensures forall s :: states(s) <==> Reachable(debounce, s)
    ensures StepClosed(debounce, states) && states(INIT)
  {
    states := (s: State) => Reachable(debounce, s);
    forall s, step | states(s) && Enabled(s, step)
      ensures states(Next(debounce, s, step))
    {
      ReachableStep(debounce, s, step);
    }
    assert Exec(debounce, INIT, []) == Some(INIT);
  }

  // Nothing is armed, pending or being discovered; older callbacks may still wait in their selects.
  ghost predicate Idle(s: State) {
    !s.closed && s.workers == map[] && s.fields.armed == {} && s.fields.pending.None?
  }

  // Start finds no service name, and its query fails.
  lemma FirstRound(debounce: int, states: State -> bool) returns (after: State)
    requires StepClosed(debounce, states) && states(INIT)
    ensures states(after) && Idle(after) && after.fields == NO_FIELDS && CommitCount(after.trace) == 0
    ensures after.callbacks == map[] && after.channel == [] && !after.channelClosed
  {
    var called := Next(debounce, INIT, StartStep);
    Take(debounce, states, INIT, StartStep);
    var skipped := Next(debounce, called, SkipStep(Starter));
    Take(debounce, states, called, SkipStep(Starter));
    var asked := Next(debounce, skipped, SnapshotStep(Starter));
    Take(debounce, states, skipped, SnapshotStep(Starter));
    after := Next(debounce, asked, FailStep(Starter));
    Take(debounce, states, asked, FailStep(Starter));
    Grow([], Queried("", 0));
    assert after.trace == [] + [Queried("", 0)];
  }

  // The service watcher asks and is answered.
  lemma DiscoverRound(debounce: int, states: State -> bool, s: State, addrs: AddressList) returns (after: State)
    requires StepClosed(debounce, states) && states(s) && !s.closed && s.workers == map[]
    ensures states(after) && s.trace <= after.trace
    ensures Summarize(after.trace) == Summarize(s.trace)
    ensures after == s.(workers := map[ServiceWatcher := Scheduling(s.fields.serviceName, addrs)],
                        fields := s.fields.(lastIndex := 0), trace := after.trace)
  {
    var f := s.fields;
    var looked := s.(workers := map[ServiceWatcher := Starting]);
    assert looked == Next(debounce, s, LookStep(ServiceWatcher));
    Take(debounce, states, s, LookStep(ServiceWatcher));
    var asked := s.(workers := map[ServiceWatcher := Querying(f.serviceName, f.lastIndex)],
                    trace := s.trace + [Queried(f.serviceName, f.lastIndex)]);
    Grow(s.trace, Queried(f.serviceName, f.lastIndex));
    assert asked == Next(debounce, looked, SnapshotStep(ServiceWatcher));
    Take(debounce, states, looked, SnapshotStep(ServiceWatcher));
    after := Answer(debounce, states, asked, addrs);
  }

  lemma Answer(debounce: int, states: State -> bool, s: State, addrs: AddressList) returns (after: State)
    requires StepClosed(debounce, states) && states(s)
    requires s.workers == map[ServiceWatcher := Querying(s.fields.serviceName, s.fields.lastIndex)]
    ensures states(after) && s.trace <= after.trace
    ensures Summarize(after.trace) == Summarize(s.trace)
    ensures after == s.(workers := map[ServiceWatcher := Scheduling(s.fields.serviceName, addrs)],
                        fields := s.fields.(lastIndex := 0), trace := after.trace)
  {
    after := Next(debounce, s, AcceptStep(ServiceWatcher, 0, addrs));
    Take(debounce, states, s, AcceptStep(ServiceWatcher, 0, addrs));
    Grow(s.trace, Answered(s.fields.serviceName, 0, addrs));
  }

  lemma ArmRound(debounce: int, states: State -> bool, s: State, addrs: AddressList) returns (after: State)
    requires debounce > 0 && StepClosed(debounce, states) && states(s)
    requires s.fields.armed == {} && multiset(s.fields.lastAddresses) != multiset(addrs)
    requires s.workers == map[ServiceWatcher := Scheduling(s.fields.serviceName, addrs)]
    ensures states(after) && s.trace <= after.trace
    ensures CommitCount(after.trace) == CommitCount(s.trace)
    ensures after.trace == s.trace + [Scheduled(s.fields.serviceName, addrs), Armed(s.fields.nextTimer)]
    ensures var t := s.fields.nextTimer;
      after == s.(workers := map[], trace := after.trace,
                  fields := s.fields.(pending := Some(addrs), timer := Some(t), armed := {t}, nextTimer := t + 1))
  {
    after := Next(debounce, s, ScheduleStep(ServiceWatcher));
    Take(debounce, states, s, ScheduleStep(ServiceWatcher));
    Grow(s.trace, Scheduled(s.fields.serviceName, addrs));
    Grow(s.trace + [Scheduled(s.fields.serviceName, addrs)], Armed(s.fields.nextTimer));
    EventsGrow(debounce, s, ScheduleStep(ServiceWatcher));
  }

  lemma FireRound(debounce: int, states: State -> bool, s: State) returns (after: State)
    requires StepClosed(debounce, states) && states(s) && !s.closed && LockFree(s)
    requires s.fields.timer.Some? && s.fields.armed == {s.fields.timer.value} && s.fields.pending.Some?
    ensures states(after)
    ensures var t := s.fields.timer.value;
      after == s.(fields := Commit(s.fields).(armed := {}),
                  trace := s.trace + [Fired(t)] + [Committed(s.fields.pending.value, Some(t))],
                  callbacks := s.callbacks[t := AtSend(CommitCount(s.trace))])
  {
    var t := s.fields.timer.value;
    Grow(s.trace, Fired(t));
    var idle := s.fields.(armed := {});
    var fired := s.(fields := idle, callbacks := s.callbacks[t := AtDoneCheck], trace := s.trace + [Fired(t)]);
    assert fired == Next(debounce, s, FireStep(t));
    Take(debounce, states, s, FireStep(t));
    after := CheckRound(debounce, states, fired, t);
    assert after.callbacks == s.callbacks[t := AtSend(CommitCount(s.trace))];
  }

  lemma CheckRound(debounce: int, states: State -> bool, s: State, t: nat) returns (after: State)
    requires StepClosed(debounce, states) && states(s) && !s.closed && LockFree(s)
    requires t in s.callbacks && s.callbacks[t].AtDoneCheck? && s.fields.pending.Some?
    ensures states(after)
    ensures after == s.(fields := Commit(s.fields), callbacks := s.callbacks[t := AtSend(CommitCount(s.trace))],
                        trace := s.trace + [Committed(s.fields.pending.value, Some(t))])
  {
    var checked := s.(callbacks := s.callbacks[t := AtCommit]);
    assert checked == Next(debounce, s, DoneCheckStep(t));
    Take(debounce, states, s, DoneCheckStep(t));
    after := Next(debounce, checked, CommitStep(t));
    Take(debounce, states, checked, CommitStep(t));
    assert after.callbacks == s.callbacks[t := AtSend(CommitCount(s.trace))];
  }

  ghost predicate WasCommitted(trace: seq<Event>, addrs: AddressList) {
    exists maker :: Committed(addrs, maker) in trace
  }

  // One whole round, from the query to the commit.
  lemma CommitRound(debounce: int, states: State -> bool, s: State, addrs: AddressList) returns (after: State)
    requires debounce > 0 && StepClosed(debounce, states) && states(s) && Idle(s)
    requires multiset(s.fields.lastAddresses) != multiset(addrs)
    ensures states(after) && Idle(after) && after.channel == s.channel && after.channelClosed == s.channelClosed
    ensures after.fields.nextTimer == s.fields.nextTimer + 1 && after.fields.lastAddresses == addrs
    ensures after.callbacks == s.callbacks[s.fields.nextTimer := AtSend(CommitCount(s.trace))]
    ensures CommitCount(after.trace) == CommitCount(s.trace) + 1
    ensures s.trace <= after.trace && WasCommitted(after.trace, addrs)
  {
    var found := DiscoverRound(debounce, states, s, addrs);
    var scheduled := ArmRound(debounce, states, found, addrs);
    var t := scheduled.fields.timer.value;
    after := FireRound(debounce, states, scheduled);
    Grow(scheduled.trace, Fired(t));
    Grow(scheduled.trace + [Fired(t)], Committed(addrs, Some(t)));
    assert Committed(addrs, Some(t)) in after.trace;
  }

  // The list was committed right after it was scheduled, while its own timer still runs.
  ghost predicate CommittedEarly(s: State, addrs: AddressList, own: nat, maker: nat) {
    && own in s.fields.armed && own != maker && s.fields.lastAddresses == addrs
    && exists past, service ::
         s.trace == past + [Scheduled(service, addrs), Armed(own)] + [Committed(addrs, Some(maker))]
  }

  // The callback of an older list stands before its commit, and nothing is armed.
  lemma CallbackInFlight(debounce: int, states: State -> bool, older: AddressList) returns (after: State)
    requires debounce > 0 && StepClosed(debounce, states) && states(INIT) && older != []
    ensures states(after) && !after.closed && after.workers == map[]
    ensures after.fields.armed == {} && after.fields.lastAddresses == [] && after.fields.nextTimer == 1
    ensures after.callbacks == map[0 := AtCommit]
  {
    var first := FirstRound(debounce, states);
    var found := DiscoverRound(debounce, states, first, older);
    assert multiset(older)[older[0]] > 0;
    var armed := ArmRound(debounce, states, found, older);
    var fired := Next(debounce, armed, FireStep(0));
    Take(debounce, states, armed, FireStep(0));
    after := Next(debounce, fired, DoneCheckStep(0));
    Take(debounce, states, fired, DoneCheckStep(0));
  }

  /** A callback that has fired and waits for the lock commits whatever list is pending then, so a list can be committed
      without a debounce period of its own. */
  lemma CommitWithoutItsPeriod(debounce: int, older: AddressList, newer: AddressList)
    requires debounce > 0 && older != [] && newer != []
    ensures exists s :: Reachable(debounce, s) && CommittedEarly(s, newer, 1, 0)
  {
    var states := ReachableIsStepClosed(debounce);
    var waiting := CallbackInFlight(debounce, states, older);
    var found := DiscoverRound(debounce, states, waiting, newer);
    assert multiset(newer)[newer[0]] > 0;
    var armed := ArmRound(debounce, states, found, newer);
    var s := Next(debounce, armed, CommitStep(0));
    Take(debounce, states, armed, CommitStep(0));
    assert s.trace ==
      found.trace + [Scheduled(found.fields.serviceName, newer), Armed(1)] + [Committed(newer, Some(0))];
    assert CommittedEarly(s, newer, 1, 0);
  }
}
