/** What every run of the Consul resolver keeps. */
module ResolverRuns {
  import opened Optional
  import opened ResolverSteps

  // ----- the invariant

  // At most the current timer is armed, and a timer's callback runs only after the timer fired.
  ghost predicate TimersOk(s: State) {
    && (forall t :: t in s.fields.armed ==> s.fields.timer == Some(t) && t < s.fields.nextTimer)
    && (forall t :: t in s.callbacks ==> t < s.fields.nextTimer && t !in s.fields.armed)
  }

  // Some goroutine, now or after its timer fires, will run the locked section of a callback.
  ghost predicate CommitterWaiting(s: State) {
    || s.fields.armed != {}
    || exists t :: t in s.callbacks && !s.callbacks[t].AtSend?
  }

  ghost predicate PendingOk(debounce: int, s: State) {
    var f := s.fields;
    && f.lastAddresses == LastCommitted(s.trace)
    && (s.closed <==> Closed in s.trace)
    && match f.pending
       case None =>
         && multiset(f.lastAddresses) == multiset(LatestScheduled(s.trace))
         && CommitCount(s.trace) <= ScheduleCount(s.trace)
       case Some(addrs) =>
         && debounce > 0
         && addrs == LatestScheduled(s.trace)
         && multiset(f.lastAddresses) != multiset(addrs)
         && CommitCount(s.trace) < ScheduleCount(s.trace)
         && (s.closed || CommitterWaiting(s))
  }

  // The service name and the wait index are what the trace says.
  ghost predicate NamesOk(s: State) {
    s.fields.serviceName == LastRenamed(s.trace) && IsIndexInForce(s.trace, s.fields.lastIndex)
  }

  // A query was asked before it is answered, and a list was answered before it is scheduled.
  ghost predicate PlaceLogged(trace: seq<Event>, p: Place) {
    match p
    case Querying(service, waitIndex) => Queried(service, waitIndex) in trace
    case Scheduling(service, addrs) => AnsweredWhileCurrent(trace, service, addrs)
    case _ => true
  }

  ghost predicate WorkersLogged(s: State) {
    forall w :: w in s.workers ==> PlaceLogged(s.trace, s.workers[w])
  }

  // An armed timer was armed by the latest Schedule and has not fired; a callback's timer has.
  ghost predicate TimersLogged(s: State) {
    && (forall t :: t in s.fields.armed ==> Armed(t) in SinceScheduled(s.trace) && Fired(t) !in s.trace)
    && (forall t :: t in s.callbacks ==> Fired(t) in s.trace)
    && (forall t: nat :: Armed(t) in s.trace || Fired(t) in s.trace ==> t < s.fields.nextTimer)
  }

  // A goroutine that has committed a list and not yet left the select that sends it.
  datatype Sender = TimerCallback(timer: nat) | DiscoverCall(worker: Worker)

  ghost predicate Holds(s: State, w: Sender, commit: nat) {
    match w
    case TimerCallback(t) => t in s.callbacks && s.callbacks[t] == AtSend(commit)
    case DiscoverCall(x) => x in s.workers && s.workers[x] == Publishing(commit)
  }

  ghost predicate SendersOk(s: State) {
    && (forall w: Sender, c: nat :: Holds(s, w, c) ==> c < CommitCount(s.trace) && !Settled(s.trace, c))
    && (forall w: Sender, w': Sender, c: nat :: Holds(s, w, c) && Holds(s, w', c) ==> w == w')
    && (forall c: nat :: c < CommitCount(s.trace) && !Settled(s.trace, c) ==> exists w :: Holds(s, w, c))
    && |s.channel| <= 1
  }

  ghost predicate Inv(debounce: int, s: State) {
    && TimersOk(s)
    && PendingOk(debounce, s)
    && NamesOk(s)
    && WorkersLogged(s)
    && TimersLogged(s)
    && SendersOk(s)
    && LawfulTrace(s.trace)
    && (if debounce > 0 then LockFree(s) else NoTimers(s))
    && WorkersOk(s)
  }

  // Only the starter has a time before Start, and updateChan is closed after everything else.
  ghost predicate WorkersOk(s: State) {
    && (forall w :: w in s.workers && s.workers[w].BeforeStart? ==> w.Starter?)
    && (s.channelClosed ==> WatchersLeft(s))
  }

  ghost predicate NoTimers(s: State) {
    s.fields.armed == {} && s.callbacks == map[]
  }

  // ----- one more event

  lemma Grow(trace: seq<Event>, e: Event)
    ensures Summarize(trace + [e]) == Include(Summarize(trace), e)
  {
    assert (trace + [e])[..|trace|] == trace;
  }

  lemma GrowLaw(trace: seq<Event>, e: Event)
    requires LawfulTrace(trace) && Lawful(trace, e)
    ensures LawfulTrace(trace + [e])
  {
    var longer := trace + [e];
    forall i | 0 <= i < |longer|
      ensures Lawful(longer[..i], longer[i])
    {
      if i < |trace| {
        assert longer[..i] == trace[..i];
      } else {
        assert longer[..i] == trace;
      }
    }
  }

  // ----- each step keeps the invariant

  lemma TimersScheduled(debounce: int, s: State, x: Worker)
    requires TimersOk(s) && x in s.workers && s.workers[x].Scheduling?
    ensures TimersOk(ScheduleMoves(debounce, s, x))
  {
  }

  lemma TimersKept(debounce: int, s: State, step: Step)
    requires TimersOk(s) && Enabled(s, step)
    ensures TimersOk(Next(debounce, s, step))
  {
    if step.ScheduleStep? {
      TimersScheduled(debounce, s, step.worker);
    }
    assert TimersOk(Moves(debounce, s, step));
  }

  // A step adds at most two events: only a Schedule adds two.
  lemma EventsGrow(debounce: int, s: State, step: Step)
    requires Enabled(s, step)
    ensures var added, after := EventsOf(debounce, s, step), Next(debounce, s, step).trace;
      && |added| <= 2
      && s.trace <= after
      && after == s.trace + added
      && (|added| == 0 ==> after == s.trace)
      && (|added| == 1 ==> after == s.trace + [added[0]])
      && (|added| == 2 ==> after == s.trace + [added[0]] + [added[1]])
  {
    var added := EventsOf(debounce, s, step);
    if |added| == 1 {
      assert added == [added[0]];
    } else if |added| == 2 {
      assert added == [added[0]] + [added[1]];
      assert s.trace + added == s.trace + [added[0]] + [added[1]];
    }
  }

  // ----- names

  lemma NamesGrow(trace: seq<Event>, e: Event)
    ensures LastRenamed(trace + [e]) == if e.Renamed? then e.name else LastRenamed(trace)
  {
    assert (trace + [e])[..|trace|] == trace;
  }

  lemma InForceGrows(trace: seq<Event>, e: Event, i: nat)
    ensures InForce(trace + [e], i) <==>
      if i == |trace| then e.Answered? && e.service == LastRenamed(trace) else InForce(trace, i) && !e.Renamed?
  {
    var longer := trace + [e];
    if i < |trace| {
      assert longer[..i] == trace[..i];
      NotRenamedGrows(trace, e, i);
    } else if i == |trace| {
      assert longer[..i] == trace;
    }
  }

  lemma NotRenamedGrows(trace: seq<Event>, e: Event, i: nat)
    requires i < |trace|
    ensures NotRenamedAfter(trace + [e], i) <==> NotRenamedAfter(trace, i) && !e.Renamed?
  {
    var longer := trace + [e];
    assert longer[|trace|] == e && forall k :: 0 <= k < |trace| ==> longer[k] == trace[k];
  }

  lemma IndexGrows(trace: seq<Event>, e: Event, index: nat)
    requires IsIndexInForce(trace, index)
    ensures IsIndexInForce(trace + [e],
      if e.Renamed? then 0 else if e.Answered? && e.service == LastRenamed(trace) then e.index else index)
  {
    var longer := trace + [e];
    forall i: nat
      ensures InForce(longer, i) <==>
        if i == |trace| then e.Answered? && e.service == LastRenamed(trace) else InForce(trace, i) && !e.Renamed?
    {
      InForceGrows(trace, e, i);
    }
    if e.Answered? && e.service == LastRenamed(trace) {
      assert InForce(longer, |trace|) && longer[|trace|] == e;
    } else if !e.Renamed? && exists i: nat :: InForce(trace, i) {
      var i: nat :| InForce(trace, i) && index == trace[i].index && forall k: nat :: i < k ==> !InForce(trace, k);
      assert InForce(longer, i) && longer[i] == trace[i];
    }
  }

  // The names after one event that they follow.
  lemma NamesAfter(s: State, s': State, e: Event)
    requires NamesOk(s) && s'.trace == s.trace + [e]
    requires s'.fields.serviceName == if e.Renamed? then e.name else s.fields.serviceName
    requires s'.fields.lastIndex ==
      if e.Renamed? then 0
      else if e.Answered? && e.service == s.fields.serviceName then e.index
      else s.fields.lastIndex
    ensures NamesOk(s')
  {
    NamesGrow(s.trace, e);
    IndexGrows(s.trace, e, s.fields.lastIndex);
  }

  lemma NamesKept(debounce: int, s: State, step: Step)
    requires NamesOk(s) && Enabled(s, step)
    ensures NamesOk(Next(debounce, s, step))
  {
    var s', added := Next(debounce, s, step), EventsOf(debounce, s, step);
    EventsGrow(debounce, s, step);
    if |added| == 1 {
      NamesAfter(s, s', added[0]);
    } else if |added| == 2 {
      var between := s.(trace := s.trace + [added[0]]);
      NamesAfter(s, between, added[0]);
      NamesAfter(between, s', added[1]);
    }
  }

  // ----- what the workers are about to do

  lemma AnswerKept(trace: seq<Event>, more: seq<Event>, service: string, addrs: AddressList)
    requires AnsweredWhileCurrent(trace, service, addrs)
    ensures AnsweredWhileCurrent(trace + more, service, addrs)
  {
    var i: nat :| i < |trace| && AnswerAt(trace, i, service, addrs);
    assert (trace + more)[..i] == trace[..i];
    assert AnswerAt(trace + more, i, service, addrs);
  }

  lemma PlaceKept(trace: seq<Event>, more: seq<Event>, p: Place)
    requires PlaceLogged(trace, p)
    ensures PlaceLogged(trace + more, p)
  {
    if p.Scheduling? {
      AnswerKept(trace, more, p.service, p.addrs);
    }
  }

  lemma WorkersLoggedKept(debounce: int, s: State, step: Step)
    requires NamesOk(s) && WorkersLogged(s) && Enabled(s, step)
    ensures WorkersLogged(Next(debounce, s, step))
  {
    var s' := Next(debounce, s, step);
    var added := EventsOf(debounce, s, step);
    EventsGrow(debounce, s, step);
    forall w | w in s'.workers
      ensures PlaceLogged(s'.trace, s'.workers[w])
    {
      if w in s.workers && s'.workers[w] == s.workers[w] {
        PlaceKept(s.trace, added, s.workers[w]);
      } else if step.AcceptStep? {
        AnswerLogged(s.trace, s.workers[w].service, step.index, step.addrs);
      } else if step.SnapshotStep? {
        assert s'.trace[|s.trace|] == Queried(s.fields.serviceName, s.fields.lastIndex);
      }
    }
  }

  lemma AnswerLogged(trace: seq<Event>, service: string, index: nat, addrs: AddressList)
    requires service == LastRenamed(trace)
    ensures AnsweredWhileCurrent(trace + [Answered(service, index, addrs)], service, addrs)
  {
    var longer := trace + [Answered(service, index, addrs)];
    assert longer[..|trace|] == trace;
    assert AnswerAt(longer, |trace|, service, addrs);
  }

  // ----- what the timers did

  lemma SinceGrows(trace: seq<Event>, e: Event)
    ensures SinceScheduled(trace + [e]) == if e.Scheduled? then [] else SinceScheduled(trace) + [e]
  {
    assert (trace + [e])[..|trace|] == trace;
  }

  // No timer is created or fired, and at most one event is added.
  lemma TimersLoggedFewer(s: State, s': State, added: seq<Event>)
    requires TimersLogged(s) && s'.trace == s.trace + added && |added| <= 1
    requires forall e :: e in added ==> !e.Scheduled? && !e.Armed? && !e.Fired?
    requires s'.fields.armed <= s.fields.armed && s'.fields.nextTimer == s.fields.nextTimer
    requires s'.callbacks.Keys <= s.callbacks.Keys
    ensures TimersLogged(s')
  {
    if added == [] {
      assert s'.trace == s.trace;
    } else {
      assert added == [added[0]];
      SinceGrows(s.trace, added[0]);
    }
    assert forall t :: t in s'.callbacks ==> t in s'.callbacks.Keys;
  }

  lemma TimersFewer(debounce: int, s: State, step: Step)
    requires Enabled(s, step) && !step.ScheduleStep? && !step.FireStep?
    ensures var s' := Next(debounce, s, step);
      && s'.fields.armed <= s.fields.armed && s'.fields.nextTimer == s.fields.nextTimer
      && s'.callbacks.Keys <= s.callbacks.Keys
  {
  }

  // Steps that create or fire no timer.
  lemma TimersLoggedOtherwise(debounce: int, s: State, step: Step)
    requires TimersLogged(s) && Enabled(s, step) && !step.ScheduleStep? && !step.FireStep?
    ensures TimersLogged(Next(debounce, s, step))
  {
    EventsGrow(debounce, s, step);
    TimersFewer(debounce, s, step);
    TimersLoggedFewer(s, Next(debounce, s, step), EventsOf(debounce, s, step));
  }

  lemma TimersLoggedFired(debounce: int, s: State, t: nat)
    requires TimersOk(s) && TimersLogged(s) && Enabled(s, FireStep(t))
    ensures TimersLogged(Next(debounce, s, FireStep(t)))
  {
    SinceGrows(s.trace, Fired(t));
  }

  // After a Schedule only the timer it created is armed.
  lemma OnlyNewTimerArmed(debounce: int, s: State, x: Worker)
    requires TimersOk(s) && x in s.workers && s.workers[x].Scheduling?
    ensures var f := ScheduleMoves(debounce, s, x).fields;
      if debounce > 0 && multiset(s.fields.lastAddresses) != multiset(s.workers[x].addrs)
      then f.armed == {s.fields.nextTimer} && f.nextTimer == s.fields.nextTimer + 1
      else f.armed == {} && f.nextTimer == s.fields.nextTimer
  {
  }

  // The timers after a Schedule that armed a new timer or none.
  lemma TimersLoggedAfter(s: State, s': State, scheduled: Event, arms: bool)
    requires TimersOk(s) && TimersLogged(s) && scheduled.Scheduled?
    requires s'.callbacks == s.callbacks
    requires if arms then
        && s'.fields.armed == {s.fields.nextTimer} && s'.fields.nextTimer == s.fields.nextTimer + 1
        && s'.trace == s.trace + [scheduled] + [Armed(s.fields.nextTimer)]
      else
        && s'.fields.armed == {} && s'.fields.nextTimer == s.fields.nextTimer
        && (forall t: nat :: Armed(t) in s'.trace <==> Armed(t) in s.trace)
        && (forall t: nat :: Fired(t) in s'.trace <==> Fired(t) in s.trace)
    ensures TimersLogged(s')
  {
    if arms {
      SinceGrows(s.trace, scheduled);
      SinceGrows(s.trace + [scheduled], Armed(s.fields.nextTimer));
    }
  }

  lemma TimersLoggedScheduled(debounce: int, s: State, x: Worker)
    requires TimersOk(s) && TimersLogged(s) && Enabled(s, ScheduleStep(x))
    ensures TimersLogged(Next(debounce, s, ScheduleStep(x)))
  {
    var s', d := Next(debounce, s, ScheduleStep(x)), s.workers[x];
    var added := EventsOf(debounce, s, ScheduleStep(x));
    OnlyNewTimerArmed(debounce, s, x);
    EventsGrow(debounce, s, ScheduleStep(x));
    TimersLoggedAfter(s, s', added[0], debounce > 0 && multiset(s.fields.lastAddresses) != multiset(d.addrs));
  }

  lemma TimersLoggedKept(debounce: int, s: State, step: Step)
    requires TimersOk(s) && TimersLogged(s) && Enabled(s, step)
    ensures TimersLogged(Next(debounce, s, step))
  {
    match step
    case ScheduleStep(x) => TimersLoggedScheduled(debounce, s, x);
    case FireStep(t) => TimersLoggedFired(debounce, s, t);
    case _ => TimersLoggedOtherwise(debounce, s, step);
  }

  // ----- lists

  // A step that touches neither the committed nor the pending list.
  predicate LeavesLists(step: Step) {
    !step.ScheduleStep? && !step.CommitStep?
  }

  lemma CommitterStillWaiting(debounce: int, s: State, step: Step)
    requires TimersOk(s) && Enabled(s, step) && LeavesLists(step)
    requires CommitterWaiting(s) && !Next(debounce, s, step).closed
    requires s.closed <==> Closed in s.trace
    ensures CommitterWaiting(Next(debounce, s, step))
  {
    var s' := Next(debounce, s, step);
    if s.fields.armed == {} {
      var t :| t in s.callbacks && !s.callbacks[t].AtSend?;
      assert t in s'.callbacks && !s'.callbacks[t].AtSend?;
    } else {
      var t :| t in s.fields.armed;
      assert t in s'.fields.armed || (t in s'.callbacks && !s'.callbacks[t].AtSend?);
    }
  }

  // The summary of a trace, and whether it says that doneChan was closed, change only with the events that say so.
  lemma SummaryKept(debounce: int, s: State, step: Step)
    requires Enabled(s, step) && LeavesLists(step)
    ensures var s' := Next(debounce, s, step);
      && Summarize(s'.trace) == Summarize(s.trace)
      && (Closed in s'.trace <==> Closed in s.trace || step.CloseStep?)
  {
    EventsGrow(debounce, s, step);
    SummaryAfter(s.trace, EventsOf(debounce, s, step));
  }

  lemma SummaryAfter(trace: seq<Event>, added: seq<Event>)
    requires |added| <= 1 && forall e :: e in added ==> !e.Scheduled? && !e.Committed?
    ensures Summarize(trace + added) == Summarize(trace)
  {
    if added == [] {
      assert trace + added == trace;
    } else {
      assert added == [added[0]];
      Grow(trace, added[0]);
    }
  }

  lemma PendingKept(debounce: int, s: State, step: Step)
    requires TimersOk(s) && PendingOk(debounce, s) && Enabled(s, step) && LeavesLists(step)
    ensures PendingOk(debounce, Next(debounce, s, step))
  {
    SummaryKept(debounce, s, step);
    if CommitterWaiting(s) && !Next(debounce, s, step).closed {
      CommitterStillWaiting(debounce, s, step);
    }
  }

  // PendingOk after a Schedule, from the fields and the summary alone.
  lemma PendingAfter(debounce: int, s: State, s': State, addrs: AddressList, maker: Option<nat>)
    requires PendingOk(debounce, s) && s'.fields == Schedule(debounce, s.fields, addrs)
    requires s'.closed == s.closed && (Closed in s'.trace <==> Closed in s.trace)
    requires var scheduled := Include(Summarize(s.trace), Scheduled("", addrs));
      Summarize(s'.trace) ==
      if CommitsAtOnce(debounce, s.fields, addrs) then Include(scheduled, Committed(addrs, maker)) else scheduled
    ensures PendingOk(debounce, s')
  {
    if multiset(s.fields.lastAddresses) == multiset(addrs) {
      assert s'.fields.pending.None? && s'.fields.lastAddresses == s.fields.lastAddresses;
    } else if debounce <= 0 {
      assert s'.fields.pending.None? && s'.fields.lastAddresses == addrs;
    } else {
      assert s'.fields.pending == Some(addrs) && s.fields.nextTimer in s'.fields.armed;
    }
  }

  lemma PendingScheduled(debounce: int, s: State, x: Worker)
    requires PendingOk(debounce, s) && Enabled(s, ScheduleStep(x))
    ensures PendingOk(debounce, Next(debounce, s, ScheduleStep(x)))
  {
    ScheduleGrows(debounce, s, x);
    PendingAfter(debounce, s, Next(debounce, s, ScheduleStep(x)), s.workers[x].addrs, None);
  }

  lemma PendingCommitted(debounce: int, s: State, t: nat)
    requires PendingOk(debounce, s) && Enabled(s, CommitStep(t))
    ensures PendingOk(debounce, Next(debounce, s, CommitStep(t)))
  {
    if s.fields.pending.Some? {
      Grow(s.trace, Committed(s.fields.pending.value, Some(t)));
    }
  }

  // A step that settles no commit, makes none and moves no sender.
  lemma SameSenders(s: State, s': State)
    requires SendersOk(s)
    requires forall w: Sender, c: nat :: Holds(s', w, c) <==> Holds(s, w, c)
    requires CommitCount(s'.trace) == CommitCount(s.trace)
    requires forall c: nat :: Settled(s'.trace, c) <==> Settled(s.trace, c)
    requires |s'.channel| <= 1
    ensures SendersOk(s')
  {
    forall c: nat | c < CommitCount(s'.trace) && !Settled(s'.trace, c)
      ensures exists w :: Holds(s', w, c)
    {
      var w :| Holds(s, w, c);
      assert Holds(s', w, c);
    }
  }

  // A step that makes one commit, which `maker` holds.
  lemma OneMoreSender(s: State, s': State, maker: Sender)
    requires SendersOk(s)
    requires CommitCount(s'.trace) == CommitCount(s.trace) + 1
    requires forall w: Sender, c: nat ::
      Holds(s', w, c) <==> Holds(s, w, c) || (w == maker && c == CommitCount(s.trace))
    requires forall c: nat :: Settled(s'.trace, c) <==> Settled(s.trace, c)
    requires LawfulTrace(s.trace)
    requires |s'.channel| <= 1
    ensures SendersOk(s')
  {
    SettledIsOld(s.trace, CommitCount(s.trace));
    assert Holds(s', maker, CommitCount(s.trace));
    forall c: nat | c < CommitCount(s'.trace) && !Settled(s'.trace, c)
      ensures exists w :: Holds(s', w, c)
    {
      if c < CommitCount(s.trace) {
        var w :| Holds(s, w, c);
        assert Holds(s', w, c);
      }
    }
  }

  // A step in which `leaver` settles the commit it holds.
  lemma OneSenderLess(s: State, s': State, leaver: Sender, commit: nat)
    requires SendersOk(s) && Holds(s, leaver, commit)
    requires CommitCount(s'.trace) == CommitCount(s.trace)
    requires forall w: Sender, c: nat :: Holds(s', w, c) <==> Holds(s, w, c) && w != leaver
    requires forall c: nat :: Settled(s'.trace, c) <==> Settled(s.trace, c) || c == commit
    requires |s'.channel| <= 1
    ensures SendersOk(s')
  {
    forall c: nat | c < CommitCount(s'.trace) && !Settled(s'.trace, c)
      ensures exists w :: Holds(s', w, c)
    {
      var w :| Holds(s, w, c);
      assert w != leaver;
      assert Holds(s', w, c);
    }
  }

  lemma CommitCountGrows(trace: seq<Event>, i: nat)
    requires i <= |trace|
    ensures CommitCount(trace[..i]) <= CommitCount(trace)
  {
    if i < |trace| {
      CommitCountGrows(trace[..|trace| - 1], i);
      assert trace[..|trace| - 1][..i] == trace[..i];
    } else {
      assert trace[..i] == trace;
    }
  }

  // Only commits already made are ever settled.
  lemma SettledIsOld(trace: seq<Event>, commit: nat)
    requires LawfulTrace(trace)
    ensures Settled(trace, commit) ==> commit < CommitCount(trace)
  {
    if Settled(trace, commit) {
      var i :| 0 <= i < |trace| && (trace[i] == Sent(commit) || trace[i] == Dropped(commit));
      assert Lawful(trace[..i], trace[i]);
      CommitCountGrows(trace, i);
    }
  }

  // A step that neither commits nor leaves a select.
  predicate LeavesSenders(step: Step) {
    LeavesLists(step) && !step.PublishStep? && !step.SendStep?
  }

  lemma HoldersKept(debounce: int, s: State, step: Step, w: Sender, c: nat)
    requires TimersOk(s) && Enabled(s, step) && LeavesSenders(step)
    ensures Holds(Next(debounce, s, step), w, c) <==> Holds(s, w, c)
  {
  }

  lemma SettledKept(debounce: int, s: State, step: Step, c: nat)
    requires Enabled(s, step) && LeavesSenders(step)
    ensures Settled(Next(debounce, s, step).trace, c) <==> Settled(s.trace, c)
  {
    EventsGrow(debounce, s, step);
  }

  lemma SendersKept(debounce: int, s: State, step: Step)
    requires TimersOk(s) && SendersOk(s) && Enabled(s, step) && LeavesSenders(step)
    ensures SendersOk(Next(debounce, s, step))
  {
    var s' := Next(debounce, s, step);
    SummaryKept(debounce, s, step);
    forall w: Sender, c: nat {
      HoldersKept(debounce, s, step, w, c);
    }
    forall c: nat {
      SettledKept(debounce, s, step, c);
    }
    SameSenders(s, s');
  }

  // Events that settle no commit and close nothing.
  lemma OtherEventsAppended(trace: seq<Event>, added: seq<Event>)
    requires forall e :: e in added ==> !e.Sent? && !e.Dropped? && !e.Closed?
    ensures Closed in trace + added <==> Closed in trace
    ensures forall c: nat :: Settled(trace + added, c) <==> Settled(trace, c)
  {
  }

  // Facts about the trace after a Schedule.
  lemma ScheduleGrows(debounce: int, s: State, x: Worker)
    requires Enabled(s, ScheduleStep(x))
    ensures var trace', d := Next(debounce, s, ScheduleStep(x)).trace, s.workers[x];
      && Summarize(trace') ==
         (if CommitsAtOnce(debounce, s.fields, d.addrs)
          then Include(Include(Summarize(s.trace), Scheduled(d.service, d.addrs)), Committed(d.addrs, None))
          else Include(Summarize(s.trace), Scheduled(d.service, d.addrs)))
      && (Closed in trace' <==> Closed in s.trace)
      && (forall c: nat :: Settled(trace', c) <==> Settled(s.trace, c))
  {
    var d := s.workers[x];
    var added := EventsOf(debounce, s, ScheduleStep(x));
    EventsGrow(debounce, s, ScheduleStep(x));
    OtherEventsAppended(s.trace, added);
    Grow(s.trace, Scheduled(d.service, d.addrs));
    if |added| == 2 {
      Grow(s.trace + [added[0]], added[1]);
    }
  }

  // A Schedule by worker x, whatever it does to the fields.
  ghost predicate SchedulesAs(s: State, s': State, x: Worker, commits: bool) {
    && s'.callbacks == s.callbacks && s'.channel == s.channel
    && s'.workers == (if commits then s.workers[x := Publishing(CommitCount(s.trace))] else s.workers - {x})
    && CommitCount(s'.trace) == CommitCount(s.trace) + (if commits then 1 else 0)
    && forall c: nat :: Settled(s'.trace, c) <==> Settled(s.trace, c)
  }

  lemma SendersScheduledAs(s: State, s': State, x: Worker, commits: bool)
    requires SendersOk(s) && LawfulTrace(s.trace) && x in s.workers && s.workers[x].Scheduling?
    requires SchedulesAs(s, s', x, commits)
    ensures SendersOk(s')
  {
    if commits {
      OneMoreSender(s, s', DiscoverCall(x));
    } else {
      SameSenders(s, s');
    }
  }

  lemma SendersScheduled(debounce: int, s: State, x: Worker)
    requires SendersOk(s) && LawfulTrace(s.trace) && Enabled(s, ScheduleStep(x))
    ensures SendersOk(Next(debounce, s, ScheduleStep(x)))
  {
    ScheduleGrows(debounce, s, x);
    SendersScheduledAs(s, Next(debounce, s, ScheduleStep(x)), x, CommitsAtOnce(debounce, s.fields, s.workers[x].addrs));
  }

  // A callback's locked section, whatever it does to the fields.
  lemma SendersCommittedAs(s: State, s': State, t: nat, e: Event)
    requires SendersOk(s) && LawfulTrace(s.trace) && t in s.callbacks && s.callbacks[t].AtCommit? && e.Committed?
    requires s'.trace == s.trace + [e] && s'.channel == s.channel && s'.workers == s.workers
    requires s'.callbacks == s.callbacks[t := AtSend(CommitCount(s.trace))]
    ensures SendersOk(s')
  {
    Grow(s.trace, e);
    OtherEventsAppended(s.trace, [e]);
    OneMoreSender(s, s', TimerCallback(t));
  }

  lemma SendersCommitted(debounce: int, s: State, t: nat)
    requires SendersOk(s) && LawfulTrace(s.trace) && Enabled(s, CommitStep(t))
    ensures SendersOk(Next(debounce, s, CommitStep(t)))
  {
    var s' := Next(debounce, s, CommitStep(t));
    if s.fields.pending.Some? {
      SendersCommittedAs(s, s', t, Committed(s.fields.pending.value, Some(t)));
    } else {
      SameSenders(s, s');
    }
  }

  function LeaverOf(step: Step): Sender
    requires step.PublishStep? || step.SendStep?
  {
    if step.SendStep? then TimerCallback(step.timer) else DiscoverCall(step.worker)
  }

  function LeaverCommit(s: State, step: Step): nat
    requires Enabled(s, step) && (step.PublishStep? || step.SendStep?)
  {
    if step.SendStep? then s.callbacks[step.timer].commit else s.workers[step.worker].commit
  }

  // The sender leaves its select, whichever way.
  lemma SendersLeftAs(s: State, s': State, leaver: Sender, commit: nat, sent: bool)
    requires SendersOk(s) && Holds(s, leaver, commit) && |s'.channel| <= 1
    requires s'.trace == s.trace + [LeaveEvent(commit, sent)]
    requires forall w: Sender, c: nat :: Holds(s', w, c) <==> Holds(s, w, c) && w != leaver
    ensures SendersOk(s')
  {
    Grow(s.trace, LeaveEvent(commit, sent));
    OneSenderLess(s, s', leaver, commit);
  }

  lemma HoldersLeft(debounce: int, s: State, step: Step, w: Sender, c: nat)
    requires Enabled(s, step) && (step.PublishStep? || step.SendStep?)
    ensures Holds(Next(debounce, s, step), w, c) <==> Holds(s, w, c) && w != LeaverOf(step)
  {
  }

  lemma SendersLeft(debounce: int, s: State, step: Step)
    requires SendersOk(s) && LawfulTrace(s.trace) && Enabled(s, step)
    requires step.PublishStep? || step.SendStep?
    ensures SendersOk(Next(debounce, s, step))
  {
    forall w: Sender, c: nat
      ensures Holds(Next(debounce, s, step), w, c) <==> Holds(s, w, c) && w != LeaverOf(step)
    {
      HoldersLeft(debounce, s, step, w, c);
    }
    EventsGrow(debounce, s, step);
    SendersLeftAs(s, Next(debounce, s, step), LeaverOf(step), LeaverCommit(s, step), step.sent);
  }

  // ----- the law

  lemma LeaverLaw(s: State, step: Step)
    requires SendersOk(s) && Enabled(s, step) && (step.PublishStep? || step.SendStep?)
    requires s.closed <==> Closed in s.trace
    ensures Lawful(s.trace, LeaveEvent(LeaverCommit(s, step), step.sent))
  {
    assert Holds(s, LeaverOf(step), LeaverCommit(s, step));
  }

  lemma ScheduleLaw(debounce: int, s: State, x: Worker)
    requires Inv(debounce, s) && Enabled(s, ScheduleStep(x))
    ensures LawfulTrace(Next(debounce, s, ScheduleStep(x)).trace)
  {
    var added := EventsOf(debounce, s, ScheduleStep(x));
    EventsGrow(debounce, s, ScheduleStep(x));
    GrowLaw(s.trace, added[0]);
    if |added| == 2 {
      var scheduled := s.trace + [added[0]];
      Grow(s.trace, added[0]);
      assert scheduled[|scheduled| - 1] == added[0];
      GrowLaw(scheduled, added[1]);
    }
  }

  // The event of any other step is lawful.
  lemma EventLaw(debounce: int, s: State, step: Step)
    requires Inv(debounce, s) && Enabled(s, step) && !step.ScheduleStep?
    ensures forall e :: e in EventsOf(debounce, s, step) ==> Lawful(s.trace, e)
  {
    if step.PublishStep? || step.SendStep? {
      LeaverLaw(s, step);
    } else if step.AcceptStep? {
      assert PlaceLogged(s.trace, s.workers[step.worker]);
    }
  }

  lemma LawKept(debounce: int, s: State, step: Step)
    requires Inv(debounce, s) && Enabled(s, step)
    ensures LawfulTrace(Next(debounce, s, step).trace)
  {
    if step.ScheduleStep? {
      ScheduleLaw(debounce, s, step.worker);
    } else {
      EventLaw(debounce, s, step);
      EventsGrow(debounce, s, step);
      var added := EventsOf(debounce, s, step);
      if |added| == 1 {
        GrowLaw(s.trace, added[0]);
      }
    }
  }

  lemma LockKept(debounce: int, s: State, step: Step)
    requires debounce > 0 && LockFree(s) && Enabled(s, step)
    ensures LockFree(Next(debounce, s, step))
  {
  }

  lemma NoTimersKept(debounce: int, s: State, step: Step)
    requires debounce <= 0 && NoTimers(s) && Enabled(s, step)
    ensures NoTimers(Next(debounce, s, step))
  {
  }

  lemma WorkersKept(debounce: int, s: State, step: Step)
    requires WorkersOk(s) && Enabled(s, step)
    ensures WorkersOk(Next(debounce, s, step))
  {
  }

  lemma PendingStep(debounce: int, s: State, step: Step)
    requires TimersOk(s) && PendingOk(debounce, s) && Enabled(s, step)
    ensures PendingOk(debounce, Next(debounce, s, step))
  {
    match step
    case ScheduleStep(x) => PendingScheduled(debounce, s, x);
    case CommitStep(t) => PendingCommitted(debounce, s, t);
    case _ => PendingKept(debounce, s, step);
  }

  lemma SendersStep(debounce: int, s: State, step: Step)
    requires TimersOk(s) && SendersOk(s) && LawfulTrace(s.trace) && Enabled(s, step)
    ensures SendersOk(Next(debounce, s, step))
  {
    match step
    case ScheduleStep(x) => SendersScheduled(debounce, s, x);
    case CommitStep(t) => SendersCommitted(debounce, s, t);
    case PublishStep(_, _) => SendersLeft(debounce, s, step);
    case SendStep(_, _) => SendersLeft(debounce, s, step);
    case _ => SendersKept(debounce, s, step);
  }

  lemma StepKeeps(debounce: int, s: State, step: Step)
    requires Inv(debounce, s) && Enabled(s, step)
    ensures Inv(debounce, Next(debounce, s, step))
  {
    TimersKept(debounce, s, step);
    NamesKept(debounce, s, step);
    WorkersLoggedKept(debounce, s, step);
    TimersLoggedKept(debounce, s, step);
    LawKept(debounce, s, step);
    WorkersKept(debounce, s, step);
    if debounce > 0 {
      LockKept(debounce, s, step);
    } else {
      NoTimersKept(debounce, s, step);
    }
    PendingStep(debounce, s, step);
    SendersStep(debounce, s, step);
  }

  lemma {:induction false} ExecKeeps(debounce: int, s: State, steps: seq<Step>)
    requires Inv(debounce, s)
    ensures Exec(debounce, s, steps).Some? ==> Inv(debounce, Exec(debounce, s, steps).value)
    decreases |steps|
  {
    if steps != [] && Enabled(s, steps[0]) {
      StepKeeps(debounce, s, steps[0]);
      ExecKeeps(debounce, Next(debounce, s, steps[0]), steps[1..]);
    }
  }

  lemma ReachableStatesSatisfyInv(debounce: int, s: State)
    requires Reachable(debounce, s)
    ensures Inv(debounce, s)
  {
    var steps :| Exec(debounce, INIT, steps) == Some(s);
    ExecKeeps(debounce, INIT, steps);
  }

  lemma ExecAppend(debounce: int, s: State, first: seq<Step>, rest: seq<Step>)
    requires Exec(debounce, s, first).Some?
    ensures Exec(debounce, s, first + rest) == Exec(debounce, Exec(debounce, s, first).value, rest)
    decreases |first|
  {
    if first == [] {
      assert first + rest == rest;
    } else {
      assert (first + rest)[1..] == first[1..] + rest;
      ExecAppend(debounce, Next(debounce, s, first[0]), first[1..], rest);
    }
  }

  lemma ReachableStep(debounce: int, s: State, step: Step)
    requires Reachable(debounce, s) && Enabled(s, step)
    ensures Reachable(debounce, Next(debounce, s, step))
  {
    var steps :| Exec(debounce, INIT, steps) == Some(s);
    ExecAppend(debounce, INIT, steps, [step]);
    var after := Next(debounce, s, step);
    assert Exec(debounce, after, []) == Some(after);
    assert Exec(debounce, s, [step]) == Some(after);
  }
}
