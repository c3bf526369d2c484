/** The Consul resolver as a step relation: one step for every section of code that runs under `mu`, one for every
    firing of a timer, and one for each of the places where a goroutine looks at doneChan or at updateChan. */
module ResolverSteps {
  import opened Addresses
  import opened Optional

  type AddressList = seq<Address>

  // What `mu` guards, together with the timers the Go runtime still has to fire. A timer is named by the number of
  // timers created before it. A slice that may be nil is an Option: an empty address list is not nil.
  datatype Fields = Fields(
    serviceName: string,
    lastIndex: nat,
    lastAddresses: AddressList,
    pending: Option<AddressList>,
    timer: Option<nat>,
    armed: set<nat>,
    nextTimer: nat)

  const NO_FIELDS := Fields("", 0, [], None, None, {}, 0)

  function Rename(f: Fields, name: string): Fields {
    if Renames(f, name) then f.(serviceName := name, lastIndex := 0) else f
  }

  predicate Renames(f: Fields, name: string) {
    name != "" && name != f.serviceName
  }

  function Accept(f: Fields, service: string, index: nat): Fields {
    if service == f.serviceName then f.(lastIndex := index) else f
  }

  // Timer.Stop keeps an armed timer from firing and does nothing to one that has fired.
  function StopTimer(f: Fields): Fields {
    if f.timer.Some? then f.(armed := f.armed - {f.timer.value}) else f
  }

  // scheduleAddressUpdate commits at once when there is no debounce period and the list is new.
  ghost predicate CommitsAtOnce(debounce: int, f: Fields, addrs: AddressList) {
    multiset(f.lastAddresses) != multiset(addrs) && debounce <= 0
  }

  ghost function Schedule(debounce: int, f: Fields, addrs: AddressList): Fields {
    var g := StopTimer(f).(timer := None);
    if multiset(f.lastAddresses) == multiset(addrs) then
      g.(pending := None)
    else if debounce <= 0 then
      g.(lastAddresses := addrs)
    else
      g.(pending := Some(addrs), timer := Some(g.nextTimer), armed := g.armed + {g.nextTimer},
         nextTimer := g.nextTimer + 1)
  }

  // The locked section of a timer callback.
  function Commit(f: Fields): Fields {
    if f.pending.Some? then f.(lastAddresses := f.pending.value, pending := None) else f
  }

  // Where a callback stands after its timer fired.
  datatype Callback = AtDoneCheck | AtCommit | AtSend(commit: nat)

  // The goroutines that call discover: the one that calls Start, once, and the two watchers it launches afterwards.
  datatype Worker = Starter | ServiceWatcher | KvWatcher

  // Where such a goroutine stands: before Start, reading the KV key, about to call discover, inside the Health query,
  // between discover's own locked section and that of scheduleAddressUpdate, inside a send made while `mu` is held, or
  // out of its loop for good. A watcher that stands nowhere is at the top of its loop, where it looks at doneChan.
  datatype Place =
    | BeforeStart
    | Fetching
    | Starting
    | Querying(service: string, waitIndex: nat)
    | Scheduling(service: string, addrs: AddressList)
    | Publishing(commit: nat)
    | Left

  // Commits are numbered from zero in the order of the writes to lastAddresses; a commit is made by the callback of a
  // timer or, without debouncing, by scheduleAddressUpdate itself.
  datatype Event =
    | Renamed(name: string)
    | Queried(service: string, waitIndex: nat)
    | Answered(service: string, index: nat, addrs: AddressList)
    | Scheduled(service: string, addrs: AddressList)
    | Armed(timer: nat)
    | Fired(timer: nat)
    | Committed(addrs: AddressList, maker: Option<nat>)
    | Sent(commit: nat)
    | Dropped(commit: nat)
    | Received(commit: nat)
    | Closed

  datatype State = State(
    fields: Fields,
    closed: bool,
    callbacks: map<nat, Callback>,
    workers: map<Worker, Place>,
    channel: seq<nat>,
    channelClosed: bool,
    trace: seq<Event>)

  const INIT := State(NO_FIELDS, false, map[], map[Starter := BeforeStart], [], false, [])

  datatype Step =
    | StartStep
    | LookStep(worker: Worker)
    | LeaveStep(worker: Worker)
    | SkipStep(worker: Worker)
    | RenameStep(worker: Worker, name: string)
    | SnapshotStep(worker: Worker)
    | FailStep(worker: Worker)
    | AcceptStep(worker: Worker, index: nat, addrs: AddressList)
    | ScheduleStep(worker: Worker)
    | PublishStep(worker: Worker, sent: bool)
    | FireStep(timer: nat)
    | DoneCheckStep(timer: nat)
    | CommitStep(timer: nat)
    | SendStep(timer: nat, sent: bool)
    | ReceiveStep
    | CloseStep
    | StopTimerStep
    | CloseChannelStep

  // `mu` is held across a blocking operation only by a discover that publishes without debouncing.
  predicate LockFree(s: State) {
    forall w :: w in s.workers ==> !s.workers[w].Publishing?
  }

  // At the top of a watcher's loop, which exists only after the first discover of Start: with doneChan open it goes on,
  // otherwise it leaves.
  predicate AtLook(s: State, w: Worker) {
    !w.Starter? && Starter !in s.workers && w !in s.workers
  }

  // Start waits for both watchers and then closes updateChan.
  predicate WatchersLeft(s: State) {
    && Starter !in s.workers
    && ServiceWatcher in s.workers && s.workers[ServiceWatcher].Left?
    && KvWatcher in s.workers && s.workers[KvWatcher].Left?
  }

  // After a read of the KV key: Start calls discover in any case, the watcher only if the service was renamed.
  function AfterFetch(s: State, w: Worker, renamed: bool): map<Worker, Place> {
    if w.Starter? || renamed then s.workers[w := Starting] else s.workers - {w}
  }

  // The select of publishAddressUpdate: the send needs an open channel with room for one more, the other case a closed
  // doneChan. On a closed channel the send panics.
  predicate CanLeaveSelect(s: State, sent: bool) {
    if sent then |s.channel| == 0 && !s.channelClosed else s.closed
  }

  predicate Enabled(s: State, step: Step) {
    match step
    case StartStep => Starter in s.workers && s.workers[Starter].BeforeStart?
    case LookStep(w) => AtLook(s, w) && !s.closed
    case LeaveStep(w) => AtLook(s, w) && s.closed
    case SkipStep(w) => w in s.workers && s.workers[w].Fetching?
    case RenameStep(w, name) => LockFree(s) && w in s.workers && s.workers[w].Fetching?
    case SnapshotStep(w) => LockFree(s) && w in s.workers && s.workers[w].Starting?
    case FailStep(w) => w in s.workers && s.workers[w].Querying?
    case AcceptStep(w, index, addrs) => LockFree(s) && w in s.workers && s.workers[w].Querying?
    case ScheduleStep(w) => LockFree(s) && w in s.workers && s.workers[w].Scheduling?
    case PublishStep(w, sent) => w in s.workers && s.workers[w].Publishing? && CanLeaveSelect(s, sent)
    case FireStep(t) => t in s.fields.armed
    case DoneCheckStep(t) => t in s.callbacks && s.callbacks[t].AtDoneCheck?
    case CommitStep(t) => LockFree(s) && t in s.callbacks && s.callbacks[t].AtCommit?
    case SendStep(t, sent) => t in s.callbacks && s.callbacks[t].AtSend? && CanLeaveSelect(s, sent)
    case ReceiveStep => |s.channel| > 0
    case CloseStep => !s.closed
    case StopTimerStep => LockFree(s) && s.closed
    case CloseChannelStep => WatchersLeft(s) && !s.channelClosed
  }

  // What the locked section of scheduleAddressUpdate adds to the trace.
  ghost function ScheduleEvents(debounce: int, f: Fields, service: string, addrs: AddressList): seq<Event> {
    if multiset(f.lastAddresses) == multiset(addrs) then [Scheduled(service, addrs)]
    else if debounce <= 0 then [Scheduled(service, addrs), Committed(addrs, None)]
    else [Scheduled(service, addrs), Armed(f.nextTimer)]
  }

  function LeaveEvent(commit: nat, sent: bool): Event {
    if sent then Sent(commit) else Dropped(commit)
  }

  ghost function EventsOf(debounce: int, s: State, step: Step): seq<Event>
    requires Enabled(s, step)
  {
    match step
    case RenameStep(w, name) => if Renames(s.fields, name) then [Renamed(name)] else []
    case SnapshotStep(w) => [Queried(s.fields.serviceName, s.fields.lastIndex)]
    case AcceptStep(w, index, addrs) => [Answered(s.workers[w].service, index, addrs)]
    case ScheduleStep(w) => ScheduleEvents(debounce, s.fields, s.workers[w].service, s.workers[w].addrs)
    case PublishStep(w, sent) => [LeaveEvent(s.workers[w].commit, sent)]
    case FireStep(t) => [Fired(t)]
    case CommitStep(t) => if s.fields.pending.Some? then [Committed(s.fields.pending.value, Some(t))] else []
    case SendStep(t, sent) => [LeaveEvent(s.callbacks[t].commit, sent)]
    case ReceiveStep => [Received(s.channel[0])]
    case CloseStep => [Closed]
    case _ => []
  }

  function LeaveSelect(s: State, commit: nat, sent: bool): State {
    if sent then s.(channel := s.channel + [commit]) else s
  }

  ghost function ScheduleMoves(debounce: int, s: State, w: Worker): State
    requires w in s.workers && s.workers[w].Scheduling?
  {
    var d := s.workers[w];
    s.(fields := Schedule(debounce, s.fields, d.addrs),
       workers := if CommitsAtOnce(debounce, s.fields, d.addrs) then s.workers[w := Publishing(CommitCount(s.trace))]
                  else s.workers - {w})
  }

  function CommitMoves(s: State, t: nat): State {
    if s.fields.pending.Some? then
      s.(fields := Commit(s.fields), callbacks := s.callbacks[t := AtSend(CommitCount(s.trace))])
    else
      s.(callbacks := s.callbacks - {t})
  }

  // A step's effect on everything but the trace.
  ghost function Moves(debounce: int, s: State, step: Step): State
    requires Enabled(s, step)
  {
    match step
    case StartStep =>
      s.(workers := s.workers[Starter := Fetching])
    case LookStep(w) =>
      s.(workers := s.workers[w := if w.KvWatcher? then Fetching else Starting])
    case LeaveStep(w) =>
      s.(workers := s.workers[w := Left])
    case SkipStep(w) =>
      s.(workers := AfterFetch(s, w, false))
    case RenameStep(w, name) =>
      s.(fields := Rename(s.fields, name), workers := AfterFetch(s, w, Renames(s.fields, name)))
    case SnapshotStep(w) =>
      s.(workers := s.workers[w := Querying(s.fields.serviceName, s.fields.lastIndex)])
    case FailStep(w) =>
      s.(workers := s.workers - {w})
    case AcceptStep(w, index, addrs) =>
      var service := s.workers[w].service;
      s.(fields := Accept(s.fields, service, index),
         workers := if service == s.fields.serviceName then s.workers[w := Scheduling(service, addrs)]
                    else s.workers - {w})
    case ScheduleStep(w) => ScheduleMoves(debounce, s, w)
    case PublishStep(w, sent) =>
      LeaveSelect(s.(workers := s.workers - {w}), s.workers[w].commit, sent)
    case FireStep(t) =>
      s.(fields := s.fields.(armed := s.fields.armed - {t}), callbacks := s.callbacks[t := AtDoneCheck])
    case DoneCheckStep(t) =>
      s.(callbacks := if s.closed then s.callbacks - {t} else s.callbacks[t := AtCommit])
    case CommitStep(t) => CommitMoves(s, t)
    case SendStep(t, sent) =>
      LeaveSelect(s.(callbacks := s.callbacks - {t}), s.callbacks[t].commit, sent)
    case ReceiveStep =>
      s.(channel := s.channel[1..])
    case CloseStep =>
      s.(closed := true)
    case StopTimerStep =>
      s.(fields := StopTimer(s.fields))
    case CloseChannelStep =>
      s.(channelClosed := true)
  }

  function Append(trace: seq<Event>, events: seq<Event>): seq<Event> {
    if events == [] then trace else trace + events
  }

  ghost function Next(debounce: int, s: State, step: Step): State
    requires Enabled(s, step)
  {
    Moves(debounce, s, step).(trace := Append(s.trace, EventsOf(debounce, s, step)))
  }

  // The state after a list of steps, if every step is enabled in its turn.
  ghost function Exec(debounce: int, s: State, steps: seq<Step>): Option<State>
    decreases |steps|
  {
    if steps == [] then Some(s)
    else if Enabled(s, steps[0]) then Exec(debounce, Next(debounce, s, steps[0]), steps[1..])
    else None
  }

  ghost predicate Reachable(debounce: int, s: State) {
    exists steps :: Exec(debounce, INIT, steps) == Some(s)
  }

  // ----- what a trace says about itself

  // The counts of commits and schedules, the list of the latest Schedule in lock order and the list last committed;
  // both lists are nil before the first.
  datatype Summary = Summary(commits: nat, schedules: nat, latest: AddressList, committed: AddressList)

  function Summarize(trace: seq<Event>): Summary {
    if trace == [] then Summary(0, 0, [], [])
    else Include(Summarize(trace[..|trace| - 1]), trace[|trace| - 1])
  }

  function Include(past: Summary, e: Event): Summary {
    match e
    case Scheduled(_, addrs) => past.(schedules := past.schedules + 1, latest := addrs)
    case Committed(addrs, _) => past.(commits := past.commits + 1, committed := addrs)
    case _ => past
  }

  function CommitCount(trace: seq<Event>): nat { Summarize(trace).commits }

  function ScheduleCount(trace: seq<Event>): nat { Summarize(trace).schedules }

  function LatestScheduled(trace: seq<Event>): AddressList { Summarize(trace).latest }

  function LastCommitted(trace: seq<Event>): AddressList { Summarize(trace).committed }

  ghost predicate Settled(trace: seq<Event>, commit: nat) {
    Sent(commit) in trace || Dropped(commit) in trace
  }

  // The current service name: that of the last rename.
  function LastRenamed(trace: seq<Event>): string {
    if trace == [] then ""
    else if trace[|trace| - 1].Renamed? then trace[|trace| - 1].name
    else LastRenamed(trace[..|trace| - 1])
  }

  // An answer for the service that was current when it came, and that no rename followed.
  ghost predicate InForce(trace: seq<Event>, i: nat) {
    i < |trace| && trace[i].Answered? && trace[i].service == LastRenamed(trace[..i]) && NotRenamedAfter(trace, i)
  }

  ghost predicate NotRenamedAfter(trace: seq<Event>, i: nat) {
    forall k :: i < k < |trace| ==> !trace[k].Renamed?
  }

  // The index of the last such answer, and zero without one.
  ghost predicate IsIndexInForce(trace: seq<Event>, index: nat) {
    if exists i: nat :: InForce(trace, i) then
      exists i: nat :: InForce(trace, i) && index == trace[i].index && forall k: nat :: i < k ==> !InForce(trace, k)
    else
      index == 0
  }

  // The events after the latest Schedule.
  function SinceScheduled(trace: seq<Event>): seq<Event> {
    if trace == [] || trace[|trace| - 1].Scheduled? then []
    else SinceScheduled(trace[..|trace| - 1]) + [trace[|trace| - 1]]
  }

  // The list was an answer for the service that was current when it came.
  ghost predicate AnsweredWhileCurrent(trace: seq<Event>, service: string, addrs: AddressList) {
    exists i: nat :: i < |trace| && AnswerAt(trace, i, service, addrs)
  }

  ghost predicate AnswerAt(trace: seq<Event>, i: nat, service: string, addrs: AddressList)
    requires i < |trace|
  {
    && trace[i].Answered? && trace[i].service == service && trace[i].addrs == addrs
    && LastRenamed(trace[..i]) == service
  }

  /** What may happen next after the events in `past`. */
  ghost predicate Lawful(past: seq<Event>, e: Event) {
    match e
    case Renamed(name) =>
      name != "" && name != LastRenamed(past)
    case Queried(service, waitIndex) =>
      service == LastRenamed(past) && IsIndexInForce(past, waitIndex)
    case Answered(service, _, _) =>
      exists waitIndex :: Queried(service, waitIndex) in past
    case Scheduled(service, addrs) =>
      AnsweredWhileCurrent(past, service, addrs)
    case Armed(timer) =>
      Armed(timer) !in past && past != [] && past[|past| - 1].Scheduled?
    case Fired(timer) =>
      Armed(timer) in SinceScheduled(past) && Fired(timer) !in past
    case Committed(addrs, maker) =>
      && addrs == LatestScheduled(past)
      && multiset(addrs) != multiset(LastCommitted(past))
      && CommitCount(past) < ScheduleCount(past)
      && (maker.Some? ==> Fired(maker.value) in past)
    case Sent(commit) =>
      commit < CommitCount(past) && !Settled(past, commit)
    case Dropped(commit) =>
      commit < CommitCount(past) && !Settled(past, commit) && Closed in past
    case _ => true
  }

  ghost predicate LawfulTrace(trace: seq<Event>) {
    forall i :: 0 <= i < |trace| ==> Lawful(trace[..i], trace[i])
  }
}
