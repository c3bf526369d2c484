/** The two background loops, each driven by an arbitrary schedule of what its goroutines do next: the exponential
    start strategy and WaitForConnection. Both pass one token at a time through a channel with room for one. */
module Loops {
  import opened Integers
  import opened Optional

  // 100 * time.Millisecond, in nanoseconds
  const FIRST_INTERVAL := 100_000_000

  // ----- the retry interval

  // The value of an int64 expression whose exact result is x.
  function WrapInt64(x: int): int {
    (x + TWO_63) % TWO_64 - TWO_63
  }

  function Min(x: int, y: int): int {
    if x < y then x else y
  }

  // min(nextRetryInterval*2, so.maxInterval)
  function DoubledUpTo(interval: int, maxInterval: int): int {
    Min(WrapInt64(interval * 2), maxInterval)
  }

  // The k-th time the loop sleeps, counted from one.
  function Wait(k: nat, maxInterval: int): int
    requires k >= 1
  {
    if k == 1 then FIRST_INTERVAL else DoubledUpTo(Wait(k - 1, maxInterval), maxInterval)
  }

  function Pow2(n: nat): nat {
    if n == 0 then 1 else 2 * Pow2(n - 1)
  }

  lemma Pow2Grows(m: nat, n: nat)
    requires m <= n
    ensures Pow2(m) <= Pow2(n)
  {
    if m < n {
      Pow2Grows(m, n - 1);
    }
  }

  lemma PowersNeeded()
    ensures Pow2(35) == 0x8_0000_0000 && Pow2(36) == 0x10_0000_0000
  {
    assert Pow2(9) == 0x200;
    assert Pow2(18) == 0x4_0000;
    assert Pow2(27) == 0x800_0000;
    assert Pow2(35) == 0x8_0000_0000;
  }

  // The closed form holds as long as nothing doubled is 2^62 or more: for every k when the cap is smaller, and for
  // the first 37 waits whatever the cap.
  lemma {:induction false} WaitBeforeOverflow(k: nat, maxInterval: int)
    requires k >= 1 && 0 < maxInterval < TWO_63
    requires maxInterval < TWO_62 || k <= 37
    ensures Wait(k, maxInterval) == (if k == 1 then FIRST_INTERVAL else Min(FIRST_INTERVAL * Pow2(k - 1), maxInterval))
  {
    if k > 1 {
      WaitBeforeOverflow(k - 1, maxInterval);
      if maxInterval >= TWO_62 {
        Pow2Grows(k - 2, 35);
        PowersNeeded();
      }
    }
  }

  /** The first wait is 100ms and the k-th the smaller of 100ms * 2^(k-1) and the cap, for every k. */
  lemma BackoffClosedForm(k: nat, maxInterval: int)
    requires k >= 1 && 0 < maxInterval < TWO_62
    ensures k == 1 ==> Wait(k, maxInterval) == FIRST_INTERVAL
    ensures k >= 2 ==> Wait(k, maxInterval) == Min(FIRST_INTERVAL * Pow2(k - 1), maxInterval)
  {
    WaitBeforeOverflow(k, maxInterval);
  }

  /** Every wait is a positive duration if and only if the cap is below 2^62 nanoseconds. */
  lemma WaitsArePositiveIff(maxInterval: int)
    requires 0 < maxInterval < TWO_63
    ensures (forall k: nat :: k >= 1 ==> Wait(k, maxInterval) > 0) <==> maxInterval < TWO_62
  {
    if maxInterval < TWO_62 {
      forall k: nat | k >= 1
        ensures Wait(k, maxInterval) > 0
      {
        WaitBeforeOverflow(k, maxInterval);
        Pow2Grows(0, k - 1);
      }
    } else {
      WaitBeforeOverflow(37, maxInterval);
      PowersNeeded();
      assert TWO_62 <= Wait(37, maxInterval) < TWO_63;
      assert Wait(38, maxInterval) < 0;
    }
  }

  // ----- exponentialStartStrategy

  // What the scheduler lets happen next. An Attempt is the goroutine that runs Start and sends its result.
  datatype StartChoice =
    | AttemptReturns(ok: bool)
    | AttemptSends(ok: bool)
    | CancelContext
    | LoopSeesCancel
    | LoopReceives
    | LoopRelaunches
    | LoopWakes

  datatype LoopAt = Selecting | Retrying | Sleeping | Finished

  // The variables of the loop and of its goroutines: the attempts inside Start and those whose success or failure is
  // not yet in the channel. Then what happened, and whether a goroutine ever found the channel full.
  datatype StartState = StartState(
    nextRetryInterval: int, errCh: seq<bool>, cancelled: bool, at: LoopAt,
    running: nat, sendingOk: nat, sendingFail: nat,
    waits: seq<int>, started: nat, failures: nat, succeeded: bool, blocked: bool)

  const START := StartState(FIRST_INTERVAL, [], false, Selecting, 1, 0, 0, [], 1, 0, false, false)

  function StartStep(maxInterval: int, st: StartState, choice: StartChoice): StartState {
    match choice
    case AttemptReturns(ok) =>
      if st.running == 0 then st
      else if ok then st.(running := st.running - 1, sendingOk := st.sendingOk + 1)
      else st.(running := st.running - 1, sendingFail := st.sendingFail + 1)
    case AttemptSends(ok) =>
      if (if ok then st.sendingOk else st.sendingFail) == 0 then st
      else if |st.errCh| >= 1 then st.(blocked := true)
      else if ok then st.(errCh := st.errCh + [true], sendingOk := st.sendingOk - 1)
      else st.(errCh := st.errCh + [false], sendingFail := st.sendingFail - 1)
    case CancelContext => st.(cancelled := true)
    case LoopSeesCancel => if st.at.Selecting? && st.cancelled then st.(at := Finished) else st
    case LoopReceives =>
      if !st.at.Selecting? || st.errCh == [] then st
      else if st.errCh[0] then st.(errCh := st.errCh[1..], succeeded := true, at := Finished)
      else st.(errCh := st.errCh[1..], failures := st.failures + 1, at := Retrying)
    case LoopRelaunches =>
      if st.at.Retrying? then st.(running := st.running + 1, started := st.started + 1, at := Sleeping) else st
    case LoopWakes =>
      if st.at.Sleeping? then
        st.(waits := st.waits + [st.nextRetryInterval], at := Selecting,
            nextRetryInterval := DoubledUpTo(st.nextRetryInterval, maxInterval))
      else st
  }

  function StartRun(maxInterval: int, schedule: seq<StartChoice>): StartState {
    if schedule == [] then START
    else StartStep(maxInterval, StartRun(maxInterval, schedule[..|schedule| - 1]), schedule[|schedule| - 1])
  }

  // Attempts in Start, in their send, or in the channel.
  function InFlight(st: StartState): nat {
    st.running + st.sendingOk + st.sendingFail + |st.errCh|
  }

  ghost predicate StartOk(maxInterval: int, st: StartState) {
    && !st.blocked
    && InFlight(st) == (if st.succeeded || st.at.Retrying? then 0 else 1)
    && st.started == st.failures + (if st.at.Retrying? then 0 else 1)
    && (st.succeeded ==> st.at.Finished?)
    && st.nextRetryInterval == Wait(|st.waits| + 1, maxInterval)
    && (forall k :: 0 <= k < |st.waits| ==> st.waits[k] == Wait(k + 1, maxInterval))
    && st.failures == |st.waits| + (if st.at.Retrying? || st.at.Sleeping? then 1 else 0)
  }

  /** Under any schedule no send finds the channel full, at most one result is in flight, the attempts are the failures
      consumed plus one, none starts after a success, and the k-th wait is that of the backoff. */
  lemma {:induction false} EveryStartIsOk(maxInterval: int, schedule: seq<StartChoice>)
    ensures StartOk(maxInterval, StartRun(maxInterval, schedule))
  {
    if schedule != [] {
      EveryStartIsOk(maxInterval, schedule[..|schedule| - 1]);
      StartStepKeeps(maxInterval, StartRun(maxInterval, schedule[..|schedule| - 1]), schedule[|schedule| - 1]);
    }
  }

  lemma StartStepKeeps(maxInterval: int, st: StartState, choice: StartChoice)
    requires StartOk(maxInterval, st)
    ensures StartOk(maxInterval, StartStep(maxInterval, st, choice))
  {
  }

  // One attempt fails and the loop sleeps.
  const FAILED_ROUND := [AttemptReturns(false), AttemptSends(false), LoopReceives, LoopRelaunches, LoopWakes]

  function FailedRounds(k: nat): seq<StartChoice> {
    if k == 0 then [] else FailedRounds(k - 1) + FAILED_ROUND
  }

  lemma StartRunOneMore(maxInterval: int, schedule: seq<StartChoice>, choice: StartChoice)
    ensures StartRun(maxInterval, schedule + [choice]) ==
      StartStep(maxInterval, StartRun(maxInterval, schedule), choice)
  {
    assert (schedule + [choice])[..|schedule|] == schedule;
  }

  // What the schedule must hold for the loop to be where it is.
  ghost predicate StartTold(schedule: seq<StartChoice>, st: StartState) {
    && (st.cancelled <==> CancelContext in schedule)
    && (st.at.Finished? ==> st.succeeded || CancelContext in schedule)
    && (st.succeeded || st.sendingOk > 0 || true in st.errCh ==> AttemptReturns(true) in schedule)
    && (st.sendingFail > 0 || false in st.errCh ==> AttemptReturns(false) in schedule)
    && (st.failures > 0 ==> AttemptReturns(false) in schedule)
  }

  lemma {:induction false} EveryStartIsTold(maxInterval: int, schedule: seq<StartChoice>)
    ensures StartTold(schedule, StartRun(maxInterval, schedule))
  {
    if schedule != [] {
      var before, choice := schedule[..|schedule| - 1], schedule[|schedule| - 1];
      EveryStartIsTold(maxInterval, before);
      assert schedule == before + [choice];
      StartTellsOneMore(maxInterval, before, StartRun(maxInterval, before), choice);
    }
  }

  lemma StartTellsOneMore(maxInterval: int, schedule: seq<StartChoice>, st: StartState, choice: StartChoice)
    requires StartTold(schedule, st)
    ensures StartTold(schedule + [choice], StartStep(maxInterval, st, choice))
  {
  }

  /** The loop ends only with an attempt that succeeded or after the context was cancelled, and a result that it
      received was returned by an attempt. */
  lemma StartEndsOnlyIf(maxInterval: int, schedule: seq<StartChoice>)
    ensures var st := StartRun(maxInterval, schedule);
      && (st.at.Finished? ==> st.succeeded || CancelContext in schedule)
      && (st.succeeded ==> st.at.Finished? && AttemptReturns(true) in schedule)
      && (st.failures > 0 ==> AttemptReturns(false) in schedule)
  {
    EveryStartIsTold(maxInterval, schedule);
    EveryStartIsOk(maxInterval, schedule);
  }

  /** A loop that waits in its select when the context was cancelled can leave, whatever the attempts do. */
  lemma CancellationEnds(maxInterval: int, schedule: seq<StartChoice>)
    requires StartRun(maxInterval, schedule).at.Selecting? && CancelContext in schedule
    ensures var st := StartRun(maxInterval, schedule + [LoopSeesCancel]);
      st == StartRun(maxInterval, schedule).(at := Finished)
  {
    EveryStartIsTold(maxInterval, schedule);
    StartRunOneMore(maxInterval, schedule, LoopSeesCancel);
  }

  lemma FinishedStartStep(maxInterval: int, st: StartState, choice: StartChoice)
    requires st.at.Finished?
    ensures var st' := StartStep(maxInterval, st, choice);
      && st'.at.Finished? && st'.succeeded == st.succeeded
      && st'.started == st.started && st'.failures == st.failures && st'.waits == st.waits
  {
  }

  /** After the end nothing is started, received or waited for, whatever happens. */
  lemma {:induction false} FinishedStartStays(maxInterval: int, schedule: seq<StartChoice>, rest: seq<StartChoice>)
    requires StartRun(maxInterval, schedule).at.Finished?
    ensures var st, st' := StartRun(maxInterval, schedule), StartRun(maxInterval, schedule + rest);
      && st'.at.Finished? && st'.succeeded == st.succeeded
      && st'.started == st.started && st'.failures == st.failures && st'.waits == st.waits
  {
    if rest == [] {
      assert schedule + rest == schedule;
    } else {
      var fewer, choice := rest[..|rest| - 1], rest[|rest| - 1];
      FinishedStartStays(maxInterval, schedule, fewer);
      FinishedStartStep(maxInterval, StartRun(maxInterval, schedule + fewer), choice);
      StartRunOneMore(maxInterval, schedule + fewer, choice);
      assert schedule + rest == schedule + fewer + [choice];
    }
  }

  // One attempt returns, and the loop takes its result.
  function ResultArrives(ok: bool): seq<StartChoice> {
    [AttemptReturns(ok), AttemptSends(ok), LoopReceives]
  }

  lemma ResultSteps(maxInterval: int, st: StartState, ok: bool)
    requires StartOk(maxInterval, st) && st.at.Selecting? && st.running > 0
    ensures StartStep(maxInterval, StartStep(maxInterval, StartStep(maxInterval, st, AttemptReturns(ok)),
                                             AttemptSends(ok)), LoopReceives) ==
      st.(running := 0, succeeded := ok, at := if ok then Finished else Retrying,
          failures := if ok then st.failures else st.failures + 1)
  {
  }

  lemma ResultDecides(maxInterval: int, schedule: seq<StartChoice>, ok: bool)
    requires StartRun(maxInterval, schedule).at.Selecting? && StartRun(maxInterval, schedule).running > 0
    ensures var st, st' := StartRun(maxInterval, schedule), StartRun(maxInterval, schedule + ResultArrives(ok));
      st' == st.(running := 0, succeeded := ok, at := if ok then Finished else Retrying,
                 failures := if ok then st.failures else st.failures + 1)
  {
    EveryStartIsOk(maxInterval, schedule);
    ResultSteps(maxInterval, StartRun(maxInterval, schedule), ok);
    var s1 := schedule + [AttemptReturns(ok)];
    var s2 := s1 + [AttemptSends(ok)];
    StartRunOneMore(maxInterval, schedule, AttemptReturns(ok));
    StartRunOneMore(maxInterval, s1, AttemptSends(ok));
    StartRunOneMore(maxInterval, s2, LoopReceives);
    assert schedule + ResultArrives(ok) == s2 + [LoopReceives];
  }

  /** In every run an attempt that succeeds ends the loop once its result is taken, cancelled or not. */
  lemma SuccessEnds(maxInterval: int, schedule: seq<StartChoice>)
    requires StartRun(maxInterval, schedule).at.Selecting? && StartRun(maxInterval, schedule).running > 0
    ensures var st, st' := StartRun(maxInterval, schedule), StartRun(maxInterval, schedule + ResultArrives(true));
      st'.at.Finished? && st'.succeeded && st'.started == st.started && st'.waits == st.waits
  {
    ResultDecides(maxInterval, schedule, true);
  }

  /** In every run an attempt that fails is followed by another one and by a wait, the next of the backoff. */
  lemma FailureRetries(maxInterval: int, schedule: seq<StartChoice>)
    requires StartRun(maxInterval, schedule).at.Selecting? && StartRun(maxInterval, schedule).running > 0
    ensures var st, st' := StartRun(maxInterval, schedule), StartRun(maxInterval, schedule + FAILED_ROUND);
      && st'.at.Selecting? && st'.running == 1 && !st'.succeeded
      && st'.started == st.started + 1 && st'.failures == st.failures + 1
      && st'.waits == st.waits + [Wait(|st.waits| + 1, maxInterval)]
  {
    EveryStartIsOk(maxInterval, schedule);
    ResultDecides(maxInterval, schedule, false);
    var s3 := schedule + ResultArrives(false);
    var s4 := s3 + [LoopRelaunches];
    StartRunOneMore(maxInterval, s3, LoopRelaunches);
    StartRunOneMore(maxInterval, s4, LoopWakes);
    assert schedule + FAILED_ROUND == s4 + [LoopWakes];
  }

  /** Every number of failed attempts and waits is reached by some schedule, with the next attempt on its way. */
  lemma {:induction false} AnyNumberOfWaits(maxInterval: int, k: nat)
    ensures var st := StartRun(maxInterval, FailedRounds(k));
      && |st.waits| == st.failures == k && st.started == k + 1
      && st.at.Selecting? && st.running == 1 && st.sendingOk == st.sendingFail == 0 && st.errCh == []
  {
    if k > 0 {
      AnyNumberOfWaits(maxInterval, k - 1);
      FailureRetries(maxInterval, FailedRounds(k - 1));
      EveryStartIsOk(maxInterval, FailedRounds(k));
    }
  }

  // A turn of a goroutine that runs startFn.
  method AttemptTurn(choice: StartChoice, running: nat, sendingOk: nat, sendingFail: nat, errCh: seq<bool>,
                     ghost maxInterval: int, ghost st: StartState)
    returns (running': nat, sendingOk': nat, sendingFail': nat, errCh': seq<bool>, full: bool)
    requires choice.AttemptReturns? || choice.AttemptSends?
    requires st == st.(running := running, sendingOk := sendingOk, sendingFail := sendingFail, errCh := errCh)
    ensures StartStep(maxInterval, st, choice) ==
      st.(running := running', sendingOk := sendingOk', sendingFail := sendingFail', errCh := errCh',
          blocked := st.blocked || full)
  {
    running', sendingOk', sendingFail', errCh', full := running, sendingOk, sendingFail, errCh, false;
    match choice
    case AttemptReturns(ok) =>
      if running > 0 {
        running' := running - 1;
        if ok {
          sendingOk' := sendingOk + 1;
        } else {
          sendingFail' := sendingFail + 1;
        }
      }
    case AttemptSends(ok) =>
      if (if ok then sendingOk else sendingFail) > 0 {
        if |errCh| >= 1 {
          full := true;
        } else {
          errCh' := errCh + [ok];
          if ok {
            sendingOk' := sendingOk - 1;
          } else {
            sendingFail' := sendingFail - 1;
          }
        }
      }
  }

  /** exponentialStartStrategy under a schedule. */
  method ExponentialStart(maxInterval: int, schedule: seq<StartChoice>) returns (report: StartState)
    ensures report == StartRun(maxInterval, schedule)
  {
    var nextRetryInterval := FIRST_INTERVAL;
    var errCh: seq<bool> := [];
    var cancelled, at := false, Selecting;
    var running: nat, sendingOk: nat, sendingFail: nat := 1, 0, 0;
    var waits: seq<int>, started: nat, failures: nat := [], 1, 0;
    var succeeded, blocked := false, false;
    for i := 0 to |schedule|
      invariant StartState(nextRetryInterval, errCh, cancelled, at, running, sendingOk, sendingFail, waits, started,
                           failures, succeeded, blocked) == StartRun(maxInterval, schedule[..i])
    {
      assert schedule[..i + 1] == schedule[..i] + [schedule[i]];
      StartRunOneMore(maxInterval, schedule[..i], schedule[i]);
      if schedule[i].AttemptReturns? || schedule[i].AttemptSends? {
        var full;
        running, sendingOk, sendingFail, errCh, full := AttemptTurn(
          schedule[i], running, sendingOk, sendingFail, errCh, maxInterval, StartRun(maxInterval, schedule[..i]));
        blocked := blocked || full;
      } else if schedule[i].CancelContext? {
        cancelled := true;
      } else if at.Selecting? {
        if schedule[i].LoopSeesCancel? && cancelled {
          at := Finished;
        } else if schedule[i].LoopReceives? && |errCh| > 0 {
          var ok := errCh[0];
          errCh := errCh[1..];
          if ok {
            succeeded, at := true, Finished;
          } else {
            failures, at := failures + 1, Retrying;
          }
        }
      } else if at.Retrying? && schedule[i].LoopRelaunches? {
        running, started, at := running + 1, started + 1, Sleeping;
      } else if at.Sleeping? && schedule[i].LoopWakes? {
        waits := waits + [nextRetryInterval];
        nextRetryInterval := DoubledUpTo(nextRetryInterval, maxInterval);
        at := Selecting;
      }
    }
    assert schedule[..|schedule|] == schedule;
    report := StartState(nextRetryInterval, errCh, cancelled, at, running, sendingOk, sendingFail, waits, started,
                         failures, succeeded, blocked);
  }

  // ----- WaitForConnection

  datatype WaitChoice =
    | TimerExpires
    | TickerTicks
    | ProbeReturns(connected: bool)
    | ProbeSends(connected: bool)
    | LoopTakes

  // The loop's variables and the probes inside IsConnected or in their send; `answers` lists what IsConnected
  // returned, in order.
  datatype WaitState = WaitState(
    ch: seq<bool>, tickArmed: bool, probing: nat, sendingTrue: nat, sendingFalse: nat,
    result: Option<bool>, answers: seq<bool>, timerExpired: bool, blocked: bool)

  const WAIT := WaitState([], true, 0, 0, 0, None, [], false, false)

  function WaitStep(st: WaitState, choice: WaitChoice): WaitState {
    match choice
    case TimerExpires => if st.result.None? then st.(timerExpired := true, result := Some(false)) else st
    case TickerTicks =>
      if st.result.None? && st.tickArmed then st.(tickArmed := false, probing := st.probing + 1) else st
    case ProbeReturns(connected) =>
      if st.probing == 0 then st
      else if connected then
        st.(probing := st.probing - 1, answers := st.answers + [true], sendingTrue := st.sendingTrue + 1)
      else
        st.(probing := st.probing - 1, answers := st.answers + [false], sendingFalse := st.sendingFalse + 1)
    case ProbeSends(connected) =>
      if (if connected then st.sendingTrue else st.sendingFalse) == 0 then st
      else if |st.ch| >= 1 then st.(blocked := true)
      else if connected then st.(ch := st.ch + [true], sendingTrue := st.sendingTrue - 1)
      else st.(ch := st.ch + [false], sendingFalse := st.sendingFalse - 1)
    case LoopTakes =>
      if st.result.Some? || st.ch == [] then st
      else if st.ch[0] then st.(ch := st.ch[1..], result := Some(true))
      else st.(ch := st.ch[1..], tickArmed := true)
  }

  function WaitRun(schedule: seq<WaitChoice>): WaitState {
    if schedule == [] then WAIT
    else WaitStep(WaitRun(schedule[..|schedule| - 1]), schedule[|schedule| - 1])
  }

  // What is true in the last answer is on its way or is the result.
  ghost predicate WaitOk(st: WaitState) {
    && !st.blocked
    && st.probing + st.sendingTrue + st.sendingFalse + |st.ch| + (if st.tickArmed then 1 else 0) ==
       (if st.result == Some(true) then 0 else 1)
    && (st.sendingTrue > 0 || true in st.ch || st.result == Some(true) <==> true in st.answers)
    && (st.result == Some(false) <==> st.timerExpired)
  }

  /** Under any schedule no send finds the channel full and at most one probe is in flight; the result is false exactly
      if the timer expired, and it is true only if a probe answered true. */
  lemma {:induction false} EveryWaitIsOk(schedule: seq<WaitChoice>)
    ensures WaitOk(WaitRun(schedule))
  {
    if schedule != [] {
      EveryWaitIsOk(schedule[..|schedule| - 1]);
    }
  }

  // One probe answers.
  function Probe(connected: bool): seq<WaitChoice> {
    [TickerTicks, ProbeReturns(connected), ProbeSends(connected), LoopTakes]
  }

  function Probes(answers: seq<bool>): seq<WaitChoice> {
    if answers == [] then [] else Probes(answers[..|answers| - 1]) + Probe(answers[|answers| - 1])
  }

  lemma WaitRunOneMore(schedule: seq<WaitChoice>, choice: WaitChoice)
    ensures WaitRun(schedule + [choice]) == WaitStep(WaitRun(schedule), choice)
  {
    assert (schedule + [choice])[..|schedule|] == schedule;
  }

  lemma ProbeSteps(st: WaitState, connected: bool)
    requires WaitOk(st) && st.result.None? && st.tickArmed
    ensures WaitStep(WaitStep(WaitStep(WaitStep(st, TickerTicks), ProbeReturns(connected)), ProbeSends(connected)),
                     LoopTakes) ==
      st.(answers := st.answers + [connected], tickArmed := !connected,
          result := if connected then Some(true) else None)
  {
  }

  /** In every run that goes on, a probe that answers true ends the wait with true, and one that answers false lets the
      next tick start another. */
  lemma ProbeAnswers(schedule: seq<WaitChoice>, connected: bool)
    requires WaitRun(schedule).result.None? && WaitRun(schedule).tickArmed
    ensures var st := WaitRun(schedule);
      WaitRun(schedule + Probe(connected)) ==
      st.(answers := st.answers + [connected], tickArmed := !connected,
          result := if connected then Some(true) else None)
  {
    EveryWaitIsOk(schedule);
    ProbeSteps(WaitRun(schedule), connected);
    var s1 := schedule + [TickerTicks];
    var s2 := s1 + [ProbeReturns(connected)];
    var s3 := s2 + [ProbeSends(connected)];
    WaitRunOneMore(schedule, TickerTicks);
    WaitRunOneMore(s1, ProbeReturns(connected));
    WaitRunOneMore(s2, ProbeSends(connected));
    WaitRunOneMore(s3, LoopTakes);
    assert schedule + Probe(connected) == s3 + [LoopTakes];
  }

  /** The timer ends every run that goes on, with a probe in flight or not, and with false. */
  lemma TimerEnds(schedule: seq<WaitChoice>)
    requires WaitRun(schedule).result.None?
    ensures WaitRun(schedule + [TimerExpires]).result == Some(false)
  {
    WaitRunOneMore(schedule, TimerExpires);
  }

  // The probes that were started.
  function Launched(st: WaitState): nat {
    st.probing + |st.answers|
  }

  lemma ReturnedWaitStep(st: WaitState, choice: WaitChoice)
    requires st.result.Some?
    ensures WaitStep(st, choice).result == st.result && Launched(WaitStep(st, choice)) == Launched(st)
  {
  }

  /** Once WaitForConnection has returned, its result stays and no probe is started. */
  lemma {:induction false} WaitResultStays(schedule: seq<WaitChoice>, rest: seq<WaitChoice>)
    requires WaitRun(schedule).result.Some?
    ensures WaitRun(schedule + rest).result == WaitRun(schedule).result
    ensures Launched(WaitRun(schedule + rest)) == Launched(WaitRun(schedule))
  {
    if rest == [] {
      assert schedule + rest == schedule;
    } else {
      var fewer, choice := rest[..|rest| - 1], rest[|rest| - 1];
      WaitResultStays(schedule, fewer);
      ReturnedWaitStep(WaitRun(schedule + fewer), choice);
      WaitRunOneMore(schedule + fewer, choice);
      assert schedule + rest == schedule + fewer + [choice];
    }
  }

  /** Any number of probes that answer false can be followed by one that answers true and ends the wait, or by the
      expiry of the timer. */
  lemma {:induction false} ProbesUntilTrue(answers: seq<bool>)
    requires forall i :: 0 <= i < |answers| ==> !answers[i]
    ensures WaitRun(Probes(answers)) == WAIT.(answers := answers)
    ensures WaitRun(Probes(answers) + Probe(true)).result == Some(true)
    ensures WaitRun(Probes(answers) + [TimerExpires]).result == Some(false)
  {
    if answers != [] {
      var fewer := answers[..|answers| - 1];
      ProbesUntilTrue(fewer);
      ProbeAnswers(Probes(fewer), false);
      assert answers == fewer + [false];
    }
    ProbeAnswers(Probes(answers), true);
    WaitRunOneMore(Probes(answers), TimerExpires);
  }

  /** WaitForConnection under a schedule. */
  method WaitForConnection(schedule: seq<WaitChoice>) returns (report: WaitState)
    ensures report == WaitRun(schedule)
  {
    var ch: seq<bool> := [];
    var tickArmed := true;
    var probing: nat, sendingTrue: nat, sendingFalse: nat := 0, 0, 0;
    var result: Option<bool> := None;
    var answers: seq<bool> := [];
    var timerExpired, blocked := false, false;
    for i := 0 to |schedule|
      invariant WaitState(ch, tickArmed, probing, sendingTrue, sendingFalse, result, answers, timerExpired, blocked) ==
        WaitRun(schedule[..i])
    {
      assert schedule[..i + 1] == schedule[..i] + [schedule[i]];
      WaitRunOneMore(schedule[..i], schedule[i]);
      match schedule[i]
      case TimerExpires =>
        if result.None? {
          timerExpired := true;
          result := Some(false);
        }
      case TickerTicks =>
        if result.None? && tickArmed {
          tickArmed := false;
          probing := probing + 1;
        }
      case ProbeReturns(connected) =>
        if probing > 0 {
          probing := probing - 1;
          answers := answers + [connected];
          if connected {
            sendingTrue := sendingTrue + 1;
          } else {
            sendingFalse := sendingFalse + 1;
          }
        }
      case ProbeSends(connected) =>
        if (if connected then sendingTrue else sendingFalse) > 0 {
          if |ch| >= 1 {
            blocked := true;
          } else {
            ch := ch + [connected];
            if connected {
              sendingTrue := sendingTrue - 1;
            } else {
              sendingFalse := sendingFalse - 1;
            }
          }
        }
      case LoopTakes =>
        if result.None? && |ch| > 0 {
          var v := ch[0];
          ch := ch[1..];
          if v {
            result := Some(true);
          } else {
            tickArmed := true;
          }
        }
    }
    assert schedule[..|schedule|] == schedule;
    report := WaitState(ch, tickArmed, probing, sendingTrue, sendingFalse, result, answers, timerExpired, blocked);
  }
}
