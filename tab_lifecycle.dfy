/**
 * The tab's browser-creation and recovery state machine. Three Compose effects
 * and one button drive it:
 *  - the creation effect, keyed on `retryCount`, which retries a failed creation
 *    up to 3 times with exponential backoff;
 *  - the health check, which polls a live handle and re-creates the browser when
 *    the handle turns invalid, up to 5 times;
 *  - the recovery check, which clears the recovery counter once a new handle is valid;
 *  - the Retry button on the error screen.
 * The host's answers (creation outcomes, handle validity) are the inputs of each step.
 *
 * An effect keyed on `retryCount` is relaunched only when the key differs from the
 * one it last ran with; `effectKey` records that key (`None` before the first run).
 */
module TabLifecycle {
  import opened Wrappers
  import opened Host

  const MaxRetries: nat := 3
  const MaxRecoveryAttempts: nat := 5

  const CreateFailedError := "Failed to create browser instance after 3 attempts"
  const RecoveryFailedError := "Browser recovery failed after 5 attempts. Please close and reopen this tab."
  const UnknownError := "Unknown error"

  datatype State = State(
    handle: Option<HandleId>,
    isInitializing: bool,
    error: Option<string>,
    retryCount: nat,
    recoveryAttempts: nat,
    effectKey: Option<nat>)

  /** The composition a tab starts with: no handle, the spinner up, the creation effect due. */
  function Initial(): (s: State)
    ensures s.handle == None && s.isInitializing && s.error == None
    ensures s.retryCount == 0 && s.recoveryAttempts == 0 && s.effectKey == None
  {
    State(None, true, None, 0, 0, None)
  }

  /** The creation effect is due: its key has changed since it last ran, or it never ran. */
  predicate CreatePending(s: State) {
    s.effectKey != Some(s.retryCount)
  }

  /** 2 to the power `k`. */
  function Pow2(k: nat): (r: nat)
    ensures r >= 1
  {
    if k == 0 then 1 else 2 * Pow2(k - 1)
  }

  /** Kotlin's `1 shl k` on a 32-bit `Int`: the shift distance is taken modulo 32 and bit 31 is the sign. */
  function Shl1(k: nat): (r: int)
    ensures k % 32 < 31 ==> r == Pow2(k % 32)
    ensures k % 32 == 31 ==> r == -(Pow2(31) as int)
  {
    var d := k % 32;
    if d == 31 then -(Pow2(31) as int) else Pow2(d)
  }

  /** The backoff before a creation attempt with the given `retryCount`: none for the first, then `100 * (1 shl (n - 1))`. */
  function BackoffMs(retryCount: nat): int {
    if retryCount == 0 then 0 else 100 * Shl1(retryCount - 1)
  }

  /** The three retries wait 100, 200 and 400 ms, each twice the one before. */
  lemma BackoffDoubles(n: nat)
    requires 1 <= n <= 31
    ensures BackoffMs(n) == 100 * Pow2(n - 1)
    ensures n < 31 ==> BackoffMs(n + 1) == 2 * BackoffMs(n)
    ensures BackoffMs(1) == 100 && BackoffMs(2) == 200 && BackoffMs(3) == 400
  {
    var d := n - 1;
    assert d % 32 == d;
    assert Shl1(d) == Pow2(d);
    if n < 31 {
      assert n % 32 == n;
      assert Shl1(n) == Pow2(n) == 2 * Pow2(d);
    }
    assert Shl1(0) == 1 && Shl1(1) == 2 && Shl1(2) == 4;
  }

  /**
   * Recoveries keep raising `retryCount`, so the backoff can leave the doubling
   * pattern: at 32 the shift reaches the sign bit and the delay is negative (no wait),
   * at 33 the shift wraps around to 100 ms again.
   */
  lemma BackoffWrapsAround()
    ensures BackoffMs(32) < 0
    ensures BackoffMs(33) == BackoffMs(1)
  {
  }

  /** The error text for a creation that failed for the last time. */
  function FailureMessage(outcome: CreateOutcome): (m: string)
    ensures outcome == NullHandle ==> m == CreateFailedError
    ensures outcome.Threw? ==> m == outcome.message.GetOr(UnknownError)
  {
    match outcome
    case Threw(message) => message.GetOr(UnknownError)
    case _ => CreateFailedError
  }

  /**
   * One run of the creation effect. It records its key; it does nothing more when a
   * handle already exists; a created handle ends initialisation; a failure bumps
   * `retryCount` (which relaunches the effect) while fewer than 3 retries were made,
   * and otherwise shows the error.
   */
  function AfterCreateEffect(s: State, outcome: CreateOutcome): (r: State)
    ensures r.effectKey == Some(s.retryCount) && r.recoveryAttempts == s.recoveryAttempts
    ensures s.handle.Some? ==> r == s.(effectKey := Some(s.retryCount))
    ensures s.handle.None? && outcome.Created? ==>
              r.handle == Some(outcome.handle) && !r.isInitializing
              && r.retryCount == s.retryCount && r.error == s.error
    ensures s.handle.None? && !outcome.Created? && s.retryCount < MaxRetries ==>
              r == s.(retryCount := s.retryCount + 1, effectKey := Some(s.retryCount))
    ensures s.handle.None? && !outcome.Created? && s.retryCount >= MaxRetries ==>
              r.handle == None && !r.isInitializing && r.error == Some(FailureMessage(outcome))
              && r.retryCount == s.retryCount
  {
    var launched := s.(effectKey := Some(s.retryCount));
    if s.handle.Some? then launched
    else
      match outcome
      case Created(h) => launched.(handle := Some(h), isInitializing := false)
      case _ =>
        if s.retryCount < MaxRetries then launched.(retryCount := s.retryCount + 1)
        else launched.(error := Some(FailureMessage(outcome)), isInitializing := false)
  }

  /**
   * One poll of the health check. A valid handle changes nothing. An invalid one is
   * dropped: while fewer than 5 recoveries were made the browser is re-created
   * (spinner up, error cleared, `retryCount` bumped to relaunch creation); after that
   * the recovery error is shown.
   */
  function AfterHealthPoll(s: State, valid: bool): (r: State)
    ensures (s.handle.None? || valid) ==> r == s
    ensures s.handle.Some? && !valid ==> r.handle == None && r.effectKey == s.effectKey
    ensures s.handle.Some? && !valid && s.recoveryAttempts < MaxRecoveryAttempts ==>
              r.isInitializing && r.error == None
              && r.recoveryAttempts == s.recoveryAttempts + 1 && r.retryCount == s.retryCount + 1
    ensures s.handle.Some? && !valid && s.recoveryAttempts >= MaxRecoveryAttempts ==>
              !r.isInitializing && r.error == Some(RecoveryFailedError)
              && r.recoveryAttempts == s.recoveryAttempts && r.retryCount == s.retryCount
  {
    if s.handle.None? || valid then s
    else if s.recoveryAttempts < MaxRecoveryAttempts then
      s.(recoveryAttempts := s.recoveryAttempts + 1, handle := None, isInitializing := true,
         error := None, retryCount := s.retryCount + 1)
    else
      s.(error := Some(RecoveryFailedError), handle := None, isInitializing := false)
  }

  /** The recovery check: a valid handle clears the recovery counter; nothing else changes. */
  function AfterRecoveryCheck(s: State, valid: bool): (r: State)
    ensures s.handle.Some? && valid ==> r == s.(recoveryAttempts := 0)
    ensures !(s.handle.Some? && valid) ==> r == s
  {
    if s.handle.Some? && valid && s.recoveryAttempts > 0 then s.(recoveryAttempts := 0) else s
  }

  /** The Retry button as written: the error is cleared, `retryCount` reset and the spinner shown. */
  function AfterRetryClickedAsWritten(s: State): (r: State)
    ensures r.error == None && r.retryCount == 0 && r.isInitializing
    ensures r.handle == s.handle && r.recoveryAttempts == s.recoveryAttempts && r.effectKey == s.effectKey
  {
    s.(error := None, retryCount := 0, isInitializing := true)
  }

  /** The Retry button with the recovery counter reset as well. */
  function AfterRetryClicked(s: State): (r: State)
    ensures r.error == None && r.retryCount == 0 && r.recoveryAttempts == 0 && r.isInitializing
    ensures r.handle == s.handle && r.effectKey == s.effectKey
  {
    AfterRetryClickedAsWritten(s).(recoveryAttempts := 0)
  }

  datatype Event =
    | CreateEffect(outcome: CreateOutcome)
    | HealthPoll(valid: bool)
    | RecoveryCheck(valid: bool)
    | RetryClicked

  /** When each event can happen: a due effect, a live handle, the error screen's button. */
  predicate Enabled(s: State, e: Event) {
    match e
    case CreateEffect(_) => CreatePending(s)
    case HealthPoll(_) => s.handle.Some?
    case RecoveryCheck(_) => s.handle.Some?
    case RetryClicked => !s.isInitializing && s.error.Some?
  }

  function Step(s: State, e: Event): State {
    match e
    case CreateEffect(outcome) => AfterCreateEffect(s, outcome)
    case HealthPoll(valid) => AfterHealthPoll(s, valid)
    case RecoveryCheck(valid) => AfterRecoveryCheck(s, valid)
    case RetryClicked => AfterRetryClicked(s)
  }

  function StepAsWritten(s: State, e: Event): State {
    match e
    case RetryClicked => AfterRetryClickedAsWritten(s)
    case _ => Step(s, e)
  }

  /** The state after a sequence of events, or `None` when one of them cannot happen. */
  function Run(s: State, events: seq<Event>): Option<State>
    decreases |events|
  {
    if |events| == 0 then Some(s)
    else if !Enabled(s, events[0]) then None
    else Run(Step(s, events[0]), events[1..])
  }

  function RunAsWritten(s: State, events: seq<Event>): Option<State>
    decreases |events|
  {
    if |events| == 0 then Some(s)
    else if !Enabled(s, events[0]) then None
    else RunAsWritten(StepAsWritten(s, events[0]), events[1..])
  }

  /**
   * The spinner is up, there is no handle and no effect is due: the tab shows
   * "Initializing browser..." for good.
   */
  predicate Stuck(s: State) {
    s.handle.None? && s.isInitializing && !CreatePending(s)
  }

  /** In a stuck state no event can happen. */
  lemma StuckMeansNoEvent(s: State, e: Event)
    requires Stuck(s)
    ensures !Enabled(s, e)
  {
  }

  /**
   * What every reachable state satisfies: the counters stay bounded and the
   * recovery counter never outruns `retryCount`; a live handle means the browser is
   * shown; without a handle either creation is due or the error screen is up after
   * at least one retry, with creation not due.
   */
  ghost predicate Inv(s: State) {
    && s.recoveryAttempts <= MaxRecoveryAttempts
    && s.recoveryAttempts <= s.retryCount
    && (s.handle.Some? ==> !s.isInitializing && !CreatePending(s) && s.error == None)
    && (s.handle.None? && s.isInitializing ==> CreatePending(s) && s.error == None)
    && (s.handle.None? && !s.isInitializing ==> s.error.Some? && !CreatePending(s) && s.retryCount >= 1)
  }

  lemma InitialInv()
    ensures Inv(Initial())
  {
  }

  lemma StepKeepsInv(s: State, e: Event)
    requires Inv(s) && Enabled(s, e)
    ensures Inv(Step(s, e))
  {
  }

  /** The event that can happen next in a state that satisfies the invariant. */
  function NextEvent(s: State): (e: Event)
    ensures Inv(s) ==> Enabled(s, e)
  {
    if s.handle.Some? then HealthPoll(true)
    else if s.isInitializing then CreateEffect(NullHandle)
    else RetryClicked
  }

  /** Every state the tab can reach satisfies the invariant and is never stuck. */
  lemma {:induction false} RunKeepsInv(s: State, events: seq<Event>)
    requires Inv(s)
    ensures Run(s, events).Some? ==> Inv(Run(s, events).value) && !Stuck(Run(s, events).value)
    decreases |events|
  {
    if |events| > 0 && Enabled(s, events[0]) {
      StepKeepsInv(s, events[0]);
      RunKeepsInv(Step(s, events[0]), events[1..]);
    }
  }

  /**
   * The Retry button as written keeps the invariant exactly when no recovery was
   * made: otherwise `recoveryAttempts` is left above the new `retryCount` of 0.
   */
  lemma AsWrittenRetryKeepsInvIff(s: State)
    requires Inv(s) && Enabled(s, RetryClicked)
    ensures Inv(StepAsWritten(s, RetryClicked)) <==> s.recoveryAttempts == 0
  {
  }

  /** Until Retry is pressed the button as written and the corrected one behave alike. */
  lemma {:induction false} RunAsWrittenWithoutRetry(s: State, events: seq<Event>)
    requires forall i :: 0 <= i < |events| ==> !events[i].RetryClicked?
    ensures RunAsWritten(s, events) == Run(s, events)
    decreases |events|
  {
    if |events| > 0 && Enabled(s, events[0]) {
      RunAsWrittenWithoutRetry(Step(s, events[0]), events[1..]);
    }
  }

  /** So with the button as written every run without Retry keeps the invariant and is never stuck. */
  lemma AsWrittenRunWithoutRetryKeepsInv(s: State, events: seq<Event>)
    requires Inv(s)
    requires forall i :: 0 <= i < |events| ==> !events[i].RetryClicked?
    ensures RunAsWritten(s, events).Some? ==>
              Inv(RunAsWritten(s, events).value) && !Stuck(RunAsWritten(s, events).value)
  {
    RunAsWrittenWithoutRetry(s, events);
    RunKeepsInv(s, events);
  }

  /**
   * The recovery branch when Compose cancels the health check at its `delay(100)`:
   * clearing the handle changes the effect's key, so the part after the delay, the
   * bump of `retryCount`, never runs. Everything else is as in `AfterHealthPoll`.
   */
  function AfterHealthPollCancelled(s: State, valid: bool): (r: State)
    ensures s.handle.Some? && !valid && s.recoveryAttempts < MaxRecoveryAttempts ==>
              r == AfterHealthPoll(s, valid).(retryCount := s.retryCount)
    ensures !(s.handle.Some? && !valid && s.recoveryAttempts < MaxRecoveryAttempts) ==>
              r == AfterHealthPoll(s, valid)
  {
    if s.handle.None? || valid then s
    else if s.recoveryAttempts < MaxRecoveryAttempts then
      s.(recoveryAttempts := s.recoveryAttempts + 1, handle := None, isInitializing := true, error := None)
    else
      s.(error := Some(RecoveryFailedError), handle := None, isInitializing := false)
  }

  /** A recovery that completes its step relaunches creation and keeps the invariant. */
  lemma RecoveryRelaunchesCreation(s: State)
    requires Inv(s) && s.handle.Some? && s.recoveryAttempts < MaxRecoveryAttempts
    ensures CreatePending(AfterHealthPoll(s, false)) && !Stuck(AfterHealthPoll(s, false))
    ensures Inv(AfterHealthPoll(s, false))
  {
    StepKeepsInv(s, HealthPoll(false));
  }

  /**
   * A recovery cancelled at its delay leaves the tab stuck: the creation effect last
   * ran with the current `retryCount`, which the cancelled step no longer changes.
   */
  lemma CancelledRecoveryHangs(s: State)
    requires Inv(s) && s.handle.Some? && s.recoveryAttempts < MaxRecoveryAttempts
    ensures Stuck(AfterHealthPollCancelled(s, false))
  {
  }

  /** So the first browser that turns invalid would leave a new tab spinning for good. */
  lemma FirstCrashHangsIfCancelled(h: HandleId)
    ensures var created := AfterCreateEffect(Initial(), Created(h));
            created.handle == Some(h) && Stuck(AfterHealthPollCancelled(created, false))
  {
    InitialInv();
    StepKeepsInv(Initial(), CreateEffect(Created(h)));
    CancelledRecoveryHangs(AfterCreateEffect(Initial(), Created(h)));
  }

  /** With every creation failing, the tab makes 4 attempts (the first and 3 retries) before the error screen. */
  lemma FourAttemptsBeforeFailure()
    ensures Run(Initial(), [CreateEffect(NullHandle), CreateEffect(NullHandle), CreateEffect(NullHandle)])
            == Some(State(None, true, None, 3, 0, Some(2)))
    ensures Run(Initial(), [CreateEffect(NullHandle), CreateEffect(NullHandle), CreateEffect(NullHandle),
                            CreateEffect(NullHandle)])
            == Some(State(None, false, Some(CreateFailedError), 3, 0, Some(3)))
  {
  }

  /** A fresh handle that turns invalid at once, polled: one recovery. */
  function CrashCycle(h: HandleId): seq<Event> {
    [CreateEffect(Created(h)), HealthPoll(false)]
  }

  /** Running two event sequences one after the other. */
  lemma {:induction false} RunAsWrittenAppend(s: State, a: seq<Event>, b: seq<Event>)
    ensures RunAsWritten(s, a + b)
            == if RunAsWritten(s, a).Some? then RunAsWritten(RunAsWritten(s, a).value, b) else None
    decreases |a|
  {
    if |a| == 0 {
      assert a + b == b;
    } else {
      assert (a + b)[0] == a[0];
      assert (a + b)[1..] == a[1..] + b;
      if Enabled(s, a[0]) {
        RunAsWrittenAppend(StepAsWritten(s, a[0]), a[1..], b);
      }
    }
  }

  /** A crash while recoveries remain: both counters rise and creation is due again. */
  lemma CrashCycleRecovers(s: State, h: HandleId)
    requires s.handle.None? && s.isInitializing && CreatePending(s)
    requires s.recoveryAttempts < MaxRecoveryAttempts
    ensures RunAsWritten(s, CrashCycle(h))
            == Some(State(None, true, None, s.retryCount + 1, s.recoveryAttempts + 1, Some(s.retryCount)))
  {
    var s1 := StepAsWritten(s, CreateEffect(Created(h)));
    assert s1 == s.(handle := Some(h), isInitializing := false, effectKey := Some(s.retryCount));
    var s2 := StepAsWritten(s1, HealthPoll(false));
    assert CrashCycle(h)[1..] == [HealthPoll(false)];
    assert RunAsWritten(s1, [HealthPoll(false)]) == RunAsWritten(s2, []);
  }

  /** A recovered crash followed by more events. */
  lemma CrashCycleThen(s: State, h: HandleId, rest: seq<Event>)
    requires s.handle.None? && s.isInitializing && CreatePending(s)
    requires s.recoveryAttempts < MaxRecoveryAttempts
    ensures RunAsWritten(s, CrashCycle(h) + rest)
            == RunAsWritten(State(None, true, None, s.retryCount + 1, s.recoveryAttempts + 1, Some(s.retryCount)), rest)
  {
    CrashCycleRecovers(s, h);
    RunAsWrittenAppend(s, CrashCycle(h), rest);
  }

  /** A crash with no recoveries left: the recovery error is shown. */
  lemma CrashCycleGivesUp(s: State, h: HandleId)
    requires s.handle.None? && s.isInitializing && CreatePending(s)
    requires s.recoveryAttempts >= MaxRecoveryAttempts
    ensures RunAsWritten(s, CrashCycle(h))
            == Some(State(None, false, Some(RecoveryFailedError), s.retryCount, s.recoveryAttempts, Some(s.retryCount)))
  {
    var s1 := StepAsWritten(s, CreateEffect(Created(h)));
    assert s1 == s.(handle := Some(h), isInitializing := false, effectKey := Some(s.retryCount));
    var s2 := StepAsWritten(s1, HealthPoll(false));
    assert CrashCycle(h)[1..] == [HealthPoll(false)];
    assert RunAsWritten(s1, [HealthPoll(false)]) == RunAsWritten(s2, []);
  }

  /** One crash of a freshly created browser per handle in `h`, followed by `rest`. */
  function Crashes(h: seq<HandleId>, rest: seq<Event>): seq<Event>
    decreases |h|
  {
    if |h| == 0 then rest else CrashCycle(h[0]) + Crashes(h[1..], rest)
  }

  /** The state after `n` recovered crashes from the initial state: spinner up, creation due. */
  function Recovering(n: nat): (s: State)
    ensures s.handle.None? && s.isInitializing && CreatePending(s)
  {
    State(None, true, None, n, n, if n == 0 then None else Some(n - 1))
  }

  /** A sixth crash, Retry, a seventh crash and Retry again. */
  function HangTail(h: seq<HandleId>): seq<Event>
    requires |h| == 7
  {
    CrashCycle(h[5]) + ([RetryClicked] + (CrashCycle(h[6]) + [RetryClicked]))
  }

  /**
   * Seven browsers that each turn invalid as soon as they are polled, with Retry
   * pressed after the sixth and the seventh.
   */
  function HangTrace(h: seq<HandleId>): seq<Event>
    requires |h| == 7
  {
    Crashes(h[..5], HangTail(h))
  }

  /** Each crash while recoveries remain raises both counters by one and makes creation due again. */
  lemma {:induction false} CrashesRecover(n: nat, h: seq<HandleId>, rest: seq<Event>)
    requires n + |h| <= MaxRecoveryAttempts
    ensures RunAsWritten(Recovering(n), Crashes(h, rest)) == RunAsWritten(Recovering(n + |h|), rest)
    decreases |h|
  {
    if |h| > 0 {
      CrashCycleThen(Recovering(n), h[0], Crashes(h[1..], rest));
      CrashesRecover(n + 1, h[1..], rest);
    }
  }

  /** Five crashes use up the recovery budget. */
  lemma FiveCrashesExhaustRecovery(h: seq<HandleId>, rest: seq<Event>)
    requires |h| == 5
    ensures RunAsWritten(Initial(), Crashes(h, rest))
            == RunAsWritten(State(None, true, None, 5, 5, Some(4)), rest)
  {
    assert Initial() == Recovering(0);
    CrashesRecover(0, h, rest);
  }

  /**
   * With the budget used up, the sixth crash shows the recovery error; Retry leaves
   * the counter at 5, so the next crash shows the error at once, now with
   * `retryCount` 0; Retry then sets `retryCount` to the 0 it already holds.
   */
  lemma RetryAfterExhaustionStalls(h: seq<HandleId>)
    requires |h| == 7
    ensures RunAsWritten(State(None, true, None, 5, 5, Some(4)), HangTail(h))
            == Some(State(None, true, None, 0, 5, Some(0)))
  {
    var r: seq<Event> := [RetryClicked];
    var s5 := State(None, true, None, 5, 5, Some(4));
    CrashCycleGivesUp(s5, h[5]);
    var s6 := State(None, false, Some(RecoveryFailedError), 5, 5, Some(5));
    var s7 := State(None, true, None, 0, 5, Some(5));
    assert RunAsWritten(s6, r) == Some(s7);
    CrashCycleGivesUp(s7, h[6]);
    var s8 := State(None, false, Some(RecoveryFailedError), 0, 5, Some(0));
    var s9 := State(None, true, None, 0, 5, Some(0));
    assert RunAsWritten(s8, r) == Some(s9);
    var t7 := CrashCycle(h[6]) + r;
    RunAsWrittenAppend(s7, CrashCycle(h[6]), r);
    RunAsWrittenAppend(s6, r, t7);
    RunAsWrittenAppend(s5, CrashCycle(h[5]), r + t7);
  }

  /**
   * With the button as written the trace leaves the tab stuck: the creation effect
   * is not relaunched, and the tab shows "Initializing browser..." for good.
   */
  lemma AsWrittenRetryCanHang(h: seq<HandleId>)
    requires |h| == 7
    ensures RunAsWritten(Initial(), HangTrace(h)) == Some(State(None, true, None, 0, 5, Some(0)))
    ensures Stuck(State(None, true, None, 0, 5, Some(0)))
  {
    FiveCrashesExhaustRecovery(h[..5], HangTail(h));
    RetryAfterExhaustionStalls(h);
  }

  /** With the corrected button the same crashes never leave the tab stuck. */
  lemma CorrectedRetryDoesNotHang(h: seq<HandleId>)
    requires |h| == 7
    ensures Run(Initial(), HangTrace(h)).Some? ==> !Stuck(Run(Initial(), HangTrace(h)).value)
  {
    InitialInv();
    RunKeepsInv(Initial(), HangTrace(h));
  }

  /** The tab component's creation and recovery state, changed in place by its effects. */
  class BrowserLifecycle {
    const initialUrl: string
    var handle: Option<HandleId>
    var isInitializing: bool
    var error: Option<string>
    var retryCount: nat
    var recoveryAttempts: nat
    var effectKey: Option<nat>

    function Snapshot(): State
      reads this
    {
      State(handle, isInitializing, error, retryCount, recoveryAttempts, effectKey)
    }

    ghost predicate Valid()
      reads this
    {
      Inv(Snapshot())
    }

    constructor(initialUrl: string)
      ensures Valid() && Snapshot() == Initial() && this.initialUrl == initialUrl
    {
      this.initialUrl := initialUrl;
      handle := None;
      isInitializing := true;
      error := None;
      retryCount := 0;
      recoveryAttempts := 0;
      effectKey := None;
    }

    /**
     * The creation effect: it waits the backoff and asks the host for a browser on
     * the tab's initial URL, unless a handle exists.
     */
    method RunCreateEffect(outcome: CreateOutcome) returns (delayMs: int, requested: Option<string>)
      requires Valid() && CreatePending(Snapshot())
      modifies this
      ensures Valid()
      ensures Snapshot() == AfterCreateEffect(old(Snapshot()), outcome)
      ensures old(handle).None? ==> delayMs == BackoffMs(old(retryCount)) && requested == Some(initialUrl)
      ensures old(handle).Some? ==> delayMs == 0 && requested == None
    {
      ghost var before := Snapshot();
      StepKeepsInv(before, CreateEffect(outcome));
      assert Inv(AfterCreateEffect(before, outcome));
      effectKey := Some(retryCount);
      if handle.Some? {
        return 0, None;
      }
      delayMs := BackoffMs(retryCount);
      requested := Some(initialUrl);
      match outcome {
        case Created(h) =>
          handle := Some(h);
          isInitializing := false;
        case _ =>
          if retryCount < MaxRetries {
            retryCount := retryCount + 1;
          } else {
            error := Some(FailureMessage(outcome));
            isInitializing := false;
          }
      }
      assert Snapshot() == AfterCreateEffect(before, outcome);
    }

    /**
     * The health check loop over the successive validity answers: it stops at the
     * first invalid answer, after running the recovery step once, and reports how
     * many polls it made.
     */
    method HealthCheckLoop(polls: seq<bool>) returns (consumed: nat)
      requires Valid() && handle.Some?
      modifies this
      ensures Valid()
      ensures consumed <= |polls|
      ensures forall i :: 0 <= i < consumed - 1 ==> polls[i]
      ensures (exists i :: 0 <= i < |polls| && !polls[i]) ==>
                consumed >= 1 && !polls[consumed - 1] && Snapshot() == AfterHealthPoll(old(Snapshot()), false)
      ensures (forall i :: 0 <= i < |polls| ==> polls[i]) ==>
                consumed == |polls| && Snapshot() == old(Snapshot())
    {
      var i := 0;
      while i < |polls|
        invariant 0 <= i <= |polls|
        invariant forall j :: 0 <= j < i ==> polls[j]
        invariant Snapshot() == old(Snapshot())
      {
        if !polls[i] {
          StepKeepsInv(Snapshot(), HealthPoll(false));
          if recoveryAttempts < MaxRecoveryAttempts {
            recoveryAttempts := recoveryAttempts + 1;
            handle := None;
            isInitializing := true;
            error := None;
            retryCount := retryCount + 1;
          } else {
            error := Some(RecoveryFailedError);
            handle := None;
            isInitializing := false;
          }
          return i + 1;
        }
        i := i + 1;
      }
      return |polls|;
    }

    /** The recovery check effect, run when a new handle arrives. */
    method RecoveryCheck(valid: bool)
      requires Valid()
      modifies this
      ensures Valid()
      ensures Snapshot() == AfterRecoveryCheck(old(Snapshot()), valid)
    {
      if handle.Some? && valid && recoveryAttempts > 0 {
        recoveryAttempts := 0;
      }
    }

    /**
     * The error screen's Retry button as written: `recoveryAttempts` is kept, so the
     * invariant survives only when no recovery was made.
     */
    method RetryClickedAsWritten()
      requires Valid() && !isInitializing && error.Some?
      modifies this
      ensures Snapshot() == AfterRetryClickedAsWritten(old(Snapshot()))
      ensures Valid() <==> old(recoveryAttempts) == 0
    {
      AsWrittenRetryKeepsInvIff(Snapshot());
      error := None;
      retryCount := 0;
      isInitializing := true;
    }

    /** The error screen's Retry button, resetting both counters. */
    method RetryClicked()
      requires Valid() && !isInitializing && error.Some?
      modifies this
      ensures Valid()
      ensures Snapshot() == AfterRetryClicked(old(Snapshot()))
      ensures CreatePending(Snapshot())
    {
      StepKeepsInv(Snapshot(), Event.RetryClicked);
      error := None;
      retryCount := 0;
      recoveryAttempts := 0;
      isInitializing := true;
    }
  }
}
