/**
 The grant machine and the controller's watchdog together, over whole runs: what is held is
 backed by recent input, and asking again is no way to stay in control.
 */
module GrantRuns {
  import opened Basics
  import opened InputControl
  import opened AgentGrant
  import R = InputRuns

  const WATCHDOG_SECONDS := 3.0
  const WATCHDOG_INTERVAL_SECONDS := 1.0

  /** The monotonic clock at a step, for the steps it matters to. */
  function Clock(s: Step): Option<real> {
    match s
    case ControlArrives(m) => Some(m.now)
    case WatchdogWakes(_, now) => Some(now)
    case HandlerResumes(_, _, now) => Some(now)
    case _ => None
  }

  predicate NotBefore(later: Option<real>, earlier: Option<real>) {
    later.Some? && earlier.Some? ==> earlier.value <= later.value
  }

  ghost predicate ClockOrdered(steps: seq<Step>) {
    forall i, j :: 0 <= i < j < |steps| ==> NotBefore(Clock(steps[j]), Clock(steps[i]))
  }

  // ---------------------------------------------------------------- bounded hold

  /** The input message reaches the controller and is accepted by it. */
  predicate AcceptsInput(a: Agent, s: Step)
    requires a.Valid()
  {
    && s.ControlArrives? && s.arrival.message.Input? && a.controller.Some? && a.GrantActive(s.arrival.enteredAt)
    && AfterHandle(Sized(a.controller.value, s.arrival), s.arrival.message.message, s.arrival.now).applied
  }

  function Sized(c: Ctl, m: Arrival): (sized: Ctl)
    requires c.Valid()
    ensures sized.Valid()
  {
    if m.source.Some? then AfterSourceSize(c, m.source.value.0, m.source.value.1) else c
  }

  /** The watchdog starts to sleep: it woke, or it has just been created. */
  predicate WatchdogSleeps(a: Agent, s: Step)
    requires a.Valid() && CanStep(a, s)
  {
    s.WatchdogWakes? || (s.HandlerResumes? && !a.watchdog && Next(a, s).agent.watchdog)
  }

  function LastInput(start: Agent, steps: seq<Step>): Option<real>
    requires IsRun(start, steps)
  {
    if steps == [] then None
    else
      var front, last := steps[..|steps| - 1], steps[|steps| - 1];
      if AcceptsInput(After(start, front), last) then Clock(last) else LastInput(start, front)
  }

  function AsleepSince(start: Agent, steps: seq<Step>): Option<real>
    requires IsRun(start, steps)
  {
    if steps == [] then None
    else
      var front, last := steps[..|steps| - 1], steps[|steps| - 1];
      if WatchdogSleeps(After(start, front), last) then Clock(last) else AsleepSince(start, front)
  }

  /** A controller's activity time is the last accepted input's, and was younger than the
      watchdog limit when the watchdog last went to sleep. */
  ghost predicate Attended(a: Agent, since: Option<real>, input: Option<real>) {
    a.controller.Some? ==>
      var c := a.controller.value;
      && since.Some? && c.watchdogSeconds == WATCHDOG_SECONDS
      && (c.Holding() ==> c.lastActivity.Some?)
      && (c.lastActivity.Some? ==>
            input == c.lastActivity && since.value - c.lastActivity.value < WATCHDOG_SECONDS)
  }

  lemma ControlKeepsAttended(a: Agent, m: Arrival, since: Option<real>, input: Option<real>)
    requires Authority(a) && Attended(a, since, input) && NotBefore(Some(m.now), since)
    ensures Attended(ReceiveControl(a, m).agent, since,
                     if AcceptsInput(a, ControlArrives(m)) then Some(m.now) else input)
  {
    hide AfterHandle, UpCalls;
    if m.message.Input? && a.controller.Some? && a.GrantActive(m.enteredAt) {
      R.StepEffect(Sized(a.controller.value, m), R.Deliver(m.now, m.message.message));
    }
  }

  lemma WakingKeepsAttended(a: Agent, nowMs: int, now: real, since: Option<real>, input: Option<real>)
    requires Authority(a) && Attended(a, since, input)
    ensures Attended(WatchdogTick(a, nowMs, now).agent, Some(now), input)
  {
    hide UpCalls;
  }

  lemma StepKeepsAttended(a: Agent, s: Step, since: Option<real>, input: Option<real>)
    requires Authority(a) && CanStep(a, s) && Attended(a, since, input) && NotBefore(Clock(s), since)
    ensures Attended(Next(a, s).agent,
                     if WatchdogSleeps(a, s) then Clock(s) else since,
                     if AcceptsInput(a, s) then Clock(s) else input)
  {
    hide AfterHandle, UpCalls, ReceiveControl, WatchdogTick;
    if s.ControlArrives? {
      ControlKeepsAttended(a, s.arrival, since, input);
    } else if s.WatchdogWakes? {
      WakingKeepsAttended(a, s.nowMs, s.now, since, input);
    }
  }

  lemma {:induction false} RunIsAttended(start: Agent, steps: seq<Step>)
    requires Starts(start) && IsRun(start, steps) && ClockOrdered(steps)
    ensures Attended(After(start, steps), AsleepSince(start, steps), LastInput(start, steps))
    ensures forall s :: (forall i :: 0 <= i < |steps| ==> NotBefore(s, Clock(steps[i]))) ==>
              NotBefore(s, AsleepSince(start, steps))
  {
    if steps == [] {
    } else {
      hide Next, Attended, AcceptsInput, WatchdogSleeps;
      var front, last := steps[..|steps| - 1], steps[|steps| - 1];
      RunIsAttended(start, front);
      AuthorityHolds(start, front);
      forall s | forall i :: 0 <= i < |steps| ==> NotBefore(s, Clock(steps[i]))
        ensures NotBefore(s, AsleepSince(start, front))
      {
        forall i | 0 <= i < |front| ensures NotBefore(s, Clock(front[i])) { assert front[i] == steps[i]; }
      }
      StepKeepsAttended(After(start, front), last, AsleepSince(start, front), LastInput(start, front));
    }
  }

  /** While the watchdog never sleeps longer than its interval, whatever the host holds is
      backed by input accepted less than four seconds ago, through every revocation, peer
      replacement and new grant. */
  lemma HostHoldIsBounded(start: Agent, steps: seq<Step>, now: real)
    requires Starts(start) && IsRun(start, steps) && ClockOrdered(steps)
    requires AsleepSince(start, steps).Some? ==> now - AsleepSince(start, steps).value <= WATCHDOG_INTERVAL_SECONDS
    ensures HostHeld(start, steps) != NOTHING ==>
              var input := LastInput(start, steps);
              input.Some? && now - input.value < WATCHDOG_SECONDS + WATCHDOG_INTERVAL_SECONDS
  {
    hide After, IsRun, AsleepSince, LastInput;
    AuthorityHolds(start, steps);
    RunIsAttended(start, steps);
  }

  // ---------------------------------------------------------------- asking again

  /** However often the viewer asks again, without pings a grant that stands throughout keeps
      its expiry: every request came while it was active and only echoed it. */
  lemma {:induction false} AskingNeverExtends(start: Agent, steps: seq<Step>, expiry: int)
    requires Authority(start) && start.expiresAt == Some(expiry) && IsRun(start, steps)
    requires forall i :: 0 <= i < |steps| ==> !IsPing(steps[i])
    requires forall i :: 0 <= i < |steps| && steps[i].SessionRequest? ==> steps[i].request.checkedAt < expiry
    requires forall n: nat :: n <= |steps| ==> GrantedAfter(start, steps, n)
    ensures Authority(After(start, steps)) && After(start, steps).expiresAt == Some(expiry)
  {
    if steps == [] {
    } else {
      hide Next;
      var n := |steps| - 1;
      var front, last := steps[..n], steps[n];
      forall k: nat | k <= n ensures GrantedAfter(start, front, k) {
        assert GrantedAfter(start, steps, k) && front[..k] == steps[..k];
      }
      AskingNeverExtends(start, front, expiry);
      assert GrantedAfter(start, steps, n) && GrantedAfter(start, steps, n + 1) && steps[..n + 1] == steps;
      StepKeepsExpiry(After(start, front), last, expiry);
    }
  }

  lemma StepKeepsExpiry(a: Agent, s: Step, expiry: int)
    requires Authority(a) && CanStep(a, s) && a.granted && a.expiresAt == Some(expiry)
    requires !IsPing(s) && (s.SessionRequest? ==> s.request.checkedAt < expiry)
    requires Next(a, s).agent.granted
    ensures Authority(Next(a, s).agent)
    ensures Next(a, s).agent.expiresAt == Some(expiry)
  {
    NextKeepsAuthority(a, s);
    ExpiryComesFrom(a, s);
    if IsGrantRequest(s) {
      RepeatedRequestKeepsLease(a, s.request);
    } else if s.SessionRequest? {
      hide UpCalls;
    }
  }

  /** So without pings nothing is pressed at or after the expiry, whatever is requested. */
  lemma AskingNeverProlongsInput(start: Agent, steps: seq<Step>, expiry: int, s: Step)
    requires Authority(start) && start.expiresAt == Some(expiry) && IsRun(start, steps)
    requires forall i :: 0 <= i < |steps| ==> !IsPing(steps[i])
    requires forall i :: 0 <= i < |steps| && steps[i].SessionRequest? ==> steps[i].request.checkedAt < expiry
    requires forall n: nat :: n <= |steps| ==> GrantedAfter(start, steps, n)
    requires After(start, steps).Valid() && CanStep(After(start, steps), s)
              && Presses(Next(After(start, steps), s).calls)
    ensures s.ControlArrives? && s.arrival.enteredAt < expiry
  {
    hide Next, Presses, GrantedAfter;
    AskingNeverExtends(start, steps, expiry);
    PressNeedsAuthority(After(start, steps), s);
  }
}
