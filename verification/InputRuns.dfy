/**
 What the input controller guarantees over whole runs: nothing is held without recent
 activity, the limiters are exact, and releases always go through.
 */
module InputRuns {
  import opened Basics
  import opened SlidingWindow
  import opened InputControl
  import G = Geometry
  import KeyCodes

  datatype Step =
    | Deliver(now: real, message: Message)
    | Tick(now: real)
    | SourceSize(now: real, width: int, height: int)
    | FrameSize(now: real, width: int, height: int)

  function StepOutcome(c: Ctl, s: Step): (o: Outcome)
    requires c.Valid()
    ensures o.ctl.Valid()
  {
    match s
    case Deliver(now, message) => AfterHandle(c, message, now)
    case Tick(now) => AfterTick(c, now)
    case SourceSize(_, width, height) => Outcome(AfterSourceSize(c, width, height), false, multiset{})
    case FrameSize(_, width, height) => Outcome(AfterFrameSize(c, width, height), false, multiset{})
  }

  function Exec(c0: Ctl, steps: seq<Step>): (c: Ctl)
    requires c0.Valid()
    ensures c.Valid()
  {
    if steps == [] then c0 else StepOutcome(Exec(c0, steps[..|steps| - 1]), steps[|steps| - 1]).ctl
  }

  ghost predicate TimeOrdered(steps: seq<Step>) {
    forall i, j :: 0 <= i < j < |steps| ==> steps[i].now <= steps[j].now
  }

  ghost predicate StartsFresh(c0: Ctl) {
    c0.Valid() && !c0.Holding() && c0.moveTimes == [] && c0.actionTimes == [] && c0.lastActivity.None?
  }

  // ---------------------------------------------------------------- bounded hold

  /** The time of the last watchdog tick, or of the start when there was none. */
  function LastTick(start: real, steps: seq<Step>): real {
    if steps == [] then start
    else if steps[|steps| - 1].Tick? then steps[|steps| - 1].now
    else LastTick(start, steps[..|steps| - 1])
  }

  /** The time of the last message the controller accepted. */
  function LastAccepted(c0: Ctl, steps: seq<Step>): Option<real>
    requires c0.Valid()
  {
    if steps == [] then None
    else
      var front, s := steps[..|steps| - 1], steps[|steps| - 1];
      if s.Deliver? && StepOutcome(Exec(c0, front), s).applied then Some(s.now) else LastAccepted(c0, front)
  }

  lemma DispatchEffect(c: Ctl, p: Payload, now: real)
    requires c.Valid()
    ensures var o := AfterDispatch(c, p, now);
            && o.ctl.lastSequence == c.lastSequence && o.ctl.watchdogSeconds == c.watchdogSeconds
            && o.ctl.lastActivity == c.lastActivity
            && (!o.applied ==> o.ctl.buttons == c.buttons && o.ctl.keys == c.keys && o.calls == multiset{})
  {
    hide G.FrameToDesktopAbsolute, KeyCodes.AgentKey, IsSafeText, DequeAdmit;
  }

  /** What any single step can do to the watchdog's view of a controller. */
  lemma StepEffect(c: Ctl, s: Step)
    requires c.Valid()
    ensures var o := StepOutcome(c, s);
            && o.ctl.lastSequence >= c.lastSequence && o.ctl.watchdogSeconds == c.watchdogSeconds
            && (s.Deliver? && o.applied ==> o.ctl.lastActivity == Some(s.now))
            && (s.Tick? && o.applied ==> o.ctl.lastActivity.None? && !o.ctl.Holding())
            && (s.Tick? && !o.applied ==> !WatchdogExpired(c, s.now))
            && (!o.applied ==>
                  o.ctl.lastActivity == c.lastActivity && o.ctl.buttons == c.buttons && o.ctl.keys == c.keys)
            && (!s.Deliver? && !s.Tick? ==> !o.applied)
  {
    hide AfterDispatch, UpCalls;
    if s.Deliver? && Fresh(c, s.message) && s.message.payload.Some? {
      DispatchEffect(c.(lastSequence := s.message.sequence.value), s.message.payload.value, s.now);
    }
  }

  lemma {:induction false} ActivityTracksAcceptance(c0: Ctl, steps: seq<Step>, start: real)
    requires StartsFresh(c0) && TimeOrdered(steps) && c0.watchdogSeconds > 0.0
    requires forall i :: 0 <= i < |steps| ==> start <= steps[i].now
    ensures var c := Exec(c0, steps);
            && c.watchdogSeconds == c0.watchdogSeconds
            && (c.Holding() ==> c.lastActivity.Some?)
            && (c.lastActivity.Some? ==>
                  && LastAccepted(c0, steps) == c.lastActivity
                  && LastTick(start, steps) - c.lastActivity.value < c0.watchdogSeconds)
    ensures steps != [] ==> LastTick(start, steps) <= steps[|steps| - 1].now
  {
    hide StepOutcome;
    if steps == [] {
    } else {
      ActivityTracksAcceptance(c0, steps[..|steps| - 1], start);
      StepEffect(Exec(c0, steps[..|steps| - 1]), steps[|steps| - 1]);
    }
  }

  /** While ticks come at most one second apart, anything held at time `now` is backed by a
      message accepted less than `watchdogSeconds + 1` ago; rejected messages never count. */
  lemma HoldIsBounded(c0: Ctl, steps: seq<Step>, start: real, now: real)
    requires StartsFresh(c0) && TimeOrdered(steps) && c0.watchdogSeconds > 0.0
    requires forall i :: 0 <= i < |steps| ==> start <= steps[i].now
    requires now - LastTick(start, steps) <= 1.0
    ensures Exec(c0, steps).Holding() ==>
              var last := LastAccepted(c0, steps);
              last.Some? && now - last.value < c0.watchdogSeconds + 1.0
  {
    ActivityTracksAcceptance(c0, steps, start);
  }

  /** A refused message leaves the activity time, the held input and the host untouched. */
  lemma RejectedChangesNothingHeld(c: Ctl, m: Message, now: real)
    requires c.Valid() && !AfterHandle(c, m, now).applied
    ensures var o := AfterHandle(c, m, now);
            && o.ctl.lastActivity == c.lastActivity && o.ctl.buttons == c.buttons && o.ctl.keys == c.keys
            && o.calls == multiset{}
  {
    hide AfterDispatch;
    if Fresh(c, m) && m.payload.Some? {
      DispatchEffect(c.(lastSequence := m.sequence.value), m.payload.value, now);
    }
  }

  /** Sequence numbers admit each message at most once, whatever the run does in between. */
  lemma {:induction false} ReplayIsInert(c0: Ctl, steps: seq<Step>, m: Message, sent: real, again: real)
    requires c0.Valid() && m.sequence.Some?
    ensures var c1 := AfterHandle(c0, m, sent).ctl;
            AfterHandle(Exec(c1, steps), m, again) == Refused(Exec(c1, steps))
  {
    assert StepOutcome(c0, Deliver(sent, m)).ctl.Valid();
    hide AfterDispatch;
    if Fresh(c0, m) && m.payload.Some? {
      DispatchEffect(c0.(lastSequence := m.sequence.value), m.payload.value, sent);
    }
    SequenceNeverFalls(AfterHandle(c0, m, sent).ctl, steps);
  }

  lemma {:induction false} SequenceNeverFalls(c0: Ctl, steps: seq<Step>)
    requires c0.Valid()
    ensures Exec(c0, steps).lastSequence >= c0.lastSequence
  {
    hide StepOutcome;
    if steps == [] {
    } else {
      SequenceNeverFalls(c0, steps[..|steps| - 1]);
      StepEffect(Exec(c0, steps[..|steps| - 1]), steps[|steps| - 1]);
    }
  }

  // ---------------------------------------------------------------- releases

  /** A fresh release is applied however full the limiters are, and what it names is let go. */
  lemma ReleasesAreNeverLimited(c: Ctl, m: Message, now: real)
    requires c.Valid() && Fresh(c, m) && m.payload.Some?
    ensures var o := AfterHandle(c, m, now);
            match m.payload.value
            case KeyUp(Some(code)) => KeyCodes.AgentKey(code) ==>
              o.applied && o.ctl.keys == c.keys - {code} && o.calls == multiset{Key(code, Up)}
            case PointerButton(button, Up) => button != UnknownButton ==>
              o.applied && o.ctl.buttons == c.buttons - {button} && o.calls == multiset{MouseButton(button, Up)}
            case ReleaseEverything =>
              o.applied && !o.ctl.Holding() && o.calls == UpCalls(c.buttons, c.keys)
            case _ => true
  {
    hide G.FrameToDesktopAbsolute, KeyCodes.AgentKey, IsSafeText, DequeAdmit;
  }

  // ---------------------------------------------------------------- the two limiters

  /** The action limiter (presses, wheel, text) and the pointer-move limiter. */
  datatype Limiter = Actions | Moves
  {
    function WindowEdge(): Edge { if Actions? then HalfOpen else Closed }

    function Limit(c: Ctl): int { if Actions? then c.actionLimit else c.rateLimit }

    function Times(c: Ctl): seq<real> { if Actions? then c.actionTimes else c.moveTimes }

    /** The message gets as far as asking this limiter. */
    predicate Asks(c: Ctl, m: Message) {
      && Fresh(c, m) && m.payload.Some?
      && var p := m.payload.value;
         if Actions? then IsAction(p) && !IsRelease(p)
         else p.PointerMove? && c.source.Some? && IsUnit(p.x) && IsUnit(p.y)
    }

    predicate Injects(call: SinkCall) {
      if Moves? then call.MoveAbsolute?
      else call.Wheel? || call.TypeText? || (call.Key? && call.action == Down)
           || (call.MouseButton? && call.action == Down)
    }

    predicate Admits(c: Ctl, now: real) {
      DequeAdmit(Times(c), now, Limit(c), 1.0, WindowEdge()).allowed
    }
  }

  /** When a run asked the limiter. */
  function Attempts(l: Limiter, c0: Ctl, steps: seq<Step>): seq<real>
    requires c0.Valid()
  {
    if steps == [] then []
    else
      var front, s := steps[..|steps| - 1], steps[|steps| - 1];
      if s.Deliver? && l.Asks(Exec(c0, front), s.message) then Attempts(l, c0, front) + [s.now]
      else Attempts(l, c0, front)
  }

  /** Everything the limiter admitted in a run. */
  function History(l: Limiter, c0: Ctl, steps: seq<Step>): seq<real>
    requires c0.Valid()
  {
    Admitted(Attempts(l, c0, steps), l.Limit(c0), 1.0, l.WindowEdge())
  }

  /** How many of the calls the limiter governs. */
  ghost function Governed(l: Limiter, calls: multiset<SinkCall>): nat {
    Total(calls, set call | call in calls && l.Injects(call))
  }

  ghost function Total(calls: multiset<SinkCall>, among: set<SinkCall>): nat {
    if among == {} then 0
    else
      var call :| call in among;
      calls[call] + Total(calls, among - {call})
  }

  function Copies(t: real, n: nat): seq<real> { seq(n, _ => t) }

  /** When a run injected calls the limiter governs, one entry for each call. */
  ghost function Injections(l: Limiter, c0: Ctl, steps: seq<Step>): seq<real>
    requires c0.Valid()
  {
    if steps == [] then []
    else
      var front, s := steps[..|steps| - 1], steps[|steps| - 1];
      Injections(l, c0, front) + Copies(s.now, Governed(l, StepOutcome(Exec(c0, front), s).calls))
  }

  lemma UpCallsReleaseOnly(l: Limiter, buttons: set<ButtonName>, keys: set<string>)
    ensures forall call :: call in UpCalls(buttons, keys) ==> !l.Injects(call)
  {
  }

  lemma ActionAsks(l: Limiter, c: Ctl, p: Payload)
    requires IsAction(p)
    ensures var o := AfterAction(c, p);
            && l.Limit(o.ctl) == l.Limit(c) && l.Times(o.ctl) == l.Times(c)
            && |o.calls| <= 1
            && ((exists call :: call in o.calls && l.Injects(call)) ==> l.Actions? && !IsRelease(p))
  {
    hide KeyCodes.AgentKey, IsSafeText;
  }

  lemma DispatchAsks(l: Limiter, c: Ctl, m: Message, now: real)
    requires c.Valid() && Fresh(c, m) && m.payload.Some?
    ensures var o := AfterDispatch(c.(lastSequence := m.sequence.value), m.payload.value, now);
            && l.Limit(o.ctl) == l.Limit(c)
            && l.Times(o.ctl) == (if l.Asks(c, m)
                                  then DequeAdmit(l.Times(c), now, l.Limit(c), 1.0, l.WindowEdge()).timestamps
                                  else l.Times(c))
            && ((exists call :: call in o.calls && l.Injects(call)) ==>
                l.Asks(c, m) && l.Admits(c, now) && |o.calls| == 1)
  {
    hide G.FrameToDesktopAbsolute, DequeAdmit, AfterAction, UpCalls;
    var c1, p := c.(lastSequence := m.sequence.value), m.payload.value;
    UpCallsReleaseOnly(l, c.buttons, c.keys);
    if IsAction(p) {
      ActionAsks(l, c1, p);
      ActionAsks(l, c1.(actionTimes := DequeAdmit(c.actionTimes, now, c.actionLimit, 1.0, HalfOpen).timestamps), p);
    }
  }

  /** One step touches a limiter only by asking it, and injects only when admitted. */
  lemma StepAsks(l: Limiter, c: Ctl, s: Step)
    requires c.Valid()
    ensures var o := StepOutcome(c, s);
            && l.Limit(o.ctl) == l.Limit(c)
            && l.Times(o.ctl) == (if s.Deliver? && l.Asks(c, s.message)
                                  then DequeAdmit(l.Times(c), s.now, l.Limit(c), 1.0, l.WindowEdge()).timestamps
                                  else l.Times(c))
            && ((exists call :: call in o.calls && l.Injects(call)) ==>
                  s.Deliver? && l.Asks(c, s.message) && l.Admits(c, s.now) && |o.calls| == 1)
  {
    hide AfterDispatch, UpCalls, l.Admits, l.Injects;
    UpCallsReleaseOnly(l, c.buttons, c.keys);
    if s.Deliver? && Fresh(c, s.message) && s.message.payload.Some? {
      DispatchAsks(l, c, s.message, s.now);
    }
  }

  /** A step injects at most one governed call, and only one that was admitted. */
  lemma StepInjectsAtMostOne(l: Limiter, c: Ctl, s: Step)
    requires c.Valid()
    ensures Governed(l, StepOutcome(c, s).calls) <= 1
    ensures Governed(l, StepOutcome(c, s).calls) == 1 ==> s.Deliver? && l.Asks(c, s.message) && l.Admits(c, s.now)
  {
    StepAsks(l, c, s);
    hide StepOutcome, l.Asks, l.Admits, l.Injects;
    var calls := StepOutcome(c, s).calls;
    if call :| call in calls && l.Injects(call) {
      OnlyCall(calls, call);
      assert (set x | x in calls && l.Injects(x)) == {call};
      TotalOfOne(calls, call);
    } else {
      assert (set x | x in calls && l.Injects(x)) == {};
    }
  }

  lemma TotalOfOne(calls: multiset<SinkCall>, call: SinkCall)
    ensures Total(calls, {call}) == calls[call]
  {
    var chosen :| chosen in {call} && Total(calls, {call}) == calls[chosen] + Total(calls, {call} - {chosen});
    assert {call} - {chosen} == {};
  }

  lemma OnlyCall(calls: multiset<SinkCall>, call: SinkCall)
    requires call in calls && |calls| == 1
    ensures calls == multiset{call}
  {
    assert |calls - multiset{call}| == 0;
    assert calls == (calls - multiset{call}) + multiset{call};
  }

  lemma {:induction false} DequeFollowsAttempts(l: Limiter, c0: Ctl, steps: seq<Step>)
    requires StartsFresh(c0)
    ensures var c := Exec(c0, steps);
            && l.Limit(c) == l.Limit(c0)
            && l.Times(c) == DequeRun(Attempts(l, c0, steps), l.Limit(c0), 1.0, l.WindowEdge()).timestamps
  {
    if steps == [] {
    } else {
      var front, s := steps[..|steps| - 1], steps[|steps| - 1];
      DequeFollowsAttempts(l, c0, front);
      StepAsks(l, Exec(c0, front), s);
      var before := Attempts(l, c0, front);
      assert (before + [s.now])[..|before|] == before;
    }
  }

  lemma {:induction false} AttemptsOrdered(l: Limiter, c0: Ctl, steps: seq<Step>)
    requires StartsFresh(c0) && TimeOrdered(steps)
    ensures Nondecreasing(Attempts(l, c0, steps))
    ensures forall t :: t in Attempts(l, c0, steps) ==> t <= steps[|steps| - 1].now
  {
    if steps == [] {
    } else {
      AttemptsOrdered(l, c0, steps[..|steps| - 1]);
      var before := Attempts(l, c0, steps[..|steps| - 1]);
      forall i | 0 <= i < |before| ensures before[i] <= steps[|steps| - 1].now { assert before[i] in before; }
    }
  }

  /** After any run a limiter admits at `now` exactly when its window of the full admitted
      history is not full: nothing is refused early and nothing slips through late. */
  lemma LimiterIsExact(l: Limiter, c0: Ctl, steps: seq<Step>, now: real)
    requires StartsFresh(c0) && TimeOrdered(steps)
    requires forall i :: 0 <= i < |steps| ==> steps[i].now <= now
    ensures l.Admits(Exec(c0, steps), now) <==>
              |Retained(History(l, c0, steps), now, 1.0, l.WindowEdge())| < l.Limit(c0)
  {
    hide Retained, DequeAdmit, Admitted, StepOutcome, l.Asks;
    var attempts, held := Attempts(l, c0, steps), l.Times(Exec(c0, steps));
    DequeFollowsAttempts(l, c0, steps);
    AttemptsOrdered(l, c0, steps);
    if attempts == [] {
      AdmittedNothing(l.Limit(c0), l.WindowEdge());
      RetainedNothing(now, 1.0, l.WindowEdge());
      DequeStepIsExact([], held, now, now, l.Limit(c0), 1.0, l.WindowEdge());
    } else {
      var last := attempts[|attempts| - 1];
      assert last in attempts;
      AdmittedAreTimes(attempts, l.Limit(c0), 1.0, l.WindowEdge());
      DequeRunHoldsWindow(attempts, l.Limit(c0), 1.0, l.WindowEdge());
      DequeStepIsExact(Admitted(attempts, l.Limit(c0), 1.0, l.WindowEdge()), held, last, now,
                       l.Limit(c0), 1.0, l.WindowEdge());
    }
  }

  lemma AdmittedNothing(limit: int, edge: Edge)
    ensures Admitted([], limit, 1.0, edge) == []
  {
  }

  lemma PressFollowsAdmission(c: Ctl, m: Message, now: real, code: string)
    requires c.Valid() && Fresh(c, m) && m.payload == Some(KeyDown(Some(code))) && KeyCodes.AgentKey(code)
    ensures AfterHandle(c, m, now).applied <==> Actions.Admits(c, now)
  {
    hide G.FrameToDesktopAbsolute, KeyCodes.AgentKey, IsSafeText, DequeAdmit;
  }

  /** A valid fresh press is applied if and only if its limiter's window has room. */
  lemma PressAppliedIffRoom(c0: Ctl, steps: seq<Step>, m: Message, now: real, code: string)
    requires StartsFresh(c0) && TimeOrdered(steps)
    requires forall i :: 0 <= i < |steps| ==> steps[i].now <= now
    requires m.payload == Some(KeyDown(Some(code))) && KeyCodes.AgentKey(code) && Fresh(Exec(c0, steps), m)
    ensures AfterHandle(Exec(c0, steps), m, now).applied <==>
              |Retained(History(Actions, c0, steps), now, 1.0, HalfOpen)| < c0.actionLimit
  {
    hide AfterHandle, Admitted, Attempts, Retained, KeyCodes.AgentKey;
    LimiterIsExact(Actions, c0, steps, now);
    PressFollowsAdmission(Exec(c0, steps), m, now, code);
  }

  /** What one more step adds to the injections, it adds to the admissions. */
  lemma HistoriesGrow(l: Limiter, c0: Ctl, steps: seq<Step>)
    requires StartsFresh(c0) && TimeOrdered(steps) && steps != []
    ensures var front, now := steps[..|steps| - 1], steps[|steps| - 1].now;
            || (Injections(l, c0, steps) == Injections(l, c0, front) && History(l, c0, steps) == History(l, c0, front))
            || (Injections(l, c0, steps) == Injections(l, c0, front)
                && History(l, c0, steps) == History(l, c0, front) + [now])
            || (Injections(l, c0, steps) == Injections(l, c0, front) + [now]
                && History(l, c0, steps) == History(l, c0, front) + [now])
  {
    hide Retained, DequeAdmit, Admitted, StepOutcome, Governed, l.Asks, l.Admits, l.Injects;
    var front, s := steps[..|steps| - 1], steps[|steps| - 1];
    StepInjectsAtMostOne(l, Exec(c0, front), s);
    assert Copies(s.now, 1) == [s.now] && Injections(l, c0, front) + Copies(s.now, 0) == Injections(l, c0, front);
    LimiterIsExact(l, c0, front, s.now);
    AdmittedGrows(Attempts(l, c0, front), s.now, l.Limit(c0), l.WindowEdge());
  }

  lemma {:induction false} InjectionsAreAdmitted(l: Limiter, c0: Ctl, steps: seq<Step>, from: real)
    requires StartsFresh(c0) && TimeOrdered(steps)
    ensures |InWindow(Injections(l, c0, steps), from, 1.0, l.WindowEdge())|
            <= |InWindow(History(l, c0, steps), from, 1.0, l.WindowEdge())|
  {
    if steps == [] {
    } else {
      HistoriesGrow(l, c0, steps);
      hide History, Injections, InWindow;
      var front, now := steps[..|steps| - 1], steps[|steps| - 1].now;
      InjectionsAreAdmitted(l, c0, front, from);
      InWindowGrows(Injections(l, c0, front), now, from, l.WindowEdge());
      InWindowGrows(History(l, c0, front), now, from, l.WindowEdge());
    }
  }

  /** Every injected call is an admitted attempt of its own: counted with multiplicity, the
      injections are among the admissions. */
  lemma {:induction false} EveryInjectionWasAdmitted(l: Limiter, c0: Ctl, steps: seq<Step>)
    requires StartsFresh(c0) && TimeOrdered(steps)
    ensures multiset(Injections(l, c0, steps)) <= multiset(History(l, c0, steps))
  {
    if steps == [] {
    } else {
      HistoriesGrow(l, c0, steps);
      hide History, Injections;
      EveryInjectionWasAdmitted(l, c0, steps[..|steps| - 1]);
    }
  }

  lemma AdmittedGrows(asked: seq<real>, now: real, limit: int, edge: Edge)
    ensures var admitted := Admitted(asked, limit, 1.0, edge);
            Admitted(asked + [now], limit, 1.0, edge)
            == if |Retained(admitted, now, 1.0, edge)| < limit then admitted + [now] else admitted
  {
    assert (asked + [now])[..|asked|] == asked;
  }

  lemma InWindowGrows(ts: seq<real>, t: real, from: real, edge: Edge)
    ensures InWindow(ts + [t], from, 1.0, edge)
            == InWindow(ts, from, 1.0, edge) + if from <= t && Recent(from, t, 1.0, edge) then [t] else []
  {
    assert (ts + [t])[..|ts|] == ts;
  }

  /** No one-second window, wherever it starts, carries more injected presses (or moves)
      than the configured limit. */
  lemma InjectionRateIsBounded(l: Limiter, c0: Ctl, steps: seq<Step>, from: real)
    requires StartsFresh(c0) && TimeOrdered(steps) && l.Limit(c0) >= 0
    ensures |InWindow(Injections(l, c0, steps), from, 1.0, l.WindowEdge())| <= l.Limit(c0)
  {
    InjectionsAreAdmitted(l, c0, steps, from);
    EveryWindowIsBounded(Attempts(l, c0, steps), l.Limit(c0), 1.0, l.WindowEdge(), from);
  }

  // ---------------------------------------------------------------- typed text

  /** The C1 control characters, which the documentation says are rejected as well. */
  predicate IsC1(c: char) { 0x80 <= c as int <= 0x9F }

  predicate IsDocumentedSafeText(text: string) {
    && 1 <= |text| <= 256
    && forall i :: 0 <= i < |text| ==>
         text[i] == '\n' || text[i] == '\t' || (text[i] as int >= 0x20 && text[i] as int != 0x7F && !IsC1(text[i]))
  }

  /** The code accepts more than it documents, exactly by the texts holding a C1 character. */
  lemma SafeTextVersusDocumentation(text: string)
    ensures IsDocumentedSafeText(text) <==> IsSafeText(text) && forall i :: 0 <= i < |text| ==> !IsC1(text[i])
    ensures var c1 := [0x85 as char]; IsSafeText(c1) && !IsDocumentedSafeText(c1)
  {
    assert IsC1([0x85 as char][0]);
    if IsDocumentedSafeText(text) {
      forall i | 0 <= i < |text| ensures !IsC1(text[i]) { assert '\n' as int == 10 && '\t' as int == 9; }
    }
  }

  /** A fresh text message is injected, whatever it holds, if and only if the code's own test
      passes and the limiter has room; with U+0085 it goes through to the host. */
  lemma TextIsTypedIff(c: Ctl, m: Message, now: real, text: string)
    requires c.Valid() && Fresh(c, m) && m.payload == Some(TextInput(Some(text)))
    ensures AfterHandle(c, m, now).calls ==
              if IsSafeText(text) && Limiter.Actions.Admits(c, now) then multiset{TypeText(text)} else multiset{}
  {
    hide G.FrameToDesktopAbsolute, KeyCodes.AgentKey, DequeAdmit;
  }

  lemma C1TextIsTyped()
    ensures var c1 := [0x85 as char];
            && !IsDocumentedSafeText(c1)
            && AfterHandle(NewCtl(1280, 720, 120, 60, 3.0), Message(Some(0), Some(TextInput(Some(c1)))), 0.0).calls
               == multiset{TypeText(c1)}
  {
    var c1 := [0x85 as char];
    SafeTextVersusDocumentation(c1);
    hide IsSafeText, IsDocumentedSafeText;
    TextIsTypedIff(NewCtl(1280, 720, 120, 60, 3.0), Message(Some(0), Some(TextInput(Some(c1)))), 0.0, c1);
  }

  // ---------------------------------------------------------------- what each message injects

  /** A fresh move goes to exactly the desktop point its frame position maps to, when the source
      size is known, both coordinates are in the unit range, the limiter has room and the point
      is over captured content; otherwise nothing is injected. */
  lemma MoveIsInjectedIff(c: Ctl, m: Message, now: real, x: Option<real>, y: Option<real>)
    requires c.Valid() && Fresh(c, m) && m.payload == Some(PointerMove(x, y))
    ensures var o := AfterHandle(c, m, now);
            var valid := c.source.Some? && x.Some? && 0.0 <= x.value <= 1.0 && y.Some? && 0.0 <= y.value <= 1.0;
            if valid && Limiter.Moves.Admits(c, now) && MappedBy(c, x.value, y.value).Some? then
              var point := MappedBy(c, x.value, y.value).value;
              o.applied && o.calls == multiset{MoveAbsolute(point.x, point.y)}
            else !o.applied && o.calls == multiset{}
  {
    if c.source.Some? && x.Some? && y.Some? {
      G.FramePointMapsIffOverContent(x.value, y.value, c.source.value.0, c.source.value.1, c.frameWidth, c.frameHeight);
    }
    hide G.FrameToDesktopAbsolute, DequeAdmit;
  }

  /** The desktop point of a frame position, by the controller's own sizes. */
  function MappedBy(c: Ctl, x: real, y: real): Option<G.AbsolutePoint> {
    if c.source.None? then None
    else
      var mapped := G.FrameToDesktopAbsolute(x, y, c.source.value.0, c.source.value.1, c.frameWidth, c.frameHeight);
      if mapped.Ok? then mapped.value else None
  }

  /** A fresh button message acts on exactly the button and in the direction it names. */
  lemma ButtonIsInjectedIff(c: Ctl, m: Message, now: real, button: ButtonName, action: Action)
    requires c.Valid() && Fresh(c, m) && m.payload == Some(PointerButton(button, action))
    ensures var o := AfterHandle(c, m, now);
            var known := (button == Left || button == Right || button == Middle) && (action == Down || action == Up);
            if known && (action == Up || Limiter.Actions.Admits(c, now)) then
              && o.applied && o.calls == multiset{MouseButton(button, action)}
              && o.ctl.keys == c.keys && forall b :: b in o.ctl.buttons <==>
                   if b == button then action == Down else b in c.buttons
            else !o.applied && o.calls == multiset{} && o.ctl.buttons == c.buttons && o.ctl.keys == c.keys
  {
    hide G.FrameToDesktopAbsolute, DequeAdmit;
  }

  /** A fresh wheel message turns by exactly its deltas, each at most 1200 either way. */
  lemma WheelIsInjectedIff(c: Ctl, m: Message, now: real, deltaX: Option<int>, deltaY: Option<int>)
    requires c.Valid() && Fresh(c, m) && m.payload == Some(PointerWheel(deltaX, deltaY))
    ensures var o := AfterHandle(c, m, now);
            var valid := deltaX.Some? && -1200 <= deltaX.value <= 1200 && deltaY.Some? && -1200 <= deltaY.value <= 1200;
            o.calls == if valid && Limiter.Actions.Admits(c, now) then multiset{Wheel(deltaX.value, deltaY.value)}
                else multiset{}
  {
    hide G.FrameToDesktopAbsolute, DequeAdmit;
  }

  /** A fresh key message acts on exactly the key and in the direction it names. */
  lemma KeyIsInjectedIff(c: Ctl, m: Message, now: real, code: Option<string>, down: bool)
    requires c.Valid() && Fresh(c, m) && m.payload == Some(if down then KeyDown(code) else KeyUp(code))
    ensures var o := AfterHandle(c, m, now);
            if code.Some? && KeyCodes.AgentKey(code.value) && (!down || Limiter.Actions.Admits(c, now)) then
              && o.applied && o.calls == multiset{Key(code.value, if down then Down else Up)}
              && o.ctl.buttons == c.buttons && forall k :: k in o.ctl.keys <==>
                   if k == code.value then down else k in c.keys
            else !o.applied && o.calls == multiset{} && o.ctl.buttons == c.buttons && o.ctl.keys == c.keys
  {
    hide G.FrameToDesktopAbsolute, DequeAdmit, KeyCodes.AgentKey;
  }

  /** The watchdog fires exactly after the silence it is set to, and otherwise changes nothing. */
  lemma WatchdogFiresIff(c: Ctl, now: real)
    ensures var o := AfterTick(c, now);
            if c.lastActivity.Some? && now - c.lastActivity.value >= c.watchdogSeconds then
              o.applied && !o.ctl.Holding() && o.ctl.lastActivity.None? && o.calls == UpCalls(c.buttons, c.keys)
            else o.ctl == c && o.calls == multiset{}
  {
  }

  /** A message without data or of an unknown event uses up its number and does nothing else. */
  lemma UnknownIsInert(c: Ctl, m: Message, now: real)
    requires c.Valid() && Fresh(c, m) && (m.payload.None? || m.payload.value.UnknownEvent?)
    ensures AfterHandle(c, m, now) == Outcome(c.(lastSequence := m.sequence.value), false, multiset{})
  {
  }

  /** Entries of a window, in plain arithmetic: the half-open window leaves its far end out. */
  lemma {:induction false} WindowHolds(ts: seq<real>, from: real, window: real, edge: Edge, t: real)
    ensures multiset(InWindow(ts, from, window, edge))[t] ==
              if from <= t && (t < from + window || (edge.Closed? && t == from + window)) then multiset(ts)[t] else 0
  {
    if ts == [] {
    } else {
      var front := ts[..|ts| - 1];
      WindowHolds(front, from, window, edge, t);
      assert ts == front + [ts[|ts| - 1]];
    }
  }
}
