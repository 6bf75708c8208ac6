/**
 The agent's control authority: local enablement, the one-way emergency lock, the grant
 with its dead-man lease, and the controller it switches on and off. Each step below is
 one stretch of code between two awaits; anything else may run in between.
 */
module AgentGrant {
  import opened Basics
  import opened InputControl
  import R = InputRuns
  import G = Geometry
  import KeyCodes
  import W = SlidingWindow

  const CONTROL_GRANT_TTL_MS := 60 * 60 * 1000

  /** Where the signaling handler is suspended. Signaling messages are handled one at a time. */
  datatype Phase = Idle | Replying | ClosingForOffer | FetchingIce | Answering | ClosingPeer

  datatype Agent = Agent(
    controlEnabled: bool, emergencyLocked: bool,
    granted: bool, expiresAt: Option<int>, pendingSink: bool,
    controller: Option<Ctl>, watchdog: bool,
    peer: bool, track: Option<(int, int)>, phase: Phase, profile: (int, int))
  {
    predicate GrantActive(nowMs: int) {
      granted && expiresAt.Some? && nowMs < expiresAt.value
    }

    predicate Valid() {
      && profile.0 > 0 && profile.1 > 0
      && (controller.Some? ==> controller.value.Valid())
    }
  }

  datatype Effect = Effect(agent: Agent, calls: multiset<SinkCall>)

  function Quiet(a: Agent): Effect { Effect(a, multiset{}) }

  function StopControlRuntime(a: Agent): Effect {
    Effect(a.(watchdog := false, controller := None),
           if a.controller.Some? then UpCalls(a.controller.value.buttons, a.controller.value.keys) else multiset{})
  }

  function RevokeControl(a: Agent): Effect {
    var stopped := StopControlRuntime(a);
    Effect(stopped.agent.(pendingSink := false, granted := false, expiresAt := None), stopped.calls)
  }

  /** The part of closing a peer that runs before its await. */
  function DetachPeer(a: Agent, phase: Phase): Effect {
    var stopped := StopControlRuntime(a);
    Effect(stopped.agent.(peer := false, track := None, phase := phase), stopped.calls)
  }

  function SetControlEnabled(a: Agent, enabled: bool): Effect {
    if enabled && a.emergencyLocked then Quiet(a)
    else
      var a1 := a.(controlEnabled := enabled);
      if enabled then Quiet(a1) else RevokeControl(a1)
  }

  function EmergencyStop(a: Agent): Effect {
    RevokeControl(a.(controlEnabled := false, emergencyLocked := true))
  }

  /** The clock is read twice: once to see whether a grant is active, once to date a new one. */
  datatype Request = Request(wantsControl: bool, profile: Option<(int, int)>, checkedAt: int, grantedAt: int,
                             windows: bool, sinkCreated: bool)

  function RequestSession(a: Agent, r: Request): Effect {
    var a1 := (if r.profile.Some? then a.(profile := r.profile.value) else a).(phase := Replying);
    if r.wantsControl && a1.GrantActive(r.checkedAt) then Quiet(a1) else DecideGrant(a1, r)
  }

  function DecideGrant(a: Agent, r: Request): Effect {
    var revoked := RevokeControl(a);
    var canControl := r.wantsControl && a.controlEnabled && r.windows && r.sinkCreated;
    Effect(revoked.agent.(pendingSink := canControl, granted := canControl,
                          expiresAt := if canControl then Some(r.grantedAt + CONTROL_GRANT_TTL_MS) else None),
           revoked.calls)
  }

  function StartControl(a: Agent, windows: bool, sinkCreated: bool): Effect {
    var a1 := a.(pendingSink := false);
    var reprepared := a.granted && a.controlEnabled && !a.emergencyLocked && windows && sinkCreated;
    if !a.pendingSink && !reprepared then RevokeControl(a1)
    else Quiet(a1.(controller := Some(NewCtl(a.profile.0, a.profile.1, 120, 60, 3.0)), watchdog := true))
  }

  function BuildPeer(a: Agent, windows: bool, sinkCreated: bool): Effect {
    var a1 := a.(peer := true, track := Some(a.profile), phase := Answering);
    if a1.granted then StartControl(a1, windows, sinkCreated) else Quiet(a1)
  }

  datatype ControlMessage = Ping | Unparsable | ReceiverReport | ClipboardSet | Input(message: Message)

  /** One message on the control channel. `enteredAt` dates the expiry check, `checkedAt` and
      `stampedAt` the lease renewal of a ping, `now` is the monotonic clock. */
  datatype Arrival = Arrival(message: ControlMessage, enteredAt: int, checkedAt: int, stampedAt: int,
                             now: real, source: Option<(int, int)>)

  function ReceiveControl(a: Agent, m: Arrival): Effect
    requires a.Valid()
  {
    var entered := if a.granted && !a.GrantActive(m.enteredAt) then RevokeControl(a) else Quiet(a);
    var a1 := entered.agent;
    match m.message
    case Ping =>
      if a1.GrantActive(m.checkedAt)
      then entered.(agent := a1.(expiresAt := Some(m.stampedAt + CONTROL_GRANT_TTL_MS)))
      else entered
    case Input(message) =>
      if !a1.granted || a1.controller.None? then entered
      else DriveController(a1, a1.controller.value, message, m)
    case _ => entered
  }

  function DriveController(a: Agent, c: Ctl, message: Message, m: Arrival): Effect
    requires c.Valid()
  {
    var sized := if m.source.Some? then AfterSourceSize(c, m.source.value.0, m.source.value.1) else c;
    var o := AfterHandle(sized, message, m.now);
    Effect(a.(controller := Some(o.ctl)), o.calls)
  }

  function WatchdogTick(a: Agent, nowMs: int, now: real): Effect {
    if !a.GrantActive(nowMs) then RevokeControl(a)
    else if a.controller.None? then Quiet(a)
    else
      var o := AfterTick(a.controller.value, now);
      Effect(a.(controller := Some(o.ctl)), o.calls)
  }

  /** Profiles are told apart by their sizes. Reconfiguring to the current one does nothing. */
  function ApplyVideoProfile(a: Agent, width: int, height: int): Agent {
    if a.track.None? || a.profile == (width, height) then a
    else
      a.(profile := (width, height), track := Some((width, height)),
         controller := if a.controller.Some? then Some(AfterFrameSize(a.controller.value, width, height)) else None)
  }

  /** A resumed handler reads no clock; `now` dates the start of a watchdog's first sleep. */
  datatype Step =
    | SessionRequest(request: Request)
    | Offer
    | Configure(width: int, height: int)
    | SessionClose
    | ConnectionLost(peerHealthy: bool)
    | HandlerResumes(windows: bool, sinkCreated: bool, now: real)
    | ControlArrives(arrival: Arrival)
    | WatchdogWakes(nowMs: int, now: real)
    | LocalSwitch(enabled: bool)
    | LocalEmergencyStop

  /** When a step can occur: signaling only while no handler is suspended, the watchdog only
      while its task lives; everything else at any await. */
  predicate CanStep(a: Agent, s: Step) {
    match s
    case SessionRequest(r) => a.phase.Idle? && (r.profile.Some? ==> r.profile.value.0 > 0 && r.profile.value.1 > 0)
    case Offer => a.phase.Idle?
    case Configure(width, height) => a.phase.Idle? && width > 0 && height > 0
    case SessionClose => a.phase.Idle?
    case ConnectionLost(peerHealthy) => peerHealthy ==> a.peer
    case HandlerResumes(_, _, _) => !a.phase.Idle?
    case WatchdogWakes(_, _) => a.watchdog
    case _ => true
  }

  function Next(a: Agent, s: Step): (e: Effect)
    requires a.Valid() && CanStep(a, s)
  {
    match s
    case SessionRequest(r) => RequestSession(a, r)
    case Offer => DetachPeer(a, ClosingForOffer)
    case Configure(width, height) => Quiet(ApplyVideoProfile(a, width, height).(phase := Replying))
    case SessionClose =>
      var revoked := RevokeControl(a);
      Effect(DetachPeer(revoked.agent, ClosingPeer).agent, revoked.calls)
    case ConnectionLost(peerHealthy) => if peerHealthy then Quiet(a.(phase := Idle)) else DetachPeer(a, ClosingPeer)
    case HandlerResumes(windows, sinkCreated, _) =>
      (match a.phase
       case ClosingForOffer => Quiet(a.(phase := FetchingIce))
       case FetchingIce => BuildPeer(a, windows, sinkCreated)
       case _ => Quiet(a.(phase := Idle)))
    case ControlArrives(m) => ReceiveControl(a, m)
    case WatchdogWakes(nowMs, now) => WatchdogTick(a, nowMs, now)
    case LocalSwitch(enabled) => SetControlEnabled(a, enabled)
    case LocalEmergencyStop => EmergencyStop(a)
  }

  // ---------------------------------------------------------------- authority

  ghost predicate Authority(a: Agent) {
    && a.Valid()
    && (a.controller.Some? <==> a.watchdog)
    && (a.controller.Some? ==> a.granted && a.peer)
    && (a.pendingSink ==> a.granted)
    && (a.granted ==> a.controlEnabled && !a.emergencyLocked && a.expiresAt.Some?)
    && (a.expiresAt.Some? ==> a.granted)
    && (a.emergencyLocked ==> !a.controlEnabled)
    && (a.phase.ClosingForOffer? || a.phase.FetchingIce? ==> !a.peer)
    && (a.peer <==> a.track.Some?)
    && (a.controller.Some? ==> a.track == Some(FrameOf(a.controller.value)))
  }

  /** The frame size a controller maps pointer positions with. */
  function FrameOf(c: Ctl): (int, int) { (c.frameWidth, c.frameHeight) }

  lemma AuthorityIsValid(a: Agent)
    requires Authority(a)
    ensures a.Valid()
  {
  }

  lemma DriveKeepsValid(a: Agent, c: Ctl, message: Message, m: Arrival)
    requires a.Valid() && c.Valid()
    ensures var after := DriveController(a, c, message, m).agent;
            after.Valid() && after.controller.Some? && FrameOf(after.controller.value) == FrameOf(c)
  {
    hide AfterHandle, UpCalls;
    var sized := if m.source.Some? then AfterSourceSize(c, m.source.value.0, m.source.value.1) else c;
    HandleKeepsValid(sized, message, m.now);
  }

  lemma HandleKeepsValid(c: Ctl, m: Message, now: real)
    requires c.Valid()
    ensures AfterHandle(c, m, now).ctl.Valid() && FrameOf(AfterHandle(c, m, now).ctl) == FrameOf(c)
  {
    hide G.FrameToDesktopAbsolute, KeyCodes.AgentKey, IsSafeText, W.DequeAdmit, UpCalls;
    assert R.StepOutcome(c, R.Deliver(now, m)).ctl.Valid();
  }

  lemma ReceiveKeepsAuthority(a: Agent, m: Arrival)
    requires Authority(a)
    ensures Authority(ReceiveControl(a, m).agent)
  {
    hide AfterHandle, UpCalls, Ctl.Valid;
    if m.message.Input? && a.controller.Some? {
      DriveKeepsValid(a, a.controller.value, m.message.message, m);
    }
  }

  lemma DecisionKeepsAuthority(a: Agent, r: Request)
    requires Authority(a)
    ensures Authority(DecideGrant(a, r).agent)
  {
    hide UpCalls;
  }

  lemma StartKeepsAuthority(a: Agent, windows: bool, sinkCreated: bool)
    requires Authority(a) && a.granted && a.track == Some(a.profile) && a.controller.None?
    ensures Authority(StartControl(a, windows, sinkCreated).agent)
  {
    hide UpCalls;
  }

  lemma NextKeepsAuthority(a: Agent, s: Step)
    requires Authority(a) && CanStep(a, s)
    ensures Authority(Next(a, s).agent)
  {
    hide UpCalls, DecideGrant, StartControl, ReceiveControl;
    match s {
      case ControlArrives(m) =>
        ReceiveKeepsAuthority(a, m);
      case SessionRequest(r) =>
        DecisionKeepsAuthority((if r.profile.Some? then a.(profile := r.profile.value) else a).(phase := Replying), r);
      case HandlerResumes(windows, sinkCreated, _) =>
        if a.phase.FetchingIce? && a.granted {
          StartKeepsAuthority(a.(peer := true, track := Some(a.profile), phase := Answering), windows, sinkCreated);
        }
      case _ =>
        OtherStepKeepsAuthority(a, s);
    }
  }

  lemma OtherStepKeepsAuthority(a: Agent, s: Step)
    requires Authority(a) && CanStep(a, s) && !s.ControlArrives? && !s.SessionRequest? && !s.HandlerResumes?
    ensures Authority(Next(a, s).agent)
  {
    hide UpCalls;
  }

  // ---------------------------------------------------------------- what the host holds

  datatype Held = Held(buttons: set<ButtonName>, keys: set<string>)

  const NOTHING := Held({}, {})

  function Tracked(a: Agent): Held {
    if a.controller.Some? then Held(a.controller.value.buttons, a.controller.value.keys) else NOTHING
  }

  lemma ProfileKeepsTracked(a: Agent, width: int, height: int, phase: Phase)
    ensures Tracked(ApplyVideoProfile(a, width, height).(phase := phase)) == Tracked(a)
  {
  }

  /** The effect of one step's calls on the host; no step presses and releases the same thing. */
  function Inject(h: Held, calls: multiset<SinkCall>): Held {
    Held(h.buttons - (set c | c in calls && c.MouseButton? && c.action == Up :: c.button)
           + (set c | c in calls && c.MouseButton? && c.action == Down :: c.button),
         h.keys - (set c | c in calls && c.Key? && c.action == Up :: c.code)
           + (set c | c in calls && c.Key? && c.action == Down :: c.code))
  }

  lemma InjectNothing(h: Held)
    ensures Inject(h, multiset{}) == h
  {
  }

  lemma UpCallsElements(buttons: set<ButtonName>, keys: set<string>)
    ensures forall c :: c in UpCalls(buttons, keys) <==>
              (c.MouseButton? && c.action == Up && c.button in buttons) || (c.Key? && c.action == Up && c.code in keys)
  {
  }

  lemma InjectReleases(buttons: set<ButtonName>, keys: set<string>)
    ensures Inject(Held(buttons, keys), UpCalls(buttons, keys)) == NOTHING
  {
    UpCallsElements(buttons, keys);
    hide UpCalls;
    var calls := UpCalls(buttons, keys);
    var released := Inject(Held(buttons, keys), calls);
    forall b ensures b !in released.buttons {
      if b in buttons { assert MouseButton(b, Up) in calls; }
    }
    forall k ensures k !in released.keys {
      if k in keys { assert Key(k, Up) in calls; }
    }
  }

  lemma InjectAction(c: Ctl, p: Payload)
    requires IsAction(p)
    ensures var o := AfterAction(c, p);
            Inject(Held(c.buttons, c.keys), o.calls) == Held(o.ctl.buttons, o.ctl.keys)
  {
    hide KeyCodes.AgentKey, IsSafeText;
    var o := AfterAction(c, p);
    if o.applied {
      var call := match p
        case PointerButton(button, action) => MouseButton(button, action)
        case PointerWheel(deltaX, deltaY) => Wheel(deltaX.value, deltaY.value)
        case KeyDown(code) => Key(code.value, Down)
        case KeyUp(code) => Key(code.value, Up)
        case TextInput(text) => TypeText(text.value);
      assert o.calls == multiset{call};
      InjectOne(Held(c.buttons, c.keys), call);
    } else {
      InjectNothing(Held(c.buttons, c.keys));
    }
  }

  lemma InjectOne(h: Held, call: SinkCall)
    ensures Inject(h, multiset{call}) ==
              match call
              case MouseButton(b, Down) => Held(h.buttons + {b}, h.keys)
              case MouseButton(b, Up) => Held(h.buttons - {b}, h.keys)
              case Key(k, Down) => Held(h.buttons, h.keys + {k})
              case Key(k, Up) => Held(h.buttons, h.keys - {k})
              case _ => h
  {
    var one := multiset{call};
    assert forall c :: c in one <==> c == call;
  }

  lemma InjectHandle(c: Ctl, m: Message, now: real)
    requires c.Valid()
    ensures var o := AfterHandle(c, m, now);
            Inject(Held(c.buttons, c.keys), o.calls) == Held(o.ctl.buttons, o.ctl.keys)
  {
    InjectNothing(Held(c.buttons, c.keys));
    if Fresh(c, m) && m.payload.Some? {
      InjectDispatch(c.(lastSequence := m.sequence.value), m.payload.value, now);
    }
  }

  lemma InjectDispatch(c: Ctl, p: Payload, now: real)
    requires c.Valid()
    ensures var o := AfterDispatch(c, p, now);
            Inject(Held(c.buttons, c.keys), o.calls) == Held(o.ctl.buttons, o.ctl.keys)
  {
    hide AfterAction, UpCalls, Inject, G.FrameToDesktopAbsolute;
    InjectNothing(Held(c.buttons, c.keys));
    InjectReleases(c.buttons, c.keys);
    if IsAction(p) {
      InjectAction(c, p);
      InjectAction(c.(actionTimes := W.DequeAdmit(c.actionTimes, now, c.actionLimit, 1.0, W.HalfOpen).timestamps), p);
    } else if p.PointerMove? {
      forall x, y { InjectOne(Held(c.buttons, c.keys), MoveAbsolute(x, y)); }
    }
  }

  lemma ReceiveTracksHost(a: Agent, m: Arrival)
    requires Authority(a)
    ensures Inject(Tracked(a), ReceiveControl(a, m).calls) == Tracked(ReceiveControl(a, m).agent)
  {
    hide AfterHandle, UpCalls, Inject;
    InjectNothing(Tracked(a));
    if a.controller.Some? {
      var c := a.controller.value;
      InjectReleases(c.buttons, c.keys);
      if m.message.Input? {
        InjectHandle(if m.source.Some? then AfterSourceSize(c, m.source.value.0, m.source.value.1) else c,
                     m.message.message, m.now);
      }
    }
  }

  lemma HandlerTracksHost(a: Agent, s: Step)
    requires Authority(a) && CanStep(a, s) && (s.SessionRequest? || s.HandlerResumes?)
    ensures Inject(Tracked(a), Next(a, s).calls) == Tracked(Next(a, s).agent)
  {
    hide UpCalls, Inject, Ctl.Valid;
    InjectNothing(Tracked(a));
    if a.controller.Some? {
      InjectReleases(a.controller.value.buttons, a.controller.value.keys);
    }
  }

  lemma NextTracksHost(a: Agent, s: Step)
    requires Authority(a) && CanStep(a, s)
    ensures Inject(Tracked(a), Next(a, s).calls) == Tracked(Next(a, s).agent)
  {
    hide ReceiveControl, RequestSession, BuildPeer, UpCalls, Inject, Ctl.Valid;
    InjectNothing(Tracked(a));
    if s.ControlArrives? {
      ReceiveTracksHost(a, s.arrival);
    } else if s.SessionRequest? || s.HandlerResumes? {
      HandlerTracksHost(a, s);
    } else if a.controller.Some? {
      InjectReleases(a.controller.value.buttons, a.controller.value.keys);
    }
  }

  // ---------------------------------------------------------------- runs

  function After(start: Agent, steps: seq<Step>): Agent
    requires IsRun(start, steps)
    decreases |steps|, 1
  {
    if steps == [] then start else Next(After(start, steps[..|steps| - 1]), steps[|steps| - 1]).agent
  }

  /** Every step is possible where it is taken. */
  predicate IsRun(start: Agent, steps: seq<Step>)
    decreases |steps|, 0
  {
    if steps == [] then start.Valid()
    else
      var front := steps[..|steps| - 1];
      IsRun(start, front) && After(start, front).Valid() && CanStep(After(start, front), steps[|steps| - 1])
  }

  /** What the host holds after a run, from the injected calls alone. */
  function HostHeld(start: Agent, steps: seq<Step>): Held
    requires IsRun(start, steps)
  {
    if steps == [] then NOTHING
    else Inject(HostHeld(start, steps[..|steps| - 1]),
                Next(After(start, steps[..|steps| - 1]), steps[|steps| - 1]).calls)
  }

  ghost predicate Starts(a: Agent) {
    && a.Valid() && a.phase.Idle? && !a.emergencyLocked
    && !a.granted && a.expiresAt.None? && !a.pendingSink && a.controller.None? && !a.watchdog
    && !a.peer && a.track.None?
  }

  /** In every run, over every interleaving at the awaits: a controller exists exactly with
      its watchdog, only under a grant and a peer, and maps pointers with the size of the video
      track that peer sends; a grant only while control is enabled and unlocked, with an
      expiry; and the host holds exactly what the controller tracks. */
  lemma {:induction false} AuthorityHolds(start: Agent, steps: seq<Step>)
    requires Starts(start) && IsRun(start, steps)
    ensures Authority(After(start, steps))
    ensures HostHeld(start, steps) == Tracked(After(start, steps))
  {
    if steps == [] {
    } else {
      hide Next, Inject;
      var front, last := steps[..|steps| - 1], steps[|steps| - 1];
      AuthorityHolds(start, front);
      NextKeepsAuthority(After(start, front), last);
      NextTracksHost(After(start, front), last);
    }
  }

  predicate IsPress(call: SinkCall) {
    !((call.Key? && call.action == Up) || (call.MouseButton? && call.action == Up))
  }

  ghost predicate Presses(calls: multiset<SinkCall>) { exists call :: call in calls && IsPress(call) }

  /** Anything but a release reaches the host only through an input message that arrives
      while control is enabled, unlocked, granted and within its lease. */
  lemma PressNeedsAuthority(a: Agent, s: Step)
    requires Authority(a) && CanStep(a, s)
    requires Presses(Next(a, s).calls)
    ensures s.ControlArrives? && s.arrival.message.Input?
    ensures a.controlEnabled && !a.emergencyLocked && a.peer && a.GrantActive(s.arrival.enteredAt)
  {
    hide AfterHandle, UpCalls;
    if a.controller.Some? {
      ReleasesOnly(a.controller.value.buttons, a.controller.value.keys);
    }
  }

  /** A key press reaches the host exactly when its message arrives under an active grant, at a
      controller that finds it fresh, whitelisted and within the rate. */
  lemma KeyPressInjectedIff(a: Agent, m: Arrival, sequence: int, code: string)
    requires Authority(a)
    requires m.message == Input(Message(Some(sequence), Some(KeyDown(Some(code)))))
    ensures Key(code, Down) in Next(a, ControlArrives(m)).calls <==>
              && a.GrantActive(m.enteredAt) && a.controller.Some?
              && var c := a.controller.value;
                 sequence > c.lastSequence && KeyCodes.AgentKey(code) && R.Limiter.Actions.Admits(c, m.now)
  {
    hide KeyCodes.AgentKey, W.DequeAdmit, UpCalls;
    if a.controller.Some? {
      var c := a.controller.value;
      ReleasesOnly(c.buttons, c.keys);
      assert Key(code, Down) in UpCalls(c.buttons, c.keys) ==> Presses(UpCalls(c.buttons, c.keys));
    }
  }

  lemma ReleasesOnly(buttons: set<ButtonName>, keys: set<string>)
    ensures !Presses(UpCalls(buttons, keys))
  {
  }

  // ---------------------------------------------------------------- the emergency stop

  lemma StopReleasesAndLocks(a: Agent)
    requires Authority(a)
    ensures var after := Next(a, LocalEmergencyStop).agent;
            Authority(after) && after.emergencyLocked && Tracked(after) == NOTHING
  {
    NextKeepsAuthority(a, LocalEmergencyStop);
  }

  lemma LockedStaysSilent(a: Agent, s: Step)
    requires Authority(a) && CanStep(a, s) && a.emergencyLocked
    ensures Next(a, s).calls == multiset{} && Next(a, s).agent.emergencyLocked
  {
    hide AfterHandle, UpCalls, AfterFrameSize, AfterTick;
  }

  lemma {:induction false} RunPrefix(start: Agent, steps: seq<Step>, k: nat)
    requires k <= |steps| && IsRun(start, steps)
    ensures IsRun(start, steps[..k])
  {
    if k < |steps| {
      RunPrefix(start, steps[..|steps| - 1], k);
      assert steps[..|steps| - 1][..k] == steps[..k];
    } else {
      assert steps[..k] == steps;
    }
  }

  /** The stop is final: from the step after it the host holds nothing, and no later step of
      any run injects anything at all. */
  lemma {:induction false} EmergencyStopIsFinal(start: Agent, steps: seq<Step>, k: nat)
    requires Starts(start) && IsRun(start, steps)
    requires k < |steps| && steps[k].LocalEmergencyStop?
    ensures After(start, steps).emergencyLocked
    ensures HostHeld(start, steps) == NOTHING
    ensures k + 1 < |steps| ==>
              IsRun(start, steps[..|steps| - 1])
              && Next(After(start, steps[..|steps| - 1]), steps[|steps| - 1]).calls == multiset{}
  {
    hide Next, Inject;
    var front, last := steps[..|steps| - 1], steps[|steps| - 1];
    AuthorityHolds(start, steps);
    AuthorityHolds(start, front);
    if k + 1 < |steps| {
      EmergencyStopIsFinal(start, front, k);
      LockedStaysSilent(After(start, front), last);
      InjectNothing(NOTHING);
    } else {
      StopReleasesAndLocks(After(start, front));
    }
  }

  // ---------------------------------------------------------------- the dead-man lease

  predicate IsGrantRequest(s: Step) { s.SessionRequest? && s.request.wantsControl }

  predicate IsPing(s: Step) { s.ControlArrives? && s.arrival.message.Ping? }

  /** When a step dated the lease. */
  function DatedAt(s: Step): int
    requires IsGrantRequest(s) || IsPing(s)
  {
    if s.SessionRequest? then s.request.grantedAt else s.arrival.stampedAt
  }

  /** After `n` steps the grant stands. */
  ghost predicate GrantedAfter(start: Agent, steps: seq<Step>, n: nat) {
    n <= |steps| && IsRun(start, steps[..n]) && After(start, steps[..n]).granted
  }

  /** Step `k` is a granted request or a ping that renewed: after it the grant stands until one
      lease from the step's own date. */
  ghost predicate SetsLease(start: Agent, steps: seq<Step>, k: nat) {
    && k < |steps| && (IsGrantRequest(steps[k]) || IsPing(steps[k])) && GrantedAfter(start, steps, k + 1)
    && After(start, steps[..k + 1]).expiresAt == Some(DatedAt(steps[k]) + CONTROL_GRANT_TTL_MS)
  }

  /** Positions of a run that read: grant, ping, ..., ping. Each sets the lease, each ping
      arrives less than one lease after the step before it set it, and the grant stands without
      a break from the first position to the end of the run. */
  ghost predicate IsLeaseChain(start: Agent, steps: seq<Step>, chain: seq<nat>) {
    && chain != []
    && (forall i :: 0 <= i < |chain| ==> SetsLease(start, steps, chain[i]))
    && (forall i, j :: 0 <= i < j < |chain| ==> chain[i] < chain[j])
    && IsGrantRequest(steps[chain[0]])
    && (forall i :: 0 < i < |chain| ==> IsPing(steps[chain[i]]))
    && (forall i :: 0 < i < |chain| ==>
          steps[chain[i]].arrival.checkedAt - DatedAt(steps[chain[i - 1]]) < CONTROL_GRANT_TTL_MS)
    && (forall n: nat :: chain[0] < n <= |steps| ==> GrantedAfter(start, steps, n))
  }

  ghost function LastDate(start: Agent, steps: seq<Step>, chain: seq<nat>): int
    requires IsLeaseChain(start, steps, chain)
  {
    DatedAt(steps[chain[|chain| - 1]])
  }

  /** The only ways the expiry can come to be set. */
  lemma ExpiryComesFrom(a: Agent, s: Step)
    requires Authority(a) && CanStep(a, s) && Next(a, s).agent.granted
    ensures var after := Next(a, s).agent;
            || (a.granted && after.expiresAt == a.expiresAt)
            || (IsGrantRequest(s) && after.expiresAt == Some(s.request.grantedAt + CONTROL_GRANT_TTL_MS))
            || (IsPing(s) && a.GrantActive(s.arrival.checkedAt)
                && after.expiresAt == Some(s.arrival.stampedAt + CONTROL_GRANT_TTL_MS))
  {
    hide AfterHandle, UpCalls, AfterFrameSize, AfterTick;
  }

  /** What held along a run's front still holds along the run. */
  lemma FrontKeeps(start: Agent, steps: seq<Step>, n: nat)
    requires n < |steps|
    ensures GrantedAfter(start, steps[..|steps| - 1], n) ==> GrantedAfter(start, steps, n)
    ensures SetsLease(start, steps[..|steps| - 1], n) ==> SetsLease(start, steps, n)
  {
    hide After, IsRun;
    var front := steps[..|steps| - 1];
    assert front[..n] == steps[..n];
    if n < |front| {
      assert front[..n + 1] == steps[..n + 1];
    }
  }

  lemma EndGranted(start: Agent, steps: seq<Step>)
    requires IsRun(start, steps) && After(start, steps).granted
    ensures GrantedAfter(start, steps, |steps|)
  {
    assert steps[..|steps|] == steps;
  }

  lemma ChainKeeps(start: Agent, steps: seq<Step>, chain: seq<nat>)
    requires steps != [] && IsLeaseChain(start, steps[..|steps| - 1], chain)
    requires IsRun(start, steps) && After(start, steps).granted
    ensures IsLeaseChain(start, steps, chain)
    ensures LastDate(start, steps, chain) == LastDate(start, steps[..|steps| - 1], chain)
  {
    hide After, IsRun, GrantedAfter;
    var front := steps[..|steps| - 1];
    EndGranted(start, steps);
    forall i | 0 <= i < |chain| ensures SetsLease(start, steps, chain[i]) && steps[chain[i]] == front[chain[i]] {
      assert SetsLease(start, front, chain[i]);
      FrontKeeps(start, steps, chain[i]);
    }
    forall n: nat | chain[0] < n <= |steps| ensures GrantedAfter(start, steps, n) {
      if n < |steps| {
        FrontKeeps(start, steps, n);
      }
    }
  }

  lemma ChainGrows(start: Agent, steps: seq<Step>, chain: seq<nat>)
    requires steps != [] && IsLeaseChain(start, steps, chain) && chain[|chain| - 1] < |steps| - 1
    requires SetsLease(start, steps, |steps| - 1) && IsPing(steps[|steps| - 1])
    requires steps[|steps| - 1].arrival.checkedAt - LastDate(start, steps, chain) < CONTROL_GRANT_TTL_MS
    ensures IsLeaseChain(start, steps, chain + [|steps| - 1])
  {
    hide After, IsRun, GrantedAfter, SetsLease;
  }

  lemma ChainStarts(start: Agent, steps: seq<Step>)
    requires steps != [] && SetsLease(start, steps, |steps| - 1) && IsGrantRequest(steps[|steps| - 1])
    ensures IsLeaseChain(start, steps, [|steps| - 1])
  {
    hide After, IsRun;
  }

  /** Every grant is backed by such a chain, and ends one lease after its last link. */
  lemma {:induction false} GrantIsBacked(start: Agent, steps: seq<Step>) returns (chain: seq<nat>)
    requires Starts(start) && IsRun(start, steps)
    requires After(start, steps).granted
    ensures IsLeaseChain(start, steps, chain)
    ensures After(start, steps).expiresAt == Some(LastDate(start, steps, chain) + CONTROL_GRANT_TTL_MS)
  {
    hide Next, IsLeaseChain, GrantedAfter;
    var n := |steps| - 1;
    var front, last := steps[..n], steps[n];
    AuthorityHolds(start, front);
    var a := After(start, front);
    ExpiryComesFrom(a, last);
    EndGranted(start, steps);
    assert steps[..n + 1] == steps;
    if a.granted && After(start, steps).expiresAt == a.expiresAt {
      chain := GrantIsBacked(start, front);
      ChainKeeps(start, steps, chain);
    } else if IsGrantRequest(last) {
      chain := [n];
      ChainStarts(start, steps);
    } else {
      var before := GrantIsBacked(start, front);
      LinksAreInside(start, front, before);
      ChainKeeps(start, steps, before);
      ChainGrows(start, steps, before);
      chain := before + [n];
    }
  }

  lemma LinksAreInside(start: Agent, steps: seq<Step>, chain: seq<nat>)
    requires IsLeaseChain(start, steps, chain)
    ensures chain != [] && chain[|chain| - 1] < |steps|
  {
    assert SetsLease(start, steps, chain[|chain| - 1]);
  }

  /** Every injected press at time t has a chain grant, ping, ..., ping whose gaps, and whose
      distance from t, are all below the lease. */
  lemma InjectionIsLeased(start: Agent, steps: seq<Step>, s: Step) returns (chain: seq<nat>)
    requires Starts(start) && IsRun(start, steps) && After(start, steps).Valid() && CanStep(After(start, steps), s)
    requires Presses(Next(After(start, steps), s).calls)
    ensures s.ControlArrives? && IsLeaseChain(start, steps, chain)
    ensures s.arrival.enteredAt - LastDate(start, steps, chain) < CONTROL_GRANT_TTL_MS
  {
    hide Next, Presses, IsLeaseChain;
    AuthorityHolds(start, steps);
    PressNeedsAuthority(After(start, steps), s);
    chain := GrantIsBacked(start, steps);
  }

  /** A repeated request during an active grant leaves the lease and the controller alone. */
  lemma RepeatedRequestKeepsLease(a: Agent, r: Request)
    requires r.wantsControl && a.GrantActive(r.checkedAt)
    ensures var e := RequestSession(a, r);
            e.agent.expiresAt == a.expiresAt && e.agent.controller == a.controller && e.calls == multiset{}
  {
  }

  /** Without a new request nothing, pings included, brings a lost grant back. */
  lemma {:induction false} LostGrantStaysLost(start: Agent, steps: seq<Step>)
    requires Authority(start) && IsRun(start, steps) && !start.granted
    requires forall i :: 0 <= i < |steps| ==> !IsGrantRequest(steps[i])
    ensures Authority(After(start, steps)) && !After(start, steps).granted
  {
    if steps == [] {
    } else {
      hide Next;
      LostGrantStaysLost(start, steps[..|steps| - 1]);
      NextKeepsAuthority(After(start, steps[..|steps| - 1]), steps[|steps| - 1]);
      if After(start, steps).granted {
        ExpiryComesFrom(After(start, steps[..|steps| - 1]), steps[|steps| - 1]);
      }
    }
  }

  /** A ping or any other message after the expiry revokes, and so does the watchdog: the
      controller is gone, everything it held is released. */
  lemma ExpiryRevokes(a: Agent, s: Step)
    requires Authority(a) && CanStep(a, s) && a.granted
    requires s.WatchdogWakes? || s.ControlArrives?
    requires !a.GrantActive(if s.WatchdogWakes? then s.nowMs else s.arrival.enteredAt)
    ensures var e := Next(a, s);
            && !e.agent.granted && e.agent.controller.None? && e.agent.expiresAt.None?
            && e.calls == (if a.controller.Some? then UpCalls(a.controller.value.buttons, a.controller.value.keys)
                           else multiset{})
  {
    hide AfterHandle, UpCalls;
  }
}
