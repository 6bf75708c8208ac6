/**
 What each step of the grant machine does, field by field: who is granted control, what
 renews the lease, what an offer, a close and the local switch leave, and where a pointer lands.
 */
module GrantLaws {
  import opened Basics
  import opened InputControl
  import opened AgentGrant
  import R = InputRuns
  import G = Geometry
  import KeyCodes
  import W = SlidingWindow

  const ONE_HOUR_MS := 3_600_000

  /** The releases of everything the controller holds, or none without one. */
  function Releases(a: Agent): multiset<SinkCall> {
    if a.controller.Some? then UpCalls(a.controller.value.buttons, a.controller.value.keys) else multiset{}
  }

  // ---------------------------------------------------------------- granting and renewing

  /** A request that finds no active grant is granted control exactly when it asks for it, the
      local switch is on, the platform is Windows and injection works; the grant then lasts an
      hour. Whatever the answer, everything held is released first. */
  lemma RequestIsGrantedIff(a: Agent, r: Request)
    requires Authority(a) && CanStep(a, SessionRequest(r)) && !(r.wantsControl && a.GrantActive(r.checkedAt))
    ensures var e := Next(a, SessionRequest(r));
            && (e.agent.granted <==> r.wantsControl && a.controlEnabled && r.windows && r.sinkCreated)
            && e.agent.expiresAt == (if e.agent.granted then Some(r.grantedAt + ONE_HOUR_MS) else None)
            && e.agent.pendingSink == e.agent.granted && e.agent.controller.None? && !e.agent.watchdog
            && e.calls == Releases(a)
            && e.agent.profile == (if r.profile.Some? then r.profile.value else a.profile)
            && e.agent.controlEnabled == a.controlEnabled && e.agent.emergencyLocked == a.emergencyLocked
            && e.agent.peer == a.peer && e.agent.track == a.track
  {
    hide UpCalls;
  }

  /** A request during an active grant is echoed; only the profile for the next track may change. */
  lemma RequestIsEchoed(a: Agent, r: Request)
    requires Authority(a) && CanStep(a, SessionRequest(r)) && r.wantsControl && a.GrantActive(r.checkedAt)
    ensures var e := Next(a, SessionRequest(r));
            && e.calls == multiset{}
            && e.agent == a.(phase := Replying, profile := if r.profile.Some? then r.profile.value else a.profile)
  {
  }

  /** A ping under an active grant renews it to an hour after the ping, and does nothing else. */
  lemma PingRenews(a: Agent, m: Arrival)
    requires Authority(a) && m.message.Ping? && a.GrantActive(m.enteredAt) && a.GrantActive(m.checkedAt)
    ensures Next(a, ControlArrives(m)) == Effect(a.(expiresAt := Some(m.stampedAt + ONE_HOUR_MS)), multiset{})
  {
  }

  /** Of the messages that arrive under an active grant, none but a ping touches the lease, and
      what the controller does not handle changes nothing at all. */
  lemma OtherMessagesKeepLease(a: Agent, m: Arrival)
    requires Authority(a) && !m.message.Ping? && a.GrantActive(m.enteredAt)
    ensures var e := Next(a, ControlArrives(m));
            && e.agent.granted && e.agent.expiresAt == a.expiresAt
            && (e.agent.controller.Some? <==> a.controller.Some?)
            && (!m.message.Input? ==> e == Effect(a, multiset{}))
  {
    hide AfterHandle;
  }

  /** Without a grant a control message changes nothing and injects nothing. */
  lemma WithoutGrantNothing(a: Agent, m: Arrival)
    requires Authority(a) && !a.granted
    ensures Next(a, ControlArrives(m)) == Effect(a, multiset{})
  {
    hide AfterHandle;
  }

  // ---------------------------------------------------------------- peers

  /** An offer releases what is held and drops controller and peer, but not the grant. */
  lemma OfferKeepsGrant(a: Agent)
    requires Authority(a) && CanStep(a, Offer)
    ensures Next(a, Offer)
            == Effect(a.(controller := None, watchdog := false, peer := false, track := None, phase := ClosingForOffer),
                      Releases(a))
  {
    hide UpCalls;
  }

  /** The offer's handler goes on once the old peer is closed, and every handler ends. */
  lemma HandlerGoesOn(a: Agent, windows: bool, sinkCreated: bool, now: real)
    requires Authority(a) && !a.phase.Idle? && !a.phase.FetchingIce?
    ensures Next(a, HandlerResumes(windows, sinkCreated, now))
            == Effect(a.(phase := if a.phase.ClosingForOffer? then FetchingIce else Idle), multiset{})
  {
  }

  /** The replacement peer sends the current profile; it gets a controller exactly under a grant
      with a sink prepared or now prepared, and a grant without one is given up. */
  lemma PeerIsBuilt(a: Agent, windows: bool, sinkCreated: bool, now: real)
    requires Authority(a) && a.phase.FetchingIce?
    ensures var e := Next(a, HandlerResumes(windows, sinkCreated, now));
            && e.calls == multiset{} && e.agent.phase == Answering
            && e.agent.peer && e.agent.track == Some(a.profile) && e.agent.profile == a.profile
            && (e.agent.controller.Some? <==> a.granted && (a.pendingSink || (windows && sinkCreated)))
            && e.agent.granted == e.agent.controller.Some? && e.agent.watchdog == e.agent.controller.Some?
            && e.agent.expiresAt == (if e.agent.granted then a.expiresAt else None)
            && (e.agent.controller.Some? ==>
                  var c := e.agent.controller.value;
                  && (c.frameWidth, c.frameHeight) == a.profile && c.source.None?
                  && c.buttons == {} && c.keys == {} && c.lastSequence == -1 && c.lastActivity.None?
                  && c.moveTimes == [] && c.actionTimes == []
                  && c.rateLimit == 120 && c.actionLimit == 60 && c.watchdogSeconds == 3.0)
  {
    hide UpCalls;
  }

  /** Closing the session ends grant and peer; losing the connection leaves a healthy peer alone
      and drops any other, but not the grant. */
  lemma ClosingAndLosing(a: Agent, peerHealthy: bool)
    requires Authority(a)
    ensures CanStep(a, SessionClose) ==>
              var e := Next(a, SessionClose);
              && e.calls == Releases(a) && e.agent.controller.None? && !e.agent.peer && e.agent.track.None?
              && !e.agent.granted && e.agent.expiresAt.None? && !e.agent.pendingSink
    ensures CanStep(a, ConnectionLost(peerHealthy)) ==>
              Next(a, ConnectionLost(peerHealthy)) ==
                if peerHealthy then Effect(a.(phase := Idle), multiset{})
                else Effect(a.(controller := None, watchdog := false, peer := false, track := None,
                               phase := ClosingPeer),
                            Releases(a))
  {
    hide UpCalls;
  }

  /** A new profile replaces the track and the controller's frame size, when there is a track. */
  lemma ProfileIsApplied(a: Agent, width: int, height: int)
    requires Authority(a) && CanStep(a, Configure(width, height))
    ensures var e := Next(a, Configure(width, height));
            && e.calls == multiset{} && e.agent.granted == a.granted && e.agent.expiresAt == a.expiresAt
            && (e.agent.controller.Some? <==> a.controller.Some?)
            && (a.track.None? || a.profile == (width, height) ==> e.agent == a.(phase := Replying))
            && (a.track.Some? && a.profile != (width, height) ==>
                  && e.agent.profile == (width, height) && e.agent.track == Some((width, height))
                  && (a.controller.Some? ==>
                        e.agent.controller == Some(a.controller.value.(frameWidth := width, frameHeight := height))))
  {
  }

  // ---------------------------------------------------------------- the local user and the watchdog

  /** The switch is honoured unless locked; switching off, like the emergency stop, revokes. */
  lemma SwitchIsHonoured(a: Agent, enabled: bool)
    requires Authority(a)
    ensures var e := Next(a, LocalSwitch(enabled));
            && (enabled ==> e == Effect(if a.emergencyLocked then a else a.(controlEnabled := true), multiset{}))
            && (!enabled ==>
                  && !e.agent.controlEnabled && !e.agent.granted && e.agent.expiresAt.None? && e.agent.controller.None?
                  && e.agent.emergencyLocked == a.emergencyLocked && e.agent.peer == a.peer && e.calls == Releases(a))
    ensures var e := Next(a, LocalEmergencyStop);
            && e.agent.emergencyLocked && !e.agent.controlEnabled && !e.agent.granted && e.agent.controller.None?
            && e.agent.peer == a.peer && e.calls == Releases(a)
  {
    hide UpCalls;
  }

  /** The watchdog leaves an active grant alone and ticks its controller. */
  lemma WakeKeepsActiveGrant(a: Agent, nowMs: int, now: real)
    requires Authority(a) && a.watchdog && a.GrantActive(nowMs)
    ensures var e := Next(a, WatchdogWakes(nowMs, now));
            var silent := a.controller.value.lastActivity.Some? && now - a.controller.value.lastActivity.value >= 3.0;
            && e.agent.granted && e.agent.expiresAt == a.expiresAt && e.agent.controller.Some?
            && (a.controller.value.watchdogSeconds == 3.0 ==>
                  if silent then !e.agent.controller.value.Holding() && e.calls == Releases(a)
                  else e == Effect(a, multiset{}))
  {
    hide UpCalls;
  }

  // ---------------------------------------------------------------- a lease that is kept alive

  /** When the lease ends after a run that found it ending at `first`: each ping in time sets it to
      an hour after itself. */
  function LeaseEnd(first: int, steps: seq<Step>): int {
    if steps == [] then first
    else
      var end, last := LeaseEnd(first, steps[..|steps| - 1]), steps[|steps| - 1];
      if IsPing(last) && last.arrival.checkedAt < end then last.arrival.stampedAt + ONE_HOUR_MS else end
  }

  /** The step takes no grant away: nobody asks for less or switches off, a replacement peer gets
      its sink, and whatever reads the clock does so before the lease ends. */
  predicate Spares(a: Agent, s: Step, end: int) {
    match s
    case SessionRequest(r) => r.wantsControl && r.checkedAt < end
    case SessionClose => false
    case HandlerResumes(windows, sinkCreated, _) => a.phase.FetchingIce? ==> a.pendingSink || (windows && sinkCreated)
    case ControlArrives(m) => m.enteredAt < end
    case WatchdogWakes(nowMs, _) => nowMs < end
    case LocalSwitch(enabled) => enabled
    case LocalEmergencyStop => false
    case _ => true
  }

  lemma SparedStep(a: Agent, s: Step, end: int)
    requires Authority(a) && CanStep(a, s) && a.granted && a.expiresAt == Some(end) && Spares(a, s, end)
    ensures var after := Next(a, s).agent;
            && Authority(after) && after.granted
            && after.expiresAt ==
                 Some(if IsPing(s) && s.arrival.checkedAt < end then s.arrival.stampedAt + ONE_HOUR_MS else end)
  {
    NextKeepsAuthority(a, s);
    match s {
      case SessionRequest(r) => RequestIsEchoed(a, r);
      case HandlerResumes(windows, sinkCreated, now) =>
        if a.phase.FetchingIce? {
          PeerIsBuilt(a, windows, sinkCreated, now);
        }
      case ControlArrives(m) =>
        if m.message.Ping? && m.checkedAt < end {
          PingRenews(a, m);
        } else if !m.message.Ping? {
          OtherMessagesKeepLease(a, m);
        }
      case WatchdogWakes(nowMs, now) => WakeKeepsActiveGrant(a, nowMs, now);
      case Configure(width, height) => ProfileIsApplied(a, width, height);
      case _ => hide UpCalls;
    }
  }

  predicate SparedThroughout(start: Agent, steps: seq<Step>, first: int)
    requires Authority(start) && IsRun(start, steps)
  {
    steps != [] ==>
      var front, last := steps[..|steps| - 1], steps[|steps| - 1];
      SparedThroughout(start, front, first) && Spares(After(start, front), last, LeaseEnd(first, front))
  }

  /** While pings come in time and nothing takes it away, a grant stands for ever, its lease always
      an hour from the last ping: through repeated requests, offers and replaced peers. */
  lemma {:induction false} GrantStandsWhilePinged(start: Agent, steps: seq<Step>, first: int)
    requires Authority(start) && start.granted && start.expiresAt == Some(first) && IsRun(start, steps)
    requires SparedThroughout(start, steps, first)
    ensures var a := After(start, steps);
            Authority(a) && a.granted && a.expiresAt == Some(LeaseEnd(first, steps))
  {
    if steps == [] {
    } else {
      hide Next, Spares;
      var front := steps[..|steps| - 1];
      GrantStandsWhilePinged(start, front, first);
      SparedStep(After(start, front), steps[|steps| - 1], LeaseEnd(first, front));
    }
  }

  // ---------------------------------------------------------------- limits of every controller

  ghost predicate HasLimits(a: Agent) {
    a.controller.Some? ==>
      a.controller.value.rateLimit == 120 && a.controller.value.actionLimit == 60
      && a.controller.value.watchdogSeconds == 3.0
  }

  lemma NextKeepsLimits(a: Agent, s: Step)
    requires Authority(a) && CanStep(a, s) && HasLimits(a)
    ensures HasLimits(Next(a, s).agent)
  {
    hide AfterHandle, UpCalls;
    if s.ControlArrives? && s.arrival.message.Input? && a.controller.Some? {
      var c, m := a.controller.value, s.arrival;
      var sized := if m.source.Some? then AfterSourceSize(c, m.source.value.0, m.source.value.1) else c;
      R.StepAsks(R.Limiter.Actions, sized, R.Deliver(m.now, m.message.message));
      R.StepAsks(R.Limiter.Moves, sized, R.Deliver(m.now, m.message.message));
      R.StepEffect(sized, R.Deliver(m.now, m.message.message));
    }
  }

  /** Every controller of every run admits 60 actions and 120 moves a second, and its watchdog
      waits three seconds. */
  lemma {:induction false} EveryControllerHasLimits(start: Agent, steps: seq<Step>)
    requires Starts(start) && IsRun(start, steps)
    ensures HasLimits(After(start, steps))
  {
    if steps == [] {
    } else {
      hide Next;
      AuthorityHolds(start, steps[..|steps| - 1]);
      EveryControllerHasLimits(start, steps[..|steps| - 1]);
      NextKeepsLimits(After(start, steps[..|steps| - 1]), steps[|steps| - 1]);
    }
  }

  // ---------------------------------------------------------------- where a pointer lands

  /** The frame point of desktop point `u` along one axis of the captured letterbox. */
  function Placed(u: real, offset: int, extent: int, frame: int): real
    requires frame > 0
  {
    G.PartOf(G.Along(offset as real, u, extent as real), 0.0, frame as real)
  }

  /** A move the viewer reports for a point of the desktop it sees is injected at that point: under
      an active grant, with the source size the track reports, for the track's own frame size. */
  lemma PointerLandsWhereSeen(a: Agent, m: Arrival, sequence: int, u: real, v: real, width: int, height: int,
                              containerWidth: real, containerHeight: real)
    requires Authority(a) && a.GrantActive(m.enteredAt) && a.controller.Some?
    requires 0.0 <= u <= 1.0 && 0.0 <= v <= 1.0 && width > 0 && height > 0
    requires containerWidth > 0.0 && containerHeight > 0.0
    requires m.source == Some((width, height)) && sequence > a.controller.value.lastSequence
    requires R.Limiter.Moves.Admits(a.controller.value, m.now)
    requires a.track.Some?
    requires var (fw, fh) := a.track.value;
             && fw > 0 && fh > 0
             && var fit := G.ComputeLetterboxFit(width, height, fw, fh).value;
             var rect := G.ComputeContainRect(containerWidth, containerHeight, fw as real, fh as real).value;
             var x := G.Along(rect.offsetX, Placed(u, fit.offsetX, fit.width, fw), rect.width);
             var y := G.Along(rect.offsetY, Placed(v, fit.offsetY, fit.height, fh), rect.height);
             var seen := G.NormalizePointerToContent(x, y, containerWidth, containerHeight, fw as real, fh as real);
             && seen.Ok? && seen.value.Some?
             && m.message == Input(Message(Some(sequence),
                                           Some(PointerMove(Some(seen.value.value.x), Some(seen.value.value.y)))))
    ensures Next(a, ControlArrives(m)).calls ==
              multiset{MoveAbsolute(G.RoundHalfEven(u * 65535.0), G.RoundHalfEven(v * 65535.0))}
  {
    var (fw, fh) := a.track.value;
    var fit := G.ComputeLetterboxFit(width, height, fw, fh).value;
    var rect := G.ComputeContainRect(containerWidth, containerHeight, fw as real, fh as real).value;
    var x := G.Along(rect.offsetX, Placed(u, fit.offsetX, fit.width, fw), rect.width);
    var y := G.Along(rect.offsetY, Placed(v, fit.offsetY, fit.height, fh), rect.height);
    SeenPointMaps(u, v, x, y, containerWidth, containerHeight, fw, fh, width, height);
    hide AfterHandle, W.DequeAdmit, UpCalls, G.FrameToDesktopAbsolute, G.ComputeLetterboxFit, G.ComputeContainRect,
         G.NormalizePointerToContent, G.RoundHalfEven, G.Along, Placed;
    var sized := AfterSourceSize(a.controller.value, width, height);
    var move := m.message.message;
    R.MoveIsInjectedIff(sized, move, m.now, move.payload.value.x, move.payload.value.y);
  }

  lemma SeenPointMaps(u: real, v: real, x: real, y: real, containerWidth: real, containerHeight: real,
                      fw: int, fh: int, width: int, height: int)
    requires 0.0 <= u <= 1.0 && 0.0 <= v <= 1.0 && width > 0 && height > 0 && fw > 0 && fh > 0
    requires containerWidth > 0.0 && containerHeight > 0.0
    requires var fit := G.ComputeLetterboxFit(width, height, fw, fh).value;
             var rect := G.ComputeContainRect(containerWidth, containerHeight, fw as real, fh as real).value;
             && x == G.Along(rect.offsetX, Placed(u, fit.offsetX, fit.width, fw), rect.width)
             && y == G.Along(rect.offsetY, Placed(v, fit.offsetY, fit.height, fh), rect.height)
    ensures var seen := G.NormalizePointerToContent(x, y, containerWidth, containerHeight, fw as real, fh as real);
            && seen.Ok? && seen.value.Some?
            && var p := seen.value.value;
            && 0.0 <= p.x <= 1.0 && 0.0 <= p.y <= 1.0
            && G.FrameToDesktopAbsolute(p.x, p.y, width, height, fw, fh)
               == Ok(Some(G.AbsolutePoint(G.RoundHalfEven(u * 65535.0), G.RoundHalfEven(v * 65535.0))))
  {
    G.PointerRoundTrip(u, v, containerWidth, containerHeight, fw, fh, width, height);
    G.PointerDroppedIffOnBars(x, y, containerWidth, containerHeight, fw as real, fh as real);
    hide G.ComputeLetterboxFit, G.ComputeContainRect, G.RoundHalfEven, G.Along;
    hide G.NormalizePointerToContent;
  }
}
