/**
 The agent object itself: its methods update the fields in place, and each is proved
 against the step function of the grant machine and against the host's injection log.
 */
module HostAgent {
  import opened Basics
  import opened InputControl
  import A = AgentGrant

  lemma NothingInjected(log: seq<SinkCall>)
    ensures Extends(log, log, multiset{})
  {
    assert log[|log|..] == [];
  }

  lemma ExtendsThenNothing(before: seq<SinkCall>, middle: seq<SinkCall>, log: seq<SinkCall>, calls: multiset<SinkCall>)
    requires Extends(before, middle, calls) && Extends(middle, log, multiset{})
    ensures Extends(before, log, calls)
  {
    assert |log[|middle|..]| == |multiset(log[|middle|..])|;
    assert log == middle;
  }

  class M0Agent {
    const host: Sink
    var controlEnabled: bool
    var emergencyLocked: bool
    var grantedControl: bool
    var controlExpiresAtMs: Option<int>
    var pendingInputSink: bool
    var inputController: InputController?
    var watchdogTask: bool
    var peer: bool
    var videoTrack: Option<(int, int)>
    var phase: A.Phase
    var videoProfile: (int, int)

    function View(): A.Agent
      reads this, inputController
    {
      A.Agent(controlEnabled, emergencyLocked, grantedControl, controlExpiresAtMs, pendingInputSink,
              if inputController == null then None else Some(inputController.View()),
              watchdogTask, peer, videoTrack, phase, videoProfile)
    }

    ghost predicate Valid()
      reads this, inputController
    {
      && View().Valid()
      && (inputController != null ==> inputController.sink == host)
    }

    /** The host holds exactly what the current controller tracks, and nothing without one. */
    ghost predicate Faithful()
      reads this, inputController, host
    {
      Holds(host.calls, View())
    }

    static ghost predicate Holds(log: seq<SinkCall>, a: A.Agent) {
      A.Held(HeldButtons(log), HeldKeys(log)) == A.Tracked(a)
    }

    /** The step from `before` happened: state, injected calls and what the host still holds. */
    ghost predicate Stepped(before: A.Agent, log: seq<SinkCall>, e: A.Effect)
      reads this, inputController, host
    {
      && Valid() && View() == e.agent
      && Extends(log, host.calls, e.calls)
      && (Holds(log, before) ==> Faithful())
    }

    constructor (host: Sink, controlEnabled: bool, profile: (int, int))
      requires profile.0 > 0 && profile.1 > 0
      ensures Valid() && this.host == host && A.Starts(View()) && View().controlEnabled == controlEnabled
    {
      this.host := host;
      this.controlEnabled, emergencyLocked, grantedControl := controlEnabled, false, false;
      controlExpiresAtMs, pendingInputSink, inputController := None, false, null;
      watchdogTask, peer, videoTrack, phase, videoProfile := false, false, None, A.Idle, profile;
    }

    predicate ControlGrantIsActive(nowMs: int)
      reads this
    {
      grantedControl && controlExpiresAtMs.Some? && nowMs < controlExpiresAtMs.value
    }

    method StopControlRuntime()
      requires Valid()
      modifies this`watchdogTask, this`inputController, inputController, host
      ensures Stepped(old(View()), old(host.calls), A.StopControlRuntime(old(View())))
      ensures inputController == null
      ensures Holds(old(host.calls), old(View())) ==> A.Held(HeldButtons(host.calls), HeldKeys(host.calls)) == A.NOTHING
    {
      watchdogTask := false;
      if inputController != null {
        inputController.ReleaseAll();
        inputController := null;
      } else {
        NothingInjected(host.calls);
      }
    }

    method RevokeControl()
      requires Valid()
      modifies this, inputController, host
      ensures Stepped(old(View()), old(host.calls), A.RevokeControl(old(View())))
      ensures inputController == null || inputController == old(inputController) || fresh(inputController)
    {
      StopControlRuntime();
      pendingInputSink := false;
      grantedControl := false;
      controlExpiresAtMs := None;
    }

    method SetControlEnabled(enabled: bool)
      requires Valid()
      modifies this, inputController, host
      ensures Stepped(old(View()), old(host.calls), A.SetControlEnabled(old(View()), enabled))
      ensures inputController == null || inputController == old(inputController) || fresh(inputController)
    {
      hide UpCalls, HeldButtons, HeldKeys, Extends;
      NothingInjected(host.calls);
      if enabled && emergencyLocked {
        return;
      }
      controlEnabled := enabled;
      if !enabled {
        RevokeControl();
      }
    }

    method EmergencyStop()
      requires Valid()
      modifies this, inputController, host
      ensures Stepped(old(View()), old(host.calls), A.EmergencyStop(old(View())))
      ensures inputController == null || inputController == old(inputController) || fresh(inputController)
    {
      controlEnabled := false;
      emergencyLocked := true;
      RevokeControl();
    }

    /** The part of a session request that comes before the grant is looked at. */
    method AdoptProfile(profile: Option<(int, int)>)
      requires Valid() && (profile.Some? ==> profile.value.0 > 0 && profile.value.1 > 0)
      modifies this`phase, this`videoProfile
      ensures Valid()
      ensures View() == (if profile.Some? then old(View()).(profile := profile.value)
                         else old(View())).(phase := A.Replying)
      ensures A.Tracked(View()) == A.Tracked(old(View()))
    {
      phase := A.Replying;
      if profile.Some? {
        videoProfile := profile.value;
      }
    }

    method HandleSessionRequest(r: A.Request)
      requires Valid() && A.CanStep(View(), A.SessionRequest(r))
      modifies this, inputController, host
      ensures Stepped(old(View()), old(host.calls), A.RequestSession(old(View()), r))
      ensures inputController == null || inputController == old(inputController) || fresh(inputController)
    {
      hide UpCalls, HeldButtons, HeldKeys, Extends, A.DecideGrant, A.Tracked, Ctl.Valid;
      NothingInjected(host.calls);
      AdoptProfile(r.profile);
      ghost var adopted := View();
      var active := r.wantsControl && grantedControl && ControlGrantIsActive(r.checkedAt);
      assert active == (r.wantsControl && adopted.GrantActive(r.checkedAt));
      if !active {
        DecideGrant(r);
        assert A.RequestSession(old(View()), r) == A.DecideGrant(adopted, r);
      }
    }

    method DecideGrant(r: A.Request)
      requires Valid()
      modifies this, inputController, host
      ensures Stepped(old(View()), old(host.calls), A.DecideGrant(old(View()), r))
      ensures inputController == null || inputController == old(inputController) || fresh(inputController)
    {
      hide UpCalls, HeldButtons, HeldKeys, Extends;
      RevokeControl();
      var canControl := r.wantsControl && controlEnabled && r.windows;
      if canControl {
        if r.sinkCreated {
          pendingInputSink := true;
        } else {
          canControl := false;
        }
      }
      grantedControl := canControl;
      controlExpiresAtMs := if canControl then Some(r.grantedAt + A.CONTROL_GRANT_TTL_MS) else None;
    }

    /** Closing a peer, up to the await on the peer itself. */
    method DetachPeer(next: A.Phase)
      requires Valid()
      modifies this, inputController, host
      ensures Stepped(old(View()), old(host.calls), A.DetachPeer(old(View()), next))
      ensures inputController == null || inputController == old(inputController) || fresh(inputController)
    {
      StopControlRuntime();
      videoTrack := None;
      peer := false;
      phase := next;
    }

    method HandleSessionClose()
      requires Valid() && A.CanStep(View(), A.SessionClose)
      modifies this, inputController, host
      ensures Stepped(old(View()), old(host.calls), A.Next(old(View()), A.SessionClose))
      ensures inputController == null || inputController == old(inputController) || fresh(inputController)
    {
      hide UpCalls, HeldButtons, HeldKeys, Extends;
      RevokeControl();
      ghost var released := host.calls;
      DetachPeer(A.ClosingPeer);
      ExtendsThenNothing(old(host.calls), released, host.calls, A.RevokeControl(old(View())).calls);
    }

    /** Called only while a replacement peer is being built, when the previous controller is gone. */
    method StartControl(windows: bool, sinkCreated: bool)
      requires Valid() && inputController == null
      modifies this, inputController, host
      ensures Stepped(old(View()), old(host.calls), A.StartControl(old(View()), windows, sinkCreated))
      ensures inputController == null || inputController == old(inputController) || fresh(inputController)
    {
      hide UpCalls, HeldButtons, HeldKeys, Extends;
      NothingInjected(host.calls);
      var sink := pendingInputSink;
      pendingInputSink := false;
      if !sink && grantedControl && controlEnabled && !emergencyLocked && windows {
        sink := sinkCreated;
      }
      if !sink {
        RevokeControl();
        return;
      }
      inputController := new InputController(host, videoProfile.0, videoProfile.1);
      watchdogTask := true;
    }

    /** The offer handler from the moment ICE servers are known to its next await. */
    method BuildPeer(windows: bool, sinkCreated: bool)
      requires Valid() && phase.FetchingIce? && A.Authority(View())
      modifies this, inputController, host
      ensures Stepped(old(View()), old(host.calls), A.BuildPeer(old(View()), windows, sinkCreated))
      ensures inputController == null || inputController == old(inputController) || fresh(inputController)
    {
      hide UpCalls, HeldButtons, HeldKeys, Extends;
      NothingInjected(host.calls);
      peer := true;
      videoTrack := Some(videoProfile);
      phase := A.Answering;
      if grantedControl {
        StartControl(windows, sinkCreated);
      }
    }

    method OnControlMessage(m: A.Arrival)
      requires Valid()
      modifies this, inputController, host
      ensures Stepped(old(View()), old(host.calls), A.ReceiveControl(old(View()), m))
      ensures inputController == null || inputController == old(inputController) || fresh(inputController)
    {
      hide UpCalls, HeldButtons, HeldKeys, Extends;
      NothingInjected(host.calls);
      if grantedControl && !ControlGrantIsActive(m.enteredAt) {
        RevokeControl();
      }
      if m.message.Ping? {
        if ControlGrantIsActive(m.checkedAt) {
          controlExpiresAtMs := Some(m.stampedAt + A.CONTROL_GRANT_TTL_MS);
        }
        return;
      }
      if m.message.ReceiverReport? {
        return;
      }
      if !grantedControl || inputController == null || !m.message.Input? {
        return;
      }
      DriveController(inputController, m.message.message, m);
    }

    method DriveController(controller: InputController, message: Message, m: A.Arrival)
      requires Valid() && controller == inputController
      modifies controller, host
      ensures Stepped(old(View()), old(host.calls), A.DriveController(old(View()), old(controller.View()), message, m))
    {
      if m.source.Some? {
        controller.SetSourceSize(m.source.value.0, m.source.value.1);
      }
      var _ := controller.Handle(message, m.now);
    }

    /** One wake-up of the watchdog task. */
    method WakeWatchdog(nowMs: int, now: real)
      requires Valid()
      modifies this, inputController, host
      ensures Stepped(old(View()), old(host.calls), A.WatchdogTick(old(View()), nowMs, now))
      ensures inputController == null || inputController == old(inputController) || fresh(inputController)
    {
      hide UpCalls, HeldButtons, HeldKeys, Extends;
      NothingInjected(host.calls);
      if !ControlGrantIsActive(nowMs) {
        RevokeControl();
        return;
      }
      var controller := inputController;
      if controller != null {
        var _ := controller.OnWatchdogTick(now);
      }
    }

    method ApplyVideoProfile(width: int, height: int)
      requires Valid() && width > 0 && height > 0
      modifies this`videoProfile, this`videoTrack, inputController
      ensures Valid() && View() == A.ApplyVideoProfile(old(View()), width, height)
    {
      if videoTrack.None? || videoProfile == (width, height) {
        return;
      }
      videoProfile := (width, height);
      videoTrack := Some((width, height));
      if inputController != null {
        inputController.SetFrameSize(width, height);
      }
    }

    /** Whatever step of the grant machine comes next, taken by the method that handles it. */
    method TakeStep(s: A.Step)
      requires A.Authority(View()) && (inputController != null ==> inputController.sink == host)
      requires A.CanStep(View(), s)
      modifies this, inputController, host
      ensures Stepped(old(View()), old(host.calls), A.Next(old(View()), s))
      ensures inputController == null || inputController == old(inputController) || fresh(inputController)
    {
      hide UpCalls, HeldButtons, HeldKeys, Extends, A.ReceiveControl, A.RequestSession, A.BuildPeer, A.WatchdogTick,
           A.RevokeControl, A.StopControlRuntime, A.SetControlEnabled, A.EmergencyStop, A.Authority, Ctl.Valid;
      NothingInjected(host.calls);
      assert Valid() by { A.AuthorityIsValid(View()); }
      match s {
        case SessionRequest(r) => HandleSessionRequest(r);
        case Offer => DetachPeer(A.ClosingForOffer);
        case Configure(width, height) => Configure(width, height);
        case SessionClose => HandleSessionClose();
        case ConnectionLost(peerHealthy) =>
          if peerHealthy {
            phase := A.Idle;
          } else {
            DetachPeer(A.ClosingPeer);
          }
        case HandlerResumes(windows, sinkCreated, _) => Resume(windows, sinkCreated);
        case ControlArrives(m) => OnControlMessage(m);
        case WatchdogWakes(nowMs, now) => WakeWatchdog(nowMs, now);
        case LocalSwitch(enabled) => SetControlEnabled(enabled);
        case LocalEmergencyStop => EmergencyStop();
      }
    }

    method Configure(width: int, height: int)
      requires Valid() && A.CanStep(View(), A.Configure(width, height))
      modifies this`videoProfile, this`videoTrack, this`phase, inputController
      ensures Stepped(old(View()), host.calls, A.Next(old(View()), A.Configure(width, height)))
    {
      A.ProfileKeepsTracked(View(), width, height, A.Replying);
      hide HeldButtons, HeldKeys, Extends, A.ApplyVideoProfile, A.Tracked, Ctl.Valid;
      NothingInjected(host.calls);
      ApplyVideoProfile(width, height);
      phase := A.Replying;
    }

    /** The suspended handler runs on to its next await. */
    method Resume(windows: bool, sinkCreated: bool)
      requires A.Authority(View()) && Valid() && !phase.Idle?
      modifies this, inputController, host
      ensures forall now :: Stepped(old(View()), old(host.calls),
                                    A.Next(old(View()), A.HandlerResumes(windows, sinkCreated, now)))
      ensures inputController == null || inputController == old(inputController) || fresh(inputController)
    {
      hide UpCalls, HeldButtons, HeldKeys, Extends, A.BuildPeer, Ctl.Valid;
      NothingInjected(host.calls);
      if phase.ClosingForOffer? {
        phase := A.FetchingIce;
      } else if phase.FetchingIce? {
        BuildPeer(windows, sinkCreated);
      } else {
        phase := A.Idle;
      }
    }

    /** The object lives through any run of the grant machine and ends as the run says, with
        the host holding exactly what its controller tracks. */
    method Live(steps: seq<A.Step>)
      requires A.Starts(View()) && inputController == null && Faithful()
      requires A.IsRun(View(), steps)
      modifies this, host
      ensures View() == A.After(old(View()), steps) && A.Authority(View()) && Faithful()
      ensures A.Held(HeldButtons(host.calls), HeldKeys(host.calls)) == A.HostHeld(old(View()), steps)
    {
      ghost var start := View();
      for i := 0 to |steps|
        invariant A.IsRun(start, steps[..i]) && View() == A.After(start, steps[..i])
        invariant inputController == null || fresh(inputController)
        invariant inputController != null ==> inputController.sink == host
        invariant A.Authority(View()) && Faithful()
      {
        hide A.Authority, A.Next, A.CanStep, HeldButtons, HeldKeys, Extends, UpCalls, A.Tracked;
        A.RunPrefix(start, steps, i + 1);
        assert steps[..i + 1][..i] == steps[..i];
        A.AuthorityHolds(start, steps[..i + 1]);
        TakeStep(steps[i]);
      }
      assert steps[..|steps|] == steps;
      A.AuthorityHolds(start, steps);
    }
  }
}
