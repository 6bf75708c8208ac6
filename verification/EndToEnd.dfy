/**
 Viewer, channel and grant machine as one world: every step of the grant machine is a few
 steps of the keyboard system, so what is proved of the keyboard holds of the host itself.
 */
module EndToEnd {
  import opened Basics
  import opened InputControl
  import A = AgentGrant
  import S = StuckKey

  datatype World = World(system: S.System, agent: A.Agent)

  datatype Move = AtViewer(step: S.Step) | AtAgent(grantStep: A.Step)

  predicate IsViewers(step: S.Step) {
    step.ViewerReacts? || step.ViewerSends? || step.SequenceUsedElsewhere? || step.PeerReplaced?
  }

  /** How the agent's entry point may take a message of the queue; it may refuse any. */
  predicate Carries(w: S.Wire, m: A.ControlMessage) {
    && w.sent
    && match m
       case Unparsable => true
       case Input(message) =>
         !w.content.NotForController? && message == Message(Some(w.sequence), Some(S.AsPayload(w.content)))
       case _ => w.content.NotForController?
  }

  predicate CanMove(w: World, move: Move) {
    var queue := w.system.sender.inFlight;
    match move
    case AtViewer(step) =>
      && S.IsStep(step)
      && (IsViewers(step) || (step.AgentRefuses? && queue != [] && !queue[0].sent))
      && (step.PeerReplaced? ==> w.agent.controller.None?)
    case AtAgent(step) =>
      A.CanStep(w.agent, step) && (step.ControlArrives? ==> queue != [] && Carries(queue[0], step.arrival.message))
  }

  // ---------------------------------------------------------------- one step

  function ArrivalSteps(a: A.Agent, m: A.Arrival): seq<S.Step> {
    var entered := if a.granted && !a.GrantActive(m.enteredAt) then [S.AgentReleases] else [];
    match m.message
    case Unparsable => entered + [S.AgentRefuses]
    case Input(_) =>
      entered + (if m.source.Some? then [S.AgentResizes(m.source.value.0, m.source.value.1, 0, 0)] else [])
      + [S.AgentReceives(m.now)]
    case _ => entered + [S.AgentReceives(m.now)]
  }

  /** The steps of the keyboard system that a step of the grant machine amounts to. */
  function KeyboardSteps(a: A.Agent, s: A.Step): seq<S.Step> {
    match s
    case SessionRequest(r) => if r.wantsControl && a.GrantActive(r.checkedAt) then [] else [S.AgentReleases]
    case Offer => [S.AgentReleases]
    case Configure(width, height) =>
      if a.track.None? || a.profile == (width, height) then [] else [S.AgentResizes(0, 0, width, height)]
    case SessionClose => [S.AgentReleases]
    case ConnectionLost(peerHealthy) => if peerHealthy then [] else [S.AgentReleases]
    case HandlerResumes(windows, sinkCreated, _) =>
      if !a.phase.FetchingIce? || !a.granted then []
      else if A.BuildPeer(a, windows, sinkCreated).agent.controller.Some?
      then [S.AgentStartsControl(a.profile.0, a.profile.1)]
      else [S.AgentReleases]
    case ControlArrives(m) => ArrivalSteps(a, m)
    case WatchdogWakes(nowMs, now) => if a.GrantActive(nowMs) then [S.AgentTicks(now)] else [S.AgentReleases]
    case LocalSwitch(enabled) => if enabled then [] else [S.AgentReleases]
    case LocalEmergencyStop => [S.AgentReleases]
  }

  lemma AfterNothing(s: S.System)
    requires s.Valid()
    ensures S.After(s, []) == s
  {
  }

  lemma AfterOne(s: S.System, step: S.Step)
    requires s.Valid() && S.IsStep(step)
    ensures S.AllSteps([step]) && S.After(s, [step]) == S.Next(s, step)
  {
    hide S.Next;
    assert [step][..0] == [];
  }

  lemma {:induction false} AfterBoth(s: S.System, first: seq<S.Step>, second: seq<S.Step>)
    requires s.Valid() && S.AllSteps(first) && S.AllSteps(second)
    ensures S.AllSteps(first + second) && S.After(s, first + second) == S.After(S.After(s, first), second)
  {
    hide S.Next;
    if second == [] {
      assert first + second == first;
    } else {
      AfterBoth(s, first, second[..|second| - 1]);
      var all := first + second;
      assert all[..|all| - 1] == first + second[..|second| - 1];
    }
  }

  /** What the agent's steps do to the controller, one by one. */
  lemma ControllerAfter(s: S.System, step: S.Step)
    requires s.Valid() && S.IsStep(step) && !IsViewers(step) && (S.TakesHead(s, step) || !step.AgentReceives?)
    ensures S.Next(s, step).controller ==
              match step
              case AgentReceives(now) =>
                if s.sender.inFlight[0].sent then S.ReceivedBy(s.controller, s.sender.inFlight[0], now)
                    else s.controller
              case AgentTicks(now) => if s.controller.None? then None else Some(AfterTick(s.controller.value, now).ctl)
              case AgentResizes(sw, sh, fw, fh) =>
                if s.controller.None? then None
                else Some(AfterFrameSize(AfterSourceSize(s.controller.value, sw, sh), fw, fh))
              case AgentReleases => None
              case AgentStartsControl(fw, fh) => Some(NewCtl(fw, fh, 120, 60, 3.0))
              case _ => s.controller
  {
    hide S.Receive, AfterTick, AfterFrameSize, AfterSourceSize;
  }

  lemma QueueAfter(s: S.System, step: S.Step)
    requires s.Valid() && S.IsStep(step) && !IsViewers(step) && !S.TakesHead(s, step)
    ensures S.Next(s, step).sender == s.sender
  {
    hide S.Receive, AfterTick, AfterFrameSize, AfterSourceSize;
  }

  lemma ArrivalFollows(w: World, m: A.Arrival)
    requires w.system.Valid() && A.Authority(w.agent) && w.system.controller == w.agent.controller
    requires CanMove(w, AtAgent(A.ControlArrives(m)))
    ensures S.AllSteps(ArrivalSteps(w.agent, m))
    ensures S.After(w.system, ArrivalSteps(w.agent, m)).controller == A.ReceiveControl(w.agent, m).agent.controller
  {
    hide S.Next, S.After, AfterHandle, UpCalls, Ctl.Valid;
    var expired := w.agent.granted && !w.agent.GrantActive(m.enteredAt);
    var s0 := w.system;
    var first := if expired then [S.AgentReleases] else [];
    AfterNothing(s0);
    AfterOne(s0, S.AgentReleases);
    ControllerAfter(s0, S.AgentReleases);
    QueueAfter(s0, S.AgentReleases);
    var s1 := S.After(s0, first);
    var second := if m.message.Input? && m.source.Some?
                  then [S.AgentResizes(m.source.value.0, m.source.value.1, 0, 0)] else [];
    AfterNothing(s1);
    if second != [] {
      AfterOne(s1, second[0]);
      ControllerAfter(s1, second[0]);
      QueueAfter(s1, second[0]);
    }
    AfterBoth(s0, first, second);
    var s2 := S.After(s1, second);
    var last := if m.message.Unparsable? then S.AgentRefuses else S.AgentReceives(m.now);
    AfterOne(s2, last);
    ControllerAfter(s2, last);
    AfterBoth(s0, first + second, [last]);
    assert first + second + [last] == ArrivalSteps(w.agent, m) by {
      if second == [] { assert first + second == first; }
    }
  }

  /** Every step of the grant machine moves the controller as its keyboard steps do. */
  lemma StepFollows(w: World, s: A.Step)
    requires w.system.Valid() && A.Authority(w.agent) && w.system.controller == w.agent.controller
    requires CanMove(w, AtAgent(s))
    ensures S.AllSteps(KeyboardSteps(w.agent, s))
    ensures S.After(w.system, KeyboardSteps(w.agent, s)).controller == A.Next(w.agent, s).agent.controller
  {
    hide S.Next, S.After, AfterHandle, UpCalls, A.ReceiveControl, ArrivalSteps, Ctl.Valid;
    AfterNothing(w.system);
    if s.ControlArrives? {
      ArrivalFollows(w, s.arrival);
    } else {
      var steps := KeyboardSteps(w.agent, s);
      if steps != [] {
        ProfileIsPositive(w.agent);
        AfterOne(w.system, steps[0]);
        ControllerAfter(w.system, steps[0]);
      }
    }
  }

  lemma ProfileIsPositive(a: A.Agent)
    requires A.Authority(a)
    ensures a.profile.0 > 0 && a.profile.1 > 0
  {
  }

  // ---------------------------------------------------------------- runs

  ghost function Next(w: World, move: Move): World
    requires w.system.Valid() && A.Authority(w.agent) && w.system.controller == w.agent.controller && CanMove(w, move)
  {
    match move
    case AtViewer(step) => w.(system := S.Next(w.system, step))
    case AtAgent(step) =>
      StepFollows(w, step);
      World(S.After(w.system, KeyboardSteps(w.agent, step)), A.Next(w.agent, step).agent)
  }

  /** Both descriptions of the agent agree. */
  ghost predicate Linked(w: World) {
    w.system.Valid() && A.Authority(w.agent) && w.system.controller == w.agent.controller
  }

  lemma NextKeepsLinked(w: World, move: Move)
    requires Linked(w) && CanMove(w, move)
    ensures Linked(Next(w, move))
  {
    hide S.After, KeyboardSteps, A.Authority;
    match move {
      case AtViewer(step) =>
        ViewerKeepsController(w.system, step);
      case AtAgent(step) =>
        hide S.Next, A.Next;
        StepFollows(w, step);
        A.NextKeepsAuthority(w.agent, step);
    }
  }

  lemma ViewerKeepsController(s: S.System, step: S.Step)
    requires s.Valid() && S.IsStep(step)
    requires IsViewers(step) || (step.AgentRefuses? && s.sender.inFlight != [] && !s.sender.inFlight[0].sent)
    requires step.PeerReplaced? ==> s.controller.None?
    ensures S.Next(s, step).controller == s.controller
  {
  }

  ghost function After(start: World, moves: seq<Move>): World
    requires IsRun(start, moves)
    decreases |moves|, 1
  {
    if moves == [] then start else Next(After(start, moves[..|moves| - 1]), moves[|moves| - 1])
  }

  ghost predicate IsRun(start: World, moves: seq<Move>)
    decreases |moves|, 0
  {
    if moves == [] then Linked(start)
    else
      var front := moves[..|moves| - 1];
      IsRun(start, front) && Linked(After(start, front)) && CanMove(After(start, front), moves[|moves| - 1])
  }

  /** The grant machine's part in a run. */
  function AgentPart(moves: seq<Move>): seq<A.Step> {
    if moves == [] then []
    else
      var last := moves[|moves| - 1];
      AgentPart(moves[..|moves| - 1]) + if last.AtAgent? then [last.grantStep] else []
  }

  /** The keyboard system's view of a run. */
  ghost function KeyboardPart(start: World, moves: seq<Move>): seq<S.Step>
    requires IsRun(start, moves)
  {
    if moves == [] then []
    else
      var front := moves[..|moves| - 1];
      KeyboardPart(start, front)
      + match moves[|moves| - 1]
        case AtViewer(step) => [step]
        case AtAgent(step) => KeyboardSteps(After(start, front).agent, step)
  }

  lemma {:induction false} RunStaysLinked(start: World, moves: seq<Move>)
    requires IsRun(start, moves)
    ensures Linked(start) && Linked(After(start, moves))
  {
    if moves == [] {
    } else {
      hide Next, Linked, CanMove;
      var front, last := moves[..|moves| - 1], moves[|moves| - 1];
      RunStaysLinked(start, front);
      NextKeepsLinked(After(start, front), last);
    }
  }

  lemma LastMove(start: World, moves: seq<Move>)
    requires IsRun(start, moves) && moves != []
    ensures IsRun(start, moves[..|moves| - 1]) && moves[..|moves| - 1] + [moves[|moves| - 1]] == moves
  {
    hide Next, Linked, CanMove;
  }

  /** A run of the world is a run of the grant machine. */
  lemma {:induction false} AgentRunAgrees(start: World, moves: seq<Move>)
    requires IsRun(start, moves)
    ensures A.IsRun(start.agent, AgentPart(moves))
              && A.After(start.agent, AgentPart(moves)) == After(start, moves).agent
  {
    if moves == [] {
      RunStaysLinked(start, moves);
      LinkedIsValid(start);
    } else {
      hide A.IsRun, A.After, IsRun, After, AgentPart;
      LastMove(start, moves);
      AgentRunAgrees(start, moves[..|moves| - 1]);
      AgentPartGrows(start, moves[..|moves| - 1], moves[|moves| - 1]);
    }
  }

  /** Seen from the keyboard it is a run of the keyboard system. */
  lemma {:induction false} KeyboardRunAgrees(start: World, moves: seq<Move>)
    requires IsRun(start, moves)
    ensures start.system.Valid() && S.AllSteps(KeyboardPart(start, moves))
    ensures S.After(start.system, KeyboardPart(start, moves)) == After(start, moves).system
  {
    RunStaysLinked(start, moves);
    if moves == [] {
      AfterNothing(start.system);
    } else {
      hide S.After, IsRun, After, KeyboardPart;
      LastMove(start, moves);
      KeyboardRunAgrees(start, moves[..|moves| - 1]);
      KeyboardPartGrows(start, moves[..|moves| - 1], moves[|moves| - 1]);
    }
  }

  lemma AgentPartGrows(start: World, front: seq<Move>, last: Move)
    requires IsRun(start, front) && IsRun(start, front + [last])
    requires A.IsRun(start.agent, AgentPart(front))
              && A.After(start.agent, AgentPart(front)) == After(start, front).agent
    ensures var steps := AgentPart(front + [last]);
            A.IsRun(start.agent, steps) && A.After(start.agent, steps) == After(start, front + [last]).agent
  {
    hide A.Next, S.Next, S.After, A.Authority, KeyboardSteps;
    var all := front + [last];
    assert all[..|all| - 1] == front;
    if last.AtAgent? {
      assert AgentPart(all)[..|AgentPart(front)|] == AgentPart(front);
      LinkedIsValid(After(start, front));
    } else {
      assert AgentPart(all) == AgentPart(front);
    }
  }

  lemma LinkedIsValid(w: World)
    requires Linked(w)
    ensures w.agent.Valid()
  {
  }

  lemma KeyboardPartGrows(start: World, front: seq<Move>, last: Move)
    requires IsRun(start, front) && IsRun(start, front + [last]) && start.system.Valid()
    requires S.AllSteps(KeyboardPart(start, front))
    requires S.After(start.system, KeyboardPart(start, front)) == After(start, front).system
    ensures var steps := KeyboardPart(start, front + [last]);
            S.AllSteps(steps) && S.After(start.system, steps) == After(start, front + [last]).system
  {
    hide A.Next, S.Next, S.After, A.Authority, KeyboardSteps;
    var all, w := front + [last], After(start, front);
    assert all[..|all| - 1] == front;
    match last {
      case AtViewer(step) =>
        AfterOne(w.system, step);
        AfterBoth(start.system, KeyboardPart(start, front), [step]);
      case AtAgent(step) =>
        StepFollows(w, step);
        AfterBoth(start.system, KeyboardPart(start, front), KeyboardSteps(w.agent, step));
    }
  }

  ghost predicate Starts(w: World) {
    A.Starts(w.agent) && S.Starts(w.system) && w.system.controller.None?
  }

  /** The host itself, over every run of viewer, channel and grant machine: once the channel is
      quiet, what the injected calls have left down is what the viewer considers pressed, and
      keys whose release was lost; and nothing else is held exactly when none of those is. */
  lemma HostHoldsWhatViewerHolds(start: World, moves: seq<Move>)
    requires Starts(start) && IsRun(start, moves) && After(start, moves).system.sender.inFlight == []
    ensures A.IsRun(start.agent, AgentPart(moves))
    ensures var s := After(start, moves).system;
            var held := A.HostHeld(start.agent, AgentPart(moves)).keys;
            && held <= s.keyboard.forwarded + s.stray
            && (held <= s.keyboard.forwarded <==> s.stray <= s.keyboard.forwarded)
  {
    hide After, IsRun, A.After, A.IsRun, A.HostHeld, S.After, KeyboardPart, AgentPart, S.Safe;
    RunStaysLinked(start, moves);
    AgentRunAgrees(start, moves);
    KeyboardRunAgrees(start, moves);
    A.AuthorityHolds(start.agent, AgentPart(moves));
    S.EveryRunIsSafe(start.system, KeyboardPart(start, moves));
    S.QuietHolds(After(start, moves).system);
  }
}
