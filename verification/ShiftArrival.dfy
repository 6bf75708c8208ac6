/**
 Shift at the agent: whether a key's message finds a Shift held there, when presses may be
 dropped for rate, messages lost on the way and everything released at any time.
 */
module ShiftArrival {
  import opened Basics
  import opened InputControl
  import opened StuckKey
  import V = ViewerKeys
  import KeyCodes
  import R = InputRuns
  import G = Geometry
  import W = SlidingWindow

  // ---------------------------------------------------------------- messages keep their place

  ghost predicate Grows(before: Sender, after: Sender) {
    && before.controlSequence <= after.controlSequence && before.inFlight <= after.inFlight
    && forall p :: |before.inFlight| <= p < |after.inFlight| && after.inFlight[p].sent ==>
         after.inFlight[p].sequence > before.controlSequence
  }

  lemma {:induction false} EmitsGrow(s: Sender, keys: seq<V.Sent>, fates: seq<Fate>)
    ensures Grows(s, AfterEmits(s, keys, fates))
  {
    if keys == [] {
    } else {
      EmitsGrow(s, keys[..|keys| - 1], fates);
    }
  }

  /** What a step that is not a takeover can do to the queue. */
  lemma QueueMoves(s: System, step: Step)
    requires s.Valid() && IsStep(step) && !TakesOver(step)
    ensures var after := Next(s, step);
            if TakesHead(s, step) then after.sender == s.sender.(inFlight := s.sender.inFlight[1..])
            else if step.PeerReplaced? then after.sender == s.sender.(inFlight := [])
            else Grows(s.sender, after.sender)
  {
    hide V.React, AfterEmits, Receive, AfterTick, AfterFrameSize, AfterSourceSize;
    if step.ViewerReacts? {
      EmitsGrow(s.sender, V.React(s.keyboard, step.event).sent, step.fates);
    }
  }

  function Newest(s: Sender): Option<Wire> {
    if s.inFlight == [] then None else Some(s.inFlight[|s.inFlight| - 1])
  }

  function KeyDownWire(sequence: int, code: string): Wire { Wire(sequence, Keyboard(V.KeyMessage(code, true)), true) }

  ghost predicate IsPress(e: V.KeyEvent, shifted: bool) {
    V.Forwards(e) && !KeyCodes.StartsWithShift(V.RemoteCode(e)) && e.shiftKey == shifted
  }

  lemma PressEmits(s: System, e: V.KeyEvent)
    requires s.Valid() && V.Forwards(e)
    ensures var repaired := AfterEmits(s.sender, V.RepairShift(s.keyboard, e).sent, []);
            Next(s, ViewerReacts(V.Pressed(e), [])).sender
            == Sender(repaired.controlSequence + 1,
                      repaired.inFlight + [KeyDownWire(repaired.controlSequence + 1, V.RemoteCode(e))])
  {
    hide V.RepairShift, V.Forwards;
    var repair, key := V.RepairShift(s.keyboard, e).sent, V.KeyMessage(V.RemoteCode(e), true);
    assert V.OnKeyDown(s.keyboard, e).sent == repair + [key] && (repair + [key])[..|repair|] == repair;
  }

  // ---------------------------------------------------------------- unshifted keys

  /** When message `n` is still queued, the agent can hold no Shift but a stray one by the time
      it gets there. */
  ghost predicate ClearOfShift(s: System, n: int) {
    && n <= s.sender.controlSequence
    && forall p :: 0 <= p < |s.sender.inFlight| && s.sender.inFlight[p].sent && s.sender.inFlight[p].sequence == n ==>
         !V.HoldsShift(V.Remote(s.Meant(), KeyTraffic(s.sender.inFlight[..p])))
  }

  lemma GrowthKeepsClear(s: System, after: System, n: int)
    requires ClearOfShift(s, n) && Grows(s.sender, after.sender) && after.Meant() <= s.Meant()
    ensures ClearOfShift(after, n)
  {
    hide KeyTraffic, V.Remote;
    var (q, grown) := (s.sender.inFlight, after.sender.inFlight);
    forall p | 0 <= p < |grown| && grown[p].sent && grown[p].sequence == n
      ensures !V.HoldsShift(V.Remote(after.Meant(), KeyTraffic(grown[..p])))
    {
      assert p < |q| && grown[..p] == q[..p] && q[p] == grown[p];
      V.RemoteMonotone(after.Meant(), s.Meant(), KeyTraffic(q[..p]));
    }
  }

  lemma TakingHeadKeepsClear(s: System, step: Step, n: int)
    requires s.Valid() && Safe(s) && IsStep(step) && ClearOfShift(s, n) && TakesHead(s, step)
    ensures ClearOfShift(Next(s, step), n)
  {
    hide Next, Sequenced, OnlyAgentKeys, KeyTraffic, V.Remote, Intended;
    TakingHeadIsAtMostIntended(s, step);
    TakingHeadPops(s, step);
    var q, after := s.sender.inFlight, Next(s, step);
    forall p | 0 <= p < |q| - 1 && q[1..][p].sent && q[1..][p].sequence == n
      ensures !V.HoldsShift(V.Remote(after.Meant(), KeyTraffic(q[1..][..p])))
    {
      assert q[p + 1].sequence == n && q[..p + 1][1..] == q[1..][..p] && q[..p + 1][0] == q[0];
      FoldFromHead(s.Meant(), q[..p + 1]);
      V.RemoteMonotone(after.Meant(), Intended(s.Meant(), q[0]), KeyTraffic(q[1..][..p]));
    }
  }

  lemma NextKeepsClear(s: System, step: Step, n: int)
    requires s.Valid() && Safe(s) && IsStep(step) && ClearOfShift(s, n) && !TakesOver(step)
    ensures ClearOfShift(Next(s, step), n)
  {
    hide Safe, ClearOfShift, Next, Grows;
    QueueMoves(s, step);
    if TakesHead(s, step) {
      TakingHeadKeepsClear(s, step, n);
    } else if step.PeerReplaced? {
      EmptyIsClear(s, Next(s, step), n);
    } else {
      SafeParts(s);
      OtherStepsMeanNoMore(s, step);
      GrowthKeepsClear(s, Next(s, step), n);
    }
  }

  lemma OtherStepsMeanNoMore(s: System, step: Step)
    requires s.Valid() && IsStep(step) && !TakesHead(s, step) && !step.PeerReplaced?
    requires Sequenced(s.sender, s.LastSequence()) && OnlyAgentKeys(s.Keys()) && s.stray <= s.Keys()
    ensures Next(s, step).Meant() <= s.Meant()
    ensures Next(s, step).Keys() == {} || (Next(s, step).Keys() == s.Keys() && Next(s, step).stray == s.stray)
  {
    hide AgentStep, Settled, V.React, AfterEmits, Sequenced, OnlyAgentKeys;
    if !step.ViewerReacts? && !step.ViewerSends? && !step.SequenceUsedElsewhere? {
      AgentOnlyReleases(s, step);
    }
  }

  lemma EmptyIsClear(s: System, after: System, n: int)
    requires ClearOfShift(s, n)
    requires after.sender.inFlight == [] && after.sender.controlSequence == s.sender.controlSequence
    ensures ClearOfShift(after, n)
  {
  }

  /** Right after an unshifted key was pressed, its message is the newest, and everything before
      it together leaves no Shift down, strays apart. */
  lemma PressIsClear(s: System, e: V.KeyEvent)
    requires s.Valid() && Safe(s) && IsPress(e, false)
    ensures var after := Next(s, ViewerReacts(V.Pressed(e), []));
            && ClearOfShift(after, after.sender.controlSequence)
            && Newest(after.sender) == Some(KeyDownWire(after.sender.controlSequence, V.RemoteCode(e)))
  {
    hide OnlyAgentKeys, Sequenced, KeyTraffic, V.Remote, V.RepairShift;
    var k, repair := s.keyboard, V.RepairShift(s.keyboard, e).sent;
    var held, traffic := s.Meant(), KeyTraffic(s.sender.inFlight);
    var repaired := AfterEmits(s.sender, repair, []);
    PressEmits(s, e);
    EmitsKeepSequenced(s.sender, s.LastSequence(), repair, []);
    V.RemoteConcat(held, traffic, repair);
    V.RemoteMonotone(V.Remote(held, traffic), k.forwarded, repair);
    V.RepairTracksRemote(k, e);
    RepairDropsShift(k, e);
    NewestIsOnly(repaired, s.LastSequence(), V.RemoteCode(e));
  }

  lemma RepairDropsShift(k: V.Keyboard, e: V.KeyEvent)
    requires IsPress(e, false)
    ensures !V.HoldsShift(V.RepairShift(k, e).keyboard.forwarded)
  {
  }

  lemma NewestIsOnly(s: Sender, received: int, code: string)
    requires Sequenced(s, received)
    ensures var n := s.controlSequence + 1;
            var grown := s.inFlight + [KeyDownWire(n, code)];
            forall p :: 0 <= p < |grown| && grown[p].sent && grown[p].sequence == n ==> grown[..p] == s.inFlight
  {
  }

  lemma {:induction false} RunKeepsClear(start: System, steps: seq<Step>, n: int)
    requires start.Valid() && Safe(start) && ClearOfShift(start, n) && AllSteps(steps)
    requires forall i :: 0 <= i < |steps| ==> !TakesOver(steps[i])
    ensures Safe(After(start, steps)) && ClearOfShift(After(start, steps), n)
  {
    if steps == [] {
    } else {
      hide Next, Safe, ClearOfShift;
      RunKeepsClear(start, steps[..|steps| - 1], n);
      NextKeepsSafe(After(start, steps[..|steps| - 1]), steps[|steps| - 1]);
      NextKeepsClear(After(start, steps[..|steps| - 1]), steps[|steps| - 1], n);
    }
  }

  /** An unshifted key reaches the agent under a held Shift exactly when a stray one is down:
      after any run, press it, let anything more happen except another viewer taking over; when
      its message is the next one the agent comes to, the agent holds no other Shift. */
  lemma UnshiftedKeyReachesAgentUnshifted(start: System, before: seq<Step>, e: V.KeyEvent, later: seq<Step>)
    requires Starts(start) && AllSteps(before) && AllSteps(later) && IsPress(e, false)
    requires forall i :: 0 <= i < |later| ==> !TakesOver(later[i])
    ensures var pressed := Next(After(start, before), ViewerReacts(V.Pressed(e), []));
            var s := After(pressed, later);
            && Newest(pressed.sender) == Some(KeyDownWire(pressed.sender.controlSequence, V.RemoteCode(e)))
            && (s.sender.inFlight != [] && s.sender.inFlight[0].sent
                && s.sender.inFlight[0].sequence == pressed.sender.controlSequence ==>
                  (V.HoldsShift(s.Keys()) <==> V.HoldsShift(s.stray)))
  {
    hide After, Next, Safe, IsPress;
    EveryRunIsSafe(start, before);
    var s0 := After(start, before);
    var pressed := Next(s0, ViewerReacts(V.Pressed(e), []));
    NextKeepsSafe(s0, ViewerReacts(V.Pressed(e), []));
    PressIsClear(s0, e);
    RunKeepsClear(pressed, later, pressed.sender.controlSequence);
    var s := After(pressed, later);
    SafeParts(s);
    assert s.sender.inFlight != [] ==> KeyTraffic(s.sender.inFlight[..0]) == [] && V.Remote(s.Meant(), []) == s.Meant();
  }

  // ---------------------------------------------------------------- shifted keys

  /** When the repaired Shift's message `n - 1` is still queued, the key's own follows it. */
  ghost predicate PairQueued(s: Sender, n: int, code: string) {
    && n <= s.controlSequence
    && forall p :: 0 <= p < |s.inFlight| && s.inFlight[p].sent && s.inFlight[p].sequence == n - 1 ==>
         && s.inFlight[p] == KeyDownWire(n - 1, "ShiftLeft")
         && p + 1 < |s.inFlight| && s.inFlight[p + 1] == KeyDownWire(n, code)
  }

  lemma RepairIsQueued(s: System, e: V.KeyEvent)
    requires s.Valid() && Safe(s) && IsPress(e, true) && !V.HoldsShift(s.keyboard.forwarded)
    ensures var after := Next(s, ViewerReacts(V.Pressed(e), [])).sender;
            PairQueued(after, after.controlSequence, V.RemoteCode(e))
  {
    hide V.Remote, KeyTraffic, OnlyAgentKeys;
    PressEmits(s, e);
    assert V.RepairShift(s.keyboard, e).sent == [V.KeyMessage("ShiftLeft", true)];
    EmitsOne(s.sender, V.KeyMessage("ShiftLeft", true));
  }

  lemma NextKeepsPair(s: System, step: Step, n: int, code: string)
    requires s.Valid() && IsStep(step) && !TakesOver(step) && PairQueued(s.sender, n, code)
    ensures PairQueued(Next(s, step).sender, n, code)
  {
    hide Next;
    QueueMoves(s, step);
    var q, after := s.sender.inFlight, Next(s, step).sender.inFlight;
    if TakesHead(s, step) {
      assert forall p :: 0 <= p < |after| ==> after[p] == q[p + 1];
    }
  }

  lemma {:induction false} RunKeepsPair(start: System, steps: seq<Step>, n: int, code: string)
    requires start.Valid() && AllSteps(steps) && PairQueued(start.sender, n, code)
    requires forall i :: 0 <= i < |steps| ==> !TakesOver(steps[i])
    ensures PairQueued(After(start, steps).sender, n, code)
  {
    if steps == [] {
    } else {
      hide Next, PairQueued;
      RunKeepsPair(start, steps[..|steps| - 1], n, code);
      NextKeepsPair(After(start, steps[..|steps| - 1]), steps[|steps| - 1], n, code);
    }
  }

  /** A received Shift is down if it was before, or if there is a controller with room for it. */
  lemma ShiftIsHeldIff(s: System, now: real)
    requires s.Valid() && Safe(s) && s.sender.inFlight != []
    requires s.sender.inFlight[0] == KeyDownWire(s.sender.inFlight[0].sequence, "ShiftLeft")
    ensures V.HoldsShift(Next(s, AgentReceives(now)).Keys()) <==>
              V.HoldsShift(s.Keys()) || (s.controller.Some? && R.Limiter.Actions.Admits(s.controller.value, now))
  {
    assert KeyCodes.AgentKey("ShiftLeft");
    hide KeyCodes.AgentKey, IsSafeText, G.FrameToDesktopAbsolute, V.Remote, KeyTraffic, W.DequeAdmit;
  }

  /** Nothing is taken off the queue. */
  predicate Pauses(step: Step) { !step.AgentReceives? && !step.AgentRefuses? && !step.PeerReplaced? }

  /** While nothing is taken off the queue, the agent keeps its keys or lets go of all of them. */
  lemma {:induction false} PauseKeepsKeys(start: System, steps: seq<Step>)
    requires start.Valid() && Safe(start) && AllSteps(steps)
    requires forall i :: 0 <= i < |steps| ==> Pauses(steps[i])
    ensures var s := After(start, steps);
            Safe(s) && (s.Keys() == {} || s.Keys() == start.Keys()) && start.sender.inFlight <= s.sender.inFlight
  {
    if steps == [] {
    } else {
      hide Next, Safe;
      var front, last := steps[..|steps| - 1], steps[|steps| - 1];
      var s := After(start, front);
      PauseKeepsKeys(start, front);
      SafeParts(s);
      NextKeepsSafe(s, last);
      OtherStepsMeanNoMore(s, last);
      QueueMoves(s, last);
    }
  }

  /** A shifted key whose Shift the viewer had to repair reaches the agent under a held Shift if
      and only if one was held already or there was room for the repaired one, and the agent has
      not let go of everything since. */
  lemma ShiftedKeyReachesAgentShiftedIff(start: System, before: seq<Step>, e: V.KeyEvent, mid: seq<Step>, now: real,
                                         later: seq<Step>)
    requires Starts(start) && AllSteps(before) && AllSteps(mid) && AllSteps(later) && IsPress(e, true)
    requires !V.HoldsShift(After(start, before).keyboard.forwarded)
    requires forall i :: 0 <= i < |mid| ==> !TakesOver(mid[i])
    requires forall i :: 0 <= i < |later| ==> Pauses(later[i])
    requires var pressed := Next(After(start, before), ViewerReacts(V.Pressed(e), []));
             var q := After(pressed, mid).sender.inFlight;
             q != [] && q[0].sent && q[0].sequence == pressed.sender.controlSequence - 1
    ensures var pressed := Next(After(start, before), ViewerReacts(V.Pressed(e), []));
            var s := After(pressed, mid);
            var arrived := After(Next(s, AgentReceives(now)), later);
            && arrived.sender.inFlight != []
            && arrived.sender.inFlight[0] == KeyDownWire(pressed.sender.controlSequence, V.RemoteCode(e))
            && (V.HoldsShift(arrived.Keys()) <==>
                  && arrived.Keys() != {}
                  && (V.HoldsShift(s.Keys())
                      || (s.controller.Some? && R.Limiter.Actions.Admits(s.controller.value, now))))
  {
    hide After, Next, Safe, IsPress, R.Limiter.Actions.Admits;
    var s0 := After(start, before);
    var pressed := Next(s0, ViewerReacts(V.Pressed(e), []));
    var n := pressed.sender.controlSequence;
    EveryRunIsSafe(start, before);
    NextKeepsSafe(s0, ViewerReacts(V.Pressed(e), []));
    RepairIsQueued(s0, e);
    RunKeepsPair(pressed, mid, n, V.RemoteCode(e));
    RunKeepsSafe(pressed, mid);
    var s := After(pressed, mid);
    ShiftIsHeldIff(s, now);
    TakingHeadPops(s, AgentReceives(now));
    NextKeepsSafe(s, AgentReceives(now));
    PauseKeepsKeys(Next(s, AgentReceives(now)), later);
  }

  lemma {:induction false} RunKeepsSafe(start: System, steps: seq<Step>)
    requires start.Valid() && Safe(start) && AllSteps(steps)
    ensures Safe(After(start, steps))
  {
    if steps == [] {
    } else {
      hide Next, Safe;
      RunKeepsSafe(start, steps[..|steps| - 1]);
      NextKeepsSafe(After(start, steps[..|steps| - 1]), steps[|steps| - 1]);
    }
  }
}
