/**
 The keyboard end to end: the viewer's handlers, the ordered control channel with its
 sequence numbers, and the agent's controller, which may drop any press for rate and may
 release everything on its own at any time.
 */
module StuckKey {
  import opened Basics
  import opened InputControl
  import V = ViewerKeys
  import KeyCodes
  import R = InputRuns
  import G = Geometry
  import W = SlidingWindow

  /** What one control message carries. `NotForController` is traffic the agent handles
      before its controller: pings, receiver reports and clipboard writes. */
  datatype Content =
    | Keyboard(key: V.Sent)
    | OtherInput(payload: Payload)
    | NotForController

  predicate IsOtherInput(p: Payload) { !p.KeyDown? && !p.KeyUp? && !p.ReleaseEverything? }

  /** What becomes of a message at the sending end: it goes out, or the channel throws, or
      control is not active and it is never tried. */
  datatype Fate = Goes | Throws | Blocked

  datatype Wire = Wire(sequence: int, content: Content, sent: bool)

  /** The sending end: a counter shared by everything on the control channel, and the messages
      the agent has not come to yet. One that did not go out keeps its place, marked unsent. */
  datatype Sender = Sender(controlSequence: int, inFlight: seq<Wire>)

  function AfterEmit(s: Sender, content: Content, fate: Fate): Sender {
    var sequence := if fate.Blocked? then s.controlSequence else s.controlSequence + 1;
    Sender(sequence, s.inFlight + [Wire(sequence, content, fate.Goes?)])
  }

  function FateOf(fates: seq<Fate>, i: nat): Fate { if i < |fates| then fates[i] else Goes }

  function AfterEmits(s: Sender, keys: seq<V.Sent>, fates: seq<Fate>): Sender {
    if keys == [] then s
    else AfterEmit(AfterEmits(s, keys[..|keys| - 1], fates), Keyboard(keys[|keys| - 1]), FateOf(fates, |keys| - 1))
  }

  class ControlSender {
    var controlSequence: int
    var inFlight: seq<Wire>
    var recoveries: nat

    function View(): Sender
      reads this
    {
      Sender(controlSequence, inFlight)
    }

    constructor (first: int)
      ensures View() == Sender(first, []) && recoveries == 0
    {
      controlSequence, inFlight, recoveries := first, [], 0;
    }

    method NextControlSequence() returns (sequence: int)
      modifies this`controlSequence
      ensures sequence == controlSequence == old(controlSequence) + 1
    {
      controlSequence := controlSequence + 1;
      return controlSequence;
    }

    /** `ready` is the guard: control active and granted, and the channel open. The number is
        taken before the channel gets a chance to throw, and then is used up all the same, and
        the recovery of the channel is started. */
    method EmitControl(content: Content, ready: bool, throws: bool)
      modifies this
      ensures View() == AfterEmit(old(View()), content, if !ready then Blocked else if throws then Throws else Goes)
      ensures recoveries == old(recoveries) + if ready && throws then 1 else 0
    {
      if !ready {
        inFlight := inFlight + [Wire(controlSequence, content, false)];
        return;
      }
      var sequence := NextControlSequence();
      inFlight := inFlight + [Wire(sequence, content, !throws)];
      if throws {
        recoveries := recoveries + 1;
      }
    }
  }

  function AsPayload(c: Content): Payload
    requires !c.NotForController?
  {
    match c
    case Keyboard(KeyMessage(code, down)) => if down then KeyDown(Some(code)) else KeyUp(Some(code))
    case Keyboard(ReleaseAllMessage) => ReleaseEverything
    case OtherInput(p) => p
  }

  /** The agent has a controller only while control is granted and a peer is connected. `stray`
      are the keys it holds although their release was lost on the way. */
  datatype System = System(keyboard: V.Keyboard, sender: Sender, controller: Option<Ctl>, stray: set<string>)
  {
    predicate Valid() { controller.Some? ==> controller.value.Valid() }

    /** What the agent holds down. */
    function Keys(): set<string> { if controller.Some? then controller.value.keys else {} }

    /** What it holds down with its release still to come. */
    function Meant(): set<string> { Keys() - stray }

    function LastSequence(): int { if controller.Some? then controller.value.lastSequence else -1 }
  }

  /** `AgentRefuses` is a message the agent turns away before its controller: it belongs to a
      session the agent has left for another viewer's, or its timestamp is too far off.
      `AgentReleases` is a revocation or a closing peer: the controller releases everything and
      is dropped. A replaced peer brings a new channel, and with it possibly a new viewer. */
  datatype Step =
    | ViewerReacts(event: V.Event, fates: seq<Fate>)
    | ViewerSends(content: Content, fate: Fate)
    | SequenceUsedElsewhere
    | AgentReceives(now: real)
    | AgentRefuses
    | AgentTicks(now: real)
    | AgentResizes(sourceWidth: int, sourceHeight: int, frameWidth: int, frameHeight: int)
    | AgentReleases
    | AgentStartsControl(profileWidth: int, profileHeight: int)
    | PeerReplaced(newViewer: bool)

  /** The viewer's other traffic carries no key events of its own. */
  predicate IsStep(s: Step) {
    && (s.ViewerSends? ==> s.content.NotForController? || (s.content.OtherInput? && IsOtherInput(s.content.payload)))
    && (s.AgentStartsControl? ==> s.profileWidth > 0 && s.profileHeight > 0)
  }

  predicate TakesOver(step: Step) { step.PeerReplaced? && step.newViewer }

  function Receive(ctl: Ctl, w: Wire, now: real): (after: Ctl)
    requires ctl.Valid()
    ensures after.Valid()
  {
    if w.content.NotForController? then ctl
    else R.StepOutcome(ctl, R.Deliver(now, Message(Some(w.sequence), Some(AsPayload(w.content))))).ctl
  }

  /** Without a controller a message is dropped. */
  function ReceivedBy(controller: Option<Ctl>, w: Wire, now: real): Option<Ctl>
    requires controller.Some? ==> controller.value.Valid()
  {
    if controller.None? then None else Some(Receive(controller.value, w, now))
  }

  /** The codes a message lets go of among the keys held. */
  function Releases(w: Wire, held: set<string>): set<string> {
    match w.content
    case Keyboard(KeyMessage(code, down)) => if down then {} else held * {code}
    case Keyboard(ReleaseAllMessage) => held
    case _ => {}
  }

  /** Whether a message says anything about a key. */
  predicate Concerns(w: Wire, code: string) {
    w.content.Keyboard? && (w.content.key.ReleaseAllMessage? || w.content.key.code == code)
  }

  predicate TakesHead(s: System, step: Step) { s.sender.inFlight != [] && (step.AgentReceives? || step.AgentRefuses?) }

  /** The oldest message is there and reaches the agent's handling of input. */
  predicate Accepts(s: System, step: Step) { TakesHead(s, step) && step.AgentReceives? && s.sender.inFlight[0].sent }

  /** Once a key is no longer held, or the agent has heard of it again, it is not astray. */
  function Settled(before: System, step: Step, after: System): System {
    after.(stray := set code | code in after.stray && code in after.Keys()
                               && !(Accepts(before, step) && Concerns(before.sender.inFlight[0], code)))
  }

  function Next(s: System, step: Step): (after: System)
    requires s.Valid() && IsStep(step)
    ensures after.Valid()
  {
    match step
    case ViewerReacts(event, fates) =>
      var reaction := V.React(s.keyboard, event);
      s.(keyboard := reaction.keyboard, sender := AfterEmits(s.sender, reaction.sent, fates))
    case ViewerSends(content, fate) => s.(sender := AfterEmit(s.sender, content, fate))
    case SequenceUsedElsewhere => s.(sender := s.sender.(controlSequence := s.sender.controlSequence + 1))
    case PeerReplaced(newViewer) =>
      if newViewer then System(V.IDLE, Sender(0, []), None, {})
      else s.(sender := s.sender.(inFlight := []), controller := None, stray := {})
    case _ => Settled(s, step, AgentStep(s, step))
  }

  function AgentStep(s: System, step: Step): (after: System)
    requires s.Valid() && IsStep(step) && !step.ViewerReacts? && !step.ViewerSends?
    requires !step.SequenceUsedElsewhere? && !step.PeerReplaced?
    ensures after.Valid()
  {
    if TakesHead(s, step) then
      var popped := s.(sender := s.sender.(inFlight := s.sender.inFlight[1..]));
      if Accepts(s, step) then popped.(controller := ReceivedBy(s.controller, s.sender.inFlight[0], step.now))
      else popped.(stray := s.stray + Releases(s.sender.inFlight[0], s.Keys()))
    else
      match step
      case AgentTicks(now) =>
        if s.controller.None? then s else s.(controller := Some(AfterTick(s.controller.value, now).ctl))
      case AgentResizes(sw, sh, fw, fh) =>
        if s.controller.None? then s
        else s.(controller := Some(AfterFrameSize(AfterSourceSize(s.controller.value, sw, sh), fw, fh)))
      case AgentReleases => s.(controller := None)
      case AgentStartsControl(fw, fh) => s.(controller := Some(NewCtl(fw, fh, 120, 60, 3.0)))
      case _ => s
  }

  ghost predicate AllSteps(steps: seq<Step>) { forall i :: 0 <= i < |steps| ==> IsStep(steps[i]) }

  ghost function After(start: System, steps: seq<Step>): (s: System)
    requires start.Valid() && AllSteps(steps)
    ensures s.Valid()
  {
    if steps == [] then start else Next(After(start, steps[..|steps| - 1]), steps[|steps| - 1])
  }

  ghost predicate Starts(s: System) {
    && s.Valid() && s.Keys() == {} && s.keyboard == V.IDLE
    && s.sender.inFlight == [] && -1 <= s.LastSequence() <= s.sender.controlSequence && s.stray == {}
  }

  /** The key messages in a queue, in order, whether or not they went out. */
  function KeyTraffic(queue: seq<Wire>): seq<V.Sent> {
    if queue == [] then []
    else KeyTraffic(queue[..|queue| - 1])
         + (if queue[|queue| - 1].content.Keyboard? then [queue[|queue| - 1].content.key] else [])
  }

  ghost predicate Sequenced(sender: Sender, received: int) {
    var q := sender.inFlight;
    && -1 <= received <= sender.controlSequence
    && (forall i :: 0 <= i < |q| && q[i].sent ==> received < q[i].sequence <= sender.controlSequence)
    && (forall i, j :: 0 <= i < j < |q| && q[i].sent && q[j].sent ==> q[i].sequence < q[j].sequence)
    && (forall i :: 0 <= i < |q| && q[i].content.OtherInput? ==> IsOtherInput(q[i].content.payload))
  }

  ghost predicate OnlyAgentKeys(keys: set<string>) {
    forall code :: code in keys ==> KeyCodes.AgentKey(code)
  }

  /** Even if everything still in flight were applied, the agent would hold no key that the
      viewer does not consider pressed, strays apart. */
  ghost predicate Safe(s: System) {
    && Sequenced(s.sender, s.LastSequence())
    && OnlyAgentKeys(s.Keys())
    && s.stray <= s.Keys()
    && V.Remote(s.Meant(), KeyTraffic(s.sender.inFlight)) <= s.keyboard.forwarded
  }

  // ---------------------------------------------------------------- the queue

  lemma {:induction false} KeyTrafficHead(queue: seq<Wire>)
    requires queue != []
    ensures KeyTraffic(queue)
            == (if queue[0].content.Keyboard? then [queue[0].content.key] else []) + KeyTraffic(queue[1..])
  {
    if |queue| > 1 {
      var front := queue[..|queue| - 1];
      KeyTrafficHead(front);
      assert queue[1..][..|queue[1..]| - 1] == front[1..];
    } else {
      assert queue[1..] == [] && queue[..0] == [];
    }
  }

  lemma EmitKeepsSequenced(s: Sender, received: int, content: Content, fate: Fate)
    requires Sequenced(s, received) && (content.OtherInput? ==> IsOtherInput(content.payload))
    ensures Sequenced(AfterEmit(s, content, fate), received)
    ensures KeyTraffic(AfterEmit(s, content, fate).inFlight)
            == KeyTraffic(s.inFlight) + (if content.Keyboard? then [content.key] else [])
  {
    var grown := AfterEmit(s, content, fate).inFlight;
    assert grown[..|grown| - 1] == s.inFlight;
  }

  lemma {:induction false} EmitsKeepSequenced(s: Sender, received: int, keys: seq<V.Sent>, fates: seq<Fate>)
    requires Sequenced(s, received)
    ensures Sequenced(AfterEmits(s, keys, fates), received)
    ensures KeyTraffic(AfterEmits(s, keys, fates).inFlight) == KeyTraffic(s.inFlight) + keys
  {
    hide Sequenced, KeyTraffic, AfterEmit;
    if keys == [] {
      assert KeyTraffic(s.inFlight) + keys == KeyTraffic(s.inFlight);
    } else {
      var front, last := keys[..|keys| - 1], keys[|keys| - 1];
      EmitsKeepSequenced(s, received, front, fates);
      EmitKeepsSequenced(AfterEmits(s, front, fates), received, Keyboard(last), FateOf(fates, |front|));
      assert KeyTraffic(s.inFlight) + front + [last] == KeyTraffic(s.inFlight) + keys;
    }
  }

  // ---------------------------------------------------------------- the agent

  /** A fresh message leaves the agent with at most the keys its sender intended: presses
      may be dropped, releases never are. */
  lemma ReceiveIsAtMostIntended(ctl: Ctl, w: Wire, now: real)
    requires ctl.Valid() && OnlyAgentKeys(ctl.keys) && w.sequence > ctl.lastSequence
    requires w.content.OtherInput? ==> IsOtherInput(w.content.payload)
    ensures var after := Receive(ctl, w, now);
            && OnlyAgentKeys(after.keys)
            && ctl.lastSequence <= after.lastSequence <= w.sequence
            && after.keys <= if w.content.Keyboard? then V.Applied(ctl.keys, w.content.key) else ctl.keys
  {
    hide KeyCodes.AgentKey;
    if !w.content.NotForController? {
      PayloadEffect(ctl.(lastSequence := w.sequence), AsPayload(w.content), now);
    }
  }

  lemma PayloadEffect(c: Ctl, p: Payload, now: real)
    requires c.Valid()
    ensures var o := AfterDispatch(c, p, now);
            && o.ctl.lastSequence == c.lastSequence
            && match p
               case KeyDown(Some(code)) =>
                 o.ctl.keys == c.keys || (KeyCodes.AgentKey(code) && o.ctl.keys == c.keys + {code})
               case KeyUp(Some(code)) =>
                 o.ctl.keys == if KeyCodes.AgentKey(code) then c.keys - {code} else c.keys
               case ReleaseEverything => o.ctl.keys == {}
               case _ => o.ctl.keys == c.keys
  {
    hide KeyCodes.AgentKey, IsSafeText, G.FrameToDesktopAbsolute;
  }

  /** The keys a message is meant to leave down. */
  function Intended(keys: set<string>, w: Wire): set<string> {
    if w.content.Keyboard? then V.Applied(keys, w.content.key) else keys
  }

  /** Taking the oldest message off the queue, accepted, refused or never sent, leaves at most
      what the fold of the whole queue passes through, strays apart. */
  lemma TakingHeadIsAtMostIntended(s: System, step: Step)
    requires s.Valid() && IsStep(step) && TakesHead(s, step)
    requires Sequenced(s.sender, s.LastSequence()) && OnlyAgentKeys(s.Keys())
    ensures var after := Next(s, step);
            && Sequenced(after.sender, after.LastSequence()) && OnlyAgentKeys(after.Keys())
            && after.stray <= after.Keys()
            && after.Meant() <= Intended(s.Meant(), s.sender.inFlight[0])
  {
    hide KeyCodes.AgentKey, Receive;
    var head := s.sender.inFlight[0];
    if Accepts(s, step) && s.controller.Some? {
      ReceiveIsAtMostIntended(s.controller.value, head, step.now);
    }
  }

  lemma {:induction false} FoldFromHead(keys: set<string>, queue: seq<Wire>)
    requires queue != []
    ensures V.Remote(keys, KeyTraffic(queue)) == V.Remote(Intended(keys, queue[0]), KeyTraffic(queue[1..]))
  {
    hide KeyTraffic;
    KeyTrafficHead(queue);
    var head := if queue[0].content.Keyboard? then [queue[0].content.key] else [];
    V.RemoteConcat(keys, head, KeyTraffic(queue[1..]));
    if queue[0].content.Keyboard? {
      V.RemoteOne(keys, queue[0].content.key);
    } else {
      assert V.Remote(keys, []) == keys;
    }
  }

  // ---------------------------------------------------------------- every step is safe

  lemma ViewerKeepsSafe(s: System, event: V.Event, fates: seq<Fate>)
    requires s.Valid() && Safe(s)
    ensures Safe(Next(s, ViewerReacts(event, fates)))
  {
    hide OnlyAgentKeys, Sequenced, KeyTraffic, V.Remote, V.React;
    var held, traffic := s.Meant(), KeyTraffic(s.sender.inFlight);
    var sent := V.React(s.keyboard, event).sent;
    EmitsKeepSequenced(s.sender, s.LastSequence(), sent, fates);
    V.RemoteConcat(held, traffic, sent);
    V.EventKeepsRemoteWithin(s.keyboard, event, V.Remote(held, traffic));
  }

  lemma TakingHeadKeepsSafe(s: System, step: Step)
    requires s.Valid() && Safe(s) && IsStep(step) && TakesHead(s, step)
    ensures Safe(Next(s, step))
  {
    hide Next, Sequenced, OnlyAgentKeys, KeyTraffic, V.Remote, Intended;
    TakingHeadIsAtMostIntended(s, step);
    FoldFromHead(s.Meant(), s.sender.inFlight);
    TakingHeadPops(s, step);
    V.RemoteMonotone(Next(s, step).Meant(), Intended(s.Meant(), s.sender.inFlight[0]),
                     KeyTraffic(s.sender.inFlight[1..]));
  }

  lemma TakingHeadPops(s: System, step: Step)
    requires s.Valid() && IsStep(step) && TakesHead(s, step)
    ensures var after := Next(s, step);
            && after.sender == s.sender.(inFlight := s.sender.inFlight[1..]) && after.keyboard == s.keyboard
  {
    hide Receive;
  }

  /** What the agent does on its own account. */
  predicate IsAgentsOwn(step: Step) {
    step.AgentTicks? || step.AgentResizes? || step.AgentReleases? || step.AgentStartsControl?
  }

  /** It can only let go of everything or leave its keys as they are. */
  lemma AgentOnlyReleases(s: System, step: Step)
    requires s.Valid() && IsStep(step) && (IsAgentsOwn(step) || (s.sender.inFlight == [] && !TakesHead(s, step)))
    requires !step.ViewerReacts? && !step.ViewerSends? && !step.SequenceUsedElsewhere? && !step.PeerReplaced?
    requires Sequenced(s.sender, s.LastSequence()) && OnlyAgentKeys(s.Keys()) && s.stray <= s.Keys()
    ensures var after := Next(s, step);
            && (after.Keys() == {} || (after.Keys() == s.Keys() && after.stray == s.stray))
            && after.Meant() <= s.Meant() && after.stray <= after.Keys()
            && after.sender == s.sender && after.keyboard == s.keyboard
            && Sequenced(after.sender, after.LastSequence()) && OnlyAgentKeys(after.Keys())
  {
    hide KeyCodes.AgentKey, UpCalls;
    var after := Next(s, step);
    assert after.Keys() == s.Keys() ==> after.stray == s.stray;
  }

  lemma NextKeepsSafe(s: System, step: Step)
    requires s.Valid() && Safe(s) && IsStep(step)
    ensures Safe(Next(s, step))
  {
    hide KeyCodes.AgentKey, KeyTraffic, V.Remote, V.React, AgentStep, Settled, UpCalls;
    var held, traffic := s.Meant(), KeyTraffic(s.sender.inFlight);
    match step {
      case ViewerReacts(event, fates) =>
        ViewerKeepsSafe(s, event, fates);
      case ViewerSends(content, fate) =>
        EmitKeepsSequenced(s.sender, s.LastSequence(), content, fate);
        assert traffic + [] == traffic;
      case SequenceUsedElsewhere =>
      case PeerReplaced(_) =>
        NothingQueued();
        assert Next(s, step).Meant() == {};
      case _ =>
        if TakesHead(s, step) {
          TakingHeadKeepsSafe(s, step);
        } else {
          AgentOnlyReleases(s, step);
          V.RemoteMonotone(Next(s, step).Meant(), held, traffic);
        }
    }
  }

  lemma NothingQueued()
    ensures V.Remote({}, KeyTraffic([])) == {}
  {
  }

  lemma {:induction false} EveryRunIsSafe(start: System, steps: seq<Step>)
    requires Starts(start) && AllSteps(steps)
    ensures Safe(After(start, steps))
  {
    if steps == [] {
      NothingQueued();
    } else {
      hide Next, Safe;
      EveryRunIsSafe(start, steps[..|steps| - 1]);
      NextKeepsSafe(After(start, steps[..|steps| - 1]), steps[|steps| - 1]);
    }
  }

  // ---------------------------------------------------------------- delivery

  /** A message that goes out, or fails in going, takes the next number and a blocked one takes
      none; each is last in the queue under the number reached. */
  lemma MessagesAreNumbered(s: Sender, content: Content, fate: Fate)
    ensures var after := AfterEmit(s, content, fate);
            && after.controlSequence == s.controlSequence + (if fate == Blocked then 0 else 1)
            && after.inFlight == s.inFlight + [Wire(after.controlSequence, content, fate == Goes)]
  {
  }

  /** In every run the oldest key message, when it went out and meets a controller, does just what
      it says: a release lifts its key, a press puts its key down when the limiter has room, and
      a release of everything leaves nothing down. */
  lemma KeyMessageTakesEffect(start: System, steps: seq<Step>, now: real)
    requires Starts(start) && AllSteps(steps)
    requires var s := After(start, steps);
             && s.controller.Some? && s.sender.inFlight != []
             && s.sender.inFlight[0].sent && s.sender.inFlight[0].content.Keyboard?
    ensures var s := After(start, steps);
            Next(s, AgentReceives(now)).Keys() ==
              match s.sender.inFlight[0].content.key
              case KeyMessage(code, true) =>
                if KeyCodes.AgentKey(code) && R.Limiter.Actions.Admits(s.controller.value, now) then s.Keys() + {code}
                else s.Keys()
              case KeyMessage(code, false) => s.Keys() - {code}
              case ReleaseAllMessage => {}
  {
    EveryRunIsSafe(start, steps);
    HeadTakesEffect(After(start, steps), now);
  }

  lemma HeadTakesEffect(s: System, now: real)
    requires s.Valid() && Safe(s) && s.controller.Some? && s.sender.inFlight != []
    requires s.sender.inFlight[0].sent && s.sender.inFlight[0].content.Keyboard?
    ensures Next(s, AgentReceives(now)).Keys() ==
              match s.sender.inFlight[0].content.key
              case KeyMessage(code, true) =>
                if KeyCodes.AgentKey(code) && R.Limiter.Actions.Admits(s.controller.value, now) then s.Keys() + {code}
                else s.Keys()
              case KeyMessage(code, false) => s.Keys() - {code}
              case ReleaseAllMessage => {}
  {
    hide KeyCodes.AgentKey, IsSafeText, G.FrameToDesktopAbsolute, V.Remote, KeyTraffic, W.DequeAdmit;
  }

  /** A new viewer starts afresh, with its own numbers; the same one keeps its record and goes on
      counting, but neither finds anything in flight or held. */
  lemma ReplacementEmptiesChannel(s: System, newViewer: bool)
    requires s.Valid()
    ensures var after := Next(s, PeerReplaced(newViewer));
            && after.sender.inFlight == [] && after.Keys() == {} && after.controller.None?
            && (newViewer ==> Starts(after) && after.sender.controlSequence == 0)
            && (!newViewer ==> after.keyboard == s.keyboard
                               && after.sender.controlSequence == s.sender.controlSequence)
  {
  }

  // ---------------------------------------------------------------- which keys are astray

  /** The step loses a release of a key the agent holds. */
  predicate Loses(s: System, step: Step, code: string) {
    TakesHead(s, step) && !Accepts(s, step) && code in Releases(s.sender.inFlight[0], s.Keys())
  }

  /** The step brings the agent word of the key again. */
  predicate Resolves(s: System, step: Step, code: string) {
    Accepts(s, step) && Concerns(s.sender.inFlight[0], code)
  }

  lemma StrayStep(s: System, step: Step, code: string)
    requires s.Valid() && IsStep(step) && s.stray <= s.Keys()
    ensures var after := Next(s, step);
            code in after.stray <==>
              code in after.Keys() && !Resolves(s, step, code) && (code in s.stray || Loses(s, step, code))
  {
    hide Receive, V.React, AfterEmits, AfterTick, AfterFrameSize, AfterSourceSize;
  }

  /** Through step `j` the agent went on holding the key and heard no more of it. */
  ghost predicate StaysHeld(start: System, steps: seq<Step>, j: nat, code: string)
    requires start.Valid() && AllSteps(steps) && j < |steps|
  {
    code in After(start, steps[..j + 1]).Keys() && !Resolves(After(start, steps[..j]), steps[j], code)
  }

  ghost predicate LostAt(start: System, steps: seq<Step>, k: nat, code: string)
    requires start.Valid() && AllSteps(steps) && k < |steps|
  {
    Loses(After(start, steps[..k]), steps[k], code)
  }

  /** Some step lost a release of the key, and from it on the agent has held the key and heard no
      more of it. */
  ghost predicate LostSince(start: System, steps: seq<Step>, code: string)
    requires start.Valid() && AllSteps(steps)
  {
    exists k: nat :: k < |steps| && LostAt(start, steps, k, code)
      && forall j: nat :: k <= j < |steps| ==> StaysHeld(start, steps, j, code)
  }

  lemma FrontAgrees(start: System, steps: seq<Step>, j: nat, code: string)
    requires start.Valid() && AllSteps(steps) && j < |steps| - 1
    ensures StaysHeld(start, steps, j, code) == StaysHeld(start, steps[..|steps| - 1], j, code)
    ensures LostAt(start, steps, j, code) == LostAt(start, steps[..|steps| - 1], j, code)
  {
    hide After, Resolves, Loses;
    var front := steps[..|steps| - 1];
    assert front[..j] == steps[..j] && front[..j + 1] == steps[..j + 1];
  }

  lemma LostSinceGrows(start: System, steps: seq<Step>, code: string)
    requires start.Valid() && AllSteps(steps) && steps != []
    ensures var n := |steps| - 1;
            LostSince(start, steps, code) <==>
              StaysHeld(start, steps, n, code) && (LostSince(start, steps[..n], code) || LostAt(start, steps, n, code))
  {
    hide StaysHeld, LostAt, After;
    var n := |steps| - 1;
    var front := steps[..n];
    forall j: nat | j < n
      ensures StaysHeld(start, steps, j, code) == StaysHeld(start, front, j, code)
      ensures LostAt(start, steps, j, code) == LostAt(start, front, j, code)
    {
      FrontAgrees(start, steps, j, code);
    }
    if LostSince(start, front, code) && StaysHeld(start, steps, n, code) {
      var k: nat :| k < n && LostAt(start, front, k, code)
                    && forall j: nat :: k <= j < n ==> StaysHeld(start, front, j, code);
      assert LostAt(start, steps, k, code);
    }
    if LostSince(start, steps, code) {
      var k: nat :| k < |steps| && LostAt(start, steps, k, code)
                    && forall j: nat :: k <= j < |steps| ==> StaysHeld(start, steps, j, code);
      if k < n {
        assert LostAt(start, front, k, code);
      }
    }
  }

  lemma LastStep(start: System, steps: seq<Step>, code: string)
    requires start.Valid() && AllSteps(steps) && steps != []
    ensures var n := |steps| - 1;
            var s := After(start, steps[..n]);
            && After(start, steps) == Next(s, steps[n])
            && (LostAt(start, steps, n, code) <==> Loses(s, steps[n], code))
            && (StaysHeld(start, steps, n, code) <==>
                  code in After(start, steps).Keys() && !Resolves(s, steps[n], code))
  {
    hide Next, Loses, Resolves;
    assert steps[..|steps|] == steps;
  }

  /** In every run a key is astray if and only if a release of it was lost and since then the
      agent has held it and heard no more of it. */
  lemma {:induction false} StrayIffLost(start: System, steps: seq<Step>, code: string)
    requires Starts(start) && AllSteps(steps)
    ensures code in After(start, steps).stray <==> LostSince(start, steps, code)
  {
    if steps == [] {
    } else {
      hide Next, Safe, Loses, Resolves, LostAt, LostSince, StaysHeld, Starts, After;
      var front := steps[..|steps| - 1];
      StrayIffLost(start, front, code);
      EveryRunIsSafe(start, front);
      SafeParts(After(start, front));
      StrayStep(After(start, front), steps[|steps| - 1], code);
      LastStep(start, steps, code);
      LostSinceGrows(start, steps, code);
    }
  }

  lemma SafeParts(s: System)
    requires Safe(s)
    ensures Sequenced(s.sender, s.LastSequence()) && OnlyAgentKeys(s.Keys()) && s.stray <= s.Keys()
  {
  }

  /** Nothing is lost: every message goes out and none is refused. */
  predicate LosesNothing(step: Step) {
    && !step.AgentRefuses?
    && (step.ViewerReacts? ==> forall i :: 0 <= i < |step.fates| ==> step.fates[i].Goes?)
    && (step.ViewerSends? ==> step.fate.Goes?)
  }

  ghost predicate AllSent(s: System) { forall i :: 0 <= i < |s.sender.inFlight| ==> s.sender.inFlight[i].sent }

  lemma {:induction false} EmitsAllSent(s: Sender, keys: seq<V.Sent>, fates: seq<Fate>)
    requires forall i :: 0 <= i < |s.inFlight| ==> s.inFlight[i].sent
    requires forall i :: 0 <= i < |fates| ==> fates[i].Goes?
    ensures forall i :: 0 <= i < |AfterEmits(s, keys, fates).inFlight| ==> AfterEmits(s, keys, fates).inFlight[i].sent
  {
    if keys == [] {
    } else {
      EmitsAllSent(s, keys[..|keys| - 1], fates);
    }
  }

  lemma LosslessStep(s: System, step: Step)
    requires s.Valid() && IsStep(step) && LosesNothing(step) && AllSent(s) && s.stray == {}
    ensures AllSent(Next(s, step)) && Next(s, step).stray == {}
  {
    hide Receive, V.React, AfterEmits, AfterTick, AfterFrameSize, AfterSourceSize;
    if step.ViewerReacts? {
      EmitsAllSent(s.sender, V.React(s.keyboard, step.event).sent, step.fates);
    }
  }

  lemma {:induction false} LosslessRunHasNoStray(start: System, steps: seq<Step>)
    requires Starts(start) && AllSteps(steps) && forall i :: 0 <= i < |steps| ==> LosesNothing(steps[i])
    ensures AllSent(After(start, steps)) && After(start, steps).stray == {}
  {
    if steps == [] {
    } else {
      hide Next, AllSent, LosesNothing;
      if |steps| == 1 { assert AllSent(start) by { StartIsAllSent(start); } }
      LosslessRunHasNoStray(start, steps[..|steps| - 1]);
      LosslessStep(After(start, steps[..|steps| - 1]), steps[|steps| - 1]);
    }
  }

  lemma StartIsAllSent(start: System)
    requires Starts(start)
    ensures AllSent(start)
  {
  }

  // ---------------------------------------------------------------- no stuck key

  /** The agent comes to everything still queued; None is a refusal. */
  function Drained(s: System, fates: seq<Option<real>>): (after: System)
    requires s.Valid() && |fates| == |s.sender.inFlight|
    decreases |fates|
    ensures after.keyboard == s.keyboard && after.sender.inFlight == [] && after.Valid()
  {
    if fates == [] then s else Drained(Next(s, Taking(fates[0])), fates[1..])
  }

  function Taking(fate: Option<real>): Step { if fate.Some? then AgentReceives(fate.value) else AgentRefuses }

  lemma {:induction false} DrainingKeepsSafe(s: System, fates: seq<Option<real>>)
    requires s.Valid() && Safe(s) && |fates| == |s.sender.inFlight|
    ensures Safe(Drained(s, fates))
    decreases |fates|
  {
    if fates == [] {
    } else {
      hide Safe, Next;
      NextKeepsSafe(s, Taking(fates[0]));
      TakingHeadPops(s, Taking(fates[0]));
      DrainingKeepsSafe(Next(s, Taking(fates[0])), fates[1..]);
    }
  }

  /** When nothing is in flight, what the agent holds beyond the viewer's record is astray. */
  lemma QuietHolds(s: System)
    requires Safe(s) && s.sender.inFlight == []
    ensures s.Keys() <= s.keyboard.forwarded + s.stray
    ensures s.Keys() <= s.keyboard.forwarded <==> s.stray <= s.keyboard.forwarded
  {
    assert V.Remote(s.Meant(), []) == s.Meant();
    assert s.Keys() == s.Meant() + s.stray;
  }

  /** After any run, with any number of lost messages, revocations, new grants, replaced peers and
      viewers, let the agent come to everything still queued: it then holds only keys that the
      viewer considers pressed if and only if no other key is astray. */
  lemma StuckOnlyIfLost(start: System, steps: seq<Step>, fates: seq<Option<real>>)
    requires Starts(start) && AllSteps(steps)
    requires |fates| == |After(start, steps).sender.inFlight|
    ensures var s := Drained(After(start, steps), fates);
            && s.Keys() <= s.keyboard.forwarded + s.stray
            && (s.Keys() <= s.keyboard.forwarded <==> s.stray <= s.keyboard.forwarded)
  {
    hide After, Safe, Drained;
    EveryRunIsSafe(start, steps);
    DrainingKeepsSafe(After(start, steps), fates);
    QuietHolds(Drained(After(start, steps), fates));
  }

  lemma {:induction false} LosslessDrain(s: System, fates: seq<Option<real>>)
    requires s.Valid() && |fates| == |s.sender.inFlight| && AllSent(s) && s.stray == {}
    requires forall i :: 0 <= i < |fates| ==> fates[i].Some?
    ensures Drained(s, fates).stray == {}
    decreases |fates|
  {
    if fates == [] {
    } else {
      hide Next;
      LosslessStep(s, Taking(fates[0]));
      TakingHeadPops(s, Taking(fates[0]));
      LosslessDrain(Next(s, Taking(fates[0])), fates[1..]);
    }
  }

  /** When no message is lost, no key is stuck: delivering what is still queued leaves the agent
      holding only keys that the viewer considers pressed. */
  lemma NoStuckKey(start: System, steps: seq<Step>, fates: seq<Option<real>>)
    requires Starts(start) && AllSteps(steps) && forall i :: 0 <= i < |steps| ==> LosesNothing(steps[i])
    requires |fates| == |After(start, steps).sender.inFlight| && forall i :: 0 <= i < |fates| ==> fates[i].Some?
    ensures var s := After(start, steps); Drained(s, fates).Keys() <= s.keyboard.forwarded
  {
    hide After, Drained, LosesNothing;
    LosslessRunHasNoStray(start, steps);
    LosslessDrain(After(start, steps), fates);
    StuckOnlyIfLost(start, steps, fates);
  }

  // ---------------------------------------------------------------- a release that is lost

  const LETTER := V.KeyEvent(V.OtherLogical, "KeyA", false, false, false)

  const FRESH := System(V.IDLE, Sender(0, []), None, {})

  const PRESS_AND_LIFT: seq<Step> :=
    [AgentStartsControl(1280, 720), ViewerReacts(V.Pressed(LETTER), []), AgentReceives(0.0),
     ViewerReacts(V.Lifted(LETTER), []), AgentRefuses]

  lemma LetterReactions()
    ensures V.React(V.IDLE, V.Pressed(LETTER)) == V.Reaction(V.Keyboard({"KeyA"}, false), [V.KeyMessage("KeyA", true)])
    ensures V.React(V.Keyboard({"KeyA"}, false), V.Lifted(LETTER))
            == V.Reaction(V.IDLE, [V.KeyMessage("KeyA", false)])
  {
    V.LetterAIsPlainViewerKey();
    hide KeyCodes.ViewerKey, KeyCodes.StartsWithShift;
    assert {"KeyA"} - {"KeyA"} == {};
  }

  lemma EmitsOne(s: Sender, key: V.Sent)
    ensures AfterEmits(s, [key], []) == AfterEmit(s, Keyboard(key), Goes)
  {
    assert [key][..0] == [];
  }

  lemma FirstPressIsApplied(c: Ctl, now: real)
    requires c == NewCtl(1280, 720, 120, 60, 3.0)
    ensures Receive(c, Wire(1, Keyboard(V.KeyMessage("KeyA", true)), true), now).keys == {"KeyA"}
  {
    V.LetterAIsPlainViewerKey();
    KeyCodes.ViewerKeysAreAgentKeys("KeyA");
    hide KeyCodes.AgentKey, KeyCodes.ViewerKey;
  }

  lemma AfterOneMore(start: System, steps: seq<Step>, step: Step)
    requires start.Valid() && AllSteps(steps) && IsStep(step)
    ensures AllSteps(steps + [step]) && After(start, steps + [step]) == Next(After(start, steps), step)
  {
    assert (steps + [step])[..|steps|] == steps;
  }

  /** The run in which a key is stuck: pressed, received, lifted, and the release refused. The
      channel is quiet and the viewer holds nothing, but the agent does. */
  lemma RefusedReleaseLeavesKey()
    ensures Starts(FRESH) && AllSteps(PRESS_AND_LIFT)
    ensures var s := After(FRESH, PRESS_AND_LIFT);
            s.sender.inFlight == [] && s.keyboard.forwarded == {} && s.Keys() == s.stray == {"KeyA"}
  {
    hide After, V.React, AfterEmits, Receive;
    LetterReactions();
    EmitsOne(Sender(0, []), V.KeyMessage("KeyA", true));
    EmitsOne(Sender(1, []), V.KeyMessage("KeyA", false));
    var c := NewCtl(1280, 720, 120, 60, 3.0);
    FirstPressIsApplied(c, 0.0);
    assert After(FRESH, []) == FRESH by { StartsHere(FRESH); }
    var steps := PRESS_AND_LIFT;
    AfterOneMore(FRESH, [], steps[0]);
    assert [] + [steps[0]] == steps[..1];
    AfterOneMore(FRESH, steps[..1], steps[1]);
    assert steps[..1] + [steps[1]] == steps[..2];
    AfterOneMore(FRESH, steps[..2], steps[2]);
    assert steps[..2] + [steps[2]] == steps[..3];
    assert After(FRESH, steps[..3]).Keys() == {"KeyA"} && After(FRESH, steps[..3]).sender == Sender(1, []);
    AfterOneMore(FRESH, steps[..3], steps[3]);
    assert steps[..3] + [steps[3]] == steps[..4];
    AfterOneMore(FRESH, steps[..4], steps[4]);
    assert steps[..4] + [steps[4]] == steps;
  }

  lemma StartsHere(start: System)
    requires start.Valid()
    ensures After(start, []) == start
  {
  }
}
