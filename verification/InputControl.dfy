/**
 The agent's input controller: validates control messages, maps coordinates, tracks what
 is held down, limits rates and releases everything when the viewer goes silent.
 */
module InputControl {
  import opened Basics
  import opened SlidingWindow
  import G = Geometry
  import KeyCodes

  const WHEEL_LIMIT := 1200
  const TEXT_INPUT_MAX_LENGTH := 256

  datatype ButtonName = Left | Right | Middle | UnknownButton

  datatype Action = Down | Up | UnknownAction

  /** An event with its data; None is a field that is missing or of the wrong type. */
  datatype Payload =
    | PointerMove(x: Option<real>, y: Option<real>)
    | PointerButton(button: ButtonName, action: Action)
    | PointerWheel(deltaX: Option<int>, deltaY: Option<int>)
    | KeyDown(code: Option<string>)
    | KeyUp(code: Option<string>)
    | TextInput(text: Option<string>)
    | ReleaseEverything
    | UnknownEvent

  /** A parsed control message; a payload of None is data that is not an object. */
  datatype Message = Message(sequence: Option<int>, payload: Option<Payload>)

  datatype SinkCall =
    | MoveAbsolute(x: int, y: int)
    | MouseButton(button: ButtonName, action: Action)
    | Wheel(deltaX: int, deltaY: int)
    | Key(code: string, action: Action)
    | TypeText(text: string)

  predicate IsUnit(v: Option<real>) { v.Some? && 0.0 <= v.value <= 1.0 }

  predicate IsWheel(v: Option<int>) { v.Some? && -WHEEL_LIMIT <= v.value <= WHEEL_LIMIT }

  predicate IsSafeText(text: string) {
    && 1 <= |text| <= TEXT_INPUT_MAX_LENGTH
    && forall i :: 0 <= i < |text| ==>
         text[i] == '\n' || text[i] == '\t' || (text[i] as int >= 0x20 && text[i] as int != 0x7F)
  }

  /** The state of one controller, configuration included. */
  datatype Ctl = Ctl(
    rateLimit: int, actionLimit: int, watchdogSeconds: real,
    frameWidth: int, frameHeight: int, source: Option<(int, int)>,
    lastSequence: int, buttons: set<ButtonName>, keys: set<string>,
    moveTimes: seq<real>, actionTimes: seq<real>, lastActivity: Option<real>)
  {
    predicate Valid() {
      && frameWidth > 0 && frameHeight > 0
      && (source.Some? ==> source.value.0 > 0 && source.value.1 > 0)
    }

    predicate Holding() { buttons != {} || keys != {} }
  }

  function NewCtl(frameWidth: int, frameHeight: int, rateLimit: int, actionLimit: int, watchdogSeconds: real): Ctl {
    Ctl(rateLimit, actionLimit, watchdogSeconds, frameWidth, frameHeight, None, -1, {}, {}, [], [], None)
  }

  datatype Outcome = Outcome(ctl: Ctl, applied: bool, calls: multiset<SinkCall>)

  function Refused(c: Ctl): Outcome { Outcome(c, false, multiset{}) }

  function UpCalls(buttons: set<ButtonName>, keys: set<string>): multiset<SinkCall> {
    multiset(set b | b in buttons :: MouseButton(b, Up)) + multiset(set k | k in keys :: Key(k, Up))
  }

  function Released(c: Ctl): Ctl { c.(buttons := {}, keys := {}) }

  predicate IsRelease(p: Payload) { p.KeyUp? || (p.PointerButton? && p.action == Up) }

  predicate IsAction(p: Payload) {
    p.PointerButton? || p.PointerWheel? || p.KeyDown? || p.KeyUp? || p.TextInput?
  }

  function AfterMove(c: Ctl, x: Option<real>, y: Option<real>, now: real): Outcome
    requires c.Valid()
  {
    if c.source.None? || !IsUnit(x) || !IsUnit(y) then Refused(c)
    else
      var admission := DequeAdmit(c.moveTimes, now, c.rateLimit, 1.0, Closed);
      var c1 := c.(moveTimes := admission.timestamps);
      if !admission.allowed then Refused(c1)
      else
        var point := G.FrameToDesktopAbsolute(x.value, y.value, c.source.value.0, c.source.value.1,
                                              c.frameWidth, c.frameHeight).value;
        if point.None? then Refused(c1)
        else Outcome(c1, true, multiset{MoveAbsolute(point.value.x, point.value.y)})
  }

  function AfterKey(c: Ctl, code: Option<string>, action: Action): Outcome {
    if code.None? || !KeyCodes.AgentKey(code.value) then Refused(c)
    else
      var keys := if action == Down then c.keys + {code.value} else c.keys - {code.value};
      Outcome(c.(keys := keys), true, multiset{Key(code.value, action)})
  }

  function AfterAction(c: Ctl, p: Payload): Outcome
    requires IsAction(p)
  {
    match p
    case PointerButton(button, action) =>
      if button == UnknownButton || action == UnknownAction then Refused(c)
      else
        var buttons := if action == Down then c.buttons + {button} else c.buttons - {button};
        Outcome(c.(buttons := buttons), true, multiset{MouseButton(button, action)})
    case PointerWheel(deltaX, deltaY) =>
      if !IsWheel(deltaX) || !IsWheel(deltaY) then Refused(c)
      else Outcome(c, true, multiset{Wheel(deltaX.value, deltaY.value)})
    case KeyDown(code) => AfterKey(c, code, Down)
    case KeyUp(code) => AfterKey(c, code, Up)
    case TextInput(text) =>
      if text.None? || !IsSafeText(text.value) then Refused(c)
      else Outcome(c, true, multiset{TypeText(text.value)})
  }

  function AfterDispatch(c: Ctl, p: Payload, now: real): Outcome
    requires c.Valid()
  {
    if p.PointerMove? then AfterMove(c, p.x, p.y, now)
    else if p.ReleaseEverything? then Outcome(Released(c), true, UpCalls(c.buttons, c.keys))
    else if !IsAction(p) then Refused(c)
    else if IsRelease(p) then AfterAction(c, p)
    else
      var admission := DequeAdmit(c.actionTimes, now, c.actionLimit, 1.0, HalfOpen);
      var c1 := c.(actionTimes := admission.timestamps);
      if admission.allowed then AfterAction(c1, p) else Refused(c1)
  }

  predicate Fresh(c: Ctl, m: Message) { m.sequence.Some? && m.sequence.value > c.lastSequence }

  function AfterHandle(c: Ctl, m: Message, now: real): Outcome
    requires c.Valid()
  {
    if !Fresh(c, m) then Refused(c)
    else
      var c1 := c.(lastSequence := m.sequence.value);
      if m.payload.None? then Refused(c1)
      else
        var o := AfterDispatch(c1, m.payload.value, now);
        if o.applied then o.(ctl := o.ctl.(lastActivity := Some(now))) else o
  }

  predicate WatchdogExpired(c: Ctl, now: real) {
    c.lastActivity.Some? && now - c.lastActivity.value >= c.watchdogSeconds
  }

  function AfterTick(c: Ctl, now: real): Outcome {
    if WatchdogExpired(c, now) then Outcome(Released(c).(lastActivity := None), true, UpCalls(c.buttons, c.keys))
    else Refused(c)
  }

  function AfterSourceSize(c: Ctl, width: int, height: int): Ctl {
    if width > 0 && height > 0 then c.(source := Some((width, height))) else c
  }

  function AfterFrameSize(c: Ctl, width: int, height: int): Ctl {
    if width > 0 && height > 0 then c.(frameWidth := width, frameHeight := height) else c
  }

  // ---------------------------------------------------------------- the order of a release

  /** Python's order on strings: by code point, a prefix first. */
  predicate AtMost(a: string, b: string) {
    a == [] || (b != [] && (a[0] < b[0] || (a[0] == b[0] && AtMost(a[1..], b[1..]))))
  }

  lemma {:induction false} AtMostIsTotal(a: string, b: string)
    ensures AtMost(a, b) || AtMost(b, a)
    ensures AtMost(a, b) && AtMost(b, a) ==> a == b
  {
    if a == [] || b == [] {
    } else {
      AtMostIsTotal(a[1..], b[1..]);
      assert a == [a[0]] + a[1..] && b == [b[0]] + b[1..];
    }
  }

  lemma {:induction false} AtMostIsTransitive(a: string, b: string, c: string)
    requires AtMost(a, b) && AtMost(b, c)
    ensures AtMost(a, c)
  {
    if a == [] {
    } else if a[0] == b[0] && b[0] == c[0] {
      AtMostIsTransitive(a[1..], b[1..], c[1..]);
    }
  }

  predicate IsLeast(key: string, keys: set<string>) { key in keys && forall k :: k in keys ==> AtMost(key, k) }

  lemma {:induction false} LeastExists(keys: set<string>)
    requires keys != {}
    ensures exists least :: IsLeast(least, keys)
  {
    var key :| key in keys;
    AtMostIsTotal(key, key);
    var rest := keys - {key};
    if rest == {} {
      assert forall k :: k in keys ==> k == key || k in rest;
      assert IsLeast(key, keys);
    } else {
      LeastExists(rest);
      var other :| IsLeast(other, rest);
      AtMostIsTotal(key, other);
      var least := if AtMost(key, other) then key else other;
      forall k | k in keys ensures AtMost(least, k) {
        if k != key && least == key {
          AtMostIsTransitive(key, other, k);
        }
      }
      assert IsLeast(least, keys);
    }
  }

  lemma LeastIsUnique(keys: set<string>)
    ensures forall a, b :: IsLeast(a, keys) && IsLeast(b, keys) ==> a == b
  {
    forall a, b | IsLeast(a, keys) && IsLeast(b, keys) ensures a == b {
      AtMostIsTotal(a, b);
    }
  }

  function LeastKey(keys: set<string>): (least: string)
    requires keys != {}
    ensures IsLeast(least, keys)
  {
    LeastExists(keys);
    LeastIsUnique(keys);
    var key :| key in keys && IsLeast(key, keys);
    key
  }

  function FirstButton(buttons: set<ButtonName>): (first: ButtonName)
    requires buttons != {}
    ensures first in buttons
  {
    if Left in buttons then Left
    else if Middle in buttons then Middle
    else if Right in buttons then Right
    else
      assert UnknownButton in buttons by {
        var b :| b in buttons;
        assert b == Left || b == Middle || b == Right || b == UnknownButton;
      }
      UnknownButton
  }

  /** The order is the dictionary's: a prefix of the other, or smaller where they first differ. */
  lemma {:induction false} AtMostIsDictionaryOrder(a: string, b: string)
    ensures AtMost(a, b) <==>
              || a <= b
              || exists k :: 0 <= k < |a| && k < |b| && a[..k] == b[..k] && a[k] < b[k]
  {
    if a == [] || b == [] {
    } else if a[0] != b[0] {
      if a[0] < b[0] {
        assert a[..0] == b[..0];
      }
      forall k | 0 < k < |a| && k < |b| ensures a[..k] != b[..k] {
        assert a[..k][0] == a[0] && b[..k][0] == b[0];
      }
    } else {
      AtMostIsDictionaryOrder(a[1..], b[1..]);
      assert a == [a[0]] + a[1..] && b == [b[0]] + b[1..];
      if k: int :| 0 <= k < |a[1..]| && k < |b[1..]| && a[1..][..k] == b[1..][..k] && a[1..][k] < b[1..][k] {
        assert a[..k + 1] == [a[0]] + a[1..][..k] && b[..k + 1] == [b[0]] + b[1..][..k];
      }
      if k: int :| 0 <= k < |a| && k < |b| && a[..k] == b[..k] && a[k] < b[k] {
        assert a[1..][..k - 1] == a[..k][1..] && b[1..][..k - 1] == b[..k][1..];
        assert a[1..][k - 1] < b[1..][k - 1];
      }
    }
  }

  /** One up for each button, in the order of their names. */
  function ButtonUps(buttons: set<ButtonName>): seq<SinkCall> {
    if buttons == {} then []
    else [MouseButton(FirstButton(buttons), Up)] + ButtonUps(buttons - {FirstButton(buttons)})
  }

  /** One up for each key, in the order of their codes. */
  function KeyUps(keys: set<string>): seq<SinkCall> {
    if keys == {} then [] else [Key(LeastKey(keys), Up)] + KeyUps(keys - {LeastKey(keys)})
  }

  /** The calls for a set of keys are exactly its ups, each once, strictly ascending. */
  lemma {:induction false} KeyUpsAreSorted(keys: set<string>)
    ensures forall call :: call in KeyUps(keys) <==> call.Key? && call.action == Up && call.code in keys
    ensures forall i, j :: 0 <= i < j < |KeyUps(keys)| ==>
              AtMost(KeyUps(keys)[i].code, KeyUps(keys)[j].code) && KeyUps(keys)[i] != KeyUps(keys)[j]
  {
    if keys == {} {
    } else {
      var rest := KeyUps(keys - {LeastKey(keys)});
      KeyUpsAreSorted(keys - {LeastKey(keys)});
      assert forall j :: 0 <= j < |rest| ==> rest[j] in rest;
    }
  }

  /** Left comes up before middle, and middle before right. */
  lemma ButtonUpsInOrder(buttons: set<ButtonName>)
    requires UnknownButton !in buttons
    ensures ButtonUps(buttons) ==
              (if Left in buttons then [MouseButton(Left, Up)] else [])
              + (if Middle in buttons then [MouseButton(Middle, Up)] else [])
              + (if Right in buttons then [MouseButton(Right, Up)] else [])
  {
    ButtonUpsFirst(buttons);
    ButtonUpsFirst(buttons - {Left});
    ButtonUpsFirst(buttons - {Left} - {Middle});
    hide ButtonUps;
    assert Left !in buttons ==> buttons - {Left} == buttons;
    assert Middle !in buttons ==> buttons - {Left} - {Middle} == buttons - {Left};
    assert buttons - {Left} - {Middle} - {Right} == {} by {
      forall b | b in buttons ensures b in {Left, Middle, Right} {
        assert b == Left || b == Middle || b == Right || b == UnknownButton;
      }
    }
  }

  lemma ButtonUpsFirst(buttons: set<ButtonName>)
    ensures ButtonUps({}) == []
    ensures buttons != {} ==>
              ButtonUps(buttons) == [MouseButton(FirstButton(buttons),
                                                 Up)] + ButtonUps(buttons - {FirstButton(buttons)})
  {
  }

  // ---------------------------------------------------------------- what the host machine holds

  /** The keys down after a call log, read off the log alone. */
  function HeldKeys(log: seq<SinkCall>): set<string> {
    if log == [] then {}
    else
      var held := HeldKeys(log[..|log| - 1]);
      var call := log[|log| - 1];
      if !call.Key? then held
      else if call.action == Down then held + {call.code} else held - {call.code}
  }

  function HeldButtons(log: seq<SinkCall>): set<ButtonName> {
    if log == [] then {}
    else
      var held := HeldButtons(log[..|log| - 1]);
      var call := log[|log| - 1];
      if !call.MouseButton? then held
      else if call.action == Down then held + {call.button} else held - {call.button}
  }

  /** `log` is `before` followed by `calls` in some order. */
  ghost predicate Extends(before: seq<SinkCall>, log: seq<SinkCall>, calls: multiset<SinkCall>) {
    && |before| <= |log| && log[..|before|] == before
    && multiset(log[|before|..]) == calls
  }

  lemma HeldAfterOne(log: seq<SinkCall>, call: SinkCall)
    ensures (log + [call])[..|log|] == log
    ensures Extends(log, log + [call], multiset{call})
  {
    assert (log + [call])[|log|..] == [call];
  }

  lemma ExtendsOnce(before: seq<SinkCall>, log: seq<SinkCall>, calls: multiset<SinkCall>, call: SinkCall)
    requires Extends(before, log, calls)
    ensures Extends(before, log + [call], calls + multiset{call})
  {
    assert (log + [call])[|before|..] == log[|before|..] + [call];
  }

  /** The injection backend: an append-only record of what reached the host. */
  class Sink {
    var calls: seq<SinkCall>

    constructor ()
      ensures calls == []
    {
      calls := [];
    }

    method Record(call: SinkCall)
      modifies this
      ensures calls == old(calls) + [call]
    {
      calls := calls + [call];
    }
  }

  class InputController {
    const sink: Sink
    const rateLimitPerSecond: int
    const actionRateLimitPerSecond: int
    const watchdogSeconds: real
    var frameWidth: int
    var frameHeight: int
    var source: Option<(int, int)>
    var lastSequence: int
    var pressedButtons: set<ButtonName>
    var pressedKeys: set<string>
    var moveTimes: seq<real>
    var actionTimes: seq<real>
    var lastActivity: Option<real>

    function View(): Ctl
      reads this
    {
      Ctl(rateLimitPerSecond, actionRateLimitPerSecond, watchdogSeconds, frameWidth, frameHeight, source,
          lastSequence, pressedButtons, pressedKeys, moveTimes, actionTimes, lastActivity)
    }

    predicate Valid()
      reads this
    {
      View().Valid()
    }

    /** The tracked state is exactly what the host still holds down. */
    ghost predicate Faithful()
      reads this, sink
    {
      HeldButtons(sink.calls) == pressedButtons && HeldKeys(sink.calls) == pressedKeys
    }

    constructor (sink: Sink, frameWidth: int, frameHeight: int,
                 rateLimit: int := 120, actionLimit: int := 60, watchdog: real := 3.0)
      requires frameWidth > 0 && frameHeight > 0
      ensures this.sink == sink
      ensures View() == NewCtl(frameWidth, frameHeight, rateLimit, actionLimit, watchdog)
    {
      this.sink := sink;
      this.rateLimitPerSecond, this.actionRateLimitPerSecond, this.watchdogSeconds := rateLimit, actionLimit, watchdog;
      this.frameWidth, this.frameHeight, this.source := frameWidth, frameHeight, None;
      lastSequence, pressedButtons, pressedKeys := -1, {}, {};
      moveTimes, actionTimes, lastActivity := [], [], None;
    }

    method SetSourceSize(width: int, height: int)
      requires Valid()
      modifies this`source
      ensures Valid() && View() == AfterSourceSize(old(View()), width, height)
    {
      if width > 0 && height > 0 {
        source := Some((width, height));
      }
    }

    method SetFrameSize(width: int, height: int)
      requires Valid()
      modifies this`frameWidth, this`frameHeight
      ensures Valid() && View() == AfterFrameSize(old(View()), width, height)
    {
      if width > 0 && height > 0 {
        frameWidth, frameHeight := width, height;
      }
    }

    method Handle(message: Message, now: real) returns (applied: bool)
      requires Valid()
      modifies this, sink
      ensures Valid()
      ensures var o := AfterHandle(old(View()), message, now);
              View() == o.ctl && applied == o.applied && Extends(old(sink.calls), sink.calls, o.calls)
      ensures old(Faithful()) ==> Faithful()
    {
      if message.sequence.None? || message.sequence.value <= lastSequence {
        return false;
      }
      lastSequence := message.sequence.value;
      if message.payload.None? {
        return false;
      }
      applied := Dispatch(message.payload.value, now);
      if applied {
        lastActivity := Some(now);
      }
    }

    method Dispatch(p: Payload, now: real) returns (applied: bool)
      requires Valid()
      modifies this`moveTimes, this`actionTimes, this`pressedButtons, this`pressedKeys, sink
      ensures var o := AfterDispatch(old(View()), p, now);
              View() == o.ctl && applied == o.applied && Extends(old(sink.calls), sink.calls, o.calls)
      ensures old(Faithful()) ==> Faithful()
    {
      if p.PointerMove? {
        applied := Move(p.x, p.y, now);
        return;
      }
      if p.ReleaseEverything? {
        ReleaseAll();
        return true;
      }
      if !IsAction(p) {
        return false;
      }
      if !IsRelease(p) {
        var allowed := AllowAction(now);
        if !allowed {
          return false;
        }
      }
      applied := Act(p);
    }

    method AllowAction(now: real) returns (allowed: bool)
      modifies this`actionTimes
      ensures var admission := DequeAdmit(old(actionTimes), now, actionRateLimitPerSecond, 1.0, HalfOpen);
              allowed == admission.allowed && actionTimes == admission.timestamps
    {
      while actionTimes != [] && now - actionTimes[0] >= 1.0
        invariant DropExpired(actionTimes, now, 1.0, HalfOpen) == DropExpired(old(actionTimes), now, 1.0, HalfOpen)
        decreases |actionTimes|
      {
        actionTimes := actionTimes[1..];
      }
      if |actionTimes| >= actionRateLimitPerSecond {
        return false;
      }
      actionTimes := actionTimes + [now];
      return true;
    }

    method Move(x: Option<real>, y: Option<real>, now: real) returns (applied: bool)
      requires Valid()
      modifies this`moveTimes, sink
      ensures var o := AfterMove(old(View()), x, y, now);
              View() == o.ctl && applied == o.applied && Extends(old(sink.calls), sink.calls, o.calls)
      ensures HeldButtons(sink.calls) == old(HeldButtons(sink.calls))
                && HeldKeys(sink.calls) == old(HeldKeys(sink.calls))
    {
      hide G.FrameToDesktopAbsolute;
      if source.None? || !IsUnit(x) || !IsUnit(y) {
        return false;
      }
      while moveTimes != [] && now - moveTimes[0] > 1.0
        invariant DropExpired(moveTimes, now, 1.0, Closed) == DropExpired(old(moveTimes), now, 1.0, Closed)
        modifies this`moveTimes
        decreases |moveTimes|
      {
        moveTimes := moveTimes[1..];
      }
      if |moveTimes| >= rateLimitPerSecond {
        return false;
      }
      moveTimes := moveTimes + [now];
      G.FramePointMapsIffOverContent(x.value, y.value, source.value.0, source.value.1, frameWidth, frameHeight);
      var point := G.FrameToDesktopAbsolute(x.value, y.value, source.value.0, source.value.1, frameWidth,
                                            frameHeight).value;
      if point.None? {
        return false;
      }
      HeldAfterOne(sink.calls, MoveAbsolute(point.value.x, point.value.y));
      sink.Record(MoveAbsolute(point.value.x, point.value.y));
      return true;
    }

    /** Buttons, wheel, keys and text, once past the action limiter. */
    method Act(p: Payload) returns (applied: bool)
      requires IsAction(p)
      modifies this`pressedButtons, this`pressedKeys, sink
      ensures var o := AfterAction(old(View()), p);
              View() == o.ctl && applied == o.applied && Extends(old(sink.calls), sink.calls, o.calls)
      ensures old(Faithful()) ==> Faithful()
    {
      var call: SinkCall;
      match p {
        case PointerButton(button, action) =>
          if button == UnknownButton || action == UnknownAction {
            return false;
          }
          pressedButtons := if action == Down then pressedButtons + {button} else pressedButtons - {button};
          call := MouseButton(button, action);
        case PointerWheel(deltaX, deltaY) =>
          if !IsWheel(deltaX) || !IsWheel(deltaY) {
            return false;
          }
          call := Wheel(deltaX.value, deltaY.value);
        case KeyDown(code) =>
          if code.None? || !KeyCodes.AgentKey(code.value) {
            return false;
          }
          pressedKeys := pressedKeys + {code.value};
          call := Key(code.value, Down);
        case KeyUp(code) =>
          if code.None? || !KeyCodes.AgentKey(code.value) {
            return false;
          }
          pressedKeys := pressedKeys - {code.value};
          call := Key(code.value, Up);
        case TextInput(text) =>
          if text.None? || !IsSafeText(text.value) {
            return false;
          }
          call := TypeText(text.value);
      }
      HeldAfterOne(sink.calls, call);
      sink.Record(call);
      return true;
    }

    /** Releases every tracked button, then every tracked key; harmless when nothing is held. */
    method ReleaseAll()
      modifies this`pressedButtons, this`pressedKeys, sink
      ensures View() == Released(old(View()))
      ensures sink.calls == old(sink.calls) + ButtonUps(old(pressedButtons)) + KeyUps(old(pressedKeys))
      ensures Extends(old(sink.calls), sink.calls, UpCalls(old(pressedButtons), old(pressedKeys)))
      ensures HeldButtons(sink.calls) == old(HeldButtons(sink.calls)) - old(pressedButtons)
      ensures HeldKeys(sink.calls) == old(HeldKeys(sink.calls)) - old(pressedKeys)
    {
      hide UpCalls, Extends, HeldKeys, HeldButtons, IsLeast;
      ghost var before := sink.calls;
      ReleaseButtons();
      ghost var between := sink.calls;
      ReleaseKeys();
      ReleasedInOrder(before, between, sink.calls, pressedButtons, pressedKeys);
      pressedButtons, pressedKeys := {}, {};
    }

    method ReleaseButtons()
      modifies sink
      ensures sink.calls == old(sink.calls) + ButtonUps(pressedButtons)
    {
      var buttons := pressedButtons;
      while buttons != {}
        invariant sink.calls + ButtonUps(buttons) == old(sink.calls) + ButtonUps(pressedButtons)
        decreases buttons
      {
        var b := FirstButton(buttons);
        sink.Record(MouseButton(b, Up));
        buttons := buttons - {b};
      }
    }

    method ReleaseKeys()
      modifies sink
      ensures sink.calls == old(sink.calls) + KeyUps(pressedKeys)
    {
      hide IsLeast;
      var keys := pressedKeys;
      while keys != {}
        invariant sink.calls + KeyUps(keys) == old(sink.calls) + KeyUps(pressedKeys)
        decreases keys
      {
        var k := LeastKey(keys);
        LeastIsIn(keys);
        sink.Record(Key(k, Up));
        keys := keys - {k};
      }
    }

    method OnWatchdogTick(now: real) returns (fired: bool)
      requires Valid()
      modifies this, sink
      ensures Valid()
      ensures var o := AfterTick(old(View()), now);
              View() == o.ctl && fired == o.applied && Extends(old(sink.calls), sink.calls, o.calls)
      ensures old(Faithful()) ==> Faithful()
    {
      if lastActivity.Some? && now - lastActivity.value >= watchdogSeconds {
        ReleaseAll();
        lastActivity := None;
        return true;
      }
      return false;
    }
  }

  lemma LeastIsIn(keys: set<string>)
    requires keys != {}
    ensures LeastKey(keys) in keys
  {
  }

  lemma ReleaseNone(log: seq<SinkCall>)
    ensures Extends(log, log, UpCalls({}, {}))
  {
  }

  lemma ReleaseButton(before: seq<SinkCall>, log: seq<SinkCall>, done: set<ButtonName>, b: ButtonName)
    requires Extends(before, log, UpCalls(done, {})) && b !in done
    ensures Extends(before, log + [MouseButton(b, Up)], UpCalls(done + {b}, {}))
    ensures HeldButtons(log + [MouseButton(b, Up)]) == HeldButtons(log) - {b}
    ensures HeldKeys(log + [MouseButton(b, Up)]) == HeldKeys(log)
  {
    var ups := set x | x in done :: MouseButton(x, Up);
    assert (set x | x in done + {b} :: MouseButton(x, Up)) == ups + {MouseButton(b, Up)};
    assert MouseButton(b, Up) !in ups;
    ExtendsOnce(before, log, UpCalls(done, {}), MouseButton(b, Up));
    HeldAfterOne(log, MouseButton(b, Up));
  }

  lemma ReleaseKey(before: seq<SinkCall>, log: seq<SinkCall>, buttons: set<ButtonName>, done: set<string>, k: string)
    requires Extends(before, log, UpCalls(buttons, done)) && k !in done
    ensures Extends(before, log + [Key(k, Up)], UpCalls(buttons, done + {k}))
    ensures HeldKeys(log + [Key(k, Up)]) == HeldKeys(log) - {k}
    ensures HeldButtons(log + [Key(k, Up)]) == HeldButtons(log)
  {
    var ups := set x | x in done :: Key(x, Up);
    assert (set x | x in done + {k} :: Key(x, Up)) == ups + {Key(k, Up)};
    assert Key(k, Up) !in ups;
    ExtendsOnce(before, log, UpCalls(buttons, done), Key(k, Up));
    HeldAfterOne(log, Key(k, Up));
  }

  lemma {:induction false} ButtonsReleased(before: seq<SinkCall>, log: seq<SinkCall>, done: set<ButtonName>,
                                           left: set<ButtonName>)
    requires Extends(before, log, UpCalls(done, {})) && done !! left
    ensures var after := log + ButtonUps(left);
            && Extends(before, after, UpCalls(done + left, {}))
            && HeldButtons(after) == HeldButtons(log) - left && HeldKeys(after) == HeldKeys(log)
    decreases left
  {
    hide UpCalls, Extends, HeldButtons, HeldKeys;
    if left == {} {
      assert log + ButtonUps(left) == log && done + left == done;
    } else {
      var b := FirstButton(left);
      ReleaseButton(before, log, done, b);
      ButtonsReleased(before, log + [MouseButton(b, Up)], done + {b}, left - {b});
      assert log + [MouseButton(b, Up)] + ButtonUps(left - {b}) == log + ButtonUps(left);
      assert done + {b} + (left - {b}) == done + left;
    }
  }

  lemma KeyUpsFirst(keys: set<string>)
    ensures keys == {} ==> KeyUps(keys) == []
    ensures keys != {} ==>
              LeastKey(keys) in keys && KeyUps(keys) == [Key(LeastKey(keys), Up)] + KeyUps(keys - {LeastKey(keys)})
  {
    hide IsLeast;
    if keys != {} {
      LeastIsIn(keys);
    }
  }

  lemma {:induction false} KeysReleased(before: seq<SinkCall>, log: seq<SinkCall>, buttons: set<ButtonName>,
                                        done: set<string>, left: set<string>)
    requires Extends(before, log, UpCalls(buttons, done)) && done !! left
    ensures var after := log + KeyUps(left);
            && Extends(before, after, UpCalls(buttons, done + left))
            && HeldKeys(after) == HeldKeys(log) - left && HeldButtons(after) == HeldButtons(log)
    decreases left
  {
    KeyUpsFirst(left);
    hide UpCalls, Extends, HeldButtons, HeldKeys, IsLeast, KeyUps;
    if left == {} {
      assert log + KeyUps(left) == log && done + left == done;
    } else {
      var k := LeastKey(left);
      ReleaseKey(before, log, buttons, done, k);
      KeysReleased(before, log + [Key(k, Up)], buttons, done + {k}, left - {k});
      assert log + [Key(k, Up)] + KeyUps(left - {k}) == log + KeyUps(left);
      assert done + {k} + (left - {k}) == done + left;
    }
  }

  lemma ReleasedInOrder(before: seq<SinkCall>, between: seq<SinkCall>, after: seq<SinkCall>,
                        buttons: set<ButtonName>, keys: set<string>)
    requires between == before + ButtonUps(buttons) && after == between + KeyUps(keys)
    ensures Extends(before, after, UpCalls(buttons, keys))
    ensures HeldButtons(after) == HeldButtons(before) - buttons && HeldKeys(after) == HeldKeys(before) - keys
  {
    hide UpCalls, Extends, HeldButtons, HeldKeys;
    ReleaseNone(before);
    ButtonsReleased(before, before, {}, buttons);
    assert {} + buttons == buttons;
    KeysReleased(before, between, buttons, {}, keys);
    var none: set<string> := {};
    assert none + keys == keys;
  }
}
