/**
 The viewer's keyboard capture: which key messages it sends, and how it repairs Shift
 events that the browser lost.
 */
module ViewerKeys {
  import opened KeyCodes

  /** What reaches the control channel from the keyboard handlers and the toolbar. */
  datatype Sent = KeyMessage(code: string, down: bool) | ReleaseAllMessage

  datatype LogicalKey = Hangul | Hanja | OtherLogical

  datatype KeyEvent = KeyEvent(logical: LogicalKey, code: string, repeats: bool, shiftKey: bool,
                               interactiveTarget: bool)

  function RemoteCode(e: KeyEvent): string {
    match e.logical
    case Hangul => "Lang1"
    case Hanja => "Lang2"
    case OtherLogical => e.code
  }

  /** `shiftSynthesized` stands for the viewer's `synthesizedShift`, whose only value is ShiftLeft. */
  datatype Keyboard = Keyboard(forwarded: set<string>, shiftSynthesized: bool)

  datatype Reaction = Reaction(keyboard: Keyboard, sent: seq<Sent>)

  predicate Forwards(e: KeyEvent) {
    !e.repeats && !e.interactiveTarget && ViewerKey(RemoteCode(e))
  }

  /** Any Shift still believed pressed is released before an unshifted key. */
  function DropLostShift(k: Keyboard): Reaction {
    var left := if "ShiftLeft" in k.forwarded then [KeyMessage("ShiftLeft", false)] else [];
    var right := if "ShiftRight" in k.forwarded then [KeyMessage("ShiftRight", false)] else [];
    Reaction(Keyboard(k.forwarded - {"ShiftLeft", "ShiftRight"}, false), left + right)
  }

  function RepairShift(k: Keyboard, e: KeyEvent): Reaction {
    if StartsWithShift(RemoteCode(e)) then Reaction(k, [])
    else if !e.shiftKey then DropLostShift(k)
    else if "ShiftLeft" in k.forwarded || "ShiftRight" in k.forwarded then Reaction(k, [])
    else Reaction(Keyboard(k.forwarded + {"ShiftLeft"}, true), [KeyMessage("ShiftLeft", true)])
  }

  function OnKeyDown(k: Keyboard, e: KeyEvent): Reaction {
    if !Forwards(e) then Reaction(k, [])
    else
      var repaired := RepairShift(k, e);
      Reaction(repaired.keyboard.(forwarded := repaired.keyboard.forwarded + {RemoteCode(e)}),
               repaired.sent + [KeyMessage(RemoteCode(e), true)])
  }

  predicate ProcessesKeyUp(k: Keyboard, e: KeyEvent) {
    var code := RemoteCode(e);
    ViewerKey(code) && !(e.interactiveTarget && code !in k.forwarded && !StartsWithShift(code))
  }

  function OnKeyUp(k: Keyboard, e: KeyEvent): Reaction {
    var code := RemoteCode(e);
    if !ProcessesKeyUp(k, e) then Reaction(k, [])
    else if StartsWithShift(code) then
      var repairFirst := k.shiftSynthesized && code != "ShiftLeft";
      Reaction(Keyboard(k.forwarded - (if repairFirst then {"ShiftLeft"} else {}) - {code}, false),
               (if repairFirst then [KeyMessage("ShiftLeft", false)] else []) + [KeyMessage(code, false)])
    else
      Reaction(Keyboard(k.forwarded - {code} - (if k.shiftSynthesized then {"ShiftLeft"} else {}), false),
               [KeyMessage(code, false)] + (if k.shiftSynthesized then [KeyMessage("ShiftLeft", false)] else []))
  }

  function Chord(codes: seq<string>): seq<Sent> {
    if codes == [] then [] else [KeyMessage(codes[0], true)] + Chord(codes[1..]) + [KeyMessage(codes[0], false)]
  }

  /** Everything that makes the viewer send key traffic: the capture handlers, plus the
      toolbar's key chords and its explicit release. */
  datatype Event =
    | Pressed(e: KeyEvent)
    | Lifted(e: KeyEvent)
    | FocusLost
    | PointerCancelled
    | OutsideRelease
    | ToolbarChord(codes: seq<string>)

  function React(k: Keyboard, event: Event): Reaction {
    match event
    case Pressed(e) => OnKeyDown(k, e)
    case Lifted(e) => OnKeyUp(k, e)
    case FocusLost => Reaction(Keyboard({}, false), [ReleaseAllMessage])
    case PointerCancelled => Reaction(k, [ReleaseAllMessage])
    case OutsideRelease => Reaction(k, [ReleaseAllMessage])
    case ToolbarChord(codes) => Reaction(k, Chord(codes))
  }

  const IDLE := Keyboard({}, false)

  function AfterEvents(events: seq<Event>): Keyboard {
    if events == [] then IDLE
    else React(AfterEvents(events[..|events| - 1]), events[|events| - 1]).keyboard
  }

  function SentBy(events: seq<Event>): seq<Sent> {
    if events == [] then []
    else
      SentBy(events[..|events| - 1])
      + React(AfterEvents(events[..|events| - 1]), events[|events| - 1]).sent
  }

  function Applied(held: set<string>, m: Sent): set<string> {
    match m
    case KeyMessage(code, down) => if down then held + {code} else held - {code}
    case ReleaseAllMessage => {}
  }

  /** The keys down on a remote that starts with `held` and applies every message. */
  function Remote(held: set<string>, sent: seq<Sent>): set<string> {
    if sent == [] then held
    else Applied(Remote(held, sent[..|sent| - 1]), sent[|sent| - 1])
  }

  predicate HoldsShift(held: set<string>) { "ShiftLeft" in held || "ShiftRight" in held }

  /** The event handlers, over the variables they share. */
  class KeyCapture {
    var forwardedKeys: set<string>
    var shiftSynthesized: bool
    var sent: seq<Sent>

    function View(): Keyboard
      reads this
    {
      Keyboard(forwardedKeys, shiftSynthesized)
    }

    constructor ()
      ensures View() == IDLE && sent == []
    {
      forwardedKeys, shiftSynthesized, sent := {}, false, [];
    }

    method SendKey(code: string, down: bool)
      modifies this`sent
      ensures sent == old(sent) + [KeyMessage(code, down)]
    {
      sent := sent + [KeyMessage(code, down)];
    }

    method HandleKeyDown(e: KeyEvent)
      modifies this
      ensures View() == React(old(View()), Pressed(e)).keyboard
      ensures sent == old(sent) + React(old(View()), Pressed(e)).sent
    {
      var remoteCode := RemoteCode(e);
      if !Forwards(e) {
        return;
      }
      if !e.shiftKey && !StartsWithShift(remoteCode) {
        var shiftCodes := ["ShiftLeft", "ShiftRight"];
        for i := 0 to 2
          invariant i == 0 ==> forwardedKeys == old(forwardedKeys)
          invariant i == 1 ==> forwardedKeys == old(forwardedKeys) - {"ShiftLeft"}
          invariant i == 2 ==> forwardedKeys == old(forwardedKeys) - {"ShiftLeft", "ShiftRight"}
          invariant shiftSynthesized == old(shiftSynthesized)
          invariant i == 0 ==> sent == old(sent)
          invariant i == 1 && "ShiftLeft" in old(forwardedKeys) ==> sent == old(sent) + [KeyMessage("ShiftLeft", false)]
          invariant i == 1 && "ShiftLeft" !in old(forwardedKeys) ==> sent == old(sent)
          invariant i == 2 ==> sent == old(sent) + DropLostShift(old(View())).sent
        {
          if shiftCodes[i] in forwardedKeys {
            SendKey(shiftCodes[i], false);
            forwardedKeys := forwardedKeys - {shiftCodes[i]};
          }
        }
        shiftSynthesized := false;
      }
      if e.shiftKey && !StartsWithShift(remoteCode) && "ShiftLeft" !in forwardedKeys && "ShiftRight" !in forwardedKeys {
        SendKey("ShiftLeft", true);
        forwardedKeys := forwardedKeys + {"ShiftLeft"};
        shiftSynthesized := true;
      }
      SendKey(remoteCode, true);
      forwardedKeys := forwardedKeys + {remoteCode};
    }

    method HandleKeyUp(e: KeyEvent)
      modifies this
      ensures View() == React(old(View()), Lifted(e)).keyboard
      ensures sent == old(sent) + React(old(View()), Lifted(e)).sent
    {
      var remoteCode := RemoteCode(e);
      if !ViewerKey(remoteCode) {
        return;
      }
      var isShiftRelease := StartsWithShift(remoteCode);
      var wasForwarded := remoteCode in forwardedKeys;
      if e.interactiveTarget && !wasForwarded && !isShiftRelease {
        return;
      }
      if isShiftRelease && shiftSynthesized && "ShiftLeft" != remoteCode {
        SendKey("ShiftLeft", false);
        forwardedKeys := forwardedKeys - {"ShiftLeft"};
        shiftSynthesized := false;
      }
      SendKey(remoteCode, false);
      forwardedKeys := forwardedKeys - {remoteCode};
      if shiftSynthesized && "ShiftLeft" == remoteCode {
        shiftSynthesized := false;
      } else if !isShiftRelease && shiftSynthesized {
        SendKey("ShiftLeft", false);
        forwardedKeys := forwardedKeys - {"ShiftLeft"};
        shiftSynthesized := false;
      }
    }

    method ReleaseAll()
      modifies this
      ensures View() == React(old(View()), FocusLost).keyboard
      ensures sent == old(sent) + React(old(View()), FocusLost).sent
    {
      sent := sent + [ReleaseAllMessage];
      forwardedKeys := {};
      shiftSynthesized := false;
    }

    /** The remote is told to release, but the viewer's own record is left as it was. */
    method HandlePointerCancel()
      modifies this`sent
      ensures View() == React(old(View()), PointerCancelled).keyboard
      ensures sent == old(sent) + React(old(View()), PointerCancelled).sent
    {
      sent := sent + [ReleaseAllMessage];
    }
  }

  // ---------------------------------------------------------------- folding what was sent

  lemma {:induction false} RemoteConcat(held: set<string>, a: seq<Sent>, b: seq<Sent>)
    ensures Remote(held, a + b) == Remote(Remote(held, a), b)
  {
    if b == [] {
      assert a + b == a;
    } else {
      RemoteConcat(held, a, b[..|b| - 1]);
      assert (a + b)[..|a + b| - 1] == a + b[..|b| - 1];
    }
  }

  lemma RemoteOne(held: set<string>, m: Sent)
    ensures Remote(held, [m]) == Applied(held, m)
  {
    assert [m][..0] == [];
  }

  lemma {:induction false} RemoteMonotone(small: set<string>, large: set<string>, sent: seq<Sent>)
    requires small <= large
    ensures Remote(small, sent) <= Remote(large, sent)
  {
    if sent == [] {
    } else {
      RemoteMonotone(small, large, sent[..|sent| - 1]);
    }
  }

  function Named(codes: seq<string>): set<string> {
    set i | 0 <= i < |codes| :: codes[i]
  }

  /** A chord leaves nothing of its own behind; it can only take keys away. */
  lemma {:induction false} ChordLeavesNothing(held: set<string>, codes: seq<string>)
    ensures Remote(held, Chord(codes)) == held - Named(codes)
    decreases codes
  {
    if codes == [] {
      assert Named(codes) == {};
    } else {
      var code, inner := codes[0], Chord(codes[1..]);
      RemoteConcat(held, [KeyMessage(code, true)] + inner, [KeyMessage(code, false)]);
      RemoteConcat(held, [KeyMessage(code, true)], inner);
      RemoteOne(held, KeyMessage(code, true));
      ChordLeavesNothing(held + {code}, codes[1..]);
      RemoteOne(Remote(held + {code}, inner), KeyMessage(code, false));
      assert Named(codes) == {code} + Named(codes[1..]);
    }
  }

  /** A remote holding `held` sees no more than two messages from a handler, folded here. */
  lemma RemoteTwo(held: set<string>, a: Sent, b: Sent)
    ensures Remote(held, [a, b]) == Remote(Remote(held, [a]), [b])
  {
    RemoteConcat(held, [a], [b]);
    assert [a] + [b] == [a, b];
  }

  // ---------------------------------------------------------------- one event

  /** Events after which the remote can hold less than the viewer believes. */
  predicate ReleasesBehindTheKeyboard(event: Event) {
    event.PointerCancelled? || event.OutsideRelease? || event.ToolbarChord?
  }

  ghost predicate Sound(k: Keyboard) {
    && (k.shiftSynthesized ==> "ShiftLeft" in k.forwarded)
    && forall code :: code in k.forwarded ==> ViewerKey(code)
  }

  lemma RepairTracksRemote(k: Keyboard, e: KeyEvent)
    ensures var r := RepairShift(k, e); Remote(k.forwarded, r.sent) == r.keyboard.forwarded
  {
    var r := RepairShift(k, e);
    var held := k.forwarded;
    RemoteOne(held, KeyMessage("ShiftLeft", false));
    RemoteOne(held, KeyMessage("ShiftRight", false));
    RemoteOne(held - {"ShiftLeft"}, KeyMessage("ShiftRight", false));
    RemoteOne(held, KeyMessage("ShiftLeft", true));
    RemoteTwo(held, KeyMessage("ShiftLeft", false), KeyMessage("ShiftRight", false));
    if !StartsWithShift(RemoteCode(e)) && !e.shiftKey && "ShiftLeft" in held && "ShiftRight" in held {
      assert r.sent == [KeyMessage("ShiftLeft", false), KeyMessage("ShiftRight", false)];
    }
  }

  lemma KeyUpTracksRemote(k: Keyboard, e: KeyEvent)
    ensures Remote(k.forwarded, OnKeyUp(k, e).sent) == OnKeyUp(k, e).keyboard.forwarded
  {
    hide ViewerKey, StartsWithShift, Remote;
    var held, code, left := k.forwarded, RemoteCode(e), "ShiftLeft";
    RemoteOne(held, KeyMessage(code, false));
    RemoteOne(held, KeyMessage(left, false));
    RemoteOne(held - {code}, KeyMessage(left, false));
    RemoteOne(held - {left}, KeyMessage(code, false));
    RemoteTwo(held, KeyMessage(code, false), KeyMessage(left, false));
    RemoteTwo(held, KeyMessage(left, false), KeyMessage(code, false));
    RemoteNone(held);
    var r := OnKeyUp(k, e);
    assert r.sent == [] || r.sent == [KeyMessage(code, false)]
           || r.sent == [KeyMessage(code, false), KeyMessage(left, false)]
           || r.sent == [KeyMessage(left, false), KeyMessage(code, false)];
  }

  lemma RemoteNone(held: set<string>)
    ensures Remote(held, []) == held
  {
  }

  /** Starting from agreement, a keyboard handler keeps the remote equal to the viewer's record. */
  lemma HandlersTrackRemote(k: Keyboard, event: Event)
    requires !ReleasesBehindTheKeyboard(event)
    ensures Remote(k.forwarded, React(k, event).sent) == React(k, event).keyboard.forwarded
  {
    hide OnKeyUp, RepairShift, Forwards;
    match event {
      case Pressed(e) =>
        if Forwards(e) {
          RepairTracksRemote(k, e);
          var r := RepairShift(k, e);
          RemoteConcat(k.forwarded, r.sent, [KeyMessage(RemoteCode(e), true)]);
          RemoteOne(r.keyboard.forwarded, KeyMessage(RemoteCode(e), true));
        }
      case Lifted(e) =>
        KeyUpTracksRemote(k, e);
      case FocusLost =>
        RemoteOne(k.forwarded, ReleaseAllMessage);
    }
  }

  /** Whatever the event, a remote holding at most the viewer's record still does afterwards. */
  lemma EventKeepsRemoteWithin(k: Keyboard, event: Event, held: set<string>)
    requires held <= k.forwarded
    ensures Remote(held, React(k, event).sent) <= React(k, event).keyboard.forwarded
  {
    match event {
      case ToolbarChord(codes) => ChordLeavesNothing(held, codes);
      case PointerCancelled => RemoteOne(held, ReleaseAllMessage);
      case OutsideRelease => RemoteOne(held, ReleaseAllMessage);
      case _ =>
        RemoteMonotone(held, k.forwarded, React(k, event).sent);
        HandlersTrackRemote(k, event);
    }
  }

  lemma EventKeepsSound(k: Keyboard, event: Event)
    requires Sound(k)
    ensures Sound(React(k, event).keyboard)
  {
    ShiftLeftIsViewerKey();
    hide ViewerKey, StartsWithShift;
    match event {
      case Lifted(e) =>
        if ViewerKey(RemoteCode(e)) { ShiftPrefixMeansShift(RemoteCode(e)); }
      case Pressed(e) =>
        if ViewerKey(RemoteCode(e)) { ShiftPrefixMeansShift(RemoteCode(e)); }
      case _ =>
    }
  }

  lemma ShiftLeftIsViewerKey()
    ensures ViewerKey("ShiftLeft") && StartsWithShift("ShiftLeft")
  {
    ShiftPrefixMeansShift("ShiftLeft");
  }

  // ---------------------------------------------------------------- main results over runs

  /** A synthesized Shift is always one the viewer will release, and every forwarded key is
      whitelisted, in every run. */
  lemma {:induction false} KeyboardStaysSound(events: seq<Event>)
    ensures Sound(AfterEvents(events))
  {
    if events == [] {
    } else {
      KeyboardStaysSound(events[..|events| - 1]);
      EventKeepsSound(AfterEvents(events[..|events| - 1]), events[|events| - 1]);
    }
  }

  /** A processed key release never leaves a synthesized Shift behind. */
  lemma KeyUpEndsSynthesizedShift(k: Keyboard, e: KeyEvent)
    requires ProcessesKeyUp(k, e)
    ensures var after := React(k, Lifted(e)).keyboard;
            !after.shiftSynthesized && RemoteCode(e) !in after.forwarded
            && (k.shiftSynthesized ==> "ShiftLeft" !in after.forwarded)
  {
    ShiftPrefixMeansShift(RemoteCode(e));
  }

  /** In every run the remote holds no key the viewer does not still consider pressed. */
  lemma {:induction false} RemoteWithinForwarded(events: seq<Event>)
    ensures Remote({}, SentBy(events)) <= AfterEvents(events).forwarded
  {
    if events == [] {
    } else {
      var front, last := events[..|events| - 1], events[|events| - 1];
      RemoteWithinForwarded(front);
      RemoteConcat({}, SentBy(front), React(AfterEvents(front), last).sent);
      EventKeepsRemoteWithin(AfterEvents(front), last, Remote({}, SentBy(front)));
    }
  }

  /** With no release behind the keyboard's back, it holds exactly those keys. */
  lemma {:induction false} RemoteEqualsForwarded(events: seq<Event>)
    requires forall i :: 0 <= i < |events| ==> !ReleasesBehindTheKeyboard(events[i])
    ensures Remote({}, SentBy(events)) == AfterEvents(events).forwarded
  {
    if events == [] {
    } else {
      var front, last := events[..|events| - 1], events[|events| - 1];
      RemoteEqualsForwarded(front);
      RemoteConcat({}, SentBy(front), React(AfterEvents(front), last).sent);
      HandlersTrackRemote(AfterEvents(front), last);
    }
  }

  /** What the remote holds at the moment the pressed key itself arrives. */
  function HeldWhenKeyArrives(events: seq<Event>, e: KeyEvent): set<string> {
    Remote({}, SentBy(events) + RepairShift(AfterEvents(events), e).sent)
  }

  /** An unshifted key never arrives under a held Shift, in any run at all. */
  lemma UnshiftedKeyArrivesUnshifted(events: seq<Event>, e: KeyEvent)
    requires Forwards(e) && !StartsWithShift(RemoteCode(e)) && !e.shiftKey
    ensures !HoldsShift(HeldWhenKeyArrives(events, e))
  {
    var k := AfterEvents(events);
    RemoteWithinForwarded(events);
    RemoteConcat({}, SentBy(events), RepairShift(k, e).sent);
    RemoteMonotone(Remote({}, SentBy(events)), k.forwarded, RepairShift(k, e).sent);
    RepairTracksRemote(k, e);
  }

  /** A shifted key arrives under a held Shift exactly when the remote already held one or
      the viewer believed that none was held and so repaired it. */
  lemma ShiftedKeyArrivesShiftedIff(events: seq<Event>, e: KeyEvent)
    requires Forwards(e) && !StartsWithShift(RemoteCode(e)) && e.shiftKey
    ensures HoldsShift(HeldWhenKeyArrives(events, e)) <==>
              HoldsShift(Remote({}, SentBy(events))) || !HoldsShift(AfterEvents(events).forwarded)
  {
    var k := AfterEvents(events);
    RemoteConcat({}, SentBy(events), RepairShift(k, e).sent);
    RemoteOne(Remote({}, SentBy(events)), KeyMessage("ShiftLeft", true));
  }

  /** In runs with no release behind the keyboard's back that is always. */
  lemma ShiftedKeyArrivesShifted(events: seq<Event>, e: KeyEvent)
    requires Forwards(e) && !StartsWithShift(RemoteCode(e)) && e.shiftKey
    requires forall i :: 0 <= i < |events| ==> !ReleasesBehindTheKeyboard(events[i])
    ensures HoldsShift(HeldWhenKeyArrives(events, e))
  {
    ShiftedKeyArrivesShiftedIff(events, e);
    RemoteEqualsForwarded(events);
  }

  lemma PressIsForwarded(events: seq<Event>, e: KeyEvent)
    requires Forwards(e)
    ensures RemoteCode(e) in AfterEvents(events + [Pressed(e)]).forwarded
  {
    assert (events + [Pressed(e)])[..|events|] == events;
  }

  lemma CancelEmptiesRemoteOnly(events: seq<Event>)
    ensures AfterEvents(events + [PointerCancelled]) == AfterEvents(events)
    ensures Remote({}, SentBy(events + [PointerCancelled])) == {}
  {
    assert (events + [PointerCancelled])[..|events|] == events;
    RemoteConcat({}, SentBy(events), [ReleaseAllMessage]);
    RemoteOne(Remote({}, SentBy(events)), ReleaseAllMessage);
  }

  lemma LetterAIsPlainViewerKey()
    ensures ViewerKey("KeyA") && !StartsWithShift("KeyA")
  {
    assert "KeyA"[..3] == "Key";
    ShiftPrefixMeansShift("KeyA");
  }

  /** The run in which the repair fails: Shift is held, the pointer is cancelled (which
      releases it remotely but not in the viewer's record), and a shifted letter follows. */
  lemma PointerCancelDefeatsShiftRepair()
    ensures var shift := KeyEvent(OtherLogical, "ShiftLeft", false, true, false);
            var letter := KeyEvent(OtherLogical, "KeyA", false, true, false);
            Forwards(letter) && !HoldsShift(HeldWhenKeyArrives([Pressed(shift), PointerCancelled], letter))
  {
    hide ViewerKey, StartsWithShift, AfterEvents, SentBy, Remote, HeldWhenKeyArrives;
    var shift := KeyEvent(OtherLogical, "ShiftLeft", false, true, false);
    var letter := KeyEvent(OtherLogical, "KeyA", false, true, false);
    LetterAIsPlainViewerKey();
    ShiftLeftIsViewerKey();
    PressIsForwarded([], shift);
    CancelEmptiesRemoteOnly([] + [Pressed(shift)]);
    assert [] + [Pressed(shift)] + [PointerCancelled] == [Pressed(shift), PointerCancelled];
    ShiftedKeyArrivesShiftedIff([Pressed(shift), PointerCancelled], letter);
  }

  // ---------------------------------------------------------------- which keys are sent

  /** The code a key goes out under: an IME key by its logical name, any other by its place. */
  function WireCode(e: KeyEvent): string {
    if e.logical == Hangul then "Lang1" else if e.logical == Hanja then "Lang2" else e.code
  }

  /** A press is sent, last and under its own code, and recorded, exactly when it is no repeat, is
      not meant for a control of the page and is whitelisted; otherwise nothing happens. */
  lemma PressIsSentIff(k: Keyboard, e: KeyEvent)
    ensures var r := React(k, Pressed(e));
            if !e.repeats && !e.interactiveTarget && ViewerKey(WireCode(e)) then
              && r.sent != [] && r.sent[|r.sent| - 1] == KeyMessage(WireCode(e), true)
              && WireCode(e) in r.keyboard.forwarded
            else r == Reaction(k, [])
  {
    hide ViewerKey, StartsWithShift;
  }

  /** A lift is sent exactly when its code is whitelisted and either it was forwarded, or the page
      did not claim it, or it is a Shift; otherwise nothing happens. */
  lemma LiftIsSentIff(k: Keyboard, e: KeyEvent)
    ensures var r := React(k, Lifted(e));
            var code := WireCode(e);
            if ViewerKey(code)
               && (code in k.forwarded || !e.interactiveTarget || code == "ShiftLeft" || code == "ShiftRight")
            then KeyMessage(code, false) in r.sent && code !in r.keyboard.forwarded
            else r == Reaction(k, [])
  {
    if ViewerKey(RemoteCode(e)) {
      ShiftPrefixMeansShift(RemoteCode(e));
    }
    hide ViewerKey, StartsWithShift;
    var r, message := React(k, Lifted(e)), KeyMessage(RemoteCode(e), false);
    if r.sent != [] {
      assert r.sent[0] == message || (|r.sent| == 2 && r.sent[1] == message);
    }
  }

  /** Whatever took the focus in between, lifting a key that was forwarded sends its release, and
      neither the record nor the remote keeps it. */
  lemma LiftReleasesForwarded(events: seq<Event>, e: KeyEvent)
    requires WireCode(e) in AfterEvents(events).forwarded
    ensures var after := events + [Lifted(e)];
            && KeyMessage(WireCode(e), false) in React(AfterEvents(events), Lifted(e)).sent
            && WireCode(e) !in AfterEvents(after).forwarded
            && WireCode(e) !in Remote({}, SentBy(after))
  {
    KeyboardStaysSound(events);
    LiftIsSentIff(AfterEvents(events), e);
    RemoteWithinForwarded(events + [Lifted(e)]);
    assert (events + [Lifted(e)])[..|events|] == events;
    hide ViewerKey, OnKeyUp, Remote;
  }

  /** Losing the focus, a cancelled pointer and a release from outside empty the remote; the first
      empties the record too and the others leave it. */
  lemma ReleasesEmptyRemote(events: seq<Event>, event: Event)
    requires event.FocusLost? || event.PointerCancelled? || event.OutsideRelease?
    ensures Remote({}, SentBy(events + [event])) == {}
    ensures AfterEvents(events + [event]) == if event.FocusLost? then IDLE else AfterEvents(events)
  {
    assert (events + [event])[..|events|] == events;
    RemoteConcat({}, SentBy(events), [ReleaseAllMessage]);
    RemoteOne(Remote({}, SentBy(events)), ReleaseAllMessage);
  }

  /** A chord presses its keys in order and releases them in reverse. */
  lemma {:induction false} ChordIsNested(codes: seq<string>)
    ensures |Chord(codes)| == 2 * |codes|
    ensures forall i :: 0 <= i < |codes| ==>
              && Chord(codes)[i] == KeyMessage(codes[i], true)
              && Chord(codes)[2 * |codes| - 1 - i] == KeyMessage(codes[i], false)
  {
    if codes == [] {
    } else {
      ChordIsNested(codes[1..]);
    }
  }

  /** The toolbar's chord is sent as it is, and the keyboard's record does not notice. */
  lemma ChordIsSent(k: Keyboard, codes: seq<string>)
    ensures React(k, ToolbarChord(codes)) == Reaction(k, Chord(codes))
  {
  }

  /** A key typed with a Shift the viewer did not see goes down inside a Shift of the viewer's own
      making, in that order, and both come up with it: key first, then Shift. */
  lemma RepairedShiftIsTakenBack(k: Keyboard, e: KeyEvent)
    requires !e.repeats && !e.interactiveTarget && e.shiftKey && ViewerKey(WireCode(e))
    requires WireCode(e) != "ShiftLeft" && WireCode(e) != "ShiftRight" && !HoldsShift(k.forwarded)
    ensures var code := WireCode(e);
            var down := React(k, Pressed(e));
            var up := React(down.keyboard, Lifted(e));
            && down.sent == [KeyMessage("ShiftLeft", true), KeyMessage(code, true)]
            && down.keyboard == Keyboard(k.forwarded + {code, "ShiftLeft"}, true)
            && up.sent == [KeyMessage(code, false), KeyMessage("ShiftLeft", false)]
            && up.keyboard == Keyboard(k.forwarded - {code}, false)
  {
    ShiftPrefixMeansShift(RemoteCode(e));
    hide ViewerKey, StartsWithShift;
    assert k.forwarded + {"ShiftLeft"} + {RemoteCode(e)} == k.forwarded + {RemoteCode(e), "ShiftLeft"};
    assert k.forwarded + {RemoteCode(e), "ShiftLeft"} - {RemoteCode(e)} - {"ShiftLeft"}
        == k.forwarded - {RemoteCode(e)};
  }

  /** With no Shift of the viewer's own making a lift sends its release only; a right Shift lifted
      while there is one takes the left one back first. */
  lemma LiftSendsExactly(k: Keyboard, e: KeyEvent)
    requires ViewerKey(WireCode(e)) && !e.interactiveTarget
    ensures var code := WireCode(e);
            && (!k.shiftSynthesized || code == "ShiftLeft" ==>
                  React(k, Lifted(e))
                  == Reaction(Keyboard(k.forwarded - {code}, false), [KeyMessage(code, false)]))
            && (k.shiftSynthesized && code == "ShiftRight" ==>
                  React(k, Lifted(e))
                  == Reaction(Keyboard(k.forwarded - {"ShiftLeft", "ShiftRight"}, false),
                              [KeyMessage("ShiftLeft", false), KeyMessage("ShiftRight", false)]))
  {
    ShiftPrefixMeansShift(RemoteCode(e));
    hide ViewerKey, StartsWithShift;
    assert k.forwarded - {"ShiftLeft"} - {"ShiftRight"} == k.forwarded - {"ShiftLeft", "ShiftRight"};
  }

  /** A Shift whose release the viewer missed is let go before a key that is typed without it. */
  lemma LostShiftIsLetGo(k: Keyboard, e: KeyEvent)
    requires !e.repeats && !e.interactiveTarget && !e.shiftKey && ViewerKey(WireCode(e))
    requires WireCode(e) != "ShiftLeft" && WireCode(e) != "ShiftRight"
    ensures var code := WireCode(e);
            var left := if "ShiftLeft" in k.forwarded then [KeyMessage("ShiftLeft", false)] else [];
            var right := if "ShiftRight" in k.forwarded then [KeyMessage("ShiftRight", false)] else [];
            React(k, Pressed(e)) ==
              Reaction(Keyboard(k.forwarded - {"ShiftLeft", "ShiftRight"} + {code}, false),
                       left + right + [KeyMessage(code, true)])
  {
    ShiftPrefixMeansShift(RemoteCode(e));
    hide ViewerKey, StartsWithShift;
  }
}
