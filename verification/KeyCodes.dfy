/**
 The two keyboard whitelists: the viewer decides what to forward, the agent re-checks
 before injecting. A key the viewer forwards must also be one the agent can release.
 */
module KeyCodes {
  predicate InRange(c: char, low: char, high: char) { low <= c <= high }

  predicate LetterOrDigitKey(code: string) {
    || (|code| == 4 && code[..3] == "Key" && InRange(code[3], 'A', 'Z'))
    || (|code| == 6 && code[..5] == "Digit" && InRange(code[5], '0', '9'))
    || (|code| == 7 && code[..6] == "Numpad" && InRange(code[6], '0', '9'))
  }

  predicate ViewerNamedKey(code: string) {
    || code == "NumpadAdd" || code == "NumpadSubtract" || code == "NumpadMultiply" || code == "NumpadDivide"
    || code == "NumpadDecimal" || code == "NumpadEnter" || code == "NumpadEqual" || code == "NumpadComma"
    || code == "NumLock" || code == "CapsLock" || code == "ArrowUp" || code == "ArrowDown"
    || code == "ArrowLeft" || code == "ArrowRight" || code == "F1" || code == "F2" || code == "F3"
    || code == "F4" || code == "F5" || code == "F6" || code == "F7" || code == "F8" || code == "F9"
    || code == "F10" || code == "F11" || code == "F12" || code == "Backspace" || code == "Tab"
    || code == "Enter" || code == "Escape" || code == "Space" || code == "Delete" || code == "Home"
    || code == "End" || code == "PageUp" || code == "PageDown" || code == "ShiftLeft" || code == "ShiftRight"
    || code == "ControlLeft" || code == "ControlRight" || code == "AltLeft" || code == "AltRight"
    || code == "Minus" || code == "Equal" || code == "BracketLeft" || code == "BracketRight"
    || code == "Backslash" || code == "Semicolon" || code == "Quote" || code == "Backquote" || code == "Comma"
    || code == "Period" || code == "Slash" || code == "Lang1" || code == "Lang2"
  }

  predicate AgentNamedKey(code: string) {
    || code == "NumpadAdd" || code == "NumpadSubtract" || code == "NumpadMultiply" || code == "NumpadDivide"
    || code == "NumpadDecimal" || code == "NumpadEnter" || code == "NumpadEqual" || code == "NumpadComma"
    || code == "NumLock" || code == "CapsLock" || code == "ArrowUp" || code == "ArrowDown"
    || code == "ArrowLeft" || code == "ArrowRight" || code == "F1" || code == "F2" || code == "F3"
    || code == "F4" || code == "F5" || code == "F6" || code == "F7" || code == "F8" || code == "F9"
    || code == "F10" || code == "F11" || code == "F12" || code == "Backspace" || code == "Tab"
    || code == "Enter" || code == "Escape" || code == "Space" || code == "Delete" || code == "Home"
    || code == "End" || code == "PageUp" || code == "PageDown" || code == "ShiftLeft" || code == "ShiftRight"
    || code == "ControlLeft" || code == "ControlRight" || code == "AltLeft" || code == "AltRight"
    || code == "MetaLeft" || code == "MetaRight" || code == "Minus" || code == "Equal" || code == "BracketLeft"
    || code == "BracketRight" || code == "Backslash" || code == "Semicolon" || code == "Quote"
    || code == "Backquote" || code == "Comma" || code == "Period" || code == "Slash" || code == "Lang1"
    || code == "Lang2"
  }

  predicate ViewerKey(code: string) { LetterOrDigitKey(code) || ViewerNamedKey(code) }

  predicate AgentKey(code: string) { LetterOrDigitKey(code) || AgentNamedKey(code) }

  predicate StartsWithShift(code: string) { |code| >= 5 && code[..5] == "Shift" }

  /** The agent accepts every key the viewer forwards, and beyond those only the Meta keys. */
  lemma ViewerKeysAreAgentKeys(code: string)
    ensures ViewerKey(code) ==> AgentKey(code)
    ensures AgentKey(code) && !ViewerKey(code) ==> code == "MetaLeft" || code == "MetaRight"
  {
  }

  lemma LetterOrDigitInitial(code: string)
    requires LetterOrDigitKey(code)
    ensures code[0] in {'K', 'D', 'N'}
  {
    if |code| == 4 {
      assert code[0] == code[..3][0];
    } else if |code| == 6 {
      assert code[0] == code[..5][0];
    } else {
      assert code[0] == code[..6][0];
    }
  }

  /** The prefix test used by the key handlers singles out exactly the two Shift keys. */
  lemma ShiftPrefixMeansShift(code: string)
    requires ViewerKey(code)
    ensures StartsWithShift(code) <==> code == "ShiftLeft" || code == "ShiftRight"
  {
    if StartsWithShift(code) {
      assert code[0] == "Shift"[0] && code[1] == "Shift"[1] && code[2] == "Shift"[2];
      if LetterOrDigitKey(code) {
        LetterOrDigitInitial(code);
      }
    }
  }

  // ---------------------------------------------------------------- the patterns themselves

  ghost predicate Follows(code: string, prefix: string, ends: set<string>) {
    exists end | end in ends :: code == prefix + end
  }

  const LETTERS: set<char> := set c: char | 'A' <= c <= 'Z'

  const DIGITS: set<char> := set c: char | '0' <= c <= '9'

  ghost predicate FollowsOne(code: string, prefix: string, ends: set<char>) {
    exists end | end in ends :: code == prefix + [end]
  }

  /** The viewer's regular expression, alternative by alternative. */
  ghost predicate ViewerPattern(code: string) {
    || FollowsOne(code, "Key", LETTERS) || FollowsOne(code, "Digit", DIGITS) || FollowsOne(code, "Numpad", DIGITS)
    || Follows(code, "Numpad", {"Add", "Subtract", "Multiply", "Divide", "Decimal", "Enter", "Equal", "Comma"})
    || Follows(code, "", {"NumLock", "CapsLock"}) || Follows(code, "Arrow", {"Up", "Down", "Left", "Right"})
    || Follows(code, "F", {"1", "2", "3", "4", "5", "6", "7", "8", "9", "10", "11", "12"})
    || Follows(code, "", {"Backspace", "Tab", "Enter", "Escape", "Space", "Delete", "Home", "End"})
    || Follows(code, "Page", {"Up", "Down"}) || Follows(code, "Shift", {"Left", "Right"})
    || Follows(code, "Control", {"Left", "Right"}) || Follows(code, "Alt", {"Left", "Right"})
    || Follows(code, "", {"Minus", "Equal"}) || Follows(code, "Bracket", {"Left", "Right"})
    || Follows(code, "", {"Backslash", "Semicolon", "Quote", "Backquote", "Comma", "Period", "Slash"})
    || Follows(code, "Lang", {"1", "2"})
  }

  lemma LetterOrDigitIsPattern(code: string)
    ensures LetterOrDigitKey(code) <==>
              || FollowsOne(code, "Key", LETTERS) || FollowsOne(code, "Digit", DIGITS)
                   || FollowsOne(code, "Numpad", DIGITS)
  {
    if |code| == 4 && code[..3] == "Key" && InRange(code[3], 'A', 'Z') {
      assert code == "Key" + [code[3]] && code[3] in LETTERS;
    }
    if |code| == 6 && code[..5] == "Digit" && InRange(code[5], '0', '9') {
      assert code == "Digit" + [code[5]] && code[5] in DIGITS;
    }
    if |code| == 7 && code[..6] == "Numpad" && InRange(code[6], '0', '9') {
      assert code == "Numpad" + [code[6]] && code[6] in DIGITS;
    }
  }

  lemma NumpadNames(code: string)
    ensures Follows(code, "Numpad",
                    {"Add", "Subtract", "Multiply", "Divide", "Decimal", "Enter", "Equal", "Comma"}) <==>
              || code == "NumpadAdd" || code == "NumpadSubtract" || code == "NumpadMultiply"
              || code == "NumpadDivide" || code == "NumpadDecimal" || code == "NumpadEnter" || code == "NumpadEqual"
              || code == "NumpadComma"
  {
    assert "Numpad" + "Add" == "NumpadAdd";
    assert "Numpad" + "Subtract" == "NumpadSubtract";
    assert "Numpad" + "Multiply" == "NumpadMultiply";
    assert "Numpad" + "Divide" == "NumpadDivide";
    assert "Numpad" + "Decimal" == "NumpadDecimal";
    assert "Numpad" + "Enter" == "NumpadEnter";
    assert "Numpad" + "Equal" == "NumpadEqual";
    assert "Numpad" + "Comma" == "NumpadComma";
  }

  lemma LocksNames(code: string)
    ensures Follows(code, "", {"NumLock", "CapsLock"}) <==>
              || code == "NumLock" || code == "CapsLock"
  {
    assert forall s: string :: "" + s == s;
  }

  lemma ArrowNames(code: string)
    ensures Follows(code, "Arrow", {"Up", "Down", "Left", "Right"}) <==>
              || code == "ArrowUp" || code == "ArrowDown" || code == "ArrowLeft" || code == "ArrowRight"
  {
    assert "Arrow" + "Up" == "ArrowUp";
    assert "Arrow" + "Down" == "ArrowDown";
    assert "Arrow" + "Left" == "ArrowLeft";
    assert "Arrow" + "Right" == "ArrowRight";
  }

  lemma FunctionNames(code: string)
    ensures Follows(code, "F", {"1", "2", "3", "4", "5", "6", "7", "8", "9", "10", "11", "12"}) <==>
              || code == "F1" || code == "F2" || code == "F3" || code == "F4" || code == "F5" || code == "F6"
              || code == "F7" || code == "F8" || code == "F9" || code == "F10" || code == "F11" || code == "F12"
  {
    assert "F" + "1" == "F1";
    assert "F" + "2" == "F2";
    assert "F" + "3" == "F3";
    assert "F" + "4" == "F4";
    assert "F" + "5" == "F5";
    assert "F" + "6" == "F6";
    assert "F" + "7" == "F7";
    assert "F" + "8" == "F8";
    assert "F" + "9" == "F9";
    assert "F" + "10" == "F10";
    assert "F" + "11" == "F11";
    assert "F" + "12" == "F12";
  }

  lemma EditingNames(code: string)
    ensures Follows(code, "", {"Backspace", "Tab", "Enter", "Escape", "Space", "Delete", "Home", "End"}) <==>
              || code == "Backspace" || code == "Tab" || code == "Enter" || code == "Escape" || code == "Space"
              || code == "Delete" || code == "Home" || code == "End"
  {
    assert forall s: string :: "" + s == s;
  }

  lemma PageNames(code: string)
    ensures Follows(code, "Page", {"Up", "Down"}) <==>
              || code == "PageUp" || code == "PageDown"
  {
    assert "Page" + "Up" == "PageUp";
    assert "Page" + "Down" == "PageDown";
  }

  lemma ShiftNames(code: string)
    ensures Follows(code, "Shift", {"Left", "Right"}) <==>
              || code == "ShiftLeft" || code == "ShiftRight"
  {
    assert "Shift" + "Left" == "ShiftLeft";
    assert "Shift" + "Right" == "ShiftRight";
  }

  lemma ControlNames(code: string)
    ensures Follows(code, "Control", {"Left", "Right"}) <==>
              || code == "ControlLeft" || code == "ControlRight"
  {
    assert "Control" + "Left" == "ControlLeft";
    assert "Control" + "Right" == "ControlRight";
  }

  lemma AltNames(code: string)
    ensures Follows(code, "Alt", {"Left", "Right"}) <==>
              || code == "AltLeft" || code == "AltRight"
  {
    assert "Alt" + "Left" == "AltLeft";
    assert "Alt" + "Right" == "AltRight";
  }

  lemma MetaNames(code: string)
    ensures Follows(code, "Meta", {"Left", "Right"}) <==>
              || code == "MetaLeft" || code == "MetaRight"
  {
    assert "Meta" + "Left" == "MetaLeft";
    assert "Meta" + "Right" == "MetaRight";
  }

  lemma SignsNames(code: string)
    ensures Follows(code, "", {"Minus", "Equal"}) <==>
              || code == "Minus" || code == "Equal"
  {
    assert forall s: string :: "" + s == s;
  }

  lemma BracketNames(code: string)
    ensures Follows(code, "Bracket", {"Left", "Right"}) <==>
              || code == "BracketLeft" || code == "BracketRight"
  {
    assert "Bracket" + "Left" == "BracketLeft";
    assert "Bracket" + "Right" == "BracketRight";
  }

  lemma PunctuationNames(code: string)
    ensures Follows(code, "", {"Backslash", "Semicolon", "Quote", "Backquote", "Comma", "Period", "Slash"}) <==>
              || code == "Backslash" || code == "Semicolon" || code == "Quote" || code == "Backquote"
              || code == "Comma" || code == "Period" || code == "Slash"
  {
    assert forall s: string :: "" + s == s;
  }

  lemma LangNames(code: string)
    ensures Follows(code, "Lang", {"1", "2"}) <==>
              || code == "Lang1" || code == "Lang2"
  {
    assert "Lang" + "1" == "Lang1";
    assert "Lang" + "2" == "Lang2";
  }

  lemma NamedIsPattern(code: string)
    ensures ViewerNamedKey(code) <==>
              || Follows(code, "Numpad",
                         {"Add", "Subtract", "Multiply", "Divide", "Decimal", "Enter", "Equal", "Comma"})
              || Follows(code, "", {"NumLock", "CapsLock"}) || Follows(code, "Arrow", {"Up", "Down", "Left", "Right"})
              || Follows(code, "F", {"1", "2", "3", "4", "5", "6", "7", "8", "9", "10", "11", "12"})
              || Follows(code, "", {"Backspace", "Tab", "Enter", "Escape", "Space", "Delete", "Home", "End"})
              || Follows(code, "Page", {"Up", "Down"}) || Follows(code, "Shift", {"Left", "Right"})
              || Follows(code, "Control", {"Left", "Right"}) || Follows(code, "Alt", {"Left", "Right"})
              || Follows(code, "", {"Minus", "Equal"}) || Follows(code, "Bracket", {"Left", "Right"})
              || Follows(code, "", {"Backslash", "Semicolon", "Quote", "Backquote", "Comma", "Period", "Slash"})
              || Follows(code, "Lang", {"1", "2"})
  {
    NumpadNames(code);
    LocksNames(code);
    ArrowNames(code);
    FunctionNames(code);
    EditingNames(code);
    PageNames(code);
    ShiftNames(code);
    ControlNames(code);
    AltNames(code);
    SignsNames(code);
    BracketNames(code);
    PunctuationNames(code);
    LangNames(code);
    hide Follows;
  }

  lemma AgentAddsMeta(code: string)
    ensures AgentNamedKey(code) <==> ViewerNamedKey(code) || code == "MetaLeft" || code == "MetaRight"
  {
  }

  /** The whitelists are the two regular expressions: the agent's has the Meta keys besides. */
  lemma WhitelistsArePatterns(code: string)
    ensures ViewerKey(code) <==> ViewerPattern(code)
    ensures AgentKey(code) <==> ViewerPattern(code) || Follows(code, "Meta", {"Left", "Right"})
  {
    LetterOrDigitIsPattern(code);
    NamedIsPattern(code);
    MetaNames(code);
    AgentAddsMeta(code);
    hide LetterOrDigitKey, ViewerNamedKey, AgentNamedKey, Follows, FollowsOne;
  }
}
