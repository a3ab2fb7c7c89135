/**
 * The keyboard-shortcut dispatcher of the game screen
 * (client/src/hooks/useKeyboardShortcuts.js, `handleKeyDown`): one key
 * event, the hook's flags and the help-modal state in; at most one action,
 * the new help-modal state and whether `preventDefault` was called out.
 *
 * The DOM side effects (the feedback badge, the fullscreen toggle) are the
 * actions' names only. `event.defaultPrevented` after the handler's own
 * `preventDefault()` is true exactly when the event is cancelable or an
 * earlier listener had already cancelled it.
 */
module Shortcuts {

  /** The parts of a `keydown` event the handler reads. */
  datatype KeyEvent = KeyEvent(
    key: string,
    ctrlKey: bool,
    metaKey: bool,
    shiftKey: bool,
    altKey: bool,
    /** The target matches `input, textarea, select, [contenteditable="true"]`. */
    inInput: bool,
    cancelable: bool,
    /** `defaultPrevented` before this handler runs. */
    alreadyPrevented: bool)

  /** The hook's arguments: the flags and which optional callbacks were supplied. */
  datatype Hooks = Hooks(canUndo: bool, canRedo: bool, isThinking: bool, hasNavigate: bool, hasSetBoardSize: bool)

  datatype Action =
    | NoAction
    | CloseHelp
    | NavigateToModes
    | OpenHelp
    | UndoMove
    | RedoMove
    | NewGame
    | SetBoardSize(size: nat)
    | ToggleFullscreen

  datatype Reaction = Reaction(action: Action, showHelp: bool, prevented: bool)

  predicate Modifier(e: KeyEvent)
  {
    e.ctrlKey || e.metaKey
  }

  predicate IsDigit(c: char)
  {
    '0' <= c <= '9'
  }

  /** `key >= '3' && key <= '9'` as JavaScript compares strings. */
  predicate SizeKey(key: string)
  {
    |key| > 0 && '3' <= key[0] && (key[0] < '9' || key == "9")
  }

  /** The value of the leading run of decimal digits (`parseInt(key)` on a key that starts with one). */
  function DigitsValue(key: string, acc: nat): nat
    decreases |key|
  {
    if |key| == 0 || !IsDigit(key[0]) then acc
    else DigitsValue(key[1..], acc * 10 + (key[0] as int - '0' as int))
  }

  /**
   * Escape with help closed, as written: the handler calls `preventDefault()`
   * and only then reads `defaultPrevented`, so a cancelable event is never
   * followed by navigation.
   */
  function EscapeReaction(e: KeyEvent, h: Hooks): (r: Reaction)
    ensures r.prevented && !r.showHelp
    ensures r.action.NavigateToModes? ==> h.hasNavigate && !e.cancelable && !e.alreadyPrevented
    ensures !r.action.NavigateToModes? ==> r.action.NoAction?
  {
    var defaultPrevented := e.alreadyPrevented || e.cancelable;
    Reaction(if h.hasNavigate && !defaultPrevented then NavigateToModes else NoAction, false, true)
  }

  /**
   * Escape with help closed, as evidently intended: navigation is skipped
   * only when an earlier listener (a modal, say) already handled the event,
   * so `defaultPrevented` is read before the handler's own `preventDefault()`.
   */
  function EscapeReactionFixed(e: KeyEvent, h: Hooks): (r: Reaction)
    ensures r.prevented && !r.showHelp
  {
    Reaction(if h.hasNavigate && !e.alreadyPrevented then NavigateToModes else NoAction, false, true)
  }

  /**
   * `handleKeyDown(event)`, as a strict if-chain: help open swallows every
   * key but Escape; thinking or a modifier inside an input does nothing;
   * Escape closes help or else navigates when the event is not prevented;
   * other keys inside inputs do nothing; then help, undo, redo, new game,
   * board size and fullscreen, the first rule that matches deciding.
   */
  function HandleKeyDown(e: KeyEvent, h: Hooks, showHelp: bool): (r: Reaction)
    ensures r.action.CloseHelp? ==> e.key == "Escape" && showHelp && !r.showHelp
    ensures !r.action.CloseHelp? && !r.action.OpenHelp? ==> r.showHelp == showHelp
  {
    var isModifierWithInput := Modifier(e) && e.inInput;
    if showHelp && e.key != "Escape" then Reaction(NoAction, showHelp, true)
    else if h.isThinking || isModifierWithInput then Reaction(NoAction, showHelp, false)
    else if e.key == "Escape" then
      if showHelp then Reaction(CloseHelp, false, true) else EscapeReaction(e, h)
    else if e.inInput then Reaction(NoAction, showHelp, false)
    else if e.key == "?" || e.key == "h" || e.key == "H" then Reaction(OpenHelp, true, true)
    else if Modifier(e) && e.key == "z" && !e.shiftKey then
      if h.canUndo then Reaction(UndoMove, showHelp, true) else Reaction(NoAction, showHelp, false)
    else if (Modifier(e) && e.key == "z" && e.shiftKey) || (Modifier(e) && e.key == "y") then
      if h.canRedo then Reaction(RedoMove, showHelp, true) else Reaction(NoAction, showHelp, false)
    else if e.key == "n" || e.key == " " then Reaction(NewGame, showHelp, true)
    else if SizeKey(e.key) then
      Reaction(if h.hasSetBoardSize then SetBoardSize(DigitsValue(e.key, 0)) else NoAction, showHelp, true)
    else if e.key == "0" then
      Reaction(if h.hasSetBoardSize then SetBoardSize(10) else NoAction, showHelp, true)
    else if e.key == "F11" || (e.key == "f" && e.altKey) then Reaction(ToggleFullscreen, showHelp, true)
    else Reaction(NoAction, showHelp, false)
  }

  /** While help is open, every key but Escape is cancelled and does nothing else. */
  lemma HelpSwallowsKeys(e: KeyEvent, h: Hooks)
    requires e.key != "Escape"
    ensures HandleKeyDown(e, h, true) == Reaction(NoAction, true, true)
  {
  }

  /** While the AI thinks, or with Ctrl/Meta inside an input, nothing happens (help closed). */
  lemma ThinkingOrModifiedInputIgnored(e: KeyEvent, h: Hooks)
    requires h.isThinking || (Modifier(e) && e.inInput)
    ensures HandleKeyDown(e, h, false) == Reaction(NoAction, false, false)
  {
  }

  /**
   * Escape with help closed navigates exactly when a navigate callback was
   * given and the event was neither cancelable nor already cancelled: the
   * handler's own `preventDefault` comes first, so a cancelable Escape never
   * navigates.
   */
  lemma EscapeNavigation(e: KeyEvent, h: Hooks)
    requires e.key == "Escape" && !h.isThinking && !(Modifier(e) && e.inInput)
    ensures HandleKeyDown(e, h, false).action == NavigateToModes
            <==> h.hasNavigate && !e.cancelable && !e.alreadyPrevented
    ensures e.cancelable ==> HandleKeyDown(e, h, false).action == NoAction
  {
  }

  /** Undo fires exactly on Ctrl/Meta+z without Shift, outside inputs, with undo available and nothing in the way. */
  lemma UndoIff(e: KeyEvent, h: Hooks, showHelp: bool)
    ensures HandleKeyDown(e, h, showHelp).action == UndoMove <==>
      !showHelp && !h.isThinking && !e.inInput && Modifier(e) && e.key == "z" && !e.shiftKey && h.canUndo
  {
  }

  /** Redo fires exactly on Ctrl/Meta+Shift+z or Ctrl/Meta+y, outside inputs, with redo available. */
  lemma RedoIff(e: KeyEvent, h: Hooks, showHelp: bool)
    ensures HandleKeyDown(e, h, showHelp).action == RedoMove <==>
      && !showHelp && !h.isThinking && !e.inInput && Modifier(e) && h.canRedo
      && ((e.key == "z" && e.shiftKey) || e.key == "y")
  {
  }

  /** The keys '3' to '9' set the board to that size and '0' to 10, when a size callback is given. */
  lemma DigitKeysSetSize(e: KeyEvent, h: Hooks, d: nat)
    requires 3 <= d <= 9 && e.key == [('0' as int + d) as char]
    requires !h.isThinking && !e.inInput && h.hasSetBoardSize
    ensures HandleKeyDown(e, h, false).action == SetBoardSize(d)
    ensures HandleKeyDown(e.(key := "0"), h, false).action == SetBoardSize(10)
  {
    assert DigitsValue(e.key, 0) == DigitsValue(e.key[1..], d);
  }

  /** Only the board-size action ever carries a size, and that size is at least 3. */
  lemma SizesAtLeastThree(e: KeyEvent, h: Hooks, showHelp: bool)
    ensures var a := HandleKeyDown(e, h, showHelp).action; a.SetBoardSize? ==> a.size >= 3
  {
    var a := HandleKeyDown(e, h, showHelp).action;
    if a.SetBoardSize? && a.size != 10 {
      DigitsValueAtLeast(e.key, 0);
    }
  }

  /** A key starting with a digit d yields at least d. */
  lemma DigitsValueAtLeast(key: string, acc: nat)
    requires |key| > 0 && IsDigit(key[0])
    ensures DigitsValue(key, acc) >= acc * 10 + (key[0] as int - '0' as int)
    decreases |key|
  {
    var first := acc * 10 + (key[0] as int - '0' as int);
    if |key[1..]| > 0 && IsDigit(key[1..][0]) {
      DigitsValueAtLeast(key[1..], first);
    }
  }

  /** Only Escape can close help and only the help keys can open it. */
  lemma HelpToggles(e: KeyEvent, h: Hooks, showHelp: bool)
    ensures HandleKeyDown(e, h, showHelp).showHelp != showHelp ==>
      (e.key == "Escape" && showHelp) || (!showHelp && (e.key == "?" || e.key == "h" || e.key == "H"))
  {
  }

  /** With help open, Escape closes it, unless the AI is thinking or a modifier is held inside an input. */
  lemma EscapeClosesHelp(e: KeyEvent, h: Hooks)
    requires e.key == "Escape" && !h.isThinking && !(Modifier(e) && e.inInput)
    ensures HandleKeyDown(e, h, true) == Reaction(CloseHelp, false, true)
  {
  }

  /** Outside inputs and while the AI is idle, `?`, `h` and `H` open help. */
  lemma HelpKeysOpen(e: KeyEvent, h: Hooks)
    requires e.key == "?" || e.key == "h" || e.key == "H"
    requires !h.isThinking && !e.inInput
    ensures HandleKeyDown(e, h, false) == Reaction(OpenHelp, true, true)
  {
  }

  /** Outside inputs and while the AI is idle, `n` and space start a new game. */
  lemma NewGameKeys(e: KeyEvent, h: Hooks)
    requires e.key == "n" || e.key == " "
    requires !h.isThinking && !e.inInput
    ensures HandleKeyDown(e, h, false) == Reaction(NewGame, false, true)
  {
  }

  /** Inside an input every key but Escape does nothing and is not cancelled, help closed. */
  lemma InputKeysIgnored(e: KeyEvent, h: Hooks)
    requires e.inInput && e.key != "Escape"
    ensures HandleKeyDown(e, h, false) == Reaction(NoAction, false, false)
  {
  }

  /**
   * A cancelable Escape (every keydown a browser dispatches from the
   * keyboard is one) never navigates as written, whereas the intended check
   * navigates whenever no earlier listener handled it.
   */
  lemma CancelableEscapeNeverNavigates(e: KeyEvent, h: Hooks)
    requires e.key == "Escape" && e.cancelable && h.hasNavigate && !e.alreadyPrevented
    requires !h.isThinking && !(Modifier(e) && e.inInput)
    ensures HandleKeyDown(e, h, false).action == NoAction
    ensures EscapeReactionFixed(e, h).action == NavigateToModes
  {
  }

  /** With the intended check, Escape navigates exactly when a callback exists and nobody handled the event. */
  lemma EscapeFixedNavigates(e: KeyEvent, h: Hooks)
    ensures EscapeReactionFixed(e, h).action == NavigateToModes <==> h.hasNavigate && !e.alreadyPrevented
    ensures EscapeReactionFixed(e, h).action != NavigateToModes ==> EscapeReactionFixed(e, h).action == NoAction
  {
  }
}
