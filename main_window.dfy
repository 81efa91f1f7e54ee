/**
 * Selection rules of the main window (mainwindow.cpp): which window state a
 * state change reports, which child widget is grabbed for an animation or
 * receives focus, and when a tray click is ignored as the second half of a
 * double click.
 */
module MainWindowRules {
  import opened Wrappers
  import Priority

  // ---------------------------------------------------------------- window state

  /** The states handleStateChanged receives (Qt::WindowState). */
  datatype WindowState = NoState | Minimized | Maximized | FullScreen

  /** The Qt::WindowStates bit of each state (none for NoState). */
  function StateBit(s: WindowState): bv32 {
    match s
    case NoState => 0
    case Minimized => 0x1
    case Maximized => 0x2
    case FullScreen => 0x4
  }

  /** Rank of each state when several bits are set: lower wins. */
  function Precedence(s: WindowState): nat {
    match s
    case Minimized => 0
    case Maximized => 1
    case FullScreen => 2
    case NoState => 3
  }

  /**
   * The single state reported for a set of window-state bits: the set bit of
   * highest precedence (minimized, then maximized, then full screen), or
   * NoState when none of them is set.  Other bits (WindowActive) do not matter.
   */
  function ClassifyWindowState(states: bv32): (r: WindowState)
    ensures r == NoState <==> states & 0x7 == 0
    ensures r != NoState ==> states & StateBit(r) != 0
    ensures forall s: WindowState :: Precedence(s) < Precedence(r) ==> states & StateBit(s) == 0
  {
    if states & StateBit(Minimized) != 0 then Minimized
    else if states & StateBit(Maximized) != 0 then Maximized
    else if states & StateBit(FullScreen) != 0 then FullScreen
    else NoState
  }

  /** Bits outside minimized, maximized and full screen never change the classification. */
  lemma ClassifyIgnoresOtherBits(states: bv32, other: bv32)
    requires other & 0x7 == 0
    ensures ClassifyWindowState(states | other) == ClassifyWindowState(states)
  {
    assert (states | other) & 0x1 == states & 0x1;
    assert (states | other) & 0x2 == states & 0x2;
    assert (states | other) & 0x4 == states & 0x4;
  }

  // ---------------------------------------------------------------- child widgets

  /** Which of the main window's child widgets currently exist. */
  datatype Children = Children(
    testingThemeWarning: bool,
    layer: bool,
    layerCanSetFocus: bool,
    passcodeLock: bool,
    main: bool,
    intro: bool)

  /** The widgets that grabInner may picture. */
  datatype Inner = PasscodeLockWidget | IntroWidget | MainWidget

  /** The widgets that setInnerFocus may focus. */
  datatype FocusTarget = ThemeWarning | Layer | PasscodeLock | Main | Intro

  function Exists(c: Children, w: Inner): bool {
    match w
    case PasscodeLockWidget => c.passcodeLock
    case IntroWidget => c.intro
    case MainWidget => c.main
  }

  /** A focus target can take focus: it exists, and for the layer, it accepts focus. */
  function CanFocus(c: Children, t: FocusTarget): bool {
    match t
    case ThemeWarning => c.testingThemeWarning
    case Layer => c.layer && c.layerCanSetFocus
    case PasscodeLock => c.passcodeLock
    case Main => c.main
    case Intro => c.intro
  }

  /** The widget grabbed for a transition animation, None for an empty picture. */
  function GrabInner(c: Children): (r: Option<Inner>)
    ensures r.Some? ==> Exists(c, r.value)
    ensures r.None? ==> forall w: Inner :: !Exists(c, w)
  {
    if c.passcodeLock then Some(PasscodeLockWidget)
    else if c.intro then Some(IntroWidget)
    else if c.main then Some(MainWidget)
    else None
  }

  /** The widget that receives focus, None when no child takes it. */
  function SetInnerFocus(c: Children): (r: Option<FocusTarget>)
    ensures r.Some? ==> CanFocus(c, r.value)
    ensures r.None? ==> forall t: FocusTarget :: !CanFocus(c, t)
  {
    if c.testingThemeWarning then Some(ThemeWarning)
    else if c.layer && c.layerCanSetFocus then Some(Layer)
    else if c.passcodeLock then Some(PasscodeLock)
    else if c.main then Some(Main)
    else if c.intro then Some(Intro)
    else None
  }

  function Candidate<T>(present: bool, x: T): Option<T> {
    if present then Some(x) else None
  }

  /** grabInner prefers the passcode lock, then the intro, then the main widget. */
  lemma GrabInnerIsFirstPresent(c: Children)
    ensures GrabInner(c) == Priority.FirstSome([
      Candidate(c.passcodeLock, PasscodeLockWidget),
      Candidate(c.intro, IntroWidget),
      Candidate(c.main, MainWidget)])
  {
    var cs := [
      Candidate(c.passcodeLock, PasscodeLockWidget),
      Candidate(c.intro, IntroWidget),
      Candidate(c.main, MainWidget)];
    if c.passcodeLock { Priority.FirstSomeAt(cs, 0); }
    else if c.intro { Priority.FirstSomeAt(cs, 1); }
    else if c.main { Priority.FirstSomeAt(cs, 2); }
  }

  /**
   * setInnerFocus prefers the theme warning, then a layer that can take focus,
   * then the passcode lock, then the main widget, then the intro.
   */
  lemma SetInnerFocusIsFirstPresent(c: Children)
    ensures SetInnerFocus(c) == Priority.FirstSome([
      Candidate(c.testingThemeWarning, ThemeWarning),
      Candidate(c.layer && c.layerCanSetFocus, Layer),
      Candidate(c.passcodeLock, PasscodeLock),
      Candidate(c.main, Main),
      Candidate(c.intro, Intro)])
  {
    var cs := [
      Candidate(c.testingThemeWarning, ThemeWarning),
      Candidate(c.layer && c.layerCanSetFocus, Layer),
      Candidate(c.passcodeLock, PasscodeLock),
      Candidate(c.main, Main),
      Candidate(c.intro, Intro)];
    if c.testingThemeWarning { Priority.FirstSomeAt(cs, 0); }
    else if c.layer && c.layerCanSetFocus { Priority.FirstSomeAt(cs, 1); }
    else if c.passcodeLock { Priority.FirstSomeAt(cs, 2); }
    else if c.main { Priority.FirstSomeAt(cs, 3); }
    else if c.intro { Priority.FirstSomeAt(cs, 4); }
  }

  /**
   * The two chains rank the intro and the main widget in opposite orders:
   * with both present, the intro is grabbed while the main widget gets focus.
   */
  lemma GrabAndFocusDisagreeOnIntroAndMain(c: Children)
    requires c.intro && c.main
    requires !c.testingThemeWarning && !(c.layer && c.layerCanSetFocus) && !c.passcodeLock
    ensures GrabInner(c) == Some(IntroWidget) && SetInnerFocus(c) == Some(Main)
  {
  }

  /** The passcode lock, when present, is both what is grabbed and, unless a warning or focusable layer sits above it, what gets focus. */
  lemma PasscodeLockWins(c: Children)
    requires c.passcodeLock
    ensures GrabInner(c) == Some(PasscodeLockWidget)
    ensures !c.testingThemeWarning && !(c.layer && c.layerCanSetFocus) ==> SetInnerFocus(c) == Some(PasscodeLock)
  {
  }

  // ---------------------------------------------------------------- tray clicks

  /** Qt's reasons for a tray icon activation (QSystemTrayIcon::ActivationReason). */
  datatype ActivationReason = Unknown | Context | DoubleClick | Trigger | MiddleClick

  /** What a tray activation does to the window. */
  datatype TrayAction = ShowTrayMenu | IgnoredClick | MinimizeToTray | ShowFromTray

  /**
   * A click is ignored when an earlier click was acted upon (its time is
   * positive) less than the double-click interval ago.
   */
  predicate SkipTrayClick(lastTrayClickTime: int, now: int, doubleClickInterval: int): (skip: bool)
    ensures skip ==> lastTrayClickTime > 0 && now < lastTrayClickTime + doubleClickInterval
    ensures lastTrayClickTime <= 0 || (doubleClickInterval <= 0 && now >= lastTrayClickTime) ==> !skip
  {
    lastTrayClickTime > 0 && now - lastTrayClickTime < doubleClickInterval
  }

  /** The main window's memory of the last tray click it acted upon. */
  class TrayClicks {
    var lastTrayClickTime: int
    ghost var handled: seq<int>

    /** The field holds the time of the last click acted upon, 0 before the first. */
    ghost predicate Valid()
      reads this
    {
      lastTrayClickTime == if handled == [] then 0 else handled[|handled| - 1]
    }

    constructor ()
      ensures Valid() && handled == []
    {
      lastTrayClickTime := 0;
      handled := [];
    }

    /**
     * A tray activation other than on an active macOS window (left out): the
     * context reason shows the menu; any other click is ignored within the
     * double-click interval of the previous one, and otherwise minimizes an
     * active window or shows a hidden one and records its time.
     */
    method HandleTrayIconActivation(reason: ActivationReason, now: int, doubleClickInterval: int, activeForTrayMenu: bool)
      returns (action: TrayAction)
      requires Valid()
      modifies this
      ensures Valid()
      ensures reason == Context ==> action == ShowTrayMenu
      ensures reason != Context && SkipTrayClick(old(lastTrayClickTime), now, doubleClickInterval) ==> action == IgnoredClick
      ensures reason != Context && !SkipTrayClick(old(lastTrayClickTime), now, doubleClickInterval) ==>
        action == (if activeForTrayMenu then MinimizeToTray else ShowFromTray)
      ensures handled == if action == MinimizeToTray || action == ShowFromTray then old(handled) + [now] else old(handled)
    {
      if reason == Context {
        action := ShowTrayMenu;
      } else if !SkipTrayClick(lastTrayClickTime, now, doubleClickInterval) {
        if activeForTrayMenu {
          action := MinimizeToTray;
        } else {
          action := ShowFromTray;
        }
        lastTrayClickTime := now;
        handled := handled + [now];
      } else {
        action := IgnoredClick;
      }
    }
  }

  /**
   * Once a click has been acted upon at a positive time, a click is ignored
   * exactly when it comes less than the double-click interval after that click.
   */
  lemma IgnoredWithinIntervalOfLastHandled(clicks: TrayClicks, now: int, doubleClickInterval: int)
    requires clicks.Valid() && clicks.handled != [] && clicks.handled[|clicks.handled| - 1] > 0
    ensures SkipTrayClick(clicks.lastTrayClickTime, now, doubleClickInterval)
      <==> now < clicks.handled[|clicks.handled| - 1] + doubleClickInterval
  {
  }

  /** Before any click has been acted upon, no click is ignored. */
  lemma NothingIgnoredBeforeFirstHandled(clicks: TrayClicks, now: int, doubleClickInterval: int)
    requires clicks.Valid() && clicks.handled == []
    ensures !SkipTrayClick(clicks.lastTrayClickTime, now, doubleClickInterval)
  {
  }

  /**
   * Three clicks inside the double-click interval of the first: the first
   * acts, and both others are ignored, because an ignored click does not move
   * the recorded time.
   */
  method ThreeQuickClicks(
    clicks: TrayClicks, first: int, second: int, third: int, doubleClickInterval: int, activeForTrayMenu: bool)
    returns (a1: TrayAction, a2: TrayAction, a3: TrayAction)
    requires clicks.Valid() && first > 0
    requires !SkipTrayClick(clicks.lastTrayClickTime, first, doubleClickInterval)
    requires second < first + doubleClickInterval && third < first + doubleClickInterval
    modifies clicks
    ensures a1 == (if activeForTrayMenu then MinimizeToTray else ShowFromTray)
    ensures a2 == IgnoredClick && a3 == IgnoredClick
    ensures clicks.Valid() && clicks.handled == old(clicks.handled) + [first]
  {
    a1 := clicks.HandleTrayIconActivation(Trigger, first, doubleClickInterval, activeForTrayMenu);
    a2 := clicks.HandleTrayIconActivation(Trigger, second, doubleClickInterval, activeForTrayMenu);
    a3 := clicks.HandleTrayIconActivation(Trigger, third, doubleClickInterval, activeForTrayMenu);
  }
}
