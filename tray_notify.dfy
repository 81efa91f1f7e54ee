/**
 * "Toggle notifications" from the tray menu (mainwindow.cpp,
 * toggleDisplayNotifyFromTray).  Turning desktop notifications off also
 * silences sound and taskbar flashing, remembering which of the two were on;
 * turning them back on restores what was remembered.  The settings saved and
 * the change notifications emitted are modelled as a returned list of change
 * kinds, in emission order.
 */
module TrayNotify {

  /** The kinds of settings change the toggle reports (Window::Notifications::ChangeType). */
  datatype ChangeType = DesktopEnabled | SoundEnabled | FlashBounceEnabled

  /** The five notification settings the toggle reads and writes. */
  datatype NotifySettings = NotifySettings(
    desktopNotify: bool,
    soundNotify: bool,
    flashBounceNotify: bool,
    rememberedSoundNotifyFromTray: bool,
    rememberedFlashBounceNotifyFromTray: bool)

  datatype Toggled = Toggled(settings: NotifySettings, changes: seq<ChangeType>)

  /**
   * What one real toggle does.  Switching off: sound and flash go off and
   * each remembered flag records whether its setting had been on.  Switching
   * on: a setting comes back on, and its remembered flag is cleared, only when
   * it was remembered and is currently off.
   */
  function Toggle(s: NotifySettings): (t: Toggled)
    ensures t.settings.desktopNotify == !s.desktopNotify
    ensures |t.changes| >= 1 && t.changes[0] == DesktopEnabled
    ensures !s.desktopNotify ==> t.settings.soundNotify || !s.soundNotify
    ensures !s.desktopNotify ==> t.settings.flashBounceNotify || !s.flashBounceNotify
  {
    if s.desktopNotify then
      Toggled(
        NotifySettings(false, false, false, s.soundNotify, s.flashBounceNotify),
        [DesktopEnabled]
          + (if s.soundNotify then [SoundEnabled] else [])
          + (if s.flashBounceNotify then [FlashBounceEnabled] else []))
    else
      var soundBack := s.rememberedSoundNotifyFromTray && !s.soundNotify;
      var flashBack := s.rememberedFlashBounceNotifyFromTray && !s.flashBounceNotify;
      Toggled(
        NotifySettings(
          true,
          s.soundNotify || soundBack,
          s.flashBounceNotify || flashBack,
          s.rememberedSoundNotifyFromTray && !soundBack,
          s.rememberedFlashBounceNotifyFromTray && !flashBack),
        [DesktopEnabled]
          + (if soundBack then [SoundEnabled] else [])
          + (if flashBack then [FlashBounceEnabled] else []))
  }

  /** Switching off treats sound and flash alike: an enabled one is turned off and remembered, a disabled one is forgotten. */
  lemma DisableRemembers(s: NotifySettings)
    requires s.desktopNotify
    ensures var t := Toggle(s).settings;
      && !t.soundNotify && !t.flashBounceNotify
      && (t.rememberedSoundNotifyFromTray <==> s.soundNotify)
      && (t.rememberedFlashBounceNotifyFromTray <==> s.flashBounceNotify)
  {
  }

  /** Switching on restores a setting exactly when it was remembered and is off; otherwise it and its remembered flag stay. */
  lemma EnableRestores(s: NotifySettings)
    requires !s.desktopNotify
    ensures var t := Toggle(s).settings;
      && (t.soundNotify <==> s.soundNotify || s.rememberedSoundNotifyFromTray)
      && (t.flashBounceNotify <==> s.flashBounceNotify || s.rememberedFlashBounceNotifyFromTray)
      && (t.rememberedSoundNotifyFromTray <==> s.rememberedSoundNotifyFromTray && s.soundNotify)
      && (t.rememberedFlashBounceNotifyFromTray <==> s.rememberedFlashBounceNotifyFromTray && s.flashBounceNotify)
  {
  }

  /**
   * DesktopEnabled is always reported, first; SoundEnabled and
   * FlashBounceEnabled are reported exactly when that setting changed, and
   * nothing is reported twice.
   */
  lemma ChangesReportedExactly(s: NotifySettings)
    ensures var t := Toggle(s);
      && |t.changes| >= 1 && t.changes[0] == DesktopEnabled
      && (SoundEnabled in t.changes <==> t.settings.soundNotify != s.soundNotify)
      && (FlashBounceEnabled in t.changes <==> t.settings.flashBounceNotify != s.flashBounceNotify)
      && (forall i, j | 0 <= i < j < |t.changes| :: t.changes[i] != t.changes[j])
  {
  }

  /** Off and then on, with nothing in between, gives back the original sound and flash settings; both remembered flags end cleared. */
  lemma DisableEnableRoundTrip(s: NotifySettings)
    requires s.desktopNotify
    ensures Toggle(Toggle(s).settings).settings
      == s.(rememberedSoundNotifyFromTray := false, rememberedFlashBounceNotifyFromTray := false)
  {
  }

  /**
   * The other order is not a round trip: with desktop notifications off and
   * sound on (enabled by hand in the meantime), on and then off leaves sound off.
   */
  lemma EnableDisableSilencesSound(s: NotifySettings)
    requires !s.desktopNotify && s.soundNotify
    ensures !Toggle(Toggle(s).settings).settings.soundNotify
  {
  }

  /** What the tray command did (Ui::show of the unlock box, or nothing), or the changes it reported. */
  datatype TrayToggleOutcome = AskedToUnlock | NoSession | Notified(changes: seq<ChangeType>)

  /** The application settings touched by the toggle. */
  class Settings {
    var desktopNotify: bool
    var soundNotify: bool
    var flashBounceNotify: bool
    var rememberedSoundNotifyFromTray: bool
    var rememberedFlashBounceNotifyFromTray: bool

    function Value(): NotifySettings
      reads this
    {
      NotifySettings(desktopNotify, soundNotify, flashBounceNotify,
        rememberedSoundNotifyFromTray, rememberedFlashBounceNotifyFromTray)
    }

    constructor (initial: NotifySettings)
      ensures Value() == initial
    {
      desktopNotify := initial.desktopNotify;
      soundNotify := initial.soundNotify;
      flashBounceNotify := initial.flashBounceNotify;
      rememberedSoundNotifyFromTray := initial.rememberedSoundNotifyFromTray;
      rememberedFlashBounceNotifyFromTray := initial.rememberedFlashBounceNotifyFromTray;
    }

    /**
     * The tray command.  While the passcode lock is on, it asks the user to
     * unlock; without a session it does nothing; in both cases no setting
     * changes.  Otherwise it performs Toggle and reports its changes.
     */
    method ToggleDisplayNotifyFromTray(locked: bool, hasSession: bool) returns (outcome: TrayToggleOutcome)
      modifies this
      ensures locked ==> outcome == AskedToUnlock && Value() == old(Value())
      ensures !locked && !hasSession ==> outcome == NoSession && Value() == old(Value())
      ensures !locked && hasSession ==>
        Value() == Toggle(old(Value())).settings && outcome == Notified(Toggle(old(Value())).changes)
    {
      if locked {
        return AskedToUnlock;
      }
      if !hasSession {
        return NoSession;
      }
      var soundNotifyChanged := false;
      var flashBounceNotifyChanged := false;
      desktopNotify := !desktopNotify;
      if desktopNotify {
        if rememberedSoundNotifyFromTray && !soundNotify {
          soundNotify := true;
          rememberedSoundNotifyFromTray := false;
          soundNotifyChanged := true;
        }
        if rememberedFlashBounceNotifyFromTray && !flashBounceNotify {
          flashBounceNotify := true;
          rememberedFlashBounceNotifyFromTray := false;
          flashBounceNotifyChanged := true;
        }
      } else {
        if soundNotify {
          soundNotify := false;
          rememberedSoundNotifyFromTray := true;
          soundNotifyChanged := true;
        } else {
          rememberedSoundNotifyFromTray := false;
        }
        if flashBounceNotify {
          flashBounceNotify := false;
          rememberedFlashBounceNotifyFromTray := true;
          flashBounceNotifyChanged := true;
        } else {
          rememberedFlashBounceNotifyFromTray := false;
        }
      }
      var changes := [DesktopEnabled];
      if soundNotifyChanged {
        changes := changes + [SoundEnabled];
      }
      if flashBounceNotifyChanged {
        changes := changes + [FlashBounceEnabled];
      }
      outcome := Notified(changes);
    }
  }
}
