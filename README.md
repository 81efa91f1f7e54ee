# Telegram Desktop: main-window decision rules and inline-bot send data

A Dafny model of the small pieces of decision logic in Telegram Desktop's main
window (`Telegram/SourceFiles/mainwindow.cpp`) and in the conversion of an
inline-bot result into a message (`Telegram/SourceFiles/inline_bots/inline_bot_send_data.cpp`).
The window, its widgets, painting and the protocol constructors stay outside;
what they decide is modelled on values and classes.

- `LangTestingKey` (lang_testing_key.dfy): the hidden F7, F6, F7, F8 code that switches to the
  test language. The function-static counter is a field of `LangTestingCode`; a ghost field keeps
  the keys fed, and `Run` gives the counter for any key history.
- `TrayNotify` (tray_notify.dfy): the tray's "toggle notifications" command. `Toggle` states one
  real toggle over the five settings. `Settings.ToggleDisplayNotifyFromTray` carries out the
  source's step-by-step updates, with the lock and session checks. The change notifications
  become a returned list of change kinds, in emission order.
- `MainWindowRules` (main_window.dfy): the window-state classification of `eventFilter`, the
  priority chains of `grabInner` and `setInnerFocus`, and the tray click filter (`skipTrayClick`
  and the `_lastTrayClickTime` update in `handleTrayIconActication`).
- `CounterIcon` (counter_icon.dfy): `iconWithCounter` and `placeSmallCounter`, reduced to the icon
  size, the logo, the badge and the badge text, including `QString::arg` decimal and zero-padded
  formatting.
- `InlineBotSendData` (inline_bot_send_data.dfy): the send-error choice of every result kind, the
  fields of the sent message, the flags `addToHistory` adds, the history append, and the contact
  description fallback.
- `Priority` (priority.dfy) and `Wrappers` (wrappers.dfy): "first present candidate" as a
  reference definition for the cascades, and `Option`.

Inputs that come from outside the model are parameters:
- the clock (`crl::now()`) and the double-click interval;
- whether the passcode lock is on and whether a session exists;
- which child widgets exist;
- the restriction lookups, as a map from restriction to error text;
- the converted entities;
- the phone formatter, as a function argument;
- the support-mode flag;
- whether the window counts as active for the tray menu (`isActiveForTrayMenu()`).

Constants the source takes from Qt and the Telegram API schema:
- Qt key codes `Key_F6` = 0x01000035, `Key_F7` = 0x01000036 and `Key_F8` = 0x01000037.
- Qt window-state bits: minimized 0x1, maximized 0x2, full screen 0x4.
- From the Telegram API schema: the message flags `f_reply_to` (bit 3) and `f_entities` (bit 7),
  and the live-location flags `f_heading` (bit 0) and `f_proximity_notification_radius` (bit 1).

Text, geo, venue, contact and invoice results are `SendDataCommon` kinds: they override
`getSentMessageFields`. Photo, file and game results override `addToHistory` themselves.

## Model

| member | source | states |
|---|---|---|
| `LangTestingKey.Advance` | Telegram/SourceFiles/mainwindow.cpp:68-75 | the counter moves forward exactly when the key is the one the code expects at that position; any other key, F7 included, resets it to 0 |
| `LangTestingKey.Settle` | Telegram/SourceFiles/mainwindow.cpp:76-79 | a completed code (counter 4) is consumed and the counter restarts at 0; any other step is kept, so the stored counter stays in 0..3 |
| `LangTestingKey.Run` | Telegram/SourceFiles/mainwindow.cpp:66-80 | after any key history the counter is in 0..3 |
| `LangTestingKey.LangTestingCode.Feed` | Telegram/SourceFiles/mainwindow.cpp:66-80 | one key press updates the counter to `Run` of the extended history, keeps it in 0..3, and reports the switch exactly when `Fires` holds |
| `LangTestingKey.LangTestingCode.constructor` | Telegram/SourceFiles/mainwindow.cpp:67 | the counter starts at 0 with no keys fed |
| `LangTestingKey.Fires` | Telegram/SourceFiles/mainwindow.cpp:76-79 | the switch fires only on an F8 that arrives while the counter stands at 3 |
| `LangTestingKey.RunIsMatchedPrefix` | Telegram/SourceFiles/mainwindow.cpp:68-75 | a counter of n means the last n keys fed are the first n keys of F7, F6, F7, F8 |
| `LangTestingKey.FiresIff` | Telegram/SourceFiles/mainwindow.cpp:68-79 | the switch fires iff the last four keys are F7, F6, F7, F8 and the counter was 0 before them |
| `LangTestingKey.FiresOnlyAfterCode` | Telegram/SourceFiles/mainwindow.cpp:76-79 | when the switch fires, the last four keys were the code and the counter is back to 0 in the same call |
| `LangTestingKey.CodeFromRestFires` | Telegram/SourceFiles/mainwindow.cpp:65-80 | typing the full code from counter 0 always fires |
| `LangTestingKey.RepeatedF7Resets` | Telegram/SourceFiles/mainwindow.cpp:68-74 | F7 after a lone F7 resets to 0 and does not count as a new start |
| `TrayNotify.Settings.ToggleDisplayNotifyFromTray` | Telegram/SourceFiles/mainwindow.cpp:747-800 | while locked it asks to unlock, without a session it does nothing, and in both cases no setting changes; otherwise the settings become `Toggle` of the old ones and exactly `Toggle`'s changes are reported |
| `TrayNotify.Settings.constructor` | Telegram/SourceFiles/mainwindow.cpp:759 | the settings object holds the given values |
| `TrayNotify.Toggle` | Telegram/SourceFiles/mainwindow.cpp:757-799 | every toggle negates `desktopNotify` (line 760) and reports DesktopEnabled first; switching on never turns off sound or flash that were on |
| `TrayNotify.DisableRemembers` | Telegram/SourceFiles/mainwindow.cpp:774-789 | switching off turns sound and flash off, and each remembered flag becomes whether that setting had been on |
| `TrayNotify.EnableRestores` | Telegram/SourceFiles/mainwindow.cpp:761-773 | switching on turns a setting on and clears its remembered flag only when it was remembered and off; otherwise both stay |
| `TrayNotify.ChangesReportedExactly` | Telegram/SourceFiles/mainwindow.cpp:757-799 | DesktopEnabled is reported first, always; SoundEnabled and FlashBounceEnabled exactly when that setting changed; nothing twice |
| `TrayNotify.DisableEnableRoundTrip` | Telegram/SourceFiles/mainwindow.cpp:760-789 | off then on restores the original sound and flash values, with both remembered flags cleared |
| `TrayNotify.EnableDisableSilencesSound` | Telegram/SourceFiles/mainwindow.cpp:761-789 | on then off is no round trip: sound that was on while desktop notifications were off ends up off |
| `MainWindowRules.ClassifyWindowState` | Telegram/SourceFiles/mainwindow.cpp:679-681 | the reported state is the set bit of highest precedence (minimized, then maximized, then full screen), NoState iff none is set |
| `MainWindowRules.ClassifyIgnoresOtherBits` | Telegram/SourceFiles/mainwindow.cpp:679-681 | bits other than these three never change the result |
| `MainWindowRules.GrabInner` | Telegram/SourceFiles/mainwindow.cpp:249-258 | a grabbed widget exists, and nothing is grabbed only when none of the three widgets exists |
| `MainWindowRules.SetInnerFocus` | Telegram/SourceFiles/mainwindow.cpp:628-640 | a focus target can take focus, and nothing is focused only when no target can |
| `MainWindowRules.GrabInnerIsFirstPresent` | Telegram/SourceFiles/mainwindow.cpp:249-258 | the grabbed widget is the first present of passcode lock, intro and main, or none |
| `MainWindowRules.SetInnerFocusIsFirstPresent` | Telegram/SourceFiles/mainwindow.cpp:628-640 | focus goes to the first present of theme warning, focusable layer, passcode lock, main and intro |
| `MainWindowRules.GrabAndFocusDisagreeOnIntroAndMain` | Telegram/SourceFiles/mainwindow.cpp:628-640 | with both intro and main present (and nothing above them), the intro is grabbed but the main widget gets focus |
| `MainWindowRules.PasscodeLockWins` | Telegram/SourceFiles/mainwindow.cpp:250-251 | a present passcode lock is always grabbed, and focused unless a warning or focusable layer is above it |
| `MainWindowRules.SkipTrayClick` | Telegram/SourceFiles/mainwindow.cpp:741-745 | a click is skipped only after a recorded click at a positive time and within the interval of it; with no recorded click, or a non-positive interval and a click not earlier than the recorded one, nothing is skipped |
| `MainWindowRules.TrayClicks.HandleTrayIconActivation` | Telegram/SourceFiles/mainwindow.cpp:726-738 | the context reason shows the menu; another click inside the double-click interval is ignored; otherwise it minimizes or shows the window and records its time as the last handled click |
| `MainWindowRules.TrayClicks.constructor` | Telegram/SourceFiles/mainwindow.cpp:741-745 | no click has been handled yet and the recorded time is 0 |
| `MainWindowRules.IgnoredWithinIntervalOfLastHandled` | Telegram/SourceFiles/mainwindow.cpp:736-745 | once a click at a positive time has been handled, a later click is skipped iff it comes less than the interval after that last handled click |
| `MainWindowRules.NothingIgnoredBeforeFirstHandled` | Telegram/SourceFiles/mainwindow.cpp:741-745 | before any click has been handled no click is skipped |
| `MainWindowRules.ThreeQuickClicks` | Telegram/SourceFiles/mainwindow.cpp:726-745 | of three clicks within the interval of the first, the first minimizes or shows the window and the second and third are ignored; only the first is recorded as handled, so the third is measured from the first, not the second |
| `CounterIcon.LayerBadgeSize` | Telegram/SourceFiles/mainwindow.cpp:897-898 | 16, 20 and 24 pixels are kept and every other size becomes 32, so a badge is always 16, 20, 24 or 32 pixels |
| `CounterIcon.AppIconSize` | Telegram/SourceFiles/mainwindow.cpp:944-945 | 16 and 32 pixels are kept and every other size becomes 64, so an icon is always 16, 32 or 64 pixels |
| `CounterIcon.NatToDecimal` | Telegram/SourceFiles/mainwindow.cpp:902 | the decimal text of a natural number is non-empty, all digits, and starts with 0 only for 0 |
| `CounterIcon.IntToDecimal` | Telegram/SourceFiles/mainwindow.cpp:856-902 | the decimal text of an integer is non-empty, starts with a minus sign iff the number is negative, and is otherwise digits |
| `CounterIcon.NatToDecimalIsDecimalOf` | Telegram/SourceFiles/mainwindow.cpp:902 | the decimal text of n is the canonical spelling of n: digits spelling n, with no leading zero |
| `CounterIcon.LayerLabel` | Telegram/SourceFiles/mainwindow.cpp:902 | the layer label is non-empty and starts with ".." iff the count is 1000 or more |
| `CounterIcon.SmallLabel` | Telegram/SourceFiles/mainwindow.cpp:856 | the small label is non-empty and starts with ".." iff the count is 100 or more |
| `CounterIcon.IconWithCounter` | Telegram/SourceFiles/mainwindow.cpp:891-967 | a negative size gives a bare layer badge of the normalised opposite size with the layer label; otherwise the normalised icon, the margin-less logo iff small, blackened iff support mode, with a counter iff the count is non-zero |
| `CounterIcon.SmallIconCounter` | Telegram/SourceFiles/mainwindow.cpp:954-957 | a small icon with a non-zero count carries the small label |
| `CounterIcon.OverlaidBadgeSide` | Telegram/SourceFiles/mainwindow.cpp:958-964 | a large icon carries a layer badge at half its side; the badge is half the icon for 32 and 64 pixels but 32 pixels for a 16-pixel icon |
| `CounterIcon.LayerLabelFitsFour` | Telegram/SourceFiles/mainwindow.cpp:902 | the layer label is at most four characters for every count from -999 on |
| `CounterIcon.LayerLabelShowsCount` | Telegram/SourceFiles/mainwindow.cpp:902 | below 1000 the label is the canonical decimal of the count (digits spelling it, no leading zero), with a minus sign before the canonical decimal of its magnitude for negative counts |
| `CounterIcon.LayerLabelAbbreviates` | Telegram/SourceFiles/mainwindow.cpp:902 | from 1000 on the label is ".." followed by exactly two digits spelling count % 100 |
| `CounterIcon.LayerLabelPeriodic` | Telegram/SourceFiles/mainwindow.cpp:900-902 | counts of 1000 and more that agree modulo 1000 get the same label |
| `CounterIcon.PaddedTwoDigits` | Telegram/SourceFiles/mainwindow.cpp:902 | `arg(n, 2, 10, QChar('0'))` of n below 100 is exactly two digits spelling n |
| `CounterIcon.SmallLabelShape` | Telegram/SourceFiles/mainwindow.cpp:856 | the small label is at most three characters from -99 on, and from 100 on is ".." and the last digit |
| `CounterIcon.SmallLabelShowsCount` | Telegram/SourceFiles/mainwindow.cpp:856 | below 100 the small label is the canonical decimal of the count, with a minus sign before the canonical decimal of its magnitude for negative counts |
| `CounterIcon.DecimalRoundTrip` | Telegram/SourceFiles/mainwindow.cpp:902 | the decimal text of a count reads back as that count |
| `CounterIcon.LeftPadded` | Telegram/SourceFiles/mainwindow.cpp:902 | zero padding right-aligns the digits in the field width, filling only on the left |
| `InlineBotSendData.ErrorOnSend` | Telegram/SourceFiles/inline_bots/inline_bot_send_data.cpp:82-265 | with no applicable restriction in force the error is empty, and a non-empty error is the text of an applicable restriction in force. Applicable means send messages for common results (82-89), media for photos (175-182), media, stickers and GIFs for files (210-231), and games for games (258-265) |
| `InlineBotSendData.FileErrorOnSend` | Telegram/SourceFiles/inline_bots/inline_bot_send_data.cpp:210-231 | a media error always wins; a non-empty error is the media error, the sticker error for a sticker, or the GIF error for an animation that is not a video message; with none of these applicable and in force the error is empty |
| `InlineBotSendData.ErrorOnSendIsFirstApplicable` | Telegram/SourceFiles/inline_bots/inline_bot_send_data.cpp:210-231 | every result's error is that of the first applicable restriction in force, in precedence order, or empty |
| `InlineBotSendData.FileMediaErrorFirst` | Telegram/SourceFiles/inline_bots/inline_bot_send_data.cpp:222-223 | for a file the media restriction, when in force, is the error |
| `InlineBotSendData.FileStickerErrorOnlyForStickers` | Telegram/SourceFiles/inline_bots/inline_bot_send_data.cpp:224-225 | for a non-sticker document the sticker restriction has no influence |
| `InlineBotSendData.FileGifErrorOnlyForAnimations` | Telegram/SourceFiles/inline_bots/inline_bot_send_data.cpp:226-229 | the GIF restriction has no influence unless the document is an animation that is not a video message |
| `InlineBotSendData.FileErrorPrecedence` | Telegram/SourceFiles/inline_bots/inline_bot_send_data.cpp:222-230 | without a media error a sticker gets the sticker error, and an animation gets the GIF error only when no sticker error applies |
| `InlineBotSendData.SentFields` | Telegram/SourceFiles/inline_bots/inline_bot_send_data.cpp:91-139 | only text results carry text and entities. A location is live iff it has a period; it flags heading and proximity radius iff present and sends 0 for absent ones; without a period it is plain geo media with just the location. A venue carries its location, title, address, provider and id with an empty venue type. A contact carries phone, first and last name with an empty vcard and user id 0. An invoice carries its description (lines 267-271) |
| `InlineBotSendData.SentMessageFlags` | Telegram/SourceFiles/inline_bots/inline_bot_send_data.cpp:44-52 | f_entities is set iff it was or there are entities, f_reply_to iff it was or the reply id is non-zero, and every other bit is kept |
| `InlineBotSendData.LocalContentOf` | Telegram/SourceFiles/inline_bots/inline_bot_send_data.cpp:149-256 | a photo result becomes a local photo with its photo, caption and entities; a file result becomes a local document with its document, caption and entities; a game result becomes a local game with its game |
| `InlineBotSendData.AddToHistory` | Telegram/SourceFiles/inline_bots/inline_bot_send_data.cpp:31-80 | exactly one item is appended and the earlier ones are kept. The item is a new message iff the result is common: from its sent fields, with those flags, views 1 and forwards 0. Photos, files and games become local messages with the caller's flags and their content |
| `InlineBotSendData.History.constructor` | Telegram/SourceFiles/inline_bots/inline_bot_send_data.cpp:33 | a history of the given peer starts empty |
| `InlineBotSendData.LayoutDescription` | Telegram/SourceFiles/inline_bots/inline_bot_send_data.cpp:141-147 | a contact shows the result's description when non-empty, else its formatted phone; an invoice its own description; other kinds the result's |
| `InlineBotSendData.ContactDescriptionNonEmpty` | Telegram/SourceFiles/inline_bots/inline_bot_send_data.cpp:141-147 | a contact whose phone formats to a non-empty text never shows an empty description |

## Left out

- Widget creation, show/hide, animations, geometry, z-order (`fixOrder`), the focus calls themselves and all painting. These are toolkit side effects. The model keeps only which widget is chosen, and which icon size, logo, badge and text are used.
- Font sizes, badge paddings and corner radii in `iconWithCounter`/`placeSmallCounter`: they only feed pixel geometry that depends on font metrics.
- Event-filter dispatch: the language code is fed only for key presses on the window handle in debug mode, and the state is classified only for the window's own state changes. That routing, and the mouse, activation and move events, are not modelled.
- `MainWindowRules.TrayClicks.HandleTrayIconActivation`: the source reads the clock twice. It reads it once in `skipTrayClick`, and again when it records the click, after minimizing or showing the window. The model passes one `now` for both, so it does not capture time passing during `minimizeToTray`/`showFromTray`.
- `LangTestingKey.LangTestingCode`: in the source `codeState` is a function-static variable, so one counter is shared by every window. The model gives each object its own counter, so it does not capture keys fed through two windows advancing the same code.
- The macOS branch of the tray activation (for an active window: shown from the tray when the tray icon has no context menu, otherwise nothing; the click is not recorded either way): platform-specific.
- Tray menu construction, `crl::on_main`/`InvokeQueued`/`call_delayed`, `rpl` streams, `saveSettings` and notification dispatch: event-loop plumbing. Changes are returned as a list.
- The unlock box and `showFromTray` in the locked case: both become the `AskedToUnlock` outcome.
- `Toggle` models `ChangeType` with only the three kinds the toggle reports.
- MTP constructors, `Api::EntitiesToMTP`, `NewMessageReplyHeader`, `Data::RestrictionError`, `App::formatPhone`, `peerToMTP` and `LocationPoint::toMTP`: foreign calls. They appear as inputs, or as plain values in the appended history item.
- `history->addNewMessage` and `history->addNewLocalMessage`: foreign calls. Each call becomes exactly one item appended to `History.items`, which records the calls made. What the history then does with a message (ordering, deduplication, unread counters) is not modelled.
- `SendData::getLayoutTitle`: it passes the result's title through unchanged.
- An invoice's media is modelled by its description only.
