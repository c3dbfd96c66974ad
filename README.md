# Caffeine inhibitor model

A Dafny model of the core of the GNOME Shell extension "Caffeine"
(`caffeine@patapon.info/extension.js`). The extension keeps a desktop
session from auto-suspending or starting its screensaver. It does this by
holding inhibitors on the `org.gnome.SessionManager` D-Bus interface. The
Inhibit flags are 12: suspend (4) plus idle (8).

The model covers:

- **The inhibitor ledger of the `Caffeine` indicator.**
  - Three parallel arrays: `_apps`, `_cookies` and `_objects`.
  - A single pending slot: `_last_app` and `_last_cookie`.
  - The aggregate flag `_state`.
  - The four places that change them: the Inhibit reply, the GetAppId reply
    inside `_inhibitorAdded`, `_inhibitorRemoved`, and `removeInhibit` (which
    only sends Uninhibit).
- **The facade.** `toggleState`, `_updateUserState`, `_saveUserState`,
  `_handleScrollEvent`, `toggleFullscreen` and the `inFullscreen` getter.
- **The countdown timer.**
  - `_startTimer` and `_removeTimer(reset)`.
  - The tick and expiry sources.
  - The `_printTimer` label.
  - The quick-settings toggle's timer menu: `_syncTimers`, `_sync` and
    `_checkTimer`.
- **The policies.**
  - Indicator and timer-label visibility.
  - The two night-light decisions.
  - The app-subscription map `_appData` and its reconciliation
    `_updateAppData`.
  - The settings migration in `enable`.

How the model is organised:

- `InhibitorLedger` (`ledger.dfy`) gives the ledger as a value, with pure
  transition functions and lemmas.
- The `Extension.Caffeine` class (`caffeine.dfy`) has the source's fields.
  Each of its event methods is proved against those transition functions.
- Settings are a key/value store (`Settings.Store`). A key holds a user value,
  or else reads its schema default. `Reset` drops the user value, as
  `GSettings.reset` does.
- Outgoing D-Bus calls, writes of the colour service's `DisabledUntilTomorrow`
  property and OSD pop-ups are appended to an `effects` log (`Calls.Effect`).
- Every asynchronous reply or signal is an explicit event method the caller
  invokes: `InhibitReply`, `InhibitorAdded`, `InhibitorsListed`, `AppIdReply`,
  `InhibitorRemoved`, `TimerTick`, `TimerExpired`, `FullscreenSettled`,
  `NightLightActiveChanged` and `InstalledChanged`.
- Settings change signals are not dispatched automatically either. Their
  handlers (`UpdateUserState`, `StartTimer`, `UpdateAppConfigs`, `Sync`,
  `IconName`, ...) are methods the caller runs after the writing method has
  returned. The code runs them synchronously inside the write (see
  "## Left out").

The model keeps these behaviours of the code:

- A holder is not guaranteed to be unique. `_appWindowsChanged` asks for an
  app's inhibitor without checking `_apps`, so an app can be recorded twice
  (`InhibitorLedger.DuplicateHolderKeepsSecondLease`).
- The pending slot is filled when the Inhibit reply arrives, not when the
  call is issued.
- Releasing a holder that is not held is not a no-op. It sends Uninhibit with
  `_cookies[-1]`, which is `undefined`.
- The timer is reset to duration 0 by `_removeTimer(false)`.
  `_removeTimer(true)` keeps the duration.
- `_updateAppData` drops entries whose id left the configuration. It does
  not drop entries whose app stopped resolving.
- The entry recorded by `_inhibitorAdded` carries the signal's object path.
  It does not carry the path whose GetAppId call answered.
- The night-light policy is read from the key `control-nightlight`. The
  migration in `enable` writes `nightlight-control` and resets
  `control-nightlight`. The model keeps both key names as written.
- `_init` resets `user-enabled` before reading it, so restore-state only
  turns inhibition back on when the schema default of `user-enabled` is
  true (`Extension.Caffeine.RestoreUserState`).
- A configured app id listed twice in `inhibit-apps` is subscribed twice.
  `_appData` keeps only the second handler id, so the first
  `windows-changed` handler stays connected after `destroy`
  (`AppWatch.DuplicateConfigLeaksHandler`).
- The two-second fullscreen re-checks `toggleFullscreen` schedules are not
  cancelled by `destroy`; `Destroy` leaves `pendingFullscreenChecks` as it is.
- The countdown label of a negative multiple of 60 seconds is "-1:-00",
  because `%` keeps the dividend's sign and `toLocaleString` prints `-0`
  with its sign (`TimerLabel.NegativeZeroLabel`).

## Model

| member | source | states |
|---|---|---|
| InhibitorLedger.IndexOf | caffeine@patapon.info/extension.js:390 | `indexOf`: -1 exactly when absent, otherwise the first index holding the value |
| InhibitorLedger.RemoveAt | caffeine@patapon.info/extension.js:534-536 | `splice(i, 1)`: one element shorter, elements before `i` kept, later ones shifted down by one |
| InhibitorLedger.RemoveAtMultiset | caffeine@patapon.info/extension.js:534-536 | a splice takes out exactly one occurrence of the removed element |
| InhibitorLedger.CookieAt | caffeine@patapon.info/extension.js:391 | reading `_cookies[i]` gives a cookie exactly for an index inside the array, `undefined` otherwise (including -1) |
| InhibitorLedger.UninhibitTarget | caffeine@patapon.info/extension.js:389-392 | `removeInhibit` sends `undefined` exactly for a holder not in `_apps`, otherwise the cookie stored beside its first entry |
| InhibitorLedger.ReleaseTargets | caffeine@patapon.info/extension.js:371 | releasing every holder sends one cookie per holder, each the one `removeInhibit` picks for it |
| InhibitorLedger.InhibitReplied | caffeine@patapon.info/extension.js:382-385 | the Inhibit reply fills the pending slot with the holder and cookie and leaves the confirmed entries and `_state` alone |
| InhibitorLedger.AppIdReplied | caffeine@patapon.info/extension.js:503-523 | a non-empty GetAppId reply equal to `_last_app` appends (holder, pending cookie, signal path), empties the slot and sets `_state`; any other reply changes nothing; the ledger shape is kept |
| InhibitorLedger.Removed | caffeine@patapon.info/extension.js:528-547 | an unknown path leaves the ledger unchanged; a known one shortens the arrays by one, keeps the pending slot, and keeps the shape (equal lengths, `_state` iff non-empty) |
| InhibitorLedger.RemovedKnownPath | caffeine@patapon.info/extension.js:529-536 | removal takes out exactly the entry at the path's first index from all three arrays; the others stay in order |
| InhibitorLedger.AtMostOneEntryPerReply | caffeine@patapon.info/extension.js:505-512 | any run of GetAppId replies with no Inhibit reply in between records at most one entry; with an empty slot it records none |
| InhibitorLedger.ReleaseAllDistinct | caffeine@patapon.info/extension.js:371 | with no duplicate holder, the release loop sends each entry's own cookie in ledger order |
| InhibitorLedger.UninhibitUnheld | caffeine@patapon.info/extension.js:389-392 | releasing a holder that is not held sends Uninhibit(`undefined`) |
| InhibitorLedger.UserLeaseRoundTrip | caffeine@patapon.info/extension.js:374-547 | from an empty ledger: the Inhibit reply (382-385) and the GetAppId confirmation (503-523) record the entry, release (389-392) sends the same cookie, and the removal signal for that path (528-547) empties the ledger again |
| InhibitorLedger.DuplicateHolderKeepsSecondLease | caffeine@patapon.info/extension.js:653-665 | two confirmed requests for one app record it twice; releasing all holders then sends the first cookie twice and never the second |
| TimerLabel.NatToString | caffeine@patapon.info/extension.js:445 | a non-negative number prints as at least one decimal digit |
| TimerLabel.NumeralOfNatToString | caffeine@patapon.info/extension.js:445 | the printed digits of a non-negative number read back as that number |
| TimerLabel.IntToString | caffeine@patapon.info/extension.js:439-445 | the minutes print with a leading minus exactly when negative, followed by digits that read back as their magnitude |
| TimerLabel.PadTwo | caffeine@patapon.info/extension.js:440-443 | `minimumIntegerDigits: 2` gives at least two digits, exactly two below 100, reading back as the number |
| TimerLabel.JsRemainder | caffeine@patapon.info/extension.js:440 | JavaScript `%` truncates: the remainder is smaller than the divisor in magnitude, takes the dividend's sign, and completes the dividend with the quotient rounded toward zero |
| TimerLabel.SecondsPart | caffeine@patapon.info/extension.js:440-443 | the seconds part is two digits worth `abs(s) mod 60`, with a minus sign exactly when `s` is negative (including `-0`) |
| TimerLabel.PrintTimer | caffeine@patapon.info/extension.js:438-446 | the label has a minus sign in front exactly when the time is negative, and a colon right before the seconds part |
| TimerLabel.PrintTimerRoundTrip | caffeine@patapon.info/extension.js:438-446 | every non-negative seconds-left value is recovered from its label |
| TimerLabel.PrintTimerInjective | caffeine@patapon.info/extension.js:438-446 | two different non-negative seconds-left values never show the same label |
| TimerLabel.MenuLabels | caffeine@patapon.info/extension.js:111-114 | 300, 600 and 1800 seconds print as "5:00", "10:00" and "30:00" |
| TimerLabel.OverrunLabel | caffeine@patapon.info/extension.js:422-426 | a tick past zero shows "-1:-01" (JavaScript floor and remainder on a negative count) |
| TimerLabel.NegativeZeroLabel | caffeine@patapon.info/extension.js:438-446 | at -60 seconds the remainder is `-0` and the label is "-1:-00" |
| Policies.IndicatorVisible | caffeine@patapon.info/extension.js:549-563 | ALWAYS shows the icon, NEVER hides it, ONLY_ACTIVE shows it exactly while inhibited |
| Policies.TimerLabelVisible | caffeine@patapon.info/extension.js:394-402 | the timer label is visible exactly when show-timer is set, the indicator mode is not NEVER and the timer is enabled |
| Policies.ManageNightLightWrite | caffeine@patapon.info/extension.js:565-583 | a write happens exactly under ALWAYS with night light active; it writes true for 'disabled' and false for 'enabled' |
| Policies.AppNightLightWrite | caffeine@patapon.info/extension.js:653-673 | a write happens exactly when the policy is above NEVER and night light is active; it writes whether the app is running |
| Policies.AppPathExtendsGeneralPath | caffeine@patapon.info/extension.js:566-568 | under ALWAYS the app path decides as the general path; under NEVER neither acts; under FOR_APPS only the app path acts |
| Policies.NightLightRestoredAfterCycle | caffeine@patapon.info/extension.js:565-583 | under unchanged settings, a path that suppresses night light on inhibit restores it on the matching uninhibit |
| Policies.InFullscreen | caffeine@patapon.info/extension.js:342-352 | the monitor scan returns true exactly when some monitor is in fullscreen |
| AppWatch.AddedApps | caffeine@patapon.info/extension.js:641-643 | the apps to subscribe are exactly the resolvable configured apps not already watched |
| AppWatch.KeptData | caffeine@patapon.info/extension.js:635-640 | after the removals, the entries left are those whose id is configured, with their old data |
| AppWatch.Reconciled | caffeine@patapon.info/extension.js:633-651 | after `_updateAppData` the watched apps are the old ones whose id is configured plus every app the configured ids resolve to |
| AppWatch.ReconciledConnectionsFresh | caffeine@patapon.info/extension.js:636-650 | the handlers connected afterwards are the old ones or new ids from `next` on, and every removed entry's handler is disconnected |
| AppWatch.AddedAppsDistinct | caffeine@patapon.info/extension.js:641-643 | with no configured id twice (and `lookup_app` returning the app of that id), no app is added twice |
| AppWatch.HandlersAdd | caffeine@patapon.info/extension.js:644-650 | recording a new app's subscription adds exactly its handler id |
| AppWatch.SubscribeHandlers | caffeine@patapon.info/extension.js:644-650 | subscribing distinct new apps connects exactly the handler ids handed out, one per app |
| AppWatch.ConnectionsMatchWatch | caffeine@patapon.info/extension.js:633-651 | with no configured id twice, the connected handlers stay exactly those recorded in `_appData` |
| AppWatch.DuplicateConfigLeaksHandler | caffeine@patapon.info/extension.js:633-651 | an id configured twice connects two handlers but records one; emptying the configuration then leaves the first connected |
| AppWatch.SubscribeSpec | caffeine@patapon.info/extension.js:644-650 | subscribing adds exactly the given apps, leaves the other entries alone and gives each new one a fresh handler id |
| AppWatch.ReconciledSpec | caffeine@patapon.info/extension.js:633-651 | after `_updateAppData` the keys are the old keys whose id is configured plus the resolvable configured apps; retained entries keep their data; new ones have fresh handler ids |
| AppWatch.ReconciledEmpty | caffeine@patapon.info/extension.js:709-710 | an empty configuration, as in `destroy`, empties `_appData` and disconnects exactly the handlers it recorded |
| AppWatch.ReconfigureExample | caffeine@patapon.info/extension.js:633-651 | reconfiguring {a, b} to {b, c} drops a, keeps b's subscription untouched and subscribes c |
| Migration.MigratedNightLightControl | caffeine@patapon.info/extension.js:728-735 | an enum is written exactly when the old flag is true: FOR_APPS when the per-app flag is also true, ALWAYS otherwise |
| Migration.MigrateNightLight | caffeine@patapon.info/extension.js:726-738 | the store gets the migrated enum (if any) and both old keys lose their user value |
| QuickToggle.ItemIds | caffeine@patapon.info/extension.js:184-194 | the menu gets an item for a `TIMERS` entry exactly when it has a label, keyed by that entry's duration |
| QuickToggle.ItemIdsStep | caffeine@patapon.info/extension.js:184-194 | each further labelled entry appends its duration to the item ids; an unlabelled one adds nothing |
| QuickToggle.TimerItemIds | caffeine@patapon.info/extension.js:112-117 | the `TIMERS` table gives the items 5, 10, 30 and 0, in that order |
| QuickToggle.Ornaments | caffeine@patapon.info/extension.js:198-206 | an item is checked exactly when its id is the active `countdown-timer` value |
| QuickToggle.OneItemChecked | caffeine@patapon.info/extension.js:198-206 | with distinct ids, `_sync` checks exactly one item when the active id has one, none otherwise |
| QuickToggle.MenuLabelsMatchCountdown | caffeine@patapon.info/extension.js:111-116 | each finite timer's menu label is the countdown label its duration starts from |
| QuickToggle.FeatureToggle.constructor | caffeine@patapon.info/extension.js:137-178 | the toggle starts with items 5, 10, 30, 0, the active one checked, and the icon following user-enabled |
| QuickToggle.FeatureToggle.SyncTimers | caffeine@patapon.info/extension.js:180-196 | one unchecked item per labelled timer, in table order; the menu is enabled |
| QuickToggle.FeatureToggle.AddItems | caffeine@patapon.info/extension.js:184-194 | the item loop creates exactly `ItemIds` of the table, all unchecked |
| QuickToggle.FeatureToggle.Sync | caffeine@patapon.info/extension.js:198-206 | the check marks become exactly the items whose id equals the stored duration |
| QuickToggle.FeatureToggle.CheckTimer | caffeine@patapon.info/extension.js:208-211 | choosing a timer stores its duration and sets countdown-timer-enabled; nothing else changes |
| QuickToggle.FeatureToggle.IconName | caffeine@patapon.info/extension.js:213-222 | the toggle shows the "on" icon exactly when user-enabled is set |
| Extension.ReleaseCalls | caffeine@patapon.info/extension.js:371 | the release loop sends one Uninhibit per holder, in order, each with the cookie `removeInhibit` picks |
| Extension.GetAppIds | caffeine@patapon.info/extension.js:498-503 | one GetAppId call per listed inhibitor path, in order |
| Extension.Caffeine.constructor | caffeine@patapon.info/extension.js:276-323 | a fresh indicator has an empty ledger, no timer and an empty pending slot; the user and timer keys are reset; it inhibits only when the defaults ask to restore; icon visibility follows the mode; the resolvable configured apps are watched |
| Extension.Caffeine.Start | caffeine@patapon.info/extension.js:290-323 | the steps of `_init` after the fields are set: the ledger and the timer are untouched, the three keys are reset, the user holder is requested only when restoring, icon visibility follows the mode, and the configured apps are watched and connected |
| Extension.Caffeine.RestoreUserState | caffeine@patapon.info/extension.js:290-299 | the three keys are reset; the user holder is requested (and night light suppressed by policy) only when user-enabled and restore-state both hold |
| Extension.Caffeine.StartWatches | caffeine@patapon.info/extension.js:301-323 | icon visibility is set; one fullscreen re-check is scheduled when enabled; the configured apps are watched; no call is sent while nothing is held |
| Extension.Caffeine.ToggleFullscreen | caffeine@patapon.info/extension.js:354-366 | a two-second re-check is always scheduled; the fullscreen holder is released (and night light restored by policy) exactly when no monitor is fullscreen and it is held |
| Extension.Caffeine.FullscreenSettled | caffeine@patapon.info/extension.js:355-360 | the deferred check requests the fullscreen holder (and suppresses night light by policy) exactly when a monitor is still fullscreen and the holder is not held |
| Extension.Caffeine.ToggleState | caffeine@patapon.info/extension.js:368-377 | when inhibited: the timer is reset with the duration, every holder is released and night light is restored; otherwise the user holder is requested and night light is suppressed; the ledger is untouched |
| Extension.Caffeine.AddInhibit | caffeine@patapon.info/extension.js:379-387 | only the Inhibit call (flags 12, reason "Inhibit by Caffeine") is sent; the ledger is untouched until the reply |
| Extension.Caffeine.InhibitReply | caffeine@patapon.info/extension.js:382-385 | the reply moves the ledger by `InhibitReplied` |
| Extension.Caffeine.RemoveInhibit | caffeine@patapon.info/extension.js:389-392 | only an Uninhibit with the cookie at the holder's index is sent; the ledger and `_state` are untouched |
| Extension.Caffeine.UninhibitAll | caffeine@patapon.info/extension.js:371 | the release loop sends exactly `ReleaseCalls` of the current ledger |
| Extension.Caffeine.ShowIndicatorLabel | caffeine@patapon.info/extension.js:394-402 | the label visibility becomes `TimerLabelVisible` of the current settings and timer flag |
| Extension.Caffeine.ArmTimer | caffeine@patapon.info/extension.js:418-434 | a non-zero duration sets the seconds left, shows the label with the full duration, and attaches both sources |
| Extension.Caffeine.StartTimer | caffeine@patapon.info/extension.js:404-436 | with timer-enabled set: the old timer is torn down and user-enabled is set; a zero duration schedules nothing and leaves the label cleared; otherwise both sources run and the label shows the full duration; with it unset nothing changes |
| Extension.Caffeine.TimerTick | caffeine@patapon.info/extension.js:422-426 | a tick decrements the seconds left and shows their label |
| Extension.Caffeine.RefreshTimerLabel | caffeine@patapon.info/extension.js:438-446 | the label text becomes `_printTimer` of the seconds left |
| Extension.Caffeine.TimerExpired | caffeine@patapon.info/extension.js:428-433 | expiry clears both handles and the label, resets the duration to 0, ends the timer and sets user-enabled false |
| Extension.Caffeine.RemoveTimer | caffeine@patapon.info/extension.js:448-465 | both handles are cleared, timer-enabled is false and the label is null; with `reset` false the duration is also 0 and `_timerEnable` false, with `reset` true both are kept |
| Extension.Caffeine.HandleScrollEvent | caffeine@patapon.info/extension.js:472-495 | up while idle sets user-enabled; down while inhibited resets the timer and clears user-enabled; either shows the OSD only when notifications are off; other cases change nothing |
| Extension.Caffeine.InhibitorAdded | caffeine@patapon.info/extension.js:497-498 | the signal only sends GetInhibitors |
| Extension.Caffeine.InhibitorsListed | caffeine@patapon.info/extension.js:498-503 | the GetInhibitors reply sends one GetAppId per listed inhibitor |
| Extension.Caffeine.AppIdReply | caffeine@patapon.info/extension.js:503-523 | the ledger moves by `AppIdReplied`; a matching 'user' reply saves user-enabled true; the first entry updates the icon's visibility and shows the OSD when notifications are on and nothing is fullscreen |
| Extension.Caffeine.PushHolder | caffeine@patapon.info/extension.js:508-515 | a matching reply appends the pending holder, its cookie and the signal path to the ledger as `AppIdReplied` does, empties the slot and turns the state on |
| Extension.Caffeine.InhibitorRemoved | caffeine@patapon.info/extension.js:528-547 | the ledger moves by `Removed`; removing 'user' saves user-enabled false; removing the last entry updates the icon's visibility and shows the OSD when notifications are on; an unknown path changes nothing |
| Extension.Caffeine.ManageShowIndicator | caffeine@patapon.info/extension.js:549-563 | the icon visibility becomes `IndicatorVisible` of `_state` and the mode |
| Extension.Caffeine.ManageNightLight | caffeine@patapon.info/extension.js:565-583 | the write `ManageNightLightWrite` decides is sent, and `_night_light` records whether one was |
| Extension.Caffeine.NightLightActiveChanged | caffeine@patapon.info/extension.js:47-52 | the cached `NightLightActive` property takes the new value |
| Extension.Caffeine.UpdateAppConfigs | caffeine@patapon.info/extension.js:613-619 | the configured ids are reread from inhibit-apps and the watch list is reconciled against them |
| Extension.Caffeine.UpdateUserState | caffeine@patapon.info/extension.js:621-626 | when user-enabled differs from the remembered state, the state follows it and the indicator toggles; otherwise nothing changes |
| Extension.Caffeine.SaveUserState | caffeine@patapon.info/extension.js:628-631 | the remembered state and user-enabled both take the value, so the handler that follows does nothing |
| Extension.Caffeine.UpdateAppData | caffeine@patapon.info/extension.js:633-651 | `_appData` becomes `Reconciled` of its old value, the configured ids and the registry, with fresh handler ids; the connected handlers become `ReconciledConnections` |
| AppWatch.Subscriptions.constructor | caffeine@patapon.info/extension.js:310-311 | the indicator starts with no subscriptions, nothing connected and handler ids from 1 |
| AppWatch.Subscriptions.DisconnectRemoved | caffeine@patapon.info/extension.js:634-640 | the entries whose id left the configuration are dropped and exactly their handlers disconnected |
| AppWatch.Subscriptions.ConnectAdded | caffeine@patapon.info/extension.js:644-650 | each added app is subscribed in order with the next handler id, and those ids are connected |
| Extension.Caffeine.InstalledChanged | caffeine@patapon.info/extension.js:250-252 | a registry change reconciles the watch list against the new registry |
| Extension.Caffeine.AppWindowsChanged | caffeine@patapon.info/extension.js:653-673 | a running app's holder is requested and a stopped app's released; the night-light write `AppNightLightWrite` decides is sent and recorded |
| Extension.Caffeine.Destroy | caffeine@patapon.info/extension.js:675-712 | every holder is released with the cookie `removeInhibit` picks, both timer sources are removed, `_appData` is emptied and the handlers it recorded are disconnected |

## Left out

- The indicator's icon swaps are not modelled: the `gicon` assignments in
  `_init` (line 274), in the GetAppId reply (line 517) and in
  `_inhibitorRemoved` (line 541). Only the icon's visibility is.
- The toggle menu's header subtitle that `_updateLabelTimer` sets
  (line 469) is not modelled; the model keeps the label text itself as
  `timerLabel`.
- The widget objects themselves (St/Clutter labels, the panel button, the
  menu items' actors, the menu header icon) and the deprecated
  `Main.notify` path (`_sendNotification`) are presentation and are not
  modelled. OSD pop-ups are recorded only as `ShowOsd` effects.
- The Gtk icon-theme replacement and icon-file lookup are host-library glue.
- The model has no real D-Bus proxies or GLib/Mainloop timeouts. Replies,
  signals and timeouts are event methods. The model does not enforce the
  timing between them: ticks against the 1-second period, or expiry only
  after `duration` seconds.
- Extension.Caffeine.InhibitReply: models only a successful reply carrying a
  cookie. An Inhibit call that fails, and the `null` result its callback
  would store, are not modelled.
- Extension.Caffeine.AppIdReply: the GetAppId reply is given directly with
  the signal's object path. The model does not track which listed inhibitor
  the reply came from, because the code never uses that path.
- Keybinding registration, translation initialisation and the module-level
  `init`/`disable` functions are host APIs. `ToggleState` is called directly.
- The connect/disconnect bookkeeping of the other signals in `destroy` and
  in `_init` (screen, session manager, display, window manager, registry) is
  host plumbing and is not modelled. Only the per-app `windows-changed`
  handlers are tracked, in the `connected` set of `AppWatch.Subscriptions`.
- Cookies and handler ids are unbounded naturals. D-Bus `u` cookies are
  32-bit, but the code never does arithmetic on them.
- Settings change signals are not dispatched automatically. In the code,
  GSettings runs a `changed::` handler synchronously inside the
  `set_boolean`/`set_int` call, in the middle of the function that writes.
  The model runs each handler as a separate method after the writing method
  returns, so the nesting and the interleaving of effects are not captured:
- Extension.Caffeine.HandleScrollEvent: in the code, the `user-enabled`
  handler (`_updateUserState`, then `toggleState`) runs inside the write at
  line 477 or 488. Its Inhibit or Uninhibit calls are therefore sent before
  the OSD at line 480 or 491. In the model the `ShowOsd` effect is logged
  first, and the handler's calls follow when `UpdateUserState` is run.
- Extension.Caffeine.StartTimer: in the code, the write of `user-enabled`
  at line 412 runs `toggleState` before the duration is read at line 415.
  When an app or fullscreen holder keeps the session inhibited and the user
  state is off, `toggleState` takes its inhibited branch: `_removeTimer(false)`
  sets `countdown-timer` to 0. The code then arms no timer and leaves the
  label's visibility alone. The model reads the duration as it was, so it
  arms the timer and shows the label.
- Extension.Caffeine.UpdateUserState: it is the `user-enabled` handler,
  but the model does not run it from inside the writes in `StartTimer`,
  `HandleScrollEvent`, `TimerExpired` and `SaveUserState`. The caller
  runs it afterwards.
- Timer source handles are booleans (attached or not), not GLib source ids.
  `GLib.Source.remove(null)` for a missing handle is not modelled, because
  both handles are attached and removed together.
