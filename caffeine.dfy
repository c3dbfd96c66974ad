/** The `Caffeine` system indicator: the inhibitor ledger, the countdown
    timer, the fullscreen and per-app watches and the night-light side
    effect, with every asynchronous callback of the shell turned into an
    event method the environment calls. */
module Extension {
  import opened Wrappers
  import opened Settings
  import opened Calls
  import InhibitorLedger
  import opened Policies
  import opened AppWatch
  import TimerLabel

  /** `Clutter.ScrollDirection`. */
  datatype ScrollDirection = Up | Down | Left | Right | Smooth

  /** The Uninhibit calls `removeInhibit` issues for `holders`, one by one:
      one per cookie `ReleaseTargets` names. */
  function ReleaseCalls(l: InhibitorLedger.Ledger, holders: seq<string>): (es: seq<Effect>)
    requires InhibitorLedger.Valid(l)
    ensures |es| == |holders|
    ensures forall k :: 0 <= k < |es| ==> es[k] == Uninhibit(InhibitorLedger.UninhibitTarget(l, holders[k]))
  {
    var targets := InhibitorLedger.ReleaseTargets(l, holders);
    seq(|holders|, k requires 0 <= k < |holders| => Uninhibit(targets[k]))
  }

  /** Releasing one more holder appends its Uninhibit call. */
  lemma ReleaseCallsSnoc(l: InhibitorLedger.Ledger, holders: seq<string>, holder: string)
    requires InhibitorLedger.Valid(l)
    ensures ReleaseCalls(l, holders + [holder]) ==
      ReleaseCalls(l, holders) + [Uninhibit(InhibitorLedger.UninhibitTarget(l, holder))]
  {
  }

  /** One `GetAppId` call per inhibitor path, in order. */
  function GetAppIds(paths: seq<string>): (es: seq<Effect>)
    ensures |es| == |paths|
    ensures forall k :: 0 <= k < |es| ==> es[k] == GetAppId(paths[k])
  {
    seq(|paths|, k requires 0 <= k < |paths| => GetAppId(paths[k]))
  }

  /** The settings `_removeTimer(reset)` leaves: the duration back to 0 unless
      `reset`, and timer-enabled false either way. */
  function TimerRemovedSettings(values: map<Key, Value>, reset: bool): map<Key, Value> {
    (if reset then values else values[TimerKey := IntValue(0)])[TimerEnabledKey := BoolValue(false)]
  }

  class Caffeine {
    const settings: Store

    // The inhibitor ledger (`_state`, `_userState`, `_last_app`, `_last_cookie`,
    // `_apps`, `_cookies`, `_objects`).
    var state: bool
    var userState: bool
    var lastApp: string
    var lastCookie: Option<nat>
    var apps: seq<string>
    var cookies: seq<nat>
    var objects: seq<string>

    // The countdown timer: whether each of the two GLib sources is attached
    // (its handle is non-zero), `_timerEnable`, the `secondLeft` counter of
    // the tick closure and the label text.
    var timeOut: bool
    var timePrint: bool
    var timerEnable: bool
    var secondLeft: int
    var timerLabel: Option<string>

    // Visibility of the panel icon and of the timer label.
    var indicatorVisible: bool
    var timerLabelVisible: bool

    // Night light: `_night_light`, and the colour service's `NightLightActive`.
    var nightLight: bool
    var nightLightActive: bool

    // App watch: the app registry `lookup_app` consults, `_appConfigs`,
    // and `_appData` with its signal handlers.
    var appSystem: map<string, App>
    var appConfigs: seq<string>
    const subscriptions: Subscriptions

    // Two-second fullscreen re-checks scheduled and not yet run.
    var pendingFullscreenChecks: nat

    // Everything sent to the session manager, the colour service and the OSD.
    var effects: seq<Effect>

    function LedgerView(): InhibitorLedger.Ledger
      reads this`apps, this`cookies, this`objects, this`lastApp, this`lastCookie, this`state
    {
      InhibitorLedger.Ledger(apps, cookies, objects, lastApp, lastCookie, state)
    }

    /** The object invariant: the ledger's shape, the timer's handles, and
        fresh handler ids. */
    ghost predicate Valid()
      reads this, subscriptions
    {
      LedgerValid() && TimerValid() && WatchValid()
    }

    ghost predicate LedgerValid()
      reads this`apps, this`cookies, this`objects, this`lastApp, this`lastCookie, this`state
    {
      InhibitorLedger.Valid(LedgerView())
    }

    /** The tick and the expiry are attached and removed together. */
    ghost predicate TimerValid()
      reads this`timeOut, this`timePrint
    {
      timeOut <==> timePrint
    }

    /** Every subscription's handler id is below the next one handed out. */
    ghost predicate WatchValid()
      reads subscriptions
    {
      subscriptions.Valid()
    }

    /** The timer's fields after `_removeTimer(reset)`. */
    twostate predicate TimerCleared(reset: bool)
      reads this`timeOut, this`timePrint, this`timerLabel, this`timerEnable
    {
      && !timeOut && !timePrint
      && timerLabel == None
      && timerEnable == (reset && old(timerEnable))
    }

    twostate predicate TimerUnchanged()
      reads this`timeOut, this`timePrint, this`timerLabel, this`timerEnable
    {
      && timeOut == old(timeOut) && timePrint == old(timePrint)
      && timerLabel == old(timerLabel) && timerEnable == old(timerEnable)
    }

    /** What `toggleState` does: when inhibited, reset the timer, ask to release
        every holder and restore night light; otherwise ask for the `user`
        holder and suppress night light.  The ledger itself is not touched. */
    twostate predicate Toggled()
      reads this, settings
    {
      && InhibitorLedger.Valid(LedgerView())
      && LedgerView() == old(LedgerView())
      && if old(state) then
           var write := ManageNightLightWrite(settings.GetEnum(NightLightKey), nightLightActive, Enabled);
           && TimerCleared(false)
           && settings.values == TimerRemovedSettings(old(settings.values), false)
           && effects == old(effects) + ReleaseCalls(LedgerView(), apps) + NightLightEffects(write)
           && nightLight == write.Some?
         else
           var write := ManageNightLightWrite(settings.GetEnum(NightLightKey), nightLightActive, Disabled);
           && TimerUnchanged()
           && settings.values == old(settings.values)
           && effects == old(effects) + [Inhibit(InhibitorLedger.UserHolder, 0, InhibitReason, InhibitFlags)] + NightLightEffects(write)
           && nightLight == write.Some?
    }

    /** `_init`, from the settings reset to the first `_updateAppConfigs`. */
    constructor (store: Store, registry: map<string, App>, monitors: seq<bool>, nightLightOn: bool)
      modifies store
      ensures Valid()
      ensures settings == store
      ensures apps == [] && cookies == [] && objects == [] && !state && lastApp == "" && !userState
      ensures !timeOut && !timePrint && !timerEnable && timerLabel == None && !timerLabelVisible
      ensures settings.values == old(store.values) - {UserEnabledKey, TimerEnabledKey, TimerKey}
      ensures var restore := settings.GetBoolean(UserEnabledKey) && settings.GetBoolean(RestoreKey);
        effects ==
          if restore then
            [Inhibit(InhibitorLedger.UserHolder, 0, InhibitReason, InhibitFlags)] +
            NightLightEffects(ManageNightLightWrite(settings.GetEnum(NightLightKey), nightLightOn, Disabled))
          else []
      ensures indicatorVisible == IndicatorVisible(false, settings.GetEnum(ShowIndicatorKey))
      ensures pendingFullscreenChecks == if settings.GetBoolean(FullscreenKey) then 1 else 0
      ensures appSystem == registry && appConfigs == settings.GetStrv(InhibitAppsKey)
      ensures subscriptions.appData.Keys == Resolved(appConfigs, registry)
      ensures subscriptions.connected == ReconciledConnections({}, map[], appConfigs, registry, 1)
    {
      settings := store;
      nightLight := false;
      nightLightActive := nightLightOn;
      state, userState := false, false;
      lastApp, lastCookie := "", None;
      apps, cookies, objects := [], [], [];
      timeOut, timePrint, timerEnable := false, false, false;
      secondLeft, timerLabel := 0, None;
      indicatorVisible, timerLabelVisible := false, false;
      appSystem, appConfigs := registry, [];
      subscriptions := new Subscriptions();
      pendingFullscreenChecks := 0;
      effects := [];
      new;
      Start(monitors);
    }

    /** The part of `_init` that runs once the fields are set: restore the
        user state, then show the icon and start the watches. */
    method Start(monitors: seq<bool>)
      requires LedgerValid() && TimerValid() && WatchValid()
      requires apps == [] && !state && subscriptions.appData == map[]
      modifies settings, this`effects, this`nightLight
      modifies this`timerEnable, this`timerLabel, this`timeOut, this`timePrint
      modifies this`indicatorVisible, this`pendingFullscreenChecks
      modifies this`appConfigs, subscriptions
      ensures LedgerValid() && TimerValid() && WatchValid()
      ensures LedgerView() == old(LedgerView()) && TimerUnchanged()
      ensures settings.values == old(settings.values) - {UserEnabledKey, TimerEnabledKey, TimerKey}
      ensures var restore := settings.GetBoolean(UserEnabledKey) && settings.GetBoolean(RestoreKey);
        effects ==
          if restore then
            old(effects) + [Inhibit(InhibitorLedger.UserHolder, 0, InhibitReason, InhibitFlags)] +
            NightLightEffects(ManageNightLightWrite(settings.GetEnum(NightLightKey), nightLightActive, Disabled))
          else old(effects)
      ensures indicatorVisible == IndicatorVisible(false, settings.GetEnum(ShowIndicatorKey))
      ensures pendingFullscreenChecks == old(pendingFullscreenChecks) + if settings.GetBoolean(FullscreenKey) then 1 else 0
      ensures appConfigs == settings.GetStrv(InhibitAppsKey)
      ensures subscriptions.appData.Keys == Resolved(appConfigs, appSystem)
      ensures subscriptions.connected == ReconciledConnections(old(subscriptions.connected), map[], appConfigs, appSystem, old(subscriptions.nextHandler))
    {
      RestoreUserState();
      ghost var values, sent, night := settings.values, effects, nightLight;
      StartWatches(monitors);
      assert settings.values == values && effects == sent && nightLight == night;
    }

    /** `_init` after the user state is restored: the icon's visibility, the
        fullscreen watch when `enable-fullscreen` is set (nothing is held yet,
        so only the re-check is scheduled), and the app configuration. */
    method StartWatches(monitors: seq<bool>)
      requires LedgerValid() && WatchValid()
      requires apps == [] && !state && subscriptions.appData == map[]
      modifies this`indicatorVisible, this`pendingFullscreenChecks, this`effects, this`nightLight
      modifies this`appConfigs, subscriptions
      ensures LedgerValid() && WatchValid()
      ensures effects == old(effects) && nightLight == old(nightLight)
      ensures indicatorVisible == IndicatorVisible(false, settings.GetEnum(ShowIndicatorKey))
      ensures pendingFullscreenChecks == old(pendingFullscreenChecks) + if settings.GetBoolean(FullscreenKey) then 1 else 0
      ensures appConfigs == settings.GetStrv(InhibitAppsKey)
      ensures subscriptions.appData.Keys == Resolved(appConfigs, appSystem)
      ensures subscriptions.connected == ReconciledConnections(old(subscriptions.connected), map[], appConfigs, appSystem, old(subscriptions.nextHandler))
    {
      ManageShowIndicator();
      if settings.GetBoolean(FullscreenKey) {
        ToggleFullscreen(monitors);
      }
      UpdateAppConfigs();
    }

    /** The settings step of `_init`: reset the user state and the timer keys,
        then turn inhibition back on when `user-enabled` (now at its default)
        and `restore-state` are both set.  Run while nothing is held. */
    method RestoreUserState()
      requires LedgerValid() && TimerValid() && !state
      modifies settings, this`effects, this`nightLight
      modifies this`timerEnable, this`timerLabel, this`timeOut, this`timePrint
      ensures LedgerValid() && TimerValid()
      ensures TimerUnchanged()
      ensures settings.values == old(settings.values) - {UserEnabledKey, TimerEnabledKey, TimerKey}
      ensures var restore := settings.GetBoolean(UserEnabledKey) && settings.GetBoolean(RestoreKey);
        var write := ManageNightLightWrite(settings.GetEnum(NightLightKey), nightLightActive, Disabled);
        if restore then
          && effects == old(effects) + [Inhibit(InhibitorLedger.UserHolder, 0, InhibitReason, InhibitFlags)] + NightLightEffects(write)
          && nightLight == write.Some?
        else effects == old(effects) && nightLight == old(nightLight)
    {
      settings.Reset(UserEnabledKey);
      settings.Reset(TimerEnabledKey);
      settings.Reset(TimerKey);
      if settings.GetBoolean(UserEnabledKey) && settings.GetBoolean(RestoreKey) {
        ToggleState();
      } else {
        settings.Reset(UserEnabledKey);
      }
    }

    /** `toggleFullscreen`, the part that runs at once: schedule the
        two-second re-check, and release the `fullscreen` holder when no
        monitor is in fullscreen any more. */
    method ToggleFullscreen(monitors: seq<bool>)
      requires LedgerValid()
      modifies this`pendingFullscreenChecks, this`effects, this`nightLight
      ensures pendingFullscreenChecks == old(pendingFullscreenChecks) + 1
      ensures var write := ManageNightLightWrite(settings.GetEnum(NightLightKey), nightLightActive, Enabled);
        if true !in monitors && InhibitorLedger.FullscreenHolder in apps then
          && effects == old(effects) + [Uninhibit(InhibitorLedger.UninhibitTarget(LedgerView(), InhibitorLedger.FullscreenHolder))] + NightLightEffects(write)
          && nightLight == write.Some?
        else effects == old(effects) && nightLight == old(nightLight)
    {
      pendingFullscreenChecks := pendingFullscreenChecks + 1;
      var fullscreen := InFullscreen(monitors);
      if !fullscreen && InhibitorLedger.FullscreenHolder in apps {
        RemoveInhibit(InhibitorLedger.FullscreenHolder);
        ManageNightLight(Enabled);
      }
    }

    /** The deferred half of `toggleFullscreen`, run two seconds later: ask for
        the `fullscreen` holder when a monitor is still in fullscreen and the
        holder is not in the ledger. */
    method FullscreenSettled(monitors: seq<bool>)
      modifies this`pendingFullscreenChecks, this`effects, this`nightLight
      ensures old(pendingFullscreenChecks) == 0 ==> unchanged(this)
      ensures old(pendingFullscreenChecks) > 0 ==>
        var write := ManageNightLightWrite(settings.GetEnum(NightLightKey), nightLightActive, Disabled);
        && pendingFullscreenChecks == old(pendingFullscreenChecks) - 1
        && if true in monitors && InhibitorLedger.FullscreenHolder !in apps then
             && effects == old(effects) + [Inhibit(InhibitorLedger.FullscreenHolder, 0, InhibitReason, InhibitFlags)] + NightLightEffects(write)
             && nightLight == write.Some?
           else effects == old(effects) && nightLight == old(nightLight)
    {
      if pendingFullscreenChecks > 0 {
        pendingFullscreenChecks := pendingFullscreenChecks - 1;
        var fullscreen := InFullscreen(monitors);
        if fullscreen && InhibitorLedger.FullscreenHolder !in apps {
          AddInhibit(InhibitorLedger.FullscreenHolder);
          ManageNightLight(Disabled);
        }
      }
    }

    /** `toggleState`, the entry point of the toggle, the shortcut, and a
        change of `user-enabled`. */
    method ToggleState()
      requires LedgerValid() && TimerValid()
      modifies settings, this`timerEnable, this`timerLabel, this`timeOut, this`timePrint
      modifies this`effects, this`nightLight
      ensures TimerValid()
      ensures Toggled()
    {
      if state {
        RemoveTimer(false);
        UninhibitAll();
        ManageNightLight(Enabled);
      } else {
        AddInhibit(InhibitorLedger.UserHolder);
        ManageNightLight(Disabled);
      }
    }

    /** `addInhibit`: only the Inhibit call is issued; the pending slot is
        filled when its reply arrives (`InhibitReply`). */
    method AddInhibit(appId: string)
      modifies this`effects
      ensures effects == old(effects) + [Inhibit(appId, 0, InhibitReason, InhibitFlags)]
    {
      effects := effects + [Inhibit(appId, 0, InhibitReason, InhibitFlags)];
    }

    /** The reply callback of the Inhibit call issued for `appId`. */
    method InhibitReply(appId: string, cookie: nat)
      requires LedgerValid()
      modifies this`lastApp, this`lastCookie
      ensures LedgerValid()
      ensures LedgerView() == InhibitorLedger.InhibitReplied(old(LedgerView()), appId, cookie)
    {
      lastCookie := Some(cookie);
      lastApp := appId;
    }

    /** `removeInhibit`: Uninhibit with the cookie at the holder's first index
        (`undefined` for a holder not held); the ledger is left alone. */
    method RemoveInhibit(appId: string)
      requires LedgerValid()
      modifies this`effects
      ensures effects == old(effects) + [Uninhibit(InhibitorLedger.UninhibitTarget(LedgerView(), appId))]
    {
      var index := InhibitorLedger.IndexOf(apps, appId);
      effects := effects + [Uninhibit(InhibitorLedger.CookieAt(cookies, index))];
    }

    /** `this._apps.forEach(appId => this.removeInhibit(appId))`. */
    method UninhibitAll()
      requires LedgerValid()
      modifies this`effects
      ensures effects == old(effects) + ReleaseCalls(LedgerView(), apps)
    {
      ghost var ledger := LedgerView();
      for i := 0 to |apps|
        invariant effects == old(effects) + ReleaseCalls(ledger, apps[..i])
      {
        RemoveInhibit(apps[i]);
        ReleaseCallsSnoc(ledger, apps[..i], apps[i]);
        assert apps[..i + 1] == apps[..i] + [apps[i]];
      }
      assert apps[..|apps|] == apps;
    }

    /** `_showIndicatorLabel`. */
    method ShowIndicatorLabel()
      modifies this`timerLabelVisible
      ensures timerLabelVisible ==
        TimerLabelVisible(settings.GetBoolean(ShowTimerKey), settings.GetEnum(ShowIndicatorKey), timerEnable)
    {
      if settings.GetBoolean(ShowTimerKey) && settings.GetEnum(ShowIndicatorKey) != ShowNever && timerEnable {
        timerLabelVisible := true;
      } else {
        timerLabelVisible := false;
      }
    }

    /** `_startTimer`, the handler of `countdown-timer-enabled`: when it is
        set, restart the timer (handles torn down first), turn inhibition on
        through `user-enabled`, and, for a non-zero duration, schedule a
        one-second tick and the expiry. */
    method StartTimer()
      requires TimerValid()
      modifies settings, this`timerEnable, this`timerLabel, this`timeOut, this`timePrint
      modifies this`secondLeft, this`timerLabelVisible
      ensures TimerValid()
      ensures !old(settings.GetBoolean(TimerEnabledKey)) ==> unchanged(this) && unchanged(settings)
      ensures old(settings.GetBoolean(TimerEnabledKey)) ==>
        var delay := old(settings.GetInt(TimerKey)) * 60;
        && timerEnable
        && settings.values == old(settings.values)[TimerEnabledKey := BoolValue(false)][UserEnabledKey := BoolValue(true)]
        && (delay == 0 ==>
              && !timeOut && !timePrint && timerLabel == None
              && secondLeft == old(secondLeft) && timerLabelVisible == old(timerLabelVisible))
        && (delay != 0 ==>
              && timeOut && timePrint
              && secondLeft == delay && timerLabel == Some(TimerLabel.PrintTimer(delay))
              && timerLabelVisible ==
                   TimerLabelVisible(settings.GetBoolean(ShowTimerKey), settings.GetEnum(ShowIndicatorKey), true))
    {
      if settings.GetBoolean(TimerEnabledKey) {
        timerEnable := true;
        RemoveTimer(true);
        settings.SetBoolean(UserEnabledKey, true);
        var timerDelay := settings.GetInt(TimerKey) * 60;
        if timerDelay != 0 {
          ArmTimer(timerDelay);
        }
      }
    }

    /** The non-zero branch of `startTimer`: set the seconds left, show and
        fill the label, and attach the tick and the expiry. */
    method ArmTimer(delay: int)
      requires timerEnable
      modifies this`secondLeft, this`timerLabel, this`timerLabelVisible, this`timePrint, this`timeOut
      ensures timeOut && timePrint
      ensures secondLeft == delay && timerLabel == Some(TimerLabel.PrintTimer(delay))
      ensures timerLabelVisible ==
        TimerLabelVisible(settings.GetBoolean(ShowTimerKey), settings.GetEnum(ShowIndicatorKey), true)
    {
      secondLeft := delay;
      ShowIndicatorLabel();
      RefreshTimerLabel();
      timePrint := true;
      timeOut := true;
    }

    /** The one-second tick source: count down and republish the label. */
    method TimerTick()
      modifies this`secondLeft, this`timerLabel
      ensures !timePrint ==> unchanged(this)
      ensures timePrint ==>
        secondLeft == old(secondLeft) - 1 && timerLabel == Some(TimerLabel.PrintTimer(secondLeft))
    {
      if timePrint {
        secondLeft := secondLeft - 1;
        RefreshTimerLabel();
      }
    }

    /** `this._timerLabel.text = this._printTimer(secondLeft)`. */
    method RefreshTimerLabel()
      modifies this`timerLabel
      ensures timerLabel == Some(TimerLabel.PrintTimer(secondLeft))
    {
      timerLabel := Some(TimerLabel.PrintTimer(secondLeft));
    }

    /** The expiry source: tear the timer down with the duration reset, then
        turn inhibition off through `user-enabled`. */
    method TimerExpired()
      requires TimerValid()
      modifies settings, this`timerEnable, this`timerLabel, this`timeOut, this`timePrint
      ensures TimerValid()
      ensures !old(timeOut) ==> unchanged(this) && unchanged(settings)
      ensures old(timeOut) ==>
        && TimerCleared(false)
        && settings.values == TimerRemovedSettings(old(settings.values), false)[UserEnabledKey := BoolValue(false)]
    {
      if timeOut {
        RemoveTimer(false);
        settings.SetBoolean(UserEnabledKey, false);
      }
    }

    /** `_removeTimer(reset)`: both handles cleared and their sources removed,
        timer-enabled false, label cleared; `reset == false` also sets the
        duration back to 0 and ends the timer. */
    method RemoveTimer(reset: bool)
      requires TimerValid()
      modifies settings, this`timerEnable, this`timerLabel, this`timeOut, this`timePrint
      ensures TimerValid()
      ensures TimerCleared(reset)
      ensures settings.values == TimerRemovedSettings(old(settings.values), reset)
    {
      if !reset {
        settings.SetInt(TimerKey, 0);
        timerEnable := false;
      }
      settings.SetBoolean(TimerEnabledKey, false);
      timerLabel := None;
      if timeOut || timePrint {
        timeOut := false;
        timePrint := false;
      }
    }

    /** `_handleScrollEvent`: scrolling up while not inhibited turns
        `user-enabled` on; scrolling down while inhibited stops the timer and
        turns it off; either forces an OSD when notifications are off. */
    method HandleScrollEvent(direction: ScrollDirection)
      requires TimerValid()
      modifies settings, this`timerEnable, this`timerLabel, this`timeOut, this`timePrint, this`effects
      ensures TimerValid()
      ensures direction == Up && !old(state) ==>
        && TimerUnchanged()
        && settings.values == old(settings.values)[UserEnabledKey := BoolValue(true)]
        && effects == old(effects) + (if old(settings.GetBoolean(ShowNotificationsKey)) then [] else [ShowOsd(true)])
      ensures direction == Down && old(state) ==>
        && TimerCleared(false)
        && settings.values == TimerRemovedSettings(old(settings.values), false)[UserEnabledKey := BoolValue(false)]
        && effects == old(effects) + (if old(settings.GetBoolean(ShowNotificationsKey)) then [] else [ShowOsd(false)])
      ensures !(direction == Up && !old(state)) && !(direction == Down && old(state)) ==>
        unchanged(this) && unchanged(settings)
    {
      match direction
      case Up =>
        if !state {
          settings.SetBoolean(UserEnabledKey, true);
          if !settings.GetBoolean(ShowNotificationsKey) {
            effects := effects + [ShowOsd(true)];
          }
        }
      case Down =>
        if state {
          RemoveTimer(false);
          settings.SetBoolean(UserEnabledKey, false);
          if !settings.GetBoolean(ShowNotificationsKey) {
            effects := effects + [ShowOsd(false)];
          }
        }
      case _ =>
    }

    /** `_inhibitorAdded`: the signal only issues GetInhibitors; its path is
        carried by the replies (`InhibitorsListed`, `AppIdReply`). */
    method InhibitorAdded()
      modifies this`effects
      ensures effects == old(effects) + [GetInhibitors]
    {
      effects := effects + [GetInhibitors];
    }

    /** The GetInhibitors reply: one GetAppId call per listed inhibitor. */
    method InhibitorsListed(inhibitors: seq<string>)
      modifies this`effects
      ensures effects == old(effects) + GetAppIds(inhibitors)
    {
      for k := 0 to |inhibitors|
        invariant effects == old(effects) + GetAppIds(inhibitors[..k])
      {
        effects := effects + [GetAppId(inhibitors[k])];
        assert inhibitors[..k + 1] == inhibitors[..k] + [inhibitors[k]];
      }
      assert inhibitors[..|inhibitors|] == inhibitors;
    }

    /** A GetAppId reply, for the `InhibitorAdded` signal of path `path`:
        a reply naming the pending holder records it (`user` also saves
        user-enabled), and the first entry turns the state on, shows the icon
        and, unless in fullscreen, the OSD. */
    method AppIdReply(path: string, appId: string, monitors: seq<bool>)
      requires LedgerValid()
      modifies this`apps, this`cookies, this`objects, this`lastApp, this`lastCookie, this`state
      modifies this`userState, settings, this`indicatorVisible, this`effects
      ensures LedgerValid()
      ensures LedgerView() == InhibitorLedger.AppIdReplied(old(LedgerView()), path, appId)
      ensures if InhibitorLedger.Matches(old(LedgerView()), appId) && appId == InhibitorLedger.UserHolder
        then userState && settings.values == old(settings.values)[UserEnabledKey := BoolValue(true)]
        else userState == old(userState) && settings.values == old(settings.values)
      ensures if InhibitorLedger.Matches(old(LedgerView()), appId) && !old(state)
        then
          && indicatorVisible == IndicatorVisible(true, settings.GetEnum(ShowIndicatorKey))
          && effects == old(effects) +
               (if settings.GetBoolean(ShowNotificationsKey) && true !in monitors then [ShowOsd(true)] else [])
        else indicatorVisible == old(indicatorVisible) && effects == old(effects)
    {
      if appId != "" && appId == lastApp {
        if lastApp == InhibitorLedger.UserHolder {
          SaveUserState(true);
        }
        var wasOff := state == false;
        PushHolder(path);
        if wasOff {
          ManageShowIndicator();
          if settings.GetBoolean(ShowNotificationsKey) {
            var fullscreen := InFullscreen(monitors);
            if !fullscreen {
              effects := effects + [ShowOsd(true)];
            }
          }
        }
      }
    }

    /** The ledger half of a matching GetAppId reply: the pending holder and
        its cookie become the last entry, with the signal's path, the slot is
        emptied, and the state turns on. */
    method PushHolder(path: string)
      requires LedgerValid() && InhibitorLedger.Matches(LedgerView(), lastApp)
      modifies this`apps, this`cookies, this`objects, this`lastApp, this`lastCookie, this`state
      ensures LedgerValid()
      ensures LedgerView() == InhibitorLedger.AppIdReplied(old(LedgerView()), path, old(lastApp))
    {
      apps := apps + [lastApp];
      cookies := cookies + [lastCookie.value];
      objects := objects + [path];
      lastApp := "";
      lastCookie := None;
      if state == false {
        state := true;
      }
    }

    /** `_inhibitorRemoved`: an unknown path is ignored; a known one is
        spliced out (`user` also saves user-enabled as false), and the last
        one turns the state off, updates the icon's visibility and shows the OSD. */
    method InhibitorRemoved(path: string)
      requires LedgerValid()
      modifies this`apps, this`cookies, this`objects, this`state
      modifies this`userState, settings, this`indicatorVisible, this`effects
      ensures LedgerValid()
      ensures LedgerView() == InhibitorLedger.Removed(old(LedgerView()), path)
      ensures var index := InhibitorLedger.IndexOf(old(objects), path);
        if index != -1 && old(apps)[index] == InhibitorLedger.UserHolder
        then !userState && settings.values == old(settings.values)[UserEnabledKey := BoolValue(false)]
        else userState == old(userState) && settings.values == old(settings.values)
      ensures if path in old(objects) && |old(apps)| == 1
        then
          && indicatorVisible == IndicatorVisible(false, settings.GetEnum(ShowIndicatorKey))
          && effects == old(effects) + (if settings.GetBoolean(ShowNotificationsKey) then [ShowOsd(false)] else [])
        else indicatorVisible == old(indicatorVisible) && effects == old(effects)
    {
      var index := InhibitorLedger.IndexOf(objects, path);
      if index != -1 {
        if apps[index] == InhibitorLedger.UserHolder {
          SaveUserState(false);
        }
        apps := InhibitorLedger.RemoveAt(apps, index);
        cookies := InhibitorLedger.RemoveAt(cookies, index);
        objects := InhibitorLedger.RemoveAt(objects, index);
        if |apps| == 0 {
          state := false;
          ManageShowIndicator();
          if settings.GetBoolean(ShowNotificationsKey) {
            effects := effects + [ShowOsd(false)];
          }
        }
      }
    }

    /** `_manageShowIndicator`. */
    method ManageShowIndicator()
      modifies this`indicatorVisible
      ensures indicatorVisible == IndicatorVisible(state, settings.GetEnum(ShowIndicatorKey))
    {
      if state {
        if settings.GetEnum(ShowIndicatorKey) == ShowNever {
          indicatorVisible := false;
        } else {
          indicatorVisible := true;
        }
      } else {
        if settings.GetEnum(ShowIndicatorKey) == ShowAlways {
          indicatorVisible := true;
        } else {
          indicatorVisible := false;
        }
      }
    }

    /** `_manageNightLight(state)`: under ALWAYS with night light on, write
        DisabledUntilTomorrow (true on 'disabled', false on 'enabled');
        `_night_light` records whether it did. */
    method ManageNightLight(request: NightLightRequest)
      modifies this`nightLight, this`effects
      ensures var write := ManageNightLightWrite(settings.GetEnum(NightLightKey), nightLightActive, request);
        nightLight == write.Some? && effects == old(effects) + NightLightEffects(write)
    {
      var controlNl := settings.GetEnum(NightLightKey) == NightLightAlways;
      if request == Enabled {
        if controlNl && nightLightActive {
          effects := effects + [SetDisabledUntilTomorrow(false)];
          nightLight := true;
        } else {
          nightLight := false;
        }
      }
      if request == Disabled {
        if controlNl && nightLightActive {
          effects := effects + [SetDisabledUntilTomorrow(true)];
          nightLight := true;
        } else {
          nightLight := false;
        }
      }
    }

    /** A change of the colour service's `NightLightActive` property. */
    method NightLightActiveChanged(active: bool)
      modifies this`nightLightActive
      ensures nightLightActive == active
    {
      nightLightActive := active;
    }

    /** `_updateAppConfigs`, the handler of `inhibit-apps`. */
    method UpdateAppConfigs()
      requires WatchValid()
      modifies this`appConfigs, subscriptions
      ensures WatchValid()
      ensures appConfigs == settings.GetStrv(InhibitAppsKey)
      ensures subscriptions.appData == Reconciled(old(subscriptions.appData), appConfigs, appSystem, old(subscriptions.nextHandler))
      ensures subscriptions.connected == ReconciledConnections(old(subscriptions.connected), old(subscriptions.appData), appConfigs, appSystem, old(subscriptions.nextHandler))
    {
      appConfigs := settings.GetStrv(InhibitAppsKey);
      UpdateAppData();
    }

    /** `_updateUserState`, the handler of `user-enabled`: toggle only when the
        setting differs from the last state seen. */
    method UpdateUserState()
      requires LedgerValid() && TimerValid()
      modifies settings, this`timerEnable, this`timerLabel, this`timeOut, this`timePrint
      modifies this`effects, this`nightLight, this`userState
      ensures TimerValid()
      ensures userState == old(settings.GetBoolean(UserEnabledKey))
      ensures old(settings.GetBoolean(UserEnabledKey)) != old(userState) ==> Toggled()
      ensures old(settings.GetBoolean(UserEnabledKey)) == old(userState) ==> unchanged(this) && unchanged(settings)
    {
      if settings.GetBoolean(UserEnabledKey) != userState {
        userState := !userState;
        ToggleState();
      }
    }

    /** `_saveUserState`: the setting and the remembered state agree
        afterwards, so the `user-enabled` handler that follows does nothing. */
    method SaveUserState(enabled: bool)
      modifies this`userState, settings
      ensures userState == enabled
      ensures settings.values == old(settings.values)[UserEnabledKey := BoolValue(enabled)]
    {
      userState := enabled;
      settings.SetBoolean(UserEnabledKey, enabled);
    }

    /** `_updateAppData`: drop the entries whose app id left the configuration,
        then subscribe every resolvable configured app not yet watched. */
    method UpdateAppData()
      requires WatchValid()
      modifies subscriptions
      ensures WatchValid()
      ensures subscriptions.appData == Reconciled(old(subscriptions.appData), appConfigs, appSystem, old(subscriptions.nextHandler))
      ensures subscriptions.connected == ReconciledConnections(old(subscriptions.connected), old(subscriptions.appData), appConfigs, appSystem, old(subscriptions.nextHandler))
      ensures old(subscriptions.nextHandler) <= subscriptions.nextHandler
    {
      var ids := appConfigs;
      subscriptions.DisconnectRemoved(ids);
      var addedApps := AddedApps(ids, appSystem, subscriptions.appData.Keys);
      subscriptions.ConnectAdded(addedApps);
    }

    /** The registry's `installed-changed` signal. */
    method InstalledChanged(registry: map<string, App>)
      requires WatchValid()
      modifies this`appSystem, subscriptions
      ensures WatchValid()
      ensures appSystem == registry
      ensures subscriptions.appData == Reconciled(old(subscriptions.appData), appConfigs, registry, old(subscriptions.nextHandler))
      ensures subscriptions.connected == ReconciledConnections(old(subscriptions.connected), old(subscriptions.appData), appConfigs, registry, old(subscriptions.nextHandler))
    {
      appSystem := registry;
      UpdateAppData();
    }

    /** `_appWindowsChanged`, for a watched app: ask for its holder while it
        runs and release it once it stops, and decide night light under any
        policy above NEVER. */
    method AppWindowsChanged(app: App, appState: AppState)
      requires LedgerValid()
      modifies this`effects, this`nightLight
      ensures var running := appState != Stopped;
        var write := AppNightLightWrite(settings.GetEnum(NightLightKey), nightLightActive, running);
        && nightLight == write.Some?
        && effects == old(effects) +
             [if running then Inhibit(app.id, 0, InhibitReason, InhibitFlags)
              else Uninhibit(InhibitorLedger.UninhibitTarget(LedgerView(), app.id))] +
             NightLightEffects(write)
    {
      var appId := app.id;
      if appState != Stopped {
        AddInhibit(appId);
        if settings.GetEnum(NightLightKey) > NightLightNever && nightLightActive {
          effects := effects + [SetDisabledUntilTomorrow(true)];
          nightLight := true;
        } else {
          nightLight := false;
        }
      } else {
        RemoveInhibit(appId);
        if settings.GetEnum(NightLightKey) > NightLightNever && nightLightActive {
          effects := effects + [SetDisabledUntilTomorrow(false)];
          nightLight := true;
        } else {
          nightLight := false;
        }
      }
    }

    /** `destroy`: ask to release every holder, remove both timer sources,
        and empty the app watch list. */
    method Destroy()
      requires LedgerValid() && WatchValid()
      modifies this`effects, this`timeOut, this`timePrint
      modifies this`appConfigs, subscriptions
      ensures TimerValid() && WatchValid()
      ensures effects == old(effects) + ReleaseCalls(LedgerView(), apps)
      ensures !timeOut && !timePrint
      ensures appConfigs == [] && subscriptions.appData == map[]
      ensures subscriptions.connected == old(subscriptions.connected) - Handlers(old(subscriptions.appData))
    {
      ghost var released := old(effects) + ReleaseCalls(LedgerView(), apps);
      UninhibitAll();
      assert effects == released;
      if timeOut {
        timeOut := false;
      }
      if timePrint {
        timePrint := false;
      }
      appConfigs := [];
      UpdateAppData();
      ReconciledEmpty(old(subscriptions.appData), appSystem, old(subscriptions.nextHandler));
      assert apps == old(apps) && LedgerView() == old(LedgerView());
      assert effects == released;
    }
  }
}
