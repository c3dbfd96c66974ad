/** Small deterministic rules of the indicator over settings values: indicator
    and timer-label visibility, the night-light decisions, and the
    "any monitor in fullscreen" query. */
module Policies {
  import opened Wrappers

  /** Values of the `show-indicator` enum. */
  const ShowOnlyActive := 0
  const ShowAlways := 1
  const ShowNever := 2

  /** Values of the night-light control enum. */
  const NightLightNever := 0
  const NightLightAlways := 1
  const NightLightForApps := 2

  /** `_manageShowIndicator`: whether the panel icon is visible. */
  function IndicatorVisible(inhibited: bool, mode: int): (visible: bool)
    ensures mode == ShowAlways ==> visible
    ensures mode == ShowNever ==> !visible
    ensures mode != ShowAlways && mode != ShowNever ==> (visible <==> inhibited)
  {
    if inhibited then mode != ShowNever else mode == ShowAlways
  }

  /** `_showIndicatorLabel`: whether the countdown label beside the icon is visible. */
  function TimerLabelVisible(showTimer: bool, mode: int, timerEnabled: bool): (visible: bool)
    ensures visible ==> showTimer && timerEnabled
    ensures mode == ShowNever ==> !visible
    ensures showTimer && timerEnabled && mode != ShowNever ==> visible
  {
    showTimer && mode != ShowNever && timerEnabled
  }

  /** The argument of `_manageNightLight`: inhibition switched off ('enabled'
      auto suspend) or on ('disabled' auto suspend). */
  datatype NightLightRequest = Enabled | Disabled

  /** The `DisabledUntilTomorrow` value `_manageNightLight` writes, if any.
      It acts only under the ALWAYS policy and only while night light is on;
      `_night_light` records whether it acted. */
  function ManageNightLightWrite(control: int, active: bool, request: NightLightRequest): (write: Option<bool>)
    ensures write.Some? <==> control == NightLightAlways && active
    ensures write.Some? ==> (write.value <==> request == Disabled)
  {
    var controlNl := control == NightLightAlways;
    if controlNl && active then Some(request == Disabled) else None
  }

  /** The `DisabledUntilTomorrow` value `_appWindowsChanged` writes, if any:
      it acts under any policy above NEVER, suppressing while the app runs. */
  function AppNightLightWrite(control: int, active: bool, running: bool): (write: Option<bool>)
    ensures write.Some? <==> control > NightLightNever && active
    ensures write.Some? ==> write.value == running
  {
    if control > NightLightNever && active then Some(running) else None
  }

  /** Under ALWAYS the app path decides as the general path does; it differs
      only under FOR_APPS (and larger values), where only the app path acts. */
  lemma AppPathExtendsGeneralPath(control: int, active: bool, running: bool)
    ensures control == NightLightAlways ==>
      AppNightLightWrite(control, active, running) == ManageNightLightWrite(control, active, if running then Disabled else Enabled)
    ensures control <= NightLightNever ==>
      AppNightLightWrite(control, active, running).None? && ManageNightLightWrite(control, active, if running then Disabled else Enabled).None?
    ensures control == NightLightForApps ==>
      ManageNightLightWrite(control, active, if running then Disabled else Enabled).None? &&
      (AppNightLightWrite(control, active, running).Some? <==> active)
  {
  }

  /** Either path, when it acts on an inhibit and then on the matching
      uninhibit under unchanged settings, restores night light: it writes
      true and then false. */
  lemma NightLightRestoredAfterCycle(control: int, active: bool)
    ensures ManageNightLightWrite(control, active, Disabled).Some? ==>
      ManageNightLightWrite(control, active, Disabled) == Some(true) &&
      ManageNightLightWrite(control, active, Enabled) == Some(false)
    ensures AppNightLightWrite(control, active, true).Some? ==>
      AppNightLightWrite(control, active, true) == Some(true) &&
      AppNightLightWrite(control, active, false) == Some(false)
  {
  }

  /** The `inFullscreen` getter: scans the monitors in order and stops at the
      first one in fullscreen. */
  method InFullscreen(monitors: seq<bool>) returns (inFullscreen: bool)
    ensures inFullscreen <==> true in monitors
  {
    inFullscreen := false;
    var i := 0;
    while i < |monitors|
      invariant 0 <= i <= |monitors|
      invariant !inFullscreen
      invariant true !in monitors[..i]
    {
      if monitors[i] {
        inFullscreen := true;
        break;
      }
      assert monitors[..i + 1] == monitors[..i] + [monitors[i]];
      i := i + 1;
    }
    assert !inFullscreen ==> monitors[..i] == monitors;
  }
}
