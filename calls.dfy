/** What the extension sends to the outside world: calls on the
    `org.gnome.SessionManager` D-Bus interface, writes of the
    `org.gnome.SettingsDaemon.Color` property `DisabledUntilTomorrow`, and
    on-screen notifications.  The model records them, in order, in a log. */
module Calls {
  import opened Wrappers

  /** Inhibit flags of the session manager: 4 inhibits suspend, 8 inhibits idle. */
  const InhibitSuspend: nat := 4
  const InhibitIdle: nat := 8
  const InhibitFlags: nat := InhibitSuspend + InhibitIdle

  const IndicatorName := "Caffeine"
  const InhibitReason := "Inhibit by " + IndicatorName

  datatype Effect =
    /** `Inhibit(app_id, toplevel_xid, reason, flags)`; its reply carries a cookie. */
    | Inhibit(appId: string, toplevelXid: nat, reason: string, flags: nat)
    /** `Uninhibit(cookie)`; `None` is the JavaScript `undefined` read past the cookie array. */
    | Uninhibit(cookie: Option<nat>)
    | GetInhibitors
    /** `GetAppId` on the inhibitor object at `path`. */
    | GetAppId(path: string)
    | SetDisabledUntilTomorrow(disabled: bool)
    /** The OSD pop-up: "disabled" (true) or "enabled" (false) auto suspend. */
    | ShowOsd(inhibited: bool)

  /** The night-light write a policy decided on, as log entries. */
  function NightLightEffects(write: Option<bool>): (es: seq<Effect>)
    ensures write.None? <==> es == []
  {
    match write
    case None => []
    case Some(d) => [SetDisabledUntilTomorrow(d)]
  }
}
