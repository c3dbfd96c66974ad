/** The extension's persisted settings (a GSettings schema), as a key/value map.

    A key holds a user value in `values`; a key without one reads its schema
    default from `defaults`; a key in neither reads as false / 0 / the empty
    list.  `Reset` drops the user value, as `GSettings.reset` does. */
module Settings {
  import opened Wrappers

  datatype Value =
    | BoolValue(b: bool)
    | IntValue(i: int)
    | EnumValue(e: int)
    | StrvValue(strv: seq<string>)

  /** The schema keys the core reads or writes; `KeyName` is the GSettings
      name of each. */
  datatype Key =
    | InhibitAppsKey | ShowIndicatorKey | ShowNotificationsKey | ShowTimerKey
    | UserEnabledKey | RestoreKey | FullscreenKey | NightLightKey
    | TimerKey | TimerEnabledKey
      // Touched only by the settings migration when the extension is enabled.
    | NightLightForAppKey | NightLightControlKey

  function KeyName(key: Key): string {
    match key
    case InhibitAppsKey => "inhibit-apps"
    case ShowIndicatorKey => "show-indicator"
    case ShowNotificationsKey => "show-notifications"
    case ShowTimerKey => "show-timer"
    case UserEnabledKey => "user-enabled"
    case RestoreKey => "restore-state"
    case FullscreenKey => "enable-fullscreen"
    case NightLightKey => "control-nightlight"
    case TimerKey => "countdown-timer"
    case TimerEnabledKey => "countdown-timer-enabled"
    case NightLightForAppKey => "control-nightlight-for-app"
    case NightLightControlKey => "nightlight-control"
  }

  class Store {
    const defaults: map<Key, Value>
    var values: map<Key, Value>

    constructor (defaults: map<Key, Value>, values: map<Key, Value>)
      ensures this.defaults == defaults && this.values == values
    {
      this.defaults := defaults;
      this.values := values;
    }

    /** `get_value`: the user value, else the schema default. */
    function Lookup(key: Key): Option<Value>
      reads this
    {
      if key in values then Some(values[key])
      else if key in defaults then Some(defaults[key])
      else None
    }

    function GetBoolean(key: Key): bool
      reads this
    {
      match Lookup(key)
      case Some(BoolValue(b)) => b
      case _ => false
    }

    function GetInt(key: Key): int
      reads this
    {
      match Lookup(key)
      case Some(IntValue(i)) => i
      case _ => 0
    }

    function GetEnum(key: Key): int
      reads this
    {
      match Lookup(key)
      case Some(EnumValue(e)) => e
      case _ => 0
    }

    function GetStrv(key: Key): seq<string>
      reads this
    {
      match Lookup(key)
      case Some(StrvValue(s)) => s
      case _ => []
    }

    method SetBoolean(key: Key, b: bool)
      modifies this`values
      ensures values == old(values)[key := BoolValue(b)]
    {
      values := values[key := BoolValue(b)];
    }

    method SetInt(key: Key, i: int)
      modifies this`values
      ensures values == old(values)[key := IntValue(i)]
    {
      values := values[key := IntValue(i)];
    }

    method SetEnum(key: Key, e: int)
      modifies this`values
      ensures values == old(values)[key := EnumValue(e)]
    {
      values := values[key := EnumValue(e)];
    }

    method Reset(key: Key)
      modifies this`values
      ensures values == old(values) - {key}
    {
      values := values - {key};
    }
  }
}
