/** The settings migration `enable()` runs before creating the indicator:
    the two old night-light booleans become the night-light control enum,
    then both old keys are reset. */
module Migration {
  import opened Wrappers
  import opened Settings
  import Policies

  /** The enum value written, if any: only an old `control-nightlight` of
      true migrates, to FOR_APPS when the per-app flag was also true and to
      ALWAYS otherwise. */
  function MigratedNightLightControl(controlNightLight: Option<Value>, forApp: Option<Value>): (control: Option<int>)
    ensures control.Some? <==> controlNightLight == Some(BoolValue(true))
    ensures control.Some? ==>
      (control.value == Policies.NightLightForApps <==> forApp == Some(BoolValue(true))) &&
      (control.value == Policies.NightLightAlways || control.value == Policies.NightLightForApps)
  {
    if controlNightLight == Some(BoolValue(true)) then
      Some(if forApp == Some(BoolValue(true)) then Policies.NightLightForApps else Policies.NightLightAlways)
    else None
  }

  method MigrateNightLight(settings: Store)
    modifies settings
    ensures var control := MigratedNightLightControl(old(settings.Lookup(NightLightKey)), old(settings.Lookup(NightLightForAppKey)));
      settings.values ==
        (if control.Some? then old(settings.values)[NightLightControlKey := EnumValue(control.value)] else old(settings.values))
        - {NightLightKey} - {NightLightForAppKey}
    ensures NightLightKey !in settings.values && NightLightForAppKey !in settings.values
  {
    var controlNightLight := settings.Lookup(NightLightKey);
    var controlNightLightForApp := settings.Lookup(NightLightForAppKey);
    if controlNightLight == Some(BoolValue(true)) {
      var nightlightControl := Policies.NightLightAlways;
      if controlNightLightForApp == Some(BoolValue(true)) {
        nightlightControl := Policies.NightLightForApps;
      }
      settings.SetEnum(NightLightControlKey, nightlightControl);
    }
    settings.Reset(NightLightKey);
    settings.Reset(NightLightForAppKey);
  }
}
