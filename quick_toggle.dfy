/** The quick-settings toggle `FeatureToggle`: its menu of countdown timers,
    the check mark on the one the `countdown-timer` setting names, and the
    two setting writes a menu item makes when it is chosen. */
module QuickToggle {
  import opened Settings
  import TimerLabel
  import opened Sequences

  /** One entry of the `TIMERS` table: the duration in minutes (0 is the
      infinite timer) and the menu label. */
  datatype TimerEntry = TimerEntry(minutes: nat, text: string)

  /** `TIMERS`, in menu order. */
  const Timers: seq<TimerEntry> := [
    TimerEntry(5, "5:00"),
    TimerEntry(10, "10:00"),
    TimerEntry(30, "30:00"),
    TimerEntry(0, "Infinite")
  ]

  /** The ids `_syncTimers` creates an item for: the duration of every
      entry with a label, in order. */
  function ItemIds(timers: seq<TimerEntry>): (ids: seq<int>)
    ensures |ids| <= |timers|
    ensures forall m :: m in ids ==> exists k :: 0 <= k < |timers| && timers[k].text != "" && timers[k].minutes == m
    ensures forall k :: 0 <= k < |timers| && timers[k].text != "" ==> timers[k].minutes as int in ids
    decreases |timers|
  {
    if |timers| == 0 then []
    else
      var init, last := timers[..|timers| - 1], timers[|timers| - 1];
      var ids := ItemIds(init);
      assert forall k :: 0 <= k < |init| ==> init[k] == timers[k];
      if last.text == "" then ids else ids + [last.minutes as int]
  }

  /** One more entry of the table adds its item when it has a label. */
  lemma ItemIdsStep(timers: seq<TimerEntry>, k: nat)
    requires k < |timers|
    ensures ItemIds(timers[..k + 1]) ==
      ItemIds(timers[..k]) + (if timers[k].text != "" then [timers[k].minutes as int] else [])
  {
    assert timers[..k + 1][..k] == timers[..k];
  }

  /** `TIMERS` gives one item per entry, every entry having a label. */
  lemma TimerItemIds()
    ensures ItemIds(Timers) == [5, 10, 30, 0]
  {
    assert Timers[..1][..0] == [] && ItemIds(Timers[..1]) == [5];
    assert Timers[..2][..1] == Timers[..1] && ItemIds(Timers[..2]) == [5, 10];
    assert Timers[..3][..2] == Timers[..2] && ItemIds(Timers[..3]) == [5, 10, 30];
    assert Timers[..3] == Timers[..|Timers| - 1];
  }

  /** The check marks `_sync` sets: an item is checked exactly when its id is
      the active timer id. */
  function Ornaments(ids: seq<int>, active: int): (marks: seq<bool>)
    ensures |marks| == |ids|
    ensures forall k :: 0 <= k < |ids| ==> (marks[k] <==> ids[k] == active)
  {
    seq(|ids|, k requires 0 <= k < |ids| => ids[k] == active)
  }

  /** How many items carry the check mark. */
  function CheckedCount(marks: seq<bool>): nat
    decreases |marks|
  {
    if |marks| == 0 then 0 else (if marks[0] then 1 else 0) + CheckedCount(marks[1..])
  }

  /** With distinct item ids, `_sync` checks exactly one item when the active
      id has one, and none otherwise. */
  lemma {:induction false} OneItemChecked(ids: seq<int>, active: int)
    requires Distinct(ids)
    ensures CheckedCount(Ornaments(ids, active)) == if active in ids then 1 else 0
    decreases |ids|
  {
    if |ids| > 0 {
      var marks := Ornaments(ids, active);
      assert marks[1..] == Ornaments(ids[1..], active);
      DistinctSlice(ids, 1, |ids|);
      assert ids[1..|ids|] == ids[1..];
      OneItemChecked(ids[1..], active);
      assert ids == [ids[0]] + ids[1..];
      if ids[0] == active {
        assert active !in ids[1..] by {
          forall j | 0 <= j < |ids[1..]| ensures ids[1..][j] != active {
            assert ids[0] != ids[j + 1];
          }
        }
      }
    }
  }

  /** The menu's labels agree with the countdown label each timer starts
      from, so the countdown begins at the text of the item that started it. */
  lemma MenuLabelsMatchCountdown()
    ensures forall k :: 0 <= k < |Timers| && Timers[k].minutes != 0 ==>
      TimerLabel.PrintTimer(Timers[k].minutes * 60) == Timers[k].text
  {
    TimerLabel.MenuLabels();
  }

  class FeatureToggle {
    const settings: Store

    /** `_timerItems`, in insertion order: each item's timer id and whether it
        carries the check ornament. */
    var itemIds: seq<int>
    var checked: seq<bool>
    var menuEnabled: bool

    /** `_iconName`: whether the toggle shows the "on" icon. */
    var iconActive: bool

    /** Menu items are keyed by their duration, and no two share one. */
    ghost predicate Valid()
      reads this
    {
      |checked| == |itemIds| && Distinct(itemIds)
    }

    /** `_init`: build the timer items, mark the active one, and pick the icon. */
    constructor (store: Store)
      ensures Valid()
      ensures settings == store
      ensures itemIds == [5, 10, 30, 0] && menuEnabled
      ensures checked == Ornaments(itemIds, store.GetInt(TimerKey))
      ensures iconActive == store.GetBoolean(UserEnabledKey)
    {
      settings := store;
      itemIds, checked := [], [];
      menuEnabled, iconActive := false, false;
      new;
      SyncTimers();
      Sync();
      IconName();
    }

    /** `_syncTimers`: one unchecked item per labelled entry of `TIMERS`, in
        order; the menu is enabled when `TIMERS` has more than two entries. */
    method SyncTimers()
      modifies this`itemIds, this`checked, this`menuEnabled
      ensures Valid()
      ensures itemIds == ItemIds(Timers) == [5, 10, 30, 0]
      ensures checked == Ornaments(itemIds, -1)
      ensures menuEnabled == (|Timers| > 2)
    {
      AddItems(Timers);
      TimerItemIds();
      menuEnabled := |Timers| > 2;
    }

    /** The loop of `_syncTimers`: a fresh unchecked item for each entry of
        `timers` that has a label. */
    method AddItems(timers: seq<TimerEntry>)
      modifies this`itemIds, this`checked
      ensures itemIds == ItemIds(timers)
      ensures checked == Ornaments(itemIds, -1)
    {
      itemIds, checked := [], [];
      for k := 0 to |timers|
        invariant itemIds == ItemIds(timers[..k])
        invariant checked == Ornaments(itemIds, -1)
      {
        ItemIdsStep(timers, k);
        if timers[k].text != "" {
          itemIds := itemIds + [timers[k].minutes];
          checked := checked + [false];
        }
      }
      assert timers[..|timers|] == timers;
    }

    /** `_sync`, also the handler of `countdown-timer`: check the item of the
        active timer id and clear every other one. */
    method Sync()
      requires Valid()
      modifies this`checked
      ensures Valid()
      ensures checked == Ornaments(itemIds, settings.GetInt(TimerKey))
    {
      var activeTimerId := settings.GetInt(TimerKey);
      for k := 0 to |itemIds|
        invariant |checked| == |itemIds|
        invariant forall m :: 0 <= m < k ==> (checked[m] <==> itemIds[m] == activeTimerId)
      {
        checked := checked[k := itemIds[k] == activeTimerId];
      }
    }

    /** `_checkTimer`, the action of a timer item: store its duration and
        set `countdown-timer-enabled`, whose handler starts the countdown. */
    method CheckTimer(timerId: int)
      modifies settings
      ensures settings.values ==
        old(settings.values)[TimerKey := IntValue(timerId)][TimerEnabledKey := BoolValue(true)]
      ensures settings.GetInt(TimerKey) == timerId && settings.GetBoolean(TimerEnabledKey)
    {
      settings.SetInt(TimerKey, timerId);
      settings.SetBoolean(TimerEnabledKey, true);
    }

    /** `_iconName`, also the handler of `user-enabled`. */
    method IconName()
      modifies this`iconActive
      ensures iconActive == settings.GetBoolean(UserEnabledKey)
    {
      iconActive := settings.GetBoolean(UserEnabledKey);
    }
  }
}
