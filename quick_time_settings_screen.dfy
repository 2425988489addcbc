/**
 * screens/QuickTimeSettingsScreen.tsx: editing the three quick-time presets
 * one start or end time at a time, and saving them.
 */
module QuickTimeSettingsScreen {
  import opened Wrappers
  import opened Types
  import opened DateUtils
  import opened Storage
  import WorkRecordModal

  /**
   * A slider's `onTimeChange` for one preset end: `{ ...settings, [meal]:
   * { ...settings[meal], [edge]: { hours, minutes } } }`. A missing preset
   * spreads as nothing, so its other end stays missing.
   */
  function WithTime(s: QuickTimeSettings, meal: Meal, edge: Edge, time: ClockTime): (r: QuickTimeSettings)
    ensures TimeAt(r, meal, edge) == Some(time)
    ensures forall m: Meal, e: Edge :: (m != meal || e != edge) ==> TimeAt(r, m, e) == TimeAt(s, m, e)
  {
    var range := Preset(s, meal).GetOr(TimeRange(None, None));
    var updated := if edge == Start then range.(startTime := Some(time)) else range.(endTime := Some(time));
    match meal
    case Morning => s.(morning := Some(updated))
    case Lunch => s.(lunch := Some(updated))
    case Dinner => s.(dinner := Some(updated))
  }

  /** Complete presets stay complete under every edit. */
  lemma WithTimeKeepsComplete(s: QuickTimeSettings, meal: Meal, edge: Edge, time: ClockTime)
    requires IsComplete(s)
    ensures IsComplete(WithTime(s, meal, edge, time))
  {
  }

  /**
   * What a slider shows: the preset's hour and minute, each falling back to
   * that slot's default hour (9, 12, 12, 15, 18 or 21) and to 0 minutes.
   */
  function Displayed(s: QuickTimeSettings, meal: Meal, edge: Edge): (t: Time)
    ensures TimeAt(s, meal, edge).Some? && TimeAt(s, meal, edge).value.hours.Some? ==> t.hours == TimeAt(s, meal, edge).value.hours.value
    ensures TimeAt(s, meal, edge).Some? && TimeAt(s, meal, edge).value.minutes.Some? ==> t.minutes == TimeAt(s, meal, edge).value.minutes.value
    ensures TimeAt(s, meal, edge).Some? && TimeAt(s, meal, edge).value.hours.None? ==> t.hours == DefaultHour(meal, edge)
    ensures TimeAt(s, meal, edge).Some? && TimeAt(s, meal, edge).value.minutes.None? ==> t.minutes == 0
    ensures TimeAt(s, meal, edge).None? ==> Clock(t.hours, t.minutes) == TimeAt(DefaultQuickTimes, meal, edge).value
  {
    var fallback := DefaultHour(meal, edge);
    match TimeAt(s, meal, edge)
    case None => Time(fallback, 0)
    case Some(c) => Time(c.hours.GetOr(fallback), c.minutes.GetOr(0))
  }

  /** The `?? h` of each slider. */
  function DefaultHour(meal: Meal, edge: Edge): nat {
    match meal
    case Morning => if edge == Start then 9 else 12
    case Lunch => if edge == Start then 12 else 15
    case Dinner => if edge == Start then 18 else 21
  }

  /** After a slider moves, it shows what it was moved to. */
  lemma SliderShowsItsTime(s: QuickTimeSettings, meal: Meal, edge: Edge, hours: nat, minutes: nat)
    ensures Displayed(WithTime(s, meal, edge, Clock(hours, minutes)), meal, edge) == Time(hours, minutes)
  {
  }

  class SettingsScreen {
    var settings: QuickTimeSettings

    /** The presets shown before anything is loaded. */
    constructor ()
      ensures settings == DefaultQuickTimes && Valid()
    {
      settings := DefaultQuickTimes;
    }

    /** Every preset has both ends. */
    predicate Valid()
      reads this
    {
      IsComplete(settings)
    }

    /** `loadSettings`: the stored presets only when all three have both ends; else the current ones stay. */
    method LoadSettings(store: Store)
      modifies this`settings
      ensures IsComplete(store.GetQuickTimeSettings()) ==> settings == store.GetQuickTimeSettings()
      ensures !IsComplete(store.GetQuickTimeSettings()) ==> settings == old(settings)
      ensures old(Valid()) ==> Valid()
    {
      var savedSettings := store.GetQuickTimeSettings();
      if IsComplete(savedSettings) {
        settings := savedSettings;
      }
    }

    /** One of the six sliders' `onTimeChange`. */
    method UpdateTime(meal: Meal, edge: Edge, hours: nat, minutes: nat)
      modifies this`settings
      ensures settings == WithTime(old(settings), meal, edge, Clock(hours, minutes))
      ensures old(Valid()) ==> Valid()
    {
      var time := Clock(hours, minutes);
      var range := Preset(settings, meal).GetOr(TimeRange(None, None));
      var updated := if edge == Start then range.(startTime := Some(time)) else range.(endTime := Some(time));
      match meal {
        case Morning => settings := settings.(morning := Some(updated));
        case Lunch => settings := settings.(lunch := Some(updated));
        case Dinner => settings := settings.(dinner := Some(updated));
      }
      if old(Valid()) {
        WithTimeKeepsComplete(old(settings), meal, edge, time);
      }
    }

    /**
     * `handleSave`: the settings are stored as they are; valid settings are
     * then exactly the presets the work-record form adopts.
     */
    method HandleSave(store: Store)
      modifies store`quickTimeData
      ensures store.GetQuickTimeSettings() == settings
      ensures Valid() ==> WorkRecordModal.AcceptedQuickTimes(store.GetQuickTimeSettings()) == settings
    {
      store.SaveQuickTimeSettings(settings);
      if Valid() {
        SavedPresetsReachTheForm(settings);
      }
    }
  }

  /** Presets saved from this screen are the ones the work-record form then offers. */
  lemma SavedPresetsReachTheForm(settings: QuickTimeSettings)
    requires IsComplete(settings)
    ensures WorkRecordModal.AcceptedQuickTimes(settings) == settings
  {
  }
}
