/** The keyboards of the settings screens. */
module SettingsKeyboards {
  import opened Strings
  import opened Callbacks
  import opened Markup
  import Locales
  import Validators

  /** `createSettingsKeyboard`: language and notification time, the
      notification toggle, export and import, delete profile, back. */
  function SettingsKeyboard(): (kb: Keyboard)
    ensures |kb| == 5 && |kb[0]| == 2 && |kb[1]| == 1 && |kb[2]| == 2 && |kb[3]| == 1 && |kb[4]| == 1
    ensures Dispatches(kb)
    ensures kb[0][0].action == SettingsLanguage && kb[0][1].action == SettingsNotificationTime
    ensures kb[1][0].action == SettingsNotifications
    ensures kb[2][0].action == Export && kb[2][1].action == Import
    ensures kb[3][0].action == DeleteProfile && kb[4][0].action == MenuMain
  {
    [ [Tap(Localized("settings.language"), SettingsLanguage),
       Tap(Localized("settings.notificationTime"), SettingsNotificationTime)],
      [Tap(Localized("settings.notifications"), SettingsNotifications)],
      [Tap(Localized("settings.exportData"), Export), Tap(Localized("settings.importCSV"), Import)],
      [Tap(Localized("settings.deleteProfile"), DeleteProfile)],
      BackRow("common.back", MenuMain) ]
  }

  /** One row for a language of the settings list, checked when it is the
      user's current language. */
  function LanguageRow(code: string, current: string): Row {
    [Tap(LanguageEntry(code, code == current), SetLanguage(code))]
  }

  /** `createLanguageSettingsKeyboard(t, currentLanguage)`: en, ru, es, then
      back to the settings. */
  function LanguageSettingsKeyboard(current: string): (kb: Keyboard)
    ensures |kb| == |Locales.SupportedLanguages| + 1
  {
    seq(|Locales.SupportedLanguages|, i requires 0 <= i < |Locales.SupportedLanguages| =>
      LanguageRow(Locales.Code(Locales.SupportedLanguages[i]), current))
    + [BackRow("common.back", MenuSettings)]
  }

  /** Row i offers the i-th supported language to the set-language handler,
      with the check mark exactly on the current language; the last row goes
      back to the settings. So exactly one row is checked when the current
      language is supported, and none otherwise. */
  lemma LanguageSettingsKeyboardMeaning(current: string)
    ensures var kb := LanguageSettingsKeyboard(current);
      && Dispatches(kb)
      && (forall i | 0 <= i < |Locales.SupportedLanguages| ::
            var code := Locales.Code(Locales.SupportedLanguages[i]);
            |kb[i]| == 1 && kb[i][0].action == SetLanguage(code)
            && (kb[i][0].caption.selected <==> code == current))
      && |kb[3]| == 1 && kb[3][0].action == MenuSettings
      && ((exists i | 0 <= i < |Locales.SupportedLanguages| :: kb[i][0].caption.selected)
          <==> current in {"en", "ru", "es"})
  {
    var kb: Keyboard := LanguageSettingsKeyboard(current);
    forall i | 0 <= i < |Locales.SupportedLanguages|
      ensures IsWord(Locales.Code(Locales.SupportedLanguages[i]))
    {
    }
    if current in {"en", "ru", "es"} {
      var i := if current == "en" then 0 else if current == "ru" then 1 else 2;
      assert kb[i][0].caption.selected;
    }
  }

  /** `createNotificationToggleKeyboard(t, isEnabled)`: the one toggle button
      shows the current setting and asks for the opposite. */
  function NotificationToggleKeyboard(enabled: bool): (kb: Keyboard)
    ensures |kb| == 2 && |kb[0]| == 1 && |kb[1]| == 1 && Dispatches(kb)
    ensures kb[0][0].caption == NotificationState(enabled)
    ensures kb[0][0].action == ToggleNotifications(!enabled) && kb[0][0].action.enabled != enabled
    ensures kb[1][0].action == MenuSettings
  {
    [[Tap(NotificationState(enabled), ToggleNotifications(!enabled))], BackRow("common.back", MenuSettings)]
  }

  /** `HH:00` for an hour below 100. */
  function HourText(h: nat): (t: string)
    requires h < 100
    ensures |t| == 5
  {
    [DigitChar(h / 10), DigitChar(h % 10), ':', '0', '0']
  }

  /** The notification times offered: the whole hours from 08:00 to 22:00. */
  function TimeSlots(): (slots: seq<string>)
    ensures |slots| == 15
  {
    seq(15, i requires 0 <= i < 15 => HourText(i + 8))
  }

  lemma TimeSlotsExamples()
    ensures |TimeSlots()| == 15 && TimeSlots()[0] == "08:00" && TimeSlots()[14] == "22:00"
  {
  }

  const SlotsPerRow: nat := 4

  function SlotButton(time: string): Button {
    Tap(TimeSlot(time), SetTime(time))
  }

  /** Row r of the slot rows: `times.slice(r * 4, r * 4 + 4)`. */
  function SlotRow(times: seq<string>, r: nat): Row
    requires r * SlotsPerRow < |times|
  {
    var from := r * SlotsPerRow;
    var n := if |times| - from < SlotsPerRow then |times| - from else SlotsPerRow;
    seq(n, j requires 0 <= j < n => SlotButton(times[from + j]))
  }

  /** The rows `for (i = 0; i < times.length; i += 4)` builds: rows of four
      slots in order, the last one holding the rest, so slot k sits in row
      k / 4 at column k % 4. */
  function SlotRows(times: seq<string>): (rows: Keyboard)
    ensures |rows| == (|times| + SlotsPerRow - 1) / SlotsPerRow
    ensures forall r | 0 <= r < |rows| :: 1 <= |rows[r]| <= SlotsPerRow
    ensures forall k | 0 <= k < |times| ::
      k / SlotsPerRow < |rows| && k % SlotsPerRow < |rows[k / SlotsPerRow]|
      && rows[k / SlotsPerRow][k % SlotsPerRow] == SlotButton(times[k])
  {
    var count := (|times| + SlotsPerRow - 1) / SlotsPerRow;
    seq(count, r requires 0 <= r < count => SlotRow(times, r))
  }

  /** The rows below the slots: custom time, then back to the settings. */
  function TimeFooter(): Keyboard {
    [[Tap(Glyph("custom_time"), CustomTime)], BackRow("common.back", MenuSettings)]
  }

  /** `createTimeSelectionKeyboard`: the slot rows, then the custom-time row
      and the back row. */
  function TimeSelectionKeyboard(): Keyboard {
    SlotRows(TimeSlots()) + TimeFooter()
  }

  /** Slot rows for times that all fit the set-time pattern reach the
      set-time handler from every button. */
  lemma SlotRowsDispatch(times: seq<string>)
    requires forall k | 0 <= k < |times| :: IsTwoDigitTime(times[k])
    ensures Dispatches(SlotRows(times))
  {
    var rows: Keyboard := SlotRows(times);
    forall i, j | 0 <= i < |rows| && 0 <= j < |rows[i]|
      ensures rows[i][j].Tap? && WellFormed(rows[i][j].action)
    {
      RowStartsInside(|times|, i);
      SlotRowDispatches(times, i);
      assert rows[i] == SlotRow(times, i);
    }
  }

  lemma SlotRowDispatches(times: seq<string>, r: nat)
    requires forall k | 0 <= k < |times| :: IsTwoDigitTime(times[k])
    requires r * SlotsPerRow < |times|
    ensures Dispatches([SlotRow(times, r)])
  {
    var row := SlotRow(times, r);
    forall j | 0 <= j < |row|
      ensures row[j].Tap? && WellFormed(row[j].action)
    {
      assert row[j] == SlotButton(times[r * SlotsPerRow + j]);
    }
  }

  /** Every slot row starts at a slot. */
  lemma RowStartsInside(n: nat, r: nat)
    requires r < (n + SlotsPerRow - 1) / SlotsPerRow
    ensures r * SlotsPerRow < n
  {
  }

  /** Fifteen times that all fit the set-time pattern lay out as rows of 4,
      4, 4 and 3 in order above the footer, and every button reaches its
      handler. */
  lemma FifteenSlotsLayout(times: seq<string>)
    requires |times| == 15
    requires forall k | 0 <= k < |times| :: IsTwoDigitTime(times[k])
    ensures var kb := SlotRows(times) + TimeFooter();
      && |kb| == 6 && Dispatches(kb)
      && |kb[0]| == 4 && |kb[1]| == 4 && |kb[2]| == 4 && |kb[3]| == 3
      && (forall k | 0 <= k < |times| :: kb[k / 4][k % 4] == SlotButton(times[k]))
      && kb[4][0].action == CustomTime && kb[5][0].action == MenuSettings
  {
    var rows: Keyboard := SlotRows(times);
    var kb: Keyboard := rows + TimeFooter();
    assert |rows| == 4;
    assert forall r | 0 <= r < 4 :: kb[r] == rows[r] && rows[r] == SlotRow(times, r);
    SlotRowsDispatch(times);
    DispatchesConcat(rows, TimeFooter());
  }

  /** A slot for hour h reaches the set-time handler with its own time, and
      for a real hour that time is one `validateTime` accepts. */
  lemma HourTextIsValid(h: nat)
    requires h < 24
    ensures WellFormed(SetTime(HourText(h)))
    ensures Validators.ValidateTime(HourText(h)) == Validators.Valid(HourText(h))
  {
    var t := HourText(h);
    var hour, minute := t[..2], t[3..];
    assert t == hour + ":" + minute;
    Validators.TwoDigits(hour);
    Validators.TwoDigits(minute);
    Validators.DigitsExclude(hour);
    Validators.DigitsExclude(minute);
    Validators.ValidateTimeOfParts(hour, minute);
  }

  /** The time keyboard: fifteen slots in rows of 4, 4, 4 and 3, in the
      listed order, then custom time and back. Every button reaches its
      handler; every slot reaches the set-time handler with its own time,
      and every slot time is one `validateTime` accepts. */
  lemma TimeSelectionKeyboardMeaning()
    ensures var kb := TimeSelectionKeyboard();
      && |kb| == 6 && Dispatches(kb)
      && |kb[0]| == 4 && |kb[1]| == 4 && |kb[2]| == 4 && |kb[3]| == 3
      && (forall k | 0 <= k < |TimeSlots()| ::
            kb[k / 4][k % 4] == SlotButton(TimeSlots()[k])
            && Validators.ValidateTime(TimeSlots()[k]).Valid?)
      && kb[4][0].action == CustomTime && kb[5][0].action == MenuSettings
  {
    var times := TimeSlots();
    forall k | 0 <= k < |times|
      ensures IsTwoDigitTime(times[k]) && Validators.ValidateTime(times[k]).Valid?
    {
      HourTextIsValid(k + 8);
    }
    FifteenSlotsLayout(times);
  }

  /** `createDeleteProfileConfirmationKeyboard`: confirm, or cancel back to
      the settings. */
  function DeleteProfileConfirmationKeyboard(): (kb: Keyboard)
    ensures |kb| == 2 && |kb[0]| == 1 && |kb[1]| == 1 && Dispatches(kb)
    ensures kb[0][0].action == ConfirmDeleteProfile && kb[1][0].action == MenuSettings
  {
    [[Tap(Glyph("confirm_delete_profile"), ConfirmDeleteProfile)], BackRow("common.cancel", MenuSettings)]
  }

  /** `createExportOptionsKeyboard`: CSV or JSON, then back to the settings. */
  function ExportOptionsKeyboard(): (kb: Keyboard)
    ensures |kb| == 2 && |kb[0]| == 2 && |kb[1]| == 1 && Dispatches(kb)
    ensures kb[0][0].action == ExportCsv && kb[0][1].action == ExportJson && kb[1][0].action == MenuSettings
  {
    [[Tap(Glyph("csv"), ExportCsv), Tap(Glyph("json"), ExportJson)], BackRow("common.back", MenuSettings)]
  }
}
