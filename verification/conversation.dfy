/** The conversation: one pure step per incoming event, over the per-user
    session store. Persistence is reduced to the records a handler reads
    (a snapshot in `World`) and the writes it asks for, each with one
    abstract outcome; message text is reduced to the screen shown and the
    keyboard attached to it. */
module Conversation {
  import opened Strings
  import opened Calendar
  import opened Callbacks
  import opened Sessions
  import opened Markup
  import Validators
  import BirthdayKeyboards
  import SettingsKeyboards
  import MainKeyboards

  /** An update from Telegram, after the sender has been identified. */
  datatype Event =
    | Message(text: string)
    | Upload
    | Press(data: string)
    | StartCommand
    | MenuCommand

  /** Whether a database write went through or threw. */
  datatype Outcome = Ok | Fail

  /** What the database answers while one event is handled: the records by
      id, the sender's records in the order the list shows them, the
      sender's records that `getUpcomingBirthdays` finds in the window, the
      current year, and the outcome of any write. */
  datatype World = World(
    db: map<nat, Birthday>, myBirthdays: seq<Birthday>, upcoming: seq<Birthday>,
    currentYear: int, outcome: Outcome)

  /** A record change sent to `updateBirthday`. */
  datatype Change = NameChange(name: string) | DateChange(date: CivilDate) | NotesChange(notes: string)

  /** A database write. The record id of an update is whatever the session
      held under `birthdayId`. */
  datatype Write =
    | InsertBirthday(owner: nat, name: Value, birthDate: Value, category: Value, notes: Value)
    | UpdateRecord(id: Value, change: Change)
    | RemoveBirthday(record: nat)
    | SetUserLanguage(language: string)
    | SetUserNotifications(enabled: bool)
    | SetUserNotificationTime(time: string)
    | RemoveUser(telegramId: string)

  /** The screens the handlers show. */
  datatype Screen =
    | MainMenu
    | Prompt(key: string)
    | CategoryChoice
    | NotesPrompt
    | BirthdayDetails(birthday: Birthday)
    | EditOptions(id: nat)
    | DeleteQuestion(birthday: Birthday)
    | ListPage(page: nat, count: nat)
    | NoBirthdays
    | UpcomingList(window: nat, listed: seq<Birthday>, more: nat)
    | NoUpcoming(window: nat)
    | SettingsMenu
    | LanguageChoice
    | NotificationChoice(enabled: bool)
    | TimeChoice
    | ExportChoice
    | ExportPending(format: string)
    | ImportPrompt
    | ImportPending
    | DeleteProfileWarning

  /** Why a handler answered with an error and changed nothing it had not
      already changed. `Unauthenticated` is the authentication middleware's
      answer to an update without a sender. */
  datatype Reason = InputMissing | InvalidInput(error: string) | DataMissing | NotFound | Unauthenticated

  /** What a step answers. A write carries the keyboard of the reply that
      follows it: the confirmation's keyboard when the write went through,
      none when it threw and only an error was sent. */
  datatype Effect =
    | Ignored
    | Rejected(reason: Reason)
    | Shown(screen: Screen, keyboard: Keyboard)
    | Wrote(write: Write, outcome: Outcome, keyboard: Keyboard)

  datatype Step = Step(store: Store, effect: Effect)

  /** The window `getUpcomingBirthdays` is asked for, in days. */
  const UpcomingWindowDays: nat := 30
  /** The most records the upcoming view lists. */
  const UpcomingLimit: nat := 10

  /** The session entry is present and truthy (`!value` is false). */
  predicate Present(d: Data, key: string) {
    key in d && Truthy(d[key])
  }

  /** A session with no state and no data. */
  predicate Cleared(store: Store, u: UserId) {
    Lookup(store, u) == Fresh
  }

  /** The user's data kept every key it had. */
  predicate KeepsData(before: Store, after: Store, u: UserId) {
    Lookup(before, u).data.Keys <= Lookup(after, u).data.Keys
  }

  /** A write whose confirmation, once the write went through, carries
      `kb`; a write that threw is answered with an error and no keyboard. */
  function Written(write: Write, outcome: Outcome, kb: Keyboard): Effect {
    Wrote(write, outcome, if outcome.Ok? then kb else [])
  }

  /** The closing write of a text flow: on success the session is cleared,
      on failure it is left as it is. */
  function Finish(store: Store, u: UserId, write: Write, outcome: Outcome, kb: Keyboard): (r: Step)
    ensures r.effect == Written(write, outcome, kb)
    ensures outcome.Ok? ==> Cleared(r.store, u)
    ensures outcome.Fail? ==> r.store == store
    ensures OthersUnchanged(store, r.store, u)
  {
    Step(if outcome.Ok? then ClearState(store, u) else store, Written(write, outcome, kb))
  }

  // ----- Replies after a write ---------------------------------------------

  /** After a record was created: add another, the list, or the main menu. */
  function SavedKeyboard(): (kb: Keyboard)
    ensures |kb| == 3 && |kb[0]| == 1 && |kb[1]| == 1 && |kb[2]| == 1 && Dispatches(kb)
    ensures kb[0][0].action == MenuAddBirthday && kb[1][0].action == MenuMyBirthdays && kb[2][0].action == MenuMain
  {
    [[Tap(Localized("menu.addBirthday"), MenuAddBirthday)],
     [Tap(Localized("menu.myBirthdays"), MenuMyBirthdays)],
     BackRow("common.back", MenuMain)]
  }

  /** After a record was deleted: the list, or the main menu. */
  function DeletedKeyboard(): (kb: Keyboard)
    ensures |kb| == 2 && |kb[0]| == 1 && |kb[1]| == 1 && Dispatches(kb)
    ensures kb[0][0].action == MenuMyBirthdays && kb[1][0].action == MenuMain
  {
    [[Tap(Localized("menu.myBirthdays"), MenuMyBirthdays)], BackRow("common.back", MenuMain)]
  }

  /** After a settings write: the fixed back button to the settings. */
  function SettingsBackKeyboard(): (kb: Keyboard)
    ensures |kb| == 1 && |kb[0]| == 1 && Dispatches(kb) && kb[0][0].action == MenuSettings
  {
    [[Tap(Glyph("back"), MenuSettings)]]
  }

  /** The view button of an edit confirmation, `birthday:view:${birthdayId}`
      for whatever the session held under `birthdayId`. A non-negative
      number renders as the view callback itself; anything else renders as
      text that is kept as it stands. */
  function ViewButton(id: Value): (b: Button)
    ensures b.Tap? <==> id.Number? && id.number >= 0
    ensures b.Tap? ==> b.action == ViewBirthday(id.number) && WellFormed(b.action)
  {
    match id
    case Number(n) =>
      if n >= 0 then Tap(Glyph("view"), ViewBirthday(n)) else Raw(Glyph("view"), "birthday:view:" + IntToString(n))
    case Text(t) => Raw(Glyph("view"), "birthday:view:" + t)
    case DateValue(d) => Raw(Glyph("view"), "birthday:view:" + DateText(d))
  }

  /** A stand-in for the text of a `Date` in a template string, which
      depends on the time zone: weekday, month, day and year separated by
      spaces, reduced here to the numbers. */
  function DateText(d: CivilDate): string {
    IntToString(d.year) + " " + IntToString(d.month) + " " + IntToString(d.day)
  }

  /** After an edit: one button back to the record. */
  function UpdatedKeyboard(id: Value): Keyboard {
    [[ViewButton(id)]]
  }

  // ----- Text input -----------------------------------------------------

  /** `handleNameInput`: the trimmed text must be a valid name; it is kept
      as `name` and the date is asked for next. */
  function NameInput(store: Store, u: UserId, text: string): (r: Step)
    ensures r.effect.Shown? <==> Validators.ValidateName(text).Valid?
    ensures r.effect.Shown? ==>
      Lookup(r.store, u) == Session(Some(AddingBirthdayDate),
        Lookup(store, u).data["name" := Text(Validators.ValidateName(text).value)])
    ensures !r.effect.Shown? ==> r.effect.Rejected? && r.store == store
    ensures OthersUnchanged(store, r.store, u)
  {
    var name := Validators.Trim(text);
    Validators.TrimIdempotent(text);
    if name == "" then Step(store, Rejected(InputMissing))
    else
      match Validators.ValidateName(name)
      case Invalid(e) => Step(store, Rejected(InvalidInput(e)))
      case Valid(v) =>
        Step(SetState(SetData(store, u, "name", Text(v)), u, AddingBirthdayDate, None),
             Shown(Prompt("birthday.enterDate"), [BackRow("common.cancel", MenuMain)]))
  }

  /** `handleDateInput`: the trimmed text must be a valid date; it is kept
      as `birthDate`, the state stays, and the category keyboard follows. */
  function DateInput(store: Store, u: UserId, text: string, currentYear: int): (r: Step)
    ensures r.effect.Shown? <==> Validators.ValidateDate(Validators.Trim(text), currentYear).Valid?
    ensures r.effect.Shown? ==>
      Lookup(r.store, u) == Session(Lookup(store, u).state,
        Lookup(store, u).data["birthDate" := DateValue(Validators.ValidateDate(Validators.Trim(text), currentYear).value)])
    ensures !r.effect.Shown? ==> r.effect.Rejected? && r.store == store
    ensures OthersUnchanged(store, r.store, u)
  {
    var s := Validators.Trim(text);
    if s == "" then
      assert Validators.MatchDate(s).None?;
      Step(store, Rejected(InputMissing))
    else
      match Validators.ValidateDate(s, currentYear)
      case Invalid(e) => Step(store, Rejected(InvalidInput(e)))
      case Valid(d) =>
        Step(SetData(store, u, "birthDate", DateValue(d)),
             Shown(CategoryChoice, BirthdayKeyboards.CategorySelectionKeyboard()))
  }

  /** `saveBirthday`: name, date and category must all be present and
      truthy; notes default to "". The session is cleared only once the
      record was created. */
  function Save(store: Store, u: UserId, owner: nat, outcome: Outcome): (r: Step)
    ensures var d := Lookup(store, u).data;
      r.effect.Wrote? <==> Present(d, "name") && Present(d, "birthDate") && Present(d, "category")
    ensures var d := Lookup(store, u).data;
      r.effect.Wrote? ==>
        r.effect == Written(InsertBirthday(owner, d["name"], d["birthDate"], d["category"],
          if Present(d, "notes") then d["notes"] else Text("")), outcome, SavedKeyboard())
    ensures !r.effect.Wrote? ==> r.effect == Rejected(DataMissing) && r.store == store
    ensures r.effect.Wrote? && outcome.Ok? ==> Cleared(r.store, u)
    ensures r.effect.Wrote? && outcome.Fail? ==> r.store == store
    ensures OthersUnchanged(store, r.store, u)
  {
    var d := Lookup(store, u).data;
    if !(Present(d, "name") && Present(d, "birthDate") && Present(d, "category")) then
      Step(store, Rejected(DataMissing))
    else
      var notes := if Present(d, "notes") then d["notes"] else Text("");
      Finish(store, u, InsertBirthday(owner, d["name"], d["birthDate"], d["category"], notes), outcome, SavedKeyboard())
  }

  /** `handleNotesInput`: the trimmed text (possibly empty) is kept as
      `notes` before saving, whatever the save then does. The record is
      written exactly when name, date and category are present, with the
      typed notes; unless that write went through, the only change to the
      session is the stored notes. */
  function NotesInput(store: Store, u: UserId, owner: nat, text: string, outcome: Outcome): (r: Step)
    ensures var d := Lookup(store, u).data;
      r.effect.Wrote? <==> Present(d, "name") && Present(d, "birthDate") && Present(d, "category")
    ensures var d := Lookup(store, u).data;
      r.effect.Wrote? ==>
        r.effect == Written(InsertBirthday(owner, d["name"], d["birthDate"], d["category"],
          Text(Validators.Trim(text))), outcome, SavedKeyboard())
    ensures !r.effect.Wrote? ==> r.effect == Rejected(DataMissing)
    ensures r.effect.Wrote? && outcome.Ok? ==> Cleared(r.store, u)
    ensures !(r.effect.Wrote? && outcome.Ok?) ==>
      Lookup(r.store, u) == Session(Lookup(store, u).state, Lookup(store, u).data["notes" := Text(Validators.Trim(text))])
    ensures OthersUnchanged(store, r.store, u)
  {
    var notes := Text(Validators.Trim(text));
    NotesStored(store, u, notes);
    Save(SetData(store, u, "notes", notes), u, owner, outcome)
  }

  /** Storing the notes keeps the state and the other entries, so the save
      sees the same name, date and category, and reads the notes back as
      they were stored. */
  lemma NotesStored(store: Store, u: UserId, notes: Value)
    requires notes.Text?
    ensures var d := Lookup(store, u).data;
      var nd := d["notes" := notes];
      && Lookup(SetData(store, u, "notes", notes), u) == Session(Lookup(store, u).state, nd)
      && (Present(nd, "name") <==> Present(d, "name")) && (Present(nd, "name") ==> nd["name"] == d["name"])
      && (Present(nd, "birthDate") <==> Present(d, "birthDate")) && (Present(nd, "birthDate") ==> nd["birthDate"] == d["birthDate"])
      && (Present(nd, "category") <==> Present(d, "category")) && (Present(nd, "category") ==> nd["category"] == d["category"])
      && (if Present(nd, "notes") then nd["notes"] else Text("")) == notes
  {
  }

  /** `handleEditName`: non-empty text and a truthy `birthdayId`, then a
      valid name; the record is updated with no ownership check. */
  function EditName(store: Store, u: UserId, text: string, outcome: Outcome): (r: Step)
    ensures var d := Lookup(store, u).data;
      r.effect.Wrote? <==> Present(d, "birthdayId") && Validators.ValidateName(text).Valid?
    ensures r.effect.Wrote? ==>
      r == Finish(store, u, UpdateRecord(Lookup(store, u).data["birthdayId"],
        NameChange(Validators.ValidateName(text).value)), outcome, UpdatedKeyboard(Lookup(store, u).data["birthdayId"]))
    ensures !r.effect.Wrote? ==> r.effect.Rejected? && r.store == store
    ensures OthersUnchanged(store, r.store, u)
  {
    var name := Validators.Trim(text);
    var d := Lookup(store, u).data;
    Validators.TrimIdempotent(text);
    if name == "" || !Present(d, "birthdayId") then Step(store, Rejected(DataMissing))
    else
      match Validators.ValidateName(name)
      case Invalid(e) => Step(store, Rejected(InvalidInput(e)))
      case Valid(v) => Finish(store, u, UpdateRecord(d["birthdayId"], NameChange(v)), outcome, UpdatedKeyboard(d["birthdayId"]))
  }

  /** `handleEditDate`: non-empty text and a truthy `birthdayId`, then a
      valid date; the record is updated with no ownership check. */
  function EditDate(store: Store, u: UserId, text: string, currentYear: int, outcome: Outcome): (r: Step)
    ensures var d := Lookup(store, u).data;
      r.effect.Wrote? <==>
        Present(d, "birthdayId") && Validators.ValidateDate(Validators.Trim(text), currentYear).Valid?
    ensures r.effect.Wrote? ==>
      r == Finish(store, u, UpdateRecord(Lookup(store, u).data["birthdayId"],
        DateChange(Validators.ValidateDate(Validators.Trim(text), currentYear).value)), outcome,
        UpdatedKeyboard(Lookup(store, u).data["birthdayId"]))
    ensures !r.effect.Wrote? ==> r.effect.Rejected? && r.store == store
    ensures OthersUnchanged(store, r.store, u)
  {
    var s := Validators.Trim(text);
    var d := Lookup(store, u).data;
    if s == "" || !Present(d, "birthdayId") then
      assert s == "" ==> Validators.MatchDate(s).None?;
      Step(store, Rejected(DataMissing))
    else
      match Validators.ValidateDate(s, currentYear)
      case Invalid(e) => Step(store, Rejected(InvalidInput(e)))
      case Valid(date) => Finish(store, u, UpdateRecord(d["birthdayId"], DateChange(date)), outcome, UpdatedKeyboard(d["birthdayId"]))
  }

  /** `handleEditNotes`: only a truthy `birthdayId` is needed; empty text
      clears the notes. */
  function EditNotes(store: Store, u: UserId, text: string, outcome: Outcome): (r: Step)
    ensures var d := Lookup(store, u).data;
      r.effect.Wrote? <==> Present(d, "birthdayId")
    ensures r.effect.Wrote? ==>
      r == Finish(store, u, UpdateRecord(Lookup(store, u).data["birthdayId"],
        NotesChange(Validators.Trim(text))), outcome, UpdatedKeyboard(Lookup(store, u).data["birthdayId"]))
    ensures !r.effect.Wrote? ==> r.effect == Rejected(DataMissing) && r.store == store
    ensures OthersUnchanged(store, r.store, u)
  {
    var d := Lookup(store, u).data;
    if !Present(d, "birthdayId") then Step(store, Rejected(DataMissing))
    else Finish(store, u, UpdateRecord(d["birthdayId"], NotesChange(Validators.Trim(text))), outcome, UpdatedKeyboard(d["birthdayId"]))
  }

  /** `handleCustomTimeInput`: the trimmed text must pass `validateTime`;
      it is stored as typed, not normalised. */
  function CustomTimeInput(store: Store, u: UserId, text: string, outcome: Outcome): (r: Step)
    ensures var t := Validators.Trim(text);
      r.effect.Wrote? <==> Validators.ValidateTime(t).Valid?
    ensures r.effect.Wrote? ==>
      r == Finish(store, u, SetUserNotificationTime(Validators.Trim(text)), outcome, SettingsBackKeyboard())
    ensures !r.effect.Wrote? ==> r.effect.Rejected? && r.store == store
    ensures OthersUnchanged(store, r.store, u)
  {
    var t := Validators.Trim(text);
    if t == "" then
      assert Split(t, ':') == [""];
      Step(store, Rejected(InputMissing))
    else
      match Validators.ValidateTime(t)
      case Invalid(e) => Step(store, Rejected(InvalidInput(e)))
      case Valid(v) => Finish(store, u, SetUserNotificationTime(v), outcome, SettingsBackKeyboard())
  }

  /** The states whose text the birthday module's text handler takes. */
  predicate BirthdayTextState(s: Option<State>) {
    s in {Some(AddingBirthdayName), Some(AddingBirthdayDate), Some(AddingBirthdayNotes),
          Some(EditingName), Some(EditingDate), Some(EditingNotes)}
  }

  /** The birthday module's text handler: the input handler of the current
      state, and nothing for no state or a state it has no case for (the
      custom-time state among them). */
  function BirthdayText(store: Store, u: UserId, user: User, text: string, w: World): (r: Step)
    ensures !BirthdayTextState(Lookup(store, u).state) ==> r == Step(store, Ignored)
    ensures OthersUnchanged(store, r.store, u)
  {
    match Lookup(store, u).state
    case None => Step(store, Ignored)
    case Some(AddingBirthdayName) => NameInput(store, u, text)
    case Some(AddingBirthdayDate) => DateInput(store, u, text, w.currentYear)
    case Some(AddingBirthdayNotes) => NotesInput(store, u, user.id, text, w.outcome)
    case Some(EditingName) => EditName(store, u, text, w.outcome)
    case Some(EditingDate) => EditDate(store, u, text, w.currentYear, w.outcome)
    case Some(EditingNotes) => EditNotes(store, u, text, w.outcome)
    case Some(_) => Step(store, Ignored)
  }

  /** The settings module's text handler: custom time input only. In that
      state a time `validateTime` accepts is written as typed; in any other
      state text is ignored. */
  function SettingsText(store: Store, u: UserId, text: string, w: World): (r: Step)
    ensures Lookup(store, u).state != Some(SettingCustomTime) ==> r == Step(store, Ignored)
    ensures Lookup(store, u).state == Some(SettingCustomTime) ==>
      (r.effect.Wrote? <==> Validators.ValidateTime(Validators.Trim(text)).Valid?)
    ensures r.effect.Wrote? ==>
      r.effect == Written(SetUserNotificationTime(Validators.Trim(text)), w.outcome, SettingsBackKeyboard())
      && (w.outcome.Ok? ==> Cleared(r.store, u))
    ensures OthersUnchanged(store, r.store, u)
  {
    if Lookup(store, u).state == Some(SettingCustomTime) then CustomTimeInput(store, u, text, w.outcome)
    else Step(store, Ignored)
  }

  /** Text as the two text handlers are meant to share it: the settings
      handler for custom time, the birthday handler for everything else. It
      agrees with the registered order in every state but custom time, and
      there it writes exactly the times `validateTime` accepts. */
  function TextStep(store: Store, u: UserId, user: User, text: string, w: World): (r: Step)
    ensures Lookup(store, u).state != Some(SettingCustomTime) ==> r == TextStepAsRegistered(store, u, user, text, w)
    ensures Lookup(store, u).state == Some(SettingCustomTime) ==>
      (r.effect.Wrote? <==> Validators.ValidateTime(Validators.Trim(text)).Valid?)
    ensures OthersUnchanged(store, r.store, u)
  {
    if Lookup(store, u).state == Some(SettingCustomTime) then SettingsText(store, u, text, w)
    else BirthdayText(store, u, user, text, w)
  }

  /** Text as the handlers are registered: the birthday module's text
      handler comes first and never passes the update on, so the settings
      module's text handler is never reached. */
  function TextStepAsRegistered(store: Store, u: UserId, user: User, text: string, w: World): (r: Step)
    ensures Lookup(store, u).state == Some(SettingCustomTime) ==> r == Step(store, Ignored)
    ensures OthersUnchanged(store, r.store, u)
  {
    BirthdayText(store, u, user, text, w)
  }

  /** The settings module's document handler: in the import state the
      session is cleared (the import itself is a stub); otherwise nothing. */
  function DocumentStep(store: Store, u: UserId): (r: Step)
    ensures Lookup(store, u).state == Some(ImportingCsv) ==>
      Cleared(r.store, u) && r.effect == Shown(ImportPending, [BackRow("common.back", MenuSettings)])
    ensures Lookup(store, u).state != Some(ImportingCsv) ==> r == Step(store, Ignored)
    ensures OthersUnchanged(store, r.store, u)
  {
    if Lookup(store, u).state == Some(ImportingCsv) then
      Step(ClearState(store, u), Shown(ImportPending, [BackRow("common.back", MenuSettings)]))
    else Step(store, Ignored)
  }

  // ----- Buttons --------------------------------------------------------

  /** The sender owns record `id`. */
  predicate Owns(w: World, user: User, id: nat) {
    id in w.db && w.db[id].owner == user.id
  }

  /** `showMyBirthdays(page)`: the add/back choice for an empty list,
      otherwise the requested page of the list. */
  function ListStep(store: Store, user: User, page: nat, w: World): (r: Step)
    ensures r.store == store && r.effect.Shown?
    ensures r.effect.screen == NoBirthdays <==> |w.myBirthdays| == 0
    ensures |w.myBirthdays| > 0 ==> r.effect.keyboard == BirthdayKeyboards.BirthdayListKeyboard(w.myBirthdays, page)
  {
    var bs := w.myBirthdays;
    if |bs| == 0 then
      Step(store, Shown(NoBirthdays, [[Tap(Localized("menu.addBirthday"), MenuAddBirthday)], BackRow("common.back", MenuMain)]))
    else Step(store, Shown(ListPage(page, |bs|), BirthdayKeyboards.BirthdayListKeyboard(bs, page)))
  }

  /** `showUpcomingBirthdays`: at most ten records, and how many more there are. */
  function UpcomingStep(store: Store, w: World): (r: Step)
    ensures r.store == store && r.effect.Shown?
    ensures r.effect.screen.NoUpcoming? <==> |w.upcoming| == 0
    ensures var kb := r.effect.keyboard;
      && Dispatches(kb) && |kb| == 2 && |kb[0]| == 1 && |kb[1]| == 1
      && kb[0][0].action == MenuAddBirthday && kb[1][0].action == MenuMain
  {
    var up := w.upcoming;
    var kb := [[Tap(Localized("menu.addBirthday"), MenuAddBirthday)], BackRow("common.back", MenuMain)];
    if |up| == 0 then Step(store, Shown(NoUpcoming(UpcomingWindowDays), kb))
    else
      var n := if |up| < UpcomingLimit then |up| else UpcomingLimit;
      Step(store, Shown(UpcomingList(UpcomingWindowDays, up[..n], |up| - n), kb))
  }

  /** The buttons `bot.ts` and the menu and language handlers register. */
  predicate MenuButton(c: Callback) {
    c.Noop? || c.Lang? || c.MenuMain? || c.MenuMyBirthdays? || c.BirthdaysPage?
    || c.MenuAddBirthday? || c.MenuUpcoming? || c.MenuSettings?
  }

  /** The buttons the birthday handlers register. */
  predicate BirthdayButton(c: Callback) {
    c.Category? || c.SkipNotes? || c.SaveBirthday? || c.ViewBirthday? || c.EditBirthday?
    || c.DeleteBirthday? || c.ConfirmDelete? || c.EditField?
  }

  /** The handler registered for a decoded button: the settings handlers
      take every button the other two groups do not. */
  function CallbackStep(store: Store, u: UserId, user: User, c: Callback, w: World): (r: Step)
    ensures MenuButton(c) ==> r == MenuPress(store, u, user, c, w)
    ensures BirthdayButton(c) ==> r == BirthdayPress(store, u, user, c, w)
    ensures !MenuButton(c) && !BirthdayButton(c) ==> r == SettingsPress(store, u, user, c, w)
    ensures OthersUnchanged(store, r.store, u)
  {
    if MenuButton(c) then MenuPress(store, u, user, c, w)
    else if BirthdayButton(c) then BirthdayPress(store, u, user, c, w)
    else SettingsPress(store, u, user, c, w)
  }

  /** The no-op button, the language choice of `/start`, and the menu
      buttons. Any other button is not theirs and is ignored here. */
  function MenuPress(store: Store, u: UserId, user: User, c: Callback, w: World): (r: Step)
    ensures !MenuButton(c) ==> r == Step(store, Ignored)
    ensures r.effect.Wrote? ==> c.Lang? && r.effect.write == SetUserLanguage(c.code)
    ensures c != MenuAddBirthday ==> r.store == store
    ensures OthersUnchanged(store, r.store, u)
  {
    match c
    case Noop => Step(store, Ignored)
    case Lang(code) => Step(store, Written(SetUserLanguage(code), w.outcome, MainKeyboards.MainMenuKeyboard()))
    case MenuMain => Step(store, Shown(MainMenu, MainKeyboards.MainMenuKeyboard()))
    case MenuMyBirthdays => ListStep(store, user, 1, w)
    case BirthdaysPage(page) => ListStep(store, user, page, w)
    case MenuAddBirthday =>
      Step(SetState(store, u, AddingBirthdayName, None),
           Shown(Prompt("birthday.enterName"), [BackRow("common.cancel", MenuMain)]))
    case MenuUpcoming => UpcomingStep(store, w)
    case MenuSettings => Step(store, Shown(SettingsMenu, SettingsKeyboards.SettingsKeyboard()))
    case _ => Step(store, Ignored)
  }

  /** The buttons of the add flow and of a record's screens. Any other
      button is not theirs and is ignored here. Only the category, save
      and edit-field buttons touch the session. */
  function BirthdayPress(store: Store, u: UserId, user: User, c: Callback, w: World): (r: Step)
    ensures !BirthdayButton(c) ==> r == Step(store, Ignored)
    ensures r.effect.Wrote? ==> c in {SkipNotes, SaveBirthday} || (c.ConfirmDelete? && Owns(w, user, c.id))
    ensures !c.Category? && !c.SkipNotes? && !c.SaveBirthday? && !c.EditField? ==> r.store == store
    ensures OthersUnchanged(store, r.store, u)
  {
    match c
    case Category(category) =>
      if Validators.ValidateCategory(category).Invalid? then
        Step(store, Rejected(InvalidInput(Validators.InvalidCategory)))
      else
        Step(SetState(SetData(store, u, "category", Text(category)), u, AddingBirthdayNotes, None),
             Shown(NotesPrompt, [[Tap(Glyph("skip"), SkipNotes)], BackRow("common.cancel", MenuMain)]))
    case SkipNotes => Save(store, u, user.id, w.outcome)
    case SaveBirthday => Save(store, u, user.id, w.outcome)
    case ViewBirthday(id) =>
      if Owns(w, user, id) then
        Step(store, Shown(BirthdayDetails(w.db[id]), BirthdayKeyboards.BirthdayActionsKeyboard(id)))
      else Step(store, Rejected(NotFound))
    case EditBirthday(id) => Step(store, Shown(EditOptions(id), BirthdayKeyboards.EditBirthdayKeyboard(id)))
    case DeleteBirthday(id) =>
      if Owns(w, user, id) then
        Step(store, Shown(DeleteQuestion(w.db[id]), BirthdayKeyboards.DeleteConfirmationKeyboard(id)))
      else Step(store, Rejected(NotFound))
    case ConfirmDelete(id) =>
      if Owns(w, user, id) then Step(store, Written(RemoveBirthday(id), w.outcome, DeletedKeyboard()))
      else Step(store, Rejected(NotFound))
    case EditField(field, id) =>
      Step(SetState(store, u, EditingState(field), Some(map["birthdayId" := Number(id)])),
           Shown(Prompt(FieldName(field)), [BackRow("common.cancel", ViewBirthday(id))]))
    case _ => Step(store, Ignored)
  }

  /** The buttons of the settings screens; any other button is not theirs
      and is ignored here. Only custom time and import touch the session
      (each sets its state), and no settings button writes a record. */
  function SettingsPress(store: Store, u: UserId, user: User, c: Callback, w: World): (r: Step)
    ensures c != CustomTime && c != Import ==> r.store == store
    ensures r.effect.Wrote? ==> !r.effect.write.RemoveBirthday? && !r.effect.write.InsertBirthday?
    ensures OthersUnchanged(store, r.store, u)
  {
    match c
    case SettingsLanguage =>
      Step(store, Shown(LanguageChoice, SettingsKeyboards.LanguageSettingsKeyboard(user.language)))
    case SetLanguage(language) => Step(store, Written(SetUserLanguage(language), w.outcome, SettingsBackKeyboard()))
    case SettingsNotifications =>
      Step(store, Shown(NotificationChoice(user.notificationsEnabled),
        SettingsKeyboards.NotificationToggleKeyboard(user.notificationsEnabled)))
    case ToggleNotifications(enabled) =>
      Step(store, Written(SetUserNotifications(enabled), w.outcome, SettingsKeyboards.NotificationToggleKeyboard(enabled)))
    case SettingsNotificationTime => Step(store, Shown(TimeChoice, SettingsKeyboards.TimeSelectionKeyboard()))
    case SetTime(time) => Step(store, Written(SetUserNotificationTime(time), w.outcome, SettingsBackKeyboard()))
    case CustomTime =>
      Step(SetState(store, u, SettingCustomTime, None),
           Shown(Prompt("settings.customTime"), [BackRow("common.cancel", SettingsNotificationTime)]))
    case Export => Step(store, Shown(ExportChoice, SettingsKeyboards.ExportOptionsKeyboard()))
    case ExportCsv => Step(store, Shown(ExportPending("csv"), [BackRow("common.back", MenuSettings)]))
    case ExportJson => Step(store, Shown(ExportPending("json"), [BackRow("common.back", MenuSettings)]))
    case Import =>
      Step(SetState(store, u, ImportingCsv, None), Shown(ImportPrompt, [BackRow("common.cancel", MenuSettings)]))
    case DeleteProfile =>
      Step(store, Shown(DeleteProfileWarning, SettingsKeyboards.DeleteProfileConfirmationKeyboard()))
    case ConfirmDeleteProfile => Step(store, Written(RemoveUser(user.telegramId), w.outcome, []))
    case _ => Step(store, Ignored)
  }

  /** The state `edit:<field>:<id>` sets: `editing_<field>`. */
  function EditingState(f: Field): State {
    match f
    case NameField => EditingName
    case DateField => EditingDate
    case CategoryField => EditingCategory
    case NotesField => EditingNotes
  }

  /** One event from an identified sender, after lazy session creation. */
  function Dispatch(store: Store, user: User, ev: Event, w: World): (r: Step)
    ensures ev.StartCommand? || ev.MenuCommand? ==> r == Step(store, Shown(MainMenu, MainKeyboards.MainMenuKeyboard()))
    ensures ev.Press? && Decode(ev.data).None? ==> r == Step(store, Ignored)
    ensures ev.Press? && Decode(ev.data).Some? ==> r == CallbackStep(store, user.telegramId, user, Decode(ev.data).value, w)
    ensures ev.Message? ==> r == TextStep(store, user.telegramId, user, ev.text, w)
    ensures OthersUnchanged(store, r.store, user.telegramId)
  {
    var u := user.telegramId;
    match ev
    case Message(text) => TextStep(store, u, user, text, w)
    case Upload => DocumentStep(store, u)
    case Press(data) =>
      (match Decode(data)
       case None => Step(store, Ignored)
       case Some(c) => CallbackStep(store, u, user, c, w))
    case StartCommand => Step(store, Shown(MainMenu, MainKeyboards.MainMenuKeyboard()))
    case MenuCommand => Step(store, Shown(MainMenu, MainKeyboards.MainMenuKeyboard()))
  }

  /** The whole pipeline for one update: without a sender the
      authentication middleware answers with an error and stops it;
      otherwise the session is attached and the event dispatched. */
  function Handle(store: Store, sender: Option<User>, ev: Event, w: World): (r: Step)
    ensures sender.None? ==> r == Step(store, Rejected(Unauthenticated))
    ensures sender.Some? ==> OthersUnchanged(store, r.store, sender.value.telegramId)
  {
    match sender
    case None => Step(store, Rejected(Unauthenticated))
    case Some(user) => Dispatch(Attach(store, Some(user.telegramId)), user, ev, w)
  }
}
