/** What the conversation step promises: how it may change the sender's
    session, who may see and delete a record, which states take text, how
    pressed buttons reach their handlers and which keyboards they show,
    and a complete add flow. */
module ConversationProperties {
  import opened Strings
  import opened Calendar
  import opened Callbacks
  import opened Sessions
  import opened Markup
  import opened Conversation
  import Validators
  import BirthdayKeyboards
  import SettingsKeyboards
  import MainKeyboards

  /** The sender's session reads the same before and after. */
  predicate Unchanged(before: Store, after: Store, u: UserId) {
    Lookup(after, u) == Lookup(before, u)
  }

  /** Text in the notes state: the notes handler stores the notes before
      `saveBirthday` checks anything. */
  predicate SavesNotesFirst(store: Store, u: UserId, ev: Event) {
    ev.Message? && Lookup(store, u).state == Some(AddingBirthdayNotes)
  }

  /** The session after the notes handler stored the notes and nothing else. */
  predicate OnlyNotesStored(before: Store, after: Store, u: UserId, ev: Event) {
    ev.Message? && Lookup(after, u) == Lookup(SetData(before, u, "notes", Text(Validators.Trim(ev.text))), u)
  }

  /** The step ended the conversation: a write went through, or a document
      arrived in the import state. */
  predicate Concluded(store: Store, u: UserId, ev: Event, r: Step) {
    || (r.effect.Wrote? && r.effect.outcome.Ok?)
    || (ev == Upload && Lookup(store, u).state == Some(ImportingCsv))
  }

  /** The session laws of one step, for a session `store` already attached. */
  predicate Disciplined(store: Store, u: UserId, ev: Event, r: Step) {
    var kept := Unchanged(store, r.store, u) || (SavesNotesFirst(store, u, ev) && OnlyNotesStored(store, r.store, u, ev));
    && (r.effect.Ignored? ==> Unchanged(store, r.store, u))
    && (r.effect.Rejected? ==> kept)
    && (r.effect.Wrote? && r.effect.outcome.Fail? ==> kept)
    && (!Concluded(store, u, ev, r) ==>
          KeepsData(store, r.store, u) && (Lookup(r.store, u).state.None? ==> Lookup(store, u).state.None?))
    && (ev.Message? && r.effect.Wrote? && r.effect.outcome.Ok? ==> Cleared(r.store, u))
  }

  lemma TextDisciplined(store: Store, u: UserId, user: User, text: string, w: World)
    ensures Disciplined(store, u, Message(text), TextStep(store, u, user, text, w))
  {
    var r := TextStep(store, u, user, text, w);
    var ev := Message(text);
    match Lookup(store, u).state
    case None =>
    case Some(AddingBirthdayName) =>
      assert r == NameInput(store, u, text);
    case Some(AddingBirthdayDate) =>
      assert r == DateInput(store, u, text, w.currentYear);
    case Some(AddingBirthdayNotes) =>
      NotesDisciplined(store, u, user, text, w);
    case Some(EditingName) =>
      assert r == EditName(store, u, text, w.outcome);
    case Some(EditingDate) =>
      assert r == EditDate(store, u, text, w.currentYear, w.outcome);
    case Some(EditingNotes) =>
      assert r == EditNotes(store, u, text, w.outcome);
    case Some(SettingCustomTime) =>
      assert r == CustomTimeInput(store, u, text, w.outcome);
    case Some(EditingCategory) =>
    case Some(ImportingCsv) =>
  }

  lemma NotesDisciplined(store: Store, u: UserId, user: User, text: string, w: World)
    requires Lookup(store, u).state == Some(AddingBirthdayNotes)
    ensures Disciplined(store, u, Message(text), TextStep(store, u, user, text, w))
  {
    var r := TextStep(store, u, user, text, w);
    var noted := SetData(store, u, "notes", Text(Validators.Trim(text)));
    assert r == Save(noted, u, user.id, w.outcome);
    assert KeepsData(store, noted, u);
    assert Lookup(noted, u).state == Some(AddingBirthdayNotes);
  }

  lemma CallbackDisciplined(store: Store, u: UserId, user: User, c: Callback, w: World, data: string)
    ensures Disciplined(store, u, Press(data), CallbackStep(store, u, user, c, w))
  {
    if MenuButton(c) {
      MenuDisciplined(store, u, user, c, w, data);
    } else if BirthdayButton(c) {
      BirthdayButtonDisciplined(store, u, user, c, w, data);
    } else {
      SettingsDisciplined(store, u, user, c, w, data);
    }
  }

  lemma MenuDisciplined(store: Store, u: UserId, user: User, c: Callback, w: World, data: string)
    ensures Disciplined(store, u, Press(data), MenuPress(store, u, user, c, w))
  {
  }

  lemma BirthdayButtonDisciplined(store: Store, u: UserId, user: User, c: Callback, w: World, data: string)
    ensures Disciplined(store, u, Press(data), BirthdayPress(store, u, user, c, w))
  {
    if c.Category? && Validators.ValidateCategory(c.category).Valid? {
      assert KeepsData(store, SetData(store, u, "category", Text(c.category)), u);
    }
  }

  lemma SettingsDisciplined(store: Store, u: UserId, user: User, c: Callback, w: World, data: string)
    ensures Disciplined(store, u, Press(data), SettingsPress(store, u, user, c, w))
  {
  }

  /** The session discipline of the whole pipeline, for the sender's
      session:
      - an ignored update leaves it alone;
      - a rejection or a failed write leaves it alone, except that text in
        the notes state has already stored the notes;
      - it loses data or its state only when the conversation ends: after
        a write that went through, or for a document in the import state;
      - a text input whose write goes through clears it. */
  lemma SessionDiscipline(store: Store, user: User, ev: Event, w: World)
    ensures Disciplined(store, user.telegramId, ev, Handle(store, Some(user), ev, w))
  {
    var u := user.telegramId;
    var attached := Attach(store, Some(u));
    assert Lookup(attached, u) == Lookup(store, u);
    match ev
    case Message(text) =>
      TextDisciplined(attached, u, user, text, w);
    case Press(data) =>
      if Decode(data).Some? {
        CallbackDisciplined(attached, u, user, Decode(data).value, w, data);
      }
    case _ =>
  }

  /** A validation failure changes nothing: a rejected name, date or time
      leaves the sender's session exactly as it was. */
  lemma ValidationFailureChangesNothing(store: Store, user: User, text: string, w: World)
    requires Lookup(store, user.telegramId).state in
      {Some(AddingBirthdayName), Some(AddingBirthdayDate), Some(EditingName), Some(EditingDate), Some(SettingCustomTime)}
    ensures var r := Handle(store, Some(user), Message(text), w);
      r.effect.Rejected? ==> Unchanged(store, r.store, user.telegramId)
  {
    SessionDiscipline(store, user, Message(text), w);
  }

  // ----- Text per state --------------------------------------------------

  /** With no state, in the category-editing state and in the import state
      text has no handler: nothing happens. */
  lemma TextWithoutHandler(store: Store, user: User, text: string, w: World)
    requires Lookup(store, user.telegramId).state in {None, Some(EditingCategory), Some(ImportingCsv)}
    ensures var r := Handle(store, Some(user), Message(text), w);
      r.effect == Ignored && r.store == Attach(store, Some(user.telegramId))
  {
  }

  /** A valid name moves from the name state to the date state with the
      trimmed name stored; any other text changes nothing. */
  lemma NameStep(store: Store, user: User, text: string, w: World)
    requires Lookup(store, user.telegramId).state == Some(AddingBirthdayName)
    ensures var r := Handle(store, Some(user), Message(text), w);
      var before := Lookup(store, user.telegramId);
      && (Validators.ValidateName(text).Valid? ==>
            Lookup(r.store, user.telegramId) ==
              Session(Some(AddingBirthdayDate), before.data["name" := Text(Validators.Trim(text))]))
      && (Validators.ValidateName(text).Invalid? ==> r.effect.Rejected? && Unchanged(store, r.store, user.telegramId))
  {
    var attached := Attach(store, Some(user.telegramId));
    assert Handle(store, Some(user), Message(text), w) == NameInput(attached, user.telegramId, text);
  }

  /** A valid date is stored but the state stays at the date step: the
      category comes from a button. */
  lemma DateKeepsState(store: Store, user: User, text: string, w: World)
    requires Lookup(store, user.telegramId).state == Some(AddingBirthdayDate)
    ensures var r := Handle(store, Some(user), Message(text), w);
      var date := Validators.ValidateDate(Validators.Trim(text), w.currentYear);
      && Lookup(r.store, user.telegramId).state == Some(AddingBirthdayDate)
      && (date.Valid? ==>
            r.effect == Shown(CategoryChoice, BirthdayKeyboards.CategorySelectionKeyboard())
            && Lookup(r.store, user.telegramId).data ==
                 Lookup(store, user.telegramId).data["birthDate" := DateValue(date.value)])
      && (date.Invalid? ==> r.effect.Rejected? && Unchanged(store, r.store, user.telegramId))
  {
    var attached := Attach(store, Some(user.telegramId));
    assert Handle(store, Some(user), Message(text), w) == DateInput(attached, user.telegramId, text, w.currentYear);
  }

  /** The category button works in any state: a category `validateCategory`
      accepts is stored and the notes step begins; any other is refused. */
  lemma CategoryInAnyState(store: Store, user: User, category: string, w: World)
    requires IsWord(category)
    ensures var r := Handle(store, Some(user), Press(Encode(Category(category))), w);
      var before := Lookup(store, user.telegramId);
      && (Validators.ValidateCategory(category).Valid? ==>
            Lookup(r.store, user.telegramId) ==
              Session(Some(AddingBirthdayNotes), before.data["category" := Text(category)]))
      && (Validators.ValidateCategory(category).Invalid? ==>
            r.effect == Rejected(InvalidInput(Validators.InvalidCategory)) && Unchanged(store, r.store, user.telegramId))
  {
    DecodeEncode(Category(category));
  }

  /** Text in the notes state stores the trimmed notes and saves: with name,
      date and category present the record is written with those notes and
      the session cleared if that went through; otherwise nothing is written
      and only the notes were stored. */
  lemma NotesSave(store: Store, user: User, text: string, w: World)
    requires Lookup(store, user.telegramId).state == Some(AddingBirthdayNotes)
    ensures var r := Handle(store, Some(user), Message(text), w);
      var d := Lookup(store, user.telegramId).data;
      var complete := Present(d, "name") && Present(d, "birthDate") && Present(d, "category");
      var notes := Validators.Trim(text);
      && (complete ==>
            r.effect == Written(InsertBirthday(user.id, d["name"], d["birthDate"], d["category"], Text(notes)),
                                w.outcome, SavedKeyboard())
            && (w.outcome.Ok? ==> Cleared(r.store, user.telegramId)))
      && (!complete ==> r.effect == Rejected(DataMissing))
      && (!(complete && w.outcome.Ok?) ==>
            Lookup(r.store, user.telegramId) == Session(Some(AddingBirthdayNotes), d["notes" := Text(notes)]))
  {
    var u := user.telegramId;
    var attached := Attach(store, Some(u));
    assert Handle(store, Some(user), Message(text), w) == NotesInput(attached, u, user.id, text, w.outcome);
  }

  /** The skip-notes and save buttons save in any state, with the notes
      stored so far (or none): the record is written exactly when name, date
      and category are present, and the session is cleared only once that
      went through. */
  lemma SaveButtons(store: Store, user: User, c: Callback, w: World)
    requires c == SkipNotes || c == SaveBirthday
    ensures var r := Handle(store, Some(user), Press(Encode(c)), w);
      var d := Lookup(store, user.telegramId).data;
      var complete := Present(d, "name") && Present(d, "birthDate") && Present(d, "category");
      && (complete ==>
            r.effect == Written(InsertBirthday(user.id, d["name"], d["birthDate"], d["category"],
                                               if Present(d, "notes") then d["notes"] else Text("")),
                                w.outcome, SavedKeyboard())
            && (w.outcome.Ok? ==> Cleared(r.store, user.telegramId))
            && (w.outcome.Fail? ==> Unchanged(store, r.store, user.telegramId)))
      && (!complete ==> r.effect == Rejected(DataMissing) && Unchanged(store, r.store, user.telegramId))
  {
    PressReachesBirthdayHandler(store, user, c, w);
  }

  /** The whole add flow from the name step, with whatever the session
      held before: a valid name, a valid date, a category button that
      `validateCategory` accepts and any notes create exactly the record
      of the trimmed name, that date, that category and the trimmed notes,
      and the session is cleared once the write went through. */
  lemma AddFlow(store: Store, user: User, name: string, date: string, born: CivilDate, category: string, notes: string,
                w: World)
    requires Lookup(store, user.telegramId).state == Some(AddingBirthdayName)
    requires Validators.ValidateName(name).Valid?
    requires Validators.ValidateDate(Validators.Trim(date), w.currentYear) == Validators.Valid(born)
    requires Validators.ValidateCategory(category).Valid?
    ensures var s1 := Handle(store, Some(user), Message(name), w).store;
      var s2 := Handle(s1, Some(user), Message(date), w).store;
      var s3 := Handle(s2, Some(user), Press(Encode(Category(category))), w).store;
      var r := Handle(s3, Some(user), Message(notes), w);
      && r.effect == Written(InsertBirthday(user.id, Text(Validators.Trim(name)), DateValue(born),
                                            Text(category), Text(Validators.Trim(notes))),
                             w.outcome, SavedKeyboard())
      && (w.outcome.Ok? ==> Cleared(r.store, user.telegramId))
  {
    NameThenDate(store, user, name, date, born, w);
    var s1 := Handle(store, Some(user), Message(name), w).store;
    CategoryThenNotes(Handle(s1, Some(user), Message(date), w).store, user, category, notes, w);
  }

  /** The first half of the add flow: a valid name and then a valid date
      are both stored, and the date step waits for the category. */
  lemma NameThenDate(store: Store, user: User, name: string, date: string, born: CivilDate, w: World)
    requires Lookup(store, user.telegramId).state == Some(AddingBirthdayName)
    requires Validators.ValidateName(name).Valid?
    requires Validators.ValidateDate(Validators.Trim(date), w.currentYear) == Validators.Valid(born)
    ensures var s1 := Handle(store, Some(user), Message(name), w).store;
      var s2 := Handle(s1, Some(user), Message(date), w).store;
      var d := Lookup(s2, user.telegramId).data;
      && Lookup(s2, user.telegramId) ==
           Session(Some(AddingBirthdayDate), Lookup(store, user.telegramId).data
             ["name" := Text(Validators.Trim(name))]["birthDate" := DateValue(born)])
      && Present(d, "name") && d["name"] == Text(Validators.Trim(name))
      && Present(d, "birthDate") && d["birthDate"] == DateValue(born)
  {
    NameStep(store, user, name, w);
    DateKeepsState(Handle(store, Some(user), Message(name), w).store, user, date, w);
    NameAndDateStored(Lookup(store, user.telegramId).data, name, born);
  }

  lemma NameAndDateStored(d0: Data, name: string, born: CivilDate)
    requires Validators.ValidateName(name).Valid?
    ensures var d := d0["name" := Text(Validators.Trim(name))]["birthDate" := DateValue(born)];
      && Present(d, "name") && d["name"] == Text(Validators.Trim(name))
      && Present(d, "birthDate") && d["birthDate"] == DateValue(born)
  {
  }

  /** The second half of the add flow: with a name and a date stored, a
      category button that `validateCategory` accepts and then any notes
      write the record. */
  lemma CategoryThenNotes(store: Store, user: User, category: string, notes: string, w: World)
    requires Present(Lookup(store, user.telegramId).data, "name")
    requires Present(Lookup(store, user.telegramId).data, "birthDate")
    requires Validators.ValidateCategory(category).Valid?
    ensures var d := Lookup(store, user.telegramId).data;
      var s3 := Handle(store, Some(user), Press(Encode(Category(category))), w).store;
      var r := Handle(s3, Some(user), Message(notes), w);
      && r.effect == Written(InsertBirthday(user.id, d["name"], d["birthDate"], Text(category), Text(Validators.Trim(notes))),
                             w.outcome, SavedKeyboard())
      && (w.outcome.Ok? ==> Cleared(r.store, user.telegramId))
  {
    var d := Lookup(store, user.telegramId).data;
    CategoriesAreWords(category);
    CategoryInAnyState(store, user, category, w);
    var s3 := Handle(store, Some(user), Press(Encode(Category(category))), w).store;
    assert Lookup(s3, user.telegramId) == Session(Some(AddingBirthdayNotes), d["category" := Text(category)]);
    CategoryStored(d, category);
    NotesSave(s3, user, notes, w);
  }

  lemma CategoryStored(d: Data, category: string)
    requires Present(d, "name") && Present(d, "birthDate")
    requires Validators.ValidateCategory(category).Valid?
    ensures var nd := d["category" := Text(category)];
      && Present(nd, "name") && nd["name"] == d["name"]
      && Present(nd, "birthDate") && nd["birthDate"] == d["birthDate"]
      && Present(nd, "category") && nd["category"] == Text(category)
  {
  }

  /** Every category `validateCategory` accepts fits the category button's
      `\w+` pattern. */
  lemma CategoriesAreWords(category: string)
    requires Validators.ValidateCategory(category).Valid?
    ensures IsWord(category)
  {
  }

  /** The add flow for Alice: `Alice`, `15.03.1990`, the family button and
      `best friend` create the record of Alice, born 15 March 1990, in the
      family category with the notes `best friend`. */
  lemma AliceAdded(store: Store, user: User, w: World)
    requires Lookup(store, user.telegramId).state == Some(AddingBirthdayName)
    requires w.currentYear >= 1990
    ensures var s1 := Handle(store, Some(user), Message("Alice"), w).store;
      var s2 := Handle(s1, Some(user), Message("15" + "." + "03" + "." + "1990"), w).store;
      var s3 := Handle(s2, Some(user), Press(Encode(Category("family"))), w).store;
      var r := Handle(s3, Some(user), Message("best friend"), w);
      && r.effect == Written(InsertBirthday(user.id, Text("Alice"), DateValue(CivilDate(1990, 3, 15)),
                                            Text("family"), Text("best friend")), w.outcome, SavedKeyboard())
      && (w.outcome.Ok? ==> Cleared(r.store, user.telegramId))
  {
    var name, date, notes := "Alice", "15" + "." + "03" + "." + "1990", "best friend";
    AliceInputs(name, notes);
    BirthDateExample(date, w.currentYear);
    AddFlow(store, user, name, date, CivilDate(1990, 3, 15), "family", notes, w);
  }

  /** `Alice` is a valid name and `best friend` needs no trimming. */
  lemma AliceInputs(name: string, notes: string)
    requires name == "Alice" && notes == "best friend"
    ensures Validators.ValidateName(name) == Validators.Valid(name) && Validators.Trim(notes) == notes
  {
    Validators.TrimOfTrimmed(name);
    Validators.TrimOfTrimmed(notes);
  }

  /** `15.03.1990` is trimmed and is 15 March 1990 from 1990 on. */
  lemma BirthDateExample(date: string, currentYear: int)
    requires date == "15" + "." + "03" + "." + "1990"
    requires currentYear >= 1990
    ensures Validators.Trim(date) == date
    ensures Validators.ValidateDate(date, currentYear) == Validators.Valid(CivilDate(1990, 3, 15))
  {
    BirthDateTrimmed(date);
    BirthDateValid("15", "03", "1990", currentYear);
  }

  lemma BirthDateTrimmed(date: string)
    requires date == "15" + "." + "03" + "." + "1990"
    ensures Validators.Trim(date) == date
  {
    Validators.TrimOfTrimmed(date);
  }

  lemma BirthDateValid(day: string, month: string, year: string, currentYear: int)
    requires day == "15" && month == "03" && year == "1990"
    requires currentYear >= 1990
    ensures Validators.ValidateDate(day + "." + month + "." + year, currentYear) == Validators.Valid(CivilDate(1990, 3, 15))
  {
    Validators.ValidateDateOfDigits(day, month, year, currentYear);
  }

  // ----- Editing ----------------------------------------------------------

  /** `edit:<field>:<id>` enters the state of that field and merges the
      record id into the data, keeping everything else. */
  lemma EditFieldEntersState(store: Store, user: User, field: Field, id: nat, w: World)
    ensures var r := Handle(store, Some(user), Press(Encode(EditField(field, id))), w);
      var before := Lookup(store, user.telegramId);
      && Lookup(r.store, user.telegramId) ==
           Session(Some(EditingState(field)), before.data["birthdayId" := Number(id)])
      && r.effect == Shown(Prompt(FieldName(field)), [BackRow("common.cancel", ViewBirthday(id))])
  {
    DecodeEncode(EditField(field, id));
    var m := map["birthdayId" := Number(id)];
    assert Lookup(store, user.telegramId).data + m == Lookup(store, user.telegramId).data["birthdayId" := Number(id)];
  }

  /** Record id 0 is falsy, so an edit begun for record 0 refuses any new
      name and changes nothing. */
  lemma RecordZeroCannotBeEdited(store: Store, user: User, text: string, w: World)
    requires Lookup(store, user.telegramId) == Session(Some(EditingName), map["birthdayId" := Number(0)])
    ensures var r := Handle(store, Some(user), Message(text), w);
      r.effect == Rejected(DataMissing) && Unchanged(store, r.store, user.telegramId)
  {
  }

  /** The edit handlers check no ownership: in the notes-editing state the
      update is sent for whatever record id the session holds, whoever owns
      that record, or if no record has it; the confirmation leads to that
      record's view. */
  lemma EditIgnoresOwnership(store: Store, user: User, text: string, w: World, id: nat)
    requires id != 0
    requires Lookup(store, user.telegramId) == Session(Some(EditingNotes), map["birthdayId" := Number(id)])
    ensures Handle(store, Some(user), Message(text), w).effect ==
      Written(UpdateRecord(Number(id), NotesChange(Validators.Trim(text))), w.outcome,
              [[Tap(Glyph("view"), ViewBirthday(id))]])
  {
  }

  // ----- Records and ownership -------------------------------------------

  /** Viewing, asking to delete and deleting act only on a record the
      sender owns; for any other id they answer "not found" and change
      nothing. The details and the question show the stored record. */
  lemma OwnershipGuards(store: Store, user: User, id: nat, w: World)
    ensures var r := Handle(store, Some(user), Press(Encode(ViewBirthday(id))), w);
      && Unchanged(store, r.store, user.telegramId)
      && (Owns(w, user, id) ==> r.effect == Shown(BirthdayDetails(w.db[id]), BirthdayKeyboards.BirthdayActionsKeyboard(id)))
      && (!Owns(w, user, id) ==> r.effect == Rejected(NotFound))
    ensures var r := Handle(store, Some(user), Press(Encode(DeleteBirthday(id))), w);
      && Unchanged(store, r.store, user.telegramId)
      && (Owns(w, user, id) ==> r.effect == Shown(DeleteQuestion(w.db[id]), BirthdayKeyboards.DeleteConfirmationKeyboard(id)))
      && (!Owns(w, user, id) ==> r.effect == Rejected(NotFound))
    ensures var r := Handle(store, Some(user), Press(Encode(ConfirmDelete(id))), w);
      && Unchanged(store, r.store, user.telegramId)
      && (r.effect.Wrote? <==> Owns(w, user, id))
      && (Owns(w, user, id) ==> r.effect == Written(RemoveBirthday(id), w.outcome, DeletedKeyboard()))
  {
    var attached := Attach(store, Some(user.telegramId));
    PressReachesBirthdayHandler(store, user, ViewBirthday(id), w);
    PressReachesBirthdayHandler(store, user, DeleteBirthday(id), w);
    PressReachesBirthdayHandler(store, user, ConfirmDelete(id), w);
  }

  /** A birthday button reaches the birthday handlers with the sender's
      session attached. */
  lemma PressReachesBirthdayHandler(store: Store, user: User, c: Callback, w: World)
    requires WellFormed(c) && BirthdayButton(c)
    ensures Handle(store, Some(user), Press(Encode(c)), w) ==
      BirthdayPress(Attach(store, Some(user.telegramId)), user.telegramId, user, c, w)
  {
    PressReachesHandler(store, user, c, w);
  }

  /** No update whatsoever deletes a record the sender does not own. */
  lemma DeletionRequiresOwnership(store: Store, user: User, ev: Event, w: World)
    ensures var r := Handle(store, Some(user), ev, w);
      r.effect.Wrote? && r.effect.write.RemoveBirthday? ==> Owns(w, user, r.effect.write.record)
  {
    var u := user.telegramId;
    var attached := Attach(store, Some(u));
    assert Handle(store, Some(user), ev, w) == Dispatch(attached, user, ev, w);
    match ev
    case Message(text) =>
      TextWrites(attached, u, user, text, w);
    case Press(data) =>
      if Decode(data).Some? {
        CallbackRemoval(attached, u, user, Decode(data).value, w);
      }
    case _ =>
  }

  /** Only the confirm-delete button removes a record, and only one the
      sender owns. */
  lemma CallbackRemoval(store: Store, u: UserId, user: User, c: Callback, w: World)
    ensures var r := CallbackStep(store, u, user, c, w);
      r.effect.Wrote? && r.effect.write.RemoveBirthday? ==> c.ConfirmDelete? && Owns(w, user, r.effect.write.record)
  {
    if MenuButton(c) {
      MenuButtonsRemoveNothing(store, u, user, c, w);
    } else if BirthdayButton(c) {
      BirthdayButtonRemoval(store, u, user, c, w);
    } else {
      SettingsButtonsRemoveNothing(store, u, user, c, w);
    }
  }

  lemma MenuButtonsRemoveNothing(store: Store, u: UserId, user: User, c: Callback, w: World)
    ensures !MenuPress(store, u, user, c, w).effect.Wrote? || MenuPress(store, u, user, c, w).effect.write.SetUserLanguage?
  {
  }

  lemma BirthdayButtonRemoval(store: Store, u: UserId, user: User, c: Callback, w: World)
    ensures var r := BirthdayPress(store, u, user, c, w);
      r.effect.Wrote? && r.effect.write.RemoveBirthday? ==> c.ConfirmDelete? && Owns(w, user, r.effect.write.record)
  {
  }

  lemma SettingsButtonsRemoveNothing(store: Store, u: UserId, user: User, c: Callback, w: World)
    ensures var r := SettingsPress(store, u, user, c, w);
      !(r.effect.Wrote? && r.effect.write.RemoveBirthday?)
  {
  }

  /** What text can write: a new record, a record update or a time. */
  lemma TextWrites(store: Store, u: UserId, user: User, text: string, w: World)
    ensures var r := TextStep(store, u, user, text, w);
      r.effect.Wrote? ==>
        r.effect.write.InsertBirthday? || r.effect.write.UpdateRecord? || r.effect.write.SetUserNotificationTime?
  {
    var r := TextStep(store, u, user, text, w);
    match Lookup(store, u).state
    case None =>
    case Some(AddingBirthdayNotes) =>
      var noted := SetData(store, u, "notes", Text(Validators.Trim(text)));
      assert r == Save(noted, u, user.id, w.outcome);
    case Some(EditingName) =>
      assert r == EditName(store, u, text, w.outcome);
    case Some(EditingDate) =>
      assert r == EditDate(store, u, text, w.currentYear, w.outcome);
    case Some(EditingNotes) =>
      assert r == EditNotes(store, u, text, w.outcome);
    case Some(SettingCustomTime) =>
      assert r == CustomTimeInput(store, u, text, w.outcome);
    case Some(_) =>
  }

  // ----- Buttons ------------------------------------------------------------

  /** Pressing a button written from a callback reaches that callback's
      handler, with the sender's session attached. */
  lemma PressReachesHandler(store: Store, user: User, c: Callback, w: World)
    requires WellFormed(c)
    ensures Handle(store, Some(user), Press(Encode(c)), w) ==
      CallbackStep(Attach(store, Some(user.telegramId)), user.telegramId, user, c, w)
  {
    DecodeEncode(c);
  }

  /** An identifier no handler pattern accepts is ignored. */
  lemma UnknownButtonIgnored(store: Store, user: User, data: string, w: World)
    requires Decode(data).None?
    ensures Handle(store, Some(user), Press(data), w) == Step(Attach(store, Some(user.telegramId)), Ignored)
  {
  }

  /** The keyboard an answer puts on screen: the shown screen's, or the
      reply's after a write; an error or no answer shows none. */
  function ShownKeyboard(e: Effect): Keyboard {
    match e
    case Shown(_, kb) => kb
    case Wrote(_, _, kb) => kb
    case _ => []
  }

  /** `birthdayId`, when the session holds one, is a record number: the
      edit buttons are the only place that stores it. */
  predicate NumericIds(s: Session) {
    "birthdayId" in s.data ==> s.data["birthdayId"].Number? && s.data["birthdayId"].number >= 0
  }

  /** Every keyboard a handler shows, before or after a write, is made of
      buttons that reach a handler, as long as the session's `birthdayId`
      is a record number (which NumericIdsKept shows it always is). */
  lemma ShownKeyboardsDispatch(store: Store, user: User, ev: Event, w: World)
    ensures var r := Handle(store, Some(user), ev, w);
      NumericIds(Lookup(store, user.telegramId)) ==> Dispatches(ShownKeyboard(r.effect))
  {
    var u := user.telegramId;
    var attached := Attach(store, Some(u));
    assert Handle(store, Some(user), ev, w) == Dispatch(attached, user, ev, w);
    match ev
    case Message(text) =>
      if NumericIds(Lookup(store, u)) {
        TextKeyboardsDispatch(attached, u, user, text, w);
      }
    case Press(data) =>
      if Decode(data).Some? {
        CallbackKeyboardsDispatch(attached, u, user, Decode(data).value, w);
      }
    case Upload =>
    case _ =>
  }

  /** The view button of an edit confirmation reaches the record's view
      when the session's id is a record number. */
  lemma UpdatedKeyboardDispatches(s: Session)
    requires NumericIds(s) && Present(s.data, "birthdayId")
    ensures Dispatches(UpdatedKeyboard(s.data["birthdayId"]))
    ensures UpdatedKeyboard(s.data["birthdayId"])[0][0].action == ViewBirthday(s.data["birthdayId"].number)
  {
  }

  lemma TextKeyboardsDispatch(store: Store, u: UserId, user: User, text: string, w: World)
    requires NumericIds(Lookup(store, u))
    ensures Dispatches(ShownKeyboard(TextStep(store, u, user, text, w).effect))
  {
    var state := Lookup(store, u).state;
    if state in {Some(EditingName), Some(EditingDate), Some(EditingNotes)} {
      EditKeyboardsDispatch(store, u, user, text, w);
    } else {
      AddKeyboardsDispatch(store, u, user, text, w);
    }
  }

  lemma AddKeyboardsDispatch(store: Store, u: UserId, user: User, text: string, w: World)
    requires Lookup(store, u).state !in {Some(EditingName), Some(EditingDate), Some(EditingNotes)}
    ensures Dispatches(ShownKeyboard(TextStep(store, u, user, text, w).effect))
  {
    match Lookup(store, u).state
    case Some(AddingBirthdayName) => NameReplyDispatches(store, u, user, text, w);
    case Some(AddingBirthdayDate) => DateReplyDispatches(store, u, user, text, w);
    case Some(AddingBirthdayNotes) => NotesReplyDispatches(store, u, user, text, w);
    case Some(SettingCustomTime) => TimeReplyDispatches(store, u, user, text, w);
    case _ =>
  }

  /** A write's reply shows a keyboard whose buttons reach handlers, or
      none. */
  lemma WrittenDispatches(write: Write, outcome: Outcome, kb: Keyboard)
    requires Dispatches(kb)
    ensures Dispatches(ShownKeyboard(Written(write, outcome, kb)))
  {
  }

  lemma NameReplyDispatches(store: Store, u: UserId, user: User, text: string, w: World)
    requires Lookup(store, u).state == Some(AddingBirthdayName)
    ensures Dispatches(ShownKeyboard(TextStep(store, u, user, text, w).effect))
  {
    NameInputDispatches(store, u, text);
    assert TextStep(store, u, user, text, w) == NameInput(store, u, text);
  }

  lemma NameInputDispatches(store: Store, u: UserId, text: string)
    ensures Dispatches(ShownKeyboard(NameInput(store, u, text).effect))
  {
  }

  lemma DateReplyDispatches(store: Store, u: UserId, user: User, text: string, w: World)
    requires Lookup(store, u).state == Some(AddingBirthdayDate)
    ensures Dispatches(ShownKeyboard(TextStep(store, u, user, text, w).effect))
  {
    var r := DateInput(store, u, text, w.currentYear);
    assert TextStep(store, u, user, text, w) == r;
  }

  lemma NotesReplyDispatches(store: Store, u: UserId, user: User, text: string, w: World)
    requires Lookup(store, u).state == Some(AddingBirthdayNotes)
    ensures Dispatches(ShownKeyboard(TextStep(store, u, user, text, w).effect))
  {
    var r := NotesInput(store, u, user.id, text, w.outcome);
    assert TextStep(store, u, user, text, w) == r;
    if r.effect.Wrote? {
      var d := Lookup(store, u).data;
      WrittenDispatches(InsertBirthday(user.id, d["name"], d["birthDate"], d["category"], Text(Validators.Trim(text))),
                        w.outcome, SavedKeyboard());
    }
  }

  lemma TimeReplyDispatches(store: Store, u: UserId, user: User, text: string, w: World)
    requires Lookup(store, u).state == Some(SettingCustomTime)
    ensures Dispatches(ShownKeyboard(TextStep(store, u, user, text, w).effect))
  {
    var r := CustomTimeInput(store, u, text, w.outcome);
    assert TextStep(store, u, user, text, w) == r;
  }

  lemma EditKeyboardsDispatch(store: Store, u: UserId, user: User, text: string, w: World)
    requires NumericIds(Lookup(store, u))
    requires Lookup(store, u).state in {Some(EditingName), Some(EditingDate), Some(EditingNotes)}
    ensures Dispatches(ShownKeyboard(TextStep(store, u, user, text, w).effect))
  {
    var state := Lookup(store, u).state;
    if state == Some(EditingName) {
      var r := EditName(store, u, text, w.outcome);
      assert TextStep(store, u, user, text, w) == r;
      EditReplyDispatches(r.effect, Lookup(store, u));
    } else if state == Some(EditingDate) {
      var r := EditDate(store, u, text, w.currentYear, w.outcome);
      assert TextStep(store, u, user, text, w) == r;
      EditReplyDispatches(r.effect, Lookup(store, u));
    } else {
      var r := EditNotes(store, u, text, w.outcome);
      assert TextStep(store, u, user, text, w) == r;
      EditReplyDispatches(r.effect, Lookup(store, u));
    }
  }

  /** An edit either refuses, or writes and confirms with the view button
      of the session's record id; either way what it shows reaches a
      handler. */
  lemma EditReplyDispatches(e: Effect, s: Session)
    requires NumericIds(s)
    requires e.Rejected? || e.Wrote?
    requires e.Wrote? ==>
      Present(s.data, "birthdayId") && e == Written(e.write, e.outcome, UpdatedKeyboard(s.data["birthdayId"]))
    ensures Dispatches(ShownKeyboard(e))
  {
    if e.Wrote? {
      UpdatedKeyboardDispatches(s);
    }
  }

  /** In every state the birthday text handler has a case for, text is
      answered: with the next step, an error, or a write. */
  lemma BirthdayTextAnswers(store: Store, u: UserId, user: User, text: string, w: World)
    requires BirthdayTextState(Lookup(store, u).state)
    ensures !BirthdayText(store, u, user, text, w).effect.Ignored?
  {
    var state := Lookup(store, u).state;
    if state in {Some(EditingName), Some(EditingDate), Some(EditingNotes)} {
      EditTextAnswers(store, u, user, text, w);
    } else {
      AddTextAnswers(store, u, user, text, w);
    }
  }

  lemma AddTextAnswers(store: Store, u: UserId, user: User, text: string, w: World)
    requires Lookup(store, u).state in {Some(AddingBirthdayName), Some(AddingBirthdayDate), Some(AddingBirthdayNotes)}
    ensures !BirthdayText(store, u, user, text, w).effect.Ignored?
  {
    var r := BirthdayText(store, u, user, text, w);
    match Lookup(store, u).state
    case Some(AddingBirthdayName) =>
      assert r == NameInput(store, u, text);
    case Some(AddingBirthdayDate) =>
      assert r == DateInput(store, u, text, w.currentYear);
    case Some(AddingBirthdayNotes) =>
      assert r == NotesInput(store, u, user.id, text, w.outcome);
  }

  lemma EditTextAnswers(store: Store, u: UserId, user: User, text: string, w: World)
    requires Lookup(store, u).state in {Some(EditingName), Some(EditingDate), Some(EditingNotes)}
    ensures !BirthdayText(store, u, user, text, w).effect.Ignored?
  {
    var r := BirthdayText(store, u, user, text, w);
    match Lookup(store, u).state
    case Some(EditingName) =>
      assert r == EditName(store, u, text, w.outcome);
    case Some(EditingDate) =>
      assert r == EditDate(store, u, text, w.currentYear, w.outcome);
    case Some(EditingNotes) =>
      assert r == EditNotes(store, u, text, w.outcome);
  }

  /** Only the name and date steps answer text with a screen; in every
      other state text writes, is rejected, or is ignored. */
  lemma TextOutsideAddFlowShowsNothing(store: Store, u: UserId, user: User, text: string, w: World)
    requires Lookup(store, u).state !in {Some(AddingBirthdayName), Some(AddingBirthdayDate)}
    ensures !TextStep(store, u, user, text, w).effect.Shown?
  {
    var r := TextStep(store, u, user, text, w);
    match Lookup(store, u).state
    case Some(AddingBirthdayNotes) =>
      var noted := SetData(store, u, "notes", Text(Validators.Trim(text)));
      assert r == Save(noted, u, user.id, w.outcome);
    case Some(EditingName) =>
      assert r == EditName(store, u, text, w.outcome);
    case Some(EditingDate) =>
      assert r == EditDate(store, u, text, w.currentYear, w.outcome);
    case Some(EditingNotes) =>
      assert r == EditNotes(store, u, text, w.outcome);
    case Some(SettingCustomTime) =>
      assert r == CustomTimeInput(store, u, text, w.outcome);
    case _ =>
  }

  lemma CallbackKeyboardsDispatch(store: Store, u: UserId, user: User, c: Callback, w: World)
    ensures Dispatches(ShownKeyboard(CallbackStep(store, u, user, c, w).effect))
  {
    if MenuButton(c) {
      MenuKeyboardsDispatch(store, u, user, c, w);
    } else if BirthdayButton(c) {
      BirthdayKeyboardsDispatch(store, u, user, c, w);
    } else {
      SettingsKeyboardsDispatch(store, u, user, c, w);
    }
  }

  lemma MenuKeyboardsDispatch(store: Store, u: UserId, user: User, c: Callback, w: World)
    ensures Dispatches(ShownKeyboard(MenuPress(store, u, user, c, w).effect))
  {
    if c.MenuMyBirthdays? || c.BirthdaysPage? {
      MenuListDispatches(store, u, user, c, w);
    }
  }

  lemma MenuListDispatches(store: Store, u: UserId, user: User, c: Callback, w: World)
    requires c.MenuMyBirthdays? || c.BirthdaysPage?
    ensures Dispatches(ShownKeyboard(MenuPress(store, u, user, c, w).effect))
  {
    var page := if c.MenuMyBirthdays? then 1 else c.page;
    assert MenuPress(store, u, user, c, w) == ListStep(store, user, page, w);
    ListKeyboardsDispatch(store, user, page, w);
  }

  lemma ListKeyboardsDispatch(store: Store, user: User, page: nat, w: World)
    ensures var r := ListStep(store, user, page, w);
      r.effect.Shown? && Dispatches(r.effect.keyboard)
  {
    if |w.myBirthdays| > 0 {
      BirthdayKeyboards.BirthdayListKeyboardShape(w.myBirthdays, page);
    }
  }

  lemma BirthdayKeyboardsDispatch(store: Store, u: UserId, user: User, c: Callback, w: World)
    ensures Dispatches(ShownKeyboard(BirthdayPress(store, u, user, c, w).effect))
  {
  }

  lemma SettingsKeyboardsDispatch(store: Store, u: UserId, user: User, c: Callback, w: World)
    ensures Dispatches(ShownKeyboard(SettingsPress(store, u, user, c, w).effect))
  {
    if c.SettingsLanguage? {
      SettingsKeyboards.LanguageSettingsKeyboardMeaning(user.language);
    } else if c.SettingsNotificationTime? {
      SettingsKeyboards.TimeSelectionKeyboardMeaning();
    }
  }

  /** Every step keeps `birthdayId` a record number. A fresh session has
      none, so every session the bot reaches satisfies NumericIds. */
  lemma NumericIdsKept(store: Store, user: User, ev: Event, w: World)
    requires NumericIds(Lookup(store, user.telegramId))
    ensures NumericIds(Lookup(Handle(store, Some(user), ev, w).store, user.telegramId))
  {
    var u := user.telegramId;
    var attached := Attach(store, Some(u));
    assert Handle(store, Some(user), ev, w) == Dispatch(attached, user, ev, w);
    match ev
    case Message(text) =>
      TextKeepsIds(attached, u, user, text, w);
    case Press(data) =>
      if Decode(data).Some? {
        CallbackKeepsIds(attached, u, user, Decode(data).value, w);
      }
    case _ =>
  }

  lemma CallbackKeepsIds(store: Store, u: UserId, user: User, c: Callback, w: World)
    requires NumericIds(Lookup(store, u))
    ensures NumericIds(Lookup(CallbackStep(store, u, user, c, w).store, u))
  {
    var r := CallbackStep(store, u, user, c, w);
    if MenuButton(c) {
      assert r == MenuPress(store, u, user, c, w);
      if c == MenuAddBirthday {
        assert r.store == SetState(store, u, AddingBirthdayName, None);
      }
    } else if BirthdayButton(c) {
      BirthdayButtonKeepsIds(store, u, user, c, w);
    } else {
      assert r == SettingsPress(store, u, user, c, w);
      if c == CustomTime {
        assert r.store == SetState(store, u, SettingCustomTime, None);
      } else if c == Import {
        assert r.store == SetState(store, u, ImportingCsv, None);
      }
    }
  }

  lemma TextKeepsIds(store: Store, u: UserId, user: User, text: string, w: World)
    requires NumericIds(Lookup(store, u))
    ensures NumericIds(Lookup(TextStep(store, u, user, text, w).store, u))
  {
    if Lookup(store, u).state in
      {Some(AddingBirthdayName), Some(AddingBirthdayDate), Some(AddingBirthdayNotes), Some(SettingCustomTime)} {
      AddKeepsIds(store, u, user, text, w);
    } else {
      EditKeepsIds(store, u, user, text, w);
    }
  }

  lemma AddKeepsIds(store: Store, u: UserId, user: User, text: string, w: World)
    requires NumericIds(Lookup(store, u))
    requires Lookup(store, u).state in
      {Some(AddingBirthdayName), Some(AddingBirthdayDate), Some(AddingBirthdayNotes), Some(SettingCustomTime)}
    ensures NumericIds(Lookup(TextStep(store, u, user, text, w).store, u))
  {
    var state := Lookup(store, u).state;
    if state == Some(AddingBirthdayNotes) {
      NotesKeepIds(store, u, user, text, w);
    } else if state == Some(SettingCustomTime) {
      TimeKeepsIds(store, u, user, text, w);
    } else if state == Some(AddingBirthdayName) {
      NameKeepsIds(store, u, user, text, w);
    } else {
      DateKeepsIds(store, u, user, text, w);
    }
  }

  lemma NameKeepsIds(store: Store, u: UserId, user: User, text: string, w: World)
    requires NumericIds(Lookup(store, u))
    requires Lookup(store, u).state == Some(AddingBirthdayName)
    ensures NumericIds(Lookup(TextStep(store, u, user, text, w).store, u))
  {
    assert TextStep(store, u, user, text, w) == NameInput(store, u, text);
  }

  lemma DateKeepsIds(store: Store, u: UserId, user: User, text: string, w: World)
    requires NumericIds(Lookup(store, u))
    requires Lookup(store, u).state == Some(AddingBirthdayDate)
    ensures NumericIds(Lookup(TextStep(store, u, user, text, w).store, u))
  {
    assert TextStep(store, u, user, text, w) == DateInput(store, u, text, w.currentYear);
  }

  lemma TimeKeepsIds(store: Store, u: UserId, user: User, text: string, w: World)
    requires NumericIds(Lookup(store, u))
    requires Lookup(store, u).state == Some(SettingCustomTime)
    ensures NumericIds(Lookup(TextStep(store, u, user, text, w).store, u))
  {
    assert TextStep(store, u, user, text, w) == CustomTimeInput(store, u, text, w.outcome);
  }

  lemma NotesKeepIds(store: Store, u: UserId, user: User, text: string, w: World)
    requires NumericIds(Lookup(store, u))
    requires Lookup(store, u).state == Some(AddingBirthdayNotes)
    ensures NumericIds(Lookup(TextStep(store, u, user, text, w).store, u))
  {
    var r := NotesInput(store, u, user.id, text, w.outcome);
    assert TextStep(store, u, user, text, w) == r;
    if !(r.effect.Wrote? && w.outcome.Ok?) {
      var d := Lookup(store, u).data;
      assert Lookup(r.store, u).data == d["notes" := Text(Validators.Trim(text))];
    }
  }

  lemma EditKeepsIds(store: Store, u: UserId, user: User, text: string, w: World)
    requires NumericIds(Lookup(store, u))
    requires Lookup(store, u).state !in
      {Some(AddingBirthdayName), Some(AddingBirthdayDate), Some(AddingBirthdayNotes), Some(SettingCustomTime)}
    ensures NumericIds(Lookup(TextStep(store, u, user, text, w).store, u))
  {
    var r := TextStep(store, u, user, text, w);
    match Lookup(store, u).state
    case Some(EditingName) =>
      assert r == EditName(store, u, text, w.outcome);
    case Some(EditingDate) =>
      assert r == EditDate(store, u, text, w.currentYear, w.outcome);
    case Some(EditingNotes) =>
      assert r == EditNotes(store, u, text, w.outcome);
    case _ =>
  }

  lemma BirthdayButtonKeepsIds(store: Store, u: UserId, user: User, c: Callback, w: World)
    requires NumericIds(Lookup(store, u))
    ensures NumericIds(Lookup(BirthdayPress(store, u, user, c, w).store, u))
  {
    if c.Category? {
      CategoryKeepsIds(store, u, user, c, w);
    } else if c.SkipNotes? || c.SaveBirthday? {
      SaveKeepsIds(store, u, user, c, w);
    } else if c.EditField? {
      EditFieldKeepsIds(store, u, user, c, w);
    }
  }

  lemma CategoryKeepsIds(store: Store, u: UserId, user: User, c: Callback, w: World)
    requires NumericIds(Lookup(store, u)) && c.Category?
    ensures NumericIds(Lookup(BirthdayPress(store, u, user, c, w).store, u))
  {
    var r := BirthdayPress(store, u, user, c, w);
    if Validators.ValidateCategory(c.category).Valid? {
      var noted := SetData(store, u, "category", Text(c.category));
      assert r.store == SetState(noted, u, AddingBirthdayNotes, None);
    }
  }

  lemma SaveKeepsIds(store: Store, u: UserId, user: User, c: Callback, w: World)
    requires NumericIds(Lookup(store, u)) && (c.SkipNotes? || c.SaveBirthday?)
    ensures NumericIds(Lookup(BirthdayPress(store, u, user, c, w).store, u))
  {
    assert BirthdayPress(store, u, user, c, w) == Save(store, u, user.id, w.outcome);
  }

  lemma EditFieldKeepsIds(store: Store, u: UserId, user: User, c: Callback, w: World)
    requires NumericIds(Lookup(store, u)) && c.EditField?
    ensures NumericIds(Lookup(BirthdayPress(store, u, user, c, w).store, u))
  {
    assert BirthdayPress(store, u, user, c, w).store
      == SetState(store, u, EditingState(c.field), Some(map["birthdayId" := Number(c.id)]));
  }

  /** `menu:main`, where every cancel of the add flow leads, shows the main
      menu and leaves the session, state included, as it was. */
  lemma CancelKeepsConversation(store: Store, user: User, w: World)
    ensures var r := Handle(store, Some(user), Press(Encode(MenuMain)), w);
      r.effect == Shown(MainMenu, MainKeyboards.MainMenuKeyboard()) && Unchanged(store, r.store, user.telegramId)
  {
    PressReachesHandler(store, user, MenuMain, w);
  }

  /** `menu:add_birthday` enters the name step and keeps the data. */
  lemma AddBirthdayKeepsData(store: Store, user: User, w: World)
    ensures var r := Handle(store, Some(user), Press(Encode(MenuAddBirthday)), w);
      Lookup(r.store, user.telegramId) == Session(Some(AddingBirthdayName), Lookup(store, user.telegramId).data)
  {
    DecodeEncode(MenuAddBirthday);
  }

  /** The custom-time button enters its state and keeps the data. */
  lemma CustomTimeKeepsData(store: Store, user: User, w: World)
    ensures var r := Handle(store, Some(user), Press(Encode(CustomTime)), w);
      Lookup(r.store, user.telegramId) == Session(Some(SettingCustomTime), Lookup(store, user.telegramId).data)
  {
    PressReachesSettingsHandler(store, user, CustomTime, w);
  }

  /** The import button enters its state and keeps the data. */
  lemma ImportKeepsData(store: Store, user: User, w: World)
    ensures var r := Handle(store, Some(user), Press(Encode(Import)), w);
      Lookup(r.store, user.telegramId) == Session(Some(ImportingCsv), Lookup(store, user.telegramId).data)
  {
    PressReachesSettingsHandler(store, user, Import, w);
  }

  /** A settings button reaches the settings handlers with the sender's
      session attached. */
  lemma PressReachesSettingsHandler(store: Store, user: User, c: Callback, w: World)
    requires WellFormed(c) && !MenuButton(c) && !BirthdayButton(c)
    ensures Handle(store, Some(user), Press(Encode(c)), w) ==
      SettingsPress(Attach(store, Some(user.telegramId)), user.telegramId, user, c, w)
  {
    PressReachesHandler(store, user, c, w);
  }

  /** A document clears the session in the import state and is ignored in
      any other. */
  lemma DocumentOnlyWhenImporting(store: Store, user: User, w: World)
    ensures var r := Handle(store, Some(user), Upload, w);
      && (Lookup(store, user.telegramId).state == Some(ImportingCsv) ==> Cleared(r.store, user.telegramId))
      && (Lookup(store, user.telegramId).state != Some(ImportingCsv) ==>
            r.effect == Ignored && Unchanged(store, r.store, user.telegramId))
  {
  }

  /** The toggle writes exactly the flag its identifier carries, and once
      that went through shows the toggle for the new setting. */
  lemma ToggleWritesFlag(store: Store, user: User, enabled: bool, w: World)
    ensures Handle(store, Some(user), Press(Encode(ToggleNotifications(enabled))), w).effect ==
      Written(SetUserNotifications(enabled), w.outcome, SettingsKeyboards.NotificationToggleKeyboard(enabled))
  {
    PressReachesSettingsHandler(store, user, ToggleNotifications(enabled), w);
  }

  /** The set-time button writes any two-digit pair as it stands, with no
      range check. */
  lemma SetTimeWritesAnyPair(store: Store, user: User, time: string, w: World)
    requires IsTwoDigitTime(time)
    ensures Handle(store, Some(user), Press(Encode(SetTime(time))), w).effect ==
      Written(SetUserNotificationTime(time), w.outcome, SettingsBackKeyboard())
  {
    PressReachesSettingsHandler(store, user, SetTime(time), w);
  }

  /** `99:99` fits the set-time pattern but not `validateTime`. */
  lemma OutOfRangePair()
    ensures IsTwoDigitTime("99:99") && Validators.ValidateTime("99:99").Invalid?
  {
    Validators.TwoDigits("99");
    Validators.ValidateTimeOfParts("99", "99");
    assert "99" + ":" + "99" == "99:99";
  }

  /** The set-language button of the settings and the first-run language
      button both store any word, supported language or not, and leave the
      session alone; the first goes back to the settings, the second on to
      the main menu. */
  lemma SetLanguageStoresAnyWord(store: Store, user: User, language: string, w: World)
    requires IsWord(language)
    ensures var r := Handle(store, Some(user), Press(Encode(SetLanguage(language))), w);
      && r.effect == Written(SetUserLanguage(language), w.outcome, SettingsBackKeyboard())
      && Unchanged(store, r.store, user.telegramId)
    ensures var r := Handle(store, Some(user), Press(Encode(Lang(language))), w);
      && r.effect == Written(SetUserLanguage(language), w.outcome, MainKeyboards.MainMenuKeyboard())
      && Unchanged(store, r.store, user.telegramId)
  {
    PressReachesSettingsHandler(store, user, SetLanguage(language), w);
    PressReachesHandler(store, user, Lang(language), w);
  }

  /** `/start` and `/menu` show the main menu and leave the session alone. */
  lemma CommandsShowMainMenu(store: Store, user: User, w: World)
    ensures var r := Handle(store, Some(user), StartCommand, w);
      r.effect == Shown(MainMenu, MainKeyboards.MainMenuKeyboard()) && Unchanged(store, r.store, user.telegramId)
    ensures var r := Handle(store, Some(user), MenuCommand, w);
      r.effect == Shown(MainMenu, MainKeyboards.MainMenuKeyboard()) && Unchanged(store, r.store, user.telegramId)
  {
  }

  // ----- Lists ----------------------------------------------------------------

  /** The two-row keyboard of an empty list: add a birthday, or back to the
      main menu. */
  predicate AddOrBack(kb: Keyboard) {
    && |kb| == 2 && |kb[0]| == 1 && |kb[1]| == 1
    && kb[0][0].Tap? && kb[0][0].action == MenuAddBirthday
    && kb[1][0].Tap? && kb[1][0].action == MenuMain
  }

  /** `birthdays:page:<n>` shows page n; an empty list shows only the add
      and back buttons. */
  lemma ListPages(store: Store, user: User, page: nat, w: World)
    ensures var r := Handle(store, Some(user), Press(Encode(BirthdaysPage(page))), w);
      && Unchanged(store, r.store, user.telegramId)
      && (|w.myBirthdays| > 0 ==>
            r.effect == Shown(ListPage(page, |w.myBirthdays|), BirthdayKeyboards.BirthdayListKeyboard(w.myBirthdays, page)))
      && (|w.myBirthdays| == 0 ==> r.effect.Shown? && r.effect.screen == NoBirthdays && AddOrBack(r.effect.keyboard))
  {
    PressReachesHandler(store, user, BirthdaysPage(page), w);
  }

  /** The list button shows page 1. */
  lemma ListStartsAtPageOne(store: Store, user: User, w: World)
    ensures Handle(store, Some(user), Press(Encode(MenuMyBirthdays)), w) ==
      Handle(store, Some(user), Press(Encode(BirthdaysPage(1))), w)
  {
    PressReachesHandler(store, user, MenuMyBirthdays, w);
    PressReachesHandler(store, user, BirthdaysPage(1), w);
  }

  /** The upcoming view lists the first ten records of the 30-day window
      (all of them when there are fewer) and counts the rest. */
  lemma UpcomingTruncation(store: Store, user: User, w: World)
    ensures var r := Handle(store, Some(user), Press(Encode(MenuUpcoming)), w);
      && Unchanged(store, r.store, user.telegramId)
      && r.effect.Shown? && AddOrBack(r.effect.keyboard)
      && (|w.upcoming| == 0 ==> r.effect.screen == NoUpcoming(30))
      && (|w.upcoming| > 0 ==> UpcomingWindow(w.upcoming, r.effect.screen))
  {
    var attached := Attach(store, Some(user.telegramId));
    PressReachesHandler(store, user, MenuUpcoming, w);
    UpcomingStepWindow(attached, w);
  }

  /** The screen lists a prefix of at most ten of `upcoming` over a 30-day
      window and counts the rest; it is cut short only past ten. */
  predicate UpcomingWindow(upcoming: seq<Birthday>, s: Screen) {
    && s.UpcomingList? && s.window == 30
    && |s.listed| <= 10 && |s.listed| <= |upcoming|
    && s.listed + upcoming[|s.listed|..] == upcoming
    && s.more == |upcoming| - |s.listed|
    && (s.more > 0 <==> |upcoming| > 10)
    && (s.more > 0 ==> |s.listed| == 10)
  }

  lemma UpcomingStepWindow(store: Store, w: World)
    ensures var r := UpcomingStep(store, w);
      && r.effect.Shown? && AddOrBack(r.effect.keyboard)
      && (|w.upcoming| == 0 ==> r.effect.screen == NoUpcoming(30))
      && (|w.upcoming| > 0 ==> UpcomingWindow(w.upcoming, r.effect.screen))
  {
    var r := UpcomingStep(store, w);
    if |w.upcoming| > 0 {
      var listed := r.effect.screen.listed;
      assert w.upcoming[..|listed|] + w.upcoming[|listed|..] == w.upcoming;
    }
  }

  // ----- Text handler registration ---------------------------------------------

  /** As registered, the settings text handler is never reached: text in
      the custom-time state goes to the birthday text handler, which has no
      case for it, so even a valid time is ignored. */
  lemma CustomTimeIgnoredAsRegistered(store: Store, u: UserId, user: User, text: string, w: World)
    requires Lookup(store, u).state == Some(SettingCustomTime)
    ensures TextStepAsRegistered(store, u, user, text, w) == Step(store, Ignored)
  {
  }

  /** As meant, a valid time typed in the custom-time state is written as
      typed (`7:30` is not normalised), and the session is cleared once
      the write went through. */
  lemma CustomTimeWritten(store: Store, user: User, text: string, w: World)
    requires Lookup(store, user.telegramId).state == Some(SettingCustomTime)
    ensures var r := Handle(store, Some(user), Message(text), w);
      && (Validators.ValidateTime(Validators.Trim(text)).Valid? ==>
            r.effect == Written(SetUserNotificationTime(Validators.Trim(text)), w.outcome, SettingsBackKeyboard())
            && (w.outcome.Ok? ==> Cleared(r.store, user.telegramId)))
      && (Validators.ValidateTime(Validators.Trim(text)).Invalid? ==>
            r.effect.Rejected? && Unchanged(store, r.store, user.telegramId))
  {
  }

  /** The two dispatches differ on every valid custom time: typed in the
      custom-time state it is written by the intended dispatch and ignored
      by the registered one. `09:30` is such a time. */
  lemma RegistrationDropsCustomTime(store: Store, user: User, text: string, w: World)
    requires Lookup(store, user.telegramId).state == Some(SettingCustomTime)
    requires Validators.ValidateTime(Validators.Trim(text)).Valid?
    ensures var u := user.telegramId;
      var attached := Attach(store, Some(u));
      && TextStep(attached, u, user, text, w).effect ==
           Written(SetUserNotificationTime(Validators.Trim(text)), w.outcome, SettingsBackKeyboard())
      && TextStepAsRegistered(attached, u, user, text, w).effect == Ignored
  {
    CustomTimeWritten(store, user, text, w);
  }

  /** `09:30` is trimmed and a valid time. */
  lemma HalfPastNine()
    ensures Validators.Trim("09:30") == "09:30" && Validators.ValidateTime("09:30").Valid?
  {
    Validators.TrimOfTrimmed("09:30");
    Validators.TwoDigits("09");
    Validators.TwoDigits("30");
    Validators.ValidateTimeOfParts("09", "30");
    assert "09" + ":" + "30" == "09:30";
  }
}
