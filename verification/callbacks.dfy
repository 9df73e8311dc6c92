/** Button identifiers (Telegram callback data). Keyboards write them as
    colon-separated strings; the handlers recognise them by exact string or
    by a fixed regular expression. Decoding splits at ':' and matches the
    pieces, which is what each pattern does since none of its groups can
    contain a colon. */
module Callbacks {
  import opened Strings

  /** The record field named by `edit:(name|date|category|notes):<id>`. */
  datatype Field = NameField | DateField | CategoryField | NotesField

  function FieldName(f: Field): string {
    match f
    case NameField => "name"
    case DateField => "date"
    case CategoryField => "category"
    case NotesField => "notes"
  }

  datatype Callback =
    | Noop
    | Lang(code: string)
    | MenuMain | MenuMyBirthdays | MenuAddBirthday | MenuUpcoming | MenuSettings
    | BirthdaysPage(page: nat)
    | Category(category: string)
    | SkipNotes | SaveBirthday
    | ViewBirthday(id: nat) | EditBirthday(id: nat) | DeleteBirthday(id: nat) | ConfirmDelete(id: nat)
    | EditField(field: Field, id: nat)
    | SettingsLanguage | SetLanguage(language: string)
    | SettingsNotifications | ToggleNotifications(enabled: bool)
    | SettingsNotificationTime | SetTime(time: string) | CustomTime
    | Export | ExportCsv | ExportJson | Import
    | DeleteProfile | ConfirmDeleteProfile

  /** `\d{2}:\d{2}` */
  predicate IsTwoDigitTime(t: string) {
    |t| == 5 && IsDigit(t[0]) && IsDigit(t[1]) && t[2] == ':' && IsDigit(t[3]) && IsDigit(t[4])
  }

  /** The payload shapes the patterns accept: `\w+` words and `\d{2}:\d{2}` times. */
  predicate WellFormed(c: Callback) {
    match c
    case Lang(w) => IsWord(w)
    case Category(w) => IsWord(w)
    case SetLanguage(w) => IsWord(w)
    case SetTime(t) => IsTwoDigitTime(t)
    case _ => true
  }

  function BoolText(b: bool): string {
    if b then "true" else "false"
  }

  /** The colon-separated pieces of a button identifier. */
  function Segments(c: Callback): (p: seq<string>)
    ensures |p| >= 1
  {
    match c
    case Noop => ["noop"]
    case Lang(code) => ["lang", code]
    case MenuMain => ["menu", "main"]
    case MenuMyBirthdays => ["menu", "my_birthdays"]
    case MenuAddBirthday => ["menu", "add_birthday"]
    case MenuUpcoming => ["menu", "upcoming"]
    case MenuSettings => ["menu", "settings"]
    case BirthdaysPage(page) => ["birthdays", "page", NatToString(page)]
    case Category(category) => ["category", category]
    case SkipNotes => ["birthday", "skip_notes"]
    case SaveBirthday => ["birthday", "save"]
    case ViewBirthday(id) => ["birthday", "view", NatToString(id)]
    case EditBirthday(id) => ["birthday", "edit", NatToString(id)]
    case DeleteBirthday(id) => ["birthday", "delete", NatToString(id)]
    case ConfirmDelete(id) => ["birthday", "confirm_delete", NatToString(id)]
    case EditField(field, id) => ["edit", FieldName(field), NatToString(id)]
    case SettingsLanguage => ["settings", "language"]
    case SetLanguage(language) => ["settings", "set_language", language]
    case SettingsNotifications => ["settings", "notifications"]
    case ToggleNotifications(enabled) => ["settings", "toggle_notifications", BoolText(enabled)]
    case SettingsNotificationTime => ["settings", "notification_time"]
    case SetTime(time) =>
      if |time| == 5 then ["settings", "set_time", time[..2], time[3..]] else ["settings", "set_time", time]
    case CustomTime => ["settings", "custom_time"]
    case Export => ["settings", "export"]
    case ExportCsv => ["export", "csv"]
    case ExportJson => ["export", "json"]
    case Import => ["settings", "import"]
    case DeleteProfile => ["settings", "delete_profile"]
    case ConfirmDeleteProfile => ["settings", "confirm_delete_profile"]
  }

  /** The callback data a keyboard puts on a button, e.g. `birthday:view:42`. */
  function Encode(c: Callback): string {
    Join(Segments(c), ':')
  }

  function DecodePair(a: string, b: string): Option<Callback> {
    if a == "menu" then
      if b == "main" then Some(MenuMain)
      else if b == "my_birthdays" then Some(MenuMyBirthdays)
      else if b == "add_birthday" then Some(MenuAddBirthday)
      else if b == "upcoming" then Some(MenuUpcoming)
      else if b == "settings" then Some(MenuSettings)
      else None
    else if a == "lang" && IsWord(b) then Some(Lang(b))
    else if a == "category" && IsWord(b) then Some(Category(b))
    else if a == "birthday" then
      if b == "skip_notes" then Some(SkipNotes)
      else if b == "save" then Some(SaveBirthday)
      else None
    else if a == "settings" then
      if b == "language" then Some(SettingsLanguage)
      else if b == "notifications" then Some(SettingsNotifications)
      else if b == "notification_time" then Some(SettingsNotificationTime)
      else if b == "custom_time" then Some(CustomTime)
      else if b == "export" then Some(Export)
      else if b == "import" then Some(Import)
      else if b == "delete_profile" then Some(DeleteProfile)
      else if b == "confirm_delete_profile" then Some(ConfirmDeleteProfile)
      else None
    else if a == "export" then
      if b == "csv" then Some(ExportCsv)
      else if b == "json" then Some(ExportJson)
      else None
    else None
  }

  function DecodeTriple(a: string, b: string, c: string): Option<Callback> {
    if a == "birthdays" && b == "page" && IsNumeral(c) then Some(BirthdaysPage(ParseDigits(c)))
    else if a == "birthday" && IsNumeral(c) then
      var id := ParseDigits(c);
      if b == "view" then Some(ViewBirthday(id))
      else if b == "edit" then Some(EditBirthday(id))
      else if b == "delete" then Some(DeleteBirthday(id))
      else if b == "confirm_delete" then Some(ConfirmDelete(id))
      else None
    else if a == "edit" && IsNumeral(c) then
      var id := ParseDigits(c);
      if b == "name" then Some(EditField(NameField, id))
      else if b == "date" then Some(EditField(DateField, id))
      else if b == "category" then Some(EditField(CategoryField, id))
      else if b == "notes" then Some(EditField(NotesField, id))
      else None
    else if a == "settings" && b == "set_language" && IsWord(c) then Some(SetLanguage(c))
    else if a == "settings" && b == "toggle_notifications" && (c == "true" || c == "false") then
      Some(ToggleNotifications(c == "true"))
    else None
  }

  function DecodeSegments(p: seq<string>): Option<Callback> {
    if |p| == 1 then
      if p[0] == "noop" then Some(Noop) else None
    else if |p| == 2 then DecodePair(p[0], p[1])
    else if |p| == 3 then DecodeTriple(p[0], p[1], p[2])
    else if && |p| == 4 && p[0] == "settings" && p[1] == "set_time"
            && |p[2]| == 2 && AllDigits(p[2]) && |p[3]| == 2 && AllDigits(p[3]) then
      Some(SetTime(p[2] + ":" + p[3]))
    else None
  }

  /** Which handler, if any, a button identifier reaches. Numbers are read
      with parseInt, so `birthday:view:007` reaches the same handler as
      `birthday:view:7`. */
  function Decode(data: string): Option<Callback> {
    DecodeSegments(Split(data, ':'))
  }

  lemma WordHasNoColon(w: string)
    requires forall i | 0 <= i < |w| :: IsWordChar(w[i])
    ensures ':' !in w
  {
    assert forall i | 0 <= i < |w| :: w[i] != ':';
  }

  lemma NumeralHasNoColon(n: nat)
    ensures ':' !in NatToString(n)
  {
    var s := NatToString(n);
    assert forall i | 0 <= i < |s| :: s[i] != ':';
  }

  /** A button identifier without payload. */
  predicate IsFixed(c: Callback) {
    !(c.Lang? || c.Category? || c.SetLanguage? || c.SetTime? || c.BirthdaysPage? || c.ViewBirthday?
      || c.EditBirthday? || c.DeleteBirthday? || c.ConfirmDelete? || c.EditField? || c.ToggleNotifications?)
  }

  lemma FixedSegmentsHaveNoColon(c: Callback)
    requires IsFixed(c)
    ensures NoSeparator(Segments(c), ':')
  {
    if IsSettingsFixed(c) {
      SettingsFixedSegmentsHaveNoColon(c);
    } else {
      OtherFixedSegmentsHaveNoColon(c);
    }
  }

  lemma SettingsFixedSegmentsHaveNoColon(c: Callback)
    requires IsSettingsFixed(c)
    ensures NoSeparator(Segments(c), ':')
  {
  }

  lemma OtherFixedSegmentsHaveNoColon(c: Callback)
    requires IsFixed(c) && !IsSettingsFixed(c)
    ensures NoSeparator(Segments(c), ':')
  {
  }

  lemma NoColonPair(a: string, b: string)
    requires ':' !in a && ':' !in b
    ensures NoSeparator([a, b], ':')
  {
  }

  lemma NoColonTriple(a: string, b: string, c: string)
    requires ':' !in a && ':' !in b && ':' !in c
    ensures NoSeparator([a, b, c], ':')
  {
  }

  lemma SegmentsHaveNoColon(c: Callback)
    requires WellFormed(c)
    ensures NoSeparator(Segments(c), ':')
  {
    if IsFixed(c) {
      FixedSegmentsHaveNoColon(c);
    } else if IsNumbered(c) {
      NumberedSegmentsHaveNoColon(c);
    } else {
      match c
      case Lang(w) => WordHasNoColon(w); NoColonPair("lang", w);
      case Category(w) => WordHasNoColon(w); NoColonPair("category", w);
      case SetLanguage(w) => WordHasNoColon(w); NoColonTriple("settings", "set_language", w);
      case ToggleNotifications(b) => NoColonTriple("settings", "toggle_notifications", BoolText(b));
      case SetTime(t) =>
        assert forall i | 0 <= i < 2 :: t[..2][i] != ':';
        assert forall i | 0 <= i < 2 :: t[3..][i] != ':';
      case _ =>
    }
  }

  lemma NumberedSegmentsHaveNoColon(c: Callback)
    requires IsNumbered(c)
    ensures NoSeparator(Segments(c), ':')
  {
    var p := Segments(c);
    NumeralHasNoColon(CarriedNumber(c));
    assert p[2] == NatToString(CarriedNumber(c));
    NoColonTriple(p[0], p[1], p[2]);
    assert p == [p[0], p[1], p[2]];
  }

  /** A fixed identifier of the settings screens. */
  predicate IsSettingsFixed(c: Callback) {
    c.SettingsLanguage? || c.SettingsNotifications? || c.SettingsNotificationTime? || c.CustomTime?
    || c.Import? || c.DeleteProfile? || c.ConfirmDeleteProfile?
  }

  lemma FixedDecodeSegments(c: Callback)
    requires IsFixed(c)
    ensures DecodeSegments(Segments(c)) == Some(c)
  {
    if IsSettingsFixed(c) {
      SettingsFixedDecodeSegments(c);
    } else {
      OtherFixedDecodeSegments(c);
    }
  }

  lemma SettingsFixedDecodeSegments(c: Callback)
    requires IsSettingsFixed(c)
    ensures DecodeSegments(Segments(c)) == Some(c)
  {
  }

  lemma OtherFixedDecodeSegments(c: Callback)
    requires IsFixed(c) && !IsSettingsFixed(c)
    ensures DecodeSegments(Segments(c)) == Some(c)
  {
  }

  /** The identifiers that carry a record id or a page number. */
  predicate IsNumbered(c: Callback) {
    c.BirthdaysPage? || c.ViewBirthday? || c.EditBirthday? || c.DeleteBirthday? || c.ConfirmDelete? || c.EditField?
  }

  function CarriedNumber(c: Callback): nat
    requires IsNumbered(c)
  {
    if c.BirthdaysPage? then c.page else if c.EditField? then c.id else c.id
  }

  lemma NumberedDecodeSegments(c: Callback)
    requires IsNumbered(c)
    ensures DecodeSegments(Segments(c)) == Some(c)
  {
    ParseNatToString(CarriedNumber(c));
  }

  lemma WordDecodeSegments(c: Callback)
    requires WellFormed(c)
    requires c.Lang? || c.Category? || c.SetLanguage? || c.ToggleNotifications?
    ensures DecodeSegments(Segments(c)) == Some(c)
  {
  }

  lemma SetTimeDecodeSegments(t: string)
    requires IsTwoDigitTime(t)
    ensures DecodeSegments(Segments(SetTime(t))) == Some(SetTime(t))
  {
    assert t[..2] + ":" + t[3..] == t;
    assert AllDigits(t[..2]) && AllDigits(t[3..]);
  }

  lemma DecodeSegmentsOfSegments(c: Callback)
    requires WellFormed(c)
    ensures DecodeSegments(Segments(c)) == Some(c)
  {
    if IsFixed(c) {
      FixedDecodeSegments(c);
    } else if IsNumbered(c) {
      NumberedDecodeSegments(c);
    } else if c.SetTime? {
      SetTimeDecodeSegments(c.time);
    } else {
      WordDecodeSegments(c);
    }
  }

  /** Decoding the identifier a keyboard writes gives back the button it
      was written for. */
  lemma DecodeEncode(c: Callback)
    requires WellFormed(c)
    ensures Decode(Encode(c)) == Some(c)
  {
    SegmentsHaveNoColon(c);
    SplitJoin(Segments(c), ':');
    DecodeSegmentsOfSegments(c);
  }

  /** Everything a handler can receive has the shape its pattern demands. */
  lemma DecodeIsWellFormed(data: string)
    requires Decode(data).Some?
    ensures WellFormed(Decode(data).value)
  {
    var p := Split(data, ':');
    assert Decode(data) == DecodeSegments(p);
    if |p| == 2 {
      PairIsWellFormed(p[0], p[1]);
    } else if |p| == 3 {
      TripleIsWellFormed(p[0], p[1], p[2]);
    } else if |p| == 4 {
      var t := p[2] + ":" + p[3];
      assert t[0] == p[2][0] && t[1] == p[2][1] && t[3] == p[3][0] && t[4] == p[3][1];
    }
  }

  lemma PairIsWellFormed(a: string, b: string)
    requires DecodePair(a, b).Some?
    ensures WellFormed(DecodePair(a, b).value)
  {
  }

  lemma TripleIsWellFormed(a: string, b: string, c: string)
    requires DecodeTriple(a, b, c).Some?
    ensures WellFormed(DecodeTriple(a, b, c).value)
  {
  }

  /** Every decoded identifier renders back to an identifier with the same
      meaning (it may differ from the input only in leading zeros). */
  lemma DecodeReencodes(data: string)
    requires Decode(data).Some?
    ensures Decode(Encode(Decode(data).value)) == Decode(data)
  {
    DecodeIsWellFormed(data);
    DecodeEncode(Decode(data).value);
  }
}
