/** The stored records the handlers read and the inline keyboards they
    attach to their messages. Button captions are kept abstract: what a
    keyboard means is which handler each of its buttons reaches. */
module Markup {
  import opened Strings
  import opened Calendar
  import opened Callbacks

  /** A birthday record; `owner` is the database id of the user who added it. */
  datatype Birthday = Birthday(
    id: nat, owner: nat, name: string, birthDate: CivilDate, category: string, notes: string)

  /** The authenticated user a handler runs for. `language` is whatever was
      last stored, which need not be a supported code. */
  datatype User = User(
    id: nat, telegramId: string, language: string, notificationTime: string, notificationsEnabled: bool)

  /** A button caption: a translation key passed to `t`, a fixed glyph or
      phrase, or a caption computed from data. */
  datatype Label =
    | Localized(key: string)
    | Glyph(name: string)
    | PageIndicator(page: int, total: int)
    | BirthdayEntry(id: nat)
    | LanguageEntry(code: string, selected: bool)
    | NotificationState(enabled: bool)
    | TimeSlot(time: string)

  /** A button whose identifier is written from a callback, or one whose
      identifier is a string the caller handed in. */
  datatype Button =
    | Tap(caption: Label, action: Callback)
    | Raw(caption: Label, raw: string)

  type Row = seq<Button>
  type Keyboard = seq<Row>

  /** The `callback_data` Telegram sends back when the button is pressed. */
  function Data(b: Button): string {
    match b
    case Tap(_, c) => Encode(c)
    case Raw(_, d) => d
  }

  /** Every button is written from a callback whose payload the handlers'
      patterns accept. */
  predicate Dispatches(kb: Keyboard) {
    forall i, j | 0 <= i < |kb| && 0 <= j < |kb[i]| :: kb[i][j].Tap? && WellFormed(kb[i][j].action)
  }

  /** Pressing a button of such a keyboard reaches exactly the handler of the
      callback it was written from. */
  lemma DispatchesReach(kb: Keyboard)
    requires Dispatches(kb)
    ensures forall i, j | 0 <= i < |kb| && 0 <= j < |kb[i]| :: Decode(Data(kb[i][j])) == Some(kb[i][j].action)
  {
    forall i, j | 0 <= i < |kb| && 0 <= j < |kb[i]|
      ensures Decode(Data(kb[i][j])) == Some(kb[i][j].action)
    {
      DecodeEncode(kb[i][j].action);
    }
  }

  /** Stacking two keyboards whose buttons reach handlers gives another. */
  lemma DispatchesConcat(a: Keyboard, b: Keyboard)
    requires Dispatches(a) && Dispatches(b)
    ensures Dispatches(a + b)
  {
    forall i, j | 0 <= i < |a + b| && 0 <= j < |(a + b)[i]|
      ensures (a + b)[i][j].Tap? && WellFormed((a + b)[i][j].action)
    {
      if i >= |a| {
        assert (a + b)[i] == b[i - |a|];
      }
    }
  }

  /** The one-button row most screens end with: back (or cancel) to `target`. */
  function BackRow(key: string, target: Callback): Row {
    [Tap(Localized(key), target)]
  }
}
