/** The general-purpose keyboards: main menu, first-run language choice,
    back, yes/no confirmation and generic pagination. */
module MainKeyboards {
  import opened Strings
  import opened Callbacks
  import opened Markup
  import Locales

  /** `createMainMenuKeyboard`: the list, add, upcoming and settings. */
  function MainMenuKeyboard(): (kb: Keyboard)
    ensures |kb| == 3 && |kb[0]| == 2 && |kb[1]| == 1 && |kb[2]| == 1 && Dispatches(kb)
    ensures kb[0][0].action == MenuMyBirthdays && kb[0][1].action == MenuAddBirthday
    ensures kb[1][0].action == MenuUpcoming && kb[2][0].action == MenuSettings
  {
    [ [Tap(Localized("menu.myBirthdays"), MenuMyBirthdays), Tap(Localized("menu.addBirthday"), MenuAddBirthday)],
      [Tap(Localized("menu.upcoming30Days"), MenuUpcoming)],
      [Tap(Localized("menu.settings"), MenuSettings)] ]
  }

  /** `createLanguageSelectionKeyboard`: English and Russian, then Spanish;
      the codes are exactly the supported ones, and each button reaches the
      language handler. */
  function LanguageSelectionKeyboard(): (kb: Keyboard)
    ensures |kb| == 2 && |kb[0]| == 2 && |kb[1]| == 1 && Dispatches(kb)
    ensures [kb[0][0].action, kb[0][1].action, kb[1][0].action] ==
      seq(|Locales.SupportedLanguages|, i requires 0 <= i < |Locales.SupportedLanguages| =>
        Lang(Locales.Code(Locales.SupportedLanguages[i])))
  {
    [ [Tap(LanguageEntry("en", false), Lang("en")), Tap(LanguageEntry("ru", false), Lang("ru"))],
      [Tap(LanguageEntry("es", false), Lang("es"))] ]
  }

  /** `createBackToMainKeyboard` */
  function BackToMainKeyboard(): (kb: Keyboard)
    ensures |kb| == 1 && |kb[0]| == 1 && Dispatches(kb) && kb[0][0].action == MenuMain
  {
    [BackRow("common.back", MenuMain)]
  }

  /** `createConfirmationKeyboard(t, confirmAction, cancelAction = "menu:main")`:
      yes carries the confirm action, no the cancel action, and an omitted
      cancel action falls back to the main menu. */
  function ConfirmationKeyboard(confirm: string, cancel: Option<string>): (kb: Keyboard)
    ensures |kb| == 1 && |kb[0]| == 2
    ensures kb[0][0].caption == Localized("common.yes") && Data(kb[0][0]) == confirm
    ensures kb[0][1].caption == Localized("common.no")
    ensures cancel.Some? ==> Data(kb[0][1]) == cancel.value
    ensures cancel.None? ==> kb[0][1].Tap? && kb[0][1].action == MenuMain
  {
    var no := if cancel.Some? then Raw(Localized("common.no"), cancel.value) else Tap(Localized("common.no"), MenuMain);
    [[Raw(Localized("common.yes"), confirm), no]]
  }

  /** The navigation row of `createPaginationKeyboard`. */
  function NavigationRow(page: int, total: int, base: string): Row {
    (if page > 1 then [Raw(Glyph("previous"), base + ":" + IntToString(page - 1))] else [])
    + [Tap(PageIndicator(page, total), Noop)]
    + (if page < total then [Raw(Glyph("next"), base + ":" + IntToString(page + 1))] else [])
  }

  /** `createPaginationKeyboard(t, currentPage, totalPages, baseAction)`.
      The navigation row is pushed only when it is non-empty. */
  function PaginationKeyboard(page: int, total: int, base: string): Keyboard {
    var nav := NavigationRow(page, total, base);
    (if |nav| > 0 then [nav] else []) + [BackRow("common.back", MenuMain)]
  }

  /** The navigation row always holds the indicator, so the keyboard always
      has exactly two rows; previous appears exactly when page > 1 and next
      exactly when page < total, each pointing at `base:<neighbour>`. */
  lemma PaginationKeyboardShape(page: int, total: int, base: string)
    ensures var kb := PaginationKeyboard(page, total, base);
      && |kb| == 2
      && kb[1] == BackRow("common.back", MenuMain)
      && |kb[0]| == 1 + (if page > 1 then 1 else 0) + (if page < total then 1 else 0)
      && (page > 1 <==> kb[0][0].caption == Glyph("previous"))
      && (page > 1 ==> Data(kb[0][0]) == base + ":" + IntToString(page - 1))
      && (page < total <==> kb[0][|kb[0]| - 1].caption == Glyph("next"))
      && (page < total ==> Data(kb[0][|kb[0]| - 1]) == base + ":" + IntToString(page + 1))
  {
  }

  /** With the list's base action `birthdays:page`, the neighbour buttons
      reach the list handler with the neighbouring page numbers, as long as
      that number is not negative (`-` is not a digit of the pattern). */
  lemma PaginationReachesListPages(page: int, total: int)
    ensures var row := PaginationKeyboard(page, total, "birthdays:page")[0];
      && (page > 1 ==> Decode(Data(row[0])) == Some(BirthdaysPage(page - 1)))
      && (-1 <= page < total ==> Decode(Data(row[|row| - 1])) == Some(BirthdaysPage(page + 1)))
  {
    assert "birthdays:page" == "birthdays" + [':'] + "page";
    if page > 1 {
      PageData(page - 1);
    }
    if -1 <= page < total {
      PageData(page + 1);
    }
  }

  lemma PageData(n: nat)
    ensures Decode("birthdays:page" + ":" + IntToString(n)) == Some(BirthdaysPage(n))
  {
    var digits := NatToString(n);
    var segments := ["birthdays", "page", digits];
    assert Join(segments[2..], ':') == digits;
    assert Join(segments[1..], ':') == "page" + [':'] + digits;
    assert Encode(BirthdaysPage(n)) == "birthdays" + [':'] + ("page" + [':'] + digits);
    assert "birthdays:page" + ":" + IntToString(n) == Encode(BirthdaysPage(n));
    DecodeEncode(BirthdaysPage(n));
  }
}
