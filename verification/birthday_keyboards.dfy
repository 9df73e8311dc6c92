/** The keyboards of the birthday screens: category choice, the actions on
    one record, the paged list, the edit menu and the delete confirmation. */
module BirthdayKeyboards {
  import opened Strings
  import opened Callbacks
  import opened Markup
  import Validators

  const ItemsPerPage: nat := 5

  /** `createCategorySelectionKeyboard`: the four categories two by two, in
      the order `validateCategory` lists them, then cancel to the main menu. */
  function CategorySelectionKeyboard(): (kb: Keyboard)
    ensures |kb| == 3 && |kb[0]| == 2 && |kb[1]| == 2 && |kb[2]| == 1
    ensures Dispatches(kb)
    ensures forall i, j | 0 <= i < 2 && 0 <= j < 2 :: kb[i][j].action == Category(Validators.Categories[2 * i + j])
    ensures kb[2][0].action == MenuMain
  {
    [ [ Tap(Localized("birthday.categories.family"), Category("family")),
        Tap(Localized("birthday.categories.friends"), Category("friends")) ],
      [ Tap(Localized("birthday.categories.colleagues"), Category("colleagues")),
        Tap(Localized("birthday.categories.other"), Category("other")) ],
      BackRow("common.cancel", MenuMain) ]
  }

  /** The category buttons carry exactly the categories `validateCategory`
      accepts: each one offered is accepted, and each accepted one is
      offered. Pressing a button reaches the category handler with its
      category, by `DispatchesReach`. */
  lemma CategoryKeyboardOffersTheCategories()
    ensures var kb := CategorySelectionKeyboard();
      forall i, j | 0 <= i < 2 && 0 <= j < 2 ::
        Validators.ValidateCategory(kb[i][j].action.category).Valid?
    ensures var kb := CategorySelectionKeyboard();
      forall c: string | Validators.ValidateCategory(c).Valid? ::
        exists i, j | 0 <= i < 2 && 0 <= j < 2 :: kb[i][j].action == Category(c)
  {
    var kb: Keyboard := CategorySelectionKeyboard();
    forall c: string | Validators.ValidateCategory(c).Valid?
      ensures exists i, j | 0 <= i < 2 && 0 <= j < 2 :: kb[i][j].action == Category(c)
    {
      var k: int :| 0 <= k < 4 && Validators.Categories[k] == c;
      assert kb[k / 2][k % 2].action == Category(c);
    }
  }

  /** The record id a callback names, if any. */
  function CarriedId(c: Callback): Option<nat> {
    match c
    case ViewBirthday(id) => Some(id)
    case EditBirthday(id) => Some(id)
    case DeleteBirthday(id) => Some(id)
    case ConfirmDelete(id) => Some(id)
    case EditField(_, id) => Some(id)
    case _ => None
  }

  /** Every button reaches a handler, and every button that names a record
      names record `id`. */
  predicate NamesOnly(kb: Keyboard, id: nat) {
    && Dispatches(kb)
    && forall i, j | 0 <= i < |kb| && 0 <= j < |kb[i]| ::
         CarriedId(kb[i][j].action).Some? ==> CarriedId(kb[i][j].action) == Some(id)
  }

  /** `createBirthdayActionsKeyboard`: edit and delete for one record, then
      back to the list; it names no record but its own. */
  function BirthdayActionsKeyboard(id: nat): (kb: Keyboard)
    ensures |kb| == 2 && |kb[0]| == 2 && |kb[1]| == 1
    ensures NamesOnly(kb, id)
    ensures kb[0][0].action == EditBirthday(id) && kb[0][1].action == DeleteBirthday(id)
    ensures kb[1][0].action == MenuMyBirthdays
  {
    [ [Tap(Localized("common.edit"), EditBirthday(id)), Tap(Localized("common.delete"), DeleteBirthday(id))],
      BackRow("common.back", MenuMyBirthdays) ]
  }

  /** `createEditBirthdayKeyboard`: one button per field, then back to the
      record; it names no record but its own. */
  function EditBirthdayKeyboard(id: nat): (kb: Keyboard)
    ensures |kb| == 3 && |kb[0]| == 2 && |kb[1]| == 2 && |kb[2]| == 1
    ensures NamesOnly(kb, id)
    ensures kb[0][0].action == EditField(NameField, id) && kb[0][1].action == EditField(DateField, id)
    ensures kb[1][0].action == EditField(CategoryField, id) && kb[1][1].action == EditField(NotesField, id)
    ensures kb[2][0].action == ViewBirthday(id)
  {
    [ [Tap(Glyph("name"), EditField(NameField, id)), Tap(Glyph("date"), EditField(DateField, id))],
      [Tap(Glyph("category"), EditField(CategoryField, id)), Tap(Glyph("notes"), EditField(NotesField, id))],
      BackRow("common.back", ViewBirthday(id)) ]
  }

  /** `createDeleteConfirmationKeyboard`: yes deletes, no returns to the
      record; it names no record but its own. */
  function DeleteConfirmationKeyboard(id: nat): (kb: Keyboard)
    ensures |kb| == 1 && |kb[0]| == 2
    ensures NamesOnly(kb, id)
    ensures kb[0][0].action == ConfirmDelete(id) && kb[0][1].action == ViewBirthday(id)
  {
    [[Tap(Localized("common.yes"), ConfirmDelete(id)), Tap(Localized("common.no"), ViewBirthday(id))]]
  }

  /** `createSaveBirthdayKeyboard`: save or cancel. */
  function SaveBirthdayKeyboard(): (kb: Keyboard)
    ensures |kb| == 1 && |kb[0]| == 2 && Dispatches(kb)
    ensures kb[0][0].action == SaveBirthday && kb[0][1].action == MenuMain
  {
    [[Tap(Localized("common.save"), SaveBirthday), Tap(Localized("common.cancel"), MenuMain)]]
  }

  // ----- The paged list ------------------------------------------------

  /** The index `Array.prototype.slice` uses for a bound: negative counts
      from the end, everything is clamped to 0..n. */
  function SliceIndex(i: int, n: nat): (k: nat)
    ensures k <= n
    ensures 0 <= i <= n ==> k == i
  {
    if i < 0 then (if n + i < 0 then 0 else n + i) else if i > n then n else i
  }

  /** `s.slice(start, end)` */
  function JsSlice<T>(s: seq<T>, start: int, end: int): (r: seq<T>)
    ensures |r| <= |s|
  {
    var from, to := SliceIndex(start, |s|), SliceIndex(end, |s|);
    if from < to then s[from..to] else []
  }

  function Min(a: int, b: int): int {
    if a < b then a else b
  }

  /** The records listed on a page: `birthdays.slice((page-1)*5, (page-1)*5 + 5)`. */
  function PageItems(bs: seq<Birthday>, page: nat): seq<Birthday> {
    var start := (page - 1) * ItemsPerPage;
    JsSlice(bs, start, start + ItemsPerPage)
  }

  /** Page p >= 1 lists the records p*5-5 .. p*5-1 that exist; page 0 (the
      negative slice bounds -5 and 0) lists nothing. */
  lemma PageItemsWindow(bs: seq<Birthday>, page: nat)
    ensures page == 0 ==> PageItems(bs, page) == []
    ensures page >= 1 ==>
      PageItems(bs, page) == bs[Min((page - 1) * ItemsPerPage, |bs|)..Min(page * ItemsPerPage, |bs|)]
    ensures |PageItems(bs, page)| <= ItemsPerPage
  {
  }

  /** `Math.ceil(n / 5)`: the fewest pages of five that hold n records. */
  function TotalPages(n: nat): (t: nat)
    ensures n <= t * ItemsPerPage
    ensures t > 0 ==> (t - 1) * ItemsPerPage < n
  {
    (n + ItemsPerPage - 1) / ItemsPerPage
  }

  /** The pages together list every record exactly once: page p holds
      the records from (p-1)*5 on, and past the last page nothing is left. */
  lemma PagesCoverTheList(bs: seq<Birthday>, i: nat)
    requires i < |bs|
    ensures var p := i / ItemsPerPage + 1;
      1 <= p <= TotalPages(|bs|) && PageItems(bs, p)[i % ItemsPerPage] == bs[i]
  {
    var p := i / ItemsPerPage + 1;
    PageItemsWindow(bs, p);
  }

  /** The pagination row: previous page, `page/total`, next page. */
  function PaginationRow(page: nat, total: nat): Row {
    (if page > 1 then [Tap(Glyph("previous"), BirthdaysPage(page - 1))] else [])
    + [Tap(PageIndicator(page, total), Noop)]
    + (if page < total then [Tap(Glyph("next"), BirthdaysPage(page + 1))] else [])
  }

  /** The previous button is there exactly when page > 1 and leads to the
      page before; the next button exactly when page < total and leads to
      the page after; the indicator is always there and does nothing. */
  lemma PaginationRowMeaning(page: nat, total: nat)
    ensures var row := PaginationRow(page, total);
      && Dispatches([row])
      && |row| == 1 + (if page > 1 then 1 else 0) + (if page < total then 1 else 0)
      && (page > 1 <==> exists j | 0 <= j < |row| :: row[j].caption == Glyph("previous"))
      && (page > 1 ==> row[0].action == BirthdaysPage(page - 1))
      && (page < total <==> exists j | 0 <= j < |row| :: row[j].caption == Glyph("next"))
      && (page < total ==> row[|row| - 1].action == BirthdaysPage(page + 1))
      && var k := if page > 1 then 1 else 0;
         row[k] == Tap(PageIndicator(page, total), Noop)
  {
    var row := PaginationRow(page, total);
    if page > 1 {
      assert row[0].caption == Glyph("previous");
    }
    if page < total {
      assert row[|row| - 1].caption == Glyph("next");
    }
  }

  /** One button per listed record, leading to that record. */
  function ItemRows(items: seq<Birthday>): (rows: Keyboard)
    ensures |rows| == |items| && Dispatches(rows)
    ensures forall i | 0 <= i < |items| :: |rows[i]| == 1 && rows[i][0].action == ViewBirthday(items[i].id)
  {
    seq(|items|, i requires 0 <= i < |items| => [Tap(BirthdayEntry(items[i].id), ViewBirthday(items[i].id))])
  }

  /** `createBirthdayListKeyboard(t, birthdays, language, page)`. */
  function BirthdayListKeyboard(bs: seq<Birthday>, page: nat): Keyboard {
    ItemRows(PageItems(bs, page)) + ListTail(page, TotalPages(|bs|))
  }

  /** The rows below the record buttons: the pagination row when there is
      more than one page, then add and back. */
  function ListTail(page: nat, total: nat): Keyboard {
    (if total > 1 then [PaginationRow(page, total)] else [])
    + [[Tap(Localized("menu.addBirthday"), MenuAddBirthday)], BackRow("common.back", MenuMain)]
  }

  lemma ListTailShape(page: nat, total: nat)
    ensures var t := ListTail(page, total);
      && Dispatches(t)
      && |t| == (if total > 1 then 1 else 0) + 2
      && (total > 1 ==> t[0] == PaginationRow(page, total))
      && |t[|t| - 2]| == 1 && t[|t| - 2][0].action == MenuAddBirthday
      && |t[|t| - 1]| == 1 && t[|t| - 1][0].action == MenuMain
  {
    PaginationRowMeaning(page, total);
  }

  /** There is more than one page exactly when there are more than five
      records. */
  lemma MoreThanOnePage(n: nat)
    ensures TotalPages(n) > 1 <==> n > ItemsPerPage
  {
  }

  /** The list keyboard is the page's record buttons, the pagination row
      exactly when there is more than one page, and the add and back rows;
      every button reaches a handler. */
  lemma BirthdayListKeyboardShape(bs: seq<Birthday>, page: nat)
    ensures var kb := BirthdayListKeyboard(bs, page);
      var items := PageItems(bs, page);
      var paged := TotalPages(|bs|) > 1;
      && Dispatches(kb)
      && |kb| == |items| + (if paged then 1 else 0) + 2
      && (forall i | 0 <= i < |items| :: |kb[i]| == 1 && kb[i][0].action == ViewBirthday(items[i].id))
      && (paged ==> kb[|items|] == PaginationRow(page, TotalPages(|bs|)))
      && (paged <==> |bs| > ItemsPerPage)
      && kb[|kb| - 2][0].action == MenuAddBirthday
      && kb[|kb| - 1][0].action == MenuMain
  {
    var kb := BirthdayListKeyboard(bs, page);
    var items := PageItems(bs, page);
    var rows := ItemRows(items);
    var tail := ListTail(page, TotalPages(|bs|));
    ListTailShape(page, TotalPages(|bs|));
    MoreThanOnePage(|bs|);
    DispatchesConcat(rows, tail);
    assert forall i | 0 <= i < |items| :: kb[i] == rows[i];
    assert forall i | |items| <= i < |kb| :: kb[i] == tail[i - |items|];
  }
}
