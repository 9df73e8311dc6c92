# Birthday Reminder Pro — a Dafny model of the bot's conversation core

Birthday Reminder Pro is a Telegram bot that keeps a list of birthdays per
user. This project models the part of it that decides what happens to one
incoming update:

- **Validators** (`validators.dfy`, with `calendar.dfy`). These are the date, time, name and category checks of
  `src/utils/validators.ts`. The JavaScript `Date` round trip the date check relies on is modelled
  explicitly as `Calendar.LocalDate`, with its 1900 offset for two-digit years and its month and day
  rollover.
- **Sessions** (`sessions.dfy`). This is the in-memory session store of the validation middleware:
  lazy creation, `setState` with merge, `clearState`, `getData` and `setData`.
- **Locales** (`locales.dfy`). This is language detection from a Telegram language code, and `t`, the
  dotted-key lookup with its fallback to the key.
- **Callbacks** (`callbacks.dfy`, with `strings.dfy`). These are button identifiers such as `birthday:view:42` and
  `settings:set_time:09:30`. `Encode` writes them as the keyboards do. `Decode` recognises them as the
  handlers' exact strings and regular expressions do.
- **Keyboards** (`markup.dfy`, `birthday_keyboards.dfy`, `main_keyboards.dfy`,
  `settings_keyboards.dfy`). These are every inline keyboard of the three keyboard files, including list
  pagination with `Array.prototype.slice` and `Math.ceil`, and the rows of four time slots.
- **Conversation** (`conversation.dfy`, `conversation_properties.dfy`). This is one pure step per update.
  It takes the session store, the sender, the event and a `World`, where the `World` is a snapshot of
  what the database answers plus one outcome (`Ok` or `Fail`) for any write. The step returns the new
  store and an effect: ignored, rejected with a reason, a screen with its keyboard, or a database write.
  The step follows the handler files branch by branch: the add flow, editing, deletion, lists, upcoming
  birthdays and settings.

Button captions and message texts are kept abstract. What a keyboard means is which handler each of
its buttons reaches, and `Markup.Dispatches` states that every button reaches one.

## Model

| member | source | states |
|---|---|---|
| Calendar.DaysInMonth | src/utils/validators.ts:115-117 | A month has 28 to 31 days, and 29 exactly for February of a leap year (divisible by 4 and not by 100, or by 400). |
| Calendar.LocalDate | src/utils/validators.ts:23 | `new Date(year, month - 1, day)` always lands on a real calendar date after carrying months into years and days into months. |
| Calendar.RoundTripIsCalendarDate | src/utils/validators.ts:23-34 | For the non-negative numbers the pattern yields, the date reads back as the same day, month and year exactly when it is a real calendar date in a year from 100 on (years 0-99 are shifted to 19xx). |
| Validators.MatchDate | src/utils/validators.ts:9-17 | A match has one or two digits, one or two digits and four digits, and the groups joined with dots are the input. |
| Validators.MatchDateComplete | src/utils/validators.ts:9-17 | Every string of that shape is matched with its own groups. |
| Validators.ValidateDateMeaning | src/utils/validators.ts:7-57 | Off the pattern gives the format error. On it, the result is valid exactly for a real calendar date with 1900 <= year <= current year, carrying that date; anything else gives "invalid date". |
| Validators.LeapYearErrorUnreachable | src/utils/validators.ts:36-42 | The leap-year error is never returned, because 29 February of a common year already fails the round trip. |
| Validators.ValidateDateOfFields | src/utils/validators.ts:19-56 | The same outcome, stated on the three digit groups of a well-shaped date. |
| Validators.ImpossibleDateExamples | src/utils/validators.ts:23-42 | `29.02.2001` is an invalid date, not a leap-year error, and `31.04.2020` matches the pattern but is rejected. |
| Validators.LeapDayExample | src/utils/validators.ts:23-56 | `29.02.2000` is valid. |
| Validators.SingleDigitExample | src/utils/validators.ts:9-21 | `5.3.1990` is accepted as 5 March 1990. |
| Validators.YearWindowExamples | src/utils/validators.ts:44-51 | 1899 and a year after the current one are rejected. |
| Validators.DateFormatExample | src/utils/validators.ts:9-17 | `1990-03-15` is a format error. |
| Validators.HourPatternMeaning | src/utils/validators.ts:60 | The hour group of the time pattern accepts exactly one or two digits reading at most 23. |
| Validators.MinutePatternMeaning | src/utils/validators.ts:60 | The minute group accepts exactly two digits reading at most 59. |
| Validators.ValidateTimeMeaning | src/utils/validators.ts:59-74 | A valid time is an hour up to 23, a colon and a two-digit minute up to 59, and the value is the input unpadded. Any failure is the time-format error. |
| Validators.ValidateTimeOfParts | src/utils/validators.ts:59-74 | For colon-free halves, `h:m` is valid, with itself as value, exactly when the hour and minute are in range. |
| Validators.TimeExamples | src/utils/validators.ts:59-74 | `7:30` and `23:59` are valid; `24:00`, `12:60` and `12:5` are not. |
| Validators.Trim | src/utils/validators.ts:77 | `trim()` removes exactly the leading and trailing JavaScript whitespace: the result is trimmed, and what lies before and after it in the input is all whitespace. |
| Validators.TrimIdempotent | src/utils/validators.ts:77 | Trimming twice is trimming once. |
| Validators.ValidateName | src/utils/validators.ts:76-97 | The name-required error occurs exactly for all-whitespace input, and the too-long error exactly when the trimmed name exceeds 100 UTF-16 units. A valid value is the non-empty trimmed name. |
| Validators.ValidateNameIdempotent | src/utils/validators.ts:76-97 | A validated name validates to itself. |
| Validators.ValidateCategory | src/utils/validators.ts:99-113 | The result is valid exactly for family, friends, colleagues and other, with the input as value. Otherwise it is the invalid-category error. |
| Sessions.Attach | src/bot/middleware/validation.middleware.ts:22-33 | An update without a sender passes with the store untouched. Otherwise the sender has a session afterwards, an existing one as it was and a new one fresh, and no other user's entry changes. |
| Sessions.SetState | src/bot/middleware/validation.middleware.ts:36-43 | The state is set. Supplied data is merged over the old data with its keys winning, and without data the data stays. Other users are untouched. |
| Sessions.ClearState | src/bot/middleware/validation.middleware.ts:45-50 | No state and empty data afterwards. |
| Sessions.GetData | src/bot/middleware/validation.middleware.ts:52-55 | The falsy key `""` gives the whole map. Any other key gives its entry, or undefined when absent. |
| Sessions.SetData | src/bot/middleware/validation.middleware.ts:57-62 | One entry is written; the state and every other entry are kept. |
| Sessions.SetDataThenGetData | src/bot/middleware/validation.middleware.ts:52-62 | What setData writes, getData reads back, and every other key reads as before. |
| Sessions.SetStateKeepsData | src/bot/middleware/validation.middleware.ts:36-55 | setState without data changes no getData answer. |
| Sessions.ClearThenGetData | src/bot/middleware/validation.middleware.ts:45-55 | After clearState, getData sees an empty map. |
| Sessions.MergeExample | src/bot/middleware/validation.middleware.ts:36-43 | A key stored earlier survives a merge of another key. |
| Sessions.AttachIdempotent | src/bot/middleware/validation.middleware.ts:28-31 | Initialisation happens once and never resets an existing session. |
| Locales.PrimaryTag | src/locales/index.ts:36 | The first `-` piece is a tag exactly when the code is that tag or starts with it followed by `-`. |
| Locales.DetectLanguageMeaning | src/locales/index.ts:31-47 | A missing or empty code gives en. Otherwise the result is ru exactly for `ru`/`ru-*`, es exactly for `es`/`es-*` (any case), and en for everything else. |
| Locales.DetectLanguageIdempotent | src/locales/index.ts:31-47 | Detection always yields a supported language, and re-detecting its code yields it again. |
| Locales.DetectLanguageIgnoresCase | src/locales/index.ts:36 | Lower-casing the code first changes nothing. |
| Locales.ResolveUndefined | src/locales/index.ts:23-26 | Once a key segment is missing, the walk stays undefined. |
| Locales.Translate | src/locales/index.ts:17-29 | The answer is the value the dotted path reaches in the language's table when it is truthy, and the key itself otherwise. |
| Locales.UnsupportedLanguageReadsEnglish | src/locales/index.ts:18 | Any language other than ru and es reads the English table. |
| Locales.ResolveNested | src/locales/index.ts:20-26 | A two-segment key through a nested object reaches the string stored there. |
| Strings.ParseNatToString | src/bot/handlers/birthday.handlers.ts:66 | `parseInt` of a rendered id gives the id back. |
| Callbacks.DecodeEncode | src/bot/handlers/birthday.handlers.ts:32-93 | Decoding the identifier a keyboard writes for a well-formed button gives that button back. |
| Callbacks.DecodeIsWellFormed | src/bot/handlers/settings.handlers.ts:26-91 | Whatever a handler pattern accepts has the payload shape it demands (`\w+` words, `\d{2}:\d{2}` times). |
| Callbacks.DecodeReencodes | src/bot/handlers/birthday.handlers.ts:65-86 | Every accepted identifier re-renders to one with the same meaning; only leading zeros of ids can differ. |
| Markup.DispatchesReach | src/bot/handlers/birthday.handlers.ts:65-93 | On a keyboard whose buttons all dispatch, pressing any button reaches exactly the handler of the callback it was written from. |
| BirthdayKeyboards.CategorySelectionKeyboard | src/bot/keyboards/birthday.keyboards.ts:5-33 | Four categories two by two in the validator's order, then cancel to the main menu. |
| BirthdayKeyboards.CategoryKeyboardOffersTheCategories | src/bot/keyboards/birthday.keyboards.ts:5-33 | Each category offered is one `validateCategory` accepts, and each accepted one is offered. |
| BirthdayKeyboards.BirthdayActionsKeyboard | src/bot/keyboards/birthday.keyboards.ts:35-54 | Edit and delete for the record, then back to the list; no other record is named. |
| BirthdayKeyboards.EditBirthdayKeyboard | src/bot/keyboards/birthday.keyboards.ts:118-140 | One button per field for the record, then back to it; no other record is named. |
| BirthdayKeyboards.DeleteConfirmationKeyboard | src/bot/keyboards/birthday.keyboards.ts:142-157 | Yes confirms deleting the record, no returns to it. |
| BirthdayKeyboards.SaveBirthdayKeyboard | src/bot/keyboards/birthday.keyboards.ts:159-170 | Save or cancel. |
| BirthdayKeyboards.SliceIndex | src/bot/keyboards/birthday.keyboards.ts:63-65 | A slice bound is clamped into 0..n and is kept when already inside. |
| BirthdayKeyboards.PageItemsWindow | src/bot/keyboards/birthday.keyboards.ts:63-65 | Page p >= 1 lists the existing records from (p-1)*5 up to p*5; page 0 lists nothing; no page lists more than five. |
| BirthdayKeyboards.TotalPages | src/bot/keyboards/birthday.keyboards.ts:81 | `Math.ceil(n / 5)` is the fewest pages of five that hold n records. |
| BirthdayKeyboards.PagesCoverTheList | src/bot/keyboards/birthday.keyboards.ts:63-82 | Every record appears on a page between 1 and the page count, at its position within that page. |
| BirthdayKeyboards.PaginationRowMeaning | src/bot/keyboards/birthday.keyboards.ts:82-105 | Previous appears exactly when page > 1 and leads to page - 1. Next appears exactly when page < total and leads to page + 1. The indicator is always there and does nothing. |
| BirthdayKeyboards.ItemRows | src/bot/keyboards/birthday.keyboards.ts:70-78 | One row per listed record, leading to that record. |
| BirthdayKeyboards.BirthdayListKeyboardShape | src/bot/keyboards/birthday.keyboards.ts:56-116 | The page's record rows come first. The pagination row follows exactly when there are more than five records. Add and back come last. Every button dispatches. |
| MainKeyboards.MainMenuKeyboard | src/bot/keyboards/main.keyboards.ts:5-18 | List and add, then upcoming, then settings. |
| MainKeyboards.LanguageSelectionKeyboard | src/bot/keyboards/main.keyboards.ts:20-41 | The language buttons carry exactly the supported codes, in order. |
| MainKeyboards.BackToMainKeyboard | src/bot/keyboards/main.keyboards.ts:43-49 | One back button to the main menu. |
| MainKeyboards.ConfirmationKeyboard | src/bot/keyboards/main.keyboards.ts:51-64 | Yes carries the given action and no the cancel action, which defaults to the main menu. |
| MainKeyboards.PaginationKeyboardShape | src/bot/keyboards/main.keyboards.ts:66-104 | Always two rows, because the indicator keeps the navigation row non-empty. Previous and next appear exactly when page > 1 and page < total, pointing at `base:<page±1>`. |
| MainKeyboards.PaginationReachesListPages | src/bot/keyboards/main.keyboards.ts:77-94 | With base `birthdays:page`, the neighbour buttons reach the list handler with the neighbouring page whenever that page is not negative. |
| MainKeyboards.PageData | src/bot/handlers/menu.handlers.ts:192-196 | `birthdays:page:<n>` reaches the list handler with page n. |
| SettingsKeyboards.SettingsKeyboard | src/bot/keyboards/settings.keyboards.ts:4-35 | Language and time, notifications, export and import, delete profile, back. |
| SettingsKeyboards.LanguageSettingsKeyboardMeaning | src/bot/keyboards/settings.keyboards.ts:37-59 | Row i sets the i-th supported language, and the check mark sits exactly on the current language. Some row is checked exactly when the current language is supported. Back leads to the settings. |
| SettingsKeyboards.NotificationToggleKeyboard | src/bot/keyboards/settings.keyboards.ts:61-76 | The toggle shows the current setting and asks for the opposite. |
| SettingsKeyboards.TimeSlotsExamples | src/bot/keyboards/settings.keyboards.ts:81-97 | Fifteen slots from 08:00 to 22:00. |
| SettingsKeyboards.SlotRows | src/bot/keyboards/settings.keyboards.ts:99-108 | There are ceil(n/4) rows of one to four slots, and slot k sits at row k/4, column k%4. |
| SettingsKeyboards.SlotRowsDispatch | src/bot/keyboards/settings.keyboards.ts:102-108 | Slots that fit the set-time pattern all reach the set-time handler. |
| SettingsKeyboards.FifteenSlotsLayout | src/bot/keyboards/settings.keyboards.ts:99-119 | Fifteen slots lay out as 4, 4, 4 and 3, followed by custom time and back. |
| SettingsKeyboards.HourTextIsValid | src/bot/keyboards/settings.keyboards.ts:81-97 | Every whole-hour slot is a time `validateTime` accepts and reaches the set-time handler with that time. |
| SettingsKeyboards.TimeSelectionKeyboardMeaning | src/bot/keyboards/settings.keyboards.ts:78-119 | The time keyboard has the layout above. Every button dispatches, and every slot time is a valid time. |
| SettingsKeyboards.DeleteProfileConfirmationKeyboard | src/bot/keyboards/settings.keyboards.ts:121-135 | Confirm deletion, or cancel to the settings. |
| SettingsKeyboards.ExportOptionsKeyboard | src/bot/keyboards/settings.keyboards.ts:137-149 | CSV or JSON, then back to the settings. |
| Conversation.Handle | src/bot/middleware/auth.middleware.ts:21-28 | An update without a sender is answered with the authentication error and nothing changes. Otherwise only the sender's session can change. |
| Conversation.Dispatch | src/bot/bot.ts:23-33 | `/start` and `/menu` show the main menu. A button no handler pattern accepts is ignored, and an accepted one goes to the handler its group registered (`ConversationProperties.PressReachesHandler`). Text goes to the text handlers. |
| Conversation.CallbackStep | src/bot/bot.ts:23-33 | The no-op, language and menu buttons reach the menu handlers, the add-flow and record buttons the birthday handlers, and every other button the settings handlers. |
| Conversation.MenuPress | src/bot/handlers/menu.handlers.ts:33-56 | The menu handlers answer only their own buttons. Only the language choice of `/start` (`src/bot/handlers/language.handlers.ts:9-33`) writes, and it writes that language. Only add-birthday touches the session (`ConversationProperties.AddBirthdayKeepsData`). |
| Conversation.BirthdayPress | src/bot/handlers/birthday.handlers.ts:30-93 | The birthday handlers answer only their own buttons. Only save, skip-notes and a confirmed deletion of an owned record write (`ConversationProperties.OwnershipGuards`, `ConversationProperties.SaveButtons`). Only the category, save and edit-field buttons touch the session. |
| Conversation.SettingsPress | src/bot/handlers/settings.handlers.ts:17-199 | Only custom time and import touch the session, and no settings button adds or removes a record (`ConversationProperties.ToggleWritesFlag`, `ConversationProperties.SetTimeWritesAnyPair`). |
| Conversation.BirthdayText | src/bot/handlers/birthday.handlers.ts:96-121 | With no state, or in a state the switch has no case for, text is ignored with nothing changed. `ConversationProperties.BirthdayTextAnswers` states that every state it has a case for is answered. |
| Conversation.SettingsText | src/bot/handlers/settings.handlers.ts:201-207 | Only in the custom-time state is text handled. There it writes the trimmed time exactly when `validateTime` accepts it, with the back button to the settings, and clears the session on success. |
| Conversation.TextStep | src/bot/handlers/settings.handlers.ts:201-207 | As intended, the custom-time state writes exactly the valid times, and every other state behaves as registered (`ConversationProperties.CustomTimeWritten`). |
| Conversation.TextStepAsRegistered | src/bot/bot.ts:29-33 | As registered, the custom-time state ignores text (`ConversationProperties.CustomTimeIgnoredAsRegistered`). |
| Conversation.ListStep | src/bot/handlers/menu.handlers.ts:75-116 | The list leaves the session alone. It shows "no birthdays" exactly for an empty list and the page's list keyboard otherwise (`ConversationProperties.ListPages`). |
| Conversation.UpcomingStep | src/bot/handlers/menu.handlers.ts:131-183 | The upcoming screen leaves the session alone. It is "none upcoming" exactly when nothing is upcoming, with add and back below (`ConversationProperties.UpcomingTruncation`). |
| Conversation.SavedKeyboard | src/bot/handlers/birthday.handlers.ts:206-220 | After a save: add, the list, and back to the main menu; every button dispatches. |
| Conversation.DeletedKeyboard | src/bot/handlers/birthday.handlers.ts:302-313 | After a deletion: the list, and back to the main menu; every button dispatches. |
| Conversation.SettingsBackKeyboard | src/bot/handlers/settings.handlers.ts:37-43 | After a settings write: one back button to the settings, which dispatches. |
| Conversation.ViewButton | src/bot/handlers/birthday.handlers.ts:373-383 | The view button after an edit reaches the view handler exactly when the session's `birthdayId` is a non-negative number, and then it views that record. |
| Conversation.Finish | src/bot/handlers/birthday.handlers.ts:369-388 | After a write that went through, the session is cleared; after one that threw, it is left as it was. |
| Conversation.NameInput | src/bot/handlers/birthday.handlers.ts:124-148 | It moves to the date step exactly for a valid name, storing the trimmed name and keeping the other data; otherwise nothing changes. |
| Conversation.DateInput | src/bot/handlers/birthday.handlers.ts:150-169 | It shows the category keyboard exactly for a valid trimmed date, storing it with the state kept; otherwise nothing changes. |
| Conversation.NotesInput | src/bot/handlers/birthday.handlers.ts:171-229 | It stores the trimmed notes and saves. It writes exactly when name, date and category are present, inserting them with those notes. Otherwise the answer is "data missing". Unless a write went through, the stored notes are the only change (`ConversationProperties.NotesSave`). |
| Conversation.Save | src/bot/handlers/birthday.handlers.ts:177-229 | It writes exactly when name, date and category are truthy, with notes defaulting to "". The session is cleared only after the write went through; otherwise the answer is "data missing" with nothing changed. |
| Conversation.EditName | src/bot/handlers/birthday.handlers.ts:354-389 | It updates the record exactly when `birthdayId` is truthy and the name valid; otherwise nothing changes. |
| Conversation.EditDate | src/bot/handlers/birthday.handlers.ts:391-426 | It updates exactly when `birthdayId` is truthy and the trimmed date valid; otherwise nothing changes. |
| Conversation.EditNotes | src/bot/handlers/birthday.handlers.ts:428-457 | It updates exactly when `birthdayId` is truthy, with the trimmed notes, which may be empty. |
| Conversation.CustomTimeInput | src/bot/handlers/settings.handlers.ts:219-253 | It writes the trimmed time, as typed, exactly when `validateTime` accepts it; otherwise nothing changes. |
| Conversation.DocumentStep | src/bot/handlers/settings.handlers.ts:210-216 | In the import state the session is cleared; in any other state the document is ignored. |
| ConversationProperties.SessionDiscipline | src/bot/handlers/birthday.handlers.ts:124-457 | An ignored update, a rejection and a failed write leave the session alone, except the notes stored before a failed save. Data or state is lost only when a write goes through or an import ends. Text whose write goes through clears the session. |
| ConversationProperties.TextDisciplined | src/bot/handlers/birthday.handlers.ts:96-121 | The same laws for every text state. |
| ConversationProperties.ValidationFailureChangesNothing | src/bot/handlers/birthday.handlers.ts:132-162 | A rejected name, date or time leaves the session exactly as it was. |
| ConversationProperties.TextWithoutHandler | src/bot/handlers/birthday.handlers.ts:96-121 | With no state, or in the category-editing or import state, text is ignored. |
| ConversationProperties.NameStep | src/bot/handlers/birthday.handlers.ts:124-148 | A valid name moves to the date step with the trimmed name stored; anything else changes nothing. |
| ConversationProperties.DateKeepsState | src/bot/handlers/birthday.handlers.ts:150-169 | A valid date is stored and shows the category keyboard, and the state stays at the date step. |
| ConversationProperties.CategoryInAnyState | src/bot/handlers/birthday.handlers.ts:32-52 | In any state, a valid category is stored and the notes step begins; an invalid one is refused with nothing changed. |
| ConversationProperties.NotesSave | src/bot/handlers/birthday.handlers.ts:171-229 | Notes text stores the trimmed notes, then saves. The record is written exactly when name, date and category are present; otherwise the notes are the only change. |
| ConversationProperties.SaveButtons | src/bot/handlers/birthday.handlers.ts:55-62 | Skip-notes and save run the save in any state: the record is written exactly when complete, and the session is cleared only on success. |
| ConversationProperties.EditFieldEntersState | src/bot/handlers/birthday.handlers.ts:324-352 | `edit:<field>:<id>` enters that field's state and merges the id into the data. |
| ConversationProperties.RecordZeroCannotBeEdited | src/bot/handlers/birthday.handlers.ts:354-361 | Record id 0 is falsy, so its edit is refused with nothing changed. |
| ConversationProperties.EditIgnoresOwnership | src/bot/handlers/birthday.handlers.ts:428-440 | A notes edit is sent for whatever id the session holds, with no ownership check. |
| ConversationProperties.OwnershipGuards | src/bot/handlers/birthday.handlers.ts:231-322 | View, delete and confirm-delete act only on a record the sender owns; for any other id the answer is "not found". |
| ConversationProperties.DeletionRequiresOwnership | src/bot/handlers/birthday.handlers.ts:291-300 | No update of any kind removes a record the sender does not own. |
| ConversationProperties.CallbackRemoval | src/bot/handlers/birthday.handlers.ts:83-86 | Only the confirm-delete button removes a record. |
| ConversationProperties.TextWrites | src/bot/handlers/birthday.handlers.ts:96-121 | Text writes only a new record, a record update or a notification time. |
| ConversationProperties.PressReachesHandler | src/bot/bot.ts:29-33 | Pressing a button written from a callback reaches that callback's handler with the session attached. |
| ConversationProperties.UnknownButtonIgnored | src/bot/bot.ts:23-33 | An identifier no pattern accepts is ignored. |
| ConversationProperties.ShownKeyboardsDispatch | src/bot/handlers/birthday.handlers.ts:30-121 | Every keyboard any handler puts on screen, before or after a write, consists of buttons that reach a handler, provided the session's `birthdayId` is a record number. |
| ConversationProperties.NumericIdsKept | src/bot/handlers/birthday.handlers.ts:89-93 | Every update keeps `birthdayId`, when present, a record number: only `edit:<field>:<id>` stores one, and it stores a parsed id. A fresh session has none, so the condition above holds for every session the bot reaches. |
| ConversationProperties.BirthdayTextAnswers | src/bot/handlers/birthday.handlers.ts:96-121 | In every state the birthday text handler has a case for, text is answered with the next step, an error or a write. |
| ConversationProperties.TextOutsideAddFlowShowsNothing | src/bot/handlers/birthday.handlers.ts:96-121 | Only the name and date steps answer text with a screen; the other text states write or refuse. |
| ConversationProperties.AddFlow | src/bot/handlers/birthday.handlers.ts:124-229 | From the name step, a valid name, a valid date, an accepted category button and any notes insert exactly the record of the trimmed name, that date, that category and the trimmed notes, with the saved keyboard, and clear the session once that went through. |
| ConversationProperties.NameThenDate | src/bot/handlers/birthday.handlers.ts:124-169 | A valid name and then a valid date are both stored, and the date step waits for the category. |
| ConversationProperties.CategoryThenNotes | src/bot/handlers/birthday.handlers.ts:32-62 | With a name and a date stored, an accepted category and then any notes insert the record of the stored name and date. |
| ConversationProperties.AliceAdded | src/bot/handlers/birthday.handlers.ts:124-229 | `Alice`, `15.03.1990`, the family button and `best friend` insert Alice, born 15 March 1990, in the family category with the notes `best friend`. |
| ConversationProperties.CancelKeepsConversation | src/bot/handlers/menu.handlers.ts:33-35 | `menu:main` shows the main menu and leaves the session, state included, as it was. |
| ConversationProperties.CommandsShowMainMenu | src/bot/handlers/menu.handlers.ts:18-30 | `/start` and `/menu` show the main menu with the session untouched. |
| ConversationProperties.AddBirthdayKeepsData | src/bot/handlers/menu.handlers.ts:118-129 | Adding a birthday enters the name step and keeps the data. |
| ConversationProperties.CustomTimeKeepsData | src/bot/handlers/settings.handlers.ts:113-131 | The custom-time button enters its state and keeps the data. |
| ConversationProperties.ImportKeepsData | src/bot/handlers/settings.handlers.ts:151-166 | The import button enters its state and keeps the data. |
| ConversationProperties.DocumentOnlyWhenImporting | src/bot/handlers/settings.handlers.ts:210-216 | A document clears the session in the import state and is ignored in any other. |
| ConversationProperties.ToggleWritesFlag | src/bot/handlers/settings.handlers.ts:61-78 | The toggle writes exactly the flag its identifier carries. |
| ConversationProperties.SetTimeWritesAnyPair | src/bot/handlers/settings.handlers.ts:91-110 | Any two-digit pair is written as it stands, with no range check. |
| ConversationProperties.OutOfRangePair | src/bot/handlers/settings.handlers.ts:91 | `99:99` fits the set-time pattern but not `validateTime`. |
| ConversationProperties.SetLanguageStoresAnyWord | src/bot/handlers/settings.handlers.ts:26-48 | The settings and first-run language buttons (`src/bot/handlers/language.handlers.ts:9-33`) store any word, supported or not, with the session untouched. |
| ConversationProperties.ListPages | src/bot/handlers/menu.handlers.ts:75-116 | Page n of a non-empty list shows that page's keyboard. An empty list shows only add and back. |
| ConversationProperties.ListStartsAtPageOne | src/bot/handlers/menu.handlers.ts:38-40 | The list button behaves as page 1. |
| ConversationProperties.UpcomingTruncation | src/bot/handlers/menu.handlers.ts:131-183 | Over a 30-day window: the first ten records in order, all of them when fewer, and the count of the rest, which is positive exactly past ten; add and back below. |
| ConversationProperties.CustomTimeIgnoredAsRegistered | src/bot/bot.ts:29-33 | As registered, text in the custom-time state is ignored. |
| ConversationProperties.CustomTimeWritten | src/bot/handlers/settings.handlers.ts:201-253 | As intended, a valid time typed in that state is written as typed and clears the session on success; an invalid one changes nothing. |
| ConversationProperties.RegistrationDropsCustomTime | src/bot/bot.ts:29-33 | The two dispatches differ on every valid custom time. |
| ConversationProperties.HalfPastNine | src/bot/handlers/settings.handlers.ts:117 | `09:30` is such a time. |

## Left out

- Telegraf itself is out: middleware chaining, `next()`, `answerCbQuery` and message editing versus sending. Which handler takes an update is modelled by `Conversation.Dispatch`, and the text-handler order by `Conversation.TextStepAsRegistered`.
- Persistence is out. Prisma calls are reduced to the `World` snapshot (records by id, the sender's list, the upcoming records, the current year) and one `Ok`/`Fail` outcome per write. A read that throws (`getBirthdayById`, `getBirthdaysByUserId`) is not modelled.
- The clock is a parameter: the current year is `World.currentYear`. Time zones are out.
- `src/utils/helpers.ts` is not part of this model: formatting, ages and `sortBirthdaysByProximity`. The order of the list and the upcoming records is whatever `World` gives.
- Message texts and button captions are out. Captions are abstract labels and screens are constructors.
- The language and authentication middlewares are out, except that an update without a sender is answered with the authentication error and goes no further. Creating the user record, and a database error while looking it up, are out.
- Export and import are stubs in the source. They are modelled as the screens they show and the state they clear.
- `cleanupSessions` is out: it does nothing in the source.
- Commands are given as events. Recognising `/start` and `/menu` in message text is out.
- Concurrency between updates of different users is out: each step is atomic.
- Strings.ParseDigits: `parseInt` of very long digit strings loses precision above 2^53. The model reads every digit string exactly.
- Locales.Lower: `toLowerCase` is modelled for ASCII letters only.
- Locales.Translate: tables are JSON values, so property lookups that reach JavaScript prototype members (`constructor`, `__proto__`) are out. So are lookups into a string (`length`, character indices), and the locale files hold no arrays, so the value type has none.
- Sessions.GetData: session data is a map of strings to values. A key that names an inherited member of a JavaScript object (`constructor`, `toString`) reads undefined here, where the source would read the inherited function.
- Conversation.DateText: a date stored under `birthdayId` renders in the view button as a stand-in text, not as `Date.prototype.toString`. No session the bot reaches stores one (`ConversationProperties.NumericIdsKept`).
- Validators.ValidateName: the length is counted in UTF-16 code units as JavaScript does. Surrogate pairs are modelled through the code point, and lone surrogates are out.

## Findings

| source | as written | input that shows it | evidently intended | confidence | as-written member | corrected member |
|---|---|---|---|---|---|---|
| src/bot/bot.ts:29-33 | The birthday handlers register `bot.on("text")` before the settings handlers do (src/bot/handlers/birthday.handlers.ts:96-121). The birthday text handler has no case for `setting_custom_time` and never passes the update on, so the settings text handler (src/bot/handlers/settings.handlers.ts:201-207) is never reached and `handleCustomTimeInput` never runs. | Press `settings:custom_time`, then send the text `09:30`. | The typed time is validated and stored as the notification time, and the session is cleared, as `handleCustomTimeInput` does. | high; not executed | Conversation.TextStepAsRegistered, ConversationProperties.CustomTimeIgnoredAsRegistered | Conversation.TextStep, ConversationProperties.CustomTimeWritten |
