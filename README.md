# ArborAlert reminder core, modelled in Dafny

ArborAlert is a Discord bot. Every morning it logs each registered user in to
the Arbor school portal and scrapes the assignments page. It then replaces
that user's pending reminders with one row per dated assignment whose
reminder day, `reminder_days` before the due date, is still ahead. Once an
hour it messages the users whose reminders fall on that day and marks those
reminders sent.

This project models the three parts of the bot that do that work.

- **`process_document` and `parse_assignments_and_schedule`** in
  `arbor_processor.py` (modules `Text`, `Dates`, `Formats`, `Processor`,
  `LineForms`, `SectionEnd`).
  - `process_document` cuts the section between `Overdue Assignments` and
    `Submitted Assignments` out of the page.
  - `parse_assignments_and_schedule` walks that section line by line with an
    index cursor. It reads three layouts:
    - an inline entry, `7X/Ar: Mask (Due 25 Feb 2025)`;
    - a `code: title` header followed by a `Due: YYYY-MM-DD` line;
    - a legacy title containing ` - `, followed later by `Due: D/M/YYYY`.
  - For each dated assignment it adds a reminder row.
  - The four regular expressions are written out as recognisers, with
    Python's greedy, lazy and backtracking behaviour. So are the three
    `strptime` grammars and the `timedelta` arithmetic on the proleptic
    Gregorian calendar. The arithmetic raises `OverflowError` outside years
    1..9999, and that error is not caught per line.
  - The loop is an imperative `while` over a `ReminderStore` object.
    - `Processor.ParseAndSchedule` is proved to leave the store as the
      function `Processor.Parsed` says.
    - `Processor.ProcessDocument` is proved to leave it as
      `Processor.Process` says. Both cut the section as the code does
      (`Processor.SectionAsWritten`).
- **The `users` and `reminders` tables** of `database.py` (module `Store`).
  - They are the class `ReminderStore`: two sequences of rows in rowid order.
  - Each SQL statement the bot issues is a function on rows, and the class's
    methods apply it in place.
- **One pass of `check_reminders` and the per-user loop of
  `schedule_daily_fetch`** in `reminder_system.py` (module `Sweep`). Both are
  methods with loops over the store, proved against the fold functions
  `Sweep.Delivered`, `Sweep.MarkAll` and `Sweep.FetchAll`.

## Inputs the model takes as parameters

The clock, Discord and the browser are not part of the model. They enter as
parameters:

- `now` (a date plus the microseconds since its midnight) and `today` replace
  `datetime.now()`. The code reads the clock afresh for each dated line
  (arbor_processor.py:113, :147, :176). The model takes one `now` for a
  whole parse, and one for a whole daily fetch.
- `delivered[k]` says whether the `k`-th reminder of a pass reached its user.
  It folds together `bot.fetch_user`, `int(discord_id)`, the embed and
  `user.send`.
- `pages[k]` is the page text that `process_document` reads back from
  `arbor_text.txt` for the `k`-th user. The file is read in text mode, so the
  text already has every `\r\n` and lone `\r` turned into `\n`. It is `None`
  when `process_arbor_data` raised before reaching `process_document`: no
  credentials, a failed decryption, or a browser or login error.

## Behaviour worth knowing

- **An `OverflowError` ends the parse.** `strptime` errors are caught per
  line, but an `OverflowError` from `due_date - timedelta(days=reminder_days)`
  is not.
  - It ends the parse with the user's pending reminders already deleted and
    the rows before it already added.
  - `process_document` then returns False.
  - See `Processor.Collect` and `Processor.ProcessDocument`.
- **A stored lead time of 0 reads back as 1.** `get_reminder_days` treats a
  stored 0 as unset (`if result and result[0]`), exactly as it treats a
  missing user.
  - See `Store.ReminderDays` and `Store.SetDaysThenRead`.
- **A header whose ISO date does not exist advances one line, not two.** The
  next line is then read by the legacy patterns, with `current_assignment`
  already set to the header's label.
  - See `LineForms.HeaderBadIsoLines`, with `Due: 2025-02-30`
    (`LineForms.NoSuchIsoDay`).
- **A legacy due date attaches to any held name.** A `Due: D/M/YYYY` date
  attaches to whatever `current_assignment` holds, not only to a legacy
  title. That includes the label of an earlier inline or header entry.
  `current_assignment` is never cleared, so the name stays held across blank
  lines and lines no pattern reads, such as `Set …` lines.
  - See `LineForms.HeldDueLine`, `LineForms.UnreadLine` and
    `LineForms.LegacyLinesAcrossSet`.
- **The section is cut short.** The section is sliced at an index found
  before the colons were inserted. The model computes it the same way
  (`Processor.SectionAsWritten`); see "Findings".

## Model

| member | source | states |
|---|---|---|
| Text.RunEnd | arbor_processor.py:98 | a greedy run of one character class (`[\w\d]+`, `\s+`, `\d`) stops exactly at the first character outside the class |
| Text.FindFrom | arbor_processor.py:52-53 | the search from a position gives -1 when the text does not occur there or later, else the first place it occurs |
| Text.Find | arbor_processor.py:52-53 | `str.find`: -1 exactly when the text occurs nowhere, otherwise its first occurrence |
| Text.FindFirstAt | arbor_processor.py:60 | a heading that occurs at `k` with its first letter absent before `k` is found at `k` |
| Text.StripShape | arbor_processor.py:61-62 | `strip()` returns the middle of the text, with only whitespace removed on either side, and it neither starts nor ends with whitespace |
| Text.Strip | arbor_processor.py:61-62 | `strip()` never lengthens the text; `Text.StripShape` gives its exact result |
| Text.StripIdempotent | arbor_processor.py:62 | stripping a stripped text changes nothing |
| Text.StrippedIsFixed | arbor_processor.py:91 | a text with no whitespace at either end is its own `strip()` |
| Text.StripAround | arbor_processor.py:61-62 | whitespace around a text that has none at its ends is exactly what `strip()` removes |
| Text.SplitLines | arbor_processor.py:85 | `split('\n')` gives at least one piece and no piece contains a newline |
| Text.JoinSplit | arbor_processor.py:85 | joining the pieces of `split('\n')` with newlines gives back the text |
| Text.SplitJoin | arbor_processor.py:85 | splitting newline-free lines joined by newlines gives back the lines |
| Text.SplitPrefix | arbor_processor.py:85 | the first line of a text is the part before its first newline, and the rest are the lines after it |
| Text.ReplaceAll | arbor_processor.py:58-59 | `replace` of a pattern by itself changes nothing, and a replacement at least as long never shortens the text |
| Text.ReplaceFirst | arbor_processor.py:62 | `replace(p, q, 1)` changes nothing when `p` is absent, and otherwise keeps the text before the first `p` and changes the length by `len(q) - len(p)` |
| Text.PySlice | arbor_processor.py:61 | `s[a:b]` is the ordinary slice for bounds in range, counts negative bounds from the end, and is empty when `b <= a` |
| Text.ReplaceAbsent | arbor_processor.py:58-59 | `replace` leaves a text unchanged when one letter of the pattern is missing from it |
| Text.ReplaceFront | arbor_processor.py:58 | a pattern at the front is replaced there and replacement continues after it |
| Text.ReplaceAfter | arbor_processor.py:59 | `replace` leaves alone a prefix that cannot hold the pattern |
| Dates.ToOrdinal | arbor_processor.py:110 | every valid date has a positive day number; `Dates.OrdinalRoundTrip` and `Dates.OrdinalOrder` show the numbering is exact |
| Dates.FromOrdinal | arbor_processor.py:110 | every day number in range names exactly one valid date with that number |
| Dates.OrdinalRoundTrip | arbor_processor.py:110 | every valid date has a day number in range, and converting back gives the same date |
| Dates.OrdinalOrder | arbor_processor.py:113 | calendar order and day-number order agree, and so do date equality and number equality |
| Dates.MinusDays | arbor_processor.py:110 | `date - timedelta(days)` fails (OverflowError) exactly when the result leaves 0001-01-01..9999-12-31, else it is the date `days` earlier |
| Dates.MinusDaysNotLater | arbor_processor.py:110 | subtracting a non-negative number of days never gives a later date |
| Dates.MidnightAfter | arbor_processor.py:113 | the midnight of a reminder day is after `now` exactly when that day is later than today |
| Dates.Format | arbor_processor.py:117-118 | `strftime('%Y-%m-%d')` gives ten characters with `-` at positions 4 and 7 |
| Dates.FormatThenParse | arbor_processor.py:141 | parsing the `%Y-%m-%d` text of a date gives the date back |
| Dates.ParseThenFormat | arbor_processor.py:151 | an ISO text that parses is exactly the `%Y-%m-%d` text of its date, so storing `due_date_str` stores the formatted due date |
| Dates.FormatInjective | database.py:191 | two dates with the same stored text are the same date |
| Dates.PaddedValue | arbor_processor.py:117 | a number written zero-padded to a width it fits reads back as itself |
| Dates.ValuePadded | arbor_processor.py:141 | a digit string is the zero-padded text of its value |
| Dates.ParseIso | arbor_processor.py:141 | `strptime(s, '%Y-%m-%d')` succeeds exactly on `YYYY-MM-DD` text naming a calendar day |
| Dates.MakeDate | arbor_processor.py:141 | a year, month and day make a date exactly when the calendar has that day |
| Dates.MonthOfAbbrev | arbor_processor.py:107 | `%b` accepts exactly the three-letter English month abbreviations, in any letter case, giving the month's number |
| Dates.DayMonYearDate | arbor_processor.py:107 | `%d %b %Y` succeeds exactly when the month name is known and the numbers name a calendar day, and gives that day |
| Dates.DayMonYearExample | arbor_processor.py:96-107 | `25 Feb 2025` and `25 FEB 2025` read as 2025-02-25, and `30 Feb 2025` is rejected |
| Dates.DmyDate | arbor_processor.py:170 | `%d/%m/%Y` succeeds exactly when the numbers name a calendar day, and gives that day |
| Formats.CodeEnd | arbor_processor.py:98 | the subject code `[\w\d]+/[\w\d]+` is matched only when followed by `:` |
| Formats.CodeRecognised | arbor_processor.py:98 | any two word runs joined by `/` and followed by `:` are recognised as the code |
| Formats.DueTailAt | arbor_processor.py:98 | a matched `\s*\(Due\s+D Mon YYYY\)` tail has a 1-2 digit day, a three-letter month and a four-digit year |
| Formats.FirstDueTail | arbor_processor.py:98 | the lazy `(.+?)` ends the title at the first position where the due tail matches, and at no earlier one |
| Formats.MatchInline | arbor_processor.py:98 | a matched inline entry starts with its subject code and `:`, and has a non-empty title and a well-formed date |
| Formats.InlineTitle | arbor_processor.py:98-101 | the matched title lies after the blanks and before the first due tail |
| Formats.NoDueTailBefore | arbor_processor.py:98 | no due tail starts inside a title without `(` |
| Formats.FirstTailAfterTitle | arbor_processor.py:98 | the title is ended by the first due tail after it |
| Formats.InlineRecognised | arbor_processor.py:98-102 | `code: title (Due D Mon YYYY)` is matched with exactly that code, title and date, whatever `\s+` runs stand after the colon, inside the due tail after `(Due`, after the day and after the month, and whatever `\s*` run stands before `(` |
| Formats.IsLegacyTitle | arbor_processor.py:161-162 | a line containing ` - ` that starts with neither `Due` nor `Set`; `LineForms.LegacyLines` shows it is held as the name |
| Formats.MatchHeader | arbor_processor.py:128 | a matched header starts with its code and `:`, and its title is the non-empty rest of the line |
| Formats.HeaderRecognised | arbor_processor.py:128 | `code: title` is matched with exactly that code and title |
| Formats.MatchIsoDue | arbor_processor.py:132 | a matched due line is `Due:`, blanks, and a `YYYY-MM-DD` text that ends the line |
| Formats.IsoDueRecognised | arbor_processor.py:132 | `Due:`, blanks and an ISO-shaped date are matched, giving that date text |
| Formats.LegacyDueAt | arbor_processor.py:165 | a legacy due match at a position starts with `Due:` there and has a well-formed `D/M/YYYY` group |
| Formats.SearchLegacyDue | arbor_processor.py:165 | `re.search` takes the leftmost position where the legacy due text matches |
| Formats.LegacyDue | arbor_processor.py:165 | a found legacy due text has a well-formed `D/M/YYYY` group |
| Formats.LegacyDueRecognised | arbor_processor.py:165 | `Due: D/M/YYYY` after text without `D` is found, with exactly its day, month and year |
| LineForms.InlineParens | arbor_processor.py:98 | every inline entry has the `(` and the `)` of its due tail |
| LineForms.NoParenNoInline | arbor_processor.py:98 | a line without `(` is no inline entry |
| LineForms.NoCloseNoInline | arbor_processor.py:98 | a line without `)` is no inline entry |
| LineForms.LegacyColon | arbor_processor.py:165 | a legacy due text has a `:` |
| LineForms.NoColon | arbor_processor.py:128 | a line without `:` is neither a header nor a legacy due line |
| LineForms.DueNotHeader | arbor_processor.py:128 | a line starting with `Due:` is never a header |
| LineForms.HeaderLineRead | arbor_processor.py:128 | a header line is no inline entry and is read as its code and title |
| LineForms.IsoLineRead | arbor_processor.py:130-132 | a `Due: YYYY-MM-DD` line of a real date is read as that date's text |
| LineForms.TitleLineRead | arbor_processor.py:98-166 | a title without `(` or `:` matches none of the patterns |
| LineForms.LegacyDueLineRead | arbor_processor.py:165 | a `Due: D/M/YYYY` line is neither inline, header nor legacy title, and its date group is found |
| LineForms.SplitStepAt | arbor_processor.py:128-156 | a header followed by an ISO due line of a real date yields that date under `code: title` and moves the cursor by two |
| LineForms.LegacyKindAt | arbor_processor.py:160-166 | a line that is neither inline nor header is read by the legacy patterns only |
| LineForms.InlineLine | arbor_processor.py:98-124 | an inline entry sets `current_assignment` to `code: title`, moves the cursor by one, and yields a date exactly when `%d %b %Y` accepts it |
| LineForms.HeaderThenIsoLines | arbor_processor.py:126-156 | a header and an ISO due line of a real date yield that date under `code: title` and move the cursor past both |
| LineForms.LegacyLines | arbor_processor.py:160-186 | a legacy title is held, and the next `Due: D/M/YYYY` line yields its date under that title exactly when `%d/%m/%Y` accepts it |
| LineForms.LegacyStepAt | arbor_processor.py:160-186 | a line read by the legacy patterns moves the cursor by one and holds its title, else its header's label, else the name already held |
| LineForms.HeldDueLine | arbor_processor.py:164-186 | a `Due: D/M/YYYY` line moves the cursor by one and keeps `current_assignment`, whichever line set it; with nothing held nothing is found, and with a name held the date is found under it exactly when `%d/%m/%Y` accepts it |
| LineForms.UnreadLine | arbor_processor.py:90-186 | a non-blank line that no pattern reads moves the cursor by one, keeps `current_assignment` and finds nothing |
| LineForms.SetLine | arbor_processor.py:161-166 | a `Set …` line without `(` or `:` is no legacy title, even with ` - ` in it, and leaves `current_assignment` as it was |
| LineForms.LegacyLinesAcrossSet | arbor_processor.py:160-186 | a legacy title stays held across a `Set …` line, and the `Due: D/M/YYYY` line after that yields its date under the title exactly when `%d/%m/%Y` accepts it |
| LineForms.IsoShapedLineRead | arbor_processor.py:130-132 | `Due:`, blanks and `YYYY-MM-DD`-shaped text is read as that text, whether or not it names a real day |
| LineForms.HeaderNoDateKind | arbor_processor.py:128-161 | a header whose next line matches the ISO due pattern with no real date is read as the header's label over the legacy reading of the line |
| LineForms.HeaderBadIsoLines | arbor_processor.py:128-166 | a header followed by `Due: YYYY-MM-DD` naming no real day is not consumed as a pair: the cursor moves by one and the header's label is held, unless the line is itself a legacy title |
| LineForms.NoSuchIsoDay | arbor_processor.py:132-141 | `2025-02-30` matches the ISO due pattern but `strptime('%Y-%m-%d')` rejects it |
| Processor.KindAt | arbor_processor.py:91-99 | the reading of a line has real dates only, and a header-and-due-line reading never occurs on the last line |
| Processor.HeaderKind | arbor_processor.py:128-161 | a header and its next line are read as a pair exactly when that line matches the ISO due pattern and its date parses; a header whose next line matches but names no real date leaves its label held and the line goes to the legacy patterns |
| Processor.LegacyDate | arbor_processor.py:165-170 | a legacy date, when it parses, is a real date |
| Processor.StepOf | arbor_processor.py:86-186 | the loop moves by two exactly over a header and due-line pair, and by one otherwise; every date it finds is real and filed under the name then held; a held name is never dropped; a blank line changes nothing; a legacy reading holds its title, else the header's label, else the name already held, and finds a date exactly when a non-empty name is held and the `D/M/YYYY` text parses |
| Processor.StepAt | arbor_processor.py:89-186 | the cursor never moves past the last line |
| Processor.StepCursor | arbor_processor.py:92-94 | a blank line is skipped with `current_assignment` unchanged and nothing found; a move by two needs a header and an ISO due line |
| Processor.Kinds | arbor_processor.py:85-91 | there is one reading per line of the section, each with real dates only, and the last line is never read as a header with a due line |
| Processor.Founds | arbor_processor.py:89-186 | the dated assignments the walk meets all carry real dates |
| Processor.Schedule | arbor_processor.py:110-119 | an added row belongs to the user and carries the assignment's name |
| Processor.ScheduleSpec | arbor_processor.py:110-119 | the arithmetic raises exactly when the reminder day is off the calendar; a row is added exactly when that day is later than today; the row reads back as the due date and that day |
| Processor.Actions | arbor_processor.py:105-119 | there is one action per dated assignment |
| Processor.Collect | arbor_processor.py:105-122 | the walk reports an overflow exactly when some date's arithmetic raised |
| Processor.ApplyKeeps | arbor_processor.py:114-119 | every row the walk adds is a row that `Schedule` inserts for one of the dates |
| Processor.RunPending | arbor_processor.py:114-119 | every row the walk adds is an unsent reminder of the page's user |
| Processor.Remind | arbor_processor.py:105-122 | one date's handling appends exactly the row its action inserts and reports an overflow exactly when the arithmetic raised |
| Processor.LineStep | arbor_processor.py:90-186 | one pass of the loop body takes the step that `StepOf` gives and keeps the walk's bookkeeping |
| Processor.WalkLines | arbor_processor.py:89-186 | the `while` loop adds exactly the rows the actions give, in order, stopping at the first overflow |
| Processor.ParseAndSchedule | arbor_processor.py:77-186 | the store afterwards is `Parsed`: the user's pending rows deleted, then the walk's rows appended, users unchanged |
| Processor.HasMarkers | arbor_processor.py:52-56 | both headings occur on the page; the section exists exactly then (`SectionAsWritten`) |
| Processor.Colonised | arbor_processor.py:58-59 | each heading gains a colon, so the text only grows (`SectionEnd.HeadingsColonised` shows each gains exactly one) |
| Processor.Tidy | arbor_processor.py:61-62 | strip, drop the first `Assignments that are due:`, strip again; the result is no longer than the slice |
| Processor.SectionAsWritten | arbor_processor.py:52-62 | the section as the code computes it exists exactly when both headings occur on the page |
| Processor.Section | arbor_processor.py:52-62 | the corrected section exists exactly when both headings occur on the page |
| Processor.Process | arbor_processor.py:47-75 | `process_document` on a page: False with the rows untouched when a heading is missing; otherwise the parse of the section as written, True unless it overflowed |
| Processor.ProcessDocument | arbor_processor.py:47-75 | the store afterwards is `Process` of the section as the code cuts it; a page without both headings returns False and touches nothing |
| Processor.Label | arbor_processor.py:103 | `f"{subject_code}: {assignment_name}"`; `LineForms.InlineLine` and `LineForms.HeaderThenIsoLines` show it is the held and stored name |
| Processor.Run | arbor_processor.py:85-186 | the rows the walk over the lines adds and whether it overflowed; `Processor.RunPending` shows every row is an unsent reminder of the user |
| Processor.Parsed | arbor_processor.py:77-186 | the reminders after `parse_assignments_and_schedule`; `Processor.ParsedReplaces` and `Processor.ParsedFutureOnly` state what they hold |
| Processor.ParsedReplaces | arbor_processor.py:82-119 | after a parse, the user's pending reminders are exactly the rows parsed from the page, whatever they were before |
| Processor.ProcessKeepsOthers | arbor_processor.py:77-119 | processing one user's page leaves every other user's pending reminders and every sent row unchanged |
| Processor.SentAppended | database.py:171 | appending unsent rows leaves the sent rows unchanged |
| Processor.ProcessIdempotent | arbor_processor.py:47-75 | processing the same page twice at the same moment leaves the store as processing it once |
| Processor.ParsedFutureOnly | arbor_processor.py:110-119 | every pending row left for the user reminds on a day after today, `reminder_days` before its real due date |
| Store.WithoutPending | database.py:159-164 | `DELETE … WHERE discord_id = ? AND sent = 0` keeps exactly the rows that are not the user's pending ones |
| Store.PendingRows | database.py:152 | the user's pending rows are exactly the rows with that user and `sent = 0` |
| Store.DueOn | database.py:176-185 | `get_due_reminders` returns the triple of every unsent row reminding on the date, and only those |
| Store.MarkSent | database.py:187-195 | `mark_reminder_sent` sets `sent` on exactly the rows with the given user, name and due date, and changes nothing else |
| Store.WithoutUserRows | database.py:106 | deleting the user's reminders keeps exactly the other users' rows |
| Store.WithoutUser | database.py:109 | deleting the user keeps exactly the other users |
| Store.FirstUser | database.py:138-139 | `fetchone()` gives the first row with the id, or none exactly when no row has it |
| Store.ReminderDays | database.py:135-146 | the lead time read back is never 0; it is 1 for an unknown user, and any other value than 1 is the stored lead time of a row with the id |
| Store.UserExists | database.py:115-121 | `user_exists` holds exactly when `fetchone()` finds a row with the id |
| Store.UserReminders | database.py:148-157 | `get_user_reminders` is ordered by due date and is a permutation of the user's pending rows |
| Store.Upsert | database.py:75-99 | saving credentials keeps the table's length for a known id and adds one row otherwise, and never changes an existing row's id or lead time |
| Store.SetDays | database.py:124-133 | `UPDATE users SET reminder_days` changes the lead time of exactly the rows with the id |
| Store.SetCredentials | database.py:86-89 | the credentials update changes exactly the rows with the id |
| Store.AllUsers | database.py:197-203 | `get_all_users` lists every user's id in table order |
| Store.TextLeTotal | database.py:152 | the text order of `ORDER BY due_date` relates any two texts |
| Store.TextLeTrans | database.py:152 | the text order is transitive |
| Store.InsertByDue | database.py:152 | inserting into a list ordered by due date keeps it ordered and adds exactly that row |
| Store.SortByDue | database.py:152 | the result is ordered by due date and is a permutation of the input |
| Store.Views | database.py:152 | each selected row is the `(assignment_name, due_date, reminder_date)` of its table row |
| Store.UserRemindersSpec | database.py:148-157 | `get_user_reminders` is ordered by due date, is a permutation of the user's pending rows, and holds a row exactly when the user has such a pending reminder |
| Store.ClearPending | database.py:159-164 | clearing leaves the user no pending reminders and leaves every other user's as they were |
| Store.ClearKeepsSent | database.py:159-164 | clearing never removes a sent row |
| Store.ClearIdempotent | database.py:159-164 | clearing twice is clearing once |
| Store.ClearAppended | database.py:162 | clearing removes rows just added for the user as well |
| Store.PendingAppended | database.py:171 | appending the user's unsent rows adds exactly them to that user's pending rows and nothing to anyone else's |
| Store.AddPending | database.py:166-174 | `add_reminder` adds its row to the user's pending rows only |
| Store.MarkSentIdempotent | database.py:187-195 | marking a triple sent twice is marking it once |
| Store.MarkSentRemovesDue | database.py:180 | a marked triple is no longer due on any date |
| Store.SetDaysThenRead | database.py:124-146 | after setting the lead time of an existing user, it reads back as set, except that 0 reads back as 1 |
| Store.SetDaysUnknown | database.py:127-130 | setting the lead time of an unknown user changes nothing |
| Store.UpsertSaves | database.py:75-99 | after saving, the user exists, every row with the id holds the new credentials, and other users are unchanged |
| Store.UpsertNewUserDays | database.py:92-95 | a newly inserted user's lead time reads back as the column default, 1 |
| Store.DeleteUserRemovesAll | database.py:101-113 | after deletion the user does not exist and has no reminders; other users' pending reminders are unchanged |
| Store.PendingWithoutUser | database.py:106 | deleting a user's reminders empties their pending list and leaves everyone else's |
| Store.ReminderStore.constructor | database.py:9-35 | both tables start empty |
| Store.ReminderStore.SaveUserCredentials | database.py:75-99 | the users table becomes the update-or-insert of the credentials; reminders are unchanged |
| Store.ReminderStore.DeleteUserAccount | database.py:101-113 | both tables lose the user's rows; afterwards the user does not exist and has no reminders |
| Store.ReminderStore.SetReminderDays | database.py:124-133 | the lead time of exactly the rows with the id changes, and reads back as set (0 as 1); an unknown id changes nothing |
| Store.ReminderStore.ClearUserReminders | database.py:159-164 | the user's pending rows are deleted and sent rows kept |
| Store.ReminderStore.AddReminder | database.py:166-174 | one unsent row is appended |
| Store.ReminderStore.MarkReminderSent | database.py:187-195 | the reminders become `MarkSent` of the triple; users are unchanged |
| Sweep.CheckReminders | reminder_system.py:41-57 | one pass fetches today's unsent rows once, returns the delivered triples in order, and marks exactly those sent |
| Sweep.TryEach | reminder_system.py:46-57 | every fetched triple is tried, a failure does not stop the loop, and only delivered triples are marked |
| Sweep.Delivered | reminder_system.py:46-55 | the delivered triples, in fetch order; `Sweep.DeliveredSpec` states which they are |
| Sweep.MarkAll | reminder_system.py:55 | marking each delivered triple in turn keeps the table's length; `Sweep.MarkAllAt` states the rows afterwards |
| Sweep.DeliveredSpec | reminder_system.py:46-55 | a triple counts as delivered exactly when some try of it got through |
| Sweep.MarkAllAt | reminder_system.py:55 | after the pass, a row is sent-flagged exactly when its triple was delivered; every other row is unchanged |
| Sweep.StillDue | reminder_system.py:44-55 | after marking, a triple is due on a date exactly when it was due before and was not marked |
| Sweep.NextPassRetries | reminder_system.py:39-63 | the next pass on the same day retries exactly the triples none of whose tries got through |
| Sweep.PassOnlySends | reminder_system.py:46-57 | a pass changes only the sent flag, never clears it, and sets it exactly on delivered triples |
| Sweep.DailyFetch | reminder_system.py:17-25 | every user is processed in table order, a failed fetch skips only that user, and users are unchanged |
| Sweep.FetchAll | reminder_system.py:20-25 | the per-user loop as a fold, skipping users whose fetch raised; `Sweep.LastOwnStep` and `Sweep.UntouchedBy` state its result |
| Sweep.Fetched | reminder_system.py:23 | one successful fetch is `process_document` on the user's page; `Sweep.FetchedReplaces` and `Sweep.FetchedKeepsOthers` state its effect |
| Sweep.FetchOne | reminder_system.py:21-25 | one pass of the loop body takes the fold one user further: the page goes through `process_document` when it was fetched, and nothing happens when the fetch raised |
| Sweep.FetchedKeepsOthers | reminder_system.py:23 | processing one user's page leaves every other user's pending reminders unchanged |
| Sweep.FetchedKeepsSent | reminder_system.py:23 | processing a page never touches a sent row |
| Sweep.FetchedReplaces | reminder_system.py:23 | a page with both headings gives its user exactly the reminders parsed from it |
| Sweep.UntouchedBy | reminder_system.py:20-25 | a loop of steps none of which reached `u` leaves `u`'s pending reminders unchanged |
| Sweep.SentKept | reminder_system.py:20-25 | a loop of steps that keep sent rows keeps them |
| Sweep.LaterOthers | reminder_system.py:20-25 | steps for other users after the first `m` leave `u`'s pending reminders as the first `m` steps left them |
| Sweep.LastOwnStep | reminder_system.py:20-25 | a user's last successful step decides that user's pending reminders |
| Sweep.FailedUserUntouched | reminder_system.py:22-25 | a user whose fetches all raised keeps their pending reminders |
| Sweep.FetchKeepsSent | reminder_system.py:17-25 | the daily fetch never touches a reminder that was already sent |
| Sweep.OwnPageDecides | reminder_system.py:17-25 | a user fetched last at `k` with a page that has both headings ends with exactly the reminders that page yields, whatever happened to others |
| SectionEnd.HeadingsColonised | arbor_processor.py:58-59 | each heading gains its colon exactly once |
| SectionEnd.HeadingsFound | arbor_processor.py:52-60 | where the headings are found before and after the colons go in |
| SectionEnd.PageShape | arbor_processor.py:52-60 | on a one-entry page, `Submitted Assignments` moves two places right when the colons go in |
| SectionEnd.BothSections | arbor_processor.py:61-62 | slicing to the heading's old place loses the entry's last character, and slicing to its new place keeps the entry |
| SectionEnd.SectionDropsLastCharacter | arbor_processor.py:53-61 | as written, the section of a one-entry page is the entry without its last character |
| SectionEnd.SectionKeepsEntry | arbor_processor.py:52-62 | the corrected section of a one-entry page is exactly the entry |
| SectionEnd.InlineCut | arbor_processor.py:98 | an inline entry ends in `)` and is matched, but without that `)` it is no inline entry |

## Findings

| source | as written | input that shows it | evidently intended | confidence | as-written member | corrected member |
|---|---|---|---|---|---|---|
| arbor_processor.py:53-61 | `end_index` is found in the page before the two headings gain their colons. The slice is then cut from the page after. So it stops one character early for each colon inserted before `Submitted Assignments`. | `Overdue Assignments\nAssignments that are due\n7X/Ar: Mask (Due 25 Feb 2025)\nSubmitted Assignments`: the section is `7X/Ar: Mask (Due 25 Feb 2025`. That is no inline entry (`SectionEnd.InlineCut`), so no reminder is scheduled. | cut the section where `Submitted Assignments` is in the text being sliced | not executed | SectionEnd.SectionDropsLastCharacter | SectionEnd.SectionKeepsEntry |

`Processor.SectionAsWritten` is the section as written, and
`Processor.Process`, `Processor.ProcessDocument` and the daily fetch in
`Sweep` use it. `Processor.Section` is the corrected cut, and
`SectionEnd.SectionKeepsEntry` is proved about it.

## Left out

- **File and console I/O.** `arbor_text.txt`, `arbor_processed_text.txt` and
  every `print` diagnostic are not modelled. The section goes straight to the
  parse, and the messages are not modelled.
- **`process_arbor_data`.** The Selenium browser, the login, `sleep`, the
  `arborurl` environment variable and `get_credentials` with Fernet
  decryption are not part of this model. Their combined outcome per user is
  the parameter `pages[k]`: the page text, or `None` when any of them raised.
- `Store.ReminderStore.SaveUserCredentials` stores the password value it is
  given. Fernet encryption and the key in the `KEY` environment variable are
  not modelled.
- **`get_credentials`.** It is not modelled as an operation: its only caller
  is `process_arbor_data`.
- **Schema setup.** `init_db` and `add_reminder_days_column` are folded into
  `Store.ReminderStore.constructor`. The `reminder_days` column, default 1,
  exists from the start. A NULL `reminder_days` (from `set_reminder_days(id,
  None)`) is not modelled: the column is an integer.
- **Database failures.** sqlite errors, connections and transactions are not
  modelled. Each statement takes effect at once and never fails.
- **Scheduling and delivery.** `run_scheduler`, `init_scheduler`, the thread,
  the `07:00` trigger, the `while True` of `check_reminders` and
  `asyncio.sleep(3600)` are not modelled. The model has one pass of
  `check_reminders` and one run of `schedule_daily_fetch`.
  `create_reminder_embed` and Discord delivery are not part of this model;
  their outcome per reminder is the parameter `delivered[k]`.
- **One clock reading per run.** `datetime.now()` is read again for each
  dated line and each user. The model reads it once per parse and once per
  daily fetch, so a parse or a fetch that runs across midnight is not
  modelled.
- **Newline translation.** Reading `arbor_text.txt` in text mode turns `\r\n`
  and `\r` into `\n`. The model starts from the text after that translation.
- **Concurrency.** Concurrent runs for the same user are not modelled. Every
  operation runs alone.
- **Unicode in patterns.** `\w` and `\d` are modelled as ASCII. Python also
  lets them match other Unicode letters and digits.
- `Dates.Format`: years below 1000 are zero-padded to four digits. The
  platform's `strftime('%Y')` may not pad them. Every date the bot stores
  today lies well above year 1000.
- **Which row `fetchone()` and `ORDER BY` return.** sqlite returns unordered
  and tied rows in table order in practice, and the model takes table order.
  - `Store.FirstUser` takes the first user row with the id.
  - `Store.UserRemindersSpec` states only what every order sorted by
    `due_date` shares: sorted, and a permutation of the pending rows. The
    model's `Store.SortByDue` puts tied rows in one fixed order.
- `Sweep.CheckReminders` requires one delivery outcome per fetched row. The
  `delivered` parameter stands for the Discord calls. A failure of
  `mark_reminder_sent` itself is a database failure and is not modelled.
