# SatanBonchBot timetable core, in Dafny

SatanBonchBot automates a student's side of the SPbSUT portal (lk.sut.ru / cabinet.sut.ru).
It scrapes the portal's HTML timetable into lesson records. It renders those records as text
for a terminal viewer and a Telegram bot. A background "clicker" presses the attendance
button during lesson hours. A small client reads portal credentials from `options.txt` and
judges the portal's answers to log-in, message and upload requests.

This project models that core and proves what it promises:

- `Schedule` (schedule.dfy) is the parse core of `BonchAPI.get_timetable` and its teacher and
  classroom copies. The HTML page is taken as already reduced to the texts of the spans the
  scraper reads. A `GroupSource` says where a record's group comes from: the group directory
  for a group query, or the block's own `group` span for a teacher or classroom query. The
  nested row/day/block/week loops are methods proved equal to a recursive specification.
  That specification is proved to emit one record per listed week, with the right date and
  fields. It is proved to raise exactly when a week token is not an integer, when a block
  emits a record and its group id is missing from the directory, when a seventh day column
  holds a lesson block, or when the table has no `tbody` (the calendar's year range is not
  modelled, see "## Left out"). The result is
  proved to be a stable sort by (week, weekday).
- `Agenda` (agenda.dfy) models the `all_groups_timetable` dict comprehension,
  `parse_lesson_time`, and the `teacher_timetable` / `classroom_timetable` filters.
- `Presenter` (presenter.dfy) models `format_output`: grouping by week, merging parallel
  sections into one entry, sorting entries, and the text layout with its date headings.
- `Bonch` (bonch.dfy) models the state of a `BonchAPI` object: `set_current_week`, the arrow-key
  week clamp, `change_group_name`, and `read_options`.
- `Options` (options.dfy) models the `key=value` reading loop shared by `read_options` and
  `SendMsgAPI.__init__`.
- `SendMsg` (sendmsg.dfy) models the `SendMsgAPI` credentials and the verdicts of `login`,
  `send_msg` and `upload_file`.
- `Clicker` (clicker.dfy) models main.py's `LessonController`: the time-of-day gate, the
  running flag, and the click loop.
- `Bot` (bot.dfy) models main.py's week-navigation buttons, their callback parse, and
  `format_timetable`.
- `Text` and `Order` (text.dfy, order.dfy) model the Python built-ins the core relies on.
  `Text` covers `str.strip`, `str.split`, `str.replace`, `int()` and `str()`. `Order` covers the
  stable `sorted()` with tuple keys, and dicts of lists built by appending.

Python exceptions are the `Raised` case of a `Result`; `None` is the `None` case of an
`Option`. Dates are integer day numbers. `datetime.now()` is a parameter (`today`, `now`).
Calendar parsing and formatting are parameters too (`parseDate`, `dateText`). An HTTP
request is reduced to its outcome, `Failed` or `Body(text)`.

The model keeps these details of the code as written:

- A lesson block without a subject is not skipped. Its records carry no subject
  (TImetabels.py:190).
- The room is the text between the first and the second `:`, not everything after the first
  `:` (TImetabels.py:199).
- A teacher string is split at `;` only, not also at `,` (TImetabels.py:497, 508).
- `set_current_week` gives week -1 when `today` equals `first_day` exactly (TImetabels.py:76-82).
- A `None` group makes `format_output` raise TypeError in `', '.join` (TImetabels.py:530).

## Model

| member | source | states |
|---|---|---|
| Schedule.Inner | TImetabels.py:178 | `s[1:-1]` is what remains between the first and last character; it is empty for texts of length at most 2 |
| Schedule.SlotOfLabel | TImetabels.py:169-178 | a label `n (t)` gives slot number `n` and time `t`, except that number `7` always gets `20:00-21:35` |
| Schedule.SlotOfNumber | TImetabels.py:169-178 | a label with a single token gives that number and no time, except that `7` gets `20:00-21:35` |
| Schedule.SlotOfBlank | TImetabels.py:169-172 | a blank label gives neither a number nor a time |
| Schedule.ReadSlot | TImetabels.py:169-178 | the label-reading statements compute the slot the specification gives |
| Schedule.RoomOf | TImetabels.py:198-199 | a room exists exactly when the room span exists and contains `:` |
| Schedule.RoomAfterColon | TImetabels.py:199 | with one colon, the room is the trimmed text after it with every `; Б22` removed |
| Schedule.RoomBetweenColons | TImetabels.py:199 | with further colons, the room is only the trimmed text between the first and second colon, with `; Б22` removed |
| Schedule.RoomWithBuilding | TImetabels.py:199 | a room label `...: r; Б22` gives exactly the room `r`, its building suffix removed |
| Schedule.Weeks | TImetabels.py:210 | one parse result per week token |
| Schedule.StripAnnotation | TImetabels.py:202 | `strip('()')` removes the parentheses around a week list and keeps its `н` |
| Schedule.RemoveMarks | TImetabels.py:202 | removing `н` and `*` leaves the bare comma-separated numbers |
| Schedule.WeekTokensOf | TImetabels.py:201-205 | the annotation `(w1,...,wk н)` yields exactly the texts of `w1..wk` |
| Schedule.WeeksOf | TImetabels.py:201-210 | an annotation of the weeks `ws` parses back to `ws`, in order |
| Schedule.NoWeeks | TImetabels.py:201-207 | a missing annotation, or one whose text is empty after `strip('()')` and removing `н` and `*`, contributes no records |
| Schedule.MarksOnly | TImetabels.py:201-204 | an annotation of only `н` and `*` marks, bare or in parentheses (`()`, `(н)`, `*`), cleans to the empty text |
| Schedule.Record | TImetabels.py:209-225 | a record raises exactly when its week token is not an integer or its group cannot be resolved |
| Schedule.RecordFits | TImetabels.py:211-225 | a record's date is `first_day + 7*week + weekday`, its day name is the weekday's, and its group comes from the block's source |
| Schedule.BlockOfWeeks | TImetabels.py:188-225 | a block listing weeks `ws` emits one record per week in list order, with date `first_day + 7*w + weekday` and subject, type, teacher, room, slot and time copied |
| Schedule.BlockOfWeeksOk | TImetabels.py:209-225 | the records of a block listing weeks `ws` are exactly the records of those weeks, in order |
| Schedule.BlockRaised | TImetabels.py:209-214 | a block raises exactly when a week token does not parse, or when it emits records and the group id is missing from the directory |
| Schedule.BlockEach | TImetabels.py:209-225 | a block that does not raise emits one well-formed record per week token, in order |
| Schedule.WeekRecordsEach | TImetabels.py:209-225 | the records of a week list correspond one to one, in order, to its weeks |
| Schedule.ConcatRaised | TImetabels.py:164-225 | a concatenation of loop passes raises exactly when one of its passes raises |
| Schedule.ConcatFit | TImetabels.py:164-225 | concatenating well-formed records keeps them well-formed |
| Schedule.AllFitCat | TImetabels.py:213 | appending well-formed records keeps the list well-formed |
| Schedule.BlocksShape | TImetabels.py:188-225 | the blocks of a day cell raise exactly when one of them raises; otherwise all records are well-formed |
| Schedule.CellsShape | TImetabels.py:180-186 | the day cells raise exactly when some nonempty cell is a seventh column or raises; empty cells are skipped |
| Schedule.RowsShape | TImetabels.py:164-167 | the rows raise exactly when one row raises; otherwise all records are well-formed |
| Schedule.FetchOutcome | TImetabels.py:152-228 | no table gives `Расписание не найдено`; any raising row or a missing `tbody` gives `Ошибка сервера`; otherwise the result is a permutation of the parsed records, sorted by (week, weekday), stable within each key |
| Schedule.EmitBlock | TImetabels.py:188-225 | the block loop appends exactly the block's records to the list, or raises when the block does |
| Schedule.EmitWeeks | TImetabels.py:209-225 | the week loop appends one record per week token, or raises at the first bad one |
| Schedule.EmitBlocks | TImetabels.py:188-225 | the loop over a cell's blocks appends their records in order |
| Schedule.EmitDay | TImetabels.py:180-187 | one day column appends its records, after skipping an empty cell and looking up the day name |
| Schedule.EmitCells | TImetabels.py:180-225 | the loop over a row's day cells appends their records in column order |
| Schedule.GetTimetable | TImetabels.py:149-228 | the whole imperative parse computes the fetch the specification gives |
| Agenda.Put | TImetabels.py:421 | `d[k] = v` keeps the key order and adds `k` at the end exactly when it is new |
| Agenda.PutDict | TImetabels.py:421 | `d[k] = v` keeps keys distinct and replaces only `k`'s value |
| Agenda.PutAppends | TImetabels.py:421 | storing a new key appends the pair |
| Agenda.AllGroupsDistinct | TImetabels.py:421 | the aggregate holds each group name at most once |
| Agenda.AllGroupsFrom | TImetabels.py:421 | every entry of the aggregate is the last successful fetch under its group name |
| Agenda.AllGroupsCovers | TImetabels.py:421 | every group whose fetch did not return a sentinel string is in the aggregate |
| Agenda.AllGroupsEntries | TImetabels.py:421 | the aggregate holds exactly the groups with a successful fetch, each once, with the records of its last successful fetch |
| Agenda.KeptNames | TImetabels.py:421 | every key of the kept list is a directory group name |
| Agenda.AllGroupsKept | TImetabels.py:421 | with distinct group names, the aggregate is the successful groups in directory order |
| Agenda.Strptime | TImetabels.py:432 | a parsed `%H:%M` time is a valid time of day |
| Agenda.StrptimeClock | TImetabels.py:432 | `HH:MM` parses to its hour and minute |
| Agenda.StrptimeShortHour | TImetabels.py:432 | a one-digit hour parses too |
| Agenda.StartMinutes | TImetabels.py:429-433 | the start time is always a valid time of day |
| Agenda.StartOfRange | TImetabels.py:431-432 | for `HH:MM-rest` the start time is `HH:MM` |
| Agenda.StartOfMalformed | TImetabels.py:430-433 | text without `-` that does not parse as a time gives midnight |
| Agenda.StartOfBadHour | TImetabels.py:430-433 | a range `HH:MM-rest` whose hour is 24 or more, such as `25:00-26:00`, gives midnight |
| Agenda.StartOfNonDigit | TImetabels.py:430-433 | a time text that does not start with a digit gives midnight, whatever follows its first `-` |
| Agenda.KeepMembers | TImetabels.py:439-441 | a group's kept records are exactly its records whose field is non-empty and contains the needle |
| Agenda.PickedFrom | TImetabels.py:438-441 | every picked record matches and comes from some group |
| Agenda.PickedOf | TImetabels.py:438-441 | every matching record of every group is picked |
| Agenda.PickedMembers | TImetabels.py:436-441 | the picked records are exactly the matching records of all groups |
| Agenda.SelectLessons | TImetabels.py:436-443 | the filtering loop followed by the sort gives the sorted picked records |
| Agenda.TeacherTimetable | TImetabels.py:435-443 | `teacher_timetable` is the teacher-field selection, sorted by (week, weekday, start time) |
| Agenda.ClassroomTimetable | TImetabels.py:445-453 | `classroom_timetable` is the room-field selection, sorted by (week, weekday, start time) |
| Agenda.ViewContents | TImetabels.py:436-453 | a view holds exactly the matching records, as a permutation of the picked list, sorted by (week, weekday, start time) and stable within each key |
| Presenter.AddEachMembers | TImetabels.py:489-510 | adding items to a set gives the union and keeps it free of duplicates |
| Presenter.AddEachConcat | TImetabels.py:497-499 | adding two lists of items is adding one after the other |
| Presenter.AddNames | TImetabels.py:497-499 | the loop of `set.add` calls computes the union |
| Presenter.Find | TImetabels.py:482 | the key lookup finds the first entry with the key, and only misses when no entry has it |
| Presenter.SummaryOne | TImetabels.py:482-501 | a key's first record opens the entry a new key gets |
| Presenter.SummaryAppend | TImetabels.py:503-510 | a further record adds its group and teachers to its entry |
| Presenter.SummaryKeys | TImetabels.py:479-510 | each entry is keyed by its bucket's key |
| Presenter.MergeStep | TImetabels.py:480-510 | one record merged into the entries matches adding it to its key's bucket |
| Presenter.MergeNew | TImetabels.py:482-501 | a new key appends a new entry |
| Presenter.MergeOld | TImetabels.py:503-510 | a known key updates only its own entry |
| Presenter.MergeGroups | TImetabels.py:479-510 | the merged entries are the summaries of the records grouped by (date, number, subject, room) |
| Presenter.MergeEntries | TImetabels.py:479-512 | entry keys are distinct; each entry summarises exactly the records with its key; every record's key has an entry |
| Presenter.SummarySets | TImetabels.py:489-510 | an entry's groups are the union of its records' groups, and its teachers the union of their `;`-split, trimmed teacher strings, both without duplicates |
| Presenter.MergeWeek | TImetabels.py:479-512 | the merging loop computes the merged entries |
| Presenter.ArrangedOrder | TImetabels.py:512-513 | the printed entries are a permutation of the merged ones, sorted by (date text, start time) |
| Presenter.ArrangedEntries | TImetabels.py:512-515 | the printed entries are the merged ones, and there are none only for a week without records |
| Presenter.NamesFacts | TImetabels.py:530 | the printed group names are exactly the groups, without duplicates |
| Presenter.NoDupSorted | TImetabels.py:530-532 | sorting keeps a set free of duplicates |
| Presenter.EntryLists | TImetabels.py:479-532 | each printed entry summarises its records; its teachers print sorted, once each, and exactly those of its records; so do its groups when none is missing |
| Presenter.EntryLines | TImetabels.py:527-540 | the entry-printing statements compute the entry's text |
| Presenter.SortedDates | TImetabels.py:513 | in the printed order the date texts never decrease |
| Presenter.HeadingsCover | TImetabels.py:515-525 | the headings among the first `n` entries name exactly their dates, the last one being the latest entry's |
| Presenter.HeadingsAscend | TImetabels.py:515-525 | with dates in order, the headings strictly ascend |
| Presenter.ArrangedDates | TImetabels.py:512-513 | every record's date is the date of some printed entry |
| Presenter.ArrangedHeadings | TImetabels.py:513-525 | the headings of a week strictly ascend and name exactly the dates of its entries |
| Presenter.WeekHeadings | TImetabels.py:479-525 | each date of the week gets exactly one heading, and the headings appear in ascending order |
| Presenter.RenderedRaises | TImetabels.py:520-540 | rendering entries raises exactly when one of them has a missing group |
| Presenter.RenderedStops | TImetabels.py:520-540 | an entry that raises makes the whole rendering raise |
| Presenter.RenderedStep | TImetabels.py:520-540 | rendering one more entry adds its heading when the day changes, then its lines |
| Presenter.RenderEntries | TImetabels.py:515-540 | the rendering loop computes the text with the first date's heading and one heading per new day |
| Presenter.GroupOfMember | TImetabels.py:489-504 | the group of a member record is among the groups collected |
| Presenter.GroupWitness | TImetabels.py:489-504 | a collected group is the group of some record |
| Presenter.MergedUngroupedRecord | TImetabels.py:489-504 | a merged entry with a missing group comes from a record with a missing group |
| Presenter.EntryOfRecord | TImetabels.py:479-510 | every record belongs to the entry with its key, and that entry summarises the records with that key |
| Presenter.UngroupedRecordMerged | TImetabels.py:489-504 | a record with a missing group gives an entry with a missing group |
| Presenter.MergeUngrouped | TImetabels.py:479-510 | some entry has a missing group exactly when some record has one |
| Presenter.WeekRaises | TImetabels.py:476-542 | a week's text raises exactly when one of its records has no group |
| Presenter.RenderWeekM | TImetabels.py:476-542 | the statements for one week compute that week's text |
| Presenter.GlueAllStops | TImetabels.py:476-542 | one raising week makes the whole output raise |
| Presenter.GlueAllPrefix | TImetabels.py:476-477 | adding one more week's text to the output |
| Presenter.GlueAllRaised | TImetabels.py:476-542 | the output raises exactly when one of the week texts raises |
| Presenter.WeekTextsRaise | TImetabels.py:476-542 | each week's text raises exactly when that week has a record without a group |
| Presenter.WeeksUngrouped | TImetabels.py:463-469 | some week holds a record without a group exactly when the timetable does |
| Presenter.WeeksRaise | TImetabels.py:463-542 | rendering all the weeks raises exactly when some record has no group |
| Presenter.GroupWeeks | TImetabels.py:463-469 | the grouping loop splits the records into weeks in order of first appearance, keeping input order within each week |
| Presenter.RenderAll | TImetabels.py:476-542 | the loop over weeks concatenates the week texts |
| Presenter.FormatRaises | TImetabels.py:456-545 | `format_output` raises exactly when a shown record has no group |
| Presenter.FormatOutput | TImetabels.py:455-545 | empty input gives `Нет занятий для отображения\n`; a week filter that matches nothing gives `Нет занятий для недели N\n`; otherwise the grouped, merged, rendered text minus its last character |
| Bonch.CurrentWeekBracket | TImetabels.py:71-82 | before the first day the week is 0; on the first day exactly it is -1; after it, `first_day + 7w < today <= first_day + 7(w+1)` |
| Bonch.BracketUnique | TImetabels.py:76-82 | at most one week satisfies that bracket |
| Bonch.BonchAPI.SetCurrentWeek | TImetabels.py:71-82 | the day-counting loop sets the current week to the bracketing week |
| Bonch.BonchAPI.constructor | TImetabels.py:11-16 | a new object holds the first day, the limit and today's week; it has no group or credentials yet |
| Bonch.Press | TImetabels.py:618-619 | a key press keeps a week in [0, 50]; left steps back and right steps on, and only within range |
| Bonch.NavigateInRange | TImetabels.py:609-619 | once the week is in [0, 50], any sequence of key presses keeps it there |
| Bonch.NavigateRight | TImetabels.py:619 | `n` right presses reach `w + n`, capped at 50 |
| Bonch.NavigateLeft | TImetabels.py:618 | `n` left presses reach `w - n`, floored at 0 |
| Bonch.BonchAPI.PressKey | TImetabels.py:618-619 | a key press updates the current week as `Press` says |
| Order.KeyList | TImetabels.py:656-658 | the keys of a dict, in insertion order, one per entry |
| Bonch.ChosenGroupFacts | TImetabels.py:656-658 | the chosen group is always a timetable key: the requested one when present; the choice fails only without a request match and either no current group or an empty timetable |
| Bonch.BonchAPI.ChangeGroupName | TImetabels.py:656-658 | the group changes to the choice, or stays when the choice fails |
| Bonch.ConfigureFacts | TImetabels.py:708-733 | a configuration is accepted exactly when `first_day` is present and parses and any `limit` parses; the limit defaults to 80; credentials come only as a pair; auto-visit starts only with credentials |
| Bonch.LimitRoundTrip | TImetabels.py:713 | a `limit` written as an integer's text is read back as that integer |
| Bonch.ReadOptions | TImetabels.py:697-733 | `read_options` fails exactly when the configuration is rejected; otherwise the new object holds the configured settings and today's week |
| Options.Entries | SendMsgAPI.py:48-52 | one contribution per line |
| Options.ReadLines | SendMsgAPI.py:46-52 | the reading loop builds the dict of all the lines' entries, in line order |
| Options.CommentIgnored | SendMsgAPI.py:49 | everything from the first `#` on is ignored |
| Options.EntryWhenEquals | SendMsgAPI.py:49-50 | a line contributes a key exactly when an `=` comes before its first `#` |
| Options.EntryOfPair | SendMsgAPI.py:51-52 | a line is split at its first `=` only, and both halves are trimmed |
| Options.StoreLookup | SendMsgAPI.py:52 | a key is stored exactly when some entry sets it, with the value of the last such entry |
| Options.CollectLookup | SendMsgAPI.py:46-52 | a key is present exactly when some line sets it, and then holds the value of the last line setting it |
| SendMsg.SendMsgAPI.constructor | SendMsgAPI.py:44-55 | `email` and `password` are the configured `login` and `password`, or empty when absent |
| SendMsg.LoggedIn | SendMsgAPI.py:57-79 | log-in succeeds exactly when all three requests succeed and the authentication body is exactly `1` |
| SendMsg.Sent | SendMsgAPI.py:93-106 | a message counts as sent exactly when the response body is empty |
| SendMsg.DigitRun | SendMsgAPI.py:124 | the digit run at a position is maximal and all digits |
| SendMsg.Captured | SendMsgAPI.py:124-125 | the captured group is all digits |
| SendMsg.UploadedId | SendMsgAPI.py:108-130 | a failed request gives 0 |
| SendMsg.SearchSkips | SendMsgAPI.py:124 | the search passes over positions where the pattern does not match |
| SendMsg.MatchAfter | SendMsgAPI.py:124 | the pattern matches the marker followed by digits and a quote, and captures those digits |
| SendMsg.DigitRunOf | SendMsgAPI.py:124 | the digits before a non-digit form the digit run |
| SendMsg.UploadedIdOf | SendMsgAPI.py:124-127 | a body with `data.idinfo = "n"`, and no earlier match, gives `n` |
| SendMsg.NoQuoteNoId | SendMsgAPI.py:124-130 | a body without a quote never matches, so the upload gives 0 |
| Clicker.IsTimeBetween | main.py:62-67 | inclusive containment when start <= end; otherwise the interval wraps midnight, and the result is true iff now >= start or now <= end |
| Clicker.IsLessonTime | main.py:69-74 | true exactly when some configured interval contains the time |
| Clicker.LessonTimeInRanges | main.py:52-60 | a lesson time lies in one of the seven slot ranges |
| Clicker.RangesLessonTime | main.py:52-60 | every time in a slot range is lesson time |
| Clicker.LessonTimeRanges | main.py:52-74 | lesson time is exactly the union of the seven closed slot ranges |
| Clicker.Horizon | main.py:83-95 | the loop runs up to the first tick followed by a stop, or through every tick |
| Clicker.AttemptsMembers | main.py:83-95 | a click is attempted at a tick exactly when its time is lesson time |
| Clicker.LessonController.constructor | main.py:46-49 | a new controller is not running and has no task |
| Clicker.LessonController.AttachTask | main.py:128 | starting from the bot attaches a fresh task |
| Clicker.LessonController.Status | main.py:108-109 | the status is the running message exactly when running, and the stopped message otherwise |
| Clicker.LessonController.StopLesson | main.py:99-106 | stopping a stopped controller changes nothing; otherwise it clears the flag, cancels any task and says so |
| Clicker.LessonController.StartLesson | main.py:76-97 | starting a running controller changes nothing; otherwise it sets the flag; it attempts a click at exactly the lesson-time ticks until a stop; failed clicks do not end the loop |
| Bot.NavigationButtons | main.py:234-249 | previous and next on the first row, this week on the second |
| Bot.SplitCallback | main.py:257 | splitting `a_b_n` at `_` gives its three parts, a negative `n` included |
| Bot.PrevRoundTrip | main.py:242-257 | the previous button's callback parses back to offset - 1 |
| Bot.NextRoundTrip | main.py:243-259 | the next button's callback parses back to offset + 1 |
| Bot.CurrentParses | main.py:246-261 | `current_week_0` parses to 0 |
| Bot.GroupDays | main.py:211-216 | the grouping loop builds the per-date lists |
| Bot.SortedDaysPartition | main.py:211-219 | each date appears once, and its lessons are exactly the input lessons of that date in input order |
| Bot.DayOf | main.py:211-216 | every lesson's date has a day |
| Bot.SortedDaysCover | main.py:211-219 | every lesson's date appears among the sorted days |
| Bot.SortedDaysOrder | main.py:219 | the days appear in ascending date order, stable among equal dates |
| Bot.SortedDaysEvery | main.py:211-219 | every input lesson appears exactly once across the days |
| Bot.DatedLessons | main.py:219 | every day's date parses exactly when every lesson's date parses |
| Bot.LessonsTextStep | main.py:223-230 | the text of one more lesson is appended |
| Bot.DaysTextStep | main.py:221-230 | the text of one more day is appended |
| Bot.AppendLessons | main.py:223-230 | the lesson loop appends each lesson's lines |
| Bot.AppendDay | main.py:221-230 | one day appends its heading, then its lessons |
| Bot.RenderDays | main.py:221-230 | the day loop appends each day's text in order |
| Bot.FormatTimetable | main.py:202-232 | the title then one block per date; it raises exactly when some lesson's date does not parse |
| Order.KeyLeTotal | TImetabels.py:226 | tuple keys are totally ordered |
| Order.KeyLeAntisymmetric | TImetabels.py:226 | tuple keys that are each at most the other are equal |
| Order.KeyLeTransitive | TImetabels.py:226 | the tuple order is transitive |
| Order.InsertFacts | TImetabels.py:226 | insertion adds the element and keeps a sorted list sorted |
| Order.InsertHaving | TImetabels.py:226 | insertion puts the element before all others of its key |
| Order.SortByFacts | TImetabels.py:226 | `sorted()` gives a sorted permutation of its input |
| Order.SortStable | TImetabels.py:226 | `sorted()` keeps the input order of elements with equal keys |
| Order.HavingMembers | TImetabels.py:471 | the elements with a key are the input elements of that key |
| Order.HavingConcat | TImetabels.py:471 | selecting by key distributes over concatenation |
| Order.NoDupCounts | TImetabels.py:489-510 | a list is free of duplicates exactly when nothing occurs twice |
| Order.NoDupPermutation | TImetabels.py:530-532 | a permutation of a duplicate-free list is duplicate-free |
| Order.AddTo | TImetabels.py:467-469 | appending under a key keeps the key order and adds the key at the end when it is new |
| Order.AddToDict | TImetabels.py:467-469 | appending under a key keeps keys distinct and extends only that key's list |
| Order.AddToPlace | TImetabels.py:467-469 | appending extends the list of the key found, or adds a new pair |
| Order.GroupByDistinct | TImetabels.py:463-469 | the grouped dict has distinct keys |
| Order.GroupByBuckets | TImetabels.py:463-469 | each key's list is exactly the input elements with that key, in input order, and is never empty |
| Order.HavingAbsent | TImetabels.py:463-469 | a key absent from the grouped dict has no elements |
| Order.FlattenAddTo | TImetabels.py:467-469 | appending one element adds it once to the grouped contents |
| Order.GroupByFlatten | TImetabels.py:463-469 | grouping keeps every element exactly once |
| Order.FlattenPermutation | main.py:219 | reordering the groups keeps their contents |
| Order.DistinctKeysPermutation | main.py:219 | reordering the groups keeps their keys distinct |
| Text.TrimStart | TImetabels.py:170 | `lstrip` drops a maximal leading run of the given characters |
| Text.StripByShape | TImetabels.py:193 | `strip` keeps a piece of the text whose ends are not stripped characters |
| Text.StripByAll | TImetabels.py:170 | a text of stripped characters strips to empty |
| Text.StripIdempotent | TImetabels.py:170 | stripping twice is stripping once |
| Text.StripByKeeps | SendMsgAPI.py:50 | stripping keeps every character that is not stripped |
| Text.Split | TImetabels.py:703 | `split(c)` gives pieces without `c` that join back to the text |
| Text.SplitAfter | SendMsgAPI.py:49 | text before the first separator is the first piece |
| Text.SplitWhole | SendMsgAPI.py:49 | a text without the separator is one piece |
| Text.SplitJoin | TImetabels.py:205 | splitting a join of separator-free pieces gives them back |
| Text.SplitHead | SendMsgAPI.py:51 | the first piece is a prefix, followed by the separator when there is one |
| Text.AfterFirst | SendMsgAPI.py:51 | `split(c, 1)[1]` is all the text after the first `c` |
| Text.TakeWord | TImetabels.py:171 | a word is a maximal run of non-space characters |
| Text.WordsShape | TImetabels.py:171 | `split()` gives non-empty words without whitespace |
| Text.WordsEmpty | TImetabels.py:171-172 | `split()` gives no words exactly for blank text |
| Text.WordsStart | TImetabels.py:171 | a leading word is the first piece of `split()` |
| Text.RemoveCharMembers | TImetabels.py:202 | `replace(c, '')` removes exactly the occurrences of `c` |
| Text.RemoveCharAbsent | TImetabels.py:202 | replacing an absent character changes nothing |
| Text.RemoveCharConcat | TImetabels.py:202 | replacing distributes over concatenation |
| Text.ContainsAt | TImetabels.py:440 | the substring test holds exactly when the substring occurs at some position |
| Text.RemoveAll | TImetabels.py:199 | replacing a pattern never lengthens the text, and changes nothing when the pattern is absent |
| Text.RemoveAllDrops | TImetabels.py:199 | an occurrence of the pattern is removed when its first character does not occur before it, and the text before it is kept unchanged |
| Text.LowerAscii | TImetabels.py:720 | `lower()` keeps the length |
| Text.NatText | main.py:242-243 | the decimal text of a natural number reads back as that number |
| Text.IntText | main.py:242-243 | `str(n)` is digits, possibly after `-` |
| Text.ParseIntText | main.py:257 | `int(str(n)) == n` |
| Text.ParseIntStripped | TImetabels.py:210 | `int()` ignores surrounding whitespace |
| Text.StrLeOrder | TImetabels.py:530 | string order is total, antisymmetric and transitive |

## Left out

- HTTP, cookies and HTML parsing are not modelled (`aiohttp`, `BeautifulSoup`). A page is an
  already-reduced `Page`, and a request is its outcome, `Failed` or `Body(text)`.
- `auto_click`, `get_schet`, `get_groups`, `get_teachers`, `get_classrooms`, `crush`,
  `crush_request` and `crush_lk_interface` are all network work over parsed HTML, so they are
  not modelled.
- `save_to_json` and `load_from_json` are file I/O through the `json` library.
- Terminal handling is not modelled: `wait_key`, `cls`, the `*_interface` print loops and the
  menus of `main()`. Only their week clamp is kept, as `Bonch.Press`.
- The aiogram handlers, the sqlite credential table and the command registration are glue
  around the modelled operations. `cmd_start_lesson` survives as `AttachTask`.
- `bonchapi.click_start_lesson` and `bonchapi.get_timetable(week_offset)` belong to a module
  that is not part of this model. A click's outcome is a per-tick parameter. The lessons of
  `format_timetable` keep only the fields it reads.
- `datetime`, `timedelta`, `strptime`, `strftime` and the `pytz` Moscow zone are not modelled
  as calendars. A date is an integer day number, and an instant or a time of day counts
  microseconds. Parsing and formatting dates are parameters: `parseDate` and `dateText`.
- asyncio, threads, `sleep` and `tqdm` are not modelled. A cancelled task is a flag, and no
  message is returned when cancellation ends `start_lesson`. The loop runs over a finite
  list of ticks, so a loop with no stop is cut off where the ticks end.
- `Log` colouring and timestamps are left out, and so are the logging calls in main.py.
- Text.ParseInt: accepts only ASCII digits with an optional sign. It does not model the other
  Unicode digits or the `_` separators that Python's `int()` also accepts.
- Agenda.Strptime: reads only the ASCII digits 0-9. Python's `%H:%M` also accepts the other
  Unicode decimal digits (such as `١٣:٠٠`), which the model treats as a malformed time.
- SendMsg.DigitRun: counts only the ASCII digits 0-9, and so does `MatchAt`. Python's `\d`
  and `int()` also accept the other Unicode decimal digits in the upload answer.
- Schedule.Record: does not model the year range 1..9999 of `datetime`. A week number so large
  that `first_day + timedelta(...)` overflows raises in Python and gives `Ошибка сервера`;
  the model emits a record for it.
- Text.LowerAscii: lowers only ASCII letters. Only the comparison with `true` depends on it.
- SendMsg.UploadedId: its own contract states only the failure case. The successful read is
  stated by `UploadedIdOf`, and the no-match case by `NoQuoteNoId`.
- Order.SortBy: keys are sequences of integers compared lexicographically, the way Python
  compares tuples. Strings become code points plus one, followed by a terminating zero.
