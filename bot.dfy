// The Telegram front end of main.py: the week-navigation buttons and the parsing of their
// callback data, and `format_timetable`, which lists a week's lessons day by day.
//
// The lessons come from the `bonchapi` module, which is not part of this model; only the
// fields `format_timetable` reads are kept, as text. `datetime.strptime(date, "%Y-%m-%d")`
// becomes the parameter `parseDate` (a day number, or `None` when it raises ValueError).

module Bot {
  import opened Text
  import opened Order

  // ---------------------------------------------------------------- week navigation

  datatype Button = Button(text: string, data: string)

  function PrevData(offset: int): string { "prev_week_" + IntText(offset - 1) }
  function NextData(offset: int): string { "next_week_" + IntText(offset + 1) }
  const CurrentData: string := "current_week_0"

  /** `get_week_navigation_buttons`: previous and next on the first row, this week on the
      second. */
  function NavigationButtons(offset: int): (rows: seq<seq<Button>>)
    ensures |rows| == 2 && |rows[0]| == 2 && |rows[1]| == 1
  {
    [[Button("⬅️ Предыдущая неделя", PrevData(offset)),
      Button("Следующая неделя ➡️", NextData(offset))],
     [Button("Эта неделя", CurrentData)]]
  }

  /** The week offset `process_week_navigation` reads from callback data: for the previous
      and next buttons the third `_`-separated field as an integer; for this week 0. A
      third field that is no integer raises ValueError, and data with none of the three
      prefixes never reaches the handler; both are `Raised`. */
  function ParseOffset(data: string): Result<int> {
    if "prev_week_" <= data || "next_week_" <= data then
      var parts := Split(data, '_');
      if |parts| < 3 then Raised
      else
        match ParseInt(parts[2])
        case None => Raised
        case Some(v) => Ok(v)
    else if "current_week_" <= data then Ok(0)
    else Raised
  }

  /** The fields of a `word_word_n` callback. */
  lemma SplitCallback(a: string, b: string, n: int)
    requires '_' !in a && '_' !in b
    ensures Split(a + "_" + b + "_" + IntText(n), '_') == [a, b, IntText(n)]
  {
    var parts := [a, b, IntText(n)];
    assert '_' !in parts[2];
    assert Join(parts[2..], "_") == parts[2];
    assert Join(parts, "_") == a + "_" + b + "_" + IntText(n);
    SplitJoin(parts, '_');
  }

  /** The previous-week button of the keyboard for offset `o` parses back to `o - 1`. */
  lemma PrevRoundTrip(offset: int)
    ensures ParseOffset(NavigationButtons(offset)[0][0].data) == Ok(offset - 1)
  {
    var t := IntText(offset - 1);
    assert PrevData(offset) == "prev" + "_" + "week" + "_" + t;
    SplitCallback("prev", "week", offset - 1);
    ParseIntText(offset - 1);
  }

  /** The next-week button of the keyboard for offset `o` parses back to `o + 1`. */
  lemma NextRoundTrip(offset: int)
    ensures ParseOffset(NavigationButtons(offset)[0][1].data) == Ok(offset + 1)
  {
    var t := IntText(offset + 1);
    assert NextData(offset) == "next" + "_" + "week" + "_" + t;
    assert NextData(offset)[0] != "prev_week_"[0];
    SplitCallback("next", "week", offset + 1);
    ParseIntText(offset + 1);
  }

  /** The this-week button parses to 0. */
  lemma CurrentParses(offset: int)
    ensures ParseOffset(NavigationButtons(offset)[1][0].data) == Ok(0)
  {
    assert CurrentData[0] != "prev_week_"[0] && CurrentData[0] != "next_week_"[0];
  }

  // ---------------------------------------------------------------- format_timetable

  datatype BotLesson = BotLesson(
    date: string, day: string, time: string, subject: string, teacher: string,
    location: string, lessonType: string)

  type Day = (string, seq<BotLesson>)

  function DateOf(l: BotLesson): string { l.date }

  /** `strptime` of a day's date, 0 when it fails (the failure is decided before sorting). */
  function DateValue(parseDate: string -> Option<int>, date: string): int {
    match parseDate(date)
    case Some(v) => v
    case None => 0
  }

  /** The sort key of a day. */
  function DayKey(parseDate: string -> Option<int>): Day -> seq<int> {
    (d: Day) => [DateValue(parseDate, d.0)]
  }

  /** Every day's date parses. */
  predicate AllDated(days: seq<Day>, parseDate: string -> Option<int>) {
    forall i :: 0 <= i < |days| ==> parseDate(days[i].0).Some?
  }

  /** The `days` dict: the lessons of each date, dates in order of first appearance. */
  function Days(timetable: seq<BotLesson>): seq<Day> {
    GroupBy(timetable, DateOf)
  }

  /** `sorted(days.items(), key=...)`. */
  function SortedDays(timetable: seq<BotLesson>, parseDate: string -> Option<int>): seq<Day> {
    SortBy(Days(timetable), DayKey(parseDate))
  }

  const Title: string := "📅 Ваше расписание:\n\n"

  function DayHeading(date: string, first: BotLesson): string {
    "----------------------\n📌 *" + date + " (" + first.day + ")*\n"
  }

  function LessonText(l: BotLesson): string {
    "⏰ *" + l.time + "* \n" + "📚 " + l.subject + " \n" + "🎓 " + l.teacher + " \n" +
    "🏫 " + l.location + " \n" + "🔹 Тип: " + l.lessonType + "\n\n"
  }

  /** The lesson texts of one day, in order. */
  function LessonsText(ls: seq<BotLesson>): string
    decreases |ls|
  {
    if ls == [] then "" else LessonsText(ls[..|ls| - 1]) + LessonText(ls[|ls| - 1])
  }

  /** One day: its heading, then its lessons. */
  function DayText(d: Day): string
    requires d.1 != []
  {
    DayHeading(d.0, d.1[0]) + LessonsText(d.1)
  }

  predicate NonEmptyDays(ds: seq<Day>) {
    forall i :: 0 <= i < |ds| ==> ds[i].1 != []
  }

  /** The texts of the days, in order. */
  function DaysText(ds: seq<Day>): string
    requires NonEmptyDays(ds)
    decreases |ds|
  {
    if ds == [] then "" else DaysText(ds[..|ds| - 1]) + DayText(ds[|ds| - 1])
  }

  /** What `format_timetable` returns, or `Raised` when some date does not parse. */
  function FormatSpec(timetable: seq<BotLesson>, parseDate: string -> Option<int>): Result<string> {
    var days := Days(timetable);
    if !AllDated(days, parseDate) then Raised
    else
      var sorted := SortedDays(timetable, parseDate);
      SortedDaysPartition(timetable, parseDate);
      Ok(Title + DaysText(sorted))
  }

  /** The days as printed, and each holds exactly the lessons of its date, in input
      order: one day per distinct date, never an empty one. */
  lemma SortedDaysPartition(timetable: seq<BotLesson>, parseDate: string -> Option<int>)
    ensures var s := SortedDays(timetable, parseDate);
            DistinctKeys(s) && NonEmptyDays(s) &&
            forall i :: 0 <= i < |s| ==> s[i].1 == Having(timetable, DateOf, s[i].0)
  {
    var days := Days(timetable);
    var s := SortBy(days, DayKey(parseDate));
    GroupByBuckets(timetable, DateOf);
    SortByFacts(days, DayKey(parseDate));
    DistinctKeysPermutation(days, s);
    forall i | 0 <= i < |s| ensures s[i].1 == Having(timetable, DateOf, s[i].0) != [] {
      assert s[i] in multiset(days);
    }
  }

  /** Every lesson's date has its day. */
  lemma SortedDaysCover(timetable: seq<BotLesson>, parseDate: string -> Option<int>)
    ensures forall j :: 0 <= j < |timetable| ==>
              timetable[j].date in KeyList(SortedDays(timetable, parseDate))
  {
    var days := Days(timetable);
    var s := SortBy(days, DayKey(parseDate));
    SortByFacts(days, DayKey(parseDate));
    forall j | 0 <= j < |timetable| ensures timetable[j].date in KeyList(s) {
      var k := timetable[j].date;
      DayOf(timetable, j);
      var i :| 0 <= i < |days| && days[i].0 == k;
      assert days[i] in multiset(s);
      var i' :| 0 <= i' < |s| && s[i'] == days[i];
      assert KeyList(s)[i'] == k;
    }
  }

  /** Lesson `j`'s date has a bucket in the `days` dict. */
  lemma DayOf(timetable: seq<BotLesson>, j: nat)
    requires j < |timetable|
    ensures exists i :: 0 <= i < |Days(timetable)| && Days(timetable)[i].0 == timetable[j].date
  {
    var days := Days(timetable);
    var k := timetable[j].date;
    HavingMembers(timetable, DateOf, k);
    assert timetable[j] in Having(timetable, DateOf, k);
    if forall i :: 0 <= i < |days| ==> days[i].0 != k {
      HavingAbsent(timetable, DateOf, k);
      assert false;
    }
  }

  /** The days ascend by parsed date, and dates that parse alike keep the order in which
      they first appear. */
  lemma SortedDaysOrder(timetable: seq<BotLesson>, parseDate: string -> Option<int>)
    ensures var s := SortedDays(timetable, parseDate);
            (forall i :: 0 < i < |s| ==>
               DateValue(parseDate, s[i - 1].0) <= DateValue(parseDate, s[i].0)) &&
            (forall v :: Having(s, DayKey(parseDate), [v]) ==
                         Having(Days(timetable), DayKey(parseDate), [v]))
  {
    var days := Days(timetable);
    var key := DayKey(parseDate);
    var s := SortBy(days, key);
    SortByFacts(days, key);
    forall i | 0 < i < |s| ensures DateValue(parseDate, s[i - 1].0) <= DateValue(parseDate, s[i].0) {
      assert KeyLe(key(s[i - 1]), key(s[i]));
    }
    forall v ensures Having(s, key, [v]) == Having(days, key, [v]) {
      SortStable(days, key, [v]);
    }
  }

  /** Together the days hold every lesson exactly once. */
  lemma SortedDaysEvery(timetable: seq<BotLesson>, parseDate: string -> Option<int>)
    ensures multiset(Flatten(SortedDays(timetable, parseDate))) == multiset(timetable)
  {
    var days := Days(timetable);
    SortByFacts(days, DayKey(parseDate));
    FlattenPermutation(days, SortBy(days, DayKey(parseDate)));
    GroupByFlatten(timetable, DateOf);
  }

  /** The `days` loop. */
  method GroupDays(timetable: seq<BotLesson>) returns (days: seq<Day>)
    ensures days == Days(timetable)
  {
    days := [];
    for i := 0 to |timetable|
      invariant days == GroupBy(timetable[..i], DateOf)
    {
      assert timetable[..i + 1][..i] == timetable[..i];
      days := AddTo(days, timetable[i].date, timetable[i]);
    }
    assert timetable[..|timetable|] == timetable;
  }

  /** One more lesson appends its text. */
  lemma LessonsTextStep(ls: seq<BotLesson>, k: nat)
    requires k < |ls|
    ensures LessonsText(ls[..k + 1]) == LessonsText(ls[..k]) + LessonText(ls[k])
  {
    assert ls[..k + 1][..k] == ls[..k];
  }

  lemma DaysTextStep(ds: seq<Day>, i: nat)
    requires NonEmptyDays(ds) && i < |ds|
    ensures NonEmptyDays(ds[..i]) && NonEmptyDays(ds[..i + 1])
    ensures DaysText(ds[..i + 1]) == DaysText(ds[..i]) + DayText(ds[i])
  {
    assert ds[..i + 1][..i] == ds[..i];
  }

  /** The inner loop over one day's lessons. */
  method AppendLessons(out: string, lessons: seq<BotLesson>) returns (r: string)
    ensures r == out + LessonsText(lessons)
  {
    r := out;
    for k := 0 to |lessons|
      invariant r == out + LessonsText(lessons[..k])
    {
      LessonsTextStep(lessons, k);
      var l := lessons[k];
      ConcatAssoc(out, LessonsText(lessons[..k]), LessonText(l));
      r := r + LessonText(l);
    }
    assert lessons[..|lessons|] == lessons;
  }

  /** One day of `format_timetable`: its heading, then its lessons. */
  method AppendDay(out: string, day: Day) returns (r: string)
    requires day.1 != []
    ensures r == out + DayText(day)
  {
    var date, lessons := day.0, day.1;
    r := out + DayHeading(date, lessons[0]);
    r := AppendLessons(r, lessons);
    ConcatAssoc(out, DayHeading(date, lessons[0]), LessonsText(lessons));
  }

  /** The outer loop over the sorted days: the days, one after another, after `out`. */
  method RenderDays(out: string, days: seq<Day>) returns (formatted: string)
    requires NonEmptyDays(days)
    ensures formatted == out + DaysText(days)
  {
    formatted := out;
    for i := 0 to |days|
      invariant formatted == out + DaysText(days[..i])
    {
      DaysTextStep(days, i);
      ConcatAssoc(out, DaysText(days[..i]), DayText(days[i]));
      formatted := AppendDay(formatted, days[i]);
    }
    assert days[..|days|] == days;
  }

  /** `format_timetable`; it raises exactly when some lesson's date does not parse. */
  method FormatTimetable(timetable: seq<BotLesson>, parseDate: string -> Option<int>)
      returns (r: Result<string>)
    ensures r == FormatSpec(timetable, parseDate)
    ensures r.Raised? <==> exists j :: 0 <= j < |timetable| && parseDate(timetable[j].date).None?
  {
    var days := GroupDays(timetable);
    DatedLessons(timetable, parseDate);
    if !AllDated(days, parseDate) {
      return Raised;
    }
    var sortedDays := SortBy(days, DayKey(parseDate));
    SortedDaysPartition(timetable, parseDate);
    var formatted := RenderDays(Title, sortedDays);
    return Ok(formatted);
  }

  /** Every day's date parses exactly when every lesson's date does. */
  lemma DatedLessons(timetable: seq<BotLesson>, parseDate: string -> Option<int>)
    ensures AllDated(Days(timetable), parseDate) <==>
              forall j :: 0 <= j < |timetable| ==> parseDate(timetable[j].date).Some?
  {
    var days := Days(timetable);
    GroupByBuckets(timetable, DateOf);
    if AllDated(days, parseDate) {
      forall j | 0 <= j < |timetable| ensures parseDate(timetable[j].date).Some? {
        DayOf(timetable, j);
      }
    } else {
      var i :| 0 <= i < |days| && parseDate(days[i].0).None?;
      HavingMembers(timetable, DateOf, days[i].0);
      assert days[i].1[0] in timetable;
    }
  }
}
