/** `BonchAPI.format_output`: the records are split by week, the parallel sections of one
    lesson (records sharing date, lesson number, subject and room) are merged into one entry,
    and the entries are rendered as text, with a date heading whenever the date changes.
    A record's `Число` is the `%Y.%m.%d` text of its day, which `dateText` stands for. */
module Presenter {
  import opened Text
  import opened Order
  import opened Schedule
  import Agenda

  const NothingToShow: string := "Нет занятий для отображения\n"

  const EmptyWeek: string := "Нет занятий на этой неделе\n\n"

  function NoLessonsInWeek(n: int): string {
    "Нет занятий для недели " + IntText(n) + "\n"
  }

  function WeekOf(l: Lesson): int { l.week }

  // ---------------------------------------------------------------- sets

  /** `s.add(x)` on a set kept as a list without repetitions. */
  function AddUnique<T(==)>(xs: seq<T>, x: T): seq<T> {
    if x in xs then xs else xs + [x]
  }

  /** Adding every element of `ys`, left to right. */
  function AddEach<T(==)>(xs: seq<T>, ys: seq<T>): seq<T>
    decreases |ys|
  {
    if ys == [] then xs else AddUnique(AddEach(xs, ys[..|ys| - 1]), ys[|ys| - 1])
  }

  /** Adding elements is set union, and a set stays without repetitions. */
  lemma {:induction false} AddEachMembers<T>(xs: seq<T>, ys: seq<T>)
    ensures forall x :: x in AddEach(xs, ys) <==> x in xs || x in ys
    ensures NoDup(xs) ==> NoDup(AddEach(xs, ys))
    decreases |ys|
  {
    if ys != [] {
      var n := |ys| - 1;
      AddEachMembers(xs, ys[..n]);
      assert ys == ys[..n] + [ys[n]];
    }
  }

  lemma {:induction false} AddEachConcat<T>(xs: seq<T>, a: seq<T>, b: seq<T>)
    ensures AddEach(xs, a + b) == AddEach(AddEach(xs, a), b)
    decreases |b|
  {
    if b == [] {
      assert a + b == a;
    } else {
      var n := |b| - 1;
      assert (a + b)[..|a + b| - 1] == a + b[..n];
      AddEachConcat(xs, a, b[..n]);
    }
  }

  // ---------------------------------------------------------------- merging parallel sections

  /** `(Число, Номер занятия, Предмет, Номер кабинета)`. */
  type MergeKey = (string, Option<string>, Option<string>, Option<string>)

  /** One merged lesson: the first record's fields, and the sets of groups and teachers. */
  datatype Entry = Entry(date: string, dayName: string, time: Option<string>,
                         number: Option<string>, subject: Option<string>,
                         groups: seq<Option<string>>, teachers: seq<string>,
                         kind: Option<string>, room: Option<string>)

  function KeyOf(dateText: int -> string): Lesson -> MergeKey {
    (l: Lesson) => (dateText(l.date), l.number, l.subject, l.room)
  }

  function EntryKey(e: Entry): MergeKey {
    (e.date, e.number, e.subject, e.room)
  }

  /** The teachers a record names: its teacher text split at `;`, each piece trimmed; none for
      a missing or empty text. */
  function TeacherNames(o: Option<string>): seq<string> {
    if Agenda.Truthy(o) then
      var parts := Split(o.value, ';');
      seq(|parts|, i requires 0 <= i < |parts| => Strip(parts[i]))
    else []
  }

  /** The entry a record opens when its key is new. */
  function NewEntry(l: Lesson, dateText: int -> string): Entry {
    Entry(dateText(l.date), l.dayName, l.time, l.number, l.subject, [l.group],
          AddEach([], TeacherNames(l.teacher)), l.kind, l.room)
  }

  /** A further record of an entry adds its group and its teachers. */
  function Absorb(e: Entry, l: Lesson): Entry {
    e.(groups := AddUnique(e.groups, l.group), teachers := AddEach(e.teachers, TeacherNames(l.teacher)))
  }

  /** Where the dict of entries holds `k`: its position, or the length when it holds none. */
  function Find(es: seq<Entry>, k: MergeKey): (i: nat)
    ensures i <= |es| && (i < |es| ==> EntryKey(es[i]) == k)
    ensures forall j :: 0 <= j < i ==> EntryKey(es[j]) != k
    decreases |es|
  {
    if es == [] || EntryKey(es[0]) == k then 0 else 1 + Find(es[1..], k)
  }

  /** One step of the merge loop. */
  function MergeIn(es: seq<Entry>, l: Lesson, dateText: int -> string): seq<Entry> {
    var i := Find(es, KeyOf(dateText)(l));
    if i == |es| then es + [NewEntry(l, dateText)] else es[i := Absorb(es[i], l)]
  }

  /** `grouped_lessons.values()` after the merge loop over a week's records. */
  function Merge(ls: seq<Lesson>, dateText: int -> string): seq<Entry>
    decreases |ls|
  {
    if ls == [] then [] else MergeIn(Merge(ls[..|ls| - 1], dateText), ls[|ls| - 1], dateText)
  }

  // The reference definition: one entry per bucket of records sharing a key.

  function GroupsOf(hs: seq<Lesson>): seq<Option<string>> {
    seq(|hs|, i requires 0 <= i < |hs| => hs[i].group)
  }

  function TeachersOf(hs: seq<Lesson>): seq<string>
    decreases |hs|
  {
    if hs == [] then [] else TeachersOf(hs[..|hs| - 1]) + TeacherNames(hs[|hs| - 1].teacher)
  }

  /** The entry for the records `hs` of one key: the first record's fields, the set of all
      their groups and the set of all the teachers they name. */
  function Summary(hs: seq<Lesson>, dateText: int -> string): Entry
    requires hs != []
  {
    Entry(dateText(hs[0].date), hs[0].dayName, hs[0].time, hs[0].number, hs[0].subject,
          AddEach([], GroupsOf(hs)), AddEach([], TeachersOf(hs)), hs[0].kind, hs[0].room)
  }

  predicate NonEmptyBuckets(b: Buckets<MergeKey, Lesson>) {
    forall i :: 0 <= i < |b| ==> b[i].1 != []
  }

  function Summaries(b: Buckets<MergeKey, Lesson>, dateText: int -> string): (r: seq<Entry>)
    requires NonEmptyBuckets(b)
    ensures |r| == |b|
  {
    seq(|b|, i requires 0 <= i < |b| => Summary(b[i].1, dateText))
  }

  lemma SummaryOne(l: Lesson, dateText: int -> string)
    ensures Summary([l], dateText) == NewEntry(l, dateText)
  {
    assert [l][..0] == [];
    assert GroupsOf([l]) == [l.group] && [l.group][..0] == [];
    assert AddEach([], [l.group]) == [l.group];
    assert TeachersOf([l]) == [] + TeacherNames(l.teacher) == TeacherNames(l.teacher);
  }

  lemma SummaryAppend(hs: seq<Lesson>, l: Lesson, dateText: int -> string)
    requires hs != []
    ensures Summary(hs + [l], dateText) == Absorb(Summary(hs, dateText), l)
  {
    var s := hs + [l];
    assert s[..|s| - 1] == hs && s[0] == hs[0];
    assert GroupsOf(s) == GroupsOf(hs) + [l.group];
    assert GroupsOf(s)[..|GroupsOf(s)| - 1] == GroupsOf(hs);
    assert TeachersOf(s) == TeachersOf(hs) + TeacherNames(l.teacher);
    AddEachConcat([], TeachersOf(hs), TeacherNames(l.teacher));
  }

  /** The entries of the buckets have the buckets' keys. */
  lemma SummaryKeys(s: seq<Lesson>, dateText: int -> string)
    ensures NonEmptyBuckets(GroupBy(s, KeyOf(dateText)))
    ensures var b := GroupBy(s, KeyOf(dateText));
            forall i :: 0 <= i < |b| ==> EntryKey(Summaries(b, dateText)[i]) == b[i].0
  {
    var key := KeyOf(dateText);
    var b := GroupBy(s, key);
    GroupByBuckets(s, key);
    forall i | 0 <= i < |b| ensures EntryKey(Summary(b[i].1, dateText)) == b[i].0 {
      HavingMembers(s, key, b[i].0);
      assert b[i].1[0] in Having(s, key, b[i].0);
    }
  }

  /** One merge step on the summaries of buckets is the summaries after `AddTo`. */
  lemma MergeStep(b: Buckets<MergeKey, Lesson>, x: Lesson, dateText: int -> string)
    requires NonEmptyBuckets(b)
    requires forall i :: 0 <= i < |b| ==> EntryKey(Summaries(b, dateText)[i]) == b[i].0
    ensures NonEmptyBuckets(AddTo(b, KeyOf(dateText)(x), x))
    ensures MergeIn(Summaries(b, dateText), x, dateText)
            == Summaries(AddTo(b, KeyOf(dateText)(x), x), dateText)
  {
    var k := KeyOf(dateText)(x);
    var es := Summaries(b, dateText);
    var i := Find(es, k);
    AddToPlace(b, k, x, i);
    var r := AddTo(b, k, x);
    if i == |es| {
      MergeNew(b, x, dateText);
    } else {
      MergeOld(b, x, i, dateText);
    }
  }

  lemma MergeNew(b: Buckets<MergeKey, Lesson>, x: Lesson, dateText: int -> string)
    requires NonEmptyBuckets(b)
    ensures var r := b + [(KeyOf(dateText)(x), [x])];
            NonEmptyBuckets(r) && Summaries(r, dateText) == Summaries(b, dateText) + [NewEntry(x, dateText)]
  {
    var r := b + [(KeyOf(dateText)(x), [x])];
    assert NonEmptyBuckets(r) by {
      forall j | 0 <= j < |r| ensures r[j].1 != [] {
        if j < |b| { assert r[j] == b[j]; }
      }
    }
    SummaryOne(x, dateText);
    var es := Summaries(b, dateText) + [NewEntry(x, dateText)];
    forall j | 0 <= j < |r| ensures Summaries(r, dateText)[j] == es[j] {
      if j < |b| { assert r[j] == b[j]; }
    }
  }

  lemma MergeOld(b: Buckets<MergeKey, Lesson>, x: Lesson, i: nat, dateText: int -> string)
    requires NonEmptyBuckets(b) && i < |b|
    ensures var r := b[i := (b[i].0, b[i].1 + [x])];
            NonEmptyBuckets(r)
            && Summaries(r, dateText) == Summaries(b, dateText)[i := Absorb(Summaries(b, dateText)[i], x)]
  {
    var r := b[i := (b[i].0, b[i].1 + [x])];
    assert NonEmptyBuckets(r) by {
      forall j | 0 <= j < |r| ensures r[j].1 != [] {
        if j != i { assert r[j] == b[j]; }
      }
    }
    SummaryAppend(b[i].1, x, dateText);
    var es := Summaries(b, dateText);
    forall j | 0 <= j < |r| ensures Summaries(r, dateText)[j] == es[i := Absorb(es[i], x)][j] {
      if j != i { assert r[j] == b[j]; }
    }
  }

  /** The merge loop builds exactly one entry per key, in the order the keys first occur, each
      the summary of all the records with that key. */
  lemma {:induction false} MergeGroups(ls: seq<Lesson>, dateText: int -> string)
    ensures NonEmptyBuckets(GroupBy(ls, KeyOf(dateText)))
    ensures Merge(ls, dateText) == Summaries(GroupBy(ls, KeyOf(dateText)), dateText)
    decreases |ls|
  {
    SummaryKeys(ls, dateText);
    if ls == [] {
      assert Merge(ls, dateText) == [];
    } else {
      var p, x := ls[..|ls| - 1], ls[|ls| - 1];
      MergeGroups(p, dateText);
      SummaryKeys(p, dateText);
      MergeStep(GroupBy(p, KeyOf(dateText)), x, dateText);
    }
  }

  /** The merged entries: one per key, in the order the keys first occur; each holds the
      fields of the first record with its key and the sets of groups and teachers of all of
      them; and every record's key has its entry. */
  lemma MergeEntries(ls: seq<Lesson>, dateText: int -> string)
    ensures var es := Merge(ls, dateText);
            (forall i, j :: 0 <= i < j < |es| ==> EntryKey(es[i]) != EntryKey(es[j]))
            && (forall i :: 0 <= i < |es| ==>
                  Having(ls, KeyOf(dateText), EntryKey(es[i])) != []
                  && es[i] == Summary(Having(ls, KeyOf(dateText), EntryKey(es[i])), dateText))
            && (forall j :: 0 <= j < |ls| ==> KeyOf(dateText)(ls[j]) in Keys(es))
  {
    var key := KeyOf(dateText);
    var b := GroupBy(ls, key);
    var es := Merge(ls, dateText);
    MergeGroups(ls, dateText);
    SummaryKeys(ls, dateText);
    GroupByBuckets(ls, key);
    forall j | 0 <= j < |ls| ensures key(ls[j]) in Keys(es) {
      HavingMembers(ls, key, key(ls[j]));
      if key(ls[j]) !in Keys(es) {
        forall i | 0 <= i < |b| ensures b[i].0 != key(ls[j]) {
          assert Keys(es)[i] == b[i].0;
        }
        HavingAbsent(ls, key, key(ls[j]));
      }
    }
  }

  function Keys(es: seq<Entry>): seq<MergeKey> {
    seq(|es|, i requires 0 <= i < |es| => EntryKey(es[i]))
  }

  /** An entry's groups and teachers are the sets of those of its records. */
  lemma SummarySets(hs: seq<Lesson>, dateText: int -> string)
    requires hs != []
    ensures forall g :: g in Summary(hs, dateText).groups <==> g in GroupsOf(hs)
    ensures NoDup(Summary(hs, dateText).groups)
    ensures forall t :: t in Summary(hs, dateText).teachers <==> t in TeachersOf(hs)
    ensures NoDup(Summary(hs, dateText).teachers)
  {
    var none: seq<Option<string>>, nobody: seq<string> := [], [];
    assert NoDup(none) && NoDup(nobody);
    AddEachMembers(none, GroupsOf(hs));
    AddEachMembers(nobody, TeachersOf(hs));
    assert NoDup(AddEach(none, GroupsOf(hs)));
  }

  // ---------------------------------------------------------------- rendering

  /** The sort key of `lessons_list`: (date text, start time). */
  function EntryOrder(e: Entry): seq<int> {
    StrKey(e.date) + [Agenda.StartMinutes(e.time)]
  }

  /** The entries of a week's records in the order they are printed. */
  function Arranged(ls: seq<Lesson>, dateText: int -> string): seq<Entry> {
    SortBy(Merge(ls, dateText), EntryOrder)
  }

  /** The f-string text of an optional field: a missing one prints as `None`. */
  function Str(o: Option<string>): string {
    if o.None? then "None" else o.value
  }

  function Heading(e: Entry): string {
    e.date + " | " + e.dayName + "\n\n"
  }

  function Names(gs: seq<Option<string>>): seq<string>
    requires None !in gs
  {
    seq(|gs|, i requires 0 <= i < |gs| => assert gs[i] in gs; gs[i].value)
  }

  /** `', '.join(sorted(groups))`, which raises TypeError when a group is `None`. */
  function GroupsText(gs: seq<Option<string>>): Result<string> {
    if None in gs then Raised else Ok(Join(SortBy(Names(gs), StrKey), ", "))
  }

  /** `'; '.join(sorted(teachers))`. */
  function TeachersText(ts: seq<string>): string {
    Join(SortBy(ts, StrKey), "; ")
  }

  /** The lines of one entry. */
  function EntryText(e: Entry): Result<string> {
    match GroupsText(e.groups)
    case Raised => Raised
    case Ok(groups) =>
      var teachers := TeachersText(e.teachers);
      Ok(Str(e.time) + "\n" + Str(e.number) + ". " + Str(e.subject) + " | " + groups + "\n"
         + (if Agenda.Truthy(e.kind) then e.kind.value + "\n" else "")
         + (if teachers != [] then teachers + "\n" else "")
         + (if Agenda.Truthy(e.room) then e.room.value + "\n" else "")
         + "\n")
  }

  /** Entry `i` starts a new day: its date differs from the one before it. */
  predicate NewDay(es: seq<Entry>, i: int)
    requires 0 <= i < |es|
  {
    i > 0 && es[i].date != es[i - 1].date
  }

  /** Both texts, or the exception the first raising one raises. */
  function Glue(a: Result<string>, b: Result<string>): Result<string> {
    if a.Ok? && b.Ok? then Ok(a.value + b.value) else Raised
  }

  /** The text of the nonempty entry list `es` up to entry `n`: the first date's heading,
      then for each entry a heading when its day is new, and its lines. */
  function Rendered(es: seq<Entry>, n: nat): Result<string>
    requires 0 < |es| && n <= |es|
    decreases n
  {
    if n == 0 then Ok(Heading(es[0]))
    else
      Glue(Rendered(es, n - 1),
           match EntryText(es[n - 1])
           case Raised => Raised
           case Ok(t) => Ok((if NewDay(es, n - 1) then Heading(es[n - 1]) else "") + t))
  }

  /** The text of one week: its heading, then its entries (the branch for a week without
      entries cannot be taken, since every week holds a record). */
  function RenderWeek(week: int, ls: seq<Lesson>, dateText: int -> string): Result<string> {
    var es := Arranged(ls, dateText);
    Glue(Ok("Неделя №" + IntText(week) + "\n\n"),
         if es == [] then Ok(EmptyWeek) else Rendered(es, |es|))
  }

  /** The texts of the weeks, each including any exception it raises. */
  function WeekTexts(bs: Buckets<int, Lesson>, dateText: int -> string): (r: seq<Result<string>>)
    ensures |r| == |bs|
  {
    seq(|bs|, i requires 0 <= i < |bs| => RenderWeek(bs[i].0, bs[i].1, dateText))
  }

  /** The texts one after another, or the first exception. */
  function GlueAll(rs: seq<Result<string>>): Result<string>
    decreases |rs|
  {
    if rs == [] then Ok([]) else Glue(GlueAll(rs[..|rs| - 1]), rs[|rs| - 1])
  }

  lemma {:induction false} GlueAllStops(rs: seq<Result<string>>, w: nat)
    requires w < |rs| && rs[w].Raised?
    ensures GlueAll(rs).Raised?
    decreases |rs|
  {
    if |rs| > w + 1 {
      assert rs[..|rs| - 1][w] == rs[w];
      GlueAllStops(rs[..|rs| - 1], w);
    }
  }

  /** Gluing one more text onto a prefix. */
  lemma GlueAllPrefix(rs: seq<Result<string>>, w: nat)
    requires w < |rs|
    ensures GlueAll(rs[..w + 1]) == Glue(GlueAll(rs[..w]), rs[w])
  {
    assert rs[..w + 1][..w] == rs[..w];
  }

  /** `output[:-1]`. */
  function DropLast(r: Result<string>): Result<string> {
    match r
    case Raised => Raised
    case Ok(s) => Ok(if s == [] then s else s[..|s| - 1])
  }

  /** The records `format_output` shows: all of them, or those of the requested week. */
  function Shown(timetable: seq<Lesson>, weekNumber: Option<int>): seq<Lesson> {
    if weekNumber.None? then timetable else Having(timetable, WeekOf, weekNumber.value)
  }

  /** `format_output(timetable, week_number)`. */
  function FormatSpec(timetable: seq<Lesson>, weekNumber: Option<int>, dateText: int -> string)
    : Result<string>
  {
    if timetable == [] then Ok(NothingToShow)
    else if weekNumber.None? then DropLast(GlueAll(WeekTexts(GroupBy(timetable, WeekOf), dateText)))
    else
      var n := weekNumber.value;
      var selected := Having(timetable, WeekOf, n);
      if selected == [] then Ok(NoLessonsInWeek(n)) else DropLast(GlueAll(WeekTexts([(n, selected)], dateText)))
  }

  // ---------------------------------------------------------------- what the rendering promises

  /** The dates that get a heading among the first `n` entries: the first entry's, and each
      new day's. */
  function HeadingDates(es: seq<Entry>, n: nat): seq<string>
    requires n <= |es|
    decreases n
  {
    if n == 0 then []
    else HeadingDates(es, n - 1) + (if n == 1 || NewDay(es, n - 1) then [es[n - 1].date] else [])
  }

  function Dates(es: seq<Entry>): seq<string> {
    seq(|es|, i requires 0 <= i < |es| => es[i].date)
  }

  predicate StrLt(a: string, b: string) {
    StrLe(a, b) && a != b
  }

  /** Consecutive sorted entries have ascending dates. */
  lemma SortedDates(es: seq<Entry>, i: nat)
    requires Sorted(es, EntryOrder) && 0 < i < |es|
    ensures StrLe(es[i - 1].date, es[i].date)
  {
    StrKeyLead(es[i - 1].date, es[i].date, [Agenda.StartMinutes(es[i - 1].time)], [Agenda.StartMinutes(es[i].time)]);
  }

  /** The headings among the first `n` entries are the distinct dates there, the last
      one being the date of entry `n - 1`. */
  lemma {:induction false} HeadingsCover(es: seq<Entry>, n: nat)
    requires n <= |es|
    ensures var h := HeadingDates(es, n);
            (forall d :: d in h <==> d in Dates(es)[..n])
            && (n > 0 ==> h != [] && h[|h| - 1] == es[n - 1].date)
    decreases n
  {
    if n > 0 {
      HeadingsCover(es, n - 1);
      assert Dates(es)[..n] == Dates(es)[..n - 1] + [es[n - 1].date];
    }
  }

  /** Strictly below a date that is strictly below another. */
  lemma StrLtStep(a: string, b: string, c: string)
    requires (StrLt(a, b) || a == b) && StrLt(b, c)
    ensures StrLt(a, c)
  {
    StrLeOrder(a, b, c);
    StrLeOrder(b, c, a);
    if a == b {
      StrKeyFacts(a);
    }
  }

  /** On entries whose dates ascend the headings ascend strictly. */
  lemma {:induction false} HeadingsAscend(es: seq<Entry>, n: nat)
    requires n <= |es| && forall i :: 0 < i < n ==> StrLe(es[i - 1].date, es[i].date)
    ensures var h := HeadingDates(es, n);
            forall i, j :: 0 <= i < j < |h| ==> StrLt(h[i], h[j])
    decreases n
  {
    if n > 1 && NewDay(es, n - 1) {
      HeadingsAscend(es, n - 1);
      HeadingsCover(es, n - 1);
      var p := HeadingDates(es, n - 1);
      var d := es[n - 1].date;
      var last := es[n - 2].date;
      var h := HeadingDates(es, n);
      assert h == p + [d];
      assert StrLt(last, d);
      forall i, j | 0 <= i < j < |h| ensures StrLt(h[i], h[j]) {
        if j == |p| {
          assert i < |p| - 1 ==> StrLt(p[i], p[|p| - 1]);
          StrLtStep(p[i], last, d);
        }
      }
    } else if n > 1 {
      HeadingsAscend(es, n - 1);
      assert HeadingDates(es, n) == HeadingDates(es, n - 1);
    }
  }

  lemma StrKeyFacts(a: string)
    ensures StrLe(a, a)
  {
    KeyLeRefl(StrKey(a));
  }

  /** Every record's date is the date of some printed entry. */
  lemma ArrangedDates(ls: seq<Lesson>, dateText: int -> string)
    ensures forall j :: 0 <= j < |ls| ==> dateText(ls[j].date) in Dates(Arranged(ls, dateText))
  {
    var m := Merge(ls, dateText);
    var es := Arranged(ls, dateText);
    SortByFacts(m, EntryOrder);
    forall j | 0 <= j < |ls| ensures dateText(ls[j].date) in Dates(es) {
      var i := EntryOfRecord(ls, dateText, ls[j]);
      assert m[i] in multiset(es);
      var i' :| 0 <= i' < |es| && es[i'] == m[i];
      assert Dates(es)[i'] == dateText(ls[j].date);
    }
  }

  /** The headings of a week's printed entries, and what they promise on their own. */
  lemma ArrangedHeadings(ls: seq<Lesson>, dateText: int -> string)
    ensures var es := Arranged(ls, dateText);
            var h := HeadingDates(es, |es|);
            (forall i, j :: 0 <= i < j < |h| ==> StrLt(h[i], h[j]))
            && (forall d :: d in h <==> d in Dates(es))
  {
    var es := Arranged(ls, dateText);
    SortByFacts(Merge(ls, dateText), EntryOrder);
    forall i | 0 < i < |es| ensures StrLe(es[i - 1].date, es[i].date) {
      SortedDates(es, i);
    }
    HeadingsAscend(es, |es|);
    HeadingsCover(es, |es|);
    assert Dates(es)[..|es|] == Dates(es);
  }

  /** Each date of a week's entries gets exactly one heading, the headings in ascending
      date order, and every record's date is among them. */
  lemma WeekHeadings(ls: seq<Lesson>, dateText: int -> string)
    ensures var es := Arranged(ls, dateText);
            var h := HeadingDates(es, |es|);
            (forall i, j :: 0 <= i < j < |h| ==> StrLt(h[i], h[j]))
            && (forall j :: 0 <= j < |ls| ==> dateText(ls[j].date) in h)
  {
    ArrangedHeadings(ls, dateText);
    ArrangedDates(ls, dateText);
  }

  /** Some entry has a missing group. */
  ghost predicate Ungrouped(es: seq<Entry>) {
    exists e :: e in es && None in e.groups
  }

  lemma {:induction false} RenderedRaises(es: seq<Entry>, n: nat)
    requires 0 < |es| && n <= |es|
    ensures Rendered(es, n).Raised? <==> Ungrouped(es[..n])
    decreases n
  {
    if n > 0 {
      RenderedRaises(es, n - 1);
      assert es[..n] == es[..n - 1] + [es[n - 1]];
      assert forall e :: e in es[..n] <==> e in es[..n - 1] || e == es[n - 1];
    } else {
      assert es[..0] == [];
    }
  }

  /** A lesson of `hs` with group `g`. */
  lemma GroupWitness(hs: seq<Lesson>, g: Option<string>) returns (h: Lesson)
    requires g in GroupsOf(hs)
    ensures h in hs && h.group == g
  {
    var j :| 0 <= j < |hs| && GroupsOf(hs)[j] == g;
    h := hs[j];
  }

  lemma GroupOfMember(hs: seq<Lesson>, h: Lesson)
    requires h in hs
    ensures h.group in GroupsOf(hs)
  {
    var j :| 0 <= j < |hs| && hs[j] == h;
    assert GroupsOf(hs)[j] == h.group;
  }

  /** A merged entry lacking a group comes from a record lacking one. */
  lemma MergedUngroupedRecord(ls: seq<Lesson>, dateText: int -> string)
    requires Ungrouped(Merge(ls, dateText))
    ensures None in GroupsOf(ls)
  {
    var key := KeyOf(dateText);
    var es := Merge(ls, dateText);
    MergeEntries(ls, dateText);
    var e :| e in es && None in e.groups;
    var hs := Having(ls, key, EntryKey(e));
    SummarySets(hs, dateText);
    var h := GroupWitness(hs, None);
    HavingMembers(ls, key, EntryKey(e));
    GroupOfMember(ls, h);
  }

  /** A record's merged entry: the summary of the records sharing its key. */
  lemma EntryOfRecord(ls: seq<Lesson>, dateText: int -> string, l: Lesson) returns (i: nat)
    requires l in ls
    ensures var es := Merge(ls, dateText);
            var hs := Having(ls, KeyOf(dateText), KeyOf(dateText)(l));
            i < |es| && EntryKey(es[i]) == KeyOf(dateText)(l) && l in hs && es[i] == Summary(hs, dateText)
  {
    var key := KeyOf(dateText);
    var es := Merge(ls, dateText);
    MergeEntries(ls, dateText);
    var j :| 0 <= j < |ls| && ls[j] == l;
    i :| 0 <= i < |es| && Keys(es)[i] == key(l);
    HavingMembers(ls, key, key(l));
  }

  /** A record lacking a group leaves its merged entry lacking one. */
  lemma UngroupedRecordMerged(ls: seq<Lesson>, dateText: int -> string)
    requires None in GroupsOf(ls)
    ensures Ungrouped(Merge(ls, dateText))
  {
    var l := GroupWitness(ls, None);
    var i := EntryOfRecord(ls, dateText, l);
    var hs := Having(ls, KeyOf(dateText), KeyOf(dateText)(l));
    GroupOfMember(hs, l);
    SummarySets(hs, dateText);
    var es := Merge(ls, dateText);
    assert es[i] in es && None in es[i].groups;
  }

  /** The merged entries lack a group exactly when one of the records does. */
  lemma MergeUngrouped(ls: seq<Lesson>, dateText: int -> string)
    ensures Ungrouped(Merge(ls, dateText)) <==> None in GroupsOf(ls)
  {
    if Ungrouped(Merge(ls, dateText)) {
      MergedUngroupedRecord(ls, dateText);
    }
    if None in GroupsOf(ls) {
      UngroupedRecordMerged(ls, dateText);
    }
  }

  /** The printed entries are the merged ones, and there are some exactly when the week
      has records. */
  lemma ArrangedEntries(ls: seq<Lesson>, dateText: int -> string)
    ensures var es := Arranged(ls, dateText);
            (forall e :: e in es <==> e in Merge(ls, dateText)) && (es == [] <==> ls == [])
  {
    var m := Merge(ls, dateText);
    var es := Arranged(ls, dateText);
    SortByFacts(m, EntryOrder);
    MergeEntries(ls, dateText);
    assert ls != [] ==> KeyOf(dateText)(ls[0]) in Keys(m);
    forall e ensures e in es <==> e in m {
      assert e in es <==> e in multiset(es);
      assert e in m <==> e in multiset(m);
    }
  }

  /** A week's text raises exactly when one of its records has no group. */
  lemma WeekRaises(week: int, ls: seq<Lesson>, dateText: int -> string)
    ensures RenderWeek(week, ls, dateText).Raised? <==> None in GroupsOf(ls)
  {
    var es := Arranged(ls, dateText);
    ArrangedEntries(ls, dateText);
    MergeUngrouped(ls, dateText);
    if es != [] {
      RenderedRaises(es, |es|);
      assert es[..|es|] == es;
      assert Ungrouped(es) == Ungrouped(Merge(ls, dateText));
    }
  }

  lemma {:induction false} GlueAllRaised(rs: seq<Result<string>>)
    ensures GlueAll(rs).Raised? <==> Raised in rs
    decreases |rs|
  {
    if rs != [] {
      GlueAllRaised(rs[..|rs| - 1]);
      assert rs == rs[..|rs| - 1] + [rs[|rs| - 1]];
    }
  }

  /** Each week's text raises exactly when that week has a record without a group. */
  lemma WeekTextsRaise(b: Buckets<int, Lesson>, dateText: int -> string)
    ensures var texts := WeekTexts(b, dateText);
            forall i :: 0 <= i < |b| ==> (texts[i].Raised? <==> None in GroupsOf(b[i].1))
  {
    forall i | 0 <= i < |b| {
      WeekRaises(b[i].0, b[i].1, dateText);
    }
  }

  /** Some week holds a record without a group. */
  ghost predicate SomeWeekUngrouped(b: Buckets<int, Lesson>) {
    exists i :: 0 <= i < |b| && None in GroupsOf(b[i].1)
  }

  /** A week holds a record without a group exactly when the timetable does. */
  lemma WeeksUngrouped(timetable: seq<Lesson>)
    ensures SomeWeekUngrouped(GroupBy(timetable, WeekOf)) <==> None in GroupsOf(timetable)
  {
    var b := GroupBy(timetable, WeekOf);
    GroupByBuckets(timetable, WeekOf);
    if SomeWeekUngrouped(b) {
      var i :| 0 <= i < |b| && None in GroupsOf(b[i].1);
      var h := GroupWitness(b[i].1, None);
      HavingMembers(timetable, WeekOf, b[i].0);
      GroupOfMember(timetable, h);
    }
    if None in GroupsOf(timetable) {
      var l := GroupWitness(timetable, None);
      HavingMembers(timetable, WeekOf, l.week);
      assert l in Having(timetable, WeekOf, l.week);
      if forall i :: 0 <= i < |b| ==> b[i].0 != l.week {
        HavingAbsent(timetable, WeekOf, l.week);
        assert false;
      }
      var i :| 0 <= i < |b| && b[i].0 == l.week;
      GroupOfMember(b[i].1, l);
    }
  }

  /** Rendering all weeks raises exactly when a record has no group. */
  lemma WeeksRaise(timetable: seq<Lesson>, dateText: int -> string)
    ensures GlueAll(WeekTexts(GroupBy(timetable, WeekOf), dateText)).Raised? <==> None in GroupsOf(timetable)
  {
    var b := GroupBy(timetable, WeekOf);
    var texts := WeekTexts(b, dateText);
    GlueAllRaised(texts);
    WeekTextsRaise(b, dateText);
    WeeksUngrouped(timetable);
    assert Raised in texts <==> SomeWeekUngrouped(b) by {
      if Raised in texts {
        var i :| 0 <= i < |texts| && texts[i] == Raised;
        assert None in GroupsOf(b[i].1);
      }
      if SomeWeekUngrouped(b) {
        var i :| 0 <= i < |b| && None in GroupsOf(b[i].1);
        assert texts[i] == Raised;
      }
    }
  }

  /** `format_output` raises (TypeError) exactly when one of the records it shows has no
      group. */
  lemma FormatRaises(timetable: seq<Lesson>, weekNumber: Option<int>, dateText: int -> string)
    ensures FormatSpec(timetable, weekNumber, dateText).Raised? <==> None in GroupsOf(Shown(timetable, weekNumber))
  {
    if timetable == [] {
      assert Shown(timetable, weekNumber) == [];
    } else if weekNumber.None? {
      WeeksRaise(timetable, dateText);
    } else {
      var n := weekNumber.value;
      var selected := Having(timetable, WeekOf, n);
      if selected != [] {
        WeekRaises(n, selected, dateText);
        GlueAllRaised(WeekTexts([(n, selected)], dateText));
      }
    }
  }

  lemma NoDupSorted(a: seq<string>)
    requires NoDup(a)
    ensures NoDup(SortBy(a, StrKey))
  {
    SortByFacts(a, StrKey);
    NoDupCounts(a);
    NoDupCounts(SortBy(a, StrKey));
  }

  lemma NamesFacts(gs: seq<Option<string>>)
    requires None !in gs && NoDup(gs)
    ensures forall x :: x in Names(gs) <==> Some(x) in gs
    ensures NoDup(Names(gs))
  {
    var ns := Names(gs);
    forall x ensures x in ns <==> Some(x) in gs {
      if Some(x) in gs {
        var k :| 0 <= k < |gs| && gs[k] == Some(x);
        assert ns[k] == x;
      }
      if x in ns {
        var k :| 0 <= k < |ns| && ns[k] == x;
        assert gs[k] in gs;
        assert gs[k] == Some(x);
      }
    }
    forall i, j | 0 <= i < j < |ns| ensures ns[i] != ns[j] {
      assert gs[i] in gs && gs[j] in gs;
      assert gs[i] == Some(ns[i]) && gs[j] == Some(ns[j]);
    }
  }

  /** What an entry of a week prints as its groups and teachers: sorted, each once, exactly
      the groups and teachers of the records merged into it. */
  lemma EntryLists(ls: seq<Lesson>, dateText: int -> string, i: nat)
    requires i < |Arranged(ls, dateText)|
    ensures var e := Arranged(ls, dateText)[i];
            var hs := Having(ls, KeyOf(dateText), EntryKey(e));
            var ts := SortBy(e.teachers, StrKey);
            hs != [] && e == Summary(hs, dateText)
            && Sorted(ts, StrKey) && NoDup(ts) && (forall t :: t in ts <==> t in TeachersOf(hs))
            && (None !in e.groups ==>
                  var names := SortBy(Names(e.groups), StrKey);
                  Sorted(names, StrKey) && NoDup(names)
                  && forall x :: x in names <==> Some(x) in GroupsOf(hs))
  {
    var es := Arranged(ls, dateText);
    var e := es[i];
    ArrangedEntries(ls, dateText);
    assert e in es;
    var m := Merge(ls, dateText);
    MergeEntries(ls, dateText);
    var j :| 0 <= j < |m| && m[j] == e;
    var hs := Having(ls, KeyOf(dateText), EntryKey(e));
    SummarySets(hs, dateText);
    var ts := SortBy(e.teachers, StrKey);
    SortByFacts(e.teachers, StrKey);
    NoDupSorted(e.teachers);
    forall t ensures t in ts <==> t in e.teachers {
      assert t in ts <==> t in multiset(ts);
    }
    if None !in e.groups {
      NamesFacts(e.groups);
      var names := SortBy(Names(e.groups), StrKey);
      SortByFacts(Names(e.groups), StrKey);
      NoDupSorted(Names(e.groups));
      forall x ensures x in names <==> x in Names(e.groups) {
        assert x in names <==> x in multiset(names);
      }
    }
  }

  /** The entries of a week print in (date, start time) order, each merged entry once. */
  lemma ArrangedOrder(ls: seq<Lesson>, dateText: int -> string)
    ensures var es := Arranged(ls, dateText);
            Sorted(es, EntryOrder) && multiset(es) == multiset(Merge(ls, dateText))
  {
    SortByFacts(Merge(ls, dateText), EntryOrder);
  }

  // ---------------------------------------------------------------- the loops

  /** `for teacher in teachers: s.add(teacher)`. */
  method AddNames(base: seq<string>, names: seq<string>) returns (r: seq<string>)
    ensures r == AddEach(base, names)
  {
    r := base;
    for t := 0 to |names|
      invariant r == AddEach(base, names[..t])
    {
      assert names[..t + 1][..t] == names[..t];
      if names[t] !in r {
        r := r + [names[t]];
      }
    }
    assert names[..|names|] == names;
  }

  /** The merge loop over a week's records, filling `grouped_lessons`. */
  method MergeWeek(ls: seq<Lesson>, dateText: int -> string) returns (es: seq<Entry>)
    ensures es == Merge(ls, dateText)
  {
    es := [];
    for j := 0 to |ls|
      invariant es == Merge(ls[..j], dateText)
    {
      var l := ls[j];
      assert ls[..j + 1][..j] == ls[..j];
      var k := Find(es, (dateText(l.date), l.number, l.subject, l.room));
      if k == |es| {
        var ts := AddNames([], TeacherNames(l.teacher));
        es := es + [Entry(dateText(l.date), l.dayName, l.time, l.number, l.subject, [l.group], ts,
                          l.kind, l.room)];
      } else {
        var ts := AddNames(es[k].teachers, TeacherNames(l.teacher));
        es := es[k := es[k].(groups := AddUnique(es[k].groups, l.group), teachers := ts)];
      }
    }
    assert ls[..|ls|] == ls;
  }

  lemma {:induction false} RenderedStops(es: seq<Entry>, i: nat, n: nat)
    requires i < n <= |es| && EntryText(es[i]).Raised?
    ensures Rendered(es, n).Raised?
    decreases n
  {
    if n > i + 1 { RenderedStops(es, i, n - 1); }
  }

  /** The lines `format_output` prints for one entry. */
  method EntryLines(e: Entry) returns (r: Result<string>)
    ensures r == EntryText(e)
  {
    var groups := GroupsText(e.groups);
    if groups.Raised? {
      return Raised;
    }
    var teachers := TeachersText(e.teachers);
    var out := Str(e.time) + "\n";
    out := out + Str(e.number) + ". " + Str(e.subject) + " | " + groups.value + "\n";
    ghost var o1 := out;
    if Agenda.Truthy(e.kind) { out := out + e.kind.value + "\n"; }
    ghost var o2 := out;
    assert o2 == o1 + (if Agenda.Truthy(e.kind) then e.kind.value + "\n" else "");
    if teachers != [] { out := out + teachers + "\n"; }
    ghost var o3 := out;
    assert o3 == o2 + (if teachers != [] then teachers + "\n" else "");
    if Agenda.Truthy(e.room) { out := out + e.room.value + "\n"; }
    assert out == o3 + (if Agenda.Truthy(e.room) then e.room.value + "\n" else "");
    out := out + "\n";
    r := Ok(out);
  }

  lemma RenderedStep(es: seq<Entry>, i: nat, out: string, t: string)
    requires i < |es| && Rendered(es, i) == Ok(out) && EntryText(es[i]) == Ok(t)
    ensures Rendered(es, i + 1) == Ok((out + (if NewDay(es, i) then Heading(es[i]) else "")) + t)
  {
    var h := if NewDay(es, i) then Heading(es[i]) else "";
    assert out + (h + t) == (out + h) + t;
  }

  /** The loop over the sorted entries of one week. */
  method RenderEntries(es: seq<Entry>) returns (r: Result<string>)
    requires es != []
    ensures r == Rendered(es, |es|)
  {
    var prevDay := es[0].date;
    var out := Heading(es[0]);
    for i := 0 to |es|
      invariant Rendered(es, i) == Ok(out)
      invariant i == 0 ==> prevDay == es[0].date
      invariant i > 0 ==> prevDay == es[i - 1].date
    {
      var e := es[i];
      assert (e.date != prevDay) == NewDay(es, i);
      ghost var before := out;
      if e.date != prevDay {
        prevDay := e.date;
        out := out + Heading(e);
      }
      assert out == before + (if NewDay(es, i) then Heading(e) else "");
      var lines := EntryLines(e);
      if lines.Raised? {
        RenderedStops(es, i, |es|);
        return Raised;
      }
      RenderedStep(es, i, before, lines.value);
      out := out + lines.value;
    }
    r := Ok(out);
  }

  /** One pass of the loop over `lessons_by_week.items()`. */
  method RenderWeekM(week: int, ls: seq<Lesson>, dateText: int -> string) returns (r: Result<string>)
    ensures r == RenderWeek(week, ls, dateText)
  {
    var head := "Неделя №" + IntText(week) + "\n\n";
    var lessonsList := MergeWeek(ls, dateText);
    lessonsList := SortBy(lessonsList, EntryOrder);
    if lessonsList != [] {
      var body := RenderEntries(lessonsList);
      if body.Raised? {
        return Raised;
      }
      r := Ok(head + body.value);
    } else {
      r := Ok(head + EmptyWeek);
    }
  }

  /** The loop filling `lessons_by_week` when no week is requested. */
  method GroupWeeks(timetable: seq<Lesson>) returns (lessonsByWeek: Buckets<int, Lesson>)
    ensures lessonsByWeek == GroupBy(timetable, WeekOf)
  {
    lessonsByWeek := [];
    for i := 0 to |timetable|
      invariant lessonsByWeek == GroupBy(timetable[..i], WeekOf)
    {
      assert timetable[..i + 1][..i] == timetable[..i];
      lessonsByWeek := AddTo(lessonsByWeek, timetable[i].week, timetable[i]);
    }
    assert timetable[..|timetable|] == timetable;
  }

  /** The loop over `lessons_by_week.items()`, appending each week's text. */
  method RenderAll(lessonsByWeek: Buckets<int, Lesson>, dateText: int -> string) returns (r: Result<string>)
    ensures r == GlueAll(WeekTexts(lessonsByWeek, dateText))
  {
    ghost var texts := WeekTexts(lessonsByWeek, dateText);
    var output := "";
    for w := 0 to |lessonsByWeek|
      invariant GlueAll(texts[..w]) == Ok(output)
    {
      var t := RenderWeekM(lessonsByWeek[w].0, lessonsByWeek[w].1, dateText);
      GlueAllPrefix(texts, w);
      if t.Raised? {
        GlueAllStops(texts, w);
        return Raised;
      }
      output := output + t.value;
    }
    assert texts[..|texts|] == texts;
    r := Ok(output);
  }

  /** `format_output(timetable, week_number)`, with `dateText` for `strftime('%Y.%m.%d')`. */
  method FormatOutput(timetable: seq<Lesson>, weekNumber: Option<int>, dateText: int -> string)
    returns (r: Result<string>)
    ensures r == FormatSpec(timetable, weekNumber, dateText)
    ensures timetable == [] ==> r == Ok(NothingToShow)
    ensures timetable != [] && weekNumber.Some? && (forall i :: 0 <= i < |timetable| ==> timetable[i].week != weekNumber.value)
            ==> r == Ok(NoLessonsInWeek(weekNumber.value))
  {
    if timetable == [] {
      return Ok(NothingToShow);
    }
    var lessonsByWeek: Buckets<int, Lesson>;
    if weekNumber.None? {
      lessonsByWeek := GroupWeeks(timetable);
    } else {
      var n := weekNumber.value;
      var selected := Having(timetable, WeekOf, n);
      HavingMembers(timetable, WeekOf, n);
      assert selected != [] ==> selected[0] in selected;
      lessonsByWeek := [(n, selected)];
      if selected == [] {
        return Ok(NoLessonsInWeek(n));
      }
    }
    var output := RenderAll(lessonsByWeek, dateText);
    if output.Raised? {
      return Raised;
    }
    var text := output.value;
    text := if text == [] then text else text[..|text| - 1];
    r := Ok(text);
  }
}
