/** The parse core of `BonchAPI.get_timetable` and of its two copies for a teacher's and a
    classroom's timetable. The HTML page is taken as already reduced to the texts of the
    spans the scraper reads; the three copies differ only in where a record's group comes
    from, which is a parameter here. Dates are integer day numbers. */
module Schedule {
  import opened Text
  import Order

  /** `BonchAPI.days_of_week`; `days_of_week_str_to_int` maps each name to its position. */
  const DayNames: seq<string> := ["Понедельник", "Вторник", "Среда", "Четверг", "Пятница", "Суббота"]

  /** One `div.pair`: the raw texts of its spans, `None` where a span is missing. `subject` is
      the text of the `strong` inside span `subect` (`None` when either is missing). */
  datatype Block = Block(subject: Option<string>, kind: Option<string>, teacher: Option<string>,
                         room: Option<string>, weeks: Option<string>, group: Option<string>)

  /** A table row: no `td` at all, or the slot label cell followed by one cell per day column,
      each holding the blocks found in it. */
  datatype Row = Blank | Cells(slotText: string, days: seq<seq<Block>>)

  /** The page: no `table.simple-little-table`, or a table whose `tbody` may be missing. The
      first body row is the header and is skipped. */
  datatype Page = NoTable | Table(body: Option<seq<Row>>)

  /** Where a record's group comes from: the group directory looked up by the requested id
      (a group's timetable), or the block's own `group` span (a teacher's or a room's). */
  datatype GroupSource = Directory(names: map<string, string>, id: string) | Embedded

  /** The lesson number and the time range read off a slot label. */
  datatype Slot = Slot(number: Option<string>, time: Option<string>)

  /** One record of the timetable list (the dict keys Группа, Число, День недели, Номер недели,
      Номер дня недели, Номер занятия, Время занятия, Предмет, Тип занятия, ФИО преподавателя,
      Номер кабинета). */
  datatype Lesson = Lesson(group: Option<string>, date: int, dayName: string, week: int,
                           weekday: int, number: Option<string>, time: Option<string>,
                           subject: Option<string>, kind: Option<string>,
                           teacher: Option<string>, room: Option<string>)

  /** What `get_timetable` returns: its two sentinel strings, or the records. */
  datatype Fetch = NotFound | ServerError | Found(lessons: seq<Lesson>)

  // ---------------------------------------------------------------- the slot label

  /** `s[1:-1]`. */
  function Inner(s: string): (r: string)
    ensures |s| >= 2 ==> s == [s[0]] + r + [s[|s| - 1]]
    ensures |s| <= 2 ==> r == []
  {
    if |s| <= 2 then [] else s[1..|s| - 1]
  }

  /** The slot the words of a label give: the first word is the lesson number; lesson 7 has
      a fixed time, any other takes the second word without its first and last characters. */
  function SlotOfWords(parts: seq<string>): Slot {
    var number := if parts == [] then None else Some(parts[0]);
    var time :=
      if number == Some("7") then Some("20:00-21:35")
      else if |parts| > 1 then Some(Inner(parts[1]))
      else None;
    Slot(number, time)
  }

  /** The slot of a label cell: `text.strip().split()`, then as above. */
  function ParseSlot(slotText: string): Slot {
    SlotOfWords(Words(Strip(slotText)))
  }

  // ---------------------------------------------------------------- block fields

  /** `span.text.strip()` on an optional span. */
  function Stripped(o: Option<string>): Option<string> {
    if o.Some? then Some(Strip(o.value)) else None
  }

  /** The lesson type: `span.text.strip('()')`. */
  function KindOf(o: Option<string>): Option<string> {
    if o.Some? then Some(StripBy(o.value, IsParen)) else None
  }

  /** The room: the text between the first and the second `:` of the label, trimmed, with
      every `"; Б22"` removed; no room when the label has no `:`. */
  function RoomOf(o: Option<string>): (r: Option<string>)
    ensures r.Some? <==> o.Some? && ':' in o.value
  {
    if o.Some? && ':' in o.value then Some(RemoveAll(Strip(Split(o.value, ':')[1]), "; Б22"))
    else None
  }

  /** An annotation's text once `strip('()')` has run and every `н` and `*` is removed. */
  function CleanWeeks(a: string): string {
    RemoveChar(RemoveChar(StripBy(a, IsParen), 'н'), '*')
  }

  /** The week tokens of an annotation such as `"(1,2,3н)"`: parentheses stripped, every `н`
      and `*` removed, split on `,` and each piece trimmed; nothing when the annotation is
      missing or ends up empty. */
  function WeekTokens(o: Option<string>): seq<string> {
    if o.None? then []
    else
      var text := CleanWeeks(o.value);
      if text == [] then []
      else
        var pieces := Split(text, ',');
        seq(|pieces|, i requires 0 <= i < |pieces| => Strip(pieces[i]))
  }

  /** The group of a record: the directory entry for the requested id (KeyError when the id
      is not in the directory), or the block's trimmed `group` span. */
  function GroupOf(src: GroupSource, b: Block): Result<Option<string>> {
    match src
    case Directory(names, id) => if id in names then Ok(Some(names[id])) else Raised
    case Embedded => Ok(Stripped(b.group))
  }

  // ---------------------------------------------------------------- records

  /** `int(week_str)` for each week token, `None` where it raises ValueError. */
  function Weeks(tokens: seq<string>): (r: seq<Option<int>>)
    ensures |r| == |tokens|
  {
    seq(|tokens|, i requires 0 <= i < |tokens| => ParseInt(tokens[i]))
  }

  /** The record a block yields for one week (`None` when its token is no integer); the
      group lookup may raise too. */
  function Record(src: GroupSource, firstDay: int, slot: Slot, weekday: nat, b: Block, w: Option<int>)
    : (r: Result<Lesson>)
    requires weekday < |DayNames|
    ensures r.Raised? <==> w.None? || GroupOf(src, b).Raised?
  {
    if w.None? then Raised
    else
      match GroupOf(src, b)
      case Raised => Raised
      case Ok(g) =>
        Ok(Lesson(g, firstDay + 7 * w.value + weekday, DayNames[weekday], w.value, weekday,
                  slot.number, slot.time, Stripped(b.subject), KindOf(b.kind),
                  Stripped(b.teacher), RoomOf(b.room)))
  }

  /** Concatenation of two partial lists, raising when either raised. */
  function Cat(a: Result<seq<Lesson>>, b: Result<seq<Lesson>>): (r: Result<seq<Lesson>>)
    ensures r.Raised? <==> a.Raised? || b.Raised?
  {
    if a.Ok? && b.Ok? then Ok(a.value + b.value) else Raised
  }

  /** Every record carries the date its week and weekday give, and the name of its day. */
  predicate WellDated(l: Lesson, firstDay: int) {
    0 <= l.weekday < |DayNames| && l.dayName == DayNames[l.weekday]
    && l.date == firstDay + 7 * l.week + l.weekday
  }

  /** A record's group is the one its source fixes for every record of a group's timetable. */
  predicate GroupFits(l: Lesson, src: GroupSource) {
    src.Directory? ==> src.id in src.names && l.group == Some(src.names[src.id])
  }

  predicate AllFit(ls: seq<Lesson>, src: GroupSource, firstDay: int) {
    forall i :: 0 <= i < |ls| ==> WellDated(ls[i], firstDay) && GroupFits(ls[i], src)
  }

  lemma AllFitCat(a: seq<Lesson>, b: seq<Lesson>, src: GroupSource, firstDay: int)
    requires AllFit(a, src, firstDay) && AllFit(b, src, firstDay)
    ensures AllFit(a + b, src, firstDay)
  {
    forall i | 0 <= i < |a + b| ensures WellDated((a + b)[i], firstDay) && GroupFits((a + b)[i], src) {
      if i >= |a| { assert (a + b)[i] == b[i - |a|]; }
    }
  }

  /** One record as a list of one, raising when it raised. */
  function One(r: Result<Lesson>): Result<seq<Lesson>> {
    if r.Ok? then Ok([r.value]) else Raised
  }

  /** The records of the items of `xs`, item after item, `f` giving those of the item at a
      position; the first failure makes the whole raise. */
  function Concat<X>(xs: seq<X>, f: (nat, X) -> Result<seq<Lesson>>): Result<seq<Lesson>>
    decreases |xs|
  {
    if xs == [] then Ok([]) else Cat(Concat(xs[..|xs| - 1], f), f(|xs| - 1, xs[|xs| - 1]))
  }

  /** The records of one block for its list of weeks, week after week. */
  function WeekRecords(src: GroupSource, firstDay: int, slot: Slot, weekday: nat, b: Block,
                       ws: seq<Option<int>>): Result<seq<Lesson>>
    requires weekday < |DayNames|
  {
    Concat(ws, (i: nat, w: Option<int>) => One(Record(src, firstDay, slot, weekday, b, w)))
  }

  /** The records of one block. */
  function BlockRecords(src: GroupSource, firstDay: int, slot: Slot, weekday: nat, b: Block)
    : Result<seq<Lesson>>
    requires weekday < |DayNames|
  {
    WeekRecords(src, firstDay, slot, weekday, b, Weeks(WeekTokens(b.weeks)))
  }

  /** The records of the blocks of one day cell, block after block. */
  function BlocksRecords(src: GroupSource, firstDay: int, slot: Slot, weekday: nat,
                         blocks: seq<Block>): Result<seq<Lesson>>
    requires weekday < |DayNames|
  {
    Concat(blocks, (j: nat, b: Block) => BlockRecords(src, firstDay, slot, weekday, b))
  }

  /** The records of the day cell in column `day` after the label: an empty cell is skipped
      first, so only a non-empty seventh or later column raises (IndexError). */
  function DayRecords(src: GroupSource, firstDay: int, slot: Slot, day: nat, blocks: seq<Block>)
    : Result<seq<Lesson>>
  {
    if blocks == [] then Ok([])
    else if day >= |DayNames| then Raised
    else BlocksRecords(src, firstDay, slot, day, blocks)
  }

  /** The records of the day cells of one row, column after column. */
  function CellsRecords(src: GroupSource, firstDay: int, slot: Slot, days: seq<seq<Block>>)
    : Result<seq<Lesson>>
  {
    Concat(days, (d: nat, blocks: seq<Block>) => DayRecords(src, firstDay, slot, d, blocks))
  }

  /** The records of one row; a row without cells yields none. */
  function RowRecords(src: GroupSource, firstDay: int, row: Row): Result<seq<Lesson>> {
    match row
    case Blank => Ok([])
    case Cells(slotText, days) => CellsRecords(src, firstDay, ParseSlot(slotText), days)
  }

  /** The records of the rows, row after row, in the order they are appended. */
  function RowsRecords(src: GroupSource, firstDay: int, rows: seq<Row>): Result<seq<Lesson>> {
    Concat(rows, (k: nat, row: Row) => RowRecords(src, firstDay, row))
  }

  /** The sort key of the returned list: (week, weekday). */
  function WeekDayKey(l: Lesson): seq<int> {
    [l.week, l.weekday]
  }

  /** `rows[1:]`. */
  function Body(rows: seq<Row>): seq<Row> {
    if rows == [] then [] else rows[1..]
  }

  /** What `get_timetable` returns for a page: the records sorted by (week, weekday), or one
      of its two sentinels. Every exception inside the `try` becomes the server-error one. */
  function FetchSpec(page: Page, src: GroupSource, firstDay: int): Fetch {
    match page
    case NoTable => NotFound
    case Table(body) =>
      if body.None? then ServerError
      else
        match RowsRecords(src, firstDay, Body(body.value))
        case Raised => ServerError
        case Ok(ls) => Found(Order.SortBy(ls, WeekDayKey))
  }

  // ---------------------------------------------------------------- properties of the parse

  /** An emitted record carries its week's date and day name, and a group's timetable
      puts the directory's group name on it. */
  lemma RecordFits(src: GroupSource, firstDay: int, slot: Slot, weekday: nat, b: Block, w: Option<int>)
    requires weekday < |DayNames|
    ensures Record(src, firstDay, slot, weekday, b, w).Ok? ==>
              var l := Record(src, firstDay, slot, weekday, b, w).value;
              WellDated(l, firstDay) && GroupFits(l, src) && l.week == w.value
  {
  }

  /** A concatenation raises exactly when one of its parts does. */
  lemma {:induction false} ConcatRaised<X>(xs: seq<X>, f: (nat, X) -> Result<seq<Lesson>>)
    ensures Concat(xs, f).Raised? <==> exists i :: 0 <= i < |xs| && f(i, xs[i]).Raised?
    decreases |xs|
  {
    if xs != [] {
      var n := |xs| - 1;
      ConcatRaised(xs[..n], f);
      if Concat(xs[..n], f).Raised? {
        var i :| 0 <= i < n && f(i, xs[..n][i]).Raised?;
        assert xs[..n][i] == xs[i];
      } else if f(n, xs[n]).Raised? {
      } else {
        forall i | 0 <= i < |xs| ensures f(i, xs[i]).Ok? {
          if i < n { assert xs[..n][i] == xs[i]; }
        }
      }
    }
  }

  /** A concatenation of well-dated parts is well dated. */
  lemma {:induction false} ConcatFit<X>(xs: seq<X>, f: (nat, X) -> Result<seq<Lesson>>, src: GroupSource,
                                        firstDay: int)
    requires forall i :: 0 <= i < |xs| && f(i, xs[i]).Ok? ==> AllFit(f(i, xs[i]).value, src, firstDay)
    ensures Concat(xs, f).Ok? ==> AllFit(Concat(xs, f).value, src, firstDay)
    decreases |xs|
  {
    if xs != [] {
      var n := |xs| - 1;
      forall i | 0 <= i < n && f(i, xs[..n][i]).Ok? ensures AllFit(f(i, xs[..n][i]).value, src, firstDay) {
        assert xs[..n][i] == xs[i];
      }
      ConcatFit(xs[..n], f, src, firstDay);
      if Concat(xs, f).Ok? {
        AllFitCat(Concat(xs[..n], f).value, f(n, xs[n]).value, src, firstDay);
      }
    }
  }

  /** A block yields one record per week, in week order. */
  lemma {:induction false} WeekRecordsEach(src: GroupSource, firstDay: int, slot: Slot, weekday: nat,
                                           b: Block, ws: seq<Option<int>>)
    requires weekday < |DayNames|
    requires WeekRecords(src, firstDay, slot, weekday, b, ws).Ok?
    ensures |WeekRecords(src, firstDay, slot, weekday, b, ws).value| == |ws|
    ensures forall i :: 0 <= i < |ws| ==>
              Record(src, firstDay, slot, weekday, b, ws[i]) == Ok(WeekRecords(src, firstDay, slot, weekday, b, ws).value[i])
    decreases |ws|
  {
    if ws != [] {
      var n := |ws| - 1;
      var prev := WeekRecords(src, firstDay, slot, weekday, b, ws[..n]);
      var last := Record(src, firstDay, slot, weekday, b, ws[n]);
      assert prev.Ok? && last.Ok?;
      WeekRecordsEach(src, firstDay, slot, weekday, b, ws[..n]);
      var ls := prev.value + [last.value];
      assert WeekRecords(src, firstDay, slot, weekday, b, ws).value == ls;
      forall i | 0 <= i < |ws| ensures Record(src, firstDay, slot, weekday, b, ws[i]) == Ok(ls[i]) {
        if i < n { assert ls[i] == prev.value[i] && ws[..n][i] == ws[i]; }
      }
    }
  }

  /** A block raises exactly when one of its week tokens is no integer (`int()` raises) or, for a group's
      timetable, when it has a token and the group id is not in the directory. */
  lemma BlockRaised(src: GroupSource, firstDay: int, slot: Slot, weekday: nat, b: Block)
    requires weekday < |DayNames|
    ensures var ws := Weeks(WeekTokens(b.weeks));
            BlockRecords(src, firstDay, slot, weekday, b).Raised? <==>
              None in ws || (ws != [] && src.Directory? && src.id !in src.names)
  {
    var ws := Weeks(WeekTokens(b.weeks));
    var f := (i: nat, w: Option<int>) => One(Record(src, firstDay, slot, weekday, b, w));
    ConcatRaised(ws, f);
    if None in ws {
      var i :| 0 <= i < |ws| && ws[i] == None;
      assert f(i, ws[i]).Raised?;
    }
    if ws != [] {
      assert f(0, ws[0]).Raised? <==> ws[0].None? || GroupOf(src, b).Raised?;
    }
  }

  /** A block that does not raise yields exactly one well-dated record per week token, in
      token order. */
  lemma BlockEach(src: GroupSource, firstDay: int, slot: Slot, weekday: nat, b: Block)
    requires weekday < |DayNames|
    requires BlockRecords(src, firstDay, slot, weekday, b).Ok?
    ensures var tokens := WeekTokens(b.weeks);
            var ls := BlockRecords(src, firstDay, slot, weekday, b).value;
            |ls| == |tokens| && AllFit(ls, src, firstDay) &&
            forall i :: 0 <= i < |ls| ==> Record(src, firstDay, slot, weekday, b, ParseInt(tokens[i])) == Ok(ls[i])
  {
    var tokens := WeekTokens(b.weeks);
    var ws := Weeks(tokens);
    var r := BlockRecords(src, firstDay, slot, weekday, b);
    WeekRecordsEach(src, firstDay, slot, weekday, b, ws);
    forall i | 0 <= i < |r.value| ensures WellDated(r.value[i], firstDay) && GroupFits(r.value[i], src) {
      RecordFits(src, firstDay, slot, weekday, b, ws[i]);
    }
  }

  /** A day cell raises exactly when one of its blocks does. */
  lemma BlocksShape(src: GroupSource, firstDay: int, slot: Slot, weekday: nat, blocks: seq<Block>)
    requires weekday < |DayNames|
    ensures BlocksRecords(src, firstDay, slot, weekday, blocks).Raised? <==>
              exists j :: 0 <= j < |blocks| && BlockRecords(src, firstDay, slot, weekday, blocks[j]).Raised?
    ensures BlocksRecords(src, firstDay, slot, weekday, blocks).Ok? ==>
              AllFit(BlocksRecords(src, firstDay, slot, weekday, blocks).value, src, firstDay)
  {
    var f := (j: nat, b: Block) => BlockRecords(src, firstDay, slot, weekday, b);
    ConcatRaised(blocks, f);
    forall j | 0 <= j < |blocks| && f(j, blocks[j]).Ok? ensures AllFit(f(j, blocks[j]).value, src, firstDay) {
      BlockEach(src, firstDay, slot, weekday, blocks[j]);
    }
    ConcatFit(blocks, f, src, firstDay);
  }

  /** The cells of a row raise exactly when some column raises: a non-empty cell beyond the
      sixth day column, or a failing block. */
  lemma CellsShape(src: GroupSource, firstDay: int, slot: Slot, days: seq<seq<Block>>)
    ensures CellsRecords(src, firstDay, slot, days).Raised? <==>
              exists d :: 0 <= d < |days| && days[d] != [] &&
                (d >= |DayNames| || BlocksRecords(src, firstDay, slot, d, days[d]).Raised?)
    ensures CellsRecords(src, firstDay, slot, days).Ok? ==>
              AllFit(CellsRecords(src, firstDay, slot, days).value, src, firstDay)
  {
    var f := (d: nat, blocks: seq<Block>) => DayRecords(src, firstDay, slot, d, blocks);
    ConcatRaised(days, f);
    forall d | 0 <= d < |days| && f(d, days[d]).Ok? ensures AllFit(f(d, days[d]).value, src, firstDay) {
      if days[d] != [] { BlocksShape(src, firstDay, slot, d, days[d]); }
    }
    ConcatFit(days, f, src, firstDay);
  }

  /** The rows raise exactly when one of them does. */
  lemma RowsShape(src: GroupSource, firstDay: int, rows: seq<Row>)
    ensures RowsRecords(src, firstDay, rows).Raised? <==>
              exists k :: 0 <= k < |rows| && RowRecords(src, firstDay, rows[k]).Raised?
    ensures RowsRecords(src, firstDay, rows).Ok? ==> AllFit(RowsRecords(src, firstDay, rows).value, src, firstDay)
  {
    var f := (k: nat, row: Row) => RowRecords(src, firstDay, row);
    ConcatRaised(rows, f);
    forall k | 0 <= k < |rows| && f(k, rows[k]).Ok? ensures AllFit(f(k, rows[k]).value, src, firstDay) {
      if rows[k].Cells? { CellsShape(src, firstDay, ParseSlot(rows[k].slotText), rows[k].days); }
    }
    ConcatFit(rows, f, src, firstDay);
  }

  /** `get_timetable` never raises: a missing table gives the not-found sentinel, any failure
      inside the parse the server-error one, and otherwise the list holds exactly the
      parsed records, well dated, sorted by (week, weekday), records of equal key kept in
      the order they were appended. */
  lemma FetchOutcome(page: Page, src: GroupSource, firstDay: int)
    ensures FetchSpec(page, src, firstDay).NotFound? <==> page.NoTable?
    ensures page.Table? && page.body.Some? ==>
              var rows := Body(page.body.value);
              (FetchSpec(page, src, firstDay).ServerError? <==>
                 exists k :: 0 <= k < |rows| && RowRecords(src, firstDay, rows[k]).Raised?)
    ensures page.Table? && page.body.None? ==> FetchSpec(page, src, firstDay).ServerError?
    ensures FetchSpec(page, src, firstDay).Found? ==>
              var ls := FetchSpec(page, src, firstDay).lessons;
              var parsed := RowsRecords(src, firstDay, Body(page.body.value)).value;
              Order.Sorted(ls, WeekDayKey) && multiset(ls) == multiset(parsed) && AllFit(ls, src, firstDay)
              && forall k :: Order.Having(ls, WeekDayKey, k) == Order.Having(parsed, WeekDayKey, k)
  {
    if page.Table? && page.body.Some? {
      var rows := Body(page.body.value);
      RowsShape(src, firstDay, rows);
      var r := RowsRecords(src, firstDay, rows);
      if r.Ok? {
        var ls := Order.SortBy(r.value, WeekDayKey);
        Order.SortByFacts(r.value, WeekDayKey);
        forall k ensures Order.Having(ls, WeekDayKey, k) == Order.Having(r.value, WeekDayKey, k) {
          Order.SortStable(r.value, WeekDayKey, k);
        }
        forall i | 0 <= i < |ls| ensures WellDated(ls[i], firstDay) && GroupFits(ls[i], src) {
          assert ls[i] in multiset(r.value);
          var j :| 0 <= j < |r.value| && r.value[j] == ls[i];
        }
      }
    }
  }

  // ---------------------------------------------------------------- slot, week and room texts

  /** The words of a label `"<n> (<t>)"`. */
  lemma LabelWords(n: string, t: string)
    requires n != [] && NoSpace(n) && NoSpace(t)
    ensures Words(Strip(n + " (" + t + ")")) == [n, "(" + t + ")"]
  {
    var paren := "(" + t + ")";
    var rest := " " + paren;
    var whole := n + " (" + t + ")";
    assert whole == n + rest by { LabelShape(n, t); }
    assert Strip(whole) == whole by {
      ParenNoSpace(paren, t);
      LabelStrip(n, paren);
    }
    assert Words(whole) == [n] + Words(rest) by {
      assert rest[0] == ' ';
      WordsStart(n, rest);
    }
    assert Words(rest) == [paren] by { SpacedWord(paren, t); }
  }

  lemma LabelShape(n: string, t: string)
    ensures n + " (" + t + ")" == n + (" " + ("(" + t + ")"))
  {
  }

  lemma LabelStrip(n: string, paren: string)
    requires n != [] && NoSpace(n) && paren != [] && NoSpace(paren)
    ensures Strip(n + (" " + paren)) == n + (" " + paren)
  {
    var whole := n + (" " + paren);
    assert whole[0] == n[0] && whole[|whole| - 1] == paren[|paren| - 1];
    StripByUnchanged(whole, IsSpace);
  }

  lemma SpacedWord(paren: string, t: string)
    requires paren == "(" + t + ")" && NoSpace(t)
    ensures Words(" " + paren) == [paren]
  {
    ParenNoSpace(paren, t);
    WordAfterSpace(paren);
  }

  lemma ParenNoSpace(paren: string, t: string)
    requires paren == "(" + t + ")" && NoSpace(t)
    ensures NoSpace(paren)
  {
    forall k | 0 <= k < |paren| ensures !IsSpace(paren[k]) {
      if 0 < k < |paren| - 1 { assert paren[k] == t[k - 1]; }
    }
  }

  lemma WordAfterSpace(w: string)
    requires w != [] && NoSpace(w)
    ensures Words(" " + w) == [w]
  {
    var rest := " " + w;
    WordsSkipSpace(rest);
    SkipOneSpace(w);
    WordsStart(w, []);
    assert w + [] == w;
  }

  lemma SkipOneSpace(w: string)
    requires w != [] && NoSpace(w)
    ensures TrimStart(" " + w, IsSpace) == w
  {
    assert (" " + w)[1..] == w;
  }

  /** A label `"<n> (<t>)"` gives lesson number `n` and time `t`, except that lesson 7 always
      gets 20:00-21:35. */
  lemma SlotOfLabel(n: string, t: string)
    requires n != [] && NoSpace(n) && NoSpace(t)
    ensures ParseSlot(n + " (" + t + ")") ==
              Slot(Some(n), Some(if n == "7" then "20:00-21:35" else t))
  {
    LabelWords(n, t);
    var paren := "(" + t + ")";
    if t != [] { assert paren[1..|paren| - 1] == t; }
    assert Inner(paren) == t;
  }

  lemma NumberWords(n: string)
    requires n != [] && NoSpace(n)
    ensures Words(Strip(n)) == [n]
  {
    StripByUnchanged(n, IsSpace);
    WordsStart(n, []);
    assert n + [] == n;
  }

  /** A label that is a single word gives that lesson number and no time, except lesson 7. */
  lemma SlotOfNumber(n: string)
    requires n != [] && NoSpace(n)
    ensures ParseSlot(n) == Slot(Some(n), if n == "7" then Some("20:00-21:35") else None)
  {
    NumberWords(n);
  }

  /** A blank label gives neither a number nor a time. */
  lemma SlotOfBlank(slotText: string)
    requires AllSpace(slotText)
    ensures ParseSlot(slotText) == Slot(None, None)
  {
    StripByAll(slotText, IsSpace);
  }

  /** The texts of a list of week numbers. */
  function WeekTexts(ws: seq<int>): (r: seq<string>)
    ensures |r| == |ws|
    ensures forall i :: 0 <= i < |ws| ==> r[i] == IntText(ws[i])
  {
    seq(|ws|, i requires 0 <= i < |ws| => IntText(ws[i]))
  }

  /** The annotation the portal prints for a list of weeks, e.g. `"(1,2,3н)"`. */
  function Annotation(ws: seq<int>): string {
    "(" + Join(WeekTexts(ws), ",") + "н)"
  }

  predicate NumberChar(c: char) { IsDigit(c) || c == '-' || c == ',' }

  lemma {:induction false} JoinNumberChars(parts: seq<string>)
    requires forall i, k :: 0 <= i < |parts| && 0 <= k < |parts[i]| ==> IsDigit(parts[i][k]) || parts[i][k] == '-'
    ensures forall k :: 0 <= k < |Join(parts, ",")| ==> NumberChar(Join(parts, ",")[k])
    ensures parts != [] && parts[0] != [] ==> Join(parts, ",") != []
    decreases |parts|
  {
    if |parts| > 1 {
      JoinNumberChars(parts[1..]);
      var tail := Join(parts[1..], ",");
      var j := Join(parts, ",");
      assert j == parts[0] + "," + tail;
      forall k | 0 <= k < |j| ensures NumberChar(j[k]) {
        if k < |parts[0]| { assert j[k] == parts[0][k]; }
        else if k > |parts[0]| { assert j[k] == tail[k - |parts[0]| - 1]; }
      }
    } else if |parts| == 1 {
      assert Join(parts, ",") == parts[0];
    }
  }

  /** Stripping the parentheses of `"(<x>н)"` leaves `x` followed by `н`. */
  lemma StripAnnotation(x: string)
    requires forall k :: 0 <= k < |x| ==> NumberChar(x[k])
    ensures StripBy("(" + x + "н)", IsParen) == x + "н"
  {
    var s := "(" + x + "н)";
    var u := x + "н)";
    var v := x + "н";
    assert s[1..] == u;
    assert StripBy(s, IsParen) == StripBy(u, IsParen);
    assert u[..|u| - 1] == v;
    assert StripBy(u, IsParen) == StripBy(v, IsParen);
    assert v != [] && v[|v| - 1] == 'н';
    if x != [] {
      assert v[0] == x[0] && NumberChar(x[0]);
    }
    StripByUnchanged(v, IsParen);
  }

  /** Removing every `н` and `*` from `x + "н"` leaves `x` when `x` is made of number characters. */
  lemma RemoveMarks(x: string)
    requires forall k :: 0 <= k < |x| ==> NumberChar(x[k])
    ensures RemoveChar(RemoveChar(x + "н", 'н'), '*') == x
  {
    RemoveCharConcat(x, "н", 'н');
    assert forall k :: 0 <= k < |x| ==> x[k] != 'н' && x[k] != '*';
    assert 'н' !in x && '*' !in x;
    RemoveCharAbsent(x, 'н');
    RemoveCharAbsent(x, '*');
    assert RemoveChar("н", 'н') == [];
    assert x + [] == x;
  }

  /** Splitting the joined texts at `,` and trimming the pieces gives back the texts. */
  lemma SplitTexts(ws: seq<int>)
    requires ws != []
    ensures var parts := WeekTexts(ws);
            var pieces := Split(Join(parts, ","), ',');
            pieces == parts && forall i :: 0 <= i < |pieces| ==> Strip(pieces[i]) == parts[i]
  {
    var parts := WeekTexts(ws);
    forall i | 0 <= i < |parts| ensures ',' !in parts[i] {
      assert forall k :: 0 <= k < |parts[i]| ==> parts[i][k] != ',';
    }
    SplitJoin(parts, ',');
    forall i | 0 <= i < |parts| ensures Strip(parts[i]) == parts[i] {
      StripByUnchanged(parts[i], IsSpace);
    }
  }

  /** Reading the week annotation of a list of week numbers gives back their texts; an
      empty list gives no tokens at all. */
  lemma WeekTokensOf(ws: seq<int>)
    ensures WeekTokens(Some(Annotation(ws))) == WeekTexts(ws)
  {
    var parts := WeekTexts(ws);
    var x := Join(parts, ",");
    JoinNumberChars(parts);
    var text := RemoveChar(RemoveChar(StripBy(Annotation(ws), IsParen), 'н'), '*');
    assert text == x by {
      StripAnnotation(x);
      RemoveMarks(x);
    }
    if ws != [] {
      assert parts[0] != [];
      SplitTexts(ws);
    } else {
      assert x == [];
    }
  }

  /** `int()` on the tokens of an annotation gives back the week numbers. */
  lemma WeeksOf(ws: seq<int>)
    ensures |Weeks(WeekTokens(Some(Annotation(ws))))| == |ws|
    ensures forall i :: 0 <= i < |ws| ==> Weeks(WeekTokens(Some(Annotation(ws))))[i] == Some(ws[i])
  {
    WeekTokensOf(ws);
    var tokens := WeekTexts(ws);
    forall i | 0 <= i < |ws| ensures Weeks(tokens)[i] == Some(ws[i]) {
      ParseIntText(ws[i]);
    }
  }

  /** A missing week annotation, or one whose text is empty once cleaned, yields no records
      for its block. */
  lemma NoWeeks(src: GroupSource, firstDay: int, slot: Slot, weekday: nat, b: Block)
    requires weekday < |DayNames|
    requires b.weeks == None || CleanWeeks(b.weeks.value) == []
    ensures BlockRecords(src, firstDay, slot, weekday, b) == Ok([])
  {
    assert WeekTokens(b.weeks) == [];
  }

  /** An annotation made only of the marks `н` and `*`, bare or in parentheses (`""`, `"*"`,
      `"()"`, `"(н)"`), cleans to the empty text. */
  lemma MarksOnly(marks: string)
    requires forall k :: 0 <= k < |marks| ==> marks[k] == 'н' || marks[k] == '*'
    ensures CleanWeeks(marks) == [] && CleanWeeks("(" + marks + ")") == []
  {
    StripByUnchanged(marks, IsParen);
    var p := "(" + marks + ")";
    assert p[1..] == marks + ")";
    assert (marks + ")")[..|marks|] == marks;
    assert StripBy(p, IsParen) == StripBy(marks + ")", IsParen) == StripBy(marks, IsParen);
    MarksRemoved(marks);
  }

  lemma {:induction false} MarksRemoved(marks: string)
    requires forall k :: 0 <= k < |marks| ==> marks[k] == 'н' || marks[k] == '*'
    ensures RemoveChar(RemoveChar(marks, 'н'), '*') == []
    decreases |marks|
  {
    if marks != [] {
      MarksRemoved(marks[1..]);
      var head := if marks[0] == 'н' then [] else [marks[0]];
      assert RemoveChar(marks, 'н') == head + RemoveChar(marks[1..], 'н');
      RemoveCharConcat(head, RemoveChar(marks[1..], 'н'), '*');
    }
  }

  /** A block annotated with a list of weeks yields, when its group is known, exactly one
      record per listed week, in list order, dated `first_day + 7*week + weekday`, with the
      block's fields copied. */
  lemma BlockOfWeeks(src: GroupSource, firstDay: int, slot: Slot, weekday: nat, b: Block, ws: seq<int>)
    requires weekday < |DayNames|
    requires b.weeks == Some(Annotation(ws))
    requires GroupOf(src, b).Ok?
    ensures BlockRecords(src, firstDay, slot, weekday, b).Ok?
    ensures var ls := BlockRecords(src, firstDay, slot, weekday, b).value;
            |ls| == |ws| &&
            forall i :: 0 <= i < |ws| ==>
              ls[i] == Lesson(GroupOf(src, b).value, firstDay + 7 * ws[i] + weekday, DayNames[weekday],
                              ws[i], weekday, slot.number, slot.time, Stripped(b.subject),
                              KindOf(b.kind), Stripped(b.teacher), RoomOf(b.room))
  {
    BlockOfWeeksOk(src, firstDay, slot, weekday, b, ws);
    var tks := WeekTokens(b.weeks);
    var ls := BlockRecords(src, firstDay, slot, weekday, b).value;
    assert forall i :: 0 <= i < |ws| ==> Record(src, firstDay, slot, weekday, b, Some(ws[i])) == Ok(ls[i]);
  }

  lemma BlockOfWeeksOk(src: GroupSource, firstDay: int, slot: Slot, weekday: nat, b: Block, ws: seq<int>)
    requires weekday < |DayNames|
    requires b.weeks == Some(Annotation(ws))
    requires GroupOf(src, b).Ok?
    ensures BlockRecords(src, firstDay, slot, weekday, b).Ok?
    ensures var ls := BlockRecords(src, firstDay, slot, weekday, b).value;
            |ls| == |ws| &&
            forall i :: 0 <= i < |ws| ==> Record(src, firstDay, slot, weekday, b, Some(ws[i])) == Ok(ls[i])
  {
    var tks := WeekTokens(b.weeks);
    var wk := Weeks(tks);
    assert |wk| == |ws| && forall i :: 0 <= i < |ws| ==> wk[i] == Some(ws[i]) by { WeeksOf(ws); }
    assert BlockRecords(src, firstDay, slot, weekday, b).Ok? by {
      assert None !in wk;
      BlockRaised(src, firstDay, slot, weekday, b);
    }
    var ls := BlockRecords(src, firstDay, slot, weekday, b).value;
    assert |ls| == |ws| && forall i :: 0 <= i < |ls| ==> Record(src, firstDay, slot, weekday, b, ParseInt(tks[i])) == Ok(ls[i]) by {
      BlockEach(src, firstDay, slot, weekday, b);
    }
    forall i | 0 <= i < |ws| ensures Record(src, firstDay, slot, weekday, b, Some(ws[i])) == Ok(ls[i]) {
      assert ParseInt(tks[i]) == wk[i] == Some(ws[i]);
    }
  }

  /** The room is the text after the only colon of the label. */
  lemma RoomAfterColon(a: string, r: string)
    requires ':' !in a && ':' !in r
    ensures RoomOf(Some(a + ":" + r)) == Some(RemoveAll(Strip(r), "; Б22"))
  {
    var s := a + ":" + r;
    assert s == a + [':'] + r;
    assert s[|a|] == ':';
    SplitAfter(a, ':', r);
    SplitWhole(r, ':');
    assert Split(s, ':')[1] == r;
  }

  /** The room is the text between the first and the second colon, whatever follows. */
  lemma RoomBetweenColons(a: string, r: string, rest: string)
    requires ':' !in a && ':' !in r
    ensures RoomOf(Some(a + ":" + r + ":" + rest)) == Some(RemoveAll(Strip(r), "; Б22"))
  {
    var s := a + ":" + r + ":" + rest;
    var tail := r + [':'] + rest;
    assert s == a + [':'] + tail;
    assert s[|a|] == ':';
    SplitAfter(a, ':', tail);
    SplitAfter(r, ':', rest);
    assert Split(s, ':')[1] == r;
  }

  /** A room label `... : r; Б22` gives the room `r`: the building suffix is removed. */
  lemma RoomWithBuilding(a: string, r: string)
    requires ':' !in a && ':' !in r && ';' !in r
    requires r != [] ==> !IsSpace(r[0])
    ensures RoomOf(Some(a + ":" + r + "; Б22")) == Some(r)
  {
    var t := r + "; Б22";
    assert a + ":" + r + "; Б22" == a + ":" + t;
    assert ':' !in t by {
      assert forall i | |r| <= i < |t| :: t[i] == "; Б22"[i - |r|];
    }
    RoomAfterColon(a, t);
    assert t[0] == (if r == [] then ';' else r[0]);
    assert t[|t| - 1] == '2';
    StripByUnchanged(t, IsSpace);
    assert Strip(t) == t;
    RemoveAllDrops(r, "; Б22", []);
    assert r + "; Б22" + [] == t;
    assert RemoveAll(t, "; Б22") == r + RemoveAll([], "; Б22") == r;
  }

  // ---------------------------------------------------------------- the scraping loops

  /** One step of a concatenation: after the items before `i` have been appended to `acc`
      giving `data`, appending the item at `i` continues it. */
  lemma ConcatNext<X>(acc: seq<Lesson>, data: seq<Lesson>, xs: seq<X>, i: nat,
                      f: (nat, X) -> Result<seq<Lesson>>)
    requires i < |xs|
    requires Cat(Ok(acc), Concat(xs[..i], f)) == Ok(data)
    ensures Cat(Ok(acc), Concat(xs[..i + 1], f)) == Cat(Ok(data), f(i, xs[i]))
  {
    var ys := xs[..i + 1];
    assert ys[..i] == xs[..i] && ys[i] == xs[i];
    var prefix := Concat(xs[..i], f);
    var item := f(i, xs[i]);
    assert Concat(ys, f) == Cat(prefix, item);
    if item.Ok? {
      assert acc + (prefix.value + item.value) == data + item.value;
    }
  }

  /** Once an item raises, the whole concatenation raises. */
  lemma ConcatStops<X>(acc: seq<Lesson>, xs: seq<X>, i: nat, f: (nat, X) -> Result<seq<Lesson>>)
    requires i < |xs| && f(i, xs[i]).Raised?
    ensures Cat(Ok(acc), Concat(xs, f)).Raised?
  {
    ConcatRaised(xs, f);
  }

  /** The record of one week of a block, once its token has been read as `w` and the group
      found. */
  lemma RecordStep(src: GroupSource, firstDay: int, slot: Slot, weekday: nat, b: Block, w: int,
                   g: Option<string>)
    requires weekday < |DayNames|
    requires GroupOf(src, b) == Ok(g)
    ensures One(Record(src, firstDay, slot, weekday, b, Some(w))) ==
              Ok([Lesson(g, firstDay + w * 7 + weekday, DayNames[weekday], w, weekday, slot.number,
                         slot.time, Stripped(b.subject), KindOf(b.kind), Stripped(b.teacher),
                         RoomOf(b.room))])
  {
  }

  /** The fields of a block and the records of its week annotation. */
  method EmitBlock(src: GroupSource, firstDay: int, slot: Slot, weekday: nat, b: Block,
                   acc: seq<Lesson>) returns (r: Result<seq<Lesson>>)
    requires weekday < |DayNames|
    ensures r == Cat(Ok(acc), BlockRecords(src, firstDay, slot, weekday, b))
  {
    var weeksList := WeekTokens(b.weeks);
    r := EmitWeeks(src, firstDay, slot, weekday, b, weeksList, acc);
  }

  /** The inner loop over the week tokens of one block: each token is read with `int()` and
      one record is appended per week, the group looked up for each. */
  method EmitWeeks(src: GroupSource, firstDay: int, slot: Slot, weekday: nat, b: Block,
                   weeksList: seq<string>, acc: seq<Lesson>) returns (r: Result<seq<Lesson>>)
    requires weekday < |DayNames|
    ensures r == Cat(Ok(acc), WeekRecords(src, firstDay, slot, weekday, b, Weeks(weeksList)))
  {
    ghost var ws := Weeks(weeksList);
    ghost var f := (i: nat, w: Option<int>) => One(Record(src, firstDay, slot, weekday, b, w));
    var data := acc;
    assert ws[..0] == [] && acc + [] == acc;
    for i := 0 to |weeksList|
      invariant Cat(Ok(acc), Concat(ws[..i], f)) == Ok(data)
    {
      ConcatNext(acc, data, ws, i, f);
      var weekNumber := ParseInt(weeksList[i]);
      assert weekNumber == ws[i];
      if weekNumber.None? {
        ConcatStops(acc, ws, i, f);
        return Raised;
      }
      var group := GroupOf(src, b);
      if group.Raised? {
        ConcatStops(acc, ws, i, f);
        return Raised;
      }
      var lessonDate := firstDay + weekNumber.value * 7 + weekday;
      RecordStep(src, firstDay, slot, weekday, b, weekNumber.value, group.value);
      data := data + [Lesson(group.value, lessonDate, DayNames[weekday], weekNumber.value, weekday,
                             slot.number, slot.time, Stripped(b.subject), KindOf(b.kind), Stripped(b.teacher), RoomOf(b.room))];
    }
    assert ws[..|weeksList|] == ws;
    r := Ok(data);
  }

  /** The loop over the blocks of one day cell. */
  method EmitBlocks(src: GroupSource, firstDay: int, slot: Slot, weekday: nat, blocks: seq<Block>,
                    acc: seq<Lesson>) returns (r: Result<seq<Lesson>>)
    requires weekday < |DayNames|
    ensures r == Cat(Ok(acc), BlocksRecords(src, firstDay, slot, weekday, blocks))
  {
    ghost var f := (j: nat, b: Block) => BlockRecords(src, firstDay, slot, weekday, b);
    var data := acc;
    assert blocks[..0] == [] && acc + [] == acc;
    for j := 0 to |blocks|
      invariant Cat(Ok(acc), Concat(blocks[..j], f)) == Ok(data)
    {
      ConcatNext(acc, data, blocks, j, f);
      var next := EmitBlock(src, firstDay, slot, weekday, blocks[j], data);
      if next.Raised? {
        ConcatStops(acc, blocks, j, f);
        return Raised;
      }
      data := next.value;
    }
    assert blocks[..|blocks|] == blocks;
    r := Ok(data);
  }

  /** One day cell: a cell without blocks is skipped, and the day name of a column past the
      sixth raises IndexError. */
  method EmitDay(src: GroupSource, firstDay: int, slot: Slot, d: nat, blocks: seq<Block>,
                 acc: seq<Lesson>) returns (r: Result<seq<Lesson>>)
    ensures r == Cat(Ok(acc), DayRecords(src, firstDay, slot, d, blocks))
  {
    if blocks == [] {
      assert acc + [] == acc;
      return Ok(acc);
    }
    if d >= |DayNames| {
      return Raised;
    }
    r := EmitBlocks(src, firstDay, slot, d, blocks, acc);
  }

  /** The loop over the day cells of a row, column after column. */
  method EmitCells(src: GroupSource, firstDay: int, slot: Slot, days: seq<seq<Block>>,
                   acc: seq<Lesson>) returns (r: Result<seq<Lesson>>)
    ensures r == Cat(Ok(acc), CellsRecords(src, firstDay, slot, days))
  {
    ghost var f := (d: nat, blocks: seq<Block>) => DayRecords(src, firstDay, slot, d, blocks);
    var data := acc;
    assert days[..0] == [] && acc + [] == acc;
    for d := 0 to |days|
      invariant Cat(Ok(acc), Concat(days[..d], f)) == Ok(data)
    {
      ConcatNext(acc, data, days, d, f);
      var next := EmitDay(src, firstDay, slot, d, days[d], data);
      if next.Raised? {
        ConcatStops(acc, days, d, f);
        return Raised;
      }
      data := next.value;
    }
    assert days[..|days|] == days;
    r := Ok(data);
  }

  /** The lesson number and time of a row, read off its label cell. */
  method ReadSlot(slotText: string) returns (slot: Slot)
    ensures slot == ParseSlot(slotText)
  {
    var parts := Words(Strip(slotText));
    var number := if parts == [] then None else Some(parts[0]);
    var time := None;
    if number == Some("7") {
      time := Some("20:00-21:35");
    } else if |parts| > 1 {
      time := Some(Inner(parts[1]));
    }
    slot := Slot(number, time);
  }

  /** `get_timetable` on a page already reduced to its span texts: the row loop appends the
      records of every row after the header, and the list is sorted by (week, weekday);
      a missing table and any exception give the two sentinels. */
  method GetTimetable(page: Page, src: GroupSource, firstDay: int) returns (r: Fetch)
    ensures r == FetchSpec(page, src, firstDay)
  {
    if page.NoTable? {
      return NotFound;
    }
    if page.body.None? {
      return ServerError;
    }
    var rows := page.body.value;
    if rows != [] {
      rows := rows[1..];
    }
    assert rows == Body(page.body.value);
    ghost var f := (k: nat, row: Row) => RowRecords(src, firstDay, row);
    var data: seq<Lesson> := [];
    assert rows[..0] == [] && data + [] == data;
    for k := 0 to |rows|
      invariant Cat(Ok([]), Concat(rows[..k], f)) == Ok(data)
    {
      ConcatNext([], data, rows, k, f);
      if rows[k].Blank? {
        assert data + [] == data;
        continue;
      }
      var slot := ReadSlot(rows[k].slotText);
      var next := EmitCells(src, firstDay, slot, rows[k].days, data);
      if next.Raised? {
        ConcatStops([], rows, k, f);
        assert RowsRecords(src, firstDay, rows).Raised?;
        return ServerError;
      }
      data := next.value;
    }
    assert rows[..|rows|] == rows;
    ghost var all := Concat(rows, f);
    assert all.Ok? && [] + all.value == all.value;
    assert RowsRecords(src, firstDay, rows) == all == Ok(data);
    r := Found(Order.SortBy(data, WeekDayKey));
  }
}
