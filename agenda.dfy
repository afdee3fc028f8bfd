/** What the scraper does with the fetched timetables: `all_groups_timetable` keeps the
    groups whose fetch succeeded, `parse_lesson_time` reads the start of a time range, and
    `teacher_timetable` / `classroom_timetable` pick the records of one teacher or room. */
module Agenda {
  import opened Text
  import Order
  import opened Schedule

  // ---------------------------------------------------------------- all_groups_timetable

  /** The dict of all groups' timetables: (group name, records) in insertion order. */
  type Timetable = seq<(string, seq<Lesson>)>

  predicate DistinctNames(t: Timetable) {
    forall i, j :: 0 <= i < j < |t| ==> t[i].0 != t[j].0
  }

  /** `d[k] = v`: an existing key keeps its place and takes the new value, a new key goes last. */
  function Put(d: Timetable, k: string, v: seq<Lesson>): (r: Timetable)
    ensures |r| == |d| || |r| == |d| + 1
    ensures forall i :: 0 <= i < |r| ==> r[i].0 == (if i < |d| then d[i].0 else k)
    ensures |r| == |d| + 1 <==> forall i :: 0 <= i < |d| ==> d[i].0 != k
    ensures |r| == |d| + 1 ==> r[|d|].1 == v
    decreases |d|
  {
    if d == [] then [(k, v)]
    else if d[0].0 == k then [(k, v)] + d[1..]
    else [d[0]] + Put(d[1..], k, v)
  }

  /** On a dict (distinct keys) only the value under `k` changes, and keys stay distinct. */
  lemma {:induction false} PutDict(d: Timetable, k: string, v: seq<Lesson>)
    requires DistinctNames(d)
    ensures DistinctNames(Put(d, k, v))
    ensures forall i :: 0 <= i < |d| ==> Put(d, k, v)[i].1 == (if d[i].0 == k then v else d[i].1)
    decreases |d|
  {
    if d != [] && d[0].0 != k {
      assert DistinctNames(d[1..]) by {
        forall i, j | 0 <= i < j < |d| - 1 ensures d[1..][i].0 != d[1..][j].0 {
          assert d[1..][i] == d[i + 1] && d[1..][j] == d[j + 1];
        }
      }
      PutDict(d[1..], k, v);
      var r := Put(d, k, v);
      assert r == [d[0]] + Put(d[1..], k, v);
      forall i | 0 <= i < |d| ensures r[i].1 == (if d[i].0 == k then v else d[i].1) {
        if i > 0 { assert r[i] == Put(d[1..], k, v)[i - 1] && d[i] == d[1..][i - 1]; }
      }
    }
  }

  /** The dict comprehension of `all_groups_timetable`: for the directory's (id, name) items
      and the fetch result of each, the name is bound to the records of every fetch that did
      not return a sentinel string, in directory order. */
  function AllGroups(items: seq<(string, string)>, results: seq<Fetch>): Timetable
    requires |results| == |items|
    decreases |items|
  {
    if items == [] then []
    else
      var n := |items| - 1;
      var d := AllGroups(items[..n], results[..n]);
      if results[n].Found? then Put(d, items[n].1, results[n].lessons) else d
  }

  /** Position `i` holds the last successful fetch of its group name. */
  predicate LastFound(items: seq<(string, string)>, results: seq<Fetch>, i: int)
    requires |results| == |items|
  {
    0 <= i < |items| && results[i].Found?
    && forall i' :: i < i' < |items| && items[i'].1 == items[i].1 ==> !results[i'].Found?
  }

  /** A binding made by the last successful fetch of its name. */
  ghost predicate FromLastFound(items: seq<(string, string)>, results: seq<Fetch>, e: (string, seq<Lesson>))
    requires |results| == |items|
  {
    exists i :: LastFound(items, results, i) && e == (items[i].1, results[i].lessons)
  }

  /** `name in t`. */
  ghost predicate Bound(t: Timetable, name: string) {
    exists j :: 0 <= j < |t| && t[j].0 == name
  }

  /** Each group name is bound once. */
  lemma {:induction false} AllGroupsDistinct(items: seq<(string, string)>, results: seq<Fetch>)
    requires |results| == |items|
    ensures DistinctNames(AllGroups(items, results))
    decreases |items|
  {
    if items != [] {
      var n := |items| - 1;
      AllGroupsDistinct(items[..n], results[..n]);
      if results[n].Found? {
        PutDict(AllGroups(items[..n], results[..n]), items[n].1, results[n].lessons);
      }
    }
  }

  /** Every binding holds the records of the last successful fetch of its name. */
  lemma {:induction false} AllGroupsFrom(items: seq<(string, string)>, results: seq<Fetch>)
    requires |results| == |items|
    ensures forall j :: 0 <= j < |AllGroups(items, results)| ==>
              FromLastFound(items, results, AllGroups(items, results)[j])
    decreases |items|
  {
    var r := AllGroups(items, results);
    if items != [] {
      var n := |items| - 1;
      var pi, pr := items[..n], results[..n];
      var d := AllGroups(pi, pr);
      AllGroupsFrom(pi, pr);
      AllGroupsDistinct(pi, pr);
      if results[n].Found? {
        PutDict(d, items[n].1, results[n].lessons);
      }
      forall j | 0 <= j < |r| ensures FromLastFound(items, results, r[j]) {
        if results[n].Found? && r[j].0 == items[n].1 {
          assert LastFound(items, results, n);
          assert r[j] == (items[n].1, results[n].lessons);
        } else {
          assert j < |d| && r[j] == d[j];
          assert FromLastFound(pi, pr, d[j]);
          var i :| LastFound(pi, pr, i) && d[j] == (pi[i].1, pr[i].lessons);
          assert pi[i] == items[i] && pr[i] == results[i];
          assert forall i' :: i < i' < n ==> pi[i'] == items[i'] && pr[i'] == results[i'];
          assert LastFound(items, results, i);
        }
      }
    } else {
      assert r == [];
    }
  }

  /** Every successful fetch has its name bound. */
  lemma {:induction false} AllGroupsCovers(items: seq<(string, string)>, results: seq<Fetch>)
    requires |results| == |items|
    ensures forall i :: 0 <= i < |items| && results[i].Found? ==> Bound(AllGroups(items, results), items[i].1)
    decreases |items|
  {
    if items != [] {
      var n := |items| - 1;
      var pi, pr := items[..n], results[..n];
      var d := AllGroups(pi, pr);
      AllGroupsCovers(pi, pr);
      var r := AllGroups(items, results);
      forall i | 0 <= i < |items| && results[i].Found? ensures Bound(r, items[i].1) {
        if i == n {
          var k := items[n].1;
          if forall j :: 0 <= j < |d| ==> d[j].0 != k {
            assert r[|d|].0 == k;
          } else {
            var j :| 0 <= j < |d| && d[j].0 == k;
            assert r[j].0 == k;
          }
        } else {
          assert pi[i] == items[i] && pr[i] == results[i];
          assert Bound(d, pi[i].1);
          var j :| 0 <= j < |d| && d[j].0 == pi[i].1;
          assert r[j].0 == items[i].1;
        }
      }
    }
  }

  /** The comprehension keeps exactly the groups with a successful fetch, once each, bound to
      the records of the last such fetch of that name. */
  lemma AllGroupsEntries(items: seq<(string, string)>, results: seq<Fetch>)
    requires |results| == |items|
    ensures DistinctNames(AllGroups(items, results))
    ensures forall j :: 0 <= j < |AllGroups(items, results)| ==>
              FromLastFound(items, results, AllGroups(items, results)[j])
    ensures forall i :: 0 <= i < |items| && results[i].Found? ==> Bound(AllGroups(items, results), items[i].1)
  {
    AllGroupsDistinct(items, results);
    AllGroupsFrom(items, results);
    AllGroupsCovers(items, results);
  }

  /** The groups whose fetch succeeded, in directory order. */
  function Kept(items: seq<(string, string)>, results: seq<Fetch>): Timetable
    requires |results| == |items|
    decreases |items|
  {
    if items == [] then []
    else
      var n := |items| - 1;
      Kept(items[..n], results[..n])
        + (if results[n].Found? then [(items[n].1, results[n].lessons)] else [])
  }

  predicate DistinctValues(items: seq<(string, string)>) {
    forall i, j :: 0 <= i < j < |items| ==> items[i].1 != items[j].1
  }

  /** Every kept group name comes from the directory. */
  lemma {:induction false} KeptNames(items: seq<(string, string)>, results: seq<Fetch>)
    requires |results| == |items|
    ensures forall j :: 0 <= j < |Kept(items, results)| ==>
              exists i :: 0 <= i < |items| && Kept(items, results)[j].0 == items[i].1
    decreases |items|
  {
    if items != [] {
      var n := |items| - 1;
      var pi, pr := items[..n], results[..n];
      KeptNames(pi, pr);
      var d, k := Kept(pi, pr), Kept(items, results);
      assert k == d + (if results[n].Found? then [(items[n].1, results[n].lessons)] else []);
      forall j | 0 <= j < |k| ensures exists i :: 0 <= i < |items| && k[j].0 == items[i].1 {
        if j < |d| {
          var i :| 0 <= i < n && d[j].0 == pi[i].1;
          assert k[j] == d[j] && pi[i] == items[i];
        } else {
          assert k[j].0 == items[n].1;
        }
      }
    } else {
      assert Kept(items, results) == [];
    }
  }

  /** With distinct group names (the usual directory) the dict is the list of successful
      fetches, in directory order. */
  lemma {:induction false} AllGroupsKept(items: seq<(string, string)>, results: seq<Fetch>)
    requires |results| == |items| && DistinctValues(items)
    ensures AllGroups(items, results) == Kept(items, results)
    decreases |items|
  {
    if items != [] {
      var n := |items| - 1;
      var pi, pr := items[..n], results[..n];
      assert DistinctValues(pi) by {
        forall i, j | 0 <= i < j < n ensures pi[i].1 != pi[j].1 {
          assert pi[i] == items[i] && pi[j] == items[j];
        }
      }
      AllGroupsKept(pi, pr);
      KeptNames(pi, pr);
      var d := AllGroups(pi, pr);
      if results[n].Found? {
        forall j | 0 <= j < |d| ensures d[j].0 != items[n].1 {
          var i :| 0 <= i < n && d[j].0 == pi[i].1;
          assert pi[i] == items[i];
        }
        PutAppends(d, items[n].1, results[n].lessons);
      }
    }
  }

  /** A new key is appended and nothing before it changes. */
  lemma {:induction false} PutAppends(d: Timetable, k: string, v: seq<Lesson>)
    requires forall i :: 0 <= i < |d| ==> d[i].0 != k
    ensures Put(d, k, v) == d + [(k, v)]
    decreases |d|
  {
    if d != [] {
      PutAppends(d[1..], k, v);
      assert d == [d[0]] + d[1..];
    }
  }

  // ---------------------------------------------------------------- parse_lesson_time

  /** The two-digit alternatives of `%H`, which the regular expression `2[0-3]|[0-1]\d|\d`
      tries before the one-digit one. */
  predicate TwoDigitHour(s: string) {
    |s| >= 2 && ((s[0] == '2' && '0' <= s[1] <= '3') || ('0' <= s[0] <= '1' && IsDigit(s[1])))
  }

  /** The length `%M` (`[0-5]\d|\d`) takes at the start of `s`: its first alternative that
      matches, 0 when neither does. */
  function MinuteLength(s: string): (m: nat)
    ensures m <= 2 && m <= |s|
    ensures forall k :: 0 <= k < m ==> IsDigit(s[k])
  {
    if |s| >= 2 && '0' <= s[0] <= '5' && IsDigit(s[1]) then 2
    else if |s| >= 1 && IsDigit(s[0]) then 1
    else 0
  }

  /** The length of the hour in the first match of `%H:%M` at the start of `s`, 0 when there
      is none: a two-digit hour is tried first, and the match backtracks to a one-digit hour
      when no `:` and minute follow it. */
  function HourLength(s: string): (h: nat)
    ensures h <= 2 && (h > 0 ==> h < |s| && s[h] == ':' && MinuteLength(s[h + 1..]) > 0)
    ensures forall k :: 0 <= k < h ==> IsDigit(s[k])
  {
    if TwoDigitHour(s) && |s| > 2 && s[2] == ':' && MinuteLength(s[3..]) > 0 then 2
    else if |s| >= 2 && IsDigit(s[0]) && s[1] == ':' && MinuteLength(s[2..]) > 0 then 1
    else 0
  }

  /** The value of one or two decimal digits. */
  function SmallValue(ds: string): nat
    requires |ds| <= 2 && forall k :: 0 <= k < |ds| ==> IsDigit(ds[k])
  {
    if ds == [] then 0
    else
      assert IsDigit(ds[0]);
      if |ds| == 1 then ds[0] as int - '0' as int
      else
        assert IsDigit(ds[1]);
        10 * (ds[0] as int - '0' as int) + (ds[1] as int - '0' as int)
  }

  /** `datetime.strptime(s, '%H:%M').time()` as minutes since midnight; `None` where it
      raises ValueError, because nothing matches or because unconverted data remains after
      the match. */
  function Strptime(s: string): (r: Option<nat>)
    ensures r.Some? ==> r.value < 24 * 60
  {
    var h := HourLength(s);
    if h == 0 then None
    else
      var rest := s[h + 1..];
      var m := MinuteLength(rest);
      if h + 1 + m != |s| then None
      else
        var hour := SmallValue(s[..h]);
        var minute := SmallValue(rest[..m]);
        assert hour < 24 && minute < 60 by {
          if h == 2 { assert TwoDigitHour(s); }
        }
        Some(hour * 60 + minute)
  }

  /** `parse_lesson_time`: the `HH:MM` before the first `-` of a time range, midnight for a
      missing or empty text and for one that does not parse. */
  function StartMinutes(time: Option<string>): (r: nat)
    ensures r < 24 * 60
  {
    if time.None? || time.value == [] then 0
    else
      match Strptime(Split(time.value, '-')[0])
      case None => 0
      case Some(v) => v
  }

  /** Two decimal digits, zero-padded, for a number below 100. */
  function Pad2(n: nat): (s: string)
    requires n < 100
    ensures |s| == 2 && IsDigit(s[0]) && IsDigit(s[1])
  {
    [DigitChar(n / 10), DigitChar(n % 10)]
  }

  /** `HH:MM` with a valid hour and minute reads back as that time of day. */
  lemma StrptimeClock(h: nat, m: nat)
    requires h < 24 && m < 60
    ensures Strptime(Pad2(h) + ":" + Pad2(m)) == Some(h * 60 + m)
  {
    var s := Pad2(h) + ":" + Pad2(m);
    assert s[..2] == Pad2(h) && s[3..] == Pad2(m) && s[2] == ':';
    assert TwoDigitHour(s);
    assert HourLength(s) == 2;
    assert MinuteLength(s[3..]) == 2;
  }

  /** A one-digit hour `H:MM` reads back too, after the regular expression backtracks. */
  lemma StrptimeShortHour(h: nat, m: nat)
    requires h < 10 && m < 60
    ensures Strptime([DigitChar(h)] + ":" + Pad2(m)) == Some(h * 60 + m)
  {
    var s := [DigitChar(h)] + ":" + Pad2(m);
    assert s[..1] == [DigitChar(h)] && s[2..] == Pad2(m) && s[1] == ':';
    assert !TwoDigitHour(s);
    assert HourLength(s) == 1;
    assert MinuteLength(s[2..]) == 2;
  }

  /** A time range `HH:MM-...` starts at its first time of day. */
  lemma StartOfRange(h: nat, m: nat, rest: string)
    requires h < 24 && m < 60
    ensures StartMinutes(Some(Pad2(h) + ":" + Pad2(m) + "-" + rest)) == h * 60 + m
  {
    var start := Pad2(h) + ":" + Pad2(m);
    assert '-' !in start by {
      assert forall k :: 0 <= k < |start| ==> start[k] != '-';
    }
    var text := Pad2(h) + ":" + Pad2(m) + "-" + rest;
    assert text == start + ['-'] + rest;
    SplitAfter(start, '-', rest);
    StrptimeClock(h, m);
  }

  /** Text that does not match, or that leaves unconverted data, reads as midnight. */
  lemma StartOfMalformed(s: string)
    requires s != [] && '-' !in s && Strptime(s).None?
    ensures StartMinutes(Some(s)) == 0
  {
    SplitWhole(s, '-');
  }

  /** A range whose start has an hour of 24 or more, such as `25:00-26:00`, reads as midnight. */
  lemma StartOfBadHour(h: nat, m: nat, rest: string)
    requires 24 <= h < 100 && m < 60
    ensures StartMinutes(Some(Pad2(h) + ":" + Pad2(m) + "-" + rest)) == 0
  {
    var start := Pad2(h) + ":" + Pad2(m);
    assert '-' !in start by {
      assert forall k :: 0 <= k < |start| ==> start[k] != '-';
    }
    assert Pad2(h) + ":" + Pad2(m) + "-" + rest == start + ['-'] + rest;
    SplitAfter(start, '-', rest);
    assert start[0] == DigitChar(h / 10) && start[1] == DigitChar(h % 10);
    assert !TwoDigitHour(start);
    assert start[1] != ':';
    assert HourLength(start) == 0;
  }

  /** A time text whose first character is not a digit reads as midnight, whatever follows. */
  lemma StartOfNonDigit(s: string)
    requires s != [] && !IsDigit(s[0])
    ensures StartMinutes(Some(s)) == 0
  {
    SplitHead(s, '-');
    var p := Split(s, '-')[0];
    if p != [] {
      assert p[0] == s[0];
      assert !TwoDigitHour(p);
    }
    assert HourLength(p) == 0;
  }

  // ---------------------------------------------------------------- teacher_timetable, classroom_timetable

  /** Python truthiness of an optional text: present and not empty. */
  predicate Truthy(o: Option<string>) {
    o.Some? && o.value != []
  }

  /** The filter of both views: the field is truthy and contains the searched text. */
  predicate Matches(o: Option<string>, needle: string) {
    Truthy(o) && Contains(o.value, needle)
  }

  /** The records of `ls` whose field matches, in order. */
  function Keep(ls: seq<Lesson>, field: Lesson -> Option<string>, needle: string): seq<Lesson>
    decreases |ls|
  {
    if ls == [] then []
    else
      var n := |ls| - 1;
      Keep(ls[..n], field, needle) + (if Matches(field(ls[n]), needle) then [ls[n]] else [])
  }

  /** The matching records of every group, group after group. */
  function Picked(t: Timetable, field: Lesson -> Option<string>, needle: string): seq<Lesson>
    decreases |t|
  {
    if t == [] then [] else Picked(t[..|t| - 1], field, needle) + Keep(t[|t| - 1].1, field, needle)
  }

  lemma {:induction false} KeepMembers(ls: seq<Lesson>, field: Lesson -> Option<string>, needle: string)
    ensures forall l :: l in Keep(ls, field, needle) <==> l in ls && Matches(field(l), needle)
    decreases |ls|
  {
    if ls != [] {
      var n := |ls| - 1;
      KeepMembers(ls[..n], field, needle);
      assert ls == ls[..n] + [ls[n]];
    }
  }

  /** A picked record comes from some group and matches. */
  lemma {:induction false} PickedFrom(t: Timetable, field: Lesson -> Option<string>, needle: string, l: Lesson)
    requires l in Picked(t, field, needle)
    ensures Matches(field(l), needle)
    ensures exists i :: 0 <= i < |t| && l in t[i].1
    decreases |t|
  {
    var n := |t| - 1;
    KeepMembers(t[n].1, field, needle);
    if l in Picked(t[..n], field, needle) {
      PickedFrom(t[..n], field, needle, l);
      var i :| 0 <= i < n && l in t[..n][i].1;
      assert t[..n][i] == t[i];
    } else {
      assert l in t[n].1;
    }
  }

  /** A matching record of group `i` is picked. */
  lemma {:induction false} PickedOf(t: Timetable, field: Lesson -> Option<string>, needle: string, l: Lesson, i: nat)
    requires i < |t| && l in t[i].1 && Matches(field(l), needle)
    ensures l in Picked(t, field, needle)
    decreases |t|
  {
    var n := |t| - 1;
    if i < n {
      assert t[..n][i] == t[i];
      PickedOf(t[..n], field, needle, l, i);
    } else {
      KeepMembers(t[n].1, field, needle);
    }
  }

  /** A record is picked exactly when some group holds it and its field matches. */
  lemma PickedMembers(t: Timetable, field: Lesson -> Option<string>, needle: string)
    ensures forall l :: l in Picked(t, field, needle) <==>
              (exists i :: 0 <= i < |t| && l in t[i].1) && Matches(field(l), needle)
  {
    forall l ensures l in Picked(t, field, needle) <==>
                       (exists i :: 0 <= i < |t| && l in t[i].1) && Matches(field(l), needle) {
      if l in Picked(t, field, needle) {
        PickedFrom(t, field, needle, l);
      }
      if (exists i :: 0 <= i < |t| && l in t[i].1) && Matches(field(l), needle) {
        var i :| 0 <= i < |t| && l in t[i].1;
        PickedOf(t, field, needle, l, i);
      }
    }
  }

  /** The sort key of both views: (week, weekday, start time). */
  function ViewKey(l: Lesson): seq<int> {
    [l.week, l.weekday, StartMinutes(l.time)]
  }

  function TeacherOf(l: Lesson): Option<string> { l.teacher }

  function RoomField(l: Lesson): Option<string> { l.room }

  /** The loop shared by `teacher_timetable` and `classroom_timetable`: every record of every
      group whose field matches is appended, and the list is sorted by (week, weekday,
      start time). */
  method SelectLessons(t: Timetable, field: Lesson -> Option<string>, needle: string)
    returns (r: seq<Lesson>)
    ensures r == Order.SortBy(Picked(t, field, needle), ViewKey)
  {
    var picked: seq<Lesson> := [];
    for i := 0 to |t|
      invariant picked == Picked(t[..i], field, needle)
    {
      var lessons := t[i].1;
      assert t[..i + 1][..i] == t[..i];
      for j := 0 to |lessons|
        invariant picked == Picked(t[..i], field, needle) + Keep(lessons[..j], field, needle)
      {
        assert lessons[..j + 1][..j] == lessons[..j];
        if Matches(field(lessons[j]), needle) {
          picked := picked + [lessons[j]];
        }
      }
      assert lessons[..|lessons|] == lessons;
    }
    assert t[..|t|] == t;
    r := Order.SortBy(picked, ViewKey);
  }

  method TeacherTimetable(t: Timetable, teacher: string) returns (r: seq<Lesson>)
    ensures r == Order.SortBy(Picked(t, TeacherOf, teacher), ViewKey)
  {
    r := SelectLessons(t, TeacherOf, teacher);
  }

  method ClassroomTimetable(t: Timetable, classroom: string) returns (r: seq<Lesson>)
    ensures r == Order.SortBy(Picked(t, RoomField, classroom), ViewKey)
  {
    r := SelectLessons(t, RoomField, classroom);
  }

  /** A view holds exactly the matching records of all groups, each as often as the groups
      hold it, sorted by (week, weekday, start time), records of one key in group order. */
  lemma ViewContents(t: Timetable, field: Lesson -> Option<string>, needle: string)
    ensures var r := Order.SortBy(Picked(t, field, needle), ViewKey);
            (forall l :: l in r <==> (exists i :: 0 <= i < |t| && l in t[i].1) && Matches(field(l), needle))
            && multiset(r) == multiset(Picked(t, field, needle))
            && Order.Sorted(r, ViewKey)
            && forall k :: Order.Having(r, ViewKey, k) == Order.Having(Picked(t, field, needle), ViewKey, k)
  {
    var p := Picked(t, field, needle);
    var r := Order.SortBy(p, ViewKey);
    Order.SortByFacts(p, ViewKey);
    PickedMembers(t, field, needle);
    forall l ensures l in r <==> l in p {
      assert l in r <==> l in multiset(r);
    }
    forall k ensures Order.Having(r, ViewKey, k) == Order.Having(p, ViewKey, k) {
      Order.SortStable(p, ViewKey, k);
    }
  }
}
