// The session state of `BonchAPI` (TImetabels.py): the teaching week it shows, the group
// it shows, and how `read_options` builds it from the configuration.
//
// Instants are counted in microseconds, the resolution of Python's `datetime`; the first
// day of term is given as the instant of its midnight. `datetime.now()` becomes the
// parameter `today`, and parsing the `first_day` text as a calendar date becomes the
// parameter `parseDate`.

module Bonch {
  import opened Text
  import Options
  import opened Order

  const Day: int := 24 * 60 * 60 * 1000000
  const Week: int := 7 * Day

  /** The week `set_current_week` arrives at. */
  function CurrentWeek(today: int, firstDay: int): int {
    if today < firstDay then 0 else (today - firstDay - 1) / Week
  }

  /** Before the term the week is 0; on its first instant it is -1 (the loop never runs,
      yet the final decrement does); after it, `today` lies in the half-open week
      `(firstDay + Week * w, firstDay + Week * (w + 1)]`. */
  lemma CurrentWeekBracket(today: int, firstDay: int)
    ensures today < firstDay ==> CurrentWeek(today, firstDay) == 0
    ensures today == firstDay ==> CurrentWeek(today, firstDay) == -1
    ensures today > firstDay ==>
              var w := CurrentWeek(today, firstDay);
              w >= 0 && firstDay + Week * w < today <= firstDay + Week * (w + 1)
  {
    if today > firstDay {
      var d := today - firstDay - 1;
      var w := d / Week;
      assert d == Week * w + d % Week;
    }
  }

  /** Only one week brackets a given instant. */
  lemma BracketUnique(today: int, firstDay: int, w: int, v: int)
    requires firstDay + Week * w < today <= firstDay + Week * (w + 1)
    requires firstDay + Week * v < today <= firstDay + Week * (v + 1)
    ensures w == v
  {
    assert w < v ==> Week * (w + 1) <= Week * v;
    assert v < w ==> Week * (v + 1) <= Week * w;
  }

  // ---------------------------------------------------------------- week navigation

  const MaxWeek: int := 50

  /** `K` or the escape sequence for the left arrow. */
  predicate IsLeftKey(key: seq<int>) { key == [75] || key == [27, 91, 68] }

  /** `M` or the escape sequence for the right arrow. */
  predicate IsRightKey(key: seq<int>) { key == [77] || key == [27, 91, 67] }

  /** The week after one key press in the timetable screens: left steps back unless at 0,
      right steps on unless at 50, anything else keeps the week. */
  function Press(w: int, key: seq<int>): (r: int)
    ensures 0 <= w <= MaxWeek ==> 0 <= r <= MaxWeek
    ensures r == w || (IsLeftKey(key) && r == w - 1 && r >= 0) ||
            (IsRightKey(key) && r == w + 1 && r <= MaxWeek)
  {
    if IsLeftKey(key) then (if w > 0 then w - 1 else w)
    else if IsRightKey(key) then (if w < MaxWeek then w + 1 else w)
    else w
  }

  /** The week after a sequence of key presses. */
  function Navigate(w: int, keys: seq<seq<int>>): int
    decreases |keys|
  {
    if keys == [] then w else Navigate(Press(w, keys[0]), keys[1..])
  }

  /** No sequence of presses leaves weeks 0 to 50 once inside them. */
  lemma {:induction false} NavigateInRange(w: int, keys: seq<seq<int>>)
    requires 0 <= w <= MaxWeek
    ensures 0 <= Navigate(w, keys) <= MaxWeek
    decreases |keys|
  {
    if keys != [] {
      NavigateInRange(Press(w, keys[0]), keys[1..]);
    }
  }

  /** `n` presses of the right arrow reach week `w + n`, but never pass 50. */
  lemma {:induction false} NavigateRight(w: int, n: nat)
    requires w <= MaxWeek
    ensures Navigate(w, seq(n, _ => [77])) == if w + n < MaxWeek then w + n else MaxWeek
    decreases n
  {
    if n > 0 {
      var keys := seq(n, _ => [77]);
      assert keys[0] == [77] && keys[1..] == seq(n - 1, _ => [77]);
      NavigateRight(Press(w, keys[0]), n - 1);
    }
  }

  /** `n` presses of the left arrow from a week of the term reach `w - n`, but never pass 0. */
  lemma {:induction false} NavigateLeft(w: int, n: nat)
    requires w >= 0
    ensures Navigate(w, seq(n, _ => [75])) == if w - n > 0 then w - n else 0
    decreases n
  {
    if n > 0 {
      var keys := seq(n, _ => [75]);
      assert keys[0] == [75] && keys[1..] == seq(n - 1, _ => [75]);
      NavigateLeft(Press(w, keys[0]), n - 1);
    }
  }

  // ---------------------------------------------------------------- group choice

  type Timetable<T> = seq<(string, T)>

  /** `change_group_name`: the requested group when the timetable has it; else the
      current one when the timetable has it; else the first group of the timetable.
      Reading an unset `self.group_name` raises AttributeError and taking the first key of
      an empty timetable raises StopIteration, both `Raised` here. */
  function ChosenGroup<T>(t: Timetable<T>, name: string, current: Option<string>): Result<string> {
    if name in KeyList(t) then Ok(name)
    else if current.None? then Raised
    else if current.value in KeyList(t) then Ok(current.value)
    else if t == [] then Raised
    else Ok(t[0].0)
  }

  /** The choice always lands on a group of the timetable, and it fails only when the
      request is missing and there is no current group, or there is nothing to fall back
      to at all. */
  lemma ChosenGroupFacts<T>(t: Timetable<T>, name: string, current: Option<string>)
    ensures var r := ChosenGroup(t, name, current);
            r.Ok? ==> r.value in KeyList(t)
    ensures ChosenGroup(t, name, current).Raised? <==>
              name !in KeyList(t) && (current.None? || (current.value !in KeyList(t) && t == []))
    ensures name in KeyList(t) ==> ChosenGroup(t, name, current) == Ok(name)
  {
    if t != [] {
      assert t[0].0 == KeyList(t)[0];
    }
  }

  // ---------------------------------------------------------------- configuration

  /** What `auto-visit` leads to: nothing, the background clicker, or the message that
      credentials are missing. */
  datatype AutoVisit = Off | Started | NeedsCredentials

  /** The settings `read_options` hands to the new object. */
  datatype Settings = Settings(
    firstDay: int, limit: int, email: Option<string>, password: Option<string>,
    groupName: Option<string>, visit: AutoVisit)

  /** `read_options` after the reading loop: `first_day` is required and must parse as a
      date, `limit` defaults to 80 and must parse as an integer (each failure raises
      ValueError); the credentials are taken only as a pair; `auto-visit` counts when it
      reads `true` in any case. */
  function Configure(options: Options.Config, parseDate: string -> Option<int>): Result<Settings> {
    if "first_day" !in options then Raised
    else
      var limit := if "limit" in options then ParseInt(options["limit"]) else Some(80);
      var first := parseDate(options["first_day"]);
      if limit.None? || first.None? then Raised
      else
        var both := "login" in options && "password" in options;
        var visit :=
          if LowerAscii(Options.Get(options, "auto-visit", "False")) != "true" then Off
          else if both then Started
          else NeedsCredentials;
        Ok(Settings(first.value, limit.value,
                    if both then Some(options["login"]) else None,
                    if both then Some(options["password"]) else None,
                    if "group_name" in options then Some(options["group_name"]) else None,
                    visit))
  }

  /** Exactly the configurations with a parsable `first_day` and a parsable or absent
      `limit` are accepted; the limit is 80 unless given, and credentials come as a pair. */
  lemma ConfigureFacts(options: Options.Config, parseDate: string -> Option<int>)
    ensures Configure(options, parseDate).Ok? <==>
              "first_day" in options && parseDate(options["first_day"]).Some? &&
              ("limit" in options ==> ParseInt(options["limit"]).Some?)
    ensures var r := Configure(options, parseDate);
            r.Ok? ==>
              r.value.firstDay == parseDate(options["first_day"]).value &&
              ("limit" !in options ==> r.value.limit == 80) &&
              ("limit" in options ==> Some(r.value.limit) == ParseInt(options["limit"])) &&
              (r.value.email.Some? <==> r.value.password.Some?) &&
              (r.value.email.Some? <==> "login" in options && "password" in options) &&
              (r.value.visit == Started ==> r.value.email.Some?)
  {
  }

  /** The configuration lines `first_day=...` and `limit=n` give a limit of `n`. */
  lemma LimitRoundTrip(options: Options.Config, parseDate: string -> Option<int>, n: int)
    requires "first_day" in options && parseDate(options["first_day"]).Some?
    requires "limit" in options && options["limit"] == IntText(n)
    ensures Configure(options, parseDate).Ok? && Configure(options, parseDate).value.limit == n
  {
    ParseIntText(n);
  }

  // ---------------------------------------------------------------- the object

  class BonchAPI {
    var firstDay: int
    var curWeek: int
    var limit: int
    var groupName: Option<string>
    var email: Option<string>
    var password: Option<string>

    /** `__init__`: the first day, the week of `today`, the request limit; no group or
        credentials yet. */
    constructor(firstDay: int, limit: int, today: int)
      ensures this.firstDay == firstDay && this.limit == limit
      ensures curWeek == CurrentWeek(today, firstDay)
      ensures groupName == None && email == None && password == None
    {
      this.firstDay := firstDay;
      this.limit := limit;
      groupName := None;
      email := None;
      password := None;
      new;
      SetCurrentWeek(today);
    }

    /** `set_current_week`: counts whole weeks from the first day until `today` is
        reached, then steps one back. */
    method SetCurrentWeek(today: int)
      modifies this`curWeek
      ensures curWeek == CurrentWeek(today, firstDay)
    {
      if today < firstDay {
        curWeek := 0;
      } else {
        var curDay := firstDay;
        curWeek := 0;
        while today > curDay
          invariant curWeek >= 0 && curDay == firstDay + Week * curWeek
          invariant curWeek > 0 ==> firstDay + Week * (curWeek - 1) < today
          decreases today - curDay
        {
          curWeek := curWeek + 1;
          curDay := curDay + Week;
        }
        curDay := curDay - Week;
        curWeek := curWeek - 1;
        CurrentWeekBracket(today, firstDay);
        if curWeek >= 0 {
          BracketUnique(today, firstDay, curWeek, CurrentWeek(today, firstDay));
        }
      }
    }

    /** One key press in a timetable screen. */
    method PressKey(key: seq<int>)
      modifies this`curWeek
      ensures curWeek == Press(old(curWeek), key)
    {
      if IsLeftKey(key) {
        curWeek := if curWeek > 0 then curWeek - 1 else curWeek;
      } else if IsRightKey(key) {
        curWeek := if curWeek < MaxWeek then curWeek + 1 else curWeek;
      }
    }

    /** `change_group_name`; `ok` is false when it raises, and then nothing changes. */
    method ChangeGroupName<T>(timetable: Timetable<T>, name: string) returns (ok: bool)
      modifies this`groupName
      ensures var r := ChosenGroup(timetable, name, old(groupName));
              ok == r.Ok? && groupName == (if ok then Some(r.value) else old(groupName))
    {
      var names := KeyList(timetable);
      if name in names {
        groupName := Some(name);
        ok := true;
      } else if groupName.None? {
        ok := false;
      } else if groupName.value !in names {
        if timetable == [] {
          ok := false;
        } else {
          groupName := Some(timetable[0].0);
          ok := true;
        }
      } else {
        ok := true;
      }
    }
  }

  /** `read_options`: the object built from the configuration lines, or `null` when it
      raises ValueError; `visit` says whether the background clicker is started. */
  method ReadOptions(lines: seq<string>, parseDate: string -> Option<int>, today: int)
      returns (api: BonchAPI?, visit: AutoVisit)
    ensures var r := Configure(Options.Collect(lines), parseDate);
            (api == null <==> r.Raised?) &&
            (api != null ==>
               fresh(api) && visit == r.value.visit &&
               api.firstDay == r.value.firstDay && api.limit == r.value.limit &&
               api.curWeek == CurrentWeek(today, r.value.firstDay) &&
               api.email == r.value.email && api.password == r.value.password &&
               api.groupName == r.value.groupName)
  {
    var options := Options.ReadLines(lines);
    ghost var r := Configure(options, parseDate);
    visit := Off;
    if "first_day" !in options {
      return null, visit;
    }
    var limit := if "limit" in options then ParseInt(options["limit"]) else Some(80);
    var first := parseDate(options["first_day"]);
    if limit.None? || first.None? {
      return null, visit;
    }
    api := new BonchAPI(first.value, limit.value, today);
    var both := "login" in options && "password" in options;
    if both {
      api.email := Some(options["login"]);
      api.password := Some(options["password"]);
    }
    if LowerAscii(Options.Get(options, "auto-visit", "False")) == "true" {
      visit := if both then Started else NeedsCredentials;
    }
    if "group_name" in options {
      api.groupName := Some(options["group_name"]);
    }
    assert r == Ok(Settings(api.firstDay, api.limit, api.email, api.password, api.groupName, visit));
  }

}
