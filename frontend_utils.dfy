/**
 * Helpers of the frontend (`frontend/src/lib/utils.js`): HTML escaping, and
 * the budgeting period that contains a date when the month starts on a
 * chosen day, with the expenses that fall in it, newest first.
 *
 * Dates are wall-clock readings in one fixed zone; the conversions to and
 * from UTC the browser makes are outside the model. A JavaScript `Date`
 * has millisecond precision.
 */
module FrontendUtils {
  import opened Text
  import opened JsValues
  import opened CivilTime
  import opened Records
  import opened Relations

  /** The characters `escapeHTML` replaces. */
  predicate IsSpecial(c: char) {
    c == '&' || c == '<' || c == '>' || c == '\'' || c == '"'
  }

  /** The characters that may not appear raw in escaped text. */
  predicate IsMarkup(c: char) {
    c == '<' || c == '>' || c == '\'' || c == '"'
  }

  /** The entity that stands for a character. */
  function Entity(c: char): (r: string)
    ensures |r| >= 1 && forall i :: 0 <= i < |r| ==> !IsMarkup(r[i])
    ensures !IsSpecial(c) ==> r == [c]
    ensures IsSpecial(c) ==> r[0] == '&' && |r| >= 4
  {
    if c == '&' then "&amp;"
    else if c == '<' then "&lt;"
    else if c == '>' then "&gt;"
    else if c == '\'' then "&#39;"
    else if c == '"' then "&quot;"
    else [c]
  }

  /** Every special character replaced by its entity, left to right. */
  function Escape(s: string): (r: string)
    ensures |r| >= |s|
    ensures forall i :: 0 <= i < |r| ==> !IsMarkup(r[i])
  {
    if s == [] then []
    else
      var head := Entity(s[0]);
      var rest := Escape(s[1..]);
      assert forall i :: |head| <= i < |head + rest| ==> (head + rest)[i] == rest[i - |head|];
      head + rest
  }

  /**
   * `escapeHTML`: a value that is not a string comes back as it is; a
   * string has each of `& < > ' "` replaced by its entity.
   */
  function EscapeHtml(v: Js): (r: Js)
    ensures !v.JsString? ==> r == v
    ensures v.JsString? ==> r.JsString? && forall i :: 0 <= i < |r.s| ==> !IsMarkup(r.s[i])
    ensures v.JsString? ==> r == JsString(Escape(v.s))
  {
    if v.JsString? then JsString(Escape(v.s)) else v
  }

  /** Text without special characters is left as it is. */
  lemma {:induction false} EscapePlain(s: string)
    requires forall i :: 0 <= i < |s| ==> !IsSpecial(s[i])
    ensures Escape(s) == s
  {
    if s != [] {
      EscapePlain(s[1..]);
      assert [s[0]] + s[1..] == s;
    }
  }

  /** How a browser reads the five entities back. */
  function Unescape(t: string): string
    decreases |t|
  {
    if t == [] then []
    else if HasPrefix(t, "&amp;") then "&" + Unescape(t[5..])
    else if HasPrefix(t, "&lt;") then "<" + Unescape(t[4..])
    else if HasPrefix(t, "&gt;") then ">" + Unescape(t[4..])
    else if HasPrefix(t, "&#39;") then "'" + Unescape(t[5..])
    else if HasPrefix(t, "&quot;") then "\"" + Unescape(t[6..])
    else [t[0]] + Unescape(t[1..])
  }

  /** An entity reads back as its character, whatever follows it. */
  lemma UnescapeEntity(c: char, rest: string)
    ensures Unescape(Entity(c) + rest) == [c] + Unescape(rest)
  {
    var t := Entity(c) + rest;
    if !IsSpecial(c) {
      assert t[0] == c && t[1..] == rest;
      NotPrefix(t, "&amp;", 0);
      NotPrefix(t, "&lt;", 0);
      NotPrefix(t, "&gt;", 0);
      NotPrefix(t, "&#39;", 0);
      NotPrefix(t, "&quot;", 0);
    } else if c == '&' {
      UnescapeAmp(t, rest);
    } else if c == '<' {
      UnescapeShort(t, rest, 'l', '<');
    } else if c == '>' {
      UnescapeShort(t, rest, 'g', '>');
    } else if c == '\'' {
      UnescapeQuote(t, rest);
    } else {
      UnescapeDoubleQuote(t, rest);
    }
  }

  /** A text that differs from an entity at some position does not start with it. */
  lemma NotPrefix(t: string, entity: string, k: nat)
    requires k < |entity| && k < |t| && t[k] != entity[k]
    ensures !HasPrefix(t, entity)
  {
  }

  lemma UnescapeAmp(t: string, rest: string)
    requires t == "&amp;" + rest
    ensures Unescape(t) == "&" + Unescape(rest)
  {
    assert t[..5] == "&amp;" && t[5..] == rest;
  }

  /** The two four-character entities, `&lt;` and `&gt;`. */
  lemma UnescapeShort(t: string, rest: string, letter: char, c: char)
    requires (letter == 'l' && c == '<') || (letter == 'g' && c == '>')
    requires t == ['&', letter, 't', ';'] + rest
    ensures Unescape(t) == [c] + Unescape(rest)
  {
    assert t[1] == letter && t[4..] == rest;
    assert t[..4] == ['&', letter, 't', ';'];
    NotPrefix(t, "&amp;", 1);
    if letter == 'g' {
      NotPrefix(t, "&lt;", 1);
    }
  }

  lemma UnescapeQuote(t: string, rest: string)
    requires t == "&#39;" + rest
    ensures Unescape(t) == "'" + Unescape(rest)
  {
    assert t[1] == '#' && t[..5] == "&#39;" && t[5..] == rest;
    NotPrefix(t, "&amp;", 1);
    NotPrefix(t, "&lt;", 1);
    NotPrefix(t, "&gt;", 1);
  }

  lemma UnescapeDoubleQuote(t: string, rest: string)
    requires t == "&quot;" + rest
    ensures Unescape(t) == "\"" + Unescape(rest)
  {
    assert t[1] == 'q' && t[..6] == "&quot;" && t[6..] == rest;
    NotPrefix(t, "&amp;", 1);
    NotPrefix(t, "&lt;", 1);
    NotPrefix(t, "&gt;", 1);
    NotPrefix(t, "&#39;", 1);
  }

  /** Escaped text reads back as the original text. */
  lemma {:induction false} UnescapeEscape(s: string)
    ensures Unescape(Escape(s)) == s
  {
    if s != [] {
      UnescapeEntity(s[0], Escape(s[1..]));
      UnescapeEscape(s[1..]);
      assert [s[0]] + s[1..] == s;
    }
  }

  /** 23:59:59.999, the last millisecond of a day, in nanoseconds. */
  const EndOfDay: int := NanosPerDay - 1_000_000

  /** A date a JavaScript `Date` can hold: whole milliseconds. */
  predicate IsJsDate(t: Instant) {
    t.clock % 1_000_000 == 0
  }

  function PrevMonth(year: int, month: int): (int, int) {
    if month == 1 then (year - 1, 12) else (year, month - 1)
  }

  function NextMonth(year: int, month: int): (int, int) {
    if month == 12 then (year + 1, 1) else (year, month + 1)
  }

  /** The day a period starts in a month: the start day, or the month's last day when it is shorter. */
  function StartDay(year: int, month: int, startDate: int): (d: int)
    requires 1 <= startDate <= 31
    ensures 1 <= d <= DaysIn(year, month) && d <= startDate
    ensures d == startDate || d == DaysIn(year, month)
  {
    if startDate < DaysIn(year, month) then startDate else DaysIn(year, month)
  }

  /** The period beginning in `month`: from its start day at midnight. */
  function PeriodStart(year: int, month: int, startDate: int): (t: Instant)
    requires 1 <= month <= 12 && 1 <= startDate <= 31
    ensures t.year == year && t.month == month && t.day == StartDay(year, month, startDate) && t.clock == 0
  {
    DateTime(year, month, StartDay(year, month, startDate), 0)
  }

  /**
   * `getMonthBounds`: with start day 1, the calendar month of `date`;
   * otherwise the period that begins on the (clamped) start day of the
   * month of `date`, or of the month before when `date` comes earlier in
   * its month than that day.
   */
  function MonthBounds(date: Instant, startDate: int): (r: (Instant, Instant))
    requires 1 <= startDate <= 31
    ensures r.0.clock == 0 && r.1.clock == EndOfDay
    ensures r.0.day == StartDay(r.0.year, r.0.month, startDate)
  {
    var y, m := date.year, date.month;
    if startDate == 1 then
      (DateTime(y, m, 1, 0), DateTime(y, m, DaysIn(y, m), EndOfDay))
    else
      var thisMonthStartDate := StartDay(y, m, startDate);
      var (prevYear, prevMonth) := PrevMonth(y, m);
      var prevMonthStartDate := StartDay(prevYear, prevMonth, startDate);
      if date.day < thisMonthStartDate then
        (Date(prevYear, prevMonth, prevMonthStartDate, 0), Date(y, m, thisMonthStartDate - 1, EndOfDay))
      else
        var (nextYear, nextMonth) := NextMonth(y, m);
        var nextMonthStartDate := StartDay(nextYear, nextMonth, startDate);
        (Date(y, m, thisMonthStartDate, 0), Date(nextYear, nextMonth, nextMonthStartDate - 1, EndOfDay))
  }

  /** With start day 1 the period is the calendar month, from the 1st at 00:00 to the last day at 23:59:59.999. */
  lemma CalendarMonth(date: Instant)
    ensures MonthBounds(date, 1) == (DateTime(date.year, date.month, 1, 0),
                                     DateTime(date.year, date.month, DaysIn(date.year, date.month), EndOfDay))
  {
  }

  /**
   * The period that contains a date starts on the period start of its own
   * month, or of the month before when the date is earlier than that; it
   * ends on the day before the next period starts, at 23:59:59.999; and it
   * contains the date.
   */
  lemma MonthBoundsContain(date: Instant, startDate: int)
    requires 1 <= startDate <= 31 && IsJsDate(date)
    ensures var (start, end) := MonthBounds(date, startDate);
      var own := PeriodStart(date.year, date.month, startDate);
      var (py, pm) := PrevMonth(date.year, date.month);
      (date.day < own.day ==> start == PeriodStart(py, pm, startDate)) &&
      (date.day >= own.day ==> start == own) &&
      var (ny, nm) := NextMonth(start.year, start.month);
      end == Date(ny, nm, StartDay(ny, nm, startDate) - 1, EndOfDay) &&
      NotAfter(start, date) && NotAfter(date, end)
  {
    var (start, end) := MonthBounds(date, startDate);
    assert date.clock <= EndOfDay;
    if startDate == 1 {
      var (ny, nm) := NextMonth(start.year, start.month);
      assert StartDay(ny, nm, startDate) == 1;
    } else if date.day < StartDay(date.year, date.month, startDate) {
      var (py, pm) := PrevMonth(date.year, date.month);
      DateInRange(py, pm, StartDay(py, pm, startDate), 0);
    } else {
      DateInRange(date.year, date.month, StartDay(date.year, date.month, startDate), 0);
    }
  }

  /**
   * `new Date(exp.date)`: the backend's date, which may carry nanoseconds,
   * as a JavaScript `Date` holds it, cut to the millisecond.
   */
  function JsDate(t: Instant): (r: Instant)
    ensures IsJsDate(r) && r.year == t.year && r.month == t.month && r.day == t.day
    ensures r.clock <= t.clock < r.clock + 1_000_000
    ensures IsJsDate(t) ==> r == t
  {
    DateTime(t.year, t.month, t.day, t.clock - t.clock % 1_000_000)
  }

  /** Cutting to the millisecond keeps the order of dates, though it may make two of them equal. */
  lemma JsDateMonotone(a: Instant, b: Instant)
    requires NotAfter(a, b)
    ensures NotAfter(JsDate(a), JsDate(b))
  {
    if a.year == b.year && a.month == b.month && a.day == b.day {
      assert a.clock <= b.clock;
      assert (a.clock - a.clock % 1_000_000) <= b.clock;
      assert (b.clock - b.clock % 1_000_000) % 1_000_000 == 0;
    }
  }

  /** Whether an expense falls in a period: `start <= new Date(exp.date) <= end`. */
  function InPeriod(start: Instant, end: Instant): Expense -> bool {
    (e: Expense) => NotAfter(start, JsDate(e.date)) && NotAfter(JsDate(e.date), end)
  }

  /** The sort key, `new Date(exp.date)` as a number: later dates have larger keys. */
  function Key(e: Expense): int {
    Ordinal(JsDate(e.date))
  }

  /** Ordered by `key`, largest first. */
  predicate DescendingBy<T>(s: seq<T>, key: T -> int) {
    forall i, j :: 0 <= i < j < |s| ==> key(s[j]) <= key(s[i])
  }

  predicate NewestFirst(s: seq<Expense>) {
    DescendingBy(s, Key)
  }

  /** One step of the sort: before the first element whose key is not larger. */
  function Insert<T>(e: T, sorted: seq<T>, key: T -> int): (r: seq<T>)
    ensures multiset(r) == multiset(sorted) + multiset{e}
  {
    if sorted == [] || key(sorted[0]) <= key(e) then [e] + sorted
    else
      assert sorted == [sorted[0]] + sorted[1..];
      [sorted[0]] + Insert(e, sorted[1..], key)
  }

  lemma {:induction false} InsertDescending<T>(e: T, sorted: seq<T>, key: T -> int)
    requires DescendingBy(sorted, key)
    ensures DescendingBy(Insert(e, sorted, key), key)
  {
    if !(sorted == [] || key(sorted[0]) <= key(e)) {
      var rest := Insert(e, sorted[1..], key);
      InsertDescending(e, sorted[1..], key);
      forall x | x in multiset(rest)
        ensures key(x) <= key(sorted[0])
      {
        assert x in multiset(sorted[1..]) || x == e;
      }
      forall i | 0 <= i < |rest|
        ensures key(rest[i]) <= key(sorted[0])
      {
        assert rest[i] in multiset(rest);
      }
    }
  }

  /** An insertion sort by `key`, largest first; the array sort the browser runs is not modelled. */
  function SortBy<T>(s: seq<T>, key: T -> int): (r: seq<T>)
    ensures multiset(r) == multiset(s)
  {
    if s == [] then []
    else
      assert s == [s[0]] + s[1..];
      Insert(s[0], SortBy(s[1..], key), key)
  }

  lemma {:induction false} SortIsDescending<T>(s: seq<T>, key: T -> int)
    ensures DescendingBy(SortBy(s, key), key)
  {
    if s != [] {
      SortIsDescending(s[1..], key);
      InsertDescending(s[0], SortBy(s[1..], key), key);
    }
  }

  /** `.sort((a, b) => new Date(b.date) - new Date(a.date))`: newest first. */
  function SortNewestFirst(s: seq<Expense>): (r: seq<Expense>)
    ensures NewestFirst(r) && multiset(r) == multiset(s)
  {
    SortIsDescending(s, Key);
    SortBy(s, Key)
  }

  /** `getMonthExpenses`: the expenses of the period that contains `current`, newest first. */
  function MonthExpenses(expenses: seq<Expense>, current: Instant, startDate: int): (r: seq<Expense>)
    requires 1 <= startDate <= 31
    ensures var (start, end) := MonthBounds(current, startDate);
      NewestFirst(r) && multiset(r) == multiset(Filter(expenses, InPeriod(start, end)))
  {
    var (start, end) := MonthBounds(current, startDate);
    SortNewestFirst(Filter(expenses, InPeriod(start, end)))
  }

  /** An expense is listed exactly when it lies in the period. */
  lemma MonthExpensesMembers(expenses: seq<Expense>, current: Instant, startDate: int, e: Expense)
    requires 1 <= startDate <= 31
    ensures var (start, end) := MonthBounds(current, startDate);
      e in MonthExpenses(expenses, current, startDate) <==>
      e in expenses && NotAfter(start, JsDate(e.date)) && NotAfter(JsDate(e.date), end)
  {
    var (start, end) := MonthBounds(current, startDate);
    var r := MonthExpenses(expenses, current, startDate);
    assert e in r <==> e in multiset(r);
    assert e in Filter(expenses, InPeriod(start, end)) <==> e in multiset(Filter(expenses, InPeriod(start, end)));
  }

  /**
   * Newest first in the key order is newest first in the order of the
   * JavaScript dates: a later entry is older than an earlier one, or falls
   * in the same millisecond.
   */
  lemma NewestFirstByDate(s: seq<Expense>, i: nat, j: nat)
    requires NewestFirst(s) && i < j < |s|
    ensures NotAfter(JsDate(s[j].date), JsDate(s[i].date))
    ensures NotAfter(s[j].date, s[i].date) || JsDate(s[i].date) == JsDate(s[j].date)
  {
    BeforeIsOrdinalOrder(JsDate(s[i].date), JsDate(s[j].date));
    if Before(s[i].date, s[j].date) {
      JsDateMonotone(s[i].date, s[j].date);
      BeforeIsOrdinalOrder(JsDate(s[j].date), JsDate(s[i].date));
      OrdinalInjective(JsDate(s[i].date), JsDate(s[j].date));
    }
  }

  /** The elements whose key is `k`. */
  function Ties<T>(key: T -> int, k: int): T -> bool {
    (x: T) => key(x) == k
  }

  /** Inserting an element puts it before the elements of equal key, behind only larger keys. */
  lemma {:induction false} InsertKeepsTies<T(!new)>(e: T, sorted: seq<T>, key: T -> int, k: int)
    ensures Filter(Insert(e, sorted, key), Ties(key, k)) ==
            (if key(e) == k then [e] else []) + Filter(sorted, Ties(key, k))
  {
    var r := Insert(e, sorted, key);
    if sorted == [] || key(sorted[0]) <= key(e) {
      assert r[0] == e && r[1..] == sorted;
    } else {
      var rest := Insert(e, sorted[1..], key);
      InsertKeepsTies(e, sorted[1..], key, k);
      assert r[0] == sorted[0] && r[1..] == rest;
    }
  }

  /**
   * The sort is stable: elements of equal key come out in the order they
   * went in, as the comparator's 0 asks of the ES2019 `Array.prototype.sort`.
   */
  lemma {:induction false} SortByStable<T(!new)>(s: seq<T>, key: T -> int, k: int)
    ensures Filter(SortBy(s, key), Ties(key, k)) == Filter(s, Ties(key, k))
  {
    if s != [] {
      SortByStable(s[1..], key, k);
      InsertKeepsTies(s[0], SortBy(s[1..], key), key, k);
    }
  }

  /**
   * Expenses in the same millisecond, which the comparator reports as equal,
   * keep their order in the list, whatever their nanoseconds.
   */
  lemma SortNewestFirstStable(s: seq<Expense>, k: int)
    ensures Filter(SortNewestFirst(s), Ties(Key, k)) == Filter(s, Ties(Key, k))
  {
    SortByStable(s, Key, k);
  }

  /**
   * The last half millisecond of a period is still in it: with the calendar
   * month of January 2024, an expense dated 23:59:59.9995 on January 31 is
   * listed, because its JavaScript date is 23:59:59.999.
   */
  lemma LastSubMillisecondListed(expenses: seq<Expense>, current: Instant, e: Expense)
    requires current.year == 2024 && current.month == 1
    requires e in expenses && e.date == DateTime(2024, 1, 31, EndOfDay + 500_000)
    ensures e in MonthExpenses(expenses, current, 1)
  {
    CalendarMonth(current);
    assert DaysIn(2024, 1) == 31;
    var (start, end) := MonthBounds(current, 1);
    assert start == DateTime(2024, 1, 1, 0) && end == DateTime(2024, 1, 31, EndOfDay);
    assert JsDate(e.date) == end;
    MonthExpensesMembers(expenses, current, 1, e);
  }
}
