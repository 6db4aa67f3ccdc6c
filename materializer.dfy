/**
 * Expansion of a recurring rule into dated ledger entries
 * (`generateExpensesFromRecurring`). The clock and the UUID generator are
 * parameters: `today` is the reading of `time.Now()` and `freshId(i)` is the
 * UUID given to the i-th generated entry.
 */
module Materializer {
  import opened Wrappers
  import opened CivilTime
  import opened Records

  /** The number of entries an open-ended rule (`occurrences == 0`) produces. */
  const OpenEndedCeiling: int := 200

  /** The entry generated for `rule` on `date`. */
  function MakeEntry(userID: string, rule: RecurringExpense, date: Instant, id: string): Expense {
    Expense(id, userID, rule.id, rule.name, rule.category, rule.amount, rule.currency, date, rule.tags)
  }

  /** The schedule: `start` advanced `k` times by `interval`. */
  function ScheduleDate(start: Instant, interval: Interval, k: nat): Instant
    decreases k
  {
    if k == 0 then start else ScheduleDate(Step(start, interval), interval, k - 1)
  }

  /** The schedule advances by one step from each date to the next. */
  lemma {:induction false} ScheduleDateSucc(start: Instant, interval: Interval, k: nat)
    ensures ScheduleDate(start, interval, k + 1) == Step(ScheduleDate(start, interval, k), interval)
    decreases k
  {
    if k > 0 {
      ScheduleDateSucc(Step(start, interval), interval, k - 1);
    }
  }

  /** Schedule dates strictly increase. */
  lemma {:induction false} ScheduleIncreasing(start: Instant, interval: Interval, i: nat, j: nat)
    requires i < j
    ensures Before(ScheduleDate(start, interval, i), ScheduleDate(start, interval, j))
    decreases j
  {
    ScheduleDateSucc(start, interval, j - 1);
    StepIncreases(ScheduleDate(start, interval, j - 1), interval);
    if i < j - 1 {
      ScheduleIncreasing(start, interval, i, j - 1);
    }
  }

  /** No schedule date comes before the start. */
  lemma ScheduleNotBeforeStart(start: Instant, interval: Interval, k: nat)
    ensures NotAfter(start, ScheduleDate(start, interval, k))
  {
    if k > 0 {
      ScheduleIncreasing(start, interval, 0, k);
    }
  }

  /**
   * The generation loop: `count` entries from `cursor`, the first with ID
   * `freshId(index)`. With an unknown interval the loop returns right after
   * emitting its first entry.
   */
  function Series(userID: string, rule: RecurringExpense, cursor: Instant, count: int,
                  freshId: nat -> string, index: nat): seq<Expense>
    decreases if count > 0 then count else 0, 0
  {
    if count <= 0 then []
    else
      [MakeEntry(userID, rule, cursor, freshId(index))] +
      SeriesAfter(userID, rule, Advance(cursor, rule.interval), count - 1, freshId, index + 1)
  }

  /** The rest of the generation loop after a step: nothing when the interval is unknown. */
  function SeriesAfter(userID: string, rule: RecurringExpense, next: Option<Instant>, count: int,
                       freshId: nat -> string, index: nat): seq<Expense>
    decreases if count > 0 then count else 0, 1
  {
    match next
    case None => []
    case Some(cursor) => Series(userID, rule, cursor, count, freshId, index)
  }

  /** One round of the generation loop, when the interval is known. */
  lemma SeriesCons(userID: string, rule: RecurringExpense, cursor: Instant, count: int,
                   freshId: nat -> string, index: nat, next: Instant)
    requires count > 0 && Advance(cursor, rule.interval) == Some(next)
    ensures Series(userID, rule, cursor, count, freshId, index)
         == [MakeEntry(userID, rule, cursor, freshId(index))] + Series(userID, rule, next, count - 1, freshId, index + 1)
  {
  }

  /** The last round of the generation loop, when the interval is unknown. */
  lemma SeriesStop(userID: string, rule: RecurringExpense, cursor: Instant, count: int,
                   freshId: nat -> string, index: nat)
    requires count > 0 && Advance(cursor, rule.interval) == None
    ensures Series(userID, rule, cursor, count, freshId, index) == [MakeEntry(userID, rule, cursor, freshId(index))]
  {
  }

  /** A round of the generation loop that continues: its entry moves from the series to the output. */
  lemma EmitStep(userID: string, rule: RecurringExpense, cursor: Instant, count: int,
                 freshId: nat -> string, index: nat, next: Instant, done: seq<Expense>)
    requires count > 0 && Advance(cursor, rule.interval) == Some(next)
    ensures done + Series(userID, rule, cursor, count, freshId, index)
         == (done + [MakeEntry(userID, rule, cursor, freshId(index))]) + Series(userID, rule, next, count - 1, freshId, index + 1)
  {
    SeriesCons(userID, rule, cursor, count, freshId, index, next);
  }

  /** The round of the generation loop that stops: its entry is the last of the output. */
  lemma EmitStop(userID: string, rule: RecurringExpense, cursor: Instant, count: int,
                 freshId: nat -> string, index: nat, done: seq<Expense>)
    requires count > 0 && Advance(cursor, rule.interval) == None
    ensures done + Series(userID, rule, cursor, count, freshId, index)
         == done + [MakeEntry(userID, rule, cursor, freshId(index))]
  {
    SeriesStop(userID, rule, cursor, count, freshId, index);
  }

  /**
   * The skip loop of a regeneration "from today": steps past schedule dates
   * strictly before `today`, spending budget only for a bounded rule; None
   * when a step was needed but the interval is unknown.
   */
  function FastForward(cursor: Instant, name: string, today: Instant, occurrences: int, budget: int)
    : Option<(Instant, int)>
    decreases if Before(cursor, today) then Ordinal(today) - Ordinal(cursor) else 0
  {
    if Before(cursor, today) && (occurrences == 0 || budget > 0) then
      match Advance(cursor, name)
      case None => None
      case Some(next) =>
        BeforeIsOrdinalOrder(cursor, next);
        FastForward(next, name, today, occurrences, if occurrences > 0 then budget - 1 else budget)
    else Some((cursor, budget))
  }

  /** How many entries the generation loop emits for a remaining budget. */
  function Budgeted(occurrences: int, budget: int): int {
    if occurrences == 0 then OpenEndedCeiling else if occurrences > 0 then budget else 0
  }

  /** What `generateExpensesFromRecurring(userID, rule, fromToday)` returns at `today`. */
  function Materialize(userID: string, rule: RecurringExpense, fromToday: bool, today: Instant,
                       freshId: nat -> string): seq<Expense>
  {
    var occ := rule.occurrences;
    if fromToday then
      match FastForward(rule.startDate, rule.interval, today, occ, occ)
      case None => []
      case Some((cursor, budget)) => Series(userID, rule, cursor, Budgeted(occ, budget), freshId, 0)
    else
      Series(userID, rule, rule.startDate, Budgeted(occ, occ), freshId, 0)
  }

  /**
   * The skip loop of `generateExpensesFromRecurring` run "from today": the
   * first schedule date not before `today` and the budget left, or None when
   * the loop returned early on an unknown interval.
   */
  method SkipElapsed(rule: RecurringExpense, today: Instant) returns (r: Option<(Instant, int)>)
    ensures r == FastForward(rule.startDate, rule.interval, today, rule.occurrences, rule.occurrences)
  {
    var currentDate := rule.startDate;
    var occurrencesToGenerate := rule.occurrences;
    while Before(currentDate, today) && (rule.occurrences == 0 || occurrencesToGenerate > 0)
      invariant FastForward(currentDate, rule.interval, today, rule.occurrences, occurrencesToGenerate)
             == FastForward(rule.startDate, rule.interval, today, rule.occurrences, rule.occurrences)
      decreases Ordinal(today) - Ordinal(currentDate)
    {
      var next := SkipRound(rule, today, currentDate, occurrencesToGenerate);
      if next.None? {
        return None;
      }
      currentDate, occurrencesToGenerate := next.value.0, next.value.1;
    }
    r := Some((currentDate, occurrencesToGenerate));
  }

  /**
   * One round of the skip loop: the next date and the budget left, or None
   * when the interval is unknown and the loop returns.
   */
  method SkipRound(rule: RecurringExpense, today: Instant, cursor: Instant, budget: int)
    returns (next: Option<(Instant, int)>)
    requires Before(cursor, today) && (rule.occurrences == 0 || budget > 0)
    ensures Ordinal(cursor) < Ordinal(today)
    ensures next.None? ==> FastForward(cursor, rule.interval, today, rule.occurrences, budget) == None
    ensures next.Some? ==> Ordinal(cursor) < Ordinal(next.value.0)
    ensures next.Some? ==>
              FastForward(cursor, rule.interval, today, rule.occurrences, budget)
              == FastForward(next.value.0, rule.interval, today, rule.occurrences, next.value.1)
  {
    BeforeIsOrdinalOrder(cursor, today);
    var date := Advance(cursor, rule.interval);
    if date.None? {
      FastForwardStuck(cursor, rule.interval, today, rule.occurrences, budget);
      return None;
    }
    BeforeIsOrdinalOrder(cursor, date.value);
    FastForwardStep(cursor, rule.interval, today, rule.occurrences, budget, date.value);
    var left := budget;
    if rule.occurrences > 0 {
      left := left - 1;
    }
    next := Some((date.value, left));
  }

  /**
   * One round of the generation loop: the entry for `cursor`, then the next
   * date, or None when the interval is unknown and the loop returns.
   */
  method EmitRound(userID: string, rule: RecurringExpense, cursor: Instant, ghost count: int,
                   freshId: nat -> string, index: nat, ghost done: seq<Expense>)
    returns (exp: Expense, next: Option<Instant>)
    requires count > 0
    ensures exp == MakeEntry(userID, rule, cursor, freshId(index))
    ensures next.None? ==> done + Series(userID, rule, cursor, count, freshId, index) == done + [exp]
    ensures next.Some? ==> done + Series(userID, rule, cursor, count, freshId, index)
                           == (done + [exp]) + Series(userID, rule, next.value, count - 1, freshId, index + 1)
  {
    exp := MakeEntry(userID, rule, cursor, freshId(index));
    next := Advance(cursor, rule.interval);
    if next.None? {
      EmitStop(userID, rule, cursor, count, freshId, index, done);
    } else {
      EmitStep(userID, rule, cursor, count, freshId, index, next.value, done);
    }
  }

  /**
   * The generation loop of `generateExpensesFromRecurring`, entered at
   * `start` with `budget` occurrences left to generate.
   */
  method EmitSeries(userID: string, rule: RecurringExpense, start: Instant, budget: int,
                    freshId: nat -> string)
    returns (expenses: seq<Expense>)
    ensures expenses == Series(userID, rule, start, Budgeted(rule.occurrences, budget), freshId, 0)
  {
    expenses := [];
    var currentDate := start;
    var occurrencesToGenerate := budget;
    var count := occurrencesToGenerate;
    if rule.occurrences == 0 {
      count := OpenEndedCeiling;
    }
    ghost var remaining := Budgeted(rule.occurrences, budget);
    var i := 0;
    while (rule.occurrences == 0 && i < count) || (rule.occurrences > 0 && occurrencesToGenerate > 0)
      invariant 0 <= i && (rule.occurrences == 0 ==> count == OpenEndedCeiling && i <= count)
      invariant rule.occurrences == 0 ==> remaining == count - i
      invariant rule.occurrences > 0 ==> remaining == occurrencesToGenerate
      invariant rule.occurrences < 0 ==> remaining == 0
      invariant expenses + Series(userID, rule, currentDate, remaining, freshId, i)
             == Series(userID, rule, start, Budgeted(rule.occurrences, budget), freshId, 0)
      decreases remaining
    {
      var exp, next := EmitRound(userID, rule, currentDate, remaining, freshId, i, expenses);
      expenses := expenses + [exp];
      if next.None? {
        return;
      }
      currentDate := next.value;
      if rule.occurrences > 0 {
        occurrencesToGenerate := occurrencesToGenerate - 1;
      }
      i := i + 1;
      remaining := remaining - 1;
    }
  }

  /** `generateExpensesFromRecurring`: the skip loop, then the generation loop. */
  method GenerateExpensesFromRecurring(userID: string, rule: RecurringExpense, fromToday: bool,
                                       today: Instant, freshId: nat -> string)
    returns (expenses: seq<Expense>)
    ensures expenses == Materialize(userID, rule, fromToday, today, freshId)
  {
    var currentDate := rule.startDate;
    var occurrencesToGenerate := rule.occurrences;
    if fromToday {
      var skipped := SkipElapsed(rule, today);
      if skipped.None? {
        return [];
      }
      currentDate, occurrencesToGenerate := skipped.value.0, skipped.value.1;
    }
    expenses := EmitSeries(userID, rule, currentDate, occurrencesToGenerate, freshId);
  }

  /** The fields every generated entry copies from its rule and its owner. */
  predicate CopiesRule(e: Expense, userID: string, rule: RecurringExpense) {
    e.userId == userID && e.recurringId == rule.id && e.name == rule.name &&
    e.category == rule.category && e.amount == rule.amount && e.currency == rule.currency &&
    e.tags == rule.tags
  }

  /**
   * Whatever the interval, the i-th entry of a series gets the i-th fresh ID,
   * copies the rule, and is dated no earlier than the series' first cursor.
   */
  lemma {:induction false} SeriesEntries(userID: string, rule: RecurringExpense, cursor: Instant, count: int,
                                         freshId: nat -> string, index: nat)
    ensures var r := Series(userID, rule, cursor, count, freshId, index);
      |r| <= (if count > 0 then count else 0) &&
      forall k :: 0 <= k < |r| ==>
        r[k].id == freshId(index + k) && CopiesRule(r[k], userID, rule) && NotAfter(cursor, r[k].date)
    decreases if count > 0 then count else 0
  {
    if count > 0 {
      var r := Series(userID, rule, cursor, count, freshId, index);
      match Advance(cursor, rule.interval)
      case None =>
        SeriesStop(userID, rule, cursor, count, freshId, index);
      case Some(next) =>
        SeriesCons(userID, rule, cursor, count, freshId, index, next);
        SeriesEntries(userID, rule, next, count - 1, freshId, index + 1);
        var rest := Series(userID, rule, next, count - 1, freshId, index + 1);
        forall k | 0 <= k < |r|
          ensures r[k].id == freshId(index + k) && CopiesRule(r[k], userID, rule) && NotAfter(cursor, r[k].date)
        {
          if k > 0 {
            assert r[k] == rest[k - 1];
          }
        }
    }
  }

  /**
   * With a known interval the series is the schedule from `cursor`, cut at
   * `count` entries.
   */
  lemma {:induction false} SeriesFollowsSchedule(userID: string, rule: RecurringExpense, cursor: Instant, count: int,
                                                 freshId: nat -> string, index: nat, interval: Interval)
    requires ParseInterval(rule.interval) == Some(interval)
    ensures var r := Series(userID, rule, cursor, count, freshId, index);
      |r| == (if count > 0 then count else 0) &&
      forall k :: 0 <= k < |r| ==> r[k].date == ScheduleDate(cursor, interval, k)
    decreases if count > 0 then count else 0
  {
    if count > 0 {
      var next := Step(cursor, interval);
      assert Advance(cursor, rule.interval) == Some(next);
      SeriesCons(userID, rule, cursor, count, freshId, index, next);
      SeriesFollowsSchedule(userID, rule, next, count - 1, freshId, index + 1, interval);
      var r := Series(userID, rule, cursor, count, freshId, index);
      var rest := Series(userID, rule, next, count - 1, freshId, index + 1);
      forall k | 0 <= k < |r|
        ensures r[k].date == ScheduleDate(cursor, interval, k)
      {
        if k > 0 {
          assert r[k] == rest[k - 1];
        }
      }
    }
  }

  /** One round of the skip loop. */
  lemma FastForwardStep(cursor: Instant, name: string, today: Instant, occurrences: int, budget: int,
                        next: Instant)
    requires Before(cursor, today) && (occurrences == 0 || budget > 0)
    requires Advance(cursor, name) == Some(next)
    ensures FastForward(cursor, name, today, occurrences, budget)
         == FastForward(next, name, today, occurrences, if occurrences > 0 then budget - 1 else budget)
  {
  }

  /** The round of the skip loop that meets an unknown interval. */
  lemma FastForwardStuck(cursor: Instant, name: string, today: Instant, occurrences: int, budget: int)
    requires Before(cursor, today) && (occurrences == 0 || budget > 0)
    requires Advance(cursor, name) == None
    ensures FastForward(cursor, name, today, occurrences, budget) == None
  {
  }

  /** Dates before `today` from the step after `cursor` stay so from `cursor` itself. */
  lemma ElapsedShift(cursor: Instant, interval: Interval, today: Instant, t: nat)
    requires Before(cursor, today)
    requires forall j :: 0 <= j < t ==> Before(ScheduleDate(Step(cursor, interval), interval, j), today)
    ensures forall j :: 0 <= j < t + 1 ==> Before(ScheduleDate(cursor, interval, j), today)
    ensures ScheduleDate(cursor, interval, t + 1) == ScheduleDate(Step(cursor, interval), interval, t)
  {
    forall j | 0 <= j < t + 1
      ensures Before(ScheduleDate(cursor, interval, j), today)
    {
      if j > 0 {
        assert ScheduleDate(cursor, interval, j) == ScheduleDate(Step(cursor, interval), interval, j - 1);
      }
    }
  }

  /** The skip loop with a known interval lands on a schedule date, passing only dates before `today`. */
  lemma {:induction false} FastForwardSchedule(cursor: Instant, name: string, today: Instant,
                                               occurrences: int, budget: int, interval: Interval)
    returns (s: nat)
    requires ParseInterval(name) == Some(interval)
    requires occurrences >= 0 && budget >= 0
    ensures FastForward(cursor, name, today, occurrences, budget)
         == Some((ScheduleDate(cursor, interval, s), if occurrences > 0 then budget - s else budget))
    ensures occurrences > 0 ==> s <= budget
    ensures forall j :: 0 <= j < s ==> Before(ScheduleDate(cursor, interval, j), today)
    decreases if Before(cursor, today) then Ordinal(today) - Ordinal(cursor) else 0
  {
    if Before(cursor, today) && (occurrences == 0 || budget > 0) {
      var next := Step(cursor, interval);
      StepIncreases(cursor, interval);
      BeforeIsOrdinalOrder(cursor, next);
      var t := FastForwardSchedule(next, name, today, occurrences, if occurrences > 0 then budget - 1 else budget, interval);
      SkipOneMore(cursor, name, today, occurrences, budget, interval, t);
      s := t + 1;
    } else {
      s := 0;
      FastForwardDone(cursor, name, today, occurrences, budget);
      assert ScheduleDate(cursor, interval, 0) == cursor;
    }
  }

  /** A skip loop that passes one date and then `t` more passes `t + 1`. */
  lemma SkipOneMore(cursor: Instant, name: string, today: Instant, occurrences: int, budget: int,
                    interval: Interval, t: nat)
    requires ParseInterval(name) == Some(interval) && occurrences >= 0
    requires Before(cursor, today) && (occurrences == 0 || budget > 0)
    requires var next, spent := Step(cursor, interval), if occurrences > 0 then budget - 1 else budget;
      FastForward(next, name, today, occurrences, spent)
        == Some((ScheduleDate(next, interval, t), if occurrences > 0 then spent - t else spent)) &&
      (occurrences > 0 ==> t <= spent) &&
      forall j :: 0 <= j < t ==> Before(ScheduleDate(next, interval, j), today)
    ensures FastForward(cursor, name, today, occurrences, budget)
         == Some((ScheduleDate(cursor, interval, t + 1), if occurrences > 0 then budget - (t + 1) else budget))
    ensures occurrences > 0 ==> t + 1 <= budget
    ensures forall j :: 0 <= j < t + 1 ==> Before(ScheduleDate(cursor, interval, j), today)
  {
    var next := Step(cursor, interval);
    AdvanceKnown(cursor, name, interval);
    FastForwardStep(cursor, name, today, occurrences, budget, next);
    ElapsedShift(cursor, interval, today, t);
  }

  /** The skip loop that has nothing to skip. */
  lemma FastForwardDone(cursor: Instant, name: string, today: Instant, occurrences: int, budget: int)
    requires !(Before(cursor, today) && (occurrences == 0 || budget > 0))
    ensures FastForward(cursor, name, today, occurrences, budget) == Some((cursor, budget))
  {
  }

  /** The skip loop stops at a date not before `today`, or when a bounded rule's budget is spent. */
  lemma {:induction false} FastForwardStops(cursor: Instant, name: string, today: Instant,
                                            occurrences: int, budget: int)
    requires occurrences >= 0 && budget >= 0
    ensures var r := FastForward(cursor, name, today, occurrences, budget);
      r.Some? ==> NotAfter(today, r.value.0) || (occurrences > 0 && r.value.1 == 0)
    decreases if Before(cursor, today) then Ordinal(today) - Ordinal(cursor) else 0
  {
    if Before(cursor, today) && (occurrences == 0 || budget > 0) {
      var next := Advance(cursor, name);
      if next.Some? {
        BeforeIsOrdinalOrder(cursor, next.value);
        FastForwardStep(cursor, name, today, occurrences, budget, next.value);
        FastForwardStops(next.value, name, today, occurrences, if occurrences > 0 then budget - 1 else budget);
      }
    }
  }

  /**
   * The skip loop with a known interval: it passes the first `s` schedule
   * dates, all before `today`, spending one occurrence each for a bounded
   * rule, and stops at the first date not before `today` or when the budget
   * is spent.
   */
  lemma FastForwardSkipsElapsed(cursor: Instant, name: string, today: Instant,
                                occurrences: int, budget: int, interval: Interval)
    returns (s: nat)
    requires ParseInterval(name) == Some(interval)
    requires occurrences >= 0 && budget >= 0
    ensures FastForward(cursor, name, today, occurrences, budget)
         == Some((ScheduleDate(cursor, interval, s), if occurrences > 0 then budget - s else budget))
    ensures occurrences > 0 ==> s <= budget
    ensures forall j :: 0 <= j < s ==> Before(ScheduleDate(cursor, interval, j), today)
    ensures NotAfter(today, ScheduleDate(cursor, interval, s)) || (occurrences > 0 && s == budget)
  {
    s := FastForwardSchedule(cursor, name, today, occurrences, budget, interval);
    FastForwardStops(cursor, name, today, occurrences, budget);
  }

  /** How many of the first `limit` schedule dates lie strictly before `today`. */
  function ElapsedCount(start: Instant, interval: Interval, today: Instant, limit: nat): (n: nat)
    ensures n <= limit
  {
    if limit == 0 then 0
    else ElapsedCount(start, interval, today, limit - 1) +
         (if Before(ScheduleDate(start, interval, limit - 1), today) then 1 else 0)
  }

  /** When exactly the dates before index `s` are past, `min(s, limit)` of the first `limit` are. */
  lemma {:induction false} ElapsedCountOfPrefix(start: Instant, interval: Interval, today: Instant,
                                                limit: nat, s: nat)
    requires forall j :: 0 <= j < limit ==> (Before(ScheduleDate(start, interval, j), today) <==> j < s)
    ensures ElapsedCount(start, interval, today, limit) == if s < limit then s else limit
  {
    if limit > 0 {
      ElapsedCountOfPrefix(start, interval, today, limit - 1, s);
    }
  }

  /**
   * A bounded rule materialised from its start (creation, or an update of
   * all occurrences) gives exactly `occurrences` entries: the first on the
   * start date and each later one a step after the one before, so the dates
   * strictly increase.
   */
  lemma MaterializeBounded(userID: string, rule: RecurringExpense, today: Instant, freshId: nat -> string,
                           interval: Interval)
    requires ParseInterval(rule.interval) == Some(interval) && rule.occurrences > 0
    ensures var r := Materialize(userID, rule, false, today, freshId);
      |r| == rule.occurrences && r[0].date == rule.startDate &&
      (forall k :: 0 <= k < |r| - 1 ==> r[k + 1].date == Step(r[k].date, interval)) &&
      (forall i, j :: 0 <= i < j < |r| ==> Before(r[i].date, r[j].date))
  {
    var r := Materialize(userID, rule, false, today, freshId);
    SeriesFollowsSchedule(userID, rule, rule.startDate, rule.occurrences, freshId, 0, interval);
    forall k | 0 <= k < |r| - 1
      ensures r[k + 1].date == Step(r[k].date, interval)
    {
      ScheduleDateSucc(rule.startDate, interval, k);
    }
    forall i, j | 0 <= i < j < |r|
      ensures Before(r[i].date, r[j].date)
    {
      ScheduleIncreasing(rule.startDate, interval, i, j);
    }
  }

  /** An open-ended rule with a known interval gives the ceiling of 200 entries, from today or not. */
  lemma MaterializeOpenEnded(userID: string, rule: RecurringExpense, fromToday: bool, today: Instant,
                             freshId: nat -> string, interval: Interval)
    requires ParseInterval(rule.interval) == Some(interval) && rule.occurrences == 0
    ensures |Materialize(userID, rule, fromToday, today, freshId)| == OpenEndedCeiling
  {
    var s := FastForwardSkipsElapsed(rule.startDate, rule.interval, today, 0, 0, interval);
    var cursor := if fromToday then ScheduleDate(rule.startDate, interval, s) else rule.startDate;
    SeriesFollowsSchedule(userID, rule, cursor, OpenEndedCeiling, freshId, 0, interval);
  }

  /** A negative occurrence count generates nothing. */
  lemma MaterializeNegative(userID: string, rule: RecurringExpense, fromToday: bool, today: Instant,
                            freshId: nat -> string)
    requires rule.occurrences < 0
    ensures Materialize(userID, rule, fromToday, today, freshId) == []
  {
    assert FastForward(rule.startDate, rule.interval, today, rule.occurrences, rule.occurrences)
        == Some((rule.startDate, rule.occurrences));
  }

  /**
   * Every generated entry belongs to `userID`, points back to the rule, copies
   * its name, category, amount, currency and tags, and the k-th gets the k-th
   * fresh ID.
   */
  lemma MaterializeCopiesRule(userID: string, rule: RecurringExpense, fromToday: bool, today: Instant,
                              freshId: nat -> string)
    ensures var r := Materialize(userID, rule, fromToday, today, freshId);
      forall k :: 0 <= k < |r| ==> r[k].id == freshId(k) && CopiesRule(r[k], userID, rule)
  {
    var cursor, count := MaterializeIsSeries(userID, rule, fromToday, today, freshId);
    SeriesEntries(userID, rule, cursor, count, freshId, 0);
    var r := Materialize(userID, rule, fromToday, today, freshId);
    var series := Series(userID, rule, cursor, count, freshId, 0);
    forall k | 0 <= k < |r|
      ensures r[k].id == freshId(k) && CopiesRule(r[k], userID, rule)
    {
      assert r[k] == series[k] && series[k].id == freshId(0 + k);
    }
  }

  /** Whatever the skip loop does, the result is empty or a series numbered from the first fresh ID. */
  lemma MaterializeIsSeries(userID: string, rule: RecurringExpense, fromToday: bool, today: Instant,
                            freshId: nat -> string)
    returns (cursor: Instant, count: int)
    ensures var r := Materialize(userID, rule, fromToday, today, freshId);
      r == [] || r == Series(userID, rule, cursor, count, freshId, 0)
  {
    var occ := rule.occurrences;
    var skipped := FastForward(rule.startDate, rule.interval, today, occ, occ);
    if !fromToday {
      cursor, count := rule.startDate, Budgeted(occ, occ);
    } else if skipped.Some? {
      cursor, count := skipped.value.0, Budgeted(occ, skipped.value.1);
    } else {
      cursor, count := rule.startDate, 0;
    }
  }

  /**
   * Regenerating a bounded rule from today: the schedule dates strictly
   * before today are skipped and each costs one occurrence, so the count is
   * `occurrences` minus the number of past schedule dates; the entries are the
   * rest of the schedule, none dated before today. If every occurrence is in
   * the past, nothing is generated.
   */
  lemma MaterializeFromTodayBounded(userID: string, rule: RecurringExpense, today: Instant,
                                    freshId: nat -> string, interval: Interval)
    requires ParseInterval(rule.interval) == Some(interval) && rule.occurrences > 0
    ensures var r := Materialize(userID, rule, true, today, freshId);
      |r| == rule.occurrences - ElapsedCount(rule.startDate, interval, today, rule.occurrences) &&
      forall k :: 0 <= k < |r| ==>
        r[k].date == ScheduleDate(rule.startDate, interval, rule.occurrences - |r| + k) &&
        NotAfter(today, r[k].date)
  {
    var n := rule.occurrences;
    var start := rule.startDate;
    var s := FastForwardSkipsElapsed(start, rule.interval, today, n, n, interval);
    var cursor := ScheduleDate(start, interval, s);
    var r := Materialize(userID, rule, true, today, freshId);
    assert r == Series(userID, rule, cursor, n - s, freshId, 0);
    SeriesFollowsSchedule(userID, rule, cursor, n - s, freshId, 0, interval);
    ElapsedIsSkipped(start, interval, today, n, s);
    ShiftedSeriesDates(userID, rule, start, interval, today, n, s, freshId);
  }

  /** The skip loop passes exactly the elapsed schedule dates among the first `n`. */
  lemma ElapsedIsSkipped(start: Instant, interval: Interval, today: Instant, n: nat, s: nat)
    requires s <= n
    requires forall j :: 0 <= j < s ==> Before(ScheduleDate(start, interval, j), today)
    requires NotAfter(today, ScheduleDate(start, interval, s)) || s == n
    ensures ElapsedCount(start, interval, today, n) == s
  {
    var cursor := ScheduleDate(start, interval, s);
    forall j | 0 <= j < n
      ensures Before(ScheduleDate(start, interval, j), today) <==> j < s
    {
      if s <= j {
        ScheduleShift(start, interval, s, j - s);
        if s < j {
          ScheduleIncreasing(cursor, interval, 0, j - s);
        }
      }
    }
    ElapsedCountOfPrefix(start, interval, today, n, s);
  }

  /** The series from the `s`-th schedule date follows the schedule from index `s`, never before `today`. */
  lemma ShiftedSeriesDates(userID: string, rule: RecurringExpense, start: Instant, interval: Interval,
                           today: Instant, n: nat, s: nat, freshId: nat -> string)
    requires s <= n
    requires NotAfter(today, ScheduleDate(start, interval, s)) || s == n
    requires var r := Series(userID, rule, ScheduleDate(start, interval, s), n - s, freshId, 0);
      |r| == n - s && forall k :: 0 <= k < |r| ==> r[k].date == ScheduleDate(ScheduleDate(start, interval, s), interval, k)
    ensures var r := Series(userID, rule, ScheduleDate(start, interval, s), n - s, freshId, 0);
      forall k :: 0 <= k < |r| ==> r[k].date == ScheduleDate(start, interval, s + k) && NotAfter(today, r[k].date)
  {
    var cursor := ScheduleDate(start, interval, s);
    var r := Series(userID, rule, cursor, n - s, freshId, 0);
    forall k | 0 <= k < |r|
      ensures r[k].date == ScheduleDate(start, interval, s + k) && NotAfter(today, r[k].date)
    {
      ScheduleShift(start, interval, s, k);
      ScheduleNotBeforeStart(cursor, interval, k);
    }
  }

  /** Advancing `s + k` steps is advancing `s` steps and then `k` more. */
  lemma {:induction false} ScheduleShift(start: Instant, interval: Interval, s: nat, k: nat)
    ensures ScheduleDate(ScheduleDate(start, interval, s), interval, k) == ScheduleDate(start, interval, s + k)
    decreases s
  {
    if s > 0 {
      ScheduleShift(Step(start, interval), interval, s - 1, k);
    }
  }

  /**
   * Regenerating an open-ended rule from today gives 200 entries, one step
   * apart, none dated before today.
   */
  lemma MaterializeFromTodayOpenEnded(userID: string, rule: RecurringExpense, today: Instant,
                                      freshId: nat -> string, interval: Interval)
    requires ParseInterval(rule.interval) == Some(interval) && rule.occurrences == 0
    ensures var r := Materialize(userID, rule, true, today, freshId);
      |r| == OpenEndedCeiling &&
      (forall k :: 0 <= k < |r| ==> NotAfter(today, r[k].date)) &&
      (forall k :: 0 <= k < |r| - 1 ==> r[k + 1].date == Step(r[k].date, interval))
  {
    var s := FastForwardSkipsElapsed(rule.startDate, rule.interval, today, 0, 0, interval);
    var cursor := ScheduleDate(rule.startDate, interval, s);
    var r := Materialize(userID, rule, true, today, freshId);
    SeriesFollowsSchedule(userID, rule, cursor, OpenEndedCeiling, freshId, 0, interval);
    forall k | 0 <= k < |r|
      ensures NotAfter(today, r[k].date)
    {
      ScheduleNotBeforeStart(cursor, interval, k);
    }
    forall k | 0 <= k < |r| - 1
      ensures r[k + 1].date == Step(r[k].date, interval)
    {
      ScheduleDateSucc(cursor, interval, k);
    }
  }

  /**
   * An unknown interval name: generation from the start emits the start date
   * alone; from today, the start date alone if it is not past, otherwise
   * nothing.
   */
  lemma MaterializeUnknownInterval(userID: string, rule: RecurringExpense, fromToday: bool, today: Instant,
                                   freshId: nat -> string)
    requires ParseInterval(rule.interval) == None && rule.occurrences >= 0
    ensures Materialize(userID, rule, fromToday, today, freshId)
         == if fromToday && Before(rule.startDate, today) then []
            else [MakeEntry(userID, rule, rule.startDate, freshId(0))]
  {
    var occ := rule.occurrences;
    assert Advance(rule.startDate, rule.interval) == None;
    if fromToday && !Before(rule.startDate, today) {
      assert FastForward(rule.startDate, rule.interval, today, occ, occ) == Some((rule.startDate, occ));
    }
    SeriesStop(userID, rule, rule.startDate, Budgeted(occ, occ), freshId, 0);
  }

  /** The rule of the worked example: monthly rent, three occurrences from 2024-01-01. */
  function RentRule(userID: string, amount: Amount): RecurringExpense {
    RecurringExpense("r1", userID, "Rent", amount, "usd", "Housing", DateTime(2024, 1, 1, 0), "monthly", 3, [])
  }

  /**
   * Worked example: monthly rent, three occurrences from 2024-01-01.
   * Creating it yields entries on 2024-01-01, 2024-02-01 and 2024-03-01;
   * regenerating it from 2024-02-15 skips the first two dates, spending two
   * occurrences, and yields one entry, on 2024-03-01.
   */
  lemma RentExample(userID: string, amount: Amount, freshId: nat -> string)
    ensures var rule := RentRule(userID, amount);
      var today := DateTime(2024, 2, 15, 0);
      var created := Materialize(userID, rule, false, today, freshId);
      var regenerated := Materialize(userID, rule, true, today, freshId);
      |created| == 3 &&
      created[0].date == DateTime(2024, 1, 1, 0) &&
      created[1].date == DateTime(2024, 2, 1, 0) &&
      created[2].date == DateTime(2024, 3, 1, 0) &&
      regenerated == [MakeEntry(userID, rule, DateTime(2024, 3, 1, 0), freshId(0))]
  {
    var rule := RentRule(userID, amount);
    var today := DateTime(2024, 2, 15, 0);
    var feb, mar := DateTime(2024, 2, 1, 0), DateTime(2024, 3, 1, 0);
    assert ParseInterval("monthly") == Some(Monthly);
    assert Step(rule.startDate, Monthly) == feb;
    assert Step(feb, Monthly) == mar;
    MaterializeBounded(userID, rule, today, freshId, Monthly);
    var created := Materialize(userID, rule, false, today, freshId);
    assert created[1].date == feb;
    assert FastForward(mar, "monthly", today, 3, 1) == Some((mar, 1));
    assert FastForward(feb, "monthly", today, 3, 2) == Some((mar, 1));
    assert FastForward(rule.startDate, "monthly", today, 3, 3) == Some((mar, 1));
    assert Step(mar, Monthly) == DateTime(2024, 4, 1, 0);
    SeriesCons(userID, rule, mar, 1, freshId, 0, DateTime(2024, 4, 1, 0));
  }
}
