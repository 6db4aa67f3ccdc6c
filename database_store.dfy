/**
 * The PostgreSQL store (`databaseStore`): the `user_settings`,
 * `recurring_expenses` and `expenses` tables, the operations on settings and
 * single expenses, and the three operations that keep a recurring rule and
 * the entries generated from it consistent.
 *
 * A transaction works on copies of the two tables and assigns them back only
 * when it commits, so every early return (the deferred `tx.Rollback()`)
 * leaves the tables as they were. The settings lookup `GetCurrency` runs on
 * the connection, outside the transaction, so the default settings it may
 * insert survive a rollback.
 *
 * Database failures are a parameter: `failing` names the statement the
 * database rejects, if any. A primary-key violation is not a parameter: an
 * insert whose ID is already taken fails as PostgreSQL makes it fail.
 */
module DatabaseStore {
  import opened Wrappers
  import opened CivilTime
  import opened Records
  import opened StorageConfig
  import opened Materializer
  import opened Relations
  import Numbers

  /** One row of `user_settings`. */
  datatype Settings = Settings(categories: seq<string>, currency: string, startDate: int)

  /** What `EnsureUserDefaults` inserts: the defaults of `SetBaseConfig`. */
  const DefaultSettings: Settings := Settings(DefaultCategories, DefaultCurrency, 1)

  /** The statements the store issues. */
  datatype Stmt =
    | Begin | Commit
    | SettingsInsert | SettingsSelect | SettingsUpdate
    | RuleInsert | RuleUpdate | RuleDelete
    | RowSelect | RowInsert | RowUpdate | RowDelete | RowsDelete
    | CopyPrepare | CopyRow | CopyFlush

  /** The text of a database error the store passes on without wrapping it. */
  const DbError: string := "database error"

  function RowId(row: ExpenseRow): string { row.id }

  function RuleId(rule: RecurringExpense): string { rule.id }

  /** `INSERT INTO user_settings ... ON CONFLICT (user_id) DO NOTHING`. */
  function WithDefaults(settings: map<string, Settings>, userID: string): (r: map<string, Settings>)
    ensures userID in r
    ensures userID in settings ==> r == settings
    ensures userID !in settings ==> r[userID] == DefaultSettings
    ensures forall u :: u in settings ==> u in r && r[u] == settings[u]
    ensures forall u :: u in r && u != userID ==> u in settings
  {
    if userID in settings then settings else settings[userID := DefaultSettings]
  }

  /** The currency `GetCurrency` reads once the defaults are in place. */
  function CurrencyOf(settings: map<string, Settings>, userID: string): string {
    if userID in settings then settings[userID].currency else DefaultCurrency
  }

  /** The rows an `INSERT` or `COPY` of `expenses` writes. */
  function Rows(expenses: seq<Expense>): (r: seq<ExpenseRow>)
    ensures |r| == |expenses|
    ensures forall i :: 0 <= i < |r| ==> r[i] == ToRow(expenses[i])
  {
    seq(|expenses|, i requires 0 <= i < |expenses| => ToRow(expenses[i]))
  }

  /** Some row is expense `id` of `userID`. */
  predicate HasExpense(rows: seq<ExpenseRow>, userID: string, id: string) {
    exists i :: 0 <= i < |rows| && rows[i].userId == userID && rows[i].id == id
  }

  /** Some rule row is rule `id` of `userID`. */
  predicate HasRule(rules: seq<RecurringExpense>, userID: string, id: string) {
    exists i :: 0 <= i < |rules| && rules[i].userId == userID && rules[i].id == id
  }

  /** `AddExpense`'s defaults: a fresh ID, the owner, the user's currency, the current time. */
  function FillExpense(e: Expense, userID: string, newId: string, currency: string, now: Instant): (r: Expense)
    ensures r.userId == userID
    ensures r.id == if e.id == "" then newId else e.id
    ensures r.currency == if e.currency == "" then currency else e.currency
    ensures r.date == if IsZero(e.date) then now else e.date
    ensures r.(id := e.id, userId := e.userId, currency := e.currency, date := e.date) == e
  {
    e.(id := if e.id == "" then newId else e.id,
       userId := userID,
       currency := if e.currency == "" then currency else e.currency,
       date := if IsZero(e.date) then now else e.date)
  }

  /** Filling in the defaults of an expense that has them changes nothing more. */
  lemma FillExpenseIdempotent(e: Expense, userID: string, newId: string, currency: string, now: Instant)
    ensures var filled := FillExpense(e, userID, newId, currency, now);
      FillExpense(filled, userID, newId, currency, now) == filled
  {
  }

  /** `AddMultipleExpenses`'s defaults for each expense of a batch; the date is left as given. */
  function FillBatch(expenses: seq<Expense>, userID: string, freshId: nat -> string, currency: string)
    : (r: seq<Expense>)
    ensures |r| == |expenses|
  {
    seq(|expenses|, i requires 0 <= i < |expenses| => FillBatchEntry(expenses[i], i, userID, freshId, currency))
  }

  /** The `index`-th expense of a batch as it is copied: owned by `userID`, with an ID and a currency. */
  function FillBatchEntry(e: Expense, index: nat, userID: string, freshId: nat -> string, currency: string): Expense {
    e.(id := if e.id == "" then freshId(index) else e.id,
       userId := userID,
       currency := if e.currency == "" then currency else e.currency)
  }

  /** Filling one more expense of the batch appends it to the filled prefix. */
  lemma FillBatchStep(expenses: seq<Expense>, i: nat, userID: string, freshId: nat -> string, currency: string)
    requires i < |expenses|
    ensures FillBatch(expenses[..i + 1], userID, freshId, currency)
         == FillBatch(expenses[..i], userID, freshId, currency) + [FillBatchEntry(expenses[i], i, userID, freshId, currency)]
  {
    var a := FillBatch(expenses[..i + 1], userID, freshId, currency);
    var b := FillBatch(expenses[..i], userID, freshId, currency) + [FillBatchEntry(expenses[i], i, userID, freshId, currency)];
    forall k | 0 <= k < |a|
      ensures a[k] == b[k]
    {
      assert expenses[..i + 1][k] == expenses[k];
      if k < i {
        assert expenses[..i][k] == expenses[k];
      }
    }
  }

  /** Appending an expense appends its row. */
  lemma RowsAppend(expenses: seq<Expense>, e: Expense)
    ensures Rows(expenses + [e]) == Rows(expenses) + [ToRow(e)]
  {
    var a, b := Rows(expenses + [e]), Rows(expenses) + [ToRow(e)];
    forall k | 0 <= k < |a|
      ensures a[k] == b[k]
    {
      if k < |expenses| {
        assert (expenses + [e])[k] == expenses[k];
      }
    }
  }

  /** Every expense of the batch names its currency, so no settings lookup is needed. */
  predicate AllPriced(expenses: seq<Expense>) {
    forall i :: 0 <= i < |expenses| ==> expenses[i].currency != ""
  }

  /** The columns `UpdateExpense` sets on the matching row. */
  function UpdateRows(rows: seq<ExpenseRow>, userID: string, id: string, e: Expense): (r: seq<ExpenseRow>)
    ensures |r| == |rows|
  {
    seq(|rows|, i requires 0 <= i < |rows| =>
      if rows[i].userId == userID && rows[i].id == id then
        rows[i].(name := e.name, category := e.category, amount := e.amount, currency := e.currency,
                 date := e.date, tags := e.tags, recurringId := NullString(e.recurringId))
      else rows[i])
  }

  /** `DELETE FROM expenses WHERE user_id = $1 AND id = $2`. */
  function DeleteExpense(rows: seq<ExpenseRow>, userID: string, id: string): seq<ExpenseRow> {
    Filter(rows, (row: ExpenseRow) => !(row.userId == userID && row.id == id))
  }

  /** `DELETE FROM expenses WHERE user_id = $1 AND id = ANY($2)`. */
  function DeleteExpenses(rows: seq<ExpenseRow>, userID: string, ids: seq<string>): seq<ExpenseRow> {
    Filter(rows, (row: ExpenseRow) => !(row.userId == userID && row.id in ids))
  }

  /** The rule `AddRecurringExpense` or `UpdateRecurringExpense` writes. */
  function FillRule(rule: RecurringExpense, id: string, userID: string, currency: string): RecurringExpense {
    rule.(id := id, userId := userID, currency := if rule.currency == "" then currency else rule.currency)
  }

  /** `UPDATE recurring_expenses SET ... WHERE id = $9 AND user_id = $10`. */
  function ReplaceRule(rules: seq<RecurringExpense>, userID: string, stored: RecurringExpense)
    : (r: seq<RecurringExpense>)
    ensures |r| == |rules|
    ensures forall i :: 0 <= i < |r| ==> r[i].id == rules[i].id
  {
    seq(|rules|, i requires 0 <= i < |rules| =>
      if rules[i].id == stored.id && rules[i].userId == userID then stored else rules[i])
  }

  /** `DELETE FROM recurring_expenses WHERE id = $1 AND user_id = $2`. */
  function DeleteRule(rules: seq<RecurringExpense>, userID: string, id: string): seq<RecurringExpense> {
    Filter(rules, (rule: RecurringExpense) => !(rule.id == id && rule.userId == userID))
  }

  /**
   * The rows `DELETE FROM expenses WHERE user_id = $1 AND recurring_id = $2`
   * removes, with `AND date > $3` when a cutoff is given.
   */
  predicate RuleRowDeleted(row: ExpenseRow, userID: string, ruleId: string, cutoff: Option<Instant>) {
    row.userId == userID && row.recurringId == Some(ruleId) &&
    (cutoff.None? || Before(cutoff.value, row.date))
  }

  function DeleteRuleRows(rows: seq<ExpenseRow>, userID: string, ruleId: string, cutoff: Option<Instant>)
    : seq<ExpenseRow>
  {
    Filter(rows, (row: ExpenseRow) => !RuleRowDeleted(row, userID, ruleId, cutoff))
  }

  /**
   * `bulkInsertExpenses` on the transaction's copy of `expenses`: nothing for
   * an empty batch, otherwise one `COPY` of every generated entry, which the
   * database rejects as a whole when an ID is already taken.
   */
  method BulkInsertExpenses(txRows: seq<ExpenseRow>, expenses: seq<Expense>, failing: Option<Stmt>)
    returns (r: Result<seq<ExpenseRow>, string>)
    ensures |expenses| == 0 ==> r == Ok(txRows)
    ensures r.Ok? ==> r.value == txRows + Rows(expenses)
    ensures r.Ok? && |expenses| > 0 ==> UniqueBy(r.value, RowId)
    ensures |expenses| > 0 && failing == Some(CopyPrepare) ==> r == Err("failed to prepare expense bulk insert")
    ensures |expenses| > 0 && failing == Some(CopyRow) ==> r == Err("failed to copy expense")
    ensures |expenses| > 0 && failing == Some(CopyFlush) ==> r == Err("failed to finalize expense batch")
    ensures failing != Some(CopyPrepare) && failing != Some(CopyRow) && failing != Some(CopyFlush) ==>
      (r.Ok? <==> |expenses| == 0 || UniqueBy(txRows + Rows(expenses), RowId))
  {
    if |expenses| == 0 {
      return Ok(txRows);
    }
    if failing == Some(CopyPrepare) {
      return Err("failed to prepare expense bulk insert");
    }
    var batch: seq<ExpenseRow> := [];
    var i := 0;
    while i < |expenses|
      invariant 0 <= i <= |expenses|
      invariant batch == Rows(expenses[..i])
      invariant failing == Some(CopyRow) ==> i == 0
    {
      if failing == Some(CopyRow) {
        return Err("failed to copy expense");
      }
      batch := batch + [ToRow(expenses[i])];
      i := i + 1;
    }
    assert expenses[..i] == expenses;
    if failing == Some(CopyFlush) || !UniqueBy(txRows + batch, RowId) {
      return Err("failed to finalize expense batch");
    }
    r := Ok(txRows + batch);
  }

  /** Rewriting a rule in place keeps the rule IDs unique. */
  lemma ReplaceRuleUnique(rules: seq<RecurringExpense>, userID: string, stored: RecurringExpense)
    requires UniqueBy(rules, RuleId)
    ensures UniqueBy(ReplaceRule(rules, userID, stored), RuleId)
  {
    var r := ReplaceRule(rules, userID, stored);
    forall i, j | 0 <= i < j < |r|
      ensures RuleId(r[i]) != RuleId(r[j])
    {
      assert RuleId(rules[i]) != RuleId(rules[j]);
    }
  }

  /**
   * The entry rewrite of `UpdateRecurringExpense` on the transaction's rows:
   * the rule's entries past the cutoff (all of them without one) are deleted,
   * then the entries generated for the rewritten rule are inserted.
   */
  method RegenerateRuleRows(txRows: seq<ExpenseRow>, userID: string, stored: RecurringExpense,
                            cutoff: Option<Instant>, fromToday: bool, now: Instant, freshId: nat -> string,
                            failing: Option<Stmt>)
    returns (r: Result<seq<ExpenseRow>, string>)
    requires UniqueBy(txRows, RowId)
    ensures var kept := DeleteRuleRows(txRows, userID, stored.id, cutoff);
      var added := Rows(Materialize(userID, stored, fromToday, now, freshId));
      (r.Ok? ==> r.value == kept + added && UniqueBy(r.value, RowId)) &&
      (failing == None ==> (r.Ok? <==> UniqueBy(kept + added, RowId)))
  {
    FilterUniqueBy(txRows, (row: ExpenseRow) => !RuleRowDeleted(row, userID, stored.id, cutoff), RowId);
    var kept := DeleteRuleRows(txRows, userID, stored.id, cutoff);
    r := InsertGenerated(kept, userID, stored, fromToday, now, freshId, failing);
  }

  /**
   * Generating a rule's entries and inserting them in one `COPY`: the
   * transaction's rows gain the generated rows, or the insert fails.
   */
  method InsertGenerated(txRows: seq<ExpenseRow>, userID: string, stored: RecurringExpense,
                         fromToday: bool, now: Instant, freshId: nat -> string, failing: Option<Stmt>)
    returns (r: Result<seq<ExpenseRow>, string>)
    requires UniqueBy(txRows, RowId)
    ensures var added := Rows(Materialize(userID, stored, fromToday, now, freshId));
      (r.Ok? ==> r.value == txRows + added && UniqueBy(r.value, RowId)) &&
      (failing == None ==> (r.Ok? <==> UniqueBy(txRows + added, RowId)))
  {
    var generated := GenerateExpensesFromRecurring(userID, stored, fromToday, now, freshId);
    r := BulkInsertExpenses(txRows, generated, failing);
    if |generated| == 0 {
      assert txRows + Rows(generated) == txRows;
    }
  }

  class Store {
    /** `user_settings`, by user. */
    var settings: map<string, Settings>
    /** `recurring_expenses`. */
    var rules: seq<RecurringExpense>
    /** `expenses`. */
    var rows: seq<ExpenseRow>

    /** The primary keys of both tables. */
    predicate Valid()
      reads this
    {
      UniqueBy(rules, RuleId) && UniqueBy(rows, RowId)
    }

    constructor ()
      ensures Valid() && settings == map[] && rules == [] && rows == []
    {
      settings, rules, rows := map[], [], [];
    }

    /** `EnsureUserDefaults`: inserts the default settings of a user who has none. */
    method EnsureUserDefaults(userID: string, failing: Option<Stmt>) returns (r: Outcome<string>)
      modifies this
      ensures rules == old(rules) && rows == old(rows)
      ensures userID == "" ==> r == Fail("userID is required")
      ensures userID != "" && failing == Some(SettingsInsert) ==> r == Fail(DbError)
      ensures r.Pass? <==> userID != "" && failing != Some(SettingsInsert)
      ensures settings == if r.Pass? then WithDefaults(old(settings), userID) else old(settings)
    {
      if userID == "" {
        return Fail("userID is required");
      }
      if failing == Some(SettingsInsert) {
        return Fail(DbError);
      }
      settings := WithDefaults(settings, userID);
      r := Pass;
    }

    /** `GetCurrency`: the user's currency, after inserting the defaults if needed. */
    method GetCurrency(userID: string, failing: Option<Stmt>) returns (r: Result<string, string>)
      modifies this
      ensures rules == old(rules) && rows == old(rows)
      ensures settings == if userID != "" && failing != Some(SettingsInsert)
                          then WithDefaults(old(settings), userID) else old(settings)
      ensures userID == "" ==> r == Err("userID is required")
      ensures r.Ok? <==> userID != "" && failing != Some(SettingsInsert) && failing != Some(SettingsSelect)
      ensures r.Ok? ==> r.value == CurrencyOf(old(settings), userID) && r.value == settings[userID].currency
    {
      var ensured := EnsureUserDefaults(userID, failing);
      if ensured.Fail? {
        return Err(ensured.error);
      }
      if failing == Some(SettingsSelect) {
        return Err("failed to load currency");
      }
      r := Ok(settings[userID].currency);
    }

    /** `UpdateCategories`. */
    method UpdateCategories(userID: string, categories: seq<string>, failing: Option<Stmt>)
      returns (r: Outcome<string>)
      modifies this
      ensures rules == old(rules) && rows == old(rows)
      ensures userID == "" ==> r == Fail("userID is required") && settings == old(settings)
      ensures r.Pass? <==> userID != "" && failing != Some(SettingsInsert) && failing != Some(SettingsUpdate)
      ensures r.Pass? ==> settings == WithDefaults(old(settings), userID)[userID :=
                            WithDefaults(old(settings), userID)[userID].(categories := categories)]
      ensures r.Fail? ==> settings == old(settings) || settings == WithDefaults(old(settings), userID)
    {
      var ensured := EnsureUserDefaults(userID, failing);
      if ensured.Fail? {
        return ensured;
      }
      if failing == Some(SettingsUpdate) {
        return Fail(DbError);
      }
      settings := settings[userID := settings[userID].(categories := categories)];
      r := Pass;
    }

    /** `UpdateCurrency`: only a supported currency, checked before any statement. */
    method UpdateCurrency(userID: string, currency: string, failing: Option<Stmt>)
      returns (r: Outcome<string>)
      modifies this
      ensures rules == old(rules) && rows == old(rows)
      ensures currency !in SupportedCurrencies ==>
        r == Fail("invalid currency: " + currency) && settings == old(settings)
      ensures r.Pass? <==> currency in SupportedCurrencies && userID != "" &&
                           failing != Some(SettingsInsert) && failing != Some(SettingsUpdate)
      ensures r.Pass? ==> settings == WithDefaults(old(settings), userID)[userID :=
                            WithDefaults(old(settings), userID)[userID].(currency := currency)]
      ensures r.Fail? ==> settings == old(settings) || settings == WithDefaults(old(settings), userID)
    {
      if currency !in SupportedCurrencies {
        return Fail("invalid currency: " + currency);
      }
      var ensured := EnsureUserDefaults(userID, failing);
      if ensured.Fail? {
        return ensured;
      }
      if failing == Some(SettingsUpdate) {
        return Fail(DbError);
      }
      settings := settings[userID := settings[userID].(currency := currency)];
      r := Pass;
    }

    /** `UpdateStartDate`: only a day from 1 to 31, checked before any statement. */
    method UpdateStartDate(userID: string, startDate: int, failing: Option<Stmt>)
      returns (r: Outcome<string>)
      modifies this
      ensures rules == old(rules) && rows == old(rows)
      ensures (startDate < 1 || startDate > 31) ==>
        r == Fail("invalid start date: " + Numbers.Decimal(startDate)) && settings == old(settings)
      ensures r.Pass? <==> 1 <= startDate <= 31 && userID != "" &&
                           failing != Some(SettingsInsert) && failing != Some(SettingsUpdate)
      ensures r.Pass? ==> settings == WithDefaults(old(settings), userID)[userID :=
                            WithDefaults(old(settings), userID)[userID].(startDate := startDate)]
      ensures r.Fail? ==> settings == old(settings) || settings == WithDefaults(old(settings), userID)
    {
      if startDate < 1 || startDate > 31 {
        return Fail("invalid start date: " + Numbers.Decimal(startDate));
      }
      var ensured := EnsureUserDefaults(userID, failing);
      if ensured.Fail? {
        return ensured;
      }
      if failing == Some(SettingsUpdate) {
        return Fail(DbError);
      }
      settings := settings[userID := settings[userID].(startDate := startDate)];
      r := Pass;
    }

    /** `GetExpense`: the row with this ID and owner, read back by `scanExpense`. */
    method GetExpense(userID: string, id: string, failing: Option<Stmt>) returns (r: Result<Expense, string>)
      ensures failing == Some(RowSelect) ==> r == Err("failed to get expense")
      ensures failing != Some(RowSelect) ==> (r.Ok? <==> HasExpense(rows, userID, id))
      ensures failing != Some(RowSelect) && r.Err? ==> r.error == "expense with ID " + id + " not found"
      ensures r.Ok? ==> exists row :: row in rows && row.userId == userID && row.id == id &&
                                      r.value == ScanExpense(row)
    {
      if failing == Some(RowSelect) {
        return Err("failed to get expense");
      }
      var found := FindFirst(rows, (row: ExpenseRow) => row.userId == userID && row.id == id);
      if found.None? {
        assert !HasExpense(rows, userID, id) by {
          forall i | 0 <= i < |rows| ensures !(rows[i].userId == userID && rows[i].id == id) {
            assert rows[i] in rows;
          }
        }
        return Err("expense with ID " + id + " not found");
      }
      var row := rows[found.value];
      r := Ok(ScanExpense(row));
    }

    /**
     * `AddExpense`: an owner is required; the ID, currency and date are
     * filled in when missing, and the row is inserted unless its ID is taken.
     */
    method AddExpense(userID: string, expense: Expense, newId: string, now: Instant, failing: Option<Stmt>)
      returns (r: Outcome<string>)
      requires Valid()
      modifies this
      ensures Valid()
      ensures rules == old(rules)
      ensures userID == "" ==> r == Fail("userID is required") && settings == old(settings)
      ensures settings == if userID != "" && expense.currency == "" && failing != Some(SettingsInsert)
                          then WithDefaults(old(settings), userID) else old(settings)
      ensures var stored := FillExpense(expense, userID, newId, CurrencyOf(old(settings), userID), now);
        (r.Pass? ==> rows == old(rows) + [ToRow(stored)]) &&
        (r.Fail? ==> rows == old(rows)) &&
        (failing == None ==> (r.Pass? <==> userID != "" && UniqueBy(old(rows) + [ToRow(stored)], RowId)))
    {
      if userID == "" {
        return Fail("userID is required");
      }
      var e := expense;
      if e.id == "" {
        e := e.(id := newId);
      }
      e := e.(userId := userID);
      if e.currency == "" {
        var currency := GetCurrency(userID, failing);
        if currency.Err? {
          return Fail(currency.error);
        }
        e := e.(currency := currency.value);
      }
      if IsZero(e.date) {
        e := e.(date := now);
      }
      if failing == Some(RowInsert) || !UniqueBy(rows + [ToRow(e)], RowId) {
        return Fail(DbError);
      }
      rows := rows + [ToRow(e)];
      r := Pass;
    }

    /**
     * `UpdateExpense`: sets the columns of the row with this ID and owner;
     * not found when no row matches.
     */
    method UpdateExpense(userID: string, id: string, expense: Expense, failing: Option<Stmt>)
      returns (r: Outcome<string>)
      requires Valid()
      modifies this
      ensures Valid()
      ensures rules == old(rules)
      ensures settings == if expense.currency == "" && userID != "" && failing != Some(SettingsInsert)
                          then WithDefaults(old(settings), userID) else old(settings)
      ensures var e := expense.(currency := if expense.currency == "" then CurrencyOf(old(settings), userID)
                                            else expense.currency);
        (r.Pass? ==> rows == UpdateRows(old(rows), userID, id, e)) &&
        (r.Fail? ==> rows == old(rows))
      ensures failing == None && (expense.currency != "" || userID != "") ==>
        (r.Pass? <==> HasExpense(old(rows), userID, id)) &&
        (r.Fail? ==> r == Fail("expense with ID " + id + " not found"))
    {
      var e := expense;
      if e.currency == "" {
        var currency := GetCurrency(userID, failing);
        if currency.Err? {
          return Fail(currency.error);
        }
        e := e.(currency := currency.value);
      }
      if failing == Some(RowUpdate) {
        return Fail("failed to update expense");
      }
      if !HasExpense(rows, userID, id) {
        assert UpdateRows(rows, userID, id, e) == rows;
        return Fail("expense with ID " + id + " not found");
      }
      rows := UpdateRows(rows, userID, id, e);
      r := Pass;
    }

    /** `RemoveExpense`: not found when no row matches. */
    method RemoveExpense(userID: string, id: string, failing: Option<Stmt>) returns (r: Outcome<string>)
      requires Valid()
      modifies this
      ensures Valid()
      ensures rules == old(rules) && settings == old(settings)
      ensures r.Pass? ==> rows == DeleteExpense(old(rows), userID, id)
      ensures r.Fail? ==> rows == old(rows)
      ensures failing == Some(RowDelete) ==> r == Fail("failed to delete expense")
      ensures failing != Some(RowDelete) ==>
        (r.Pass? <==> HasExpense(old(rows), userID, id)) &&
        (r.Fail? ==> r == Fail("expense with ID " + id + " not found"))
    {
      if failing == Some(RowDelete) {
        return Fail("failed to delete expense");
      }
      var remaining := DeleteExpense(rows, userID, id);
      FilterKeepsAll(rows, (row: ExpenseRow) => !(row.userId == userID && row.id == id));
      if |remaining| == |rows| {
        assert !HasExpense(rows, userID, id) by {
          forall i | 0 <= i < |rows| ensures !(rows[i].userId == userID && rows[i].id == id) {
            assert rows[i] in rows;
          }
        }
        return Fail("expense with ID " + id + " not found");
      }
      FilterUniqueBy(rows, (row: ExpenseRow) => !(row.userId == userID && row.id == id), RowId);
      rows := remaining;
      r := Pass;
    }

    /** `RemoveMultipleExpenses`: nothing to do for an empty list of IDs. */
    method RemoveMultipleExpenses(userID: string, ids: seq<string>, failing: Option<Stmt>)
      returns (r: Outcome<string>)
      requires Valid()
      modifies this
      ensures Valid()
      ensures rules == old(rules) && settings == old(settings)
      ensures |ids| == 0 ==> r == Pass && rows == old(rows)
      ensures |ids| > 0 ==> (r.Pass? <==> failing != Some(RowsDelete))
      ensures rows == if r.Pass? && |ids| > 0 then DeleteExpenses(old(rows), userID, ids) else old(rows)
    {
      if |ids| == 0 {
        return Pass;
      }
      if failing == Some(RowsDelete) {
        return Fail(DbError);
      }
      FilterUniqueBy(rows, (row: ExpenseRow) => !(row.userId == userID && row.id in ids), RowId);
      rows := DeleteExpenses(rows, userID, ids);
      r := Pass;
    }

    /**
     * The loop body of `AddMultipleExpenses` for the `index`-th expense: the
     * owner and a missing ID are filled in, and a missing currency is read
     * with `GetCurrency`, which fails without an owner.
     */
    method FillRow(userID: string, e: Expense, index: nat, freshId: nat -> string, failing: Option<Stmt>)
      returns (r: Result<Expense, string>)
      modifies this
      ensures rules == old(rules) && rows == old(rows)
      ensures settings == old(settings) || settings == WithDefaults(old(settings), userID)
      ensures CurrencyOf(settings, userID) == CurrencyOf(old(settings), userID)
      ensures r.Ok? ==> r.value == FillBatchEntry(e, index, userID, freshId, CurrencyOf(old(settings), userID))
      ensures r.Ok? && userID == "" ==> e.currency != ""
      ensures r.Err? ==> e.currency == "" && (userID == "" || failing.Some?)
    {
      var filled := e;
      if filled.id == "" {
        filled := filled.(id := freshId(index));
      }
      filled := filled.(userId := userID);
      if filled.currency == "" {
        var found := GetCurrency(userID, failing);
        if found.Err? {
          return Err(found.error);
        }
        filled := filled.(currency := found.value);
      }
      r := Ok(filled);
    }

    /**
     * `AddMultipleExpenses`: nothing to do for an empty batch; otherwise one
     * transaction copies every expense, each with its owner, an ID and a
     * currency filled in, and is rolled back as a whole on any failure.
     */
    method AddMultipleExpenses(userID: string, expenses: seq<Expense>, freshId: nat -> string,
                               failing: Option<Stmt>)
      returns (r: Outcome<string>)
      requires Valid()
      modifies this
      ensures Valid()
      ensures rules == old(rules)
      ensures settings == old(settings) || settings == WithDefaults(old(settings), userID)
      ensures |expenses| == 0 ==> r == Pass && rows == old(rows) && settings == old(settings)
      ensures var batch := Rows(FillBatch(expenses, userID, freshId, CurrencyOf(old(settings), userID)));
        (r.Pass? ==> rows == old(rows) + batch) &&
        (r.Fail? ==> rows == old(rows)) &&
        (failing == None && |expenses| > 0 ==>
          (r.Pass? <==> (userID != "" || AllPriced(expenses)) && UniqueBy(old(rows) + batch, RowId)))
    {
      if |expenses| == 0 {
        return Pass;
      }
      if failing == Some(Begin) {
        return Fail("failed to begin transaction");
      }
      if failing == Some(CopyPrepare) {
        return Fail("failed to prepare bulk insert");
      }
      ghost var currency := CurrencyOf(settings, userID);
      ghost var filled: seq<Expense> := [];
      var batch: seq<ExpenseRow> := [];
      var i := 0;
      while i < |expenses|
        invariant 0 <= i <= |expenses|
        invariant rules == old(rules) && rows == old(rows)
        invariant settings == old(settings) || settings == WithDefaults(old(settings), userID)
        invariant CurrencyOf(settings, userID) == currency
        invariant filled == FillBatch(expenses[..i], userID, freshId, currency)
        invariant batch == Rows(filled)
        invariant userID == "" ==> AllPriced(expenses[..i])
      {
        var e := FillRow(userID, expenses[i], i, freshId, failing);
        if e.Err? {
          assert failing == None ==> !AllPriced(expenses) by {
            assert expenses[i].currency == "";
          }
          return Fail(e.error);
        }
        if failing == Some(CopyRow) {
          return Fail("failed to insert expense");
        }
        FillBatchStep(expenses, i, userID, freshId, currency);
        RowsAppend(filled, e.value);
        assert expenses[..i + 1] == expenses[..i] + [expenses[i]];
        filled := filled + [e.value];
        batch := batch + [ToRow(e.value)];
        i := i + 1;
      }
      assert expenses[..i] == expenses;
      if failing == Some(CopyFlush) || !UniqueBy(rows + batch, RowId) {
        return Fail("failed to finalize bulk insert");
      }
      if failing == Some(Commit) {
        return Fail(DbError);
      }
      rows := rows + batch;
      r := Pass;
    }

    /**
     * The currency step shared by `AddRecurringExpense` and
     * `UpdateRecurringExpense`: a rule without a currency gets the user's,
     * read with `GetCurrency`.
     */
    method FillRuleCurrency(userID: string, stored: RecurringExpense, failing: Option<Stmt>)
      returns (r: Result<RecurringExpense, string>)
      modifies this
      ensures rules == old(rules) && rows == old(rows)
      ensures settings == if stored.currency == "" && userID != "" && failing != Some(SettingsInsert)
                          then WithDefaults(old(settings), userID) else old(settings)
      ensures r.Ok? ==> r.value == stored.(currency := if stored.currency == "" then CurrencyOf(old(settings), userID)
                                                       else stored.currency)
      ensures r.Ok? <==> stored.currency != "" ||
                         (userID != "" && failing != Some(SettingsInsert) && failing != Some(SettingsSelect))
    {
      if stored.currency == "" {
        var currency := GetCurrency(userID, failing);
        if currency.Err? {
          return Err(currency.error);
        }
        return Ok(stored.(currency := currency.value));
      }
      r := Ok(stored);
    }

    /**
     * `AddRecurringExpense`: an owner is required before the transaction
     * begins; the rule is inserted with its ID, owner and currency filled in,
     * and with it every entry generated from its start date.
     */
    method AddRecurringExpense(userID: string, rule: RecurringExpense, newId: string, now: Instant,
                               freshId: nat -> string, failing: Option<Stmt>)
      returns (r: Outcome<string>)
      requires Valid()
      modifies this
      ensures Valid()
      ensures userID == "" ==> r == Fail("userID is required") && settings == old(settings)
      ensures settings == if userID != "" && failing != Some(Begin) && rule.currency == "" &&
                             failing != Some(SettingsInsert)
                          then WithDefaults(old(settings), userID) else old(settings)
      ensures r.Fail? ==> rules == old(rules) && rows == old(rows)
      ensures var stored := FillRule(rule, if rule.id == "" then newId else rule.id, userID,
                                     CurrencyOf(old(settings), userID));
        var added := Rows(Materialize(userID, stored, false, now, freshId));
        (r.Pass? ==> rules == old(rules) + [stored] && rows == old(rows) + added) &&
        (failing == None ==>
          (r.Pass? <==> userID != "" && UniqueBy(old(rules) + [stored], RuleId) &&
                        UniqueBy(old(rows) + added, RowId)))
    {
      if userID == "" {
        return Fail("userID is required");
      }
      if failing == Some(Begin) {
        return Fail("failed to begin transaction");
      }
      var txRules, txRows := rules, rows;
      var stored := rule;
      if stored.id == "" {
        stored := stored.(id := newId);
      }
      stored := stored.(userId := userID);
      var filled := FillRuleCurrency(userID, stored, failing);
      if filled.Err? {
        return Fail(filled.error);
      }
      stored := filled.value;
      if failing == Some(RuleInsert) || !UniqueBy(txRules + [stored], RuleId) {
        return Fail("failed to insert recurring expense");
      }
      txRules := txRules + [stored];
      var inserted := InsertGenerated(txRows, userID, stored, false, now, freshId, failing);
      if inserted.Err? {
        return Fail(inserted.error);
      }
      txRows := inserted.value;
      if failing == Some(Commit) {
        return Fail(DbError);
      }
      rules, rows := txRules, txRows;
      r := Pass;
    }

    /**
     * `UpdateRecurringExpense`: rewrites rule `id` of `userID` (not found when
     * there is none), deletes its entries (all of them, or those dated after
     * `deleteNow`), and generates entries for the new rule from its start date
     * or from `generateNow`. The source reads the clock twice, once for the
     * deletion and once for the generation: `deleteNow` and `generateNow`.
     */
    method UpdateRecurringExpense(userID: string, id: string, rule: RecurringExpense, updateAll: bool,
                                  deleteNow: Instant, generateNow: Instant, freshId: nat -> string,
                                  failing: Option<Stmt>)
      returns (r: Outcome<string>)
      requires Valid()
      modifies this
      ensures Valid()
      ensures settings == if failing != Some(Begin) && rule.currency == "" && userID != "" &&
                             failing != Some(SettingsInsert)
                          then WithDefaults(old(settings), userID) else old(settings)
      ensures r.Fail? ==> rules == old(rules) && rows == old(rows)
      ensures var stored := FillRule(rule, id, userID, CurrencyOf(old(settings), userID));
        var kept := DeleteRuleRows(old(rows), userID, id, if updateAll then None else Some(deleteNow));
        var added := Rows(Materialize(userID, stored, !updateAll, generateNow, freshId));
        (r.Pass? ==> rules == ReplaceRule(old(rules), userID, stored) && rows == kept + added) &&
        (failing == None && (rule.currency != "" || userID != "") ==>
          (r.Pass? <==> HasRule(old(rules), userID, id) && UniqueBy(kept + added, RowId)) &&
          (!HasRule(old(rules), userID, id) ==> r == Fail("recurring expense with ID " + id + " not found")))
    {
      if failing == Some(Begin) {
        return Fail("failed to begin transaction");
      }
      var txRules, txRows := rules, rows;
      var filled := FillRuleCurrency(userID, rule.(id := id, userId := userID), failing);
      if filled.Err? {
        return Fail(filled.error);
      }
      var stored := filled.value;
      if failing == Some(RuleUpdate) {
        return Fail("failed to update recurring expense");
      }
      if !HasRule(txRules, userID, id) {
        return Fail("recurring expense with ID " + id + " not found");
      }
      ReplaceRuleUnique(txRules, userID, stored);
      txRules := ReplaceRule(txRules, userID, stored);
      if failing == Some(RowsDelete) {
        return Fail(if updateAll then "failed to delete existing expenses" else "failed to delete future expenses");
      }
      var cutoff := if updateAll then None else Some(deleteNow);
      var regenerated := RegenerateRuleRows(txRows, userID, stored, cutoff, !updateAll, generateNow, freshId, failing);
      if regenerated.Err? {
        return Fail(regenerated.error);
      }
      txRows := regenerated.value;
      if failing == Some(Commit) {
        return Fail(DbError);
      }
      rules, rows := txRules, txRows;
      r := Pass;
    }

    /**
     * `RemoveRecurringExpense`: deletes rule `id` of `userID` (not found when
     * there is none) and its entries: all of them, or only those dated after
     * `now`, leaving the past ones pointing at the deleted rule.
     */
    method RemoveRecurringExpense(userID: string, id: string, removeAll: bool, now: Instant,
                                  failing: Option<Stmt>)
      returns (r: Outcome<string>)
      requires Valid()
      modifies this
      ensures Valid()
      ensures settings == old(settings)
      ensures r.Fail? ==> rules == old(rules) && rows == old(rows)
      ensures r.Pass? ==> rules == DeleteRule(old(rules), userID, id) &&
                          rows == DeleteRuleRows(old(rows), userID, id, if removeAll then None else Some(now))
      ensures failing == None ==>
        (r.Pass? <==> HasRule(old(rules), userID, id)) &&
        (r.Fail? ==> r == Fail("recurring expense with ID " + id + " not found"))
    {
      if failing == Some(Begin) {
        return Fail("failed to begin transaction");
      }
      var txRules, txRows := rules, rows;
      if failing == Some(RuleDelete) {
        return Fail("failed to delete recurring expense");
      }
      var remaining := DeleteRule(txRules, userID, id);
      FilterKeepsAll(txRules, (rule: RecurringExpense) => !(rule.id == id && rule.userId == userID));
      if |remaining| == |txRules| {
        assert !HasRule(txRules, userID, id) by {
          forall i | 0 <= i < |txRules| ensures !(txRules[i].userId == userID && txRules[i].id == id) {
            assert txRules[i] in txRules;
          }
        }
        return Fail("recurring expense with ID " + id + " not found");
      }
      FilterUniqueBy(txRules, (rule: RecurringExpense) => !(rule.id == id && rule.userId == userID), RuleId);
      txRules := remaining;
      if failing == Some(RowsDelete) {
        return Fail(if removeAll then "failed to delete related expenses" else "failed to delete future expenses");
      }
      var cutoff := if removeAll then None else Some(now);
      FilterUniqueBy(txRows, (row: ExpenseRow) => !RuleRowDeleted(row, userID, id, cutoff), RowId);
      txRows := DeleteRuleRows(txRows, userID, id, cutoff);
      if failing == Some(Commit) {
        return Fail(DbError);
      }
      rules, rows := txRules, txRows;
      r := Pass;
    }
  }

  /** The rows that are not entries of rule `ruleId` of `userID`. */
  function NotOwnedBy(userID: string, ruleId: string): ExpenseRow -> bool {
    (row: ExpenseRow) => !(row.userId == userID && row.recurringId == Some(ruleId))
  }

  /**
   * Deleting a rule's entries, all or only future ones, leaves the rows of
   * every other rule and user exactly as they were, in the same order.
   */
  lemma DeleteRuleRowsLeavesOthers(rows: seq<ExpenseRow>, userID: string, ruleId: string, cutoff: Option<Instant>)
    ensures Filter(DeleteRuleRows(rows, userID, ruleId, cutoff), NotOwnedBy(userID, ruleId))
         == Filter(rows, NotOwnedBy(userID, ruleId))
  {
    FilterOfFilter(rows, (row: ExpenseRow) => !RuleRowDeleted(row, userID, ruleId, cutoff),
                   NotOwnedBy(userID, ruleId));
  }

  /**
   * A future-only deletion at `now` removes exactly the rule's entries dated
   * after `now`: entries dated at or before `now` stay, whatever they say.
   */
  lemma FutureOnlyDeletesAfterNow(rows: seq<ExpenseRow>, userID: string, ruleId: string, now: Instant)
    ensures forall row :: row in DeleteRuleRows(rows, userID, ruleId, Some(now)) <==>
      row in rows && !(row.userId == userID && row.recurringId == Some(ruleId) && Before(now, row.date))
    ensures forall row :: row in rows && NotAfter(row.date, now) ==> row in DeleteRuleRows(rows, userID, ruleId, Some(now))
  {
  }

  /**
   * After an update, future-only or not, the rows of every other rule and user
   * are exactly as they were: the regenerated entries all belong to the
   * updated rule.
   */
  lemma UpdateLeavesOthers(rows: seq<ExpenseRow>, userID: string, stored: RecurringExpense, fromToday: bool,
                           cutoff: Option<Instant>, now: Instant, freshId: nat -> string)
    requires stored.id != ""
    ensures Filter(DeleteRuleRows(rows, userID, stored.id, cutoff) +
                   Rows(Materialize(userID, stored, fromToday, now, freshId)), NotOwnedBy(userID, stored.id))
         == Filter(rows, NotOwnedBy(userID, stored.id))
  {
    var kept := DeleteRuleRows(rows, userID, stored.id, cutoff);
    var generated := Materialize(userID, stored, fromToday, now, freshId);
    var added := Rows(generated);
    MaterializeCopiesRule(userID, stored, fromToday, now, freshId);
    FilterAppend(kept, added, NotOwnedBy(userID, stored.id));
    forall x | x in added
      ensures !NotOwnedBy(userID, stored.id)(x)
    {
      var k :| 0 <= k < |added| && added[k] == x;
      assert CopiesRule(generated[k], userID, stored);
    }
    FilterNone(added, NotOwnedBy(userID, stored.id));
    DeleteRuleRowsLeavesOthers(rows, userID, stored.id, cutoff);
  }

  /**
   * With a single clock reading, a future-only update duplicates the entry
   * dated exactly `now`: the deletion keeps it (its date is not after `now`)
   * and the regeneration starts at it (it is not before `now`).
   */
  lemma SameInstantDuplicates(rows: seq<ExpenseRow>, userID: string, rule: RecurringExpense, now: Instant,
                              freshId: nat -> string, interval: Interval, k: nat, row: ExpenseRow)
    requires ParseInterval(rule.interval) == Some(interval) && k < rule.occurrences && rule.id != ""
    requires ScheduleDate(rule.startDate, interval, k) == now
    requires row in rows && row.userId == userID && row.recurringId == Some(rule.id) && row.date == now
    ensures row in DeleteRuleRows(rows, userID, rule.id, Some(now))
    ensures var added := Materialize(userID, rule, true, now, freshId);
      |added| > 0 && added[0].date == now && ToRow(added[0]).recurringId == row.recurringId
  {
    var n := rule.occurrences;
    var start := rule.startDate;
    forall j | 0 <= j < n
      ensures Before(ScheduleDate(start, interval, j), now) <==> j < k
    {
      if j < k {
        ScheduleIncreasing(start, interval, j, k);
      } else if k < j {
        ScheduleIncreasing(start, interval, k, j);
      }
    }
    ElapsedCountOfPrefix(start, interval, now, n, k);
    MaterializeFromTodayBounded(userID, rule, now, freshId, interval);
    MaterializeCopiesRule(userID, rule, true, now, freshId);
  }

  /**
   * With two clock readings, `deleteNow` strictly before `generateNow`, every
   * entry of the rule that a future-only update keeps is dated strictly
   * before every entry it regenerates, so none is duplicated.
   */
  lemma TwoClocksNoOverlap(rows: seq<ExpenseRow>, userID: string, rule: RecurringExpense,
                           deleteNow: Instant, generateNow: Instant, freshId: nat -> string, interval: Interval)
    requires ParseInterval(rule.interval) == Some(interval) && rule.occurrences >= 0
    requires Before(deleteNow, generateNow)
    ensures var added := Materialize(userID, rule, true, generateNow, freshId);
      forall row, k :: row in DeleteRuleRows(rows, userID, rule.id, Some(deleteNow)) &&
                        row.userId == userID && row.recurringId == Some(rule.id) && 0 <= k < |added| ==>
        Before(row.date, added[k].date)
  {
    if rule.occurrences > 0 {
      MaterializeFromTodayBounded(userID, rule, generateNow, freshId, interval);
    } else {
      MaterializeFromTodayOpenEnded(userID, rule, generateNow, freshId, interval);
    }
  }

  /** Deleting from three rows when only the last one matches keeps the first two. */
  lemma DeleteLastOfThree(rows: seq<ExpenseRow>, userID: string, ruleId: string, cutoff: Option<Instant>)
    requires |rows| == 3
    requires !RuleRowDeleted(rows[0], userID, ruleId, cutoff) && !RuleRowDeleted(rows[1], userID, ruleId, cutoff)
    requires RuleRowDeleted(rows[2], userID, ruleId, cutoff)
    ensures DeleteRuleRows(rows, userID, ruleId, cutoff) == [rows[0], rows[1]]
  {
    var keep := (row: ExpenseRow) => !RuleRowDeleted(row, userID, ruleId, cutoff);
    assert rows == [rows[0], rows[1]] + [rows[2]];
    FilterAppend([rows[0], rows[1]], [rows[2]], keep);
    FilterAppend([rows[0]], [rows[1]], keep);
    assert [rows[0], rows[1]] == [rows[0]] + [rows[1]];
  }

  /** A future-only deletion of the rent rule at 2024-02-15 keeps its January and February rows. */
  lemma RentRowsDeleted(userID: string, createIds: nat -> string)
    ensures var now := DateTime(2024, 2, 15, 0);
      var created := Rows(Materialize(userID, RentRule(userID, 1200.0), false, now, createIds));
      |created| == 3 && created[0].amount == 1200.0 && created[1].amount == 1200.0 &&
      DeleteRuleRows(created, userID, "r1", Some(now)) == [created[0], created[1]]
  {
    var old_ := RentRule(userID, 1200.0);
    var now := DateTime(2024, 2, 15, 0);
    RentExample(userID, 1200.0, createIds);
    var created := Rows(Materialize(userID, old_, false, now, createIds));
    MaterializeCopiesRule(userID, old_, false, now, createIds);
    DeleteLastOfThree(created, userID, "r1", Some(now));
  }

  /**
   * Worked example: the monthly rent from 2024-01-01 with three occurrences,
   * created at 1200 and then updated to 1300 for the future only at
   * 2024-02-15. The January and February entries stay at 1200, the old March
   * entry is deleted, and one March entry at 1300 is generated.
   */
  lemma RentUpdateExample(userID: string, createIds: nat -> string, updateIds: nat -> string)
    ensures var old_ := RentRule(userID, 1200.0);
      var new_ := RentRule(userID, 1300.0);
      var now := DateTime(2024, 2, 15, 0);
      var created := Rows(Materialize(userID, old_, false, now, createIds));
      var updated := DeleteRuleRows(created, userID, "r1", Some(now)) +
                     Rows(Materialize(userID, new_, true, now, updateIds));
      |created| == 3 &&
      updated == [created[0], created[1], ToRow(MakeEntry(userID, new_, DateTime(2024, 3, 1, 0), updateIds(0)))] &&
      updated[0].amount == 1200.0 && updated[1].amount == 1200.0 && updated[2].amount == 1300.0
  {
    RentRowsDeleted(userID, createIds);
    RentExample(userID, 1300.0, updateIds);
  }

  /**
   * After a future-only removal the rule is gone, while its entries dated at
   * or before `now` stay and still name it.
   */
  lemma RemoveLeavesDanglingHistory(rules: seq<RecurringExpense>, rows: seq<ExpenseRow>, userID: string,
                                    id: string, now: Instant, row: ExpenseRow)
    requires row in rows && row.userId == userID && row.recurringId == Some(id) && NotAfter(row.date, now)
    ensures !HasRule(DeleteRule(rules, userID, id), userID, id)
    ensures row in DeleteRuleRows(rows, userID, id, Some(now))
  {
    var remaining := DeleteRule(rules, userID, id);
    forall i | 0 <= i < |remaining|
      ensures !(remaining[i].userId == userID && remaining[i].id == id)
    {
      assert remaining[i] in remaining;
    }
  }
}
