/**
 * The two rows the recurring-expense engine works on, built from the columns
 * of the `expenses` and `recurring_expenses` tables and the fields the store
 * scans into them.
 */
module Records {
  import opened Wrappers
  import opened CivilTime

  /** A monetary amount; the model only copies it. */
  type Amount = real

  /** An expense as the Go code handles it (`Expense`). `recurringId` is "" for a one-off expense. */
  datatype Expense = Expense(
    id: string,
    userId: string,
    recurringId: string,
    name: string,
    category: string,
    amount: Amount,
    currency: string,
    date: Instant,
    tags: seq<string>)

  /** A recurring rule (`RecurringExpense`), one row of `recurring_expenses`. */
  datatype RecurringExpense = RecurringExpense(
    id: string,
    userId: string,
    name: string,
    amount: Amount,
    currency: string,
    category: string,
    startDate: Instant,
    interval: string,
    occurrences: int,
    tags: seq<string>)

  /** One row of the `expenses` table: `recurring_id` is a nullable column. */
  datatype ExpenseRow = ExpenseRow(
    id: string,
    userId: string,
    recurringId: Option<string>,
    name: string,
    category: string,
    amount: Amount,
    currency: string,
    date: Instant,
    tags: seq<string>)

  /** `nullString`: the empty string is written as NULL, any other string as itself. */
  function NullString(s: string): (r: Option<string>)
    ensures r == None <==> s == ""
    ensures r.Some? ==> r.value == s
  {
    if s == "" then None else Some(s)
  }

  /** The row an INSERT or a bulk COPY of `e` writes. */
  function ToRow(e: Expense): ExpenseRow {
    ExpenseRow(e.id, e.userId, NullString(e.recurringId), e.name, e.category,
               e.amount, e.currency, e.date, e.tags)
  }

  /** `scanExpense`: a NULL `recurring_id` reads back as "". */
  function ScanExpense(row: ExpenseRow): (e: Expense)
    ensures row.recurringId == None ==> e.recurringId == ""
    ensures row.recurringId.Some? ==> e.recurringId == row.recurringId.value
  {
    Expense(row.id, row.userId, if row.recurringId.Some? then row.recurringId.value else "",
            row.name, row.category, row.amount, row.currency, row.date, row.tags)
  }

  /** Writing an expense and reading it back gives the same expense. */
  lemma ScanAfterWrite(e: Expense)
    ensures ScanExpense(ToRow(e)) == e
  {
  }

  /**
   * Reading a row and writing it back gives the same row, except for a stored
   * empty `recurring_id`, which is rewritten as NULL.
   */
  lemma WriteAfterScan(row: ExpenseRow)
    ensures row.recurringId != Some("") ==> ToRow(ScanExpense(row)) == row
    ensures row.recurringId == Some("") ==> ToRow(ScanExpense(row)) == row.(recurringId := None)
  {
  }
}
