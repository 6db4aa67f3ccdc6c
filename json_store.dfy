/**
 * The file-backed store (`jsonStore`): `expenses.json` holds the list of
 * expenses and `config.json` the configuration document, whose
 * `recurringExpenses` list holds the recurring rules. Every operation reads
 * the whole file, changes the list or one field, and writes it back; the
 * two files are the two fields of `Store`.
 *
 * File-system failures are a parameter: `fault` says whether reading or
 * writing the file fails. `WriteFails` stands for a write that fails
 * before the file is opened, which leaves the file as it was.
 * Unlike the database store, this one generates no entries for a recurring
 * rule and knows no users.
 */
module JsonStore {
  import opened Wrappers
  import opened CivilTime
  import opened Records
  import opened StorageConfig
  import opened Relations
  import opened Numbers

  /** How an operation that changes a file ends; a Go panic is a distinct outcome. */
  datatype Status = Done | Failed(message: string) | Panicked(message: string)

  datatype FileFault = ReadFails | WriteFails

  /** The text of a failed write, which the store passes on unwrapped. */
  const IoError: string := "file system error"
  const ReadConfigError: string := "failed to read config file"
  const ReadStorageError: string := "failed to read storage file"

  /** What a new `config.json` holds: `SetBaseConfig` applied to an empty `Config`. */
  const InitialConfig: Config := SetBaseConfig(Config([], "", 0, [], [], []))

  function ExpenseHasId(id: string): Expense -> bool {
    (e: Expense) => e.id == id
  }

  function ExpenseLacksId(id: string): Expense -> bool {
    (e: Expense) => e.id != id
  }

  function RuleHasId(id: string): RecurringExpense -> bool {
    (rule: RecurringExpense) => rule.id == id
  }

  function RuleLacksId(id: string): RecurringExpense -> bool {
    (rule: RecurringExpense) => rule.id != id
  }

  function NotFound(kind: string, id: string): string {
    kind + " with ID " + id + " not found"
  }

  /** `AddExpense`'s defaults: a fresh ID when it has none, the current time when its date is zero. */
  function FillExpense(e: Expense, newId: string, now: Instant): (r: Expense)
    ensures r.id == if e.id == "" then newId else e.id
    ensures r.date == if IsZero(e.date) then now else e.date
    ensures r.(id := e.id, date := e.date) == e
  {
    e.(id := if e.id == "" then newId else e.id, date := if IsZero(e.date) then now else e.date)
  }

  /** Some of the first `n` expenses has ID `id`. */
  predicate HasIdBefore(expenses: seq<Expense>, id: string, n: int) {
    exists j :: 0 <= j < n && j < |expenses| && expenses[j].id == id
  }

  /** Looking at one more expense finds `id` when that expense has it. */
  lemma HasIdStep(expenses: seq<Expense>, id: string, n: nat)
    requires n < |expenses|
    ensures HasIdBefore(expenses, id, n + 1) <==> HasIdBefore(expenses, id, n) || expenses[n].id == id
  {
    if HasIdBefore(expenses, id, n + 1) && expenses[n].id != id {
      var j :| 0 <= j < n + 1 && j < |expenses| && expenses[j].id == id;
      assert j < n;
    }
  }

  /**
   * The loop of `RemoveExpense`: keeps every expense whose ID differs, in
   * order, and notes whether any matched.
   */
  method KeepOthers(expenses: seq<Expense>, id: string) returns (kept: seq<Expense>, found: bool)
    ensures kept == Filter(expenses, ExpenseLacksId(id))
    ensures found <==> exists j :: 0 <= j < |expenses| && expenses[j].id == id
  {
    kept, found := [], false;
    for i := 0 to |expenses|
      invariant kept == Filter(expenses[..i], ExpenseLacksId(id))
      invariant found <==> HasIdBefore(expenses, id, i)
    {
      FilterPrefixStep(expenses, i, ExpenseLacksId(id));
      HasIdStep(expenses, id, i);
      if expenses[i].id != id {
        kept := kept + [expenses[i]];
      } else {
        found := true;
      }
    }
    assert expenses[..|expenses|] == expenses;
  }

  /** Removing by ID leaves no expense with that ID, so a lookup of it finds nothing. */
  lemma RemovedNotFound(expenses: seq<Expense>, id: string)
    ensures FindFirst(Filter(expenses, ExpenseLacksId(id)), ExpenseHasId(id)) == None
    ensures forall e :: e in expenses && e.id != id ==> e in Filter(expenses, ExpenseLacksId(id))
  {
  }

  /** Removing by ID shortens the list exactly when some expense has that ID. */
  lemma RemoveShrinks(expenses: seq<Expense>, id: string)
    ensures |Filter(expenses, ExpenseLacksId(id))| < |expenses| <==>
            exists j :: 0 <= j < |expenses| && expenses[j].id == id
  {
    FilterKeepsAll(expenses, ExpenseLacksId(id));
    if exists j :: 0 <= j < |expenses| && expenses[j].id == id {
      var j :| 0 <= j < |expenses| && expenses[j].id == id;
      assert expenses[j] in expenses && !ExpenseLacksId(id)(expenses[j]);
    }
  }

  /**
   * Replacing the first expense with a given ID by one that keeps the ID:
   * a lookup now finds the replacement at the same place, and every other
   * position is unchanged.
   */
  lemma ReplaceFirstThenFind(expenses: seq<Expense>, id: string, e: Expense, k: nat)
    requires FindFirst(expenses, ExpenseHasId(id)) == Some(k)
    requires e.id == id
    ensures FindFirst(expenses[k := e], ExpenseHasId(id)) == Some(k)
    ensures |expenses[k := e]| == |expenses|
    ensures forall j :: 0 <= j < |expenses| && j != k ==> expenses[k := e][j] == expenses[j]
  {
    var updated := expenses[k := e];
    var found := FindFirst(updated, ExpenseHasId(id));
    assert ExpenseHasId(id)(updated[k]);
    assert found.Some? by {
      assert updated[k] in updated;
    }
  }

  class Store {
    /** The contents of `config.json`. */
    var config: Config
    /** The `expenses` list of `expenses.json`. */
    var expenses: seq<Expense>

    /** `InitializeJsonStore` when neither file exists yet. */
    constructor ()
      ensures config == InitialConfig && expenses == []
      ensures config.currency in SupportedCurrencies && config.startDate == 1
    {
      config := InitialConfig;
      expenses := [];
    }

    /** `writeConfigFile`: a write that fails before the file is opened leaves it as it was. */
    method WriteConfig(data: Config, fault: Option<FileFault>) returns (r: Status)
      modifies this
      ensures expenses == old(expenses)
      ensures fault == Some(WriteFails) ==> r == Failed(IoError) && config == old(config)
      ensures fault != Some(WriteFails) ==> r == Done && config == data
    {
      if fault == Some(WriteFails) {
        return Failed(IoError);
      }
      config := data;
      r := Done;
    }

    /** `writeExpensesFile`: a write that fails before the file is opened leaves it as it was. */
    method WriteExpenses(data: seq<Expense>, fault: Option<FileFault>) returns (r: Status)
      modifies this
      ensures config == old(config)
      ensures fault == Some(WriteFails) ==> r == Failed(IoError) && expenses == old(expenses)
      ensures fault != Some(WriteFails) ==> r == Done && expenses == data
    {
      if fault == Some(WriteFails) {
        return Failed(IoError);
      }
      expenses := data;
      r := Done;
    }

    /** `UpdateCategories`: replaces the category list and nothing else. */
    method UpdateCategories(categories: seq<string>, fault: Option<FileFault>) returns (r: Status)
      modifies this
      ensures expenses == old(expenses)
      ensures fault == Some(ReadFails) ==> r == Failed(ReadConfigError)
      ensures fault == Some(WriteFails) ==> r == Failed(IoError)
      ensures fault == None ==> r == Done
      ensures config == if r == Done then old(config).(categories := categories) else old(config)
    {
      if fault == Some(ReadFails) {
        return Failed(ReadConfigError);
      }
      var data := config.(categories := categories);
      r := WriteConfig(data, fault);
    }

    /** `UpdateCurrency`: a currency outside the supported list is rejected before the file is read. */
    method UpdateCurrency(currency: string, fault: Option<FileFault>) returns (r: Status)
      modifies this
      ensures expenses == old(expenses)
      ensures currency !in SupportedCurrencies ==> r == Failed("invalid currency: " + currency)
      ensures currency in SupportedCurrencies && fault == Some(ReadFails) ==> r == Failed(ReadConfigError)
      ensures currency in SupportedCurrencies && fault == Some(WriteFails) ==> r == Failed(IoError)
      ensures currency in SupportedCurrencies && fault == None ==> r == Done
      ensures config == if r == Done then old(config).(currency := currency) else old(config)
    {
      if currency !in SupportedCurrencies {
        return Failed("invalid currency: " + currency);
      }
      if fault == Some(ReadFails) {
        return Failed(ReadConfigError);
      }
      var data := config.(currency := currency);
      r := WriteConfig(data, fault);
    }

    /** `UpdateStartDate`: a day from 0 to 31 (the database store's lower bound is 1). */
    method UpdateStartDate(startDate: int, fault: Option<FileFault>) returns (r: Status)
      modifies this
      ensures expenses == old(expenses)
      ensures (startDate < 0 || startDate > 31) ==> r == Failed("invalid start date: " + Decimal(startDate))
      ensures 0 <= startDate <= 31 && fault == Some(ReadFails) ==> r == Failed(ReadConfigError)
      ensures 0 <= startDate <= 31 && fault == Some(WriteFails) ==> r == Failed(IoError)
      ensures 0 <= startDate <= 31 && fault == None ==> r == Done
      ensures config == if r == Done then old(config).(startDate := startDate) else old(config)
    {
      if startDate < 0 || startDate > 31 {
        return Failed("invalid start date: " + Decimal(startDate));
      }
      if fault == Some(ReadFails) {
        return Failed(ReadConfigError);
      }
      var data := config.(startDate := startDate);
      r := WriteConfig(data, fault);
    }

    /** `UpdateTags`: replaces the tag list and nothing else. */
    method UpdateTags(tags: seq<string>, fault: Option<FileFault>) returns (r: Status)
      modifies this
      ensures expenses == old(expenses)
      ensures fault == Some(ReadFails) ==> r == Failed(ReadConfigError)
      ensures fault == Some(WriteFails) ==> r == Failed(IoError)
      ensures fault == None ==> r == Done
      ensures config == if r == Done then old(config).(tags := tags) else old(config)
    {
      if fault == Some(ReadFails) {
        return Failed(ReadConfigError);
      }
      var data := config.(tags := tags);
      r := WriteConfig(data, fault);
    }

    /** `UpdateDefaultTags`: replaces the default tag list and nothing else. */
    method UpdateDefaultTags(tags: seq<string>, fault: Option<FileFault>) returns (r: Status)
      modifies this
      ensures expenses == old(expenses)
      ensures fault == Some(ReadFails) ==> r == Failed(ReadConfigError)
      ensures fault == Some(WriteFails) ==> r == Failed(IoError)
      ensures fault == None ==> r == Done
      ensures config == if r == Done then old(config).(defaultTags := tags) else old(config)
    {
      if fault == Some(ReadFails) {
        return Failed(ReadConfigError);
      }
      var data := config.(defaultTags := tags);
      r := WriteConfig(data, fault);
    }

    /** `GetRecurringExpense`: the first rule with this ID. */
    method GetRecurringExpense(id: string, fault: Option<FileFault>) returns (r: Result<RecurringExpense, string>)
      ensures fault == Some(ReadFails) ==> r == Err(ReadConfigError)
      ensures fault != Some(ReadFails) ==>
        var rules := config.recurringExpenses;
        match FindFirst(rules, RuleHasId(id))
        case Some(k) => r == Ok(rules[k])
        case None => r == Err(NotFound("recurring expense", id))
    {
      if fault == Some(ReadFails) {
        return Err(ReadConfigError);
      }
      var rules := config.recurringExpenses;
      for i := 0 to |rules|
        invariant forall j :: 0 <= j < i ==> rules[j].id != id
      {
        if rules[i].id == id {
          assert RuleHasId(id)(rules[i]);
          return Ok(rules[i]);
        }
      }
      assert forall x :: x in rules ==> !RuleHasId(id)(x);
      r := Err(NotFound("recurring expense", id));
    }

    /** `AddRecurringExpense`: appends the rule, with a fresh ID when it has none; no entries are generated. */
    method AddRecurringExpense(rule: RecurringExpense, newId: string, fault: Option<FileFault>) returns (r: Status)
      modifies this
      ensures expenses == old(expenses)
      ensures fault == Some(ReadFails) ==> r == Failed(ReadConfigError)
      ensures fault == Some(WriteFails) ==> r == Failed(IoError)
      ensures fault == None ==> r == Done
      ensures config == if r == Done then
        old(config).(recurringExpenses := old(config).recurringExpenses +
                       [rule.(id := if rule.id == "" then newId else rule.id)])
        else old(config)
    {
      if fault == Some(ReadFails) {
        return Failed(ReadConfigError);
      }
      var stored := rule;
      if stored.id == "" {
        stored := stored.(id := newId);
      }
      var data := config.(recurringExpenses := config.recurringExpenses + [stored]);
      r := WriteConfig(data, fault);
    }

    /**
     * `RemoveRecurringExpense`: drops every rule with this ID and succeeds
     * whether or not there was one; the expenses are left alone.
     */
    method RemoveRecurringExpense(id: string, fault: Option<FileFault>) returns (r: Status)
      modifies this
      ensures expenses == old(expenses)
      ensures fault == Some(ReadFails) ==> r == Failed(ReadConfigError)
      ensures fault == Some(WriteFails) ==> r == Failed(IoError)
      ensures fault == None ==> r == Done
      ensures config == if r == Done then
        old(config).(recurringExpenses := Filter(old(config).recurringExpenses, RuleLacksId(id)))
        else old(config)
      ensures forall rule :: rule in config.recurringExpenses && r == Done ==> rule.id != id
    {
      if fault == Some(ReadFails) {
        return Failed(ReadConfigError);
      }
      var data := config.(recurringExpenses := Filter(config.recurringExpenses, RuleLacksId(id)));
      r := WriteConfig(data, fault);
    }

    /**
     * `UpdateRecurringExpense`: replaces the first rule with this ID; when
     * none has it, reports not found and writes nothing.
     */
    method UpdateRecurringExpense(id: string, rule: RecurringExpense, fault: Option<FileFault>) returns (r: Status)
      modifies this
      ensures expenses == old(expenses)
      ensures fault == Some(ReadFails) ==> r == Failed(ReadConfigError) && config == old(config)
      ensures fault != Some(ReadFails) ==>
        var rules := old(config).recurringExpenses;
        match FindFirst(rules, RuleHasId(id))
        case Some(k) =>
          (fault == None ==> r == Done) &&
          (fault == Some(WriteFails) ==> r == Failed(IoError)) &&
          config == if r == Done then old(config).(recurringExpenses := rules[k := rule]) else old(config)
        case None => r == Failed(NotFound("recurring expense", id)) && config == old(config)
    {
      if fault == Some(ReadFails) {
        return Failed(ReadConfigError);
      }
      var rules := config.recurringExpenses;
      for i := 0 to |rules|
        invariant forall j :: 0 <= j < i ==> rules[j].id != id
      {
        if rules[i].id == id {
          assert RuleHasId(id)(rules[i]);
          var data := config.(recurringExpenses := rules[i := rule]);
          r := WriteConfig(data, fault);
          return;
        }
      }
      assert forall x :: x in rules ==> !RuleHasId(id)(x);
      r := Failed(NotFound("recurring expense", id));
    }

    /** `GetExpense`: the first expense with this ID. */
    method GetExpense(id: string, fault: Option<FileFault>) returns (r: Result<Expense, string>)
      ensures fault == Some(ReadFails) ==> r == Err(ReadStorageError)
      ensures fault != Some(ReadFails) ==>
        match FindFirst(expenses, ExpenseHasId(id))
        case Some(k) => r == Ok(expenses[k])
        case None => r == Err(NotFound("expense", id))
    {
      if fault == Some(ReadFails) {
        return Err(ReadStorageError);
      }
      var data := expenses;
      for i := 0 to |data|
        invariant forall j :: 0 <= j < i ==> data[j].id != id
      {
        if data[i].id == id {
          assert ExpenseHasId(id)(data[i]);
          return Ok(data[i]);
        }
      }
      assert forall x :: x in data ==> !ExpenseHasId(id)(x);
      r := Err(NotFound("expense", id));
    }

    /** `AddExpense`: appends the expense, with its ID and date filled in when missing. */
    method AddExpense(expense: Expense, newId: string, now: Instant, fault: Option<FileFault>) returns (r: Status)
      modifies this
      ensures config == old(config)
      ensures fault == Some(ReadFails) ==> r == Failed(ReadStorageError)
      ensures fault == Some(WriteFails) ==> r == Failed(IoError)
      ensures fault == None ==> r == Done
      ensures expenses == if r == Done then old(expenses) + [FillExpense(expense, newId, now)] else old(expenses)
    {
      if fault == Some(ReadFails) {
        return Failed(ReadStorageError);
      }
      var e := expense;
      if e.id == "" {
        e := e.(id := newId);
      }
      if IsZero(e.date) {
        e := e.(date := now);
      }
      r := WriteExpenses(expenses + [e], fault);
    }

    /**
     * `RemoveExpense` as written: removes every expense with this ID, keeping
     * the others in order, and reports not found when none matched. The
     * result list is made with capacity `len - 1`, which panics when the list
     * is empty.
     */
    method RemoveExpense(id: string, fault: Option<FileFault>) returns (r: Status)
      modifies this
      ensures config == old(config)
      ensures fault == Some(ReadFails) ==> r == Failed(ReadStorageError)
      ensures fault != Some(ReadFails) && old(expenses) == [] ==> r == Panicked("makeslice: cap out of range")
      ensures fault != Some(ReadFails) && old(expenses) != [] ==>
        if exists j :: 0 <= j < |old(expenses)| && old(expenses)[j].id == id then
          (fault == None ==> r == Done) && (fault == Some(WriteFails) ==> r == Failed(IoError))
        else r == Failed(NotFound("expense", id))
      ensures expenses == if r == Done then Filter(old(expenses), ExpenseLacksId(id)) else old(expenses)
    {
      if fault == Some(ReadFails) {
        return Failed(ReadStorageError);
      }
      if |expenses| - 1 < 0 {
        return Panicked("makeslice: cap out of range");
      }
      var kept, found := KeepOthers(expenses, id);
      if !found {
        return Failed(NotFound("expense", id));
      }
      r := WriteExpenses(kept, fault);
    }

    /**
     * `RemoveExpense` as evidently intended: an empty list holds no expense
     * with the ID, so the answer is not found, as for any other list without it.
     */
    method RemoveExpenseIntended(id: string, fault: Option<FileFault>) returns (r: Status)
      modifies this
      ensures config == old(config)
      ensures !r.Panicked?
      ensures fault == Some(ReadFails) ==> r == Failed(ReadStorageError)
      ensures fault != Some(ReadFails) ==>
        if exists j :: 0 <= j < |old(expenses)| && old(expenses)[j].id == id then
          (fault == None ==> r == Done) && (fault == Some(WriteFails) ==> r == Failed(IoError))
        else r == Failed(NotFound("expense", id))
      ensures expenses == if r == Done then Filter(old(expenses), ExpenseLacksId(id)) else old(expenses)
      ensures r == Done ==> |expenses| < |old(expenses)|
    {
      if fault == Some(ReadFails) {
        return Failed(ReadStorageError);
      }
      var kept, found := KeepOthers(expenses, id);
      if !found {
        return Failed(NotFound("expense", id));
      }
      RemoveShrinks(expenses, id);
      r := WriteExpenses(kept, fault);
    }

    /**
     * `UpdateExpense`: replaces the first expense with this ID by the given
     * one, keeping the length; not found when none has the ID.
     */
    method UpdateExpense(id: string, expense: Expense, fault: Option<FileFault>) returns (r: Status)
      modifies this
      ensures config == old(config)
      ensures fault == Some(ReadFails) ==> r == Failed(ReadStorageError) && expenses == old(expenses)
      ensures fault != Some(ReadFails) ==>
        match FindFirst(old(expenses), ExpenseHasId(id))
        case Some(k) =>
          (fault == None ==> r == Done) &&
          (fault == Some(WriteFails) ==> r == Failed(IoError)) &&
          expenses == if r == Done then old(expenses)[k := expense] else old(expenses)
        case None => r == Failed(NotFound("expense", id)) && expenses == old(expenses)
      ensures |expenses| == |old(expenses)|
    {
      if fault == Some(ReadFails) {
        return Failed(ReadStorageError);
      }
      var data := expenses;
      var found := false;
      var i := 0;
      while i < |data|
        invariant 0 <= i <= |data|
        invariant !found && data == expenses
        invariant forall j :: 0 <= j < i ==> expenses[j].id != id
      {
        if data[i].id == id {
          assert ExpenseHasId(id)(expenses[i]);
          data := data[i := expense];
          found := true;
          break;
        }
        i := i + 1;
      }
      if !found {
        assert forall x :: x in expenses ==> !ExpenseHasId(id)(x);
        return Failed(NotFound("expense", id));
      }
      r := WriteExpenses(data, fault);
    }
  }
}
