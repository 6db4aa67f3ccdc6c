/**
 * The frontend's application store (`frontend/src/stores/appState.js`): one
 * reactive object holding the session user, the expenses with the tags
 * found on them, the configuration and the recurring rules, filled by
 * `loadInitialData` and the `refresh*` functions.
 *
 * Every `apiFetch` is a `Reply` parameter: a rejection (a network error, or
 * the 401 that `apiFetch` turns into "Unauthorized"), or a response with its
 * `ok` flag and what `response.json()` makes of its body. A thrown error is
 * a `Fail` outcome carrying its message.
 */
module AppState {
  import opened Wrappers
  import opened JsValues

  const DefaultCurrency: string := "usd"
  const DefaultStartDate: int := 1
  const DefaultTheme: string := "system"

  const ErrSession: string := "Failed to fetch session"
  const ErrConfig: string := "Failed to fetch configuration"
  const ErrExpenses: string := "Failed to fetch expenses"
  /** The error JavaScript raises when `expense.tags` is read on `null` or `undefined`. */
  const ErrTypeError: string := "TypeError"

  /** What an `apiFetch` call settles to. */
  datatype Reply<T> =
    | Rejected(error: string)
    | Response(ok: bool, body: Result<T, string>)

  /** The configuration object `GET /config` sends: `categories` is null for a nil list. */
  datatype ConfigBody = ConfigBody(categories: Option<seq<string>>, currency: string, startDate: int)

  /** The body of a reply that must be ok, or the error the caller throws. */
  function ReadOk<T>(reply: Reply<T>, notOk: string): (r: Result<T, string>)
    ensures r.Ok? <==> reply.Response? && reply.ok && reply.body.Ok?
    ensures r.Ok? ==> r.value == reply.body.value
    ensures reply.Rejected? ==> r == Err(reply.error)
    ensures reply.Response? && !reply.ok ==> r == Err(notOk)
  {
    match reply
    case Rejected(e) => Err(e)
    case Response(ok, body) => if !ok then Err(notOk) else body
  }

  /** Response normalisation: the array itself, else its `expenses` array, else nothing. */
  function Normalize(data: Js): (r: seq<Js>)
    ensures data.JsArray? ==> r == data.items
    ensures !data.JsArray? && Field(data, "expenses").JsArray? ==> r == Field(data, "expenses").items
    ensures !data.JsArray? && !Field(data, "expenses").JsArray? ==> r == []
  {
    if data.JsArray? then data.items
    else if Field(data, "expenses").JsArray? then Field(data, "expenses").items
    else []
  }

  /** The tags of one expense: its `tags` when that is an array, nothing otherwise. */
  function TagsOf(expense: Js): seq<Js> {
    var t := Field(expense, "tags");
    if t.JsArray? then t.items else []
  }

  /** Every tag of every expense, in list order, repeats included. */
  function AllTags(expenses: seq<Js>): seq<Js> {
    if expenses == [] then []
    else AllTags(expenses[..|expenses| - 1]) + TagsOf(expenses[|expenses| - 1])
  }

  /** Reading `expense.tags` throws on these. */
  predicate Nullish(expense: Js) {
    expense == JsNull || expense == JsUndefined
  }

  predicate HasNullish(expenses: seq<Js>) {
    exists k :: 0 <= k < |expenses| && Nullish(expenses[k])
  }

  predicate NoDuplicates<T(==)>(xs: seq<T>) {
    forall i, j :: 0 <= i < j < |xs| ==> xs[i] != xs[j]
  }

  /** `Set.add` on a set kept in insertion order, and `addCategoryLocally` on a list. */
  function AddIfAbsent<T(==)>(xs: seq<T>, x: T): (r: seq<T>)
    ensures x in r && xs <= r && |r| <= |xs| + 1
    ensures x in xs ==> r == xs
  {
    if x in xs then xs else xs + [x]
  }

  /** Adding never introduces a duplicate. */
  lemma AddIfAbsentNoDuplicates<T>(xs: seq<T>, x: T)
    requires NoDuplicates(xs)
    ensures NoDuplicates(AddIfAbsent(xs, x))
  {
  }

  /** `Array.from(new Set(xs))`: each value once, where it first appears. */
  function Distinct<T(==)>(xs: seq<T>): (r: seq<T>)
    ensures |r| <= |xs|
  {
    if xs == [] then [] else AddIfAbsent(Distinct(xs[..|xs| - 1]), xs[|xs| - 1])
  }

  /** `Distinct` keeps exactly the values of its input. */
  lemma {:induction false} DistinctMembers<T>(xs: seq<T>, y: T)
    ensures y in Distinct(xs) <==> y in xs
  {
    if xs != [] {
      var init := xs[..|xs| - 1];
      DistinctMembers(init, y);
      assert xs == init + [xs[|xs| - 1]];
    }
  }

  /** `Distinct` holds each value once. */
  lemma {:induction false} DistinctNoDuplicates<T>(xs: seq<T>)
    ensures NoDuplicates(Distinct(xs))
  {
    if xs != [] {
      DistinctNoDuplicates(xs[..|xs| - 1]);
      AddIfAbsentNoDuplicates(Distinct(xs[..|xs| - 1]), xs[|xs| - 1]);
    }
  }

  /** The position of the first occurrence of `x`. */
  function FirstIndex<T(==)>(xs: seq<T>, x: T): (r: nat)
    requires x in xs
    ensures r < |xs| && xs[r] == x && x !in xs[..r]
  {
    if xs[0] == x then 0
    else
      var k := FirstIndex(xs[1..], x);
      assert xs[..k + 1] == [xs[0]] + xs[1..][..k];
      k + 1
  }

  lemma FirstIndexUnique<T>(xs: seq<T>, x: T, k: nat)
    requires k < |xs| && xs[k] == x && x !in xs[..k]
    ensures FirstIndex(xs, x) == k
  {
  }

  /** `Distinct` lists the values in the order of their first occurrences. */
  lemma {:induction false} DistinctInOrder<T>(xs: seq<T>)
    ensures forall p, q :: 0 <= p < q < |Distinct(xs)| ==>
              Distinct(xs)[p] in xs && Distinct(xs)[q] in xs &&
              FirstIndex(xs, Distinct(xs)[p]) < FirstIndex(xs, Distinct(xs)[q])
  {
    if xs != [] {
      var init, last := xs[..|xs| - 1], xs[|xs| - 1];
      assert xs == init + [last];
      DistinctInOrder(init);
      var d := Distinct(init);
      var r := Distinct(xs);
      assert r == AddIfAbsent(d, last);
      forall p, q | 0 <= p < q < |r|
        ensures r[p] in xs && r[q] in xs && FirstIndex(xs, r[p]) < FirstIndex(xs, r[q])
      {
        DistinctMembers(init, d[p]);
        var kp := FirstIndex(init, d[p]);
        assert xs[..kp] == init[..kp];
        FirstIndexUnique(xs, d[p], kp);
        if q < |d| {
          DistinctMembers(init, d[q]);
          var kq := FirstIndex(init, d[q]);
          assert xs[..kq] == init[..kq];
          FirstIndexUnique(xs, d[q], kq);
        } else {
          assert last !in d && r[q] == last;
          DistinctMembers(init, last);
          assert xs[..|init|] == init;
          FirstIndexUnique(xs, last, |init|);
        }
      }
    } else {
      assert Distinct(xs) == [];
    }
  }

  /** A value is among all the tags exactly when some expense's tag array holds it. */
  lemma {:induction false} AllTagsMembers(expenses: seq<Js>, tag: Js)
    ensures tag in AllTags(expenses) <==> exists i :: 0 <= i < |expenses| && tag in TagsOf(expenses[i])
  {
    if expenses != [] {
      var init := expenses[..|expenses| - 1];
      AllTagsMembers(init, tag);
      if tag in AllTags(init) {
        var i :| 0 <= i < |init| && tag in TagsOf(init[i]);
        assert expenses[i] == init[i];
      }
      if exists i :: 0 <= i < |expenses| && tag in TagsOf(expenses[i]) {
        var i :| 0 <= i < |expenses| && tag in TagsOf(expenses[i]);
        if i < |init| {
          assert init[i] == expenses[i];
        }
      }
    }
  }

  /** One more expense read without throwing: its tags join the list, and the prefix holds no `null`. */
  lemma ExtractStep(expenses: seq<Js>, i: nat)
    requires i < |expenses| && !HasNullish(expenses[..i]) && !Nullish(expenses[i])
    ensures AllTags(expenses[..i + 1]) == AllTags(expenses[..i]) + TagsOf(expenses[i])
    ensures !HasNullish(expenses[..i + 1])
  {
    assert expenses[..i + 1][..i] == expenses[..i];
  }

  /** The inner `forEach` of `extractTags`: adds the tags of one array to the set. */
  method AddTags<T(==)>(tags: seq<T>, ghost seen: seq<T>, items: seq<T>) returns (r: seq<T>)
    requires tags == Distinct(seen)
    ensures r == Distinct(seen + items)
  {
    r := tags;
    var j := 0;
    assert seen + items[..0] == seen;
    while j < |items|
      invariant 0 <= j <= |items|
      invariant r == Distinct(seen + items[..j])
    {
      assert (seen + items[..j + 1])[..|seen| + j] == seen + items[..j];
      r := AddIfAbsent(r, items[j]);
      j := j + 1;
    }
    assert items[..j] == items;
  }

  /** One step of the outer `forEach`: the tags of an array-valued `tags` field join the set. */
  method AddExpenseTags(tags: seq<Js>, ghost seen: seq<Js>, expense: Js) returns (r: seq<Js>)
    requires tags == Distinct(seen)
    ensures r == Distinct(seen + TagsOf(expense))
  {
    var t := Field(expense, "tags");
    if t.JsArray? {
      r := AddTags(tags, seen, t.items);
    } else {
      assert seen + TagsOf(expense) == seen;
      r := tags;
    }
  }

  /**
   * `extractTags`: walks the expenses and their tag arrays, adding each tag
   * to a set; it throws at the first `null` expense.
   */
  method ExtractTags(expenses: seq<Js>) returns (r: Option<seq<Js>>)
    ensures r.None? <==> HasNullish(expenses)
    ensures r.Some? ==> r.value == Distinct(AllTags(expenses))
  {
    var tags: seq<Js> := [];
    var i := 0;
    while i < |expenses|
      invariant 0 <= i <= |expenses|
      invariant !HasNullish(expenses[..i])
      invariant tags == Distinct(AllTags(expenses[..i]))
    {
      var expense := expenses[i];
      if Nullish(expense) {
        assert Nullish(expenses[i]);
        return None;
      }
      tags := AddExpenseTags(tags, AllTags(expenses[..i]), expense);
      ExtractStep(expenses, i);
      i := i + 1;
    }
    assert expenses[..i] == expenses;
    return Some(tags);
  }

  /**
   * The tags `extractTags` finds: every tag of an array-valued `tags` field
   * once, and nothing else.
   */
  lemma ExtractedTags(expenses: seq<Js>, tag: Js)
    ensures NoDuplicates(Distinct(AllTags(expenses)))
    ensures tag in Distinct(AllTags(expenses)) <==>
              exists i :: 0 <= i < |expenses| && Field(expenses[i], "tags").JsArray? && tag in Field(expenses[i], "tags").items
  {
    AllTagsMembers(expenses, tag);
    DistinctMembers(AllTags(expenses), tag);
    DistinctNoDuplicates(AllTags(expenses));
  }

  /** The store. */
  class Store {
    var initialized: bool
    var loading: bool
    var user: Js
    var expenses: seq<Js>
    var categories: seq<string>
    var currency: string
    var startDate: int
    var tags: seq<Js>
    var recurringExpenses: seq<Js>
    var theme: string

    /** Every field but `theme` at its initial value. */
    predicate AtDefaults()
      reads this
    {
      !initialized && !loading && user == JsNull && expenses == [] && categories == [] &&
      currency == DefaultCurrency && startDate == DefaultStartDate && tags == [] && recurringExpenses == []
    }

    /** `state.user?.role === 'admin'`. */
    predicate IsAdmin()
      reads this
      ensures IsAdmin() <==> user.JsObject? && "role" in user.fields && user.fields["role"] == JsString("admin")
    {
      Field(user, "role") == JsString("admin")
    }

    /** The module's initial state: `storedTheme` is the stored `theme`, none outside a browser. */
    constructor (storedTheme: Option<string>)
      ensures AtDefaults()
      ensures theme == if storedTheme.Some? && storedTheme.value != "" then storedTheme.value else DefaultTheme
    {
      initialized := false;
      loading := false;
      user := JsNull;
      expenses := [];
      categories := [];
      currency := DefaultCurrency;
      startDate := DefaultStartDate;
      tags := [];
      recurringExpenses := [];
      theme := if storedTheme.Some? && storedTheme.value != "" then storedTheme.value else DefaultTheme;
    }

    /** `loadSession`: the session user, or the error. */
    method LoadSession(reply: Reply<Js>) returns (outcome: Outcome<string>)
      modifies this
      ensures var data := ReadOk(reply, ErrSession);
        (data.Ok? ==> outcome == Pass && user == data.value) &&
        (data.Err? ==> outcome == Fail(data.error) && user == old(user))
      ensures initialized == old(initialized) && loading == old(loading) && expenses == old(expenses)
      ensures categories == old(categories) && currency == old(currency) && startDate == old(startDate)
      ensures tags == old(tags) && recurringExpenses == old(recurringExpenses) && theme == old(theme)
    {
      var data := ReadOk(reply, ErrSession);
      if data.Err? {
        return Fail(data.error);
      }
      user := data.value;
      return Pass;
    }

    /**
     * `refreshExpenses`: the normalised list replaces the expenses, then the
     * tags are recomputed from it; a `null` expense throws after the list is
     * stored and before the tags are.
     */
    method RefreshExpenses(reply: Reply<Js>) returns (outcome: Outcome<string>)
      modifies this
      ensures var data := ReadOk(reply, ErrExpenses);
        (data.Err? ==> outcome == Fail(data.error) && expenses == old(expenses)) &&
        (data.Ok? ==> expenses == Normalize(data.value) &&
                      (outcome.Pass? <==> !HasNullish(expenses)))
      ensures ReadOk(reply, ErrExpenses).Ok? && HasNullish(expenses) ==> outcome == Fail(ErrTypeError)
      ensures outcome.Pass? ==> tags == Distinct(AllTags(expenses))
      ensures outcome.Fail? ==> tags == old(tags)
      ensures initialized == old(initialized) && loading == old(loading) && user == old(user)
      ensures categories == old(categories) && currency == old(currency) && startDate == old(startDate)
      ensures recurringExpenses == old(recurringExpenses) && theme == old(theme)
    {
      var data := ReadOk(reply, ErrExpenses);
      if data.Err? {
        return Fail(data.error);
      }
      expenses := Normalize(data.value);
      var found := ExtractTags(expenses);
      if found.None? {
        return Fail(ErrTypeError);
      }
      tags := found.value;
      return Pass;
    }

    /** `refreshRecurringExpenses`: a response that is not ok empties the list instead of throwing. */
    method RefreshRecurringExpenses(reply: Reply<Js>) returns (outcome: Outcome<string>)
      modifies this
      ensures reply.Rejected? ==> outcome == Fail(reply.error) && recurringExpenses == old(recurringExpenses)
      ensures reply.Response? && !reply.ok ==> outcome == Pass && recurringExpenses == []
      ensures reply.Response? && reply.ok && reply.body.Err? ==>
                outcome == Fail(reply.body.error) && recurringExpenses == old(recurringExpenses)
      ensures reply.Response? && reply.ok && reply.body.Ok? ==>
                outcome == Pass && recurringExpenses == Normalize(reply.body.value)
      ensures initialized == old(initialized) && loading == old(loading) && user == old(user)
      ensures expenses == old(expenses) && categories == old(categories) && currency == old(currency)
      ensures startDate == old(startDate) && tags == old(tags) && theme == old(theme)
    {
      match reply
      case Rejected(e) =>
        return Fail(e);
      case Response(ok, body) =>
        if !ok {
          recurringExpenses := [];
          return Pass;
        }
        if body.Err? {
          return Fail(body.error);
        }
        recurringExpenses := Normalize(body.value);
        return Pass;
    }

    /**
     * `loadInitialData`: nothing while a load runs or after one succeeded;
     * otherwise the four loads in order, stopping at the first error.
     * `loading` is cleared whatever happens, and `initialized` is set only
     * when every load succeeded.
     */
    method LoadInitialData(session: Reply<Js>, config: Reply<ConfigBody>, expenseReply: Reply<Js>,
                           recurringReply: Reply<Js>) returns (outcome: Outcome<string>)
      modifies this
      ensures old(initialized) || old(loading) ==> outcome == Pass && unchanged(this)
      ensures !old(initialized) && !old(loading) ==>
                !loading && (initialized <==> outcome.Pass?) &&
                (outcome.Pass? <==> AllLoad(session, config, expenseReply, recurringReply))
      ensures !old(initialized) && !old(loading) && outcome.Pass? ==>
                user == ReadOk(session, ErrSession).value &&
                categories == CategoriesOf(config.body.value) &&
                currency == CurrencyOf(config.body.value) &&
                startDate == StartDateOf(config.body.value) &&
                expenses == Normalize(expenseReply.body.value) &&
                tags == Distinct(AllTags(expenses)) &&
                recurringExpenses == (if recurringReply.ok then Normalize(recurringReply.body.value) else [])
      ensures !old(initialized) && !old(loading) ==>
                var s := ReadOk(session, ErrSession);
                (s.Err? ==> outcome == Fail(s.error) && user == old(user) && categories == old(categories) &&
                            currency == old(currency) && startDate == old(startDate) && expenses == old(expenses) &&
                            tags == old(tags) && recurringExpenses == old(recurringExpenses)) &&
                (s.Ok? ==> user == s.value)
      ensures !old(initialized) && !old(loading) && ReadOk(session, ErrSession).Ok? ==>
                var c := ReadOk(config, ErrConfig);
                (c.Err? ==> outcome == Fail(c.error) && categories == old(categories) && currency == old(currency) &&
                            startDate == old(startDate) && expenses == old(expenses) && tags == old(tags) &&
                            recurringExpenses == old(recurringExpenses)) &&
                (c.Ok? ==> categories == CategoriesOf(c.value) && currency == CurrencyOf(c.value) &&
                           startDate == StartDateOf(c.value))
      ensures !old(initialized) && !old(loading) && ReadOk(session, ErrSession).Ok? && ReadOk(config, ErrConfig).Ok? ==>
                var e := ReadOk(expenseReply, ErrExpenses);
                (e.Err? ==> outcome == Fail(e.error) && expenses == old(expenses) && tags == old(tags) &&
                            recurringExpenses == old(recurringExpenses)) &&
                (e.Ok? ==> expenses == Normalize(e.value)) &&
                (e.Ok? && HasNullish(expenses) ==>
                   outcome == Fail(ErrTypeError) && tags == old(tags) && recurringExpenses == old(recurringExpenses)) &&
                (e.Ok? && !HasNullish(expenses) ==> tags == Distinct(AllTags(expenses)))
      ensures !old(initialized) && !old(loading) && ReadOk(session, ErrSession).Ok? && ReadOk(config, ErrConfig).Ok? &&
              ReadOk(expenseReply, ErrExpenses).Ok? && !HasNullish(expenses) ==>
                (recurringReply.Rejected? ==>
                   outcome == Fail(recurringReply.error) && recurringExpenses == old(recurringExpenses)) &&
                (recurringReply.Response? && recurringReply.ok && recurringReply.body.Err? ==>
                   outcome == Fail(recurringReply.body.error) && recurringExpenses == old(recurringExpenses)) &&
                (recurringReply.Response? && !recurringReply.ok ==> outcome == Pass && recurringExpenses == [])
      ensures theme == old(theme)
    {
      if initialized || loading {
        return Pass;
      }
      loading := true;
      outcome := LoadSession(session);
      if outcome.Fail? {
        loading := false;
        return;
      }
      var body := ReadOk(config, ErrConfig);
      if body.Err? {
        loading := false;
        return Fail(body.error);
      }
      categories := CategoriesOf(body.value);
      currency := CurrencyOf(body.value);
      startDate := StartDateOf(body.value);
      outcome := RefreshExpenses(expenseReply);
      if outcome.Fail? {
        loading := false;
        return;
      }
      outcome := RefreshRecurringExpenses(recurringReply);
      if outcome.Fail? {
        loading := false;
        return;
      }
      initialized := true;
      loading := false;
    }

    /** `resetState`: every field but `theme` back to its initial value. */
    method ResetState()
      modifies this
      ensures AtDefaults() && theme == old(theme)
      ensures !IsAdmin()
    {
      initialized := false;
      loading := false;
      user := JsNull;
      expenses := [];
      categories := [];
      currency := DefaultCurrency;
      startDate := DefaultStartDate;
      tags := [];
      recurringExpenses := [];
    }

    /** `addCategoryLocally`: appends a category the list does not hold yet. */
    method AddCategoryLocally(category: string)
      modifies this
      ensures categories == AddIfAbsent(old(categories), category)
      ensures initialized == old(initialized) && loading == old(loading) && user == old(user)
      ensures expenses == old(expenses) && currency == old(currency) && startDate == old(startDate)
      ensures tags == old(tags) && recurringExpenses == old(recurringExpenses) && theme == old(theme)
    {
      if category !in categories {
        categories := categories + [category];
      }
    }
  }

  /** `config.categories || []`. */
  function CategoriesOf(config: ConfigBody): (r: seq<string>)
    ensures config.categories.Some? ==> r == config.categories.value
    ensures config.categories.None? ==> r == []
  {
    if config.categories.Some? then config.categories.value else []
  }

  /** `config.currency || 'usd'`. */
  function CurrencyOf(config: ConfigBody): (r: string)
    ensures r != ""
  {
    if config.currency != "" then config.currency else DefaultCurrency
  }

  /** `config.startDate || 1`. */
  function StartDateOf(config: ConfigBody): (r: int)
    ensures r != 0
  {
    if config.startDate != 0 then config.startDate else DefaultStartDate
  }

  /** Whether each load of `loadInitialData` succeeds. */
  predicate AllLoad(session: Reply<Js>, config: Reply<ConfigBody>, expenseReply: Reply<Js>, recurringReply: Reply<Js>) {
    ReadOk(session, ErrSession).Ok? &&
    ReadOk(config, ErrConfig).Ok? &&
    ReadOk(expenseReply, ErrExpenses).Ok? &&
    !HasNullish(Normalize(expenseReply.body.value)) &&
    recurringReply.Response? && (recurringReply.ok ==> recurringReply.body.Ok?)
  }

  /** Adding a category twice adds it once. */
  lemma AddCategoryIdempotent(categories: seq<string>, category: string)
    ensures AddIfAbsent(AddIfAbsent(categories, category), category) == AddIfAbsent(categories, category)
  {
  }
}
