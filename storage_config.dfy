/** The user configuration, its defaults and the storage-backend selection (`internal/storage/config.go`). */
module StorageConfig {
  import opened Wrappers
  import opened Records

  datatype BackendType = Json | Sqlite | Postgres | MySql

  /** The configuration document of a user; `recurringExpenses` is the list the JSON store keeps in it. */
  datatype Config = Config(
    categories: seq<string>,
    currency: string,
    startDate: int,
    tags: seq<string>,
    defaultTags: seq<string>,
    recurringExpenses: seq<RecurringExpense>)

  const DefaultCategories: seq<string> := [
    "Food", "Groceries", "Travel", "Rent", "Utilities",
    "Entertainment", "Healthcare", "Shopping", "Miscellaneous", "Income"]

  const SupportedCurrencies: seq<string> := [
    "usd", "eur", "gbp", "jpy", "cny", "krw", "inr", "rub", "brl", "zar",
    "aed", "aud", "cad", "chf", "hkd", "sgd", "thb", "try", "mxn", "php",
    "pln", "sek", "nzd", "dkk", "idr", "ils", "vnd", "myr"]

  const DefaultCurrency: string := "usd"

  /** `Expense.Validate`: the name is checked first, then the category. */
  function Validate(e: Expense): (r: Outcome<string>)
    ensures e.name == "" ==> r == Fail("expense name is required")
    ensures e.name != "" && e.category == "" ==> r == Fail("category is required")
    ensures r == Pass <==> e.name != "" && e.category != ""
  {
    if e.name == "" then Fail("expense name is required")
    else if e.category == "" then Fail("category is required")
    else Pass
  }

  /**
   * `SetBaseConfig`: the ten default categories, currency "usd", start day 1
   * and no tags; the recurring-expense list is not one of the fields it sets.
   */
  function SetBaseConfig(c: Config): (r: Config)
    ensures r.categories == DefaultCategories && |r.categories| == 10
    ensures r.currency == DefaultCurrency && r.startDate == 1
    ensures r.tags == [] && r.defaultTags == []
    ensures r.recurringExpenses == c.recurringExpenses
    ensures r.currency in SupportedCurrencies
  {
    c.(categories := DefaultCategories, currency := DefaultCurrency, startDate := 1,
       tags := [], defaultTags := [])
  }

  /** `backendTypeFromEnv`: an unknown name selects the JSON backend. */
  function BackendTypeFromEnv(env: string): (r: BackendType)
    ensures env == "sqlite" <==> r == Sqlite
    ensures env == "postgres" <==> r == Postgres
    ensures env == "mysql" <==> r == MySql
    ensures r == Json <==> env !in {"sqlite", "postgres", "mysql"}
  {
    match env
    case "json" => Json
    case "sqlite" => Sqlite
    case "postgres" => Postgres
    case "mysql" => MySql
    case _ => Json
  }

  const JsonPath: string := "data/expenses.json"
  const SqlitePath: string := "data/expenses.sqlite"

  /** `backendURLFromEnv`: the database backends have no default location. */
  function BackendURLFromEnv(env: string): (r: string)
    ensures env == "sqlite" ==> r == SqlitePath
    ensures env in {"postgres", "mysql"} ==> r == ""
    ensures env !in {"sqlite", "postgres", "mysql"} ==> r == JsonPath
  {
    match env
    case "json" => JsonPath
    case "sqlite" => SqlitePath
    case "postgres" => ""
    case "mysql" => ""
    case _ => JsonPath
  }

  /** The two selections agree: the default location is a file exactly for the file backends. */
  lemma BackendURLMatchesType(env: string)
    ensures BackendURLFromEnv(env) == JsonPath <==> BackendTypeFromEnv(env) == Json
    ensures BackendURLFromEnv(env) == SqlitePath <==> BackendTypeFromEnv(env) == Sqlite
    ensures BackendURLFromEnv(env) == "" <==> BackendTypeFromEnv(env) in {Postgres, MySql}
  {
  }
}
