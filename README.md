# expenseOwl core in Dafny

expenseOwl is a self-hosted expense tracker. It has a Go server and a
JavaScript single-page front end. This project models the parts of it that
carry logic and proves what they promise.

Server side:

- **Recurring expenses.** The materializer (`generateExpensesFromRecurring`)
  expands a recurring rule into dated ledger entries. The three reconciling
  operations of the database store (`AddRecurringExpense`,
  `UpdateRecurringExpense`, `RemoveRecurringExpense`) keep the
  `recurring_expenses` and `expenses` tables consistent.
- **Database store.** The settings and expense-row operations. The model
  works over two tables, a settings map and three primary-key constraints.
- **JSON-file store.** Its two files are a `config` and an `expenses`
  field of a class. A read or write failure is a parameter.
- **Configuration.** The defaults and validation in
  `internal/storage/config.go`.
- **Authentication.** The session table with expiry of the single-user
  manager, and the JWT helpers: bearer-token extraction, role
  normalisation, claim validation and the request context.
- **Users.** Registration, login, password and role changes of the user
  service, over a users table with unique IDs and emails.
- **Telegram linking.** Issuing and completing a link (code alphabet,
  hexadecimal token, `ILIKE` matching) and the JSON view of a link.
- **Embedded front end.** The routing and path checks of the server that
  serves the built files.

Front end:

- `escapeHTML`, `getMonthBounds` and `getMonthExpenses`.
- The application store: tag extraction, the loads, reset, and adding a
  category.
- The passphrase cache (`cipher.js`).
- The key cache, `base64UrlEncode` and `sanitizePayload` of
  `encryption.js`.

Dates are civil date-times with a nanosecond clock (`CivilTime`). A
month or year step lets the day overflow into the next month, as Go's
`AddDate` and JavaScript's `Date` do. The current time, fresh IDs, random
bytes, a failing SQL statement, a failing file operation and the bcrypt
outcome are all parameters of the operations that use them.

A database transaction works on copies of the tables and commits them at
the end. Any early return therefore leaves the state unchanged, which is
what the rollback guarantees.

The expense and recurring-expense records are built from the database
columns in `internal/storage/databaseStore.go`. The `Expense` type in
`internal/storage/config.go` is an older version of the record: it has no
user ID, recurring ID or currency.

The helper modules `Wrappers`, `Text`, `Numbers`, `Relations` and
`JsValues` define `Option`/`Result`, Go's string functions, 64-bit
wrap-around, filtering and uniqueness, and JavaScript values.

## Model

| member | source | states |
|---|---|---|
| CivilTime.DaysIn | internal/storage/databaseStore.go:617-625 | A month has 28 to 31 days; February has 29 exactly in leap years and 28 otherwise, every other month at least 30 |
| CivilTime.BeforeIsOrdinalOrder | internal/storage/databaseStore.go:616 | `Before` on instants is the strict order on their ordinals |
| CivilTime.OrdinalInjective | internal/storage/databaseStore.go:616 | Two instants with the same ordinal are equal |
| CivilTime.Date | internal/storage/databaseStore.go:617-625 | Normalising a date that overflows its month keeps the time of day |
| CivilTime.DateInRange | internal/storage/databaseStore.go:617-625 | A date that is already in range is left alone by normalisation |
| CivilTime.ParseInterval | internal/storage/databaseStore.go:617-627 | Exactly the names daily, weekly, monthly and yearly are known intervals |
| CivilTime.Step | internal/storage/databaseStore.go:617-625 | A schedule step keeps the time of day |
| CivilTime.StepIncreases | internal/storage/databaseStore.go:617-625 | Every interval step moves strictly forward in time |
| CivilTime.Advance | internal/storage/databaseStore.go:617-627 | A step is taken exactly for a known interval name, and it lands strictly later |
| CivilTime.AdvanceKnown | internal/storage/databaseStore.go:617-625 | For a known name the step is that interval's `AddDate` |
| CivilTime.DailyWithinMonth | internal/storage/databaseStore.go:618-619 | A daily step inside a month adds one to the day |
| CivilTime.MonthlyKeepsDay | internal/storage/databaseStore.go:622-623 | A monthly step keeps the day when the next month has it |
| CivilTime.MonthlyOverflowExample | internal/storage/databaseStore.go:622-623 | January 31 plus one month is March 2 in 2024 and March 3 in 2023, with no snapping to the month end |
| CivilTime.YearlyLeapDayExample | internal/storage/databaseStore.go:624-625 | February 29, 2024 plus one year is March 1, 2025 |
| Records.NullString | internal/storage/databaseStore.go:672-677 | NULL exactly for the empty string, and otherwise the string itself |
| Records.ScanExpense | internal/storage/databaseStore.go:223-242 | A NULL `recurring_id` reads back as "", and any other value as itself |
| Records.ScanAfterWrite | internal/storage/databaseStore.go:223-242 | Writing an expense and scanning the row back gives the same expense |
| Records.WriteAfterScan | internal/storage/databaseStore.go:672-677 | Scanning a row and writing it back gives the same row, except that a stored "" becomes NULL |
| Materializer.ScheduleDateSucc | internal/storage/databaseStore.go:653-661 | Each schedule date is one interval step after the one before |
| Materializer.ScheduleIncreasing | internal/storage/databaseStore.go:653-661 | Schedule dates strictly increase |
| Materializer.ScheduleNotBeforeStart | internal/storage/databaseStore.go:640-661 | No schedule date comes before the rule's start date |
| Materializer.SeriesCons | internal/storage/databaseStore.go:640-668 | A generation round with a known interval emits its entry and continues one step later with one fewer to go |
| Materializer.SeriesStop | internal/storage/databaseStore.go:653-662 | With an unknown interval the loop returns right after its first entry |
| Materializer.EmitStep | internal/storage/databaseStore.go:640-668 | A continuing round moves its entry from the remaining series to the output |
| Materializer.EmitStop | internal/storage/databaseStore.go:653-662 | A stopping round's entry is the last of the output |
| Materializer.SkipElapsed | internal/storage/databaseStore.go:615-633 | The skip loop computes the first date not before today and the budget left, or none on an unknown interval |
| Materializer.SkipRound | internal/storage/databaseStore.go:616-631 | One skip round moves strictly forward and agrees with the skip function |
| Materializer.EmitRound | internal/storage/databaseStore.go:641-667 | One generation round emits the entry for the cursor with the next fresh ID, then steps or stops |
| Materializer.EmitSeries | internal/storage/databaseStore.go:640-668 | The generation loop emits the series of the budgeted number of entries from its start |
| Materializer.GenerateExpensesFromRecurring | internal/storage/databaseStore.go:609-670 | The skip loop and then the generation loop compute the materialisation of the rule |
| Materializer.SeriesEntries | internal/storage/databaseStore.go:641-651 | The i-th entry of a series gets the i-th fresh ID, copies the rule, and is not dated before the first cursor |
| Materializer.SeriesFollowsSchedule | internal/storage/databaseStore.go:640-668 | With a known interval the series is the schedule from the cursor, cut at the count |
| Materializer.FastForwardStep | internal/storage/databaseStore.go:616-631 | A skip round with a known interval continues from the next step, spending one occurrence of a bounded rule |
| Materializer.FastForwardStuck | internal/storage/databaseStore.go:617-627 | A skip round that meets an unknown interval returns with nothing |
| Materializer.ElapsedShift | internal/storage/databaseStore.go:616-625 | Past dates counted from the step after the cursor are past counted from the cursor |
| Materializer.FastForwardSchedule | internal/storage/databaseStore.go:615-633 | With a known interval the skip loop lands on a schedule date after passing only past dates, within the budget |
| Materializer.SkipOneMore | internal/storage/databaseStore.go:616-631 | A skip loop that passes one date and then t more passes t + 1 |
| Materializer.FastForwardDone | internal/storage/databaseStore.go:616 | With nothing to skip the cursor and budget are unchanged |
| Materializer.FastForwardStops | internal/storage/databaseStore.go:616 | The skip loop stops on a date not before today, or when a bounded rule's budget is spent |
| Materializer.FastForwardSkipsElapsed | internal/storage/databaseStore.go:615-633 | The skip loop passes exactly the first past schedule dates, each costing one occurrence of a bounded rule |
| Materializer.ElapsedCount | internal/storage/databaseStore.go:616 | At most `limit` of the first `limit` schedule dates are past |
| Materializer.ElapsedCountOfPrefix | internal/storage/databaseStore.go:616 | When exactly the dates before index s are past, min(s, limit) of the first limit are |
| Materializer.MaterializeBounded | internal/storage/databaseStore.go:635-668 | A rule with N > 0 occurrences generated from its start gives exactly N entries: the first on the start date, each later one a step after the one before, dates strictly increasing |
| Materializer.MaterializeOpenEnded | internal/storage/databaseStore.go:635-640 | A rule with 0 occurrences and a known interval gives exactly 200 entries, from today or not |
| Materializer.MaterializeNegative | internal/storage/databaseStore.go:635-640 | A negative occurrence count generates nothing |
| Materializer.MaterializeCopiesRule | internal/storage/databaseStore.go:641-651 | Every entry has the user's ID and the rule's ID, copies name, category, amount, currency and tags, and the k-th gets the k-th fresh ID |
| Materializer.MaterializeIsSeries | internal/storage/databaseStore.go:609-670 | The result is empty or a series numbered from the first fresh ID |
| Materializer.MaterializeFromTodayBounded | internal/storage/databaseStore.go:615-668 | From today, a bounded rule skips its past dates at one occurrence each and gives the rest of the schedule, none before today |
| Materializer.ElapsedIsSkipped | internal/storage/databaseStore.go:616-631 | The skip loop passes exactly the elapsed dates among the first n |
| Materializer.ShiftedSeriesDates | internal/storage/databaseStore.go:640-661 | The series from the s-th schedule date follows the schedule from index s and is never before today |
| Materializer.ScheduleShift | internal/storage/databaseStore.go:653-661 | s + k steps are s steps and then k more |
| Materializer.MaterializeFromTodayOpenEnded | internal/storage/databaseStore.go:615-668 | From today, an open-ended rule gives 200 entries one step apart, none before today |
| Materializer.MaterializeUnknownInterval | internal/storage/databaseStore.go:615-668 | An unknown interval emits the start date alone, or from today nothing when the start is past |
| Materializer.RentExample | internal/storage/databaseStore.go:609-670 | Monthly rent from 2024-01-01, 3 occurrences: creation gives 01-01, 02-01 and 03-01; regeneration at 2024-02-15 gives 03-01 alone |
| DatabaseStore.WithDefaults | internal/storage/databaseStore.go:109-125 | The user gets the default settings only when the user has none; every other user's settings are kept |
| DatabaseStore.Rows | internal/storage/databaseStore.go:584-607 | One row per expense, in order, each the row of its expense |
| DatabaseStore.FillBatch | internal/storage/databaseStore.go:372-391 | The filled batch has one expense per input expense |
| DatabaseStore.FillExpense | internal/storage/databaseStore.go:286-299 | The expense belongs to the user; a fresh ID only when the ID is empty, the user's currency only when none is given, now only when the date is zero, and every other field kept |
| DatabaseStore.FillExpenseIdempotent | internal/storage/databaseStore.go:286-299 | Filling in the defaults a second time changes nothing |
| DatabaseStore.FillBatchStep | internal/storage/databaseStore.go:372-391 | Filling one more expense appends it to the filled prefix |
| DatabaseStore.RowsAppend | internal/storage/databaseStore.go:584-607 | Appending an expense appends its row |
| DatabaseStore.UpdateRows | internal/storage/databaseStore.go:311-339 | An update keeps the number of rows |
| DatabaseStore.ReplaceRule | internal/storage/databaseStore.go:520-527 | Rewriting a rule keeps the number of rules and every rule ID |
| DatabaseStore.ReplaceRuleUnique | internal/storage/databaseStore.go:520-527 | Rewriting a rule in place keeps the rule IDs unique |
| DatabaseStore.BulkInsertExpenses | internal/storage/databaseStore.go:584-607 | An empty batch changes nothing; otherwise all rows are appended with unique IDs, or the named failure is reported |
| DatabaseStore.RegenerateRuleRows | internal/storage/databaseStore.go:536-550 | The rule's entries after the cutoff (all without one) are deleted, then the generated entries are inserted |
| DatabaseStore.InsertGenerated | internal/storage/databaseStore.go:493-496 | The rows gain exactly the generated rows of the rule, or the insert fails |
| DatabaseStore.Store.constructor | internal/storage/databaseStore.go:44-71 | Empty tables that satisfy the primary keys |
| DatabaseStore.Store.EnsureUserDefaults | internal/storage/databaseStore.go:109-125 | A user ID is required; the default settings are inserted only for a user without settings |
| DatabaseStore.Store.GetCurrency | internal/storage/databaseStore.go:177-187 | The user's currency after the defaults are ensured, or the error of the failing statement |
| DatabaseStore.Store.UpdateCategories | internal/storage/databaseStore.go:163-175 | Only the user's categories change, after the defaults are ensured |
| DatabaseStore.Store.UpdateCurrency | internal/storage/databaseStore.go:189-198 | An unsupported currency is refused before any statement; otherwise only the user's currency changes |
| DatabaseStore.Store.UpdateStartDate | internal/storage/databaseStore.go:212-221 | A day outside 1..31 is refused before any statement; otherwise only the user's start day changes |
| DatabaseStore.Store.GetExpense | internal/storage/databaseStore.go:267-280 | Found exactly when a row has this ID and owner, and then it is that row scanned; otherwise not found |
| DatabaseStore.Store.AddExpense | internal/storage/databaseStore.go:282-309 | An owner is required; the row gets its ID, currency and date filled in and is appended unless its ID is taken |
| DatabaseStore.Store.UpdateExpense | internal/storage/databaseStore.go:311-339 | The matching row's columns are set; not found when no row has this ID and owner |
| DatabaseStore.Store.RemoveExpense | internal/storage/databaseStore.go:341-354 | The matching row is deleted; not found when there is none |
| DatabaseStore.Store.RemoveMultipleExpenses | internal/storage/databaseStore.go:398-406 | An empty ID list does nothing; otherwise the user's rows with those IDs are deleted |
| DatabaseStore.Store.FillRow | internal/storage/databaseStore.go:372-391 | The owner and a missing ID and currency are filled in, as in the filled batch |
| DatabaseStore.Store.AddMultipleExpenses | internal/storage/databaseStore.go:356-396 | An empty batch does nothing; otherwise every filled row is copied in one transaction, or nothing is |
| DatabaseStore.Store.FillRuleCurrency | internal/storage/databaseStore.go:474-480 | A rule without a currency gets the user's currency |
| DatabaseStore.Store.AddRecurringExpense | internal/storage/databaseStore.go:460-498 | An owner is required; the filled rule and all its generated entries are inserted together, or nothing changes |
| DatabaseStore.Store.UpdateRecurringExpense | internal/storage/databaseStore.go:500-551 | Not found leaves both tables; otherwise the rule is rewritten, its entries (all or future) deleted and regenerated, other rules and rows untouched |
| DatabaseStore.Store.RemoveRecurringExpense | internal/storage/databaseStore.go:553-582 | Not found leaves both tables; otherwise the rule and its entries (all, or those after now) are deleted |
| DatabaseStore.DeleteRuleRowsLeavesOthers | internal/storage/databaseStore.go:536-550 | Deleting a rule's entries keeps the rows of every other rule and user, in order |
| DatabaseStore.FutureOnlyDeletesAfterNow | internal/storage/databaseStore.go:541 | A future-only deletion removes exactly the rule's entries dated after now |
| DatabaseStore.UpdateLeavesOthers | internal/storage/databaseStore.go:536-550 | After an update the rows of every other rule and user are exactly as they were |
| DatabaseStore.SameInstantDuplicates | internal/storage/databaseStore.go:541 | With one clock reading, an entry dated exactly now survives the delete and is generated again |
| DatabaseStore.TwoClocksNoOverlap | internal/storage/databaseStore.go:536-550 | With the delete's clock strictly before the generator's, kept entries all precede regenerated ones |
| DatabaseStore.DeleteLastOfThree | internal/storage/databaseStore.go:536-550 | Deleting only the last of three rows keeps the first two |
| DatabaseStore.RentRowsDeleted | internal/storage/databaseStore.go:541 | A future-only delete of the rent rule at 2024-02-15 keeps the January and February rows |
| DatabaseStore.RentUpdateExample | internal/storage/databaseStore.go:500-551 | The rent update to 1300 at 2024-02-15 keeps January and February at 1200 and regenerates March at 1300 |
| DatabaseStore.RemoveLeavesDanglingHistory | internal/storage/databaseStore.go:553-582 | After a future-only removal the rule is gone but its past entries stay and still name it |
| JsonStore.FillExpense | internal/storage/jsonStore.go:316-321 | A fresh ID only when the ID is empty, now only when the date is zero, and every other field kept |
| JsonStore.HasIdStep | internal/storage/jsonStore.go:334-342 | Looking at one more expense finds the ID when that expense has it |
| JsonStore.KeepOthers | internal/storage/jsonStore.go:334-342 | The removal loop keeps exactly the expenses with another ID, in order, and reports whether any matched |
| JsonStore.RemovedNotFound | internal/storage/jsonStore.go:327-350 | After removal a lookup of the ID finds nothing, and every other expense is still there |
| JsonStore.RemoveShrinks | internal/storage/jsonStore.go:327-350 | Removal shortens the list exactly when some expense has the ID |
| JsonStore.ReplaceFirstThenFind | internal/storage/jsonStore.go:359-372 | After replacing the first match, a lookup finds the replacement at the same place and nothing else moved |
| JsonStore.Store.constructor | internal/storage/jsonStore.go:28-70 | A new store has the base config and no expenses |
| JsonStore.Store.WriteConfig | internal/storage/jsonStore.go:109-116 | The config file holds the new config, or a write that fails before the file is opened leaves it as it was |
| JsonStore.Store.WriteExpenses | internal/storage/jsonStore.go:87-94 | The expenses file holds the new list, or a write that fails before the file is opened leaves it as it was |
| JsonStore.Store.UpdateCategories | internal/storage/jsonStore.go:142-149 | Only the categories change, or a read error or a write that fails before the file is opened leaves the config |
| JsonStore.Store.UpdateCurrency | internal/storage/jsonStore.go:159-169 | An unsupported currency is refused before reading; otherwise only the currency changes |
| JsonStore.Store.UpdateStartDate | internal/storage/jsonStore.go:179-189 | A day outside 0..31 is refused before reading; otherwise only the start day changes |
| JsonStore.Store.UpdateTags | internal/storage/jsonStore.go:199-206 | Only the tags change |
| JsonStore.Store.UpdateDefaultTags | internal/storage/jsonStore.go:216-223 | Only the default tags change |
| JsonStore.Store.GetRecurringExpense | internal/storage/jsonStore.go:233-244 | The first rule with the ID, or not found when none has it |
| JsonStore.Store.AddRecurringExpense | internal/storage/jsonStore.go:246-256 | The rule is appended with a fresh ID when it has none, and no expense is generated |
| JsonStore.Store.RemoveRecurringExpense | internal/storage/jsonStore.go:258-267 | Every rule with the ID is dropped, and it succeeds even when none had it |
| JsonStore.Store.UpdateRecurringExpense | internal/storage/jsonStore.go:269-281 | The first matching rule is replaced; otherwise not found and nothing is written |
| JsonStore.Store.GetExpense | internal/storage/jsonStore.go:293-307 | The first expense with the ID, or not found |
| JsonStore.Store.AddExpense | internal/storage/jsonStore.go:309-325 | The filled expense is appended at the end and earlier entries are unchanged |
| JsonStore.Store.RemoveExpense | internal/storage/jsonStore.go:327-350 | As written: an empty list panics; otherwise every match is removed, or not found |
| JsonStore.Store.RemoveExpenseIntended | internal/storage/jsonStore.go:327-350 | Never panics: every match is removed and the list shrinks, or not found |
| JsonStore.Store.UpdateExpense | internal/storage/jsonStore.go:352-373 | Only the first match is replaced, the length is kept, or not found |
| StorageConfig.Validate | internal/storage/config.go:94-102 | The name is checked before the category; valid exactly when both are non-empty |
| StorageConfig.SetBaseConfig | internal/storage/config.go:104-110 | The ten default categories, "usd" (a supported currency), start day 1 and no tags |
| StorageConfig.BackendTypeFromEnv | internal/storage/config.go:119-131 | sqlite, postgres and mysql select their backend, and anything else selects JSON |
| StorageConfig.BackendURLFromEnv | internal/storage/config.go:133-145 | The file backends get their default path, and postgres and mysql get none |
| StorageConfig.BackendURLMatchesType | internal/storage/config.go:119-145 | The default location is a file path exactly for the file backends |
| AuthSessions.Manager.constructor | internal/auth/manager.go:63-71 | The manager holds the given fields and no session |
| AuthSessions.Manager.StartSession | internal/auth/manager.go:119-124 | Exactly one session is added, expiring one duration from now |
| AuthSessions.WithDefaults | internal/auth/manager.go:57-62 | The default cookie name when none is given, and 24 hours for a non-positive duration |
| AuthSessions.WithDefaultsIdempotent | internal/auth/manager.go:57-62 | Applying the defaults twice is applying them once |
| AuthSessions.NewManager | internal/auth/manager.go:49-72 | A blank trimmed user name, then an empty password, is refused; otherwise a valid manager with no session |
| AuthSessions.Authenticate | internal/auth/manager.go:103-127 | Wrong credentials leave the sessions; right ones add one session for the token, expiring after one duration |
| AuthSessions.Expired | internal/auth/manager.go:140 | A session is expired when now is strictly after its expiry |
| AuthSessions.ValidateToken | internal/auth/manager.go:130-147 | Unknown is unauthorized; expired is deleted and unauthorized; live gives its user and changes nothing |
| AuthSessions.Renew | internal/auth/manager.go:150-167 | A live session is extended to now plus the duration; expired is deleted; both failures are unauthorized |
| AuthSessions.Logout | internal/auth/manager.go:170-177 | The token is forgotten, and a nil manager does nothing |
| AuthSessions.StoredSessionLifetime | internal/auth/manager.go:119-124 | A stored session is live exactly until one duration later, and other tokens are untouched |
| AuthSessions.LogoutIdempotent | internal/auth/manager.go:170-177 | Logging out twice is logging out once, and other sessions stay |
| AuthSessions.ParseBoolEnv | internal/auth/manager.go:244-251 | True exactly for 1, true, yes and on, in any case and with any surrounding space |
| AuthSessions.TruthyWordsAreLowerCase | internal/auth/manager.go:245-246 | The four truthy words are already lower case |
| AuthSessions.ParseBoolEnvUpperCase | internal/auth/manager.go:244-251 | "TRUE" reads as true |
| AuthSessions.ParseBoolEnvFalse | internal/auth/manager.go:244-251 | "false" reads as false |
| AuthSessions.ParseDurationHours | internal/auth/manager.go:253-262 | 24 hours for empty, non-integer or non-positive input; otherwise the hours times one hour, wrapped to 64 bits |
| AuthSessions.ParseDurationHoursWrapsShort | internal/auth/manager.go:261 | 5124096 hours wraps to about 25 minutes |
| AuthSessions.ParseDurationHoursWrapsNegative | internal/auth/manager.go:261 | 2562048 hours wraps to a negative duration |
| AuthSessions.EffectiveDurationOfWrapped | internal/auth/manager.go:60-61 | Once the manager settles its options, 5124096 hours still gives about 25 minutes, and 2562048 hours gives the 24-hour default |
| AuthSessions.WrapExamples | internal/auth/manager.go:261 | The two 64-bit wrap-arounds of the examples |
| AuthSessions.ParseDurationHoursSaturating | internal/auth/manager.go:253-262 | As intended: always positive, with too large an hour count held at the largest duration |
| AuthSessions.SaturatingIsMonotone | internal/auth/manager.go:253-262 | With saturation, more hours never give a shorter session |
| JwtAuth.ExtractToken | internal/auth/jwt_manager.go:129-139 | Non-empty exactly when the header has two fields and the first is Bearer in any case, and then it is the second field |
| JwtAuth.ExtractTokenRoundTrip | internal/auth/jwt_manager.go:129-139 | "Bearer <token>" gives the token back |
| JwtAuth.NewJwtManager | internal/auth/jwt_manager.go:42-58 | A blank secret, then a missing Redis client, is refused; a non-positive expiry becomes 24 hours |
| JwtAuth.TokenRoleNormalised | internal/auth/jwt_manager.go:65-68 | A token's role is non-empty, trimmed and lower case |
| JwtAuth.TokenRoleIdempotent | internal/auth/jwt_manager.go:65-68 | Normalising a role twice is normalising it once |
| JwtAuth.NumericDate | internal/auth/jwt_manager.go:73-74 | A clock reading is rounded down to its second |
| JwtAuth.GenerateClaims | internal/auth/jwt_manager.go:61-76 | An empty user ID is refused; the claims name the user and the normalised role; the expiry is the first reading plus the expiry period, the issue instant the second reading, each rounded down to the second |
| JwtAuth.TokenLifetime | internal/auth/jwt_manager.go:73-74 | With one reading, exp - iat is within a second of the expiry period, and equal to it for a whole number of seconds |
| JwtAuth.SubSecondExpiryExample | internal/auth/jwt_manager.go:73-74 | A 200 ms expiry at 1.9 s gives iat 1 s and exp 2 s |
| JwtAuth.Generate | internal/auth/jwt_manager.go:61-86 | An empty user ID, then a signing error (passed on as it is), then a failed Redis write ("failed to persist session: ...") is an error; otherwise the signed token, with Redis now mapping it to the user and every other key unchanged |
| JwtAuth.GenerateStoresSession | internal/auth/jwt_manager.go:61-115 | A token Generate issued validates, against the Redis contents Generate left, to its user and normalised role |
| JwtAuth.Validate | internal/auth/jwt_manager.go:89-115 | Accepted exactly when the token is non-empty and verifies and Redis holds its subject; every refusal is unauthorized |
| JwtAuth.GenerateThenValidate | internal/auth/jwt_manager.go:61-115 | A generated token validates to its user and normalised role |
| JwtAuth.ValidateRejectsOtherUser | internal/auth/jwt_manager.go:107-113 | A Redis value other than the subject is refused |
| JwtAuth.WithUser | internal/auth/jwt_manager.go:142-144 | The context carries the user |
| JwtAuth.UserFromContext | internal/auth/jwt_manager.go:147-157 | Usable exactly when a user with a non-empty ID is present; otherwise the zero user |
| JwtAuth.UserRoundTrip | internal/auth/jwt_manager.go:142-157 | The user a middleware stores is the user a handler reads back |
| UserService.SanitizeName | internal/user/service.go:69-71 | The name is trimmed, and empty exactly when blank |
| UserService.NormalizeEmail | internal/user/service.go:87 | The stored email is no longer than the given one and has no surrounding white space |
| UserService.NormalizeEmailIsNormal | internal/user/service.go:87 | A stored email has no upper-case letter, and normalising it again changes nothing |
| UserService.NormalizeRole | internal/user/service.go:73-84 | Blank gives "user"; any case and spacing of admin or user gives the lower-case name; anything else is an invalid role |
| UserService.RoleNameIsNormal | internal/user/service.go:78-83 | The two role names are already normalised |
| UserService.NormalizeRoleIdempotent | internal/user/service.go:73-84 | An accepted role is accepted again unchanged |
| UserService.FindByEmail | internal/user/service.go:191-205 | A row with that email, and bad credentials exactly when none has it |
| UserService.FindById | internal/user/service.go:207-221 | A row with that ID, and not found exactly when none has it |
| UserService.FindByEmailUnique | internal/user/service.go:191-205 | With unique emails the row found is the one that has the email |
| UserService.Authenticate | internal/user/service.go:126-139 | A blank email or empty password is refused; an unknown email and a wrong password both give bad credentials |
| UserService.AuthenticateStored | internal/user/service.go:126-139 | With unique emails a login succeeds exactly with the stored password |
| UserService.OnlyStoredPasswordLogsIn | internal/user/service.go:133-137 | Once one password logs in, every other non-empty one is refused |
| UserService.SetPassword | internal/user/service.go:223-238 | Only the matching rows' hash and update time change |
| UserService.SetRole | internal/user/service.go:262-277 | Only the matching rows' role and update time change |
| UserService.NewPasswordAuthenticates | internal/user/service.go:142-161 | After a password change the new password logs in and every other fails |
| UserService.BuildUser | internal/user/service.go:103-118 | The new row, built field by field, is the row `Register` inserts |
| UserService.NewUserNames | internal/user/service.go:107-118 | A new row's names are trimmed, and blank ones become "Expense" and "Owl" |
| UserService.AppendKeepsValid | internal/user/service.go:177-189 | Appending a row with a new ID and a new normalised email keeps the table valid |
| UserService.NoClashIsFresh | internal/user/service.go:177-189 | No clash means no row shares the ID or the email |
| UserService.AppendKeepsEmailsNormal | internal/user/service.go:177-189 | Appending a normalised email keeps every email normalised |
| UserService.SameKeysKeepValid | internal/user/service.go:223-277 | Rewriting rows without touching IDs or emails keeps the table valid |
| UserService.SetPasswordKeepsValid | internal/user/service.go:223-238 | A password change keeps the table valid |
| UserService.SetRoleKeepsValid | internal/user/service.go:262-277 | A role change keeps the table valid |
| UserService.PaddedPasswordPassesChecks | internal/user/service.go:88-95 | A padded password passes the trimmed checks but is not the value hashed |
| UserService.Service.constructor | internal/user/service.go:177-189 | An empty, valid users table |
| UserService.Service.Register | internal/user/service.go:86-123 | A blank email or password is invalid arguments; then a short trimmed password, a hashing failure, an unknown role and a taken email or ID give their errors, in that order, each leaving the table unchanged; success exactly when none applies appends the new row, and the typed password does not log in when padding was trimmed |
| UserService.Service.RegisterIntended | internal/user/service.go:86-123 | As intended: the same errors in the same order, and the password as typed logs in to the new row |
| UserService.Service.Create | internal/user/service.go:87-122 | Invalid arguments, short password, hashing failure, invalid role and taken email or ID, each guarded by the earlier checks passing; otherwise one appended row that authenticates with its credential |
| UserService.Service.UpdatePassword | internal/user/service.go:142-161 | An empty new password is refused first, the current password is checked before the new one's length, and only the hash changes |
| UserService.Service.UpdateRole | internal/user/service.go:169-175 | An invalid role, then an unknown ID, is refused; otherwise only the role changes |
| TelegramLinks.NullToPtr | internal/integrations/telegram/service.go:336-350 | Nil exactly when not valid, otherwise the value |
| TelegramLinks.NormalizeLabel | internal/integrations/telegram/service.go:56-63 | Trimmed, "Default" when blank, cut to 100 characters |
| TelegramLinks.AlphabetIsCodeChars | internal/integrations/telegram/service.go:289 | The alphabet has 32 code characters |
| TelegramLinks.RandomCode | internal/integrations/telegram/service.go:288-298 | A read failure is an error; otherwise each byte becomes the alphabet symbol it selects modulo 32 |
| TelegramLinks.MapToSymbols | internal/integrations/telegram/service.go:294-296 | Each byte of the buffer is replaced in place by its symbol |
| TelegramLinks.Symbol | internal/integrations/telegram/service.go:295 | The symbol is the alphabet entry at the byte modulo 32 |
| TelegramLinks.HexEncode | internal/integrations/telegram/service.go:305 | Two lower-case digits per byte, high half first |
| TelegramLinks.HexDecode | internal/integrations/telegram/service.go:305 | A decoded string has half as many bytes as digits |
| TelegramLinks.HexRoundTrip | internal/integrations/telegram/service.go:305 | Decoding the hexadecimal form gives the bytes back |
| TelegramLinks.RandomToken | internal/integrations/telegram/service.go:300-306 | A read failure is an error; otherwise 2n lower-case digits that decode to the random bytes |
| TelegramLinks.NormalizeCode | internal/integrations/telegram/service.go:109 | The code looked for is no longer than the one given and has no surrounding white space |
| TelegramLinks.NormalizeCodeIdempotent | internal/integrations/telegram/service.go:109 | A normalised code is left alone by normalising it again |
| TelegramLinks.IssuedCodeIsAccepted | internal/integrations/telegram/service.go:109-112 | A code `randomCode` made is accepted as typed, in either case |
| TelegramLinks.ILike | internal/integrations/telegram/service.go:122 | The empty string matches exactly the patterns made only of `%` |
| TelegramLinks.ILikeLiteral | internal/integrations/telegram/service.go:122 | Without wildcards, ILIKE is equality up to case |
| TelegramLinks.ILikePercent | internal/integrations/telegram/service.go:122 | The pattern "%" matches every string |
| TelegramLinks.PercentIsNormal | internal/integrations/telegram/service.go:109-112 | "%" survives code normalisation |
| TelegramLinks.Selects | internal/integrations/telegram/service.go:122-124 | The update only selects pending rows: with a code, not revoked and without a chat |
| TelegramLinks.Linked | internal/integrations/telegram/service.go:116-121 | A paired row has the chat, the handle or NULL, both instants and no code; its identity is unchanged |
| TelegramLinks.LinkAll | internal/integrations/telegram/service.go:114-125 | Every selected row is paired and every other row is unchanged |
| TelegramLinks.WildcardPairsEveryPendingLink | internal/integrations/telegram/service.go:122 | As written, the code "%" pairs every pending link with the chat |
| TelegramLinks.ExactPairsOnlyItsCode | internal/integrations/telegram/service.go:122 | Matching exactly, only a row whose own code was given is paired |
| TelegramLinks.ExactRefusesWildcard | internal/integrations/telegram/service.go:122 | Matching exactly, "%" pairs no link with a generated code |
| TelegramLinks.SelectorsAgree | internal/integrations/telegram/service.go:122 | For a code without wildcard characters the two selections agree |
| TelegramLinks.LinkTable.constructor | internal/integrations/telegram/service.go:22-34 | An empty links table |
| TelegramLinks.LinkTable.IssueLink | internal/integrations/telegram/service.go:52-105 | A nil user is refused; otherwise a pending link with the normalised label, a code and a token is inserted, or nothing changes |
| TelegramLinks.LinkTable.CompleteLink | internal/integrations/telegram/service.go:108-151 | As written: an empty code is refused; every pending link the code matches as an ILIKE pattern is paired |
| TelegramLinks.LinkTable.CompleteLinkIntended | internal/integrations/telegram/service.go:108-151 | As intended: only links whose code equals the given one up to case are paired |
| TelegramLinks.LinkTable.Complete | internal/integrations/telegram/service.go:108-151 | No selected row is not found; a unique-constraint clash is already linked; otherwise all selected rows are paired |
| TelegramLinks.SanitizeLink | internal/integrations/telegram/service.go:309-334 | The six base fields always; the three instants only when set; the token only with secrets, and the code only with secrets and when valid |
| TelegramLinks.AddInstants | internal/integrations/telegram/service.go:318-326 | Each instant is added exactly when it is set, and the base fields are kept |
| TelegramLinks.AddSecrets | internal/integrations/telegram/service.go:327-332 | The code only when valid, the token always, and the base fields kept |
| WebEmbed.AppRoutesAreNotAssets | internal/web/embed.go:78-93 | "", "table" and "settings" are not asset paths |
| WebEmbed.IsAssetPath | internal/web/embed.go:78-93 | An asset path is non-empty and starts with neither a slash nor a dot |
| WebEmbed.Split | internal/web/embed.go:96 | A path splits into at least one element, and none holds a slash |
| WebEmbed.Clean | internal/web/embed.go:96 | A cleaned path is never empty |
| WebEmbed.StepKeepsTidy | internal/web/embed.go:96 | One cleaning step keeps the kept elements tidy |
| WebEmbed.ResolveKeepsTidy | internal/web/embed.go:96 | Cleaning keeps no empty or "." element, and ".." only in a leading run |
| WebEmbed.SplitOfWord | internal/web/embed.go:96 | A word without slashes joins the first element |
| WebEmbed.SplitJoin | internal/web/embed.go:96 | Splitting joined elements gives them back |
| WebEmbed.FirstElemIsPrefix | internal/web/embed.go:97 | The first element is the text before the first slash |
| WebEmbed.FirstElemEmpty | internal/web/embed.go:97 | The first element is empty exactly for an empty or rooted path |
| WebEmbed.FirstElemDotDot | internal/web/embed.go:97 | The first element is ".." exactly for ".." or a path under "../" |
| WebEmbed.CleanGuard | internal/web/embed.go:96-103 | The guard lets through exactly the valid names below the root, plus "..", which Open refuses |
| WebEmbed.ValidPath | internal/web/embed.go:100-103 | A name `fs.ValidPath` accepts is neither empty nor "..", and starts with neither "/" nor "../" |
| WebEmbed.Ext | internal/web/embed.go:114 | The extension is empty or a dot-started suffix of the last element with no other dot |
| WebEmbed.FallbackType | internal/web/embed.go:116-133 | The fixed table for .js, .css, .json, .svg, .woff and .woff2, else application/octet-stream |
| WebEmbed.ContentType | internal/web/embed.go:114-133 | The MIME table's non-empty entry, else the fallback |
| WebEmbed.ServeDistFile | internal/web/embed.go:95-137 | "." and paths under "../" are refused, as are invalid names, missing files and directories; otherwise the file and its content type |
| WebEmbed.CleanOfName | internal/web/embed.go:96 | A plain file name cleans to itself |
| WebEmbed.IndexIsName | internal/web/embed.go:61-64 | index.html is a plain file name |
| WebEmbed.Serve | internal/web/embed.go:49-51 | A file that can be served is served under its cleaned name, inside the tree and with its content type; otherwise the handler's own error response |
| WebEmbed.ServeSpa | internal/web/embed.go:54-76 | Only GET; routes and non-assets get index.html; an asset is served or 404, never index.html |
| WebEmbed.ServeAsset | internal/web/embed.go:39-52 | Only GET; an empty path is 404, as is a file that cannot be served |
| WebEmbed.SpaServesInside | internal/web/embed.go:54-76 | ServeSPA serves only files inside the tree |
| WebEmbed.AssetServesInside | internal/web/embed.go:39-52 | ServeAsset serves only files inside the tree |
| FrontendUtils.Entity | frontend/src/lib/utils.js:131-136 | An entity has no raw markup character, and a plain character stands for itself |
| FrontendUtils.Escape | frontend/src/lib/utils.js:133-135 | Escaped text has no raw `< > ' "` and is no shorter |
| FrontendUtils.EscapeHtml | frontend/src/lib/utils.js:131-136 | A non-string comes back as it is; a string is escaped |
| FrontendUtils.EscapePlain | frontend/src/lib/utils.js:131-136 | Text without the five special characters is unchanged |
| FrontendUtils.UnescapeEntity | frontend/src/lib/utils.js:131-136 | An entity reads back as its character |
| FrontendUtils.UnescapeEscape | frontend/src/lib/utils.js:131-136 | Escaped text reads back as the original |
| FrontendUtils.StartDay | frontend/src/lib/utils.js:100-104 | The period start day is min(startDate, days in the month) |
| FrontendUtils.PeriodStart | frontend/src/lib/utils.js:103-115 | A period starts at midnight on the clamped start day |
| FrontendUtils.CalendarMonth | frontend/src/lib/utils.js:94-98 | With start day 1 the period is the 1st at 00:00 to the last day at 23:59:59.999 |
| FrontendUtils.MonthBoundsContain | frontend/src/lib/utils.js:92-119 | The period starts this month or the month before, ends the day before the next start, and contains the date |
| FrontendUtils.MonthBounds | frontend/src/lib/utils.js:92-119 | The period begins at midnight of a period start day and ends at 23:59:59.999 |
| FrontendUtils.JsDate | frontend/src/lib/utils.js:125-128 | `new Date(exp.date)` keeps the day and cuts the time to the millisecond below it; a millisecond date is unchanged |
| FrontendUtils.JsDateMonotone | frontend/src/lib/utils.js:125-128 | Cutting to the millisecond keeps the order of dates |
| FrontendUtils.Insert | frontend/src/lib/utils.js:128 | An insertion step keeps the elements |
| FrontendUtils.InsertDescending | frontend/src/lib/utils.js:128 | An insertion step keeps the order |
| FrontendUtils.SortBy | frontend/src/lib/utils.js:128 | Sorting is a permutation |
| FrontendUtils.SortIsDescending | frontend/src/lib/utils.js:128 | Sorting orders largest key first |
| FrontendUtils.InsertKeepsTies | frontend/src/lib/utils.js:128 | An inserted element goes before the elements of equal key |
| FrontendUtils.SortByStable | frontend/src/lib/utils.js:128 | Elements of equal key keep their input order |
| FrontendUtils.SortNewestFirst | frontend/src/lib/utils.js:128 | Newest first by the millisecond `Date`, and a permutation |
| FrontendUtils.SortNewestFirstStable | frontend/src/lib/utils.js:128 | Expenses in the same millisecond keep their list order |
| FrontendUtils.MonthExpenses | frontend/src/lib/utils.js:121-129 | The expenses whose millisecond date is in the period, newest first |
| FrontendUtils.MonthExpensesMembers | frontend/src/lib/utils.js:121-129 | An expense is listed exactly when start <= new Date(date) <= end, the date cut to the millisecond |
| FrontendUtils.NewestFirstByDate | frontend/src/lib/utils.js:128 | Newest first by key is newest first by millisecond date; a later entry is older or in the same millisecond |
| FrontendUtils.LastSubMillisecondListed | frontend/src/lib/utils.js:121-129 | An expense at 23:59:59.9995 on the last day of the period is listed |
| AppState.ReadOk | frontend/src/stores/appState.js:55-79 | The body only of an ok reply; otherwise the rejection or the not-ok error |
| AppState.Store.IsAdmin | frontend/src/stores/appState.js:93-95 | Admin exactly when the user is an object whose role is the string "admin"; no user is not an admin |
| AppState.Normalize | frontend/src/stores/appState.js:59-63 | The array itself, else its `expenses` array, else nothing |
| AppState.AddIfAbsent | frontend/src/stores/appState.js:97-101 | The value is present afterwards, the list only grows, and a present value changes nothing |
| AppState.AddIfAbsentNoDuplicates | frontend/src/stores/appState.js:97-101 | Adding never introduces a duplicate |
| AppState.Distinct | frontend/src/stores/appState.js:24 | No longer than its input |
| AppState.DistinctMembers | frontend/src/stores/appState.js:24 | The distinct values are exactly the input values |
| AppState.DistinctNoDuplicates | frontend/src/stores/appState.js:24 | Each value appears once |
| AppState.FirstIndex | frontend/src/stores/appState.js:24 | The first position of a value |
| AppState.FirstIndexUnique | frontend/src/stores/appState.js:24 | Any position with no earlier occurrence is the first |
| AppState.DistinctInOrder | frontend/src/stores/appState.js:24 | Values are listed in the order of their first occurrences |
| AppState.AllTagsMembers | frontend/src/stores/appState.js:17-25 | A tag is listed exactly when some expense's tag array holds it |
| AppState.ExtractStep | frontend/src/stores/appState.js:19-23 | One more expense read without throwing adds its tags |
| AppState.AddTags | frontend/src/stores/appState.js:21-22 | Adding a tag array to the set gives the distinct tags seen so far |
| AppState.AddExpenseTags | frontend/src/stores/appState.js:19-23 | One outer step adds an expense's array tags |
| AppState.ExtractTags | frontend/src/stores/appState.js:17-25 | Throws exactly on a null expense; otherwise every array tag once, in first-seen order |
| AppState.ExtractedTags | frontend/src/stores/appState.js:17-25 | The extracted tags have no duplicates and are exactly the tags of array-valued `tags` fields |
| AppState.Store.constructor | frontend/src/stores/appState.js:4-15 | Every field at its initial value, and the stored theme or the default |
| AppState.Store.LoadSession | frontend/src/stores/appState.js:27-31 | The session user or the error, with nothing else changed |
| AppState.Store.RefreshExpenses | frontend/src/stores/appState.js:55-65 | The normalised list replaces the expenses and the tags are recomputed from it; a null expense fails with a type error after the list is stored and before the tags are |
| AppState.Store.RefreshRecurringExpenses | frontend/src/stores/appState.js:67-79 | A not-ok response empties the list without throwing; ok gives the normalised list |
| AppState.Store.LoadInitialData | frontend/src/stores/appState.js:33-53 | Nothing while loading or once initialised; otherwise the four loads in order, stopping at the first error with that load's error: a failed session load changes nothing, a failed configuration fetch keeps the user it set, and a failed expenses or recurring load keeps the user and configuration already set; `loading` is always cleared and `initialized` set exactly when all succeed |
| AppState.Store.ResetState | frontend/src/stores/appState.js:81-91 | Every field but the theme back to its initial value, and the user is no admin |
| AppState.Store.AddCategoryLocally | frontend/src/stores/appState.js:97-101 | The category is added when absent, and nothing else changes |
| AppState.CurrencyOf | frontend/src/stores/appState.js:43 | The currency is never empty |
| AppState.CategoriesOf | frontend/src/stores/appState.js:42 | The configured categories, or none when the configuration has none |
| AppState.StartDateOf | frontend/src/stores/appState.js:44 | The start day is never 0 |
| AppState.AddCategoryIdempotent | frontend/src/stores/appState.js:97-101 | Adding a category twice adds it once |
| CipherStore.NonBlank | frontend/src/lib/cipher.js:8-29 | A passphrase exactly when not blank, and then trimmed and non-empty |
| CipherStore.StoredCipher | frontend/src/lib/cipher.js:8-13 | The stored entry trimmed, null when missing or blank |
| CipherStore.CipherValue | frontend/src/lib/cipher.js:20-22 | The trimmed string, null for a blank string or a non-string |
| CipherStore.CipherCache.constructor | frontend/src/lib/cipher.js:1-6 | Nothing cached at page load |
| CipherStore.CipherCache.LoadFromStorage | frontend/src/lib/cipher.js:8-13 | Reads storage only when nothing is cached and there is storage |
| CipherStore.CipherCache.GetCipher | frontend/src/lib/cipher.js:15-18 | The cached passphrase, read from storage only when none is cached |
| CipherStore.CipherCache.SetCipher | frontend/src/lib/cipher.js:20-29 | Caches the trimmed passphrase; storage holds the key exactly when the cache is non-null, with the same value |
| CipherStore.CipherCache.ClearCipher | frontend/src/lib/cipher.js:31-36 | The cache is null and the key removed |
| CipherStore.CipherCache.SetThenGet | frontend/src/lib/cipher.js:15-29 | After setCipher(s), getCipher() is trim(s), or null when blank |
| CipherStore.CipherCache.ClearThenGet | frontend/src/lib/cipher.js:15-36 | After clearCipher(), getCipher() is null |
| EncryptionClient.UrlChar | frontend/src/lib/encryption.js:13 | The URL-safe alphabet has no '+', '/' or '=' |
| EncryptionClient.Sextets | frontend/src/lib/encryption.js:10-13 | A group of n bytes gives n + 1 six-bit values |
| EncryptionClient.MapUrl | frontend/src/lib/encryption.js:13 | Each value maps to its URL-safe character |
| EncryptionClient.Base64Url | frontend/src/lib/encryption.js:7-14 | Length ⌈4n/3⌉ and no '+', '/' or '=' |
| EncryptionClient.ReplaceAll | frontend/src/lib/encryption.js:13 | Each occurrence of the character is replaced and the rest kept |
| EncryptionClient.TrimPadding | frontend/src/lib/encryption.js:13 | A prefix that does not end in '=' |
| EncryptionClient.Swap | frontend/src/lib/encryption.js:13 | The replacements keep the length |
| EncryptionClient.SwapAppend | frontend/src/lib/encryption.js:13 | The replacements distribute over concatenation |
| EncryptionClient.TrimPaddingAfter | frontend/src/lib/encryption.js:13 | Trimming only touches the final run of '=' |
| EncryptionClient.GroupToUrlSafe | frontend/src/lib/encryption.js:13 | A standard group becomes the URL-safe group |
| EncryptionClient.PaddingToUrlSafe | frontend/src/lib/encryption.js:13 | The padding disappears |
| EncryptionClient.BtoaToUrlSafe | frontend/src/lib/encryption.js:8-13 | The replacements turn the standard encoding into unpadded base64url |
| EncryptionClient.UrlValue | frontend/src/lib/encryption.js:13 | A character's value maps back to the character |
| EncryptionClient.Values | frontend/src/lib/encryption.js:13 | One value per character, each below 64 |
| EncryptionClient.ValuesOfUrl | frontend/src/lib/encryption.js:13 | Reading URL-safe characters gives their values back |
| EncryptionClient.GroupBytes | frontend/src/lib/encryption.js:10-13 | k digits give k - 1 bytes |
| EncryptionClient.GroupBytesOfSextets | frontend/src/lib/encryption.js:10-13 | A group's digits give the group back |
| EncryptionClient.DecodeGroup | frontend/src/lib/encryption.js:7-14 | Decoding a group then the rest gives the group then the rest |
| EncryptionClient.Base64UrlRoundTrip | frontend/src/lib/encryption.js:7-14 | Decoding the encoding gives the bytes back |
| EncryptionClient.Base64UrlEncode | frontend/src/lib/encryption.js:7-14 | The loop and `btoa` with the replacements give unpadded base64url of length ⌈4n/3⌉ |
| EncryptionClient.SanitizePayload | frontend/src/lib/encryption.js:49-56 | Falsy or non-object input unchanged; an object without a top-level `blob` |
| EncryptionClient.SanitizeIdempotent | frontend/src/lib/encryption.js:49-56 | Sanitising twice is sanitising once |
| EncryptionClient.Plaintext | frontend/src/lib/encryption.js:58-67 | Never null or undefined, and an object has no `blob` |
| EncryptionClient.KeyCache.constructor | frontend/src/lib/encryption.js:4-5 | No passphrase or key cached |
| EncryptionClient.KeyCache.GetCryptoKey | frontend/src/lib/encryption.js:33-42 | Null without a passphrase; the cached derivation for the same passphrase; otherwise a new one that replaces the cache |
| EncryptionClient.KeyCache.KeyFor | frontend/src/lib/encryption.js:35-41 | The derivation for the passphrase, reused when cached and new otherwise |
| EncryptionClient.KeyCache.ResetEncryptionCache | frontend/src/lib/encryption.js:44-47 | Both caches are forgotten |
| EncryptionClient.KeyCache.EncryptPayload | frontend/src/lib/encryption.js:58-67 | Null exactly without a key; otherwise the key and the plaintext |
| EncryptionClient.KeyCache.DecryptPayload | frontend/src/lib/encryption.js:69-75 | Null without a key or with a falsy blob; otherwise the key and the blob |

## Left out

- Read-only getters of the database store are not modelled: `GetConfig`, `GetCategories`, `GetStartDate`, `GetAllExpenses`, `GetRecurringExpenses` and `GetRecurringExpense`. They return rows without changing them, and `GetCurrency` stands for them.
- The JSON store's getters are not modelled: `GetConfig`, `GetCategories`, `GetCurrency`, `GetStartDate`, `GetTags`, `GetDefaultTags`, `GetRecurringExpenses` and `GetAllExpenses`. Each returns one field of the file's content.
- Not modelled: the store constructors' connection setup, table creation, `Close` and the SQL text. The file-reading and JSON encoding code of the JSON store is also not modelled: a read or write fault is a parameter, and `json.Marshal` errors are not represented.
- JsonStore.Store.WriteConfig / WriteExpenses: `WriteFails` stands for a write that fails before the file is opened. `os.WriteFile` truncates the file first (jsonStore.go:93 and 115), so a failure after that leaves an empty or partial file; that outcome is not modelled.
- JsonStore.Store.UpdateCategories, and likewise UpdateCurrency, UpdateStartDate, UpdateTags, UpdateDefaultTags, AddRecurringExpense, RemoveRecurringExpense, UpdateRecurringExpense, AddExpense, RemoveExpense, RemoveExpenseIntended and UpdateExpense: "the file is unchanged on a failed write" holds only for a write that fails before the file is truncated; a later failure is not modelled.
- Unique constraints are a parameter or a uniqueness predicate over the modelled tables. A clash is reported as the database's error without its text, and wrapped error text (`%w`) is not reproduced; formatted values (`%d`) are.
- `DatabaseStore.Store.UpdateRecurringExpense` takes two clock readings (`deleteNow`, `generateNow`), as the source calls `time.Now()` twice. The single-reading case is covered by `SameInstantDuplicates`.
- Interval names are parsed at each step, as the source does; `CivilTime` has no time zones or daylight saving.
- Amounts are opaque values, copied and compared but never computed with, because float arithmetic is out of scope.
- Mutexes and concurrency are not modelled; each operation runs alone.
- The Telegram `ResolveChat`, `ResolveToken`, `List` and `Revoke` are not modelled. They are lookups and one update with no logic beyond the SQL.
- Text: a `char` stands for one byte of a Go string or one UTF-16 unit of a JavaScript string, so multi-byte text is not modelled. Go's `len` counts UTF-8 bytes (the password length check at internal/user/service.go:92, the label cut at internal/integrations/telegram/service.go:60-61), so in the source a password of three two-byte letters passes the six-character check.
- TelegramLinks.NormalizeLabel: the cut is at 100 `char`s, which are the source's 100 bytes for ASCII labels; a multi-byte character at the cut is not split as in the source.
- TelegramLinks.LinkTable.Complete: the `telegram_links` schema is not part of this model, so whether `chat_id` is unique is not known; a unique-constraint clash is the parameter `duplicate` and is not derived from the number of rows the update selects.
- TelegramLinks.ILike: a pattern ending in a lone backslash matches nothing; PostgreSQL raises an error instead.
- The auth manager's `NewManagerFromEnv` reads the environment and is not modelled; `ParseBoolEnv` and `ParseDurationHours` are.
- The auth manager's cookie helpers `SetSessionCookie`, `ClearSessionCookie` and the cookie `ExtractToken` are not modelled, nor is `generateToken`: the token is a parameter.
- JwtAuth: `Revoke`, `Require` and `RequireWithRefresh` are not modelled. Signing and verifying are parameters (`signed`, `parsed`); Redis is a map from keys to values, or the value looked up (`stored`). `Generate` takes two clock readings (`expiryNow`, `issueNow`), in nanoseconds since the Unix epoch, as the source calls `time.Now()` twice.
- JwtAuth.Generate: the expiry Redis gives the stored session (the token's own lifetime) is not modelled; a key stays in the map until removed.
- UserService: bcrypt is modelled as the identity (the hash is the password), so its 72-byte limit is not modelled; a hashing failure is a parameter. `List`, `list` and `Get` are not modelled.
- WebEmbed: `init` and `ServeTemplate` are not modelled. `io.Copy` and `Stat` errors are not modelled, nor is the UTF-8 check of `fs.ValidPath`.
- Text: trimming removes ASCII white space only. Unicode white space that Go's `TrimSpace` and JavaScript's `trim` also remove is not modelled.
- FrontendUtils.MonthBounds requires a start day from 1 to 31. The stored setting is always in that range (the JSON store also allows 0, which `config.startDate || 1` turns into 1).
- FrontendUtils.SortBy is an insertion sort; the browser's own array sort is not modelled, only its result (newest first, a permutation, stable).
- AppState: `apiFetch`'s handling of 401 replies is folded into a rejected reply; the theme read from `localStorage` is a constructor parameter; the JavaScript `Set` compares with equality on the modelled values rather than SameValueZero.
- CipherStore.CipherCache.Coherent assumes no other script writes the `localStorage` entry between calls.
- EncryptionClient: `deriveKey` (one SHA-256 digest of the passphrase, imported as an A256KW key) and the `jose` encryption are not modelled. A key derivation is a token naming its passphrase, and the payload and blob handed to `jose` are returned. The `JSON.parse(JSON.stringify(...))` copy in `sanitizePayload` is taken as the value itself.

## Findings

| source | as written | input that shows it | evidently intended | confidence | as-written member | corrected member |
|---|---|---|---|---|---|---|
| internal/storage/jsonStore.go:335 | `make([]*Expense, 0, len(data.Expenses)-1)` has capacity -1 when the file holds no expense, and Go panics | `RemoveExpense` of any ID on an empty expenses file | report the expense as not found | not executed | JsonStore.Store.RemoveExpense | JsonStore.Store.RemoveExpenseIntended |
| internal/auth/manager.go:261 | `time.Duration(hours) * time.Hour` wraps around in 64 bits | `SESSION_DURATION_HOURS` = 5124096 gives sessions of about 25 minutes; 2562048 wraps to a negative duration, which `NewManager` (lines 60-61) silently replaces with 24 hours | hold a too-large hour count at the largest duration | not executed | AuthSessions.EffectiveDurationOfWrapped | AuthSessions.SaturatingIsMonotone |
| internal/user/service.go:88 | `Register` checks and hashes the trimmed password, while `Authenticate` (line 135) compares the password as typed | registering with the password " secret1" stores "secret1"; logging in with " secret1" is refused | hash the password the user will type | not executed | UserService.Service.Register | UserService.Service.RegisterIntended |
| internal/integrations/telegram/service.go:122 | the code is matched with `ILIKE`, so `%` and `_` in it are wildcards | completing with the code "%" selects every pending link, of any user, so another user's pending link is paired with the caller's chat; with several pending links all are paired unless a unique index on `chat_id` makes the update fail as already linked | match the code exactly, up to case | not executed | TelegramLinks.WildcardPairsEveryPendingLink | TelegramLinks.ExactRefusesWildcard |
