# Device ledger backend — a Dafny model

This project models the data-handling core of a small warehouse backend.
The backend keeps three tables: `devices`, `trash` and `total`.

- `devices` is the live ledger. Each row records an owner, a date, a device
  name and model, a count, a project and a location.
- `trash` archives every deleted row.
- `total` holds one aggregate row per (name, model) pair:
  - `receivedcount` is the sum of counts for that name and model;
  - `HuYao` and `GDL` are the sums of counts for that *name* at the two
    sites of those names, whatever the model;
  - `NaQing` is `receivedcount - HuYao - GDL`.

Six HTTP endpoints are modelled as pure functions from a `State` (the
three tables plus the auto-increment counter) to an `Outcome`: a response
and the state afterwards.

- List devices and get totals: one `SELECT` each.
- Search: builds a `SELECT` text with placeholders from the query filters.
- Create: an `INSERT`, then a targeted `UPDATE total ... WHERE name = ? AND
  model = ?` meant for the new row's (name, model). It is issued with the
  seven values the handler passes for its six placeholders (see Findings).
- Delete: `SELECT` by id, `INSERT` into trash, `DELETE`, then the same
  targeted update, with the same seven values, for the deleted row.
- Recalculate all: one bulk `UPDATE total` that recomputes every row.

Every database call is a numbered step. A `Fault` parameter says which step,
if any, fails. A failed step answers `Error(step)` and leaves the effects of
the earlier steps in place, because the handlers never roll back.

Modules:

- `Wrappers` (`wrappers.dfy`): `Option`.
- `Tables` (`tables.dfy`): rows, lookup and delete by id.
- `Search` (`search.dfy`):
  - the statement builder;
  - a parser that reads the built text back into its clauses;
  - `LIKE` matching;
  - the meaning of the built statement.
- `Totals` (`totals.dfy`):
  - the `SUM` scopes;
  - the four-assignment SET list under both evaluation orders;
  - the positional binding of the targeted `UPDATE`'s values, both as the
    handlers write them and as evidently intended;
  - the targeted and the bulk `UPDATE`.
- `Ledger` (`ledger.dfy`): the state, the fault oracle, the six endpoints
  and the lemmas that relate them.

## Assumptions

- **SET evaluation order.** MySQL evaluates the assignments of a
  single-table `UPDATE ... SET` from left to right. `NaQing = receivedcount -
  HuYao - GDL` therefore reads the values assigned just before it, in the
  same statement. `Totals.AssignInOrder` models that order. Standard SQL
  instead evaluates every right-hand side against the old row
  (`Totals.AssignAtOnce`). `Totals.SetListAtOnce` shows that under that
  reading the residual would be stale.
- **Positional binding.** `db.query(text, values)` is taken to fill the
  `?` of the text by position: the i-th value goes to the i-th `?`, and
  values beyond the last `?` are dropped. This is how the MySQL client
  libraries for Node format a query on the client side. The `./db` module,
  which would name the library, is not part of this model.
  `Totals.BindPositional` states the rule.
- **HuYao and GDL scope.** The `HuYao` and `GDL` sums are scoped by name
  only, while `receivedcount` is scoped by name and model. The model keeps
  that asymmetry as the code has it. As a result, even with the intended
  value list, inserting a device of one model can make the totals row of
  another model with the same name stale (`Ledger.CreateConsistency`).
- **A three-insert example.** Take a ledger with no Router device and
  zeroed `total` rows for Router/X1 and Router/X2. Insert an `X1` router
  (5 at HuYao), an `X1` router (3 at GDL) and an `X2` router (2 at HuYao).
  As written, the targeted updates rewrite only rows keyed (Router,
  Router), so both rows stay at 0/0/0/0 (`Ledger.RouterScenario`). With
  the intended value list, X1 would read 8/5/3/0 and X2 2/7/3/-8, because
  the `X2` insert refreshes only the `X2` row
  (`Ledger.RouterScenarioIntended`). Either way, the bulk recalculation
  brings X1 to 8/7/3/-2 and X2 to 2/7/3/-8.
- **Counts and dates.** `count` is an unbounded `int`: the code does not
  validate it, so negative counts are allowed. `date` is an opaque string,
  compared for equality.

## Model

| member | source | states |
|---|---|---|
| Tables.Lookup | backend/index.js:79-86 | The lookup by id finds a row exactly when a row with that id exists, and the row it finds is in the table and carries that id |
| Tables.RemoveId | backend/index.js:97 | After the delete by id, a row remains exactly when it was in the table with a different id. The table never grows, and a table without the id is unchanged |
| Tables.RemoveIdKeepsUnique | backend/index.js:97 | Deleting by id keeps ids unique |
| Tables.LookupAfter | backend/index.js:79-86 | Rows before the first row with the id do not affect the lookup |
| Tables.RemoveIdAppend | backend/index.js:97 | The delete by id acts row by row: deleting from a concatenation is concatenating the deletions |
| Search.BuildQuery | backend/index.js:145-171 | The built statement has as many placeholders as bound values. Its text parses back to one clause per column whose filter is truthy, in the order owner, date, name, model, project, location, each with the comparison the handler writes for that column. The value bound to each clause is the raw date, or the filter wrapped in `%` for the LIKE columns |
| Search.ClauseOrder | backend/index.js:145-171 | The clauses read from the statement appear in the fixed column order. A column has a clause if and only if its filter is truthy. The date clause compares with `=` and every other clause with `LIKE` |
| Search.NoFiltersGiveBaseQuery | backend/index.js:145-146 | When no filter is truthy, the statement is the base `SELECT ... WHERE 1=1` with no values, and every row satisfies it |
| Search.ParseRender | backend/index.js:148-171 | Reading a sequence of rendered clauses back yields the same clauses, columns and comparisons alike: the rendering is injective |
| Search.RenderParse | backend/index.js:148-171 | Any text that reads as a sequence of clauses is the rendering of the clauses it reads as |
| Search.StatementPlaceholders | backend/index.js:145-171 | A statement of the base query followed by rendered clauses has exactly one `?` per clause |
| Search.Like | backend/index.js:149-170 | `LIKE` with `%` as its wildcard: a pattern without `%` matches a string if and only if the string equals it |
| Search.Satisfies | backend/index.js:145-173 | A statement holds of a row only when its text parses and it has at least one bound value per `?`. Fewer values than placeholders never select a row |
| Search.SurplusValuesDropped | backend/index.js:145-173 | Values bound past the last `?` are dropped: appending them does not change which rows the statement holds of |
| Search.Select | backend/index.js:173-178 | A row is selected if and only if it is in the table and the statement holds of it |
| Search.LikePrefix | backend/index.js:149-150 | A pattern with a trailing `%` matches exactly the strings that start with the pattern's stem |
| Search.LikeContains | backend/index.js:149-150 | For a value without `%`, the pattern `%v%` matches a string if and only if the string contains `v` |
| Search.WildcardInFilter | backend/index.js:148-151 | A `%` inside a filter value is not escaped, so the filter `a%c` selects the owner `abc`, which does not contain `a%c` |
| Search.QueryMeansMatches | backend/index.js:145-171 | For `LIKE` filters without `%`, a row satisfies the built statement if and only if, for every truthy filter, the row's column contains the value (equals it, for the date) |
| Search.SelectMeansMatches | backend/index.js:145-178 | For `LIKE` filters without `%`, the search result holds exactly the table rows that match every truthy filter |
| Search.SelectAll | backend/index.js:145-146 | A statement that every row satisfies selects the whole table |
| Search.PresentOrdered | backend/index.js:148-171 | The columns that receive a clause keep the fixed order of the `if` chain |
| Totals.Recomputed | backend/index.js:42-57 | The recalculated row keeps the (name, model) it was computed for, and it balances: `receivedcount` equals `HuYao + GDL + NaQing` |
| Totals.RecomputedBounds | backend/index.js:42-56 | With no device of the row's name every column of the recalculated row is zero. With no negative count its three sums are non-negative |
| Totals.SumCount | backend/index.js:42-56 | `IFNULL(SUM(count), 0)` is zero when no row is in scope, and non-negative when every count is |
| Totals.SetListInOrder | backend/index.js:41-57 | Under left-to-right evaluation, the four assignments keep the row's key, write each sum from the values bound to its own sub-select, and write the residual of the three new sums |
| Totals.SetListRecomputes | backend/index.js:41-57 | When every sub-select is bound to the same (name, model), the SET list writes that key's recalculated row, under the updated row's own key |
| Totals.SetListAtOnce | backend/index.js:57 | Under simultaneous evaluation, `NaQing` would be the old row's residual. The result equals the recomputed row if and only if that old residual equals the new one |
| Totals.IssueTargeted | backend/index.js:39-59 | The targeted statement rewrites, through the SET list, exactly the rows keyed by the values bound to the WHERE's two `?`, leaves every other row as it was, and adds no row |
| Totals.TargetedValues | backend/index.js:60 | Bound by position, both value lists give the received sum the key's name and model, the HuYao and GDL sums the key's name, and the WHERE's `name = ?` the key's name. The WHERE's `model = ?` receives the key's name under the list as written, and the key's model under the intended list |
| Totals.TargetedUpdate | backend/index.js:39-60 | With the handler's seven values for six `?`, the WHERE binds (name, name): only rows keyed (name, name) are rewritten, with the sums for (name, model), and the row keyed (name, model) is untouched when the two differ. With the intended six values it is the intended targeted update |
| Totals.UpdateTotal | backend/index.js:39-59 | The evidently intended targeted update recomputes exactly the rows keyed by the given (name, model), leaves every other row as it was, and adds no row |
| Totals.WrittenIsIntendedWhenModelIsName | backend/index.js:60 | When the model equals the name, the value list as written binds the statement as intended |
| Totals.TargetedOverwrites | backend/index.js:39-60 | Issuing the targeted update a second time for the same key overwrites the first: the result depends only on the later device table, so the update is idempotent |
| Totals.UpdateAllTotals | backend/index.js:185-204 | The bulk update recomputes every row for its own (name, model), and adds no row |
| Totals.BulkIsTargetedForEveryRow | backend/index.js:185-204 | The bulk update equals the intended targeted update (`UpdateTotal`) applied once for each row's key |
| Totals.BulkMakesConsistent | backend/index.js:185-204 | After the bulk update every row agrees with the device table |
| Totals.ConsistentIsFixpoint | backend/index.js:185-204 | The bulk update leaves the totals unchanged if and only if they are already consistent |
| Totals.BulkIdempotent | backend/index.js:185-204 | Running the bulk update twice gives the same totals as running it once |
| Totals.UpdateEachRecalculates | backend/index.js:185-204 | Applying the intended targeted update (`UpdateTotal`) for a set of keys recalculates exactly the rows whose key is in the set |
| Totals.WrittenTargetedMissesRow | backend/index.js:39-60 | As the handlers issue it, the targeted update for the key of a stale row whose model differs from its name leaves that row as it was, while the bulk update changes it |
| Totals.BulkIsNotWrittenTargeted | backend/index.js:60 | For a zeroed Router/X1 row and one Router/X1 device of count 5, the targeted update as issued changes nothing, while the bulk update changes the row |
| Totals.SumAppend | backend/index.js:42-56 | The sums are additive over concatenated tables |
| Totals.SumWithoutId | backend/index.js:97-121 | Deleting a row with unique id lowers each sum by that row's contribution |
| Totals.InsertMoves | backend/index.js:30-57 | After an insert, each recomputed row moves by the new row's count in the columns whose scope it enters. It is unchanged if and only if the new row does not bear on it (same name, and same model or at one of the two sites) or counts zero |
| Totals.RemoveMoves | backend/index.js:97-121 | After a delete, each recomputed row moves down by the deleted row's count, with the same condition for staying unchanged |
| Ledger.ListDevices | backend/index.js:13-21 | Listing never changes the state. It answers the device table unless its one step fails |
| Ledger.GetTotals | backend/index.js:217-225 | Reading totals never changes the state. It answers the totals table unless its one step fails |
| Ledger.SearchDevices | backend/index.js:143-180 | Search never changes the state, and fails only when its one step fails. A successful answer holds exactly the devices of which the built statement holds. For `LIKE` filters without `%`, those are exactly the devices that match every truthy filter |
| Ledger.CreateDevice | backend/index.js:25-72 | The insert appends the new row under a fresh id and bumps the counter by one, and a failure of the insert changes nothing. A failure of the update keeps the insert but leaves the totals untouched. Success, if and only if neither step fails, returns the stored row with its id, and the totals are those of the targeted update issued with the given value list for that row's (name, model). Validity is preserved |
| Ledger.DeleteDevice | backend/index.js:75-140 | A missing id answers not-found and changes nothing. Each failing step leaves exactly the earlier steps applied: nothing, then the row archived to trash, then also deleted. Success, if and only if the id exists and no step fails, archives and deletes the row, and the totals are those of the targeted update issued with the given value list for the deleted row's (name, model). Validity is preserved |
| Ledger.RecalculateAll | backend/index.js:184-214 | On success, the totals keep their keys and become consistent with the devices, and the other tables are unchanged. On failure, nothing changes |
| Ledger.RecalculateAllIdempotent | backend/index.js:184-214 | Recalculating twice leaves the same state as recalculating once |
| Ledger.SearchWithoutFiltersIsList | backend/index.js:143-146 | A search with no truthy filter answers the same devices as the listing |
| Ledger.CreateThenDelete | backend/index.js:25-140 | Creating a row and then deleting it by its new id succeeds, with either value list. The device table is restored and the row is archived to trash. The totals are those of one targeted update for that (name, model) on the original devices. With the intended value list they are therefore unchanged when they were consistent |
| Ledger.CreateLeavesOwnRowStale | backend/index.js:39-60 | As written, when the model differs from the name, a create with a nonzero count leaves the new row's own (name, model) totals row as it was, so consistent totals become inconsistent |
| Ledger.CreateConsistencyAsWritten | backend/index.js:39-60 | As written, when no totals row is keyed (name, name), a create leaves the totals unchanged. From consistent totals they stay consistent if and only if the new row (nonzero count) bears on no totals row at all |
| Ledger.DeleteLeavesOwnRowStale | backend/index.js:103-124 | As written, when the model differs from the name, a delete with a nonzero count leaves the deleted row's own totals row as it was, so consistent totals become inconsistent |
| Ledger.DeleteConsistencyAsWritten | backend/index.js:103-124 | As written, when no totals row is keyed (name, name), a delete leaves the totals unchanged. From consistent totals they stay consistent if and only if the deleted row (nonzero count) bears on no totals row at all |
| Ledger.CreateConsistency | backend/index.js:39-59 | With the intended value list, from consistent totals, a create with a nonzero count keeps them consistent if and only if the new row bears on no totals row other than its own (name, model) |
| Ledger.DeleteConsistency | backend/index.js:103-123 | With the intended value list, from consistent totals, a delete with a nonzero count keeps them consistent if and only if the deleted row bears on no totals row other than its own (name, model) |
| Ledger.RouterScenario | backend/index.js:25-72 | As written, three router inserts (X1 with 5 at HuYao, X1 with 3 at GDL, X2 with 2 at HuYao) into zeroed X1 and X2 rows leave both rows at zero. After the bulk recalculation X1 reads 8/7/3/-2 and X2 2/7/3/-8 |
| Ledger.RouterScenarioIntended | backend/index.js:39-59 | With the intended value list, the same three inserts leave X1 at 8/5/3/0 and X2 at 2/7/3/-8, and the bulk recalculation brings X1 to 8/7/3/-2 |

## Findings

| source | as written | input that shows it | evidently intended | confidence | as-written member | corrected member |
|---|---|---|---|---|---|---|
| backend/index.js:60 and 124 | The targeted `UPDATE` has six `?` but is passed seven values, `[name, model, name, name, name, name, model]`. By position, the WHERE's `model = ?` receives the name and the last value is dropped, so only rows keyed (name, name) are rewritten | `total` holds the zeroed row (Router, X1) and no device is a Router. Create (Router, X1, count 5, at HuYao): the row stays 0/0/0/0, while its recalculation is 5/5/0/0. Likewise for the rest of the three-insert example | `[name, model, name, name, name, model]`, which rewrites the row keyed (name, model) with its recalculation | high, not executed | Totals.TargetedUpdate, Totals.WrittenTargetedMissesRow, Totals.BulkIsNotWrittenTargeted, Ledger.CreateLeavesOwnRowStale, Ledger.DeleteLeavesOwnRowStale, Ledger.RouterScenario | Totals.UpdateTotal, Ledger.CreateConsistency, Ledger.DeleteConsistency, Ledger.RouterScenarioIntended |

## Left out

- Express setup, CORS, static files and the listening port (lines 1-10 and 228-231): these are plumbing with no data logic.
- The `./db` module and the MySQL connection. Each `db.query` is one numbered step whose failure the `Fault` parameter decides.
- Logging and the HTTP status texts. Responses are reduced to `Ok(value)`, `NotFound` and `Error(step)`.
- The order of result rows. Tables are sequences in insertion order, and SQL promises no order for a `SELECT` without `ORDER BY`.
- Ledger.SearchDevices: states which rows are selected, not the order or multiplicity of the answer, because SQL promises no order. Its reading as substring matches is stated only for `LIKE` filters without `%`; with a `%`, the answer is stated through the built statement alone.
- Search.QueryMeansMatches: requires the five `LIKE` filter values to be free of `%`, because an unescaped `%` widens the match (shown by `Search.WildcardInFilter`). The date filter may hold any text.
- String comparison. `=` and `LIKE` are modelled as exact, case-sensitive comparisons of character sequences. MySQL's default collations fold case and accents, `=` under a PAD SPACE collation ignores trailing spaces, `LIKE` treats `_` as a one-character wildcard and `\` as its escape character, and none of this is modelled. This affects the name, model and location `=` tests of the totals updates (lines 45-55, 58, 109-122 and 191-201), the date `=` of the search (line 153) and the search's `LIKE` clauses.
- Search.Satisfies: a statement with fewer values than `?` leaves a literal `?` in the SQL text, which the store rejects as a syntax error; here such a statement holds of no row. The search handler never builds one (`Search.BuildQuery` pairs each `?` with one value).
- Express's parsing of repeated or nested query parameters into arrays or objects. Each filter is an optional string, and truthiness is "present and non-empty".
- Type coercion of request fields. Body fields are taken as given (count an `int`, the others strings), and the path id is taken as an integer.
- How MySQL generates `insertId`. The model uses an auto-increment counter, and only the freshness of the id is relied on. A failed insert does not consume an id here, while MySQL may consume one.
- Ledger.CreateConsistencyAsWritten: states the as-written create's effect on consistency only when `total` has no row keyed (name, name); such a row is rewritten with the sums of another model, and the model does not characterise when that leaves it consistent.
- Ledger.DeleteConsistencyAsWritten: the same restriction, for the delete.
- Concurrency. Two requests whose steps interleave are not modelled; each request runs its steps in sequence on one state.
