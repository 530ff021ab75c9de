# Bill splitter: a Dafny model

This project models the one piece of business logic in the bill-splitter web
service (`app.py`):

- **Split calculator** (`calculate_bill`). Every named person starts at 0.
  For each dish, the eater list is looked up by dish name, and the price is
  divided by the length of that list. Each occurrence of a known person in the
  list is credited with that part. The grand total is the sum of all prices.
- **Bill store** (the process-wide `bills` dictionary). A calculation stores
  its result list, rounded total and creation timestamp under a bill id. A
  second write under the same id replaces the first.
- **Text export** (`download_bill`). An unknown id yields "Bill not found"
  with status 404. A known id yields a fixed layout: a header, a `Created:`
  line, one `name: THB amount` line per stored result in stored order, a
  total line and a footer.

Files and modules:

| file | module | contents |
|---|---|---|
| `types.dfy` | `BillTypes` | dishes as they arrive (`RawDish`, with each field `Absent`, `Malformed` or `Given`), validated `Dish`, `PersonTotal`, `Calculation`, `BillRecord`, the error kinds `CalcError`, `Reply` |
| `calculator.dfy` | `SplitCalculator` | the specification functions (`Validate`, `Share`, `GrandTotal`, `Dedup`, `Totals`, `Calculate`) and the accumulation loop as methods (`ComputeTotals`, `AddDish`, `CreditEaters`) proved against them |
| `calculator_properties.dfy` | `SplitProperties` | lemmas about the calculator and worked examples |
| `export.dfy` | `BillExport` | the text layout (`ExportText`) and lemmas about its shape |
| `store.dfy` | `BillService` | class `BillStore` with the `bills` map, the calculation handler `CalculateBill` and the download handler `Download`, whose loop builds the text line by line |

Money is an exact `real`. The server rounds with `round(x, 2)` and prints with
`:.2f`; both are passed in as functions (`round2`, `fmt`), so the model fixes
neither a rounding mode nor a float format. The bill id and the timestamp,
which the server reads from the clock, are parameters of `CalculateBill`.

The dictionary `person_totals` is a local `map<string, real>`. Its insertion
order is the sequence `Dedup(people)`: each name once, at the place where it
first appears.

A malformed dish raises while the loop reads it. The model checks in the same
order as the code: a missing name first (`dish['name']`), then a missing price
(`dish['price']`), then a price that `float` rejects, and last a name that
cannot serve as a dictionary key (`assignments.get`). The first malformed dish
decides the error, and nothing is written to the store.

## Model

| member | source | states |
|---|---|---|
| `SplitCalculator.DishError` | app.py:35-37 | which exception a malformed dish raises: a missing name, else a missing price, else an unconvertible price, else an unhashable name, each exactly when the fields are in that state |
| `SplitCalculator.Validate` | app.py:34-36 | reading succeeds iff every dish has a usable name and price, and then yields one dish per input in order; otherwise the error is that of the first malformed dish, all those before it being well formed |
| `SplitCalculator.Dedup` | app.py:31 | the keys of `person_totals` hold exactly the names in `people`, each once, ordered by their first appearance in `people` |
| `SplitCalculator.ComputeTotals` | app.py:30-43 | the nested loop yields the first dish error if there is one, and otherwise a map with one key per person whose value is that person's total `Share` over all dishes |
| `SplitCalculator.AddDish` | app.py:37-43 | one pass of the outer loop keeps the keys and adds to each person exactly that person's share of the dish, nothing when the dish has no eaters |
| `SplitCalculator.CreditEaters` | app.py:40-43 | the inner loop keeps the keys and adds `price / len(eaters)` to each key once per occurrence in the eater list; names that are not keys are skipped |
| `SplitProperties.ResultEntries` | app.py:49-52 | a successful result list has an entry for a name iff the name is in `people`, no name twice, entries in first-appearance order, each amount the rounded share of that person |
| `SplitProperties.CalculateFailsOnFirstMalformed` | app.py:34-37 | when dish `k` is the first malformed one, the whole calculation fails with that dish's error |
| `SplitProperties.CreditIsOccurrences` | app.py:41-43 | one pass over an eater list credits a name with (number of its occurrences) × share |
| `SplitProperties.EaterGetsShare` | app.py:37-43 | a dish with a non-empty eater list adds `price / len(eaters)` to a person once per occurrence; the divisor counts every listed name, known or not |
| `SplitProperties.UnassignedDishAddsNothing` | app.py:37-39 | removing a dish that has no entry in the assignments, or an empty one, leaves every person's share unchanged |
| `SplitProperties.NoAssignmentsNoShares` | app.py:31-39 | with no assignments at all every share stays at its starting value 0 |
| `SplitProperties.NonEaterOwesNothing` | app.py:41-43 | a person listed as eater of no dish owes 0 |
| `SplitProperties.SumCreditsAll` | app.py:40-43 | over distinct keys including every eater, the credits of one dish add up to one share per list entry |
| `SplitProperties.SharesSumToAssignedTotal` | app.py:34-43 | when every eater is a key, the unrounded totals add up to the prices of the dishes that have eaters |
| `SplitProperties.GrandTotalSplits` | app.py:46 | the grand total is the price of the dishes with eaters plus the price of those without |
| `SplitProperties.TotalIgnoresAssignments` | app.py:46 | the rounded grand total depends on the dishes only: other people or assignments give the same total |
| `SplitProperties.SharesSumToTotal` | app.py:34-46 | when every eater is in `people`, the unrounded per-person totals fall short of the grand total by exactly the price of the unshared dishes, and equal it when every dish has an eater |
| `SplitProperties.SharedPizzaExample` | app.py:30-52 | Pizza 300 shared by A and B, Soda 60 by A: A 210, B 150, total 360 |
| `SplitProperties.NoAssignmentsExample` | app.py:37-39 | the same dishes with empty assignments: A 0, B 0, total 360 |
| `SplitProperties.UnknownEaterExample` | app.py:40-43 | Pizza 300 for A and an unknown Z: A owes 150 and the other half is in nobody's amount, total 300 |
| `SplitProperties.RepeatedEaterExample` | app.py:41-43 | eater list A, A, B for Pizza 300: A is credited twice (200), B once (100) |
| `SplitProperties.RepeatedPersonExample` | app.py:31 | people A, B, A give two entries, A then B |
| `SplitProperties.MissingPriceFirstExample` | app.py:35-37 | a dish with an unhashable name and no price fails with the missing price, before later dishes are read |
| `BillExport.ExportFrame` | app.py:85-92 | the text starts with the header and `Created: <timestamp>` plus a blank line, ends with a blank line, `Total Bill: THB <total>` and the footer, and holds the result lines in between |
| `BillExport.LineInOrder` | app.py:88-89 | the line of entry `i` comes right after the lines of the entries before it |
| `BillExport.ResultLinesCount` | app.py:88-89 | when no name or printed amount holds a line break, there is exactly one line per entry |
| `BillExport.ExportLineCount` | app.py:85-92 | when no field holds a line break, the text has `|results| + 6` line breaks |
| `BillService.BillStore.constructor` | app.py:14 | the store starts empty |
| `BillService.BillStore.CalculateBill` | app.py:30-60 | the handler returns the calculation's result; on failure the store is unchanged; on success the record is stored under the id, replacing any earlier one, and every other id keeps its record |
| `BillService.BillStore.Download` | app.py:79-92 | an unknown id gives 404 "Bill not found"; a known id gives the export text of the stored record, which the loop builds line by line |
| `BillService.CalculateThenDownload` | app.py:56-82 | a successful calculation followed by a download of its id renders exactly the results and total just returned; after a failure the download sees what the id held before |
| `BillService.EmptyStoreNotFound` | app.py:79-80 | a fresh store answers every download with 404 "Bill not found" |

## Left out

- Web plumbing: the Flask routes, `render_template`, reading `request.json` (and the defaults of `data.get` for absent keys), the JSON shape of the replies (`success`, `bill_id`), and `send_file`/`BytesIO` with its mimetype and attachment name. These are library calls; the model starts from the three request values and ends at the calculation's result (`Ok` for the 200 reply, `Err` for the 400 one) and at the download's status and body text.
- The clock: the bill id (`%Y%m%d_%H%M%S`) and the ISO timestamp are parameters. Same-second collisions appear only as the last-write-wins update of the map; concurrent requests are not modelled.
- Floating point: money is an exact `real`, so the order of additions does not matter as it does with floats. `round(x, 2)` is the parameter `round2` and the `:.2f` format is the parameter `fmt`.
- Error messages: the text of `str(e)` in the 400 reply is reduced to the error kind `CalcError`.
- Input types the model cannot hold: dish names are strings or unhashable values (a hashable non-string name, which matches no assignment key, is not modelled); `people` is a list of strings; each assignment value is a list of strings (a string value, which Python would iterate by character, is not modelled); a non-dictionary payload is not modelled. Three shapes that also end in the 400 reply are not modelled either: a `dishes` entry that is not an object (`dish['name']` raises `TypeError`); `dishes` given as a string or an object, which the loop iterates and which then fails at `dish['name']`; and an `assignments` value that is not an object, whose `.get` raises `AttributeError` at the first dish with a usable name and price, while a request with no dishes still succeeds.
- The 500 reply of `download_bill`: for records the model can store, nothing in the text layout raises.
- Process configuration: the `PORT` variable and `app.run`.
- Rounded amounts in the worked examples: each is stated as `round2` of the exact share (for instance `round2(210.0)`), because the rounding function is a parameter.
- The code does not check that prices are non-negative or that dish names are unique; the model accepts both, as the code does.
