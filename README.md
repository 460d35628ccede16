# Showcase widgets in Dafny

A Dafny model of the logic inside the small widgets of the showcase site. The
markup, styling and network calls are not part of it.

- **Currency dashboard** (`app/currency-v2`):
  - The two-field converter runs over a USD-anchored rate table, where a missing or zero rate counts as 1. It has a forward formula and a reverse formula, a rate line, a currency list and a symbol table.
  - The "popular rates" panel reads the same table with no fallback, so `undefined`, NaN and infinities surface there.
  - The mock history chart has a volatility class, a base-rate lookup, a precision rule and the 31-point generation loop.
- **Fixed-rate USD⇄EUR converter** (`app/routes/currency-converter.tsx`): two inverse formulas, the `convert` helper and the `{rate, usd, euro}` state record.
- **Stock portfolio** (`app/routes/stock-portfolio.tsx`):
  - value, cost and gain as left folds over the rows;
  - the row gain and the profit/loss label;
  - the removal, the edit and the add handlers.
- **To-do list** (`app/routes/todo-list.tsx`):
  - the all/active/completed filter;
  - the delete and toggle requests with their id guard;
  - the `trim` guard on submission;
  - the page state.
- **Stopwatch** (`app/routes/stopwatch.tsx`):
  - mm:ss:cc formatting, computed with the page's own number arithmetic and proved equal to integer arithmetic;
  - the start/stop, reset, tick and colour steps.

Modules:

| module | file | contents |
|---|---|---|
| `Js` | `js.dfy` | JavaScript numbers (`undefined`, NaN, ±Infinity, finite), truthiness and IEEE division, plus the outcome of reading a typed field |
| `Rounding` | `rounding.dfy` | `parseFloat(x.toFixed(p))` on exact reals: the nearest multiple of 10^-p, ties away from zero |
| `RateTable` | `rate_table.dfy` | the rate object (`Object.keys` order plus lookup), the `\|\| 1` fallback, filtering, the USD-first list |
| `CurrencyConverter` | `currency_converter.dfy` | conversion formulas, rate line, symbols, the `Converter` state class |
| `CurrencyRatesList` | `currency_rates_list.dfy` | the panel's currency list, `calculateRate`, rate cells, popular pairs, trends |
| `CurrencyChart` | `currency_chart.dfy` | volatility, base rate, precision, the history loop with the random draws as a parameter |
| `FixedRateConverter` | `fixed_rate_converter.dfy` | `toEuro`/`toUsd`, `convert`, the `Widget` state class |
| `StockPortfolio` | `stock_portfolio.dfy` | holdings, folds, splice, field edits, the `Tracker` state class |
| `TodoList` | `todo_list.dfy` | filter, requests, `trim`, the `Board` state class |
| `Stopwatch` | `stopwatch.dfy` | display fields, padding, the `Watch` state class |

React state hooks are classes whose methods are the handlers. Each effect is an explicit method that a caller runs after the change that triggers it. For example, `Converter.SyncConverted` is the recomputation effect.

The model follows the code where it departs from plain parity:
- Converting USD to USD multiplies by the table's own USD entry (`rates["USD"] || 1`). It is the identity only when that entry is missing, 0 or 1 (`UsdToUsd`, `ForwardViaAnchor`).
- Converting a currency to itself shows the amount rounded to cents, not the amount itself (`SameCurrency`).

## Model

| member | source | states |
|---|---|---|
| Js.Div | app/currency-v2/CurrencyRatesList.tsx:62-64 | every IEEE case: a finite quotient when the divisor is nonzero; NaN for 0/0, for infinity over infinity and when either side is `undefined` or NaN; an infinity with the dividend's sign for a nonzero value over 0; an infinity signed by both operands over a nonzero finite divisor; 0 for a finite value over an infinity |
| Rounding.Round | app/currency-v2/CurrencyConverter.tsx:43 | the result is a multiple of 10^-places, within half a unit of the input, with the input's sign; a tie moves away from zero (up only for a positive input, down only for a negative one) |
| Rounding.RoundOnGrid | app/currency-v2/CurrencyChart.tsx:128 | a value already at `places` decimals is returned unchanged |
| Rounding.RoundIdempotent | app/currency-v2/CurrencyChart.tsx:128 | rounding a rounded value again changes nothing |
| Rounding.RoundOdd | app/currency-v2/CurrencyConverter.tsx:43 | rounding commutes with negation (ties away from zero on both sides) |
| RateTable.Effective | app/currency-v2/CurrencyConverter.tsx:34-39 | `rates[c] \|\| 1` is never 0: the table's rate when present and nonzero, else 1 |
| RateTable.Without | app/currency-v2/CurrencyConverter.tsx:24 | the filter keeps exactly the elements different from the removed value and never lengthens the list |
| RateTable.WithoutAppend | app/currency-v2/CurrencyRatesList.tsx:107 | filtering a concatenation is concatenating the filtered parts, so order is kept |
| RateTable.WithoutAbsent | app/currency-v2/CurrencyConverter.tsx:24 | filtering out a value that does not occur returns the list itself |
| RateTable.WithoutOnce | app/currency-v2/CurrencyConverter.tsx:21-24 | on distinct keys, filtering out a present key removes exactly one entry |
| RateTable.UsdFirst | app/currency-v2/CurrencyConverter.tsx:21-25 | the list starts with USD, has no other USD, and holds exactly USD and the keys |
| RateTable.UsdFirstLength | app/currency-v2/CurrencyConverter.tsx:21-25 | for a real rate object USD appears once: one entry per key, plus one when USD is not a key |
| CurrencyConverter.Forward | app/currency-v2/CurrencyConverter.tsx:33-41 | no ensures of its own: the three conversion formulas over the `|| 1` rates; `ReverseUndoesForward` and `ForwardUndoesReverse` prove it inverse to `Reverse`, `ForwardViaAnchor` puts it in anchor form, `ForwardPerUnit` makes it linear in the amount |
| CurrencyConverter.Reverse | app/currency-v2/CurrencyConverter.tsx:63-71 | no ensures of its own: the back-computation of the amount from an edited converted amount; `ReverseUndoesForward` and `ForwardUndoesReverse` prove it inverse to `Forward` |
| CurrencyConverter.Converted | app/currency-v2/CurrencyConverter.tsx:33-43 | the converted field is on the cent grid and within half a cent of the three-case formula, a tie rounding away from zero |
| CurrencyConverter.ReverseUndoesForward | app/currency-v2/CurrencyConverter.tsx:33-73 | before rounding, the reverse formula recovers the amount from the forward result in all three cases |
| CurrencyConverter.ForwardUndoesReverse | app/currency-v2/CurrencyConverter.tsx:33-73 | before rounding, the forward formula recovers an edited converted amount from the reverse result |
| CurrencyConverter.Anchor | app/currency-v2/CurrencyConverter.tsx:34-39 | a currency's value per dollar is never 0 and equals the effective rate for every code but USD |
| CurrencyConverter.ForwardViaAnchor | app/currency-v2/CurrencyConverter.tsx:33-41 | every case divides by the source's dollar value and multiplies by the target's, except USD to USD when USD has its own rate |
| CurrencyConverter.RateRoundTrip | app/currency-v2/CurrencyConverter.tsx:33-41 | the rate of one unit there times the rate of one unit back is exactly 1 under the same exception |
| CurrencyConverter.UsdToUsd | app/currency-v2/CurrencyConverter.tsx:33-34 | USD to USD multiplies by the table's USD entry when it has a nonzero one |
| CurrencyConverter.ForwardPerUnit | app/currency-v2/CurrencyConverter.tsx:33-41 | conversion is linear: the amount times the conversion of one unit |
| CurrencyConverter.SameCurrency | app/currency-v2/CurrencyConverter.tsx:33-43 | a currency converted to itself shows the amount rounded to cents (for USD: when the table gives USD no rate of its own) |
| CurrencyConverter.UnknownTarget | app/currency-v2/CurrencyConverter.tsx:33-43 | a target missing from the table converts from USD at parity |
| CurrencyConverter.MockRates | app/currency-v2/CurrencyExchange.tsx:28-37 | a constant: the demo rate object; `MockRatesValid` proves it a well-formed table and `MockScenario` works through it |
| CurrencyConverter.MockRatesValid | app/currency-v2/CurrencyExchange.tsx:28-37 | the demo rate object is a well-formed table: eight distinct codes, each of them and nothing else holding a rate |
| CurrencyConverter.MockScenario | app/currency-v2/CurrencyExchange.tsx:28-37 | over the demo table, 100 USD shows 82.6 EUR, 82.6 EUR typed back gives 100 USD, and 50 USD to an unknown code shows 50 |
| CurrencyConverter.ThreeCurrencyScenario | app/currency-v2/CurrencyConverter.tsx:33-43 | with EUR 0.92, GBP 0.78 and JPY 148.5: 100 USD gives 92 EUR, 92 EUR gives 100 USD, 92 EUR gives 78 GBP, and 50 USD to an unknown code gives 50 |
| CurrencyConverter.RateDisplay | app/currency-v2/CurrencyConverter.tsx:83-96 | "—" without a table; from USD the raw table rate or "—" when the target is missing; otherwise the fallback conversion of one unit at 6 decimals |
| CurrencyConverter.RateDisplayFromUsd | app/currency-v2/CurrencyConverter.tsx:86-87 | from USD the line agrees with converting one dollar for a listed nonzero target, but shows "—" for a missing target that converts at parity |
| CurrencyConverter.Symbols | app/currency-v2/CurrencyConverter.tsx:234-259 | a constant: the symbol map; `CurrencySymbol` states the lookup with its fallback |
| CurrencyConverter.CurrencySymbol | app/currency-v2/CurrencyConverter.tsx:234-263 | the mapped symbol for a listed code, the code itself otherwise, never empty for a non-empty code |
| CurrencyConverter.Converter.constructor | app/currency-v2/CurrencyConverter.tsx:13-17 | the initial state: USD to EUR, amount 100, converted 0, no currencies listed |
| CurrencyConverter.Converter.SyncCurrencies | app/currency-v2/CurrencyConverter.tsx:19-27 | with a table the selects offer the USD-first list; without one the list is untouched |
| CurrencyConverter.Converter.SyncConverted | app/currency-v2/CurrencyConverter.tsx:29-45 | afterwards the converted field matches the amount; it is recomputed only with a table and a numeric amount |
| CurrencyConverter.Converter.HandleAmountChange | app/currency-v2/CurrencyConverter.tsx:47-52 | empty text blanks the amount, a number sets it, non-numeric text changes nothing |
| CurrencyConverter.Converter.HandleConvertedAmountChange | app/currency-v2/CurrencyConverter.tsx:54-76 | non-numeric text changes nothing; empty text blanks only the converted field; a number sets it and, with a table, sets the amount to the reverse formula rounded to cents |
| CurrencyConverter.Converter.SwapCurrencies | app/currency-v2/CurrencyConverter.tsx:78-81 | the two currencies trade places and nothing else changes |
| CurrencyConverter.Converter.SelectFrom | app/currency-v2/CurrencyConverter.tsx:110-114 | the "from" select sets the source currency |
| CurrencyConverter.Converter.SelectTo | app/currency-v2/CurrencyConverter.tsx:199-203 | the "to" select sets the target currency |
| CurrencyConverter.SwapTwice | app/currency-v2/CurrencyConverter.tsx:78-81 | swapping twice restores the pair and leaves both fields alone |
| CurrencyRatesList.AvailableCurrencies | app/currency-v2/CurrencyRatesList.tsx:18-20 | `["USD"]` without a table, else USD followed by the non-USD keys in key order |
| CurrencyRatesList.Lookup | app/currency-v2/CurrencyRatesList.tsx:59-65 | a listed code reads as its rate, any other as `undefined` |
| CurrencyRatesList.CalculateRate | app/currency-v2/CurrencyRatesList.tsx:56-66 | null without a table; `rates[c]` from USD; `1/rates[base]` to USD; `rates[c]/rates[base]` otherwise, with no fallback |
| CurrencyRatesList.CalculateRateMatchesConverter | app/currency-v2/CurrencyRatesList.tsx:56-66 | where every rate involved is present and nonzero, the panel's rate equals the converter's conversion of one unit |
| CurrencyRatesList.CalculateRateNoFallback | app/currency-v2/CurrencyRatesList.tsx:59-65 | a missing currency has no rate (`undefined` from USD, NaN otherwise), where the converter would use 1 |
| CurrencyRatesList.RateCell | app/currency-v2/CurrencyRatesList.tsx:126 | a dash exactly for a falsy rate (null, `undefined`, NaN, 0); a nonzero finite rate to 3 decimals; an infinite rate as "Infinity" with its sign |
| CurrencyRatesList.ZeroBaseRateShowsInfinity | app/currency-v2/CurrencyRatesList.tsx:59-65 | a base whose rate is 0 shows "Infinity" against every currency with a positive rate |
| CurrencyRatesList.PopularPairs | app/currency-v2/CurrencyRatesList.tsx:106-108 | at most 5 entries, never the base, drawn from the list, and the first entries of the filtered list in order |
| CurrencyRatesList.PopularPairsPrefix | app/currency-v2/CurrencyRatesList.tsx:106-108 | extending the currency list only extends the pairs shown |
| CurrencyRatesList.TrendIcon | app/currency-v2/CurrencyRatesList.tsx:24-53 | up exactly for EUR/JPY/CAD/AUD, down exactly for GBP/CHF/HKD, none otherwise |
| CurrencyRatesList.TrendsDisjoint | app/currency-v2/CurrencyRatesList.tsx:26-27 | no code is both rising and falling |
| CurrencyChart.Volatility | app/currency-v2/CurrencyChart.tsx:18-39 | 0.001 for one currency; 0.02 for a major pair either way round; else 0.03 when USD or EUR is involved; else 0.05 |
| CurrencyChart.VolatilitySymmetric | app/currency-v2/CurrencyChart.tsx:30-38 | the class of a pair does not depend on its direction |
| CurrencyChart.MajorPairOfCodes | app/currency-v2/CurrencyChart.tsx:20-34 | for three-letter codes the glued-string membership test is exactly a lookup of the code pair |
| CurrencyChart.RateFrom | app/currency-v2/CurrencyChart.tsx:96-109 | over a table of positive rates: positive; the direct entry when listed; else the reciprocal of the reverse entry; else 1 for one currency and 1.25 otherwise |
| CurrencyChart.BaseRates | app/currency-v2/CurrencyChart.tsx:59-93 | a constant: the predefined pair rates; `BaseRatesPositive` proves every entry positive and `BaseRatesNotReciprocal` that USD/EUR are not reciprocals |
| CurrencyChart.BaseRatesPositive | app/currency-v2/CurrencyChart.tsx:59-81 | every rate in the predefined table is positive |
| CurrencyChart.BaseRate | app/currency-v2/CurrencyChart.tsx:96-109 | the starting rate of every pair is positive and is the lookup of CurrencyChart.RateFrom in the predefined table |
| CurrencyChart.RateFromReciprocal | app/currency-v2/CurrencyChart.tsx:96-102 | a pair listed one way only gets reciprocal starting rates in the two directions |
| CurrencyChart.BaseRatesNotReciprocal | app/currency-v2/CurrencyChart.tsx:59-81 | the table lists USD/EUR both ways with rates whose product is not 1 |
| CurrencyChart.Precision | app/currency-v2/CurrencyChart.tsx:127 | 2 decimals exactly for a JPY target, 4 for every other |
| CurrencyChart.Shown | app/currency-v2/CurrencyChart.tsx:240-245 | the axis tick shows the value rounded to the pair's precision: a point of that grid, within half a unit of the value, with the value's sign, a tie rounding away from zero |
| CurrencyChart.Jittered | app/currency-v2/CurrencyChart.tsx:123-124 | no ensures of its own: the base rate scaled by one plus the centred variation; `PointsNonNegative` proves it positive for a positive rate, a draw in [0, 1) and a volatility below 2 |
| CurrencyChart.Point | app/currency-v2/CurrencyChart.tsx:123-128 | no ensures of its own: the jittered rate rounded to the pair's precision; `ShownPointUnchanged` proves the axis shows it unchanged |
| CurrencyChart.Step | app/currency-v2/CurrencyChart.tsx:131 | no ensures of its own: one centred random-walk step of the base rate; `PointsNonNegative` proves the walk stays positive from a positive start |
| CurrencyChart.Points | app/currency-v2/CurrencyChart.tsx:112-132 | one data point per draw |
| CurrencyChart.FetchHistoricalRates | app/currency-v2/CurrencyChart.tsx:112-132 | 31 labels counting down from 30 to 0 and 31 points, equal to the jittered, rounded random walk from the base rate |
| CurrencyChart.PointsNonNegative | app/currency-v2/CurrencyChart.tsx:120-131 | with draws in [0, 1) and a positive start, no point of the walk is negative |
| CurrencyChart.HistoryNonNegative | app/currency-v2/CurrencyChart.tsx:112-132 | the series of any pair has no negative point |
| CurrencyChart.ShownPointUnchanged | app/currency-v2/CurrencyChart.tsx:209-214 | the tooltip shows a generated point exactly as stored |
| FixedRateConverter.ToEuro | app/routes/currency-converter.tsx:43 | no ensures of its own: `amount * rate`; its round trip with `ToUsd` is `UsdEuroUsd` and `EuroUsdEuro` |
| FixedRateConverter.ToUsd | app/routes/currency-converter.tsx:44 | no ensures of its own: `amount / rate`; its round trip with `ToEuro` is `UsdEuroUsd` and `EuroUsdEuro` |
| FixedRateConverter.UsdEuroUsd | app/routes/currency-converter.tsx:43-44 | dollars to euros and back is the identity at any nonzero rate |
| FixedRateConverter.EuroUsdEuro | app/routes/currency-converter.tsx:43-44 | euros to dollars and back is the identity at any nonzero rate |
| FixedRateConverter.Apply | app/routes/currency-converter.tsx:43-52 | finite values go through the chosen formula, an infinity stays as it is, NaN stays NaN |
| FixedRateConverter.RoundNum | app/routes/currency-converter.tsx:52 | finite values are rounded, the others pass through |
| FixedRateConverter.Convert | app/routes/currency-converter.tsx:46-53 | for a `number` input (never `undefined`, on which `toString` would throw): "" exactly for NaN; otherwise the formula's result to 3 decimals |
| FixedRateConverter.ParseFloat | app/routes/currency-converter.tsx:60 | "" reads back as NaN, a formatted number as that number |
| FixedRateConverter.ConvertReadBack | app/routes/currency-converter.tsx:46-61 | reading back what `convert` produced is the formula's result rounded to 3 decimals, NaN included |
| FixedRateConverter.Widget.constructor | app/routes/currency-converter.tsx:37-41 | rate 0.89, 1 dollar, 0.89 euros, and euros equal to the dollars converted |
| FixedRateConverter.Widget.HandleUsdChange | app/routes/currency-converter.tsx:55-62 | for a typed `parseFloat` result (a number or NaN, never `undefined`): dollars become the typed value, euros its conversion read back, and the rate stays put |
| FixedRateConverter.Widget.HandleEuroChange | app/routes/currency-converter.tsx:64-71 | for a typed `parseFloat` result (a number or NaN, never `undefined`): euros become the typed value, dollars its conversion read back, and the rate stays put |
| FixedRateConverter.EditSequence | app/routes/currency-converter.tsx:55-71 | any sequence of edits to either field leaves the rate at 0.89 |
| StockPortfolio.RowValue | app/routes/stock-portfolio.tsx:45 | no ensures of its own: shares times market price, the market-value fold's term; `AddStockTotals`, `RemoveStockTotals` and `HandleChangeTotals` track it |
| StockPortfolio.RowCost | app/routes/stock-portfolio.tsx:50 | no ensures of its own: shares times cost per share, the cost fold's term; the same `*Totals` lemmas track it |
| StockPortfolio.Total | app/routes/stock-portfolio.tsx:44-52 | no ensures of its own: the `reduce` left fold; `TotalAppend`, `TotalWithout` and `TotalUpdate` state how it responds to concatenation, removal and replacement |
| StockPortfolio.MarketValue | app/routes/stock-portfolio.tsx:44-47 | no ensures of its own: the fold of `RowValue`; `InitialTotals` gives its value on the initial rows |
| StockPortfolio.Cost | app/routes/stock-portfolio.tsx:49-52 | no ensures of its own: the fold of `RowCost`; `InitialTotals` gives its value on the initial rows |
| StockPortfolio.Gain | app/routes/stock-portfolio.tsx:54 | no ensures of its own: value minus cost; `GainIsSumOfRowGains` proves it the sum of the row gains |
| StockPortfolio.UnrealizedGain | app/routes/stock-portfolio.tsx:131-133 | a row's gain is its shares times the difference of market price and cost per share |
| StockPortfolio.TotalAppend | app/routes/stock-portfolio.tsx:44-52 | a fold over two lists end to end is the sum of the two folds |
| StockPortfolio.TotalWithout | app/routes/stock-portfolio.tsx:44-52 | taking a row out lowers a fold by exactly that row's figure |
| StockPortfolio.TotalUpdate | app/routes/stock-portfolio.tsx:44-52 | replacing a row changes a fold by the difference of the two rows' figures |
| StockPortfolio.GainIsSumOfRowGains | app/routes/stock-portfolio.tsx:44-54 | the portfolio's value minus cost equals the sum of the rows' unrealized gains |
| StockPortfolio.NoRowLossNoPortfolioLoss | app/routes/stock-portfolio.tsx:131-133 | when no row is at a loss, the portfolio is not either |
| StockPortfolio.Label | app/routes/stock-portfolio.tsx:276-299 | profit exactly when the gain is at least 0, zero included; loss exactly when it is negative |
| StockPortfolio.InitialTotals | app/routes/stock-portfolio.tsx:16-54 | the opening portfolio is worth 90000, cost 12200 and gained 77800, shown as profit |
| StockPortfolio.SpliceOne | app/routes/stock-portfolio.tsx:56-60 | `splice(start, 1)` on a copy: removes the element at an index in range, counts a negative start from the end, and removes nothing past the end |
| StockPortfolio.SpliceOneKeepsOrder | app/routes/stock-portfolio.tsx:56-60 | rows before the index stay, rows after move up by one |
| StockPortfolio.WithField | app/routes/stock-portfolio.tsx:66-71 | only the named numeric field takes the new value; name and the other fields are kept |
| StockPortfolio.Edited | app/routes/stock-portfolio.tsx:75-81 | a name edit stores the text, a numeric edit stores the number, other form fields are kept |
| StockPortfolio.Tracker.constructor | app/routes/stock-portfolio.tsx:16-42 | the three opening holdings and an empty form |
| StockPortfolio.Tracker.RemoveStock | app/routes/stock-portfolio.tsx:56-60 | the rows become the splice of the old rows at the index |
| StockPortfolio.Tracker.HandleChange | app/routes/stock-portfolio.tsx:62-73 | same length; row `index` gets the new field value; every other row is unchanged |
| StockPortfolio.Tracker.HandleFormChange | app/routes/stock-portfolio.tsx:75-81 | the form takes the edit and nothing else changes |
| StockPortfolio.Tracker.AddStock | app/routes/stock-portfolio.tsx:83-92 | for a submitted form, which has a name because the name input is `required` (line 224): the form becomes the last row and the form is reset to no name and zeros |
| StockPortfolio.RemoveStockTotals | app/routes/stock-portfolio.tsx:44-60 | removing a row lowers value, cost and gain by that row's figures |
| StockPortfolio.AddStockTotals | app/routes/stock-portfolio.tsx:44-54 | adding a row raises value, cost and gain by that row's figures |
| StockPortfolio.HandleChangeTotals | app/routes/stock-portfolio.tsx:62-73 | editing one row changes value and cost by that row's change alone |
| StockPortfolio.AddThenRemove | app/routes/stock-portfolio.tsx:56-92 | adding a holding from a form with a name then removing the last row restores the rows and leaves the form empty |
| TodoList.Keeps | app/routes/todo-list.tsx:212-218 | no ensures of its own: the filter callback; `FilteredTasksMembers` proves the shown tasks are exactly the tasks it keeps |
| TodoList.FilteredTasks | app/routes/todo-list.tsx:211-219 | every shown task is one the filter keeps; never longer than the list |
| TodoList.FilteredTasksMembers | app/routes/todo-list.tsx:211-219 | a task is shown exactly when it is in the list and the filter keeps it |
| TodoList.FilterAllIsIdentity | app/routes/todo-list.tsx:212-213 | "all" shows the list unchanged |
| TodoList.FilterAppend | app/routes/todo-list.tsx:211-219 | filtering distributes over concatenation, so kept tasks keep their order |
| TodoList.ActiveCompletedPartition | app/routes/todo-list.tsx:214-218 | the active and completed views split the list: their sizes add up and their multisets sum to the list's |
| TodoList.NewState | app/routes/todo-list.tsx:185 | "active" exactly for a completed task, "complete" exactly for an active one |
| TodoList.MarkPath | app/routes/todo-list.tsx:188 | every toggle path segment starts with `mark_` |
| TodoList.DeleteRequest | app/routes/todo-list.tsx:156-177 | nothing exactly for id 0, otherwise a delete of that id |
| TodoList.ToggleRequest | app/routes/todo-list.tsx:180-203 | nothing exactly for id 0, otherwise a request for that id to the opposite state, at path `mark_` + newState |
| TodoList.ToggleNegates | app/routes/todo-list.tsx:185-188 | a toggle asks for completion exactly when the task is not completed |
| TodoList.TrimStart | app/routes/todo-list.tsx:124 | a suffix of the input, preceded only by white space, starting with a non-space or empty |
| TodoList.TrimEnd | app/routes/todo-list.tsx:124 | a prefix of the input, followed only by white space, ending with a non-space or empty |
| TodoList.Trim | app/routes/todo-list.tsx:124 | a middle part of the input with only white space cut off before and after it, and empty or starting and ending with a non-space |
| TodoList.TrimEmptyIffAllSpace | app/routes/todo-list.tsx:124-127 | the trimmed text is empty exactly when the input is white space only |
| TodoList.TrimIdempotent | app/routes/todo-list.tsx:124 | trimming twice is trimming once |
| TodoList.Board.constructor | app/routes/todo-list.tsx:83-87 | empty input, no tasks, filter "all", no error, not submitting |
| TodoList.Board.Shown | app/routes/todo-list.tsx:211-219 | the tasks on screen are those in the list that the current filter keeps |
| TodoList.Board.HandleChange | app/routes/todo-list.tsx:116-118 | the input holds the typed text |
| TodoList.Board.ToggleFilter | app/routes/todo-list.tsx:206-208 | the filter becomes the chosen one |
| TodoList.Board.HandleSubmit | app/routes/todo-list.tsx:121-139 | only called while the form is free, as the disabled submit button (line 303) ensures; blank input posts nothing and leaves the form free; otherwise the form is busy and the trimmed, non-empty text is posted |
| TodoList.Board.SubmitSucceeded | app/routes/todo-list.tsx:143-147 | the input is cleared, the form is free and the list is fetched again |
| TodoList.Board.SubmitFailed | app/routes/todo-list.tsx:148-152 | the error message is shown and the form is free again |
| TodoList.Board.ReceiveTasks | app/routes/todo-list.tsx:95-97 | the list becomes the fetched tasks |
| TodoList.Board.RequestFailed | app/routes/todo-list.tsx:98-101 | the error message is shown |
| Stopwatch.Field | app/routes/stopwatch.tsx:63-71 | `Math.floor((t / unit) % modulus)` on numbers always lies in [0, modulus) |
| Stopwatch.Minutes | app/routes/stopwatch.tsx:63 | the minutes field is in [0, 60); `FieldsInRange` gives it as `(time / 60000) % 60` |
| Stopwatch.Seconds | app/routes/stopwatch.tsx:67 | the seconds field is in [0, 60); `FieldsInRange` gives it as `(time / 1000) % 60` |
| Stopwatch.Centiseconds | app/routes/stopwatch.tsx:71 | the hundredths field is in [0, 100); `FieldsInRange` gives it as `(time / 10) % 100` |
| Stopwatch.FieldIsDigitGroup | app/routes/stopwatch.tsx:63-71 | `Math.floor((t / unit) % modulus)` on numbers equals the integer quotient by `unit` modulo `modulus` |
| Stopwatch.FieldsInRange | app/routes/stopwatch.tsx:63-71 | minutes are ⌊t/60000⌋ mod 60, seconds ⌊t/1000⌋ mod 60, centiseconds ⌊t/10⌋ mod 100 |
| Stopwatch.DecimalString | app/routes/stopwatch.tsx:63 | decimal digits with no leading zero; one digit exactly below 10, two digits up to 99 |
| Stopwatch.Pad2 | app/routes/stopwatch.tsx:63-71 | a field below 100 always shows as two characters |
| Stopwatch.Pad2Digits | app/routes/stopwatch.tsx:63-71 | below 100 the padded field is exactly two digits, tens then units, led by "0" exactly below 10 |
| Stopwatch.TimeDisplay | app/routes/stopwatch.tsx:62-72 | eight characters with colons at positions 2 and 5 |
| Stopwatch.TimeDisplayDigits | app/routes/stopwatch.tsx:62-72 | the display is the two-digit minutes within the hour, seconds within the minute and hundredths of the second, separated by colons |
| Stopwatch.TimeDisplayHourly | app/routes/stopwatch.tsx:62-72 | the display has no hours: it repeats every hour |
| Stopwatch.FieldsHourly | app/routes/stopwatch.tsx:63-71 | each of the three fields repeats every hour |
| Stopwatch.Watch.constructor | app/routes/stopwatch.tsx:8-10 | time 0, stopped, white |
| Stopwatch.Watch.HandleStartStop | app/routes/stopwatch.tsx:36-38 | the running flag is negated and nothing else changes |
| Stopwatch.Watch.HandleReset | app/routes/stopwatch.tsx:40-44 | from any state: stopped, time 0, white |
| Stopwatch.Watch.FastTick | app/routes/stopwatch.tsx:14-17 | while running, the 10 ms tick adds 10 |
| Stopwatch.Watch.SlowTick | app/routes/stopwatch.tsx:24-27 | while running, the 1 s tick adds 1 |
| Stopwatch.Watch.SyncColor | app/routes/stopwatch.tsx:23-34 | green while running; red when stopped with time other than 0; unchanged when stopped at 0 |
| Stopwatch.StartStopTwice | app/routes/stopwatch.tsx:36-38 | pressing START/STOP twice restores the running flag, the time and the colour |
| Stopwatch.ResetThenSync | app/routes/stopwatch.tsx:23-44 | a reset followed by its effect leaves the watch stopped at 0 and white |
| Stopwatch.RunTicks | app/routes/stopwatch.tsx:12-34 | any run of ticks while running keeps it running and raises the time by at least 1 and at most 10 per tick |

## Left out

- IEEE-754 detail:
  - finite numbers are exact reals, so there is no binary rounding error and no negative zero;
  - `toFixed` is rounding on exact reals, without its string form or its exponent form at 10^21 and beyond;
  - every `parseFloat(x.toFixed(p))` is that rounding.
- Text parsing: `Js.Entry` stands for what `Number`/`parseFloat` make of typed text. The model does not follow their string rules, so:
  - text that `Number` accepts but `parseFloat` reads differently, such as blank text or `"0x10"`, is not modelled;
  - typed infinities are not modelled.
- Rate objects hold only their own keys. Inherited property names such as `constructor` are not looked up.
- Network I/O: the rate-table fetch, the to-do REST calls, response parsing and status checks. Requests are returned as values. Replies and failures come in through `ReceiveTasks`, `SubmitSucceeded`, `SubmitFailed` and `RequestFailed`.
- `Math.random`, `Date` and Chart.js:
  - the chart's random numbers are the `draws` parameter;
  - its date labels are the day offsets 30 down to 0;
  - `console.warn`, chart rendering and the chart instance ref are not modelled.
- CurrencyChart.FetchHistoricalRates: it takes exactly the 31 draws its loop consumes. Drawing them is not modelled.
- Timers and React scheduling:
  - intervals, timeouts and the to-do title animation are not modelled;
  - each effect is a method a caller runs, and the order and batching of re-renders are not modelled;
  - the ticks are methods that require a running watch.
- Stopwatch.Watch.SlowTick: on the page its one-second interval is re-created on every time change, so while the 10 ms ticks run it seldom or never fires. The model allows it at any step while running.
- StockPortfolio.Tracker.HandleChange: the row index is required to be in range, as the table's own inputs always pass. Number fields hold reals, so `Number` of non-numeric text (NaN) is not modelled.
- TodoList.Task: ids are integers, so the falsy NaN id is not modelled; only 0 is falsy.
- The other pages of the site (movie search, listings, home, navigation) are not part of this model.
