# TrueLayer callback: transaction aggregation and CSV export

This project is a Dafny model of the bank-data callback handler
(`api/truelayer/callback.js`). The handler first checks the request: the
method, the `code` and `redirect_uri` body fields, and the configured client
secret. It then exchanges the code for an access token and lists the
accounts and cards. It fetches the last 90 days of transactions for each
account and card on a best-effort basis and returns them as a
`Date,Description,Amount` CSV text together with a transaction count.

The network is not modelled. Each answer it gives becomes an input:
- how the token exchange ended (`TokenExchange`);
- how each listing ended (`Listing`);
- how each per-account or per-card transaction fetch ended (`TxFetch`).

Modules, one per part of the handler and one per builtin it leans on:

- `Validation`: the request-checking ladder. `Validate` is a pure function
  from the method, the body fields (with JavaScript truthiness, `JsValue`)
  and the secret to a `Verdict`.
- `Transactions`: the transaction record and the fetch outcomes.
  `AppendResults` and `Collect` are methods whose loops model the `forEach`
  and `push(...)` steps that grow `allTransactions`. They are proved against
  the specification functions `Flatten` and `AllTransactions`.
- `CsvExport`: the row mapping (date, description fallback with commas
  replaced, signed amount) and `BuildCsv`, a method whose loop grows
  `csvLines` before the join. It is proved against `CsvText`.
- `Callback`: `Respond`, the whole handler's answer as a function, and
  `Handle`, the handler step by step, proved equal to it.
- `JsFormat`, `Decimal`, `Text`: the JavaScript runtime behaviour the handler
  relies on. These are the `en-GB` date, number-to-string conversion, `join`
  and a global one-character `replace`.
- Readers of the output: `Split`, `ParseRow`, `ParseDate` and `ParseAmount`.
  The handler never calls them. They invert the renderings and the join, and
  the line and column properties of the CSV are stated through them.

Three consequences of the code are worth stating:
- The collected list has a fixed order. The code appends account results,
  then card results, each in listing order, because `Promise.all` keeps
  order. `AccountsThenCards` states this order.
- `Coffee, Shop` becomes `Coffee  Shop` with two spaces: the comma becomes a
  space next to the space already there. `CoffeeShopRow` proves the row the
  code produces: `15/01/2024,Coffee  Shop,-4.5`.
- The code applies `Math.abs` to whatever `amount` it receives, so the model
  accepts any integer amount, negative ones included.

## Model

| member | source | states |
|---|---|---|
| `Validation.Validate` | api/truelayer/callback.js:7-20 | OPTIONS gets the preflight exactly when the method is OPTIONS; any other non-POST gets 405; a refusal is 400, 405 or 500; the request is admitted iff it is a POST with a truthy `code`, a truthy `redirect_uri` and a configured secret, and the admitted verdict carries exactly those values |
| `Validation.CodeOf` | api/truelayer/callback.js:10 | `code` from `req.body || {}`: the body's field, or `undefined` when there is no body |
| `Validation.RedirectUriOf` | api/truelayer/callback.js:10 | `redirect_uri` from `req.body || {}`: the body's field, or `undefined` when there is no body |
| `Validation.Truthy` | api/truelayer/callback.js:12-13 | JavaScript truthiness behind the `!code` and `!redirect_uri` tests: `undefined`, `null`, `false`, `0` and `""` are falsy; `Validate` and the ladder lemmas rely on it |
| `Wrappers.NonEmpty` | api/truelayer/callback.js:18 | truthiness of an optional string (the secret here, the description and merchant name at line 108): present and not empty |
| `Validation.MissingCodeFirst` | api/truelayer/callback.js:10-12 | a POST without a truthy code is refused with 400 "Missing authorization code", whatever else is missing |
| `Validation.MissingRedirectUriSecond` | api/truelayer/callback.js:12-13 | a POST with a code but no truthy redirect_uri is refused with 400 "Missing redirect_uri", whatever the secret |
| `Validation.MissingSecretLast` | api/truelayer/callback.js:16-20 | a well-formed POST with no configured secret is refused with 500 |
| `Callback.Respond` | api/truelayer/callback.js:7-128 | the handler's answer on every path as one function: preflight, refusal, token failure, listing abort, or 200 with the count and the CSV; `Handle`, `RefusedBeforeNetwork`, `TokenExchangeFailures`, `SuccessfulExport` and `EveryFetchFailed` state its properties |
| `Callback.Handle` | api/truelayer/callback.js:7-128 | the step-by-step handler gives exactly the answer `Respond` specifies |
| `Callback.RefusedBeforeNetwork` | api/truelayer/callback.js:7-24 | a request the ladder does not admit gets the same answer whatever the network would say, so no network answer is consulted before validation passes; its status is 200, 400, 405 or 500 |
| `Callback.TokenExchangeFailures` | api/truelayer/callback.js:22-39 | an admitted request whose token exchange is refused gets 400 "Token exchange failed" with the upstream text; a thrown exchange gets 500 "Failed to fetch transactions" with its message, through the catch at lines 124-127 |
| `Callback.SuccessfulExport` | api/truelayer/callback.js:119-123 | a success is status 200; `transactionCount` is the number of collected transactions; the CSV is `CsvText` of them, the header and one row each, so it begins with the header; it has exactly 1 + count lines iff no chosen description holds a line break |
| `Callback.EveryFetchFailed` | api/truelayer/callback.js:57-99 | when every listing or transaction fetch fails, an admitted request with a token gets 200 with count 0 and the header alone |
| `Transactions.Fetches` | api/truelayer/callback.js:57-59 | the listing gate `accountsRes && accountsRes.ok` and `results || []` (likewise for cards at lines 80-82): an unavailable listing or one without `results` leads to no fetches; `AllTransactions`, `AllFetchesFailed` and `EveryFetchFailed` rely on it |
| `Transactions.Contribution` | api/truelayer/callback.js:70-75 | what one fetch adds: its `results`, or nothing for a failed fetch or a missing `results`; `SkipFailedFetch` and `FlattenEmpty` state its properties |
| `Transactions.Flatten` | api/truelayer/callback.js:74-99 | the contributions of a run of fetches in fetch order; `AppendResults` is proved against it, and `FlattenAppend`, `FlattenLength`, `FlattenEmpty` and `SkipFailedFetch` state its properties |
| `Transactions.AllTransactions` | api/truelayer/callback.js:50-100 | the account results followed by the card results; `Collect` is proved against it, and `AccountsThenCards` and `AllFetchesFailed` state its properties |
| `Transactions.ListingFailure` | api/truelayer/callback.js:57-81 | collection aborts iff a listing body is unreadable: with the accounts' message when the accounts listing is the unreadable one, otherwise with the cards' message; the catch at lines 124-127 turns it into a 500 |
| `Transactions.AppendResults` | api/truelayer/callback.js:74-76 | the `forEach`/`push(...)` loop appends every fetch's results, in fetch order, to what was collected before |
| `Transactions.Collect` | api/truelayer/callback.js:56-100 | the collected list is the account results followed by the card results, or the unreadable listing's message aborts |
| `Transactions.FlattenAppend` | api/truelayer/callback.js:97-99 | collecting two runs of fetches in turn is collecting their concatenation: no reordering across fetches |
| `Transactions.FlattenLength` | api/truelayer/callback.js:74-76 | the collected count is the sum of what each fetch returned: no record dropped or deduplicated |
| `Transactions.SkipFailedFetch` | api/truelayer/callback.js:70-71 | a failed fetch contributes nothing: removing it leaves the collected list unchanged |
| `Transactions.FlattenEmpty` | api/truelayer/callback.js:93-99 | nothing is collected iff every fetch came back failed or empty |
| `Transactions.AllFetchesFailed` | api/truelayer/callback.js:80-99 | if every per-account and per-card fetch failed, nothing is collected |
| `Transactions.AccountsThenCards` | api/truelayer/callback.js:50-100 | account fetch `i`'s records sit after those of fetches before it and before the later ones and all card records |
| `CsvExport.DateField` | api/truelayer/callback.js:105-107 | the date column is empty iff there is no timestamp, and otherwise holds only digits and slashes |
| `CsvExport.IsDebit` | api/truelayer/callback.js:113 | `tx.transaction_type === 'DEBIT'`: strict equality with the exact text, absent type not a debit; `SignedAmount` relies on it |
| `CsvExport.DescriptionSource` | api/truelayer/callback.js:108 | the chosen text is the description if non-empty, else the merchant name if non-empty, else "Unknown"; it is never empty |
| `CsvExport.CsvDescription` | api/truelayer/callback.js:108-111 | the description column has no comma, has the chosen text's length, and differs from it only where a comma became a space |
| `CsvExport.SignedAmount` | api/truelayer/callback.js:112-115 | the amount has the record's magnitude; it is never positive for a DEBIT and never negative otherwise |
| `CsvExport.Row` | api/truelayer/callback.js:104-116 | the row of one transaction: date, cleaned description and signed amount joined by commas; `RowColumns`, `ParseRowOfRow` and `CoffeeShopRow` state its properties |
| `CsvExport.Rows` | api/truelayer/callback.js:104-117 | the mapping yields exactly one row per transaction |
| `CsvExport.RowsAt` | api/truelayer/callback.js:104-117 | row `k` is the row of transaction `k`: the mapping keeps the collected order |
| `CsvExport.CsvText` | api/truelayer/callback.js:103-122 | the header and the rows joined by line breaks; `BuildCsv` is proved against it, and `CsvStartsWithHeader`, `CsvLineCount`, `CsvLines` and `HeaderOnly` state its properties |
| `CsvExport.BuildCsv` | api/truelayer/callback.js:102-122 | the loop over `csvLines` and the join give the CSV text; the count is the number of transactions |
| `CsvExport.RowColumns` | api/truelayer/callback.js:116 | every row splits on commas into exactly its date, description and amount columns |
| `CsvExport.ParseRowOfRow` | api/truelayer/callback.js:104-116 | a row reads back as the record's date, cleaned description and signed amount: the row loses nothing |
| `CsvExport.CsvStartsWithHeader` | api/truelayer/callback.js:103 | the text begins with `Date,Description,Amount`, followed by a line break when there are transactions and by nothing otherwise |
| `CsvExport.CsvLineCount` | api/truelayer/callback.js:103-122 | the text has 1 + transactions + line breaks inside chosen descriptions lines |
| `CsvExport.CsvLines` | api/truelayer/callback.js:116-122 | the text has exactly 1 + transactions lines iff no chosen description holds a line break, and then its lines are the header and the rows in order |
| `CsvExport.HeaderOnly` | api/truelayer/callback.js:121-122 | the text is the header alone iff no transaction was collected |
| `CsvExport.CoffeeShopRow` | api/truelayer/callback.js:104-116 | a 4.50 debit on 15 January 2024 described "Coffee, Shop" becomes `15/01/2024,Coffee  Shop,-4.5` |
| `JsFormat.FormatDate` | api/truelayer/callback.js:106 | the en-GB date has slashes at positions 2 and 5 and otherwise digits only |
| `JsFormat.ParseFormatDate` | api/truelayer/callback.js:105-106 | a rendered date reads back as the same date |
| `JsFormat.RenderAmount` | api/truelayer/callback.js:114-116 | how `Number#toString` prints an amount in hundredths, for magnitudes below 2^46 where a double holds the cents; `ParseRenderAmount` and `RenderAmountShape` state its properties |
| `JsFormat.ParseRenderAmount` | api/truelayer/callback.js:114-116 | a rendered amount reads back as the same amount |
| `JsFormat.RenderAmountShape` | api/truelayer/callback.js:116 | a rendered amount holds only digits, a point and a minus sign, and starts with "-" exactly when negative |
| `Decimal.FromNat` | api/truelayer/callback.js:116 | a non-negative number prints as digits with no leading zero, "0" only for zero |
| `Decimal.ToNatFromNat` | api/truelayer/callback.js:116 | printed digits read back as the number |
| `Text.ReplaceAll` | api/truelayer/callback.js:108-111 | the global replace keeps the length, changes exactly the occurrences of the replaced character, and leaves none of them |
| `Text.Join` | api/truelayer/callback.js:122 | `csvLines.join('\n')`: the parts with one separator between each two; `SplitJoin`, `JoinSplit` and `JoinCount` state its properties |
| `Text.Split` | api/truelayer/callback.js:122 | the reader of the joined text (the handler does not split): it yields at least one piece and no piece holds the separator |
| `Text.SplitJoin` | api/truelayer/callback.js:122 | reading back the join gives the parts when no part holds the separator |
| `Text.JoinSplit` | api/truelayer/callback.js:122 | every text is the join of the pieces the reader finds, so the join loses nothing the reader needs |
| `Text.SplitCount` | api/truelayer/callback.js:122 | the reader finds one piece more than the text has separators, which counts the lines of the joined output |
| `Text.JoinCount` | api/truelayer/callback.js:122 | a join holds one separator between each two parts besides those inside the parts |

## Left out

- Network calls are not modelled: the token exchange, the accounts and cards listings and the per-item transaction fetches. Their outcomes are inputs (`TokenExchange`, `Listing`, `TxFetch`). URL building, query strings and the bearer header are left out with them.
- `Promise.all` parallelism is not modelled. Every fetch is awaited before anything is used, so collection is modelled as sequential appends in source order.
- The 90-day window computed from the wall clock and its ISO formatting are left out. Time is an external input.
- Time-zone conversion inside `toLocaleDateString` is left out. A timestamp is given as an already-local `CalendarDate`. An unparsable timestamp (which the runtime prints as "Invalid Date") is not modelled.
- `JsFormat.FormatDate` prints the year in plain decimal without padding. This matches en-GB output for four-digit years; other years may print differently.
- Amounts are integers in hundredths, not JavaScript floating point. The rendering covers what `Number#toString` prints for such values (`-4.5`, `12`, `0.07`). Not modelled: magnitudes of 2^46 (about 7e13) or more, where a double no longer holds the cents and the printed digits can differ from the rendered hundredths; the exponent form for magnitudes of 1e21 or more; amounts with more than two decimals; and `NaN` from a missing amount.
- Malformed JSON shapes are not modelled. A null listing body, a per-item transaction body that parses to `null` (reading `r.results` throws, and the whole request ends in 500 instead of that fetch counting as no results), a truthy non-array listing `results` (`.map` throws) or a truthy non-iterable per-item `results` makes the code throw a `TypeError`. A string per-item `results` does not throw: it is spread into one record per character, each giving the row `,Unknown,NaN`. Transaction fields are typed (`Option<string>`, `int`).
- A listing body that cannot be parsed is modelled (`Unreadable`, which aborts with 500). An unparsable token body is folded into `TokenFailed`.
- CORS headers, environment-variable lookup and the hardcoded client-id fallback are left out as configuration. The secret is an input `Option<string>`.
- `api/claude/enrich.js` is not part of this model. It is a pass-through to an external chat API.
- CsvExport.CsvLines: the 1 + count line total is stated as an if-and-only-if on descriptions without line breaks, not unconditionally, because the code replaces commas but not line breaks. `CsvLineCount` gives the exact total in every case.
