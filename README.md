# Lightning invoices and bitcoin conversions, modelled in Dafny

This project models two parts of a small Lightning Network wallet tool.

- **The invoice data-access object** (`ln_invoice.py`):
  - how a memo is clipped to fit the 639-byte payment-request limit;
  - how every invoice in the node's `listinvoices` answer is cast, column by column, to the types of `COLUMN_TO_DTYPE`, with `state` then upper-cased;
  - the queries that the `LNInvoice` class answers from its table: a filter by query, by state, by creation time, the settled invoices, the first and last invoice, the sum and count of values, and the matching indices;
  - the amount and the `addinvoice` command line that `add` builds.
- **The currency converter** (`currency_converter.py`): the conversions between bitcoin, satoshis and a fiat currency, and how a rate is read from the price feed (`"65,432.10"` → `65432.10`).

Modules:

- `Wrappers`: `Option` and `Result`, which stand for Python's `None` and its exceptions.
- `JsonValues`: the values `json.loads` produces, shared by the invoice listing and the price feed.
- `Seqs`: selection and filtering of sequences, and sums over them.
- `PyText`: the parts of Python's `int(str)`, `Decimal(str)`, `str(int)`, `round` and `str.upper` that the core uses.
- `Memo`: `clip_memo`.
- `InvoiceSchema`: the column table and `get_df`.
- `LNInvoices`: the `LNInvoice` class and `add`.
- `CurrencyConverter`: `currency_converter.py`.

Modelling choices:

- A memo is a `string`. Its UTF-8 size is computed per character (1 to 4 bytes).
- A data-frame row is an `Invoice` datatype with one field per column. Keys outside the table are kept in an `extra` map.
- A pandas query string is modelled as a predicate on invoices. The table is the sequence field `invoices`, assigned only when the object is built (the source assigns `_df` only in `__init__`).
- `Decimal` values are exact `real`s: Python's default context, which rounds every product and quotient to 28 significant digits, is not modelled, so every arithmetic statement below holds in exact arithmetic. The constant `Decimal(1e-8)` is written out as the exact value of the double `1e-8`, and `Decimal(1e8)` as `100000000`.
- `sats_to_btc` is modelled as written, with that inexact constant. `SatsRoundTripDrifts` proves that `sats_to_btc(btc_to_sats(x))` is `x·(1+ε)` with `0 < ε < 1e-16`, not `x`.
- `get_df` is modelled with one correction: an empty invoice list gives an empty table, where the code as written raises KeyError 'state' (see Findings). `InvoiceSchema.Load`, `GetDf` and `LNInvoice.Open` follow the corrected behaviour; `InvoiceSchema.LoadAsWritten` is the code as written.
- `get_fist` and `get_last` raise `IndexError` on an empty table; here they return `None`.
- `fiat_to_btc` raises when the rate is zero. It becomes a `Result`: `InvalidOperation` for 0/0 and `DivisionByZero` otherwise, as `Decimal` does under its default context.
- Creation dates stay integer seconds since the epoch. Within the range `pd.to_datetime(…, unit="s")` accepts, it preserves order, so the before/on/after comparisons agree with comparisons of the seconds.
- `get_indices` and `get_first_index`, as written, lack `self` and refer to an undefined `df_`. The model gives them their documented meaning: the positions that match a query, or `None` when none do; and the first such position.

## Model

| member | source | states |
|---|---|---|
| Memo.Utf8Width | ln_invoice.py:50 | a character encodes to 1 to 4 UTF-8 bytes, and to 1 exactly when it is ASCII |
| Memo.Utf8Len | ln_invoice.py:50 | the UTF-8 size of a text is at least its length, and zero only for the empty text |
| Memo.Utf8LenOne | ln_invoice.py:50 | a one-character text takes exactly that character's width |
| Memo.Utf8LenAppend | ln_invoice.py:50-54 | the UTF-8 size of two texts joined is the sum of their sizes, which is what lets the loop keep a running total |
| Memo.ClippedMemo | ln_invoice.py:42-56 | the clipped memo fits in 639 bytes; a memo that already fits is returned unchanged; a memo that is too long comes back strictly under 639 bytes |
| Memo.ClipMemo | ln_invoice.py:50-56 | the loop over the characters, with its running `_memo`, returns exactly the clipped memo |
| Memo.GreedyFits | ln_invoice.py:51-54 | the greedy accumulation never reaches 639 bytes |
| Memo.ClippedMemoKeepsGreedily | ln_invoice.py:51-54 | a too-long memo keeps character i exactly when the bytes kept so far plus that character's bytes are under 639; later short characters may still be kept after a long one was dropped |
| Memo.GreedyKeepsAll | ln_invoice.py:51-54 | when the whole memo is under 639 bytes, the greedy pass keeps every character |
| Memo.ClippedMemoIdempotent | ln_invoice.py:42-56 | clipping a clipped memo changes nothing |
| Memo.ClippedMemoNotAlwaysPrefix | ln_invoice.py:51-54 | there is a too-long memo whose clipped form is not a prefix of it, because characters after a skipped one are still appended |
| Memo.ClippedMemoAscii | ln_invoice.py:50-55 | an ASCII memo longer than 639 bytes is cut to its first 638 characters |
| Memo.ClippedMemoAtLimit | ln_invoice.py:50 | a memo of exactly 639 bytes is returned whole, at 639 bytes, because the outer test is `>`; such a memo exists |
| PyText.ParseIntToString | ln_invoice.py:294 | the decimal text of an integer, as an f-string writes it, reads back as that integer under `int(str)` |
| PyText.ParseDecimalPoint | ln_invoice.py:91 | `Decimal` of digits, a point and digits (either run may be empty, not both, so ".5" is 0.5) is the whole part plus the fraction digits scaled by their count |
| PyText.ParseDecimalSignedPoint | ln_invoice.py:91 | the same text after a '-' reads as the negated value, and after a '+' as the same value |
| PyText.RoundHalfEven | ln_invoice.py:293 | `round` returns an integer within 0.5 of its argument, and an even one on a tie |
| PyText.AsciiUpper | ln_invoice.py:94 | upper-casing keeps the length, turns each lower-case letter into its capital (code point minus 32), and keeps every other character |
| PyText.AsciiUpperIdempotent | ln_invoice.py:94 | upper-casing twice is upper-casing once |
| InvoiceSchema.StatesUpper | ln_invoice.py:10 | every entry of STATES is already upper-case |
| InvoiceSchema.ColumnsDistinct | ln_invoice.py:11-39 | the 27 column names of COLUMN_TO_DTYPE are pairwise distinct |
| InvoiceSchema.Truthy | ln_invoice.py:17 | `bool(v)` is false exactly for None, False, 0, the empty text, the empty list and the empty dict |
| InvoiceSchema.ToStr | ln_invoice.py:12 | `str(v)` keeps a text as it is, spells an integer so that `int` reads it back, and spells booleans and None as Python does |
| InvoiceSchema.ToDecimal | ln_invoice.py:15 | a text converts exactly when it is an optional sign followed by digits with at most one point and at least one digit, so "abc" raises; wherever `int(v)` succeeds, `Decimal(v)` succeeds with the same value; None and dicts raise, and so do lists in this model |
| InvoiceSchema.ToDecimalPoint | ln_invoice.py:15 | `Decimal` of digits, a point and digits, either run possibly empty, is the whole part plus the fraction over ten to the number of fraction digits; after a '-' it is negated ("-1.5" is -1.5), after a '+' it is unchanged |
| PyText.ParseDecimalSucceedsIff | ln_invoice.py:15 | `Decimal(text)` succeeds exactly on the plain decimal texts |
| PyText.ParseIntSucceedsIff | ln_invoice.py:22 | `int(text)` succeeds exactly on one or more ASCII digits after at most one sign |
| InvoiceSchema.ToInt | ln_invoice.py:22 | `int(v)` keeps an integer, maps booleans to 1 and 0, and raises on None, lists and dicts; a text converts exactly when it is one or more digits after at most one sign (so "", "abc" and "1.5" raise), and its value is the digits' decimal value, negated after a '-' |
| InvoiceSchema.Cast | ln_invoice.py:90-91 | a successful cast has the column's type; `str` and `bool` casts never fail |
| InvoiceSchema.FirstBadColumn | ln_invoice.py:90-91 | the index of the first column that is missing or does not cast; every column before it is present and casts |
| InvoiceSchema.CastRecord | ln_invoice.py:90-91 | casting a record in table order succeeds exactly when no column is bad; otherwise it raises at the first bad column, with KeyError for a missing column and a cast error otherwise |
| InvoiceSchema.CastRecordContents | ln_invoice.py:90-91 | a cast record keeps the received keys; each column holds the cast of what was received under it; every other key holds what was received |
| InvoiceSchema.CastRecordFailsEarly | ln_invoice.py:90-91 | once a prefix of the columns raises, the columns after it do not change the outcome |
| InvoiceSchema.WellTypedHead | ln_invoice.py:12-20 | a fully cast record has memo, r_preimage, r_hash, value, value_msat, settled, creation_date, settle_date and payment_request of their table types |
| InvoiceSchema.WellTypedMiddle | ln_invoice.py:21-29 | the same for description_hash to amt_paid |
| InvoiceSchema.WellTypedTail | ln_invoice.py:30-38 | the same for amt_paid_sat to amp_invoice_state |
| InvoiceSchema.CoerceRecordSucceedsIff | ln_invoice.py:89-92 | `CoerceRecord` (lines 89-91 for one record): an invoice record converts exactly when all 27 columns are present and cast |
| InvoiceSchema.CoerceRecordMissingColumn | ln_invoice.py:91 | `CoerceRecord` (lines 89-91 for one record): a record without one of the columns raises, at that column or at an earlier bad one |
| InvoiceSchema.CoerceRecordCasts | ln_invoice.py:89-92 | `CoerceRecord` (lines 89-91 for one record): the invoice built from a converted record comes from the record's casts, column by column |
| InvoiceSchema.ToInvoiceFlags | ln_invoice.py:11-39 | settled, private, is_keysend and is_amp are the truthiness of the received values |
| InvoiceSchema.ToInvoiceFields | ln_invoice.py:11-39 | memo and state are `str` of the received values; value is their `Decimal`; creation_date is their `int` |
| InvoiceSchema.CoerceRecordFlags | ln_invoice.py:89-92 | `CoerceRecord` (lines 89-91 for one record): a converted invoice's four flags are the truthiness of what the node sent |
| InvoiceSchema.CoerceRecordFields | ln_invoice.py:89-92 | `CoerceRecord` (lines 89-91 for one record): a converted invoice's memo, state, value and creation date are the casts of what the node sent |
| InvoiceSchema.CoerceRecordExtra | ln_invoice.py:89-92 | `CoerceRecord` (lines 89-91 for one record): keys outside COLUMN_TO_DTYPE are kept unchanged |
| InvoiceSchema.FirstBadRecord | ln_invoice.py:89-92 | the index of the first invoice that does not convert; every invoice before it converts |
| InvoiceSchema.CoerceAll | ln_invoice.py:88-92 | the list converts exactly when no invoice is bad; each result is the conversion of its record, in order; otherwise the error is the first bad record's |
| InvoiceSchema.CoerceAllSucceedsIff | ln_invoice.py:88-92 | the list converts exactly when every invoice converts |
| InvoiceSchema.CoerceAllStep | ln_invoice.py:89-92 | converting one more good record appends its invoice to `_data` |
| InvoiceSchema.CoerceAllStopsAt | ln_invoice.py:89-92 | the first bad record ends the whole load with its error |
| InvoiceSchema.CoerceAllFailsEarly | ln_invoice.py:89-92 | records after a failing prefix do not change the outcome |
| InvoiceSchema.UpperStates | ln_invoice.py:94 | upper-casing the states keeps the number of invoices, changes nothing but each state, and makes each new state the old one upper-cased |
| InvoiceSchema.Load | ln_invoice.py:86-99 | the corrected `get_df` (an empty list gives an empty table; `LoadAsWritten` raises there): the load succeeds exactly when `invoices` is a list of objects that all convert, and then yields one invoice per record |
| InvoiceSchema.LoadKeepsRecords | ln_invoice.py:86-94 | the i-th invoice is the conversion of the i-th record with its state upper-cased |
| InvoiceSchema.LoadStatesUpper | ln_invoice.py:94 | every loaded state is upper-case |
| InvoiceSchema.LoadFailsOnMissingColumn | ln_invoice.py:89-91 | a record lacking any column makes the load fail |
| InvoiceSchema.LoadFailsOnBadValue | ln_invoice.py:89-91 | a record holding a value that its column's dtype cannot cast makes the load fail |
| InvoiceSchema.LoadFailsOnNonNumericDate | ln_invoice.py:89-91 | a record whose `creation_date` is text that `int()` rejects, such as "abc", makes the load fail |
| InvoiceSchema.EmptyListingRaisesAsWritten | ln_invoice.py:93-94 | with no invoices, the code as written raises KeyError 'state', while the corrected load yields an empty table |
| InvoiceSchema.LoadAsWritten | ln_invoice.py:86-99 | `get_df` as written agrees with the corrected load wherever it succeeds, and raises exactly where the corrected load raises or the invoice list is empty, with KeyError 'state' in the latter case |
| InvoiceSchema.CastColumnsInPlace | ln_invoice.py:90-91 | the in-place loop over the columns ends with the cast record, or raises as the record cast does |
| InvoiceSchema.CoerceRecordInPlace | ln_invoice.py:89-92 | the conversion of one record agrees with the conversion function |
| InvoiceSchema.CoerceRecords | ln_invoice.py:88-92 | the loop that appends each converted record to `_data` agrees with the whole-list conversion |
| InvoiceSchema.GetDf | ln_invoice.py:79-99 | the corrected `get_df` as a sequence of steps yields exactly the corrected load (on an empty list: an empty table, where the code as written raises) |
| LNInvoices.LNInvoice.Open | ln_invoice.py:62-65 | the object exists exactly when its table loads under the corrected `get_df`; its table is the loaded one, and the error is the load's |
| LNInvoices.LNInvoice.Query | ln_invoice.py:244-254 | the rows that satisfy the query, in table order and no more of them; with no query, the whole table |
| LNInvoices.LNInvoice.Total | ln_invoice.py:111-120 | `get_sum` with no query is the sum of all values; the sum over a query plus the sum over the invoices failing it is the sum of all values |
| LNInvoices.LNInvoice.NumberOfInvoices | ln_invoice.py:168-176 | the count is at most the table size, is the table size with no query, and is the number of matching positions |
| LNInvoices.LNInvoice.WithState | ln_invoice.py:178-188 | for a state in STATES, the rows whose state equals it; any other argument returns the whole table |
| LNInvoices.LNInvoice.LowerCaseStateKeepsAll | ln_invoice.py:186-188 | "open" and "settled" are not in STATES, so they return the whole table rather than a filter |
| LNInvoices.LNInvoice.CreatedAfter | ln_invoice.py:190-198 | the rows created strictly after the given time, in order |
| LNInvoices.LNInvoice.CreatedBefore | ln_invoice.py:200-208 | the rows created strictly before the given time, in order |
| LNInvoices.LNInvoice.CreatedOn | ln_invoice.py:210-218 | the rows created at exactly the given time, in order |
| LNInvoices.LNInvoice.CreationTrichotomy | ln_invoice.py:190-218 | before, on and after together count every invoice exactly once |
| LNInvoices.LNInvoice.Settled | ln_invoice.py:220-226 | the settled rows, in order |
| LNInvoices.LNInvoice.First | ln_invoice.py:228-234 | the first row, present exactly when the table is not empty |
| LNInvoices.LNInvoice.Last | ln_invoice.py:236-242 | the last row, present exactly when the table is not empty |
| LNInvoices.LNInvoice.Indices | ln_invoice.py:256-267 | `None` exactly when no row matches; otherwise the increasing positions of all matching rows and only those |
| LNInvoices.LNInvoice.FirstIndex | ln_invoice.py:269-283 | `None` exactly when no row matches; otherwise a matching position with no match before it |
| LNInvoices.LNInvoice.TotalPartition | ln_invoice.py:111-120 | the sum over a query plus the sum over its negation is the sum of all values |
| LNInvoices.LNInvoice.CountPartition | ln_invoice.py:168-176 | the count for a query plus the count for its negation is the number of invoices |
| LNInvoices.LNInvoice.TotalOfNothing | ln_invoice.py:111-120 | a query no invoice satisfies sums to 0 and counts 0 |
| LNInvoices.LNInvoice.TotalScenario | ln_invoice.py:111-120 | a table of invoices of 10, 20 and 30 sat has `get_sum` 60 and `get_number_of_invoices` 3 |
| LNInvoices.AmountMsat | ln_invoice.py:293 | the millisatoshi amount is within 0.5 of 1000 times the satoshi amount |
| LNInvoices.AmountMsatWhole | ln_invoice.py:293 | a whole number of satoshis gives exactly 1000 times as many millisatoshis |
| LNInvoices.AmountMsatTies | ln_invoice.py:293 | halves round to even: 0.0005 sat → 0, 0.0015 → 2, 0.0025 → 2 msat |
| LNInvoices.AddCommand | ln_invoice.py:294 | the command is `addinvoice --amt_msat A --memo "M" --expiry E`, where A reads back as the rounded amount, M is the clipped memo (at most 639 bytes) and E reads back as the expiry |
| LNInvoices.AddScenario | ln_invoice.py:293-294 | 69 sat is 69000 msat; a memo of 1000 'A's is clipped to 638 |
| CurrencyConverter.BtcToSats | currency_converter.py:24-32 | a non-negative bitcoin amount is not fewer satoshis than bitcoins |
| CurrencyConverter.SatsToBtc | currency_converter.py:35-43 | a positive satoshi amount is a smaller positive bitcoin amount; zero maps to zero and only zero does |
| CurrencyConverter.BtcToFiat | currency_converter.py:46-56 | dividing the fiat amount by a non-zero rate gives the bitcoin back; the result is zero exactly when the amount or the rate is |
| CurrencyConverter.BtcPerSatNearlyExact | currency_converter.py:43 | `Decimal(1e-8)` exceeds 10⁻⁸ by less than 10⁻²⁴, so one satoshi round-trips with a relative excess ε where 0 < ε < 10⁻¹⁶ |
| CurrencyConverter.ConversionsLinear | currency_converter.py:24-43 | both satoshi conversions are additive and scale with a factor |
| CurrencyConverter.ConversionsMonotone | currency_converter.py:24-43 | both satoshi conversions are strictly increasing |
| CurrencyConverter.SatsRoundTripDrifts | currency_converter.py:24-43 | in exact arithmetic, bitcoin → satoshi → bitcoin multiplies by 1+ε and so changes every non-zero amount |
| CurrencyConverter.OneBitcoinRoundTrip | currency_converter.py:24-43 | one bitcoin is 10⁸ satoshis; the exact product of 10⁸ and `Decimal(1e-8)` is 1.0000000000000000209225608301284726753266340892878361046314239501953125, which Python's 28-digit context stores as 1.000000000000000020922560830 |
| CurrencyConverter.FiatToBtc | currency_converter.py:59-69 | succeeds exactly when the rate is not zero, and the result times the rate is the fiat amount; the error is InvalidOperation exactly for 0/0 |
| CurrencyConverter.FiatRoundTrips | currency_converter.py:46-69 | in exact arithmetic, at a non-zero rate, bitcoin → fiat → bitcoin and fiat → bitcoin → fiat are the identity |
| CurrencyConverter.SatsToFiatClosedForm | currency_converter.py:72-83 | satoshis to fiat is sats × BtcPerSat × rate |
| CurrencyConverter.SatsToFiat | currency_converter.py:72-83 | the fiat amount is zero exactly when the satoshis or the rate are; at a positive rate it is positive exactly when the satoshis are |
| CurrencyConverter.SatsFiatRoundTrip | currency_converter.py:72-97 | in exact arithmetic, satoshis → fiat → satoshis at a non-zero rate multiplies by the same 1+ε as the bitcoin round trip |
| CurrencyConverter.FiatToSats | currency_converter.py:86-97 | fiat to satoshis succeeds exactly when the rate is not zero, and then the satoshis times the rate are 10⁸ times the fiat amount; otherwise it raises as `fiat_to_btc` does |
| CurrencyConverter.FiatToSatsClosedForm | currency_converter.py:86-97 | at a non-zero rate, the satoshis are fiat / rate × 10⁸ |
| CurrencyConverter.FiatToSatsZeroRate | currency_converter.py:86-97 | at rate zero the division raises, as InvalidOperation for 0 fiat and DivisionByZero otherwise |
| CurrencyConverter.StripCommas | currency_converter.py:20 | the stripped text has no comma and is no longer than the original |
| CurrencyConverter.StripCommasKeepsOthers | currency_converter.py:20 | stripping keeps every other character, in order |
| CurrencyConverter.StripCommasAppend | currency_converter.py:20 | stripping a concatenation strips each part |
| CurrencyConverter.StripCommasNoComma | currency_converter.py:20 | text without commas is unchanged |
| CurrencyConverter.StripCommasTwice | currency_converter.py:20 | stripping is idempotent |
| CurrencyConverter.StripCommasJoins | currency_converter.py:20 | a thousands separator between two comma-free parts disappears and joins them |
| CurrencyConverter.BtcRate | currency_converter.py:10-21 | the rate is read exactly when `bpi`/fiat/`rate` is a string that parses as a Decimal once commas are stripped, and it is that Decimal; a string that does not parse is a malformed rate |
| CurrencyConverter.RateScenario | currency_converter.py:18-21 | a feed with USD rate "65,432.10" gives 65432.10 for USD and a missing-key error for EUR |
| CurrencyConverter.RateTextParses | currency_converter.py:20 | `Decimal("65432.10")` is 65432.10 |

## Left out

- The node transport (`Node.exec_ln_command` over the node's command line) is not part of this model. `get_df` takes the parsed `listinvoices` answer as a parameter, and the reply that `add` receives is not modelled: `add` is modelled up to the command line it builds.
- The HTTP request to the price feed: `_get_btc_rate` takes the parsed JSON body as a parameter, and every fiat conversion takes the rate as a parameter.
- CurrencyConverter.BtcToSats: `Decimal` rounding to 28 significant digits under the default context is not modelled; all conversions use exact rationals.
- CurrencyConverter.FiatRoundTrips: holds in exact arithmetic only. Under the 28-digit context, 1 fiat at rate 3 comes back as 0.9999999999999999999999999999. It also takes one rate for both legs, where `btc_to_fiat` and `fiat_to_btc` each fetch the rate afresh, so it needs the two fetches to return the same rate.
- CurrencyConverter.SatsRoundTripDrifts: the factor 1+ε is exact-arithmetic; Python rounds the product to 28 significant digits.
- CurrencyConverter.SatsFiatRoundTrip: the factor 1+ε is exact-arithmetic; Python rounds each product and quotient to 28 significant digits. Both legs use one rate, where the source fetches the rate once per conversion, so it needs the two fetches to return the same rate.
- CurrencyConverter.OneBitcoinRoundTrip: states the exact product; Python's result is that product rounded to 28 significant digits.
- InvoiceSchema.ToDecimal: `Decimal(str)` is modelled for optionally signed digit strings with at most one point. Exponents, surrounding whitespace, underscores, `NaN`, `Infinity` and non-ASCII Unicode digits (which `Decimal` accepts) are treated as failures. A list is always a failure here, but CPython's `Decimal` accepts a list in the tuple form `[sign, digits, exponent]` (`Decimal([0, [1, 2], -1])` is 1.2).
- InvoiceSchema.ToInt: `int(str)` is modelled for optionally signed ASCII digit strings. Whitespace, underscores and non-ASCII digits are treated as failures.
- JsonValues.Json: JSON numbers with a fraction or exponent are not represented.
- InvoiceSchema.ToStr: `str` of a list or a dict is a parameter (`repr`) rather than Python's repr.
- PyText.AsciiUpper: `str.upper` is modelled on ASCII letters only. Full Unicode case mapping is not.
- InvoiceSchema.Load: `pd.to_datetime` of `creation_date` and `settle_date` is left as integer seconds. It preserves order, so the date comparisons of the queries are the same. It also raises OutOfBoundsDatetime for seconds outside the datetime64[ns] range (about the years 1677 to 2262); the model does not, so `Load` succeeds on some inputs where `get_df` raises.
- LNInvoices.LNInvoice.Query: the pandas query language is not parsed. A query is any predicate on an invoice. Aliasing is not modelled: `get_query(None)` returns `self._df` itself, so a caller that mutates that result changes the object's table; here the result is a value.
- LNInvoices.LNInvoice.CreatedAfter: the argument is a time in seconds rather than a date string that pandas would parse. The same holds for `CreatedBefore` and `CreatedOn`. pandas reads a day such as "2021-12-28" as that day's midnight and compares instants. So `get_created_on` with a day keeps only the invoices created at exactly 00:00:00, not all that day's invoices as its docstring (ln_invoice.py:211) says. Likewise `get_created_after` with a day keeps the invoices created later that same day. The model compares instants as the code does. A day-range reading, `t <= creation_date < t + 86400`, is not modelled.
- LNInvoices.LNInvoice.First: an empty table gives `None` rather than raising IndexError. The same holds for `Last`.
- LNInvoices.LNInvoice.Indices: modelled as documented rather than as written. As written, the method lacks `self` and names an undefined `df_`, so a call raises. `FirstIndex` likewise.
- The row labels of the data frame are taken to be the positions 0..n-1, which is what `pd.DataFrame` of a list gives.
- `get_compressed_df` (a column projection) and `to_csv` (file output) are not modelled.
- `get_mean` and `get_median` are not modelled: they are floating-point statistics.
- `get_sigma`, `get_sigma_mad`, `pay` and `cancel_at_index` have no behaviour: their bodies are `pass`.
- LNInvoices.AddCommand: the memo is inserted between double quotes without escaping, as in the source. Shell quoting of the command line is not modelled.
- The default argument `state="UNKNOWN"` of `get_with_state` and `expiry_time=86400` of `add` are not modelled as defaults. Callers pass the value.

## Findings

| source | as written | input that shows it | evidently intended | confidence | as-written member | corrected member |
|---|---|---|---|---|---|---|
| ln_invoice.py:93-94 | `pd.DataFrame([])` has no `state` column, so `df["state"]` raises KeyError | a node with no invoices: `{"invoices": []}` | an empty invoice table | not executed | InvoiceSchema.EmptyListingRaisesAsWritten | InvoiceSchema.Load |
