# Stock record collectors — record logic in Dafny

The repository has two scripts that collect stock quotes into CSV files.
`teste-2.py` queries the Alpha Vantage API: a GLOBAL_QUOTE request and an
OVERVIEW request per symbol. `teste-1.py` scrapes the Yahoo Finance quote
page. Both scripts build the same flat ten-column record: symbol, name,
price, change, change_percent, volume, market_cap, pe_ratio,
collection_date and source. A field that could not be resolved holds the
sentinel "N/A". Both keep the records of the symbols that succeeded, and
both name the output file after the clock.

This project models that record layer:

- `records.dfy` (`Records`) holds the record and its column set, the
  ten-key dict literal, and `Successes`. `Successes` is the filter both
  collector loops apply to the per-symbol outcomes.
- `clock.dfy` (`Clock`) holds the two `strftime` formats in use and
  proves that both can be read back.
- `text.dfy` (`Text`) holds the string and path operations the scripts
  rely on:
  - `str.strip()`, with Python's whitespace set;
  - `str.split(c)[0]`;
  - POSIX `os.path.join`.
- `alpha_vantage.dfy` (`AlphaVantage`) models `teste-2.py`:
  - reply classification;
  - the quote and overview parsers;
  - the in-place merge, as a method with a loop, proved equal to the
    `Merged` function;
  - the collector loop, as a method, proved equal to `Successes` of the
    per-symbol outcomes;
  - the output path rule.
- `yahoo_finance.dfy` (`YahooFinance`) models `teste-1.py`:
  - page fetch classification;
  - the record builder, with company-name extraction;
  - `scrape_stock`;
  - the collector loop;
  - the output path rule.

The network, the decoded JSON, the results of the HTML lookups and the
clock are inputs. Each per-symbol exchange is a value: a `Reply` and the
`DateTime` at which it was parsed. Each `soup.find` result is an
`Option<string>`.

One consequence of the code as written follows from
`AlphaVantage.CompleteStockDataFields`. The quote record's name is always
the symbol, which is not "N/A". The merge only fills "N/A" fields, so the
company name from the OVERVIEW reply never reaches the merged record. The
one exception is the symbol "N/A" itself.

## Model

| member | source | states |
|---|---|---|
| Records.ColumnsListEachKeyOnce | teste-2.py:109-120 | the CSV column order lists each of the ten columns exactly once, and no two columns share a dict key |
| Records.HasColumnsIsColumnOrder | teste-2.py:109-120 | a record has all ten columns exactly when it holds every column of the CSV order |
| Records.MakeRecord | teste-2.py:109-120 | the record literal holds all ten columns, each with the value given for it |
| Records.Successes | teste-2.py:229-234 | the collected records are never more than the symbols tried |
| Records.SuccessesConcat | teste-2.py:231-234 | what a later stretch of symbols yields does not depend on how an earlier stretch went |
| Records.SuccessesSnoc | teste-2.py:232-234 | one more symbol appends its record, or nothing when it failed |
| Records.SuccessesStep | teste-2.py:231-234 | after the `i`-th symbol, the list holds the records of the first `i + 1` outcomes |
| Records.SuccessesFirstOfTwo | teste-1.py:182-185 | of two symbols where only the first succeeds, exactly the first record is kept |
| Records.FailureIsSkipped | teste-2.py:231-234 | a failed symbol adds nothing and does not stop the symbols after it |
| Records.SuccessesMembership | teste-2.py:232-234 | a record is collected exactly when it is one of the successful outcomes |
| Records.SuccessesAllSome | teste-2.py:232-234 | when every symbol succeeds, every record is kept, in input order |
| Clock.Pad2 | teste-2.py:118 | two decimal digits, zero-padded, which read back as the number written |
| Clock.Year4 | teste-2.py:118 | four decimal digits, which read back as the year written |
| Clock.LongStamp | teste-2.py:118 | "%Y-%m-%d %H:%M:%S" is 19 characters: "-", "-", " ", ":", ":" at positions 4, 7, 10, 13, 16 and a decimal digit everywhere else |
| Clock.CompactStamp | teste-2.py:253 | "%Y%m%d_%H%M%S" is 15 characters: "_" at position 8 and a decimal digit everywhere else |
| Clock.LongRoundTrip | teste-2.py:118 | the collection date loses nothing: the reading is recovered from it |
| Clock.CompactRoundTrip | teste-2.py:253 | the file-name stamp loses nothing: the reading is recovered from it |
| Clock.CompactInjective | teste-2.py:253 | different readings give different file-name stamps |
| Text.SkipSpace | teste-1.py:104 | the scan stops at the first non-whitespace character, having passed only whitespace |
| Text.SkipSpaceBack | teste-1.py:104 | the backward scan stops just after the last non-whitespace character, having passed only whitespace |
| Text.Strip | teste-1.py:104 | `strip()` leaves an infix of the text with no whitespace at either end and only whitespace cut from either side |
| Text.SkipSpaceAt | teste-1.py:104 | the forward scan stops at the only place it can: the first non-whitespace character or the end |
| Text.SkipSpaceBackAt | teste-1.py:104 | the backward scan stops at the only place it can |
| Text.StripAt | teste-1.py:104 | `strip()` is determined: an infix with non-whitespace ends and only whitespace around it is the result |
| Text.StripAllSpace | teste-1.py:104 | text made of whitespace only strips to the empty text |
| Text.StripKeepsOnlyInput | teste-1.py:104 | every character of the stripped text occurs in the original |
| Text.StripTrimmed | teste-1.py:104 | text with no whitespace at either end is left unchanged |
| Text.StripIdempotent | teste-1.py:104 | stripping twice is stripping once |
| Text.BeforeFirst | teste-1.py:104 | `split(c)[0]` is the longest prefix without `c`: it is followed by `c` or by the end of the text |
| Text.BeforeFirstAt | teste-1.py:104 | `split(c)[0]` of a text `p + c + rest`, where `p` holds no `c`, is `p` |
| Text.JoinPath | teste-2.py:256 | an absolute name replaces the directory; a relative name follows the directory after exactly one "/", which is left out when the directory is empty or already ends in "/" |
| Text.JoinPathInjective | teste-2.py:256 | in one directory, distinct relative names of the same length give distinct paths |
| AlphaVantage.MakeRequest | teste-2.py:70-84 | the payload is returned, unchanged, iff the status is 200 and neither "Error Message" nor "Information" is present; otherwise None |
| AlphaVantage.Get | teste-2.py:112-115 | `dict.get`: the stored value when the key is present, the default otherwise |
| AlphaVantage.GetText | teste-2.py:145-151 | `data.get` on the payload: the stored text when present, the default when absent |
| AlphaVantage.ParseQuoteData | teste-2.py:101-124 | None iff "Global Quote" is absent or not an object. Otherwise the record has all ten columns: the symbol twice (symbol and name), the four market figures from their quote entries or "N/A", "N/A" market cap and P/E, the collection date and the source |
| AlphaVantage.ParseOverviewData | teste-2.py:137-158 | None iff "Symbol" is absent. Otherwise the record has all ten columns: name from "Name" or the symbol, market cap and P/E from their members or "N/A", "N/A" for the four market figures, the collection date and the source |
| AlphaVantage.GetStockQuote | teste-2.py:170-174 | a quote record exactly when the request succeeds and the payload carries an object "Global Quote"; it is then the parse of that payload |
| AlphaVantage.GetCompanyOverview | teste-2.py:186-190 | an overview record exactly when the request succeeds and the payload carries "Symbol"; it is then the parse of that payload |
| AlphaVantage.MergeOverview | teste-2.py:211-215 | the in-place loop over the overview's keys produces the quote with each "N/A" field filled from a non-"N/A" overview value |
| AlphaVantage.MergeOnlyFillsSentinels | teste-2.py:213-215 | the merge keeps the key set and every non-"N/A" quote field; a field changes only from "N/A" to a non-"N/A" overview value |
| AlphaVantage.MergeMonotone | teste-2.py:213-215 | the merge never introduces "N/A", and merging the same overview again changes nothing |
| AlphaVantage.GetCompleteStockData | teste-2.py:203-217 | quote first; no quote gives None; a failed overview leaves the quote; otherwise the merge of the two |
| AlphaVantage.CompleteStockDataOutcome | teste-2.py:203-217 | None iff the quote step failed; if the overview step fails, the result is the quote record unmodified |
| AlphaVantage.CompleteStockDataFields | teste-2.py:203-217 | the result has all ten columns. Symbol, collection date and source come from the quote, as do the four market figures. The name is the symbol unless the symbol is "N/A". Market cap and P/E come from the overview when it succeeded |
| AlphaVantage.Outcomes | teste-2.py:231-232 | one outcome per symbol |
| AlphaVantage.OutcomesAt | teste-2.py:231-232 | the outcome at position `i` is that of the `i`-th symbol alone |
| AlphaVantage.GetMultipleStocksData | teste-2.py:229-239 | the collected records are exactly the successful outcomes, in input order, and no more than the symbols |
| AlphaVantage.CollectedRecordsComplete | teste-2.py:229-234 | every collected record has all ten columns and the symbol of one of the requested symbols |
| AlphaVantage.DefaultFileName | teste-2.py:252-254 | the generated name is 35 characters and relative |
| AlphaVantage.SaveToCsv | teste-2.py:252-260 | the path is the output directory joined with the given name, or, with none, with "stocks_api_data_" + stamp + ".csv"; that default path starts with the directory and ends with the generated name |
| AlphaVantage.DefaultPathsDiffer | teste-2.py:252-256 | runs at readings that differ to the second never choose the same default path |
| YahooFinance.FetchPage | teste-1.py:78-86 | the page text iff the status is 200; None for other statuses and for a failed request |
| YahooFinance.ExtractName | teste-1.py:103-104 | without a heading, the symbol. With one, the stripped text before the first "(", which has no "(" and no surrounding whitespace; a heading already in that form is returned as is |
| YahooFinance.ExtractNameOfHeading | teste-1.py:104 | a heading made of a company name, whitespace, "(" and anything after it gives exactly the company name |
| YahooFinance.ExtractNameExample | teste-1.py:104 | the heading "Apple Inc. (AAPL)" gives the name "Apple Inc." |
| YahooFinance.TextOr | teste-1.py:107-128 | a lookup's text when it matched, "N/A" otherwise |
| YahooFinance.ParseData | teste-1.py:99-144 | all ten columns are always present. Each figure comes from its own lookup or is "N/A"; the name is extracted; the symbol, collection date and source are set |
| YahooFinance.ParseDataFieldsIndependent | teste-1.py:106-128 | each of the six figures and the name depends on its own lookup only |
| YahooFinance.ScrapeStock | teste-1.py:160-168 | a record iff the fetch gives status 200 and a non-empty page; it is then the parse of that page |
| YahooFinance.Outcomes | teste-1.py:182-183 | one outcome per symbol |
| YahooFinance.OutcomesAt | teste-1.py:182-183 | the outcome at position `i` is that of the `i`-th symbol alone |
| YahooFinance.ScrapeMultipleStocks | teste-1.py:180-190 | the collected records are exactly the successful outcomes, in input order, and no more than the symbols |
| YahooFinance.CollectedRecordsComplete | teste-1.py:180-185 | every collected record has all ten columns and the symbol of one of the requested symbols |
| YahooFinance.SecondSymbolFails | teste-1.py:180-185 | when the first page loads (status 200, any non-empty text) and the second symbol fails (a failed request, another status or an empty page), exactly the first symbol's record is collected |
| YahooFinance.DefaultFileName | teste-1.py:203-205 | the generated name is 31 characters and relative |
| YahooFinance.SaveToCsv | teste-1.py:203-211 | the path is the output directory joined with the given name, or, with none, with "stocks_data_" + stamp + ".csv"; that default path starts with the directory and ends with the generated name |
| YahooFinance.DefaultPathsDiffer | teste-1.py:203-207 | runs at readings that differ to the second never choose the same default path |

## Left out

- HTTP sessions, headers, timeouts, query parameters and base URLs. Each exchange is a `Reply` input.
- JSON decoding (`response.json()`). The decoded object is an input, and the model's reply body is always a JSON object. A body that is not JSON makes `response.json()` raise `requests.exceptions.JSONDecodeError` (a `RequestException` in requests 2.27 and later), which the handler at teste-2.py:86-88 turns into None; the model expresses that outcome as `RequestFailed`.
- A top-level JSON value that is not an object is not modelled. An array or string that holds neither "Error Message" nor "Information" (as an element, or as a substring) ends in None through the tests at teste-2.py:74, 77 and 102 or 138. One that holds either text makes line 75 or 78 index it with a string, which raises `TypeError`; a null, number or boolean makes the test at line 74 raise `TypeError`. Both errors escape every handler and abort the whole `get_multiple_stocks_data` run, so in these cases a failing symbol does stop the symbols after it.
- AlphaVantage.GetText: payload members that are null, numbers, booleans or arrays are not modelled (a `Json` value is a string or an object of strings). `data.get('Name', symbol)` (teste-2.py:145) would store such a value, for example `None` for a null "Name", as it is.
- HTML parsing and `soup.find` matching. Each lookup's result is an `Option<string>` input.
- AlphaVantage.ParseQuoteData: each "Global Quote" entry is taken to be a string. Nested values inside the quote object are not modelled.
- AlphaVantage.GetText: an object-valued "Name", "MarketCapitalization" or "PERatio" is read as absent. In Python the object itself would be stored in the record.
- YahooFinance.ParseData: the catch-all handler (teste-1.py:146-148) is not modelled, so a page always yields a record. The lookups are inputs, so nothing in the modelled part raises.
- `time.sleep` and `_get_random_delay`, which are timing, randomness and floating point.
- The clock itself. Each reading is a `DateTime` parameter, limited to four-digit years.
- Sub-second clock precision. `datetime.now()` carries microseconds, but a `DateTime` is truncated to the second, as both `strftime` formats are. Two runs within the same second pick the same default file name, and the second run's `to_csv` overwrites the first file. `DefaultPathsDiffer` covers only readings that differ to the second.
- pandas DataFrame construction, `to_csv`, the CSV text, and `os.makedirs`. The collectors return the list of records, and `save_to_csv` returns the path.
- The `os.path.join` model covers POSIX only.
- Logging, the API-key warning, and both `main` entry points.
- Record keys are the `Column` constructors, not strings. `Records.Key` gives each one's dict key.
