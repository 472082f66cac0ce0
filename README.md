# Currency exchange rate fetcher — a Dafny model

`lab02/currency_exchange_rate.py` fetches an exchange rate for a
(source currency, target currency, date) triple from a local HTTP service.
It does the following, in order:

1. resolves an API key;
2. asks the service which currency codes it knows, falling back to a fixed set of six codes when that call fails for any reason;
3. validates both codes and the date;
4. asks for the rate;
5. saves the returned record as `data/<FROM>_to_<TO>_<DATE>.json`.

Any failure is reported as `FAILED: ...` on standard error and in `error.log`.

This project models the decision logic of that script as pure Dafny
functions over plain data, and proves what each step promises.

| module | file | models |
|---|---|---|
| `Options` | options.dfy | `None` versus a value |
| `Json` | json.dfy | decoded JSON bodies, Python truthiness, `dict.get`, `set(...)` |
| `Text` | text.dfy | `str` ordering and `sorted`, `str.upper()`, zero-padded decimals |
| `Calendar` | calendar.dfy | `datetime.date`, its ordering and `isoformat()` |
| `Failures` | failures.dfy | the exceptions raised, as an `Error` datatype, and `Result` |
| `Credentials` | credentials.dfy | `load_api_key` |
| `Validators` | validators.dfy | `validate_currency`, `parse_date`, `check_range` |
| `ExchangeService` | exchange_service.dfy | the requests sent and the decisions of `fetch_currencies` and `fetch_rate` |
| `Artifact` | artifact.dfy | the file name computed by `save_json` |
| `Pipeline` | pipeline.dfy | `main`: step order and short-circuiting |

Environment variables are a `map<string, string>`. The HTTP service is a
function `Request -> Response`. A `Response` is one of:

- no response at all (`requests.post` raised);
- an HTTP status with a body that is not JSON;
- an HTTP status with a decoded JSON document.

`Pipeline.Execute` returns the requests it sent, in order, and the outcome
of the run. The outcome is either the artifact it saved (file name and
record) or the one error it reported.

The model follows these details of the code:

- `raise_for_status` rejects only statuses 400-599.
- A JSON body that is not an object is its own failure: `payload.get` raises `AttributeError`.
- Currency discovery keeps whatever `set(data or [])` yields. A `data` dict gives its keys and a `data` string gives its characters; a `data` value that `set()` rejects gives the fallback set.
- The date is read by `datetime.strptime`, which is more lenient than a strict `YYYY-MM-DD` pattern.
- The unknown-currency message is built with `sorted` and `join`. When the allowed set holds a non-string, building it raises `TypeError`, which the model keeps as a separate error.

## Model

| member | source | states |
|---|---|---|
| `Credentials.LoadApiKey` | lab02/currency_exchange_rate.py:39-45 | A non-empty `--api-key` is returned as it is. The call fails with `MissingApiKey` exactly when the CLI key, `API_KEY` and `LAB02_API_KEY` are all empty or unset. Otherwise the key is non-empty, is one of the three, and every source ahead of it in precedence is empty. |
| `Credentials.LoadApiKeyIsFirstNonEmpty` | lab02/currency_exchange_rate.py:39-45 | The resolved key equals an independent "first non-empty candidate" reading of the precedence chain, and it fails exactly when that reading finds none. |
| `Validators.ValidateCurrency` | lab02/currency_exchange_rate.py:48-54 | Accepts exactly when the upper-cased input (`None` read as `''`) is three letters A-Z and the allowed set is empty or contains it. On success it returns that upper-cased text. A malformed code is a format error whatever the allowed set. A well-formed code that is rejected gets the unknown-code error. |
| `Validators.UnknownCodeError` | lab02/currency_exchange_rate.py:52-53 | When every allowed value is a string, the unknown-code error lists each allowed code once, in ascending order. When any allowed value is not a string, it is exactly `UnlistableAllowedSet(code)`, the `TypeError` raised while the message is built. |
| `Text.SortedListing` | lab02/currency_exchange_rate.py:53 | `sorted()` of a set of strings: the same elements, each once, strictly ascending by code point. |
| `Text.UpperIdempotent` | lab02/currency_exchange_rate.py:49 | Upper-casing twice gives the same text as upper-casing once. |
| `Validators.ValidateIdempotent` | lab02/currency_exchange_rate.py:49-54 | Validating an accepted code again, against the same set, returns it unchanged. |
| `Validators.ValidateCapitalCode` | lab02/currency_exchange_rate.py:49-53 | A code already in capitals is accepted, unchanged, exactly when the allowed set is empty or holds it. Otherwise it fails with the unknown-code error. |
| `Validators.ValidateLowerCase` | lab02/currency_exchange_rate.py:49-50 | `usd` is accepted as `USD`, and `ßa` as `SSA` (full case mapping). |
| `Validators.ValidateMalformed` | lab02/currency_exchange_rate.py:49-51 | `US1` is a format error, and so is `None`, even with a non-empty allowed set. |
| `Validators.ValidateUnknown` | lab02/currency_exchange_rate.py:52-53 | `GBP` against {USD, EUR} fails as unknown, listing `EUR, USD` in that order. |
| `Validators.ParseDate` | lab02/currency_exchange_rate.py:56-60 | Succeeds exactly when the matched numbers form a real date. The year must be 1-9999, the month 1-12, and the day within the month under the leap-year rule. On success it returns that date; every failure is `InvalidDate`. |
| `Validators.LeapDay` | lab02/currency_exchange_rate.py:56-60 | February 29 is accepted exactly in leap years. |
| `Validators.ParseDateExamples` | lab02/currency_exchange_rate.py:56-60 | 2025-13-01, 2025-02-30, 2025-02-29, 1900-02-29, 2025-04-31 and year 0 fail. 2024-02-29 and 2000-02-29 succeed. |
| `Validators.CheckRange` | lab02/currency_exchange_rate.py:62-67 | Returns `d` unchanged exactly when 2025-01-01 <= d <= 2025-09-15 under date ordering. Otherwise it fails with `DateOutOfRange(d)`. |
| `Validators.CheckRangeByFields` | lab02/currency_exchange_rate.py:62-67 | The accepted dates are exactly those of 2025 up to and including September 15. |
| `Validators.CheckRangeBoundaries` | lab02/currency_exchange_rate.py:62-67 | Both window ends are accepted. 2024-12-31, 2025-09-16 and 2025-10-01 are rejected. |
| `Json.PySet` | lab02/currency_exchange_rate.py:77 | `set(x)`: a list gives its items, or `TypeError` if an item is a list or dict. A dict gives its keys. A string gives exactly the set of its one-character substrings. A number, bool or `None` gives `TypeError`. |
| `ExchangeService.FetchCurrencies` | lab02/currency_exchange_rate.py:70-80 | Gives exactly the six-code fallback set when any of these happens: no response, a 4xx/5xx status, a non-JSON or non-object body, a truthy `error` field, or a `data` value `set()` rejects. A falsy or absent `data` gives the empty set. A list gives exactly its items, a dict its keys, and a non-empty string exactly its characters. |
| `ExchangeService.DiscoveryListsCodes` | lab02/currency_exchange_rate.py:70-77 | A successful reply whose `data` lists codes yields exactly those codes. |
| `ExchangeService.FetchRate` | lab02/currency_exchange_rate.py:84-92 | Succeeds exactly when the reply passed the status check, decoded to an object with a falsy `error`, and has an object `data`, which is returned unchanged. Each failure has its own error. A truthy `error` fails carrying that field. |
| `ExchangeService.DiscoveryRequest` | lab02/currency_exchange_rate.py:72 | The discovery request goes to the base URL. Its only query parameter is `currencies`, set to the empty string, and its only form field is `key`, set to the API key. |
| `ExchangeService.RateRequest` | lab02/currency_exchange_rate.py:83-84 | The query parameters are exactly `from`, `to` and `date`. The date parameter reads back as the requested date. The key is the one form field. |
| `ExchangeService.DiscoveryAbsorbsRateFailures` | lab02/currency_exchange_rate.py:70-92 | The rate lookup fails with an error other than `MissingData` exactly when the reply is not delivered. On every such reply, discovery returns the fallback set. |
| `Calendar.IsoFormat` | lab02/currency_exchange_rate.py:83 | `date.isoformat()` is ten characters: four digits, a hyphen, two digits, a hyphen, two digits. `Calendar.IsoRoundTrip` and `Calendar.IsoCanonical` pin it down as the zero-padded `YYYY-MM-DD` text of the date. |
| `Calendar.IsoRoundTrip` | lab02/currency_exchange_rate.py:83 | `isoformat()` of every valid date reads back, as zero-padded `YYYY-MM-DD`, to that date. |
| `Calendar.IsoCanonical` | lab02/currency_exchange_rate.py:83 | Any text read as `YYYY-MM-DD` is the `isoformat()` of the date read, so the rendering is canonical. |
| `Calendar.IsoFormatInjective` | lab02/currency_exchange_rate.py:97 | Distinct dates have distinct ISO texts. |
| `Artifact.ArtifactName` | lab02/currency_exchange_rate.py:97 | The file name starts with the source code, followed by `_to_`, and ends with `.json`. It is 20 characters longer than the two codes together. `Artifact.ArtifactNameRoundTrip` pins down the rest: `FROM_to_TO_YYYY-MM-DD.json`. |
| `Artifact.ArtifactNameRoundTrip` | lab02/currency_exchange_rate.py:97 | For two valid codes and a real date, the name `FROM_to_TO_YYYY-MM-DD.json` parses back to exactly that key. |
| `Artifact.ArtifactNameInjective` | lab02/currency_exchange_rate.py:97 | Two keys share an artifact name exactly when they are the same key. |
| `Artifact.ArtifactNameExample` | lab02/currency_exchange_rate.py:97 | USD, EUR and 2025-03-10 name `USD_to_EUR_2025-03-10.json`. |
| `Pipeline.Checked` | lab02/currency_exchange_rate.py:117-119 | The checks pass exactly when the source code, the target code, the date text and the date window all pass. The result is then the two upper-cased codes and a valid date inside the window. On failure, the error is that of the first failing check, in the order `from`, `to`, date parse, date range: a `from` failure gives `from`'s error; otherwise a `to` failure gives `to`'s error; otherwise a failed parse gives `InvalidDate`; otherwise a failed range check gives `DateOutOfRange` of the parsed date. |
| `Pipeline.Execute` | lab02/currency_exchange_rate.py:114-127 | Without a key, nothing is sent and `MissingApiKey` is reported. With a key, the discovery request goes first. The rate request is sent exactly when every check passed, carrying the checked codes and date. A failed check is reported with its own error. An artifact exists exactly when the rate lookup succeeded; it is named from the checked key and holds the returned `data`. A failed lookup is reported with its error. |
| `Pipeline.SavedNameIsCanonical` | lab02/currency_exchange_rate.py:117-122 | Whatever the service answers, a saved artifact's name parses back to the upper-cased pair and the parsed date, and that date lies inside the window. |
| `Pipeline.MalformedCodeNeverFetches` | lab02/currency_exchange_rate.py:116-121 | For any service, a malformed `--from` code fails with the format error after the discovery request alone. |
| `Pipeline.ScenarioMalformedFrom` | lab02/currency_exchange_rate.py:114-127 | `--from US1` sends no rate request and reports the format error. |
| `Pipeline.ScenarioDateOutsideWindow` | lab02/currency_exchange_rate.py:117-122 | A valid pair with date 2025-10-01 reports `DateOutOfRange` and saves nothing. |
| `Pipeline.ScenarioUsdToEur` | lab02/currency_exchange_rate.py:114-122 | Discovery lists USD, EUR and MDL, and the rate lookup returns `{"rate": 19.85}`. Then `--from usd --to eur --date 2025-03-10` sends those two requests and saves `{"rate": 19.85}` as `USD_to_EUR_2025-03-10.json`. |

## Left out

- HTTP: `requests.post`, `raise_for_status` and `resp.json()` are foreign library I/O. They are replaced by the `Response` value the service function returns. The `timeout` argument has no logic attached and is not modelled.
- Pipeline.Execute: assumes the artifact write succeeds. In the source, an `OSError` from `mkdir`, `open` or `json.dump` would be caught and reported like any other failure.
- Filesystem effects are not modelled: creating `data/`, the JSON serialisation (indentation, `ensure_ascii=False`), and overwriting an existing artifact. Only the file name is.
- Logging is not modelled: logger setup, the `error.log` append, and the `FAILED:` and `OK:` lines on standard error and standard output. The text of error messages is not modelled either, except the sorted listing of allowed codes.
- `argparse` and `os.environ` are not modelled. The arguments are a plain `Args` value and the environment is a map. The base URL, with its `LAB02_BASE_URL` default, is a plain argument.
- Validators.ParseDate: the grammar `datetime.strptime` applies to `%Y-%m-%d` is not modelled. It accepts unpadded months and days, among other forms. The model takes the outcome of that match, three numbers or no match, as its input (`DateText`).
- Text.Upper: characters outside ASCII are upper-cased only when their upper-case form is made of the letters A-Z: dotless i, long s, sharp s and the ligatures U+FB00 to U+FB06. Every other character is kept as it is, while Python would upper-case it to another non-ASCII form. Either way the format check fails, so only the text of the format error differs.
- Json.PySet: Python's equality of `True`, `1` and `1.0` is not modelled, so those values stay distinct in the model's allowed set. This changes only the set's size, never whether it is empty or whether it holds a currency code. JSON numbers are modelled as reals.
- `setup_logger`, the path constants and the `__main__` guard are plumbing and are not modelled.
