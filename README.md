# MrScraper query resolution and retrieval, in Dafny

A Dafny model of the decision logic of `intelligent_scraper.py`, the
natural-language search front end for the Shorthorn Digital Beef ranch
directory. A command goes through three stages.

1. The interpreter (`AIProcessor.interpret_command`) turns the command into
   a JSON object.
2. `ShorthornApiScraper.search` turns that object into the endpoint
   parameters `l` (location code) and `v` (name filter). It checks them
   against the closed registry `LOCATION_DATA`.
3. `ShorthornApiScraper._call_api` fetches the result page and classifies
   it:
   - an empty result, found by a literal "no records" phrase, or by a loose
     pattern once no table could be parsed;
   - the rows of the first parsed table;
   - an error.

Modules, leaf first:

- `Common`: Option and Result.
- `Text`: Python's `strip()`, `lower()`, `p in s` and `replace(p, "")`,
  with lemmas about substrings and removal.
- `JsonValues`: the value `json.loads` returns, with Python truthiness and
  `dict.get`.
- `Registry`: `LOCATION_DATA` (`LocationData`) and its two lookups. The
  resolver takes the registry as a parameter.
- `Api`: the parameters `l`/`v`, the error kinds with their exact
  messages, and the returned dicts.
- `Interpreter`: fence cleaning of the model's reply, and
  `interpret_command`.
- `Resolver`: `Resolve`, the guard and parameter building of `search`, as
  a function.
- `Retrieval`:
  - `ReadTables`, the parser loop with its `break` and the flavor-less
    fallback, proved against `ReadAttempt`;
  - `Retrieve`, the classification;
  - `Endpoint`, the search endpoint as an object that logs every request
    sent to it;
  - `CallApi`, one request and its classification.
- `Scraper`: `Search`, the imperative `search`. It is proved against
  `Resolve` and `ApiOutcome`, and states how the endpoint's request log
  changes.

Collaborators enter as function parameters:

- the language model: `Backend.generate`, from command to reply text or an
  error message;
- `json.loads`: `Decoder`;
- `requests.get` with `raise_for_status`: `Fetch`, the answer of an
  `Endpoint`;
- `pd.read_html`: `Reader`, given a flavor or none.

Where the code and its design description differ, the model follows the
code:

- A reply that decodes to something other than an object makes `search`
  raise `AttributeError` or `TypeError`; it does not return an
  interpretation error. `Search` returns `Raised(...)` in that case.
- A non-empty object with no `error` key and none of the expected keys is
  not refused. It resolves to an unfiltered search (`l = ""`, `v = ""`).
- The parser loop stops at the first parser that does not raise, even if it
  found no tables. Once a parser has succeeded, the flavor-less attempt is
  never made.
- A registered province with an empty code counts as unknown
  (`if not province_code`).
- `v` is the decoded `name` value whenever that value is truthy, even if it
  is not a string. Every falsy value gives `""`.
- A table parse error reported after a parser returned an empty list
  carries the text "None" when no earlier parser raised.

## Model

| member | source | states |
|---|---|---|
| `Text.TrimStart` | intelligent_scraper.py:91 | the result is the suffix left once leading whitespace (Python's `isspace` set) is cut, and it does not start with whitespace |
| `Text.TrimEnd` | intelligent_scraper.py:91 | the result is the prefix left once trailing whitespace is cut, and it does not end with whitespace |
| `Text.Strip` | intelligent_scraper.py:91 | `strip()` is no longer than its input and neither starts nor ends with whitespace |
| `Text.StripIsMiddle` | intelligent_scraper.py:91 | `strip()` is exactly the slice of its input left once the leading and the trailing whitespace are cut: everything before and after the slice is whitespace |
| `Text.Lower` | intelligent_scraper.py:119 | specified by `Text.LowerNormalizes`: `lower()` on ASCII letters |
| `Text.StripContains` | intelligent_scraper.py:91 | whatever occurs in the stripped reply occurs in the reply |
| `Text.LowerNormalizes` | intelligent_scraper.py:119 | lowering leaves no capital letter, does not change a string without capitals, and is idempotent |
| `Text.Contains` | intelligent_scraper.py:152 | specified by `Text.ContainsIffOccurs`: the substring test `p in s` |
| `Text.ContainsIffOccurs` | intelligent_scraper.py:152 | the substring test `p in s` holds exactly when `p` occurs in `s` at some index |
| `Text.ContainsPrefixOfPattern` | intelligent_scraper.py:152 | a string holding a phrase holds every prefix of that phrase |
| `Text.RemoveAll` | intelligent_scraper.py:91 | specified by `Text.RemoveAllAbsent`, `Text.RemoveAllKeepsPrefix` and `Text.RemoveBackticksLeavesNone`: `replace(p, "")`, scanning from the left without overlap; never longer than its input |
| `Text.RemoveAllAbsent` | intelligent_scraper.py:91 | removing a pattern that does not occur leaves the text unchanged |
| `Text.RemoveAllKeepsPrefix` | intelligent_scraper.py:91 | a prefix with no character that can start the pattern passes through removal unchanged |
| `Text.RemoveBackticksLeavesNone` | intelligent_scraper.py:91 | after every triple backtick is removed, none is left, because none can form where one was cut out |
| `Registry.LocationData` | intelligent_scraper.py:18-45 | specified by `Registry.LocationDataWellFormed` and the examples in `Resolver`: the registry `LOCATION_DATA`, entry by entry |
| `Registry.CountryEntry` | intelligent_scraper.py:119-121 | specified by `Registry.LookupsAreCaseInsensitive`: `LOCATION_DATA.get(country.lower())` |
| `Registry.ProvinceCode` | intelligent_scraper.py:125-127 | specified by `Registry.LookupsAreCaseInsensitive`: `provinces.get(province.lower())`, where an empty code counts as missing |
| `Registry.LocationDataWellFormed` | intelligent_scraper.py:18-45 | every country and province key of `LOCATION_DATA` is lower case, every code is non-empty, and no country code contains the bar separator |
| `Registry.LookupsAreCaseInsensitive` | intelligent_scraper.py:119-127 | in a well-formed registry a country is found exactly when its lower-cased name is a key, under any spelling of the key; each registered province is found with its code |
| `Interpreter.Clean` | intelligent_scraper.py:91 | specified by `Interpreter.CleanLeavesNoFence`, `Interpreter.CleanKeepsUnfencedReply` and `Interpreter.CleanUnwrapsFencedBlock`: the reply stripped and cleared of fences |
| `Interpreter.InterpretCommand` | intelligent_scraper.py:63-95 | specified by `Interpreter.FailuresBecomeErrorObjects`: the decoded reply, or an error object on each failure path |
| `Interpreter.CleanLeavesNoFence` | intelligent_scraper.py:91 | the text handed to `json.loads` contains neither "```json" nor "```" |
| `Interpreter.CleanKeepsUnfencedReply` | intelligent_scraper.py:91 | a reply without fences is only stripped |
| `Interpreter.StrippedStaysUnfenced` | intelligent_scraper.py:91 | stripping a reply that holds no triple backtick creates neither fence |
| `Interpreter.CleanUnwrapsFencedBlock` | intelligent_scraper.py:91 | a "```json … ```" block whose body holds no backtick gives back exactly that body |
| `Interpreter.FailuresBecomeErrorObjects` | intelligent_scraper.py:65-95 | a missing model, a failed model call or an undecodable reply each yield an object holding only a non-empty `error` message, never something that passes for a query |
| `Resolver.Resolve` | intelligent_scraper.py:106-131 | specified by `Resolver.GuardOutcomes` and `Resolver.StringQueryRules`: the guard, then the parameter building, or the exception the code lets escape |
| `Resolver.BuildParams` | intelligent_scraper.py:113-131 | specified by `Resolver.StringQueryRules`, `Resolver.NeverDegrades` and `Resolver.LocationReadsBack`: `l` and `v` from an object past the guard |
| `Resolver.GuardOutcomes` | intelligent_scraper.py:106-125 | a non-object raises; an object that has an `error` key, or is empty, is rejected with that entry as the details; an object raises only when its country or province is truthy but not a string |
| `Resolver.StringQueryRules` | intelligent_scraper.py:113-131 | for string-valued queries, every rule holds: no country gives `l = ""`; an unknown country, or an unknown or code-less province, is an error; a country alone gives its code followed by a bar; a known province gives the country code, a bar and the province code; `v` is the name or `""`; nothing raises |
| `Resolver.NeverDegrades` | intelligent_scraper.py:118-131 | once a country is given, a successful resolution has a non-empty `l` that starts with that registered country's code followed by a bar; it never falls back to an unfiltered search |
| `Resolver.SplitJoin` | intelligent_scraper.py:128 | joining a country code that holds no bar to a province code with a bar is undone by splitting at the first bar |
| `Resolver.LocationReadsBack` | intelligent_scraper.py:123-131 | with a well-formed registry the emitted `l` splits back into the country's code and the province's code (empty for a whole country) |
| `Resolver.TexasExample` | intelligent_scraper.py:118-131 | the query for Texas gives `l` = "United States", bar, "TX" and an empty `v` |
| `Resolver.WholeCountryExample` | intelligent_scraper.py:118-131 | the query for the whole United States gives `l` = "United States" followed by a bar |
| `Resolver.NamedExample` | intelligent_scraper.py:114-131 | the name "Circle M" passes through unchanged as `v`, with `l` = "United States", bar, "TX" |
| `Resolver.ArgentinaProvinceRefused` | intelligent_scraper.py:124-127 | Argentina has no provinces, so any non-empty province is refused as unknown |
| `Retrieval.LongestIndicatorRedundant` | intelligent_scraper.py:145-152 | the literal check holds exactly when one of the three shorter phrases occurs; the longest phrase contains "No records found" |
| `Retrieval.NoRecordsSkipsParsing` | intelligent_scraper.py:152-154 | a body with a literal phrase is an empty result, whatever any parser would return |
| `Retrieval.FirstOk` | intelligent_scraper.py:161-168 | the index of the first parser that did not raise; every earlier one raised |
| `Retrieval.FirstOkAt` | intelligent_scraper.py:161-168 | the first success is unique: any index with only failures before it and a success at it is that index |
| `Retrieval.ReadAttempt` | intelligent_scraper.py:157-175 | specified by `Retrieval.NothingParsedIffAllRaise` and `Retrieval.LaterParsersNotTried`, and implemented by `Retrieval.ReadTables`: `df_list` and `parse_error` after the parser loop |
| `Retrieval.ReadTables` | intelligent_scraper.py:157-175 | the loop and fallback give the first flavor's tables that did not raise, with the previous flavor's error; failing all three, the flavor-less result |
| `Retrieval.NothingParsedIffAllRaise` | intelligent_scraper.py:161-175 | no table list is obtained exactly when html5lib, bs4, lxml and the flavor-less call all raise |
| `Retrieval.LaterParsersNotTried` | intelligent_scraper.py:161-175 | two readers that agree up to the first success give the same result, and agree on the flavor-less call only when all three raise; later parsers are never consulted |
| `Retrieval.Shape` | intelligent_scraper.py:178-200 | specified by `Retrieval.Classification`, `Retrieval.RowsFromFirstTable` and `Retrieval.ParseErrorNamesLastRaise`: the outcome once the parsers have run |
| `Retrieval.Retrieve` | intelligent_scraper.py:145-200 | specified by `Retrieval.Classification` and `Retrieval.NoRecordsSkipsParsing`: the outcome for a response body |
| `Retrieval.Classification` | intelligent_scraper.py:145-200 | empty exactly when a literal phrase matches, or no table was obtained and a loose pattern matches the lower-cased body; a parse error exactly when neither matches and there is no table; rows otherwise |
| `Retrieval.RowsFromFirstTable` | intelligent_scraper.py:190-200 | rows come from the first table of the first successful parse, and every row has one cell per header column |
| `Retrieval.ParseErrorNamesLastRaise` | intelligent_scraper.py:158-188 | a parse error carries the message of the last attempt that raised, or "None" when html5lib returned an empty list |
| `Retrieval.ApiOutcome` | intelligent_scraper.py:139-203 | implemented by `Retrieval.CallApi`: a failed request is unreachable; otherwise `Retrieve` classifies the body |
| `Retrieval.Endpoint.constructor` | intelligent_scraper.py:100 | a new endpoint answers with the given function and has received no request |
| `Retrieval.Endpoint.Get` | intelligent_scraper.py:139-140 | one GET adds exactly its parameters to the request log and yields the endpoint's answer to them |
| `Retrieval.CallApi` | intelligent_scraper.py:135-203 | exactly one request is sent, with the given parameters; a failed request is reported as unreachable; otherwise the body is classified as `Retrieve` says |
| `Scraper.Search` | intelligent_scraper.py:103-133 | when the interpretation is rejected or the code raises, the endpoint's request log is unchanged; otherwise the log grows by exactly the resolved parameters, and the outcome of that request is returned |
| `Scraper.InterpretationFailureStopsSearch` | intelligent_scraper.py:106-109 | when interpretation fails, `search` is rejected with the interpreter's non-empty message as details |
| `Scraper.RequestsOnlyForKnownLocations` | intelligent_scraper.py:118-133 | every request `search` sends has an empty location or one that starts with a registered country's code followed by a bar |

## Left out

- The language-model call and its prompt (intelligent_scraper.py:49-61, 69-90). They are an opaque remote service, modelled as an arbitrary function from command to reply text.
- `json.loads` is an arbitrary decoder. JSON numbers are reals, so the `NaN` and `Infinity` that Python accepts are not represented.
- The HTTP request (`requests.get`, `raise_for_status`) is an arbitrary fetch function that yields a body or an error message. `base_url` is not modelled.
- The catch-all handler at intelligent_scraper.py:204-206 is not modelled. Nothing inside the model raises there.
- The internals of `pd.read_html` and of `str`/`astype(str)` are not modelled. The reader returns rectangular tables whose labels and cells are already text.
- How `requests` encodes a non-string `v` (a number, a list) is not modelled.
- Exceptions that escape `search` are named by class only. Python's message text is not modelled.
- Text.Lower: lowers ASCII letters only. Python's `str.lower()` also lowers other scripts, and two characters lower to ASCII letters: U+212A KELVIN SIGN becomes `k`, and U+0130 becomes `i` followed by a combining dot. So Python finds a province spelled "\u212Aansas" (KS) where the model reports it unknown. The loose empty-page patterns contain neither `k` nor `i`, so for that check ASCII lowering gives the same answer.
- Logging, `load_dotenv`, argparse and `main` (intelligent_scraper.py:10-14, 208-220) are plumbing.
- test_scraper_validation.py needs a live API key and the live endpoint. Its assertions depend on remote data.
- setup.py is installation and environment checking, and is pure I/O.
