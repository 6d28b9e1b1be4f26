# Finance assistant: the deterministic core, modelled in Dafny

The finance assistant answers a market question by having an orchestrator
service fan out to collaborator services and combine what they return:

- a retriever returns documents for the query;
- an API agent returns market data per stock symbol;
- an analysis agent computes Asia technology exposure;
- a language agent turns everything into a narrative.

Around that I/O sit four pieces of plain logic. This project models each of
them and proves what it promises.

- `orchestrator.dfy` (module `Orchestrator`) covers `call_agent` and
  everything `process_query` does once the concurrent calls have been
  joined:
  - the outcome of every collaborator call is sorted into a body, a 503, or
    the remote error status;
  - a retrieval failure aborts the request;
  - a per-symbol result map gets an in-band `{"error": ...}` entry for each
    failed symbol;
  - a sub-map of the valid entries gates the one optional analysis call;
  - exactly one synthesis call follows;
  - the four-field response is assembled.

  The join is an input: a sequence of outcomes with the retrieval at index 0
  and symbol `i` at index `i + 1`. Each collaborator is a function from the
  request to what came back over the wire.
- `data_utils.dfy` (module `DataUtils`) covers:
  - text cleaning: the character filter, whitespace collapsing and their
    composition;
  - the financial-number parser: parentheses, `$`, `,` and a K/M/B suffix
    over a plain decimal `float`;
  - the string that `generate_cache_key` hashes.
- `analysis_agent.dfy` (module `AnalysisAgent`) covers:
  - the mock region lookup;
  - the exposure fold: a value fallback chain, a filtered numerator, a
    total and a guarded division;
  - the per-symbol wrapping loop of the `/analyze` endpoint.
- `language_agent.dfy` (module `LanguageAgent`) covers the three
  prompt-input formatters and the rejections of the `/synthesize` endpoint.
  The LLM chain is a parameter.

Supporting modules:

- `py_text.dfy` (`PyText`) holds the Python string operations the core uses:
  whitespace `strip`, ASCII `upper`/`lower`, `join`, `split` on one
  character, and string ordering.
- `py_values.dfy` (`PyValues`) holds:
  - insertion-ordered dicts (`Dict<V>`, with `Put` for `d[k] = v`);
  - JSON values;
  - Python truthiness;
  - exceptions;
  - `Runtime`, which bundles what the interpreter computes and the model
    does not spell out: `str()` of a non-string, `format(x, ".2f")`,
    `round(x, 2)` and `str(e)`.
- `wrappers.dfy` holds `Option` and `Result`.

Where the source loops while updating variables, the model is a `method`
with a `while` loop:

- `ProcessQuery`, `CalculateExposure`, `AnalyzePortfolio` and
  `FormatMarketData` each have loop invariants and are proved equal to a
  specification function (`Process`, `Exposure`, `Analysis`,
  `MarketDataText`).
- `SynthesizeNarrative` has no loop of its own. It calls
  `FormatMarketData` and is proved equal to `Synthesis`.

The lemmas state the source's promises about those functions.

## Model

| member | source | states |
|---|---|---|
| Orchestrator.CallAgent | orchestrator/app.py:33-45 | A transport error becomes status 503; a 4xx/5xx response becomes an exception with that same status; the body comes back exactly when the response is not an error and parses; a non-error response whose body is not JSON raises an ordinary exception, not an `HTTPException`; every raised status is 503 or an error status |
| Orchestrator.DefaultSymbolsDistinct | orchestrator/app.py:58 | The symbol list the code fetches has no repeated symbol, so the lemmas that assume distinct symbols apply to it |
| Orchestrator.DefaultResultsKeys | orchestrator/app.py:58-89 | For that list, the market-data keys are "TSM" and "005930.KS", in that order |
| Orchestrator.Gather | orchestrator/app.py:53-62 | The joined outcomes are positional: index 0 is the retrieval call (query, top_k 3), index i+1 is the market-data call for symbol i |
| Orchestrator.RetrievedData | orchestrator/app.py:75 | The retrieval body's `results` value unchanged, or `[]` when the body is not an object or has no `results` |
| Orchestrator.MarketEntry | orchestrator/app.py:78-89 | A valid (object) outcome is kept as is; a failed call gives `{"error": "Failed to fetch data for <symbol>"}`; a non-object body gives the unexpected-type error entry; every entry is an object |
| Orchestrator.ProcessQuery | orchestrator/app.py:47-134 | The imperative post-join algorithm (the loop filling both maps, then the analysis and language steps) returns exactly the response and the sequence of later calls that `Process` defines |
| Orchestrator.RetrievalFailureAborts | orchestrator/app.py:69-72 | A failed retrieval outcome ends the request with 500 "Failed to retrieve context." and no analysis or language call |
| Orchestrator.ResultsInOrder | orchestrator/app.py:78-89 | With distinct symbols, the result map after k iterations is the k symbols in order, each paired with the entry from its own outcome |
| Orchestrator.ResultsKeys | orchestrator/app.py:78-89 | The result map has exactly one entry per fetched symbol, in symbol order |
| Orchestrator.ResultsAttribution | orchestrator/app.py:78-84 | The entry stored under symbol j is built from outcome j+1 and no other |
| Orchestrator.GatherAttribution | orchestrator/app.py:54-89 | For the joined calls, the entry under each symbol is built from that symbol's own market-data call |
| Orchestrator.ValidHasKey | orchestrator/app.py:83-85 | A symbol is in the valid map exactly when its outcome was an object |
| Orchestrator.ValidAttribution | orchestrator/app.py:83-85 | The valid map stores under each valid symbol that symbol's own body |
| Orchestrator.ValidSubMap | orchestrator/app.py:83-85 | Every key of the valid map has the same value in the result map |
| Orchestrator.ValidEmpty | orchestrator/app.py:83-93 | The valid map is empty exactly when no symbol's outcome was an object |
| Orchestrator.AnalysisGate | orchestrator/app.py:91-108 | At most one analysis call, made exactly when the valid map is non-empty, with that map and AUM 1,000,000; otherwise the error entry "No valid market data for analysis"; a body the call returns becomes the analysis result unchanged; an `HTTPException` becomes `{"error": "Analysis agent failed: <detail>"}`; any failed analysis call becomes an `error` map instead of propagating |
| Orchestrator.CallsMade | orchestrator/app.py:91-119 | After a successful retrieval: one or two calls; the last is the synthesis call, carrying the request's query, the retrieved data, the analysis result and the unfiltered result map; there are two calls exactly when some symbol's outcome was an object, and then the first is the analysis of the valid map |
| Orchestrator.NarrativeFallbacks | orchestrator/app.py:117-126 | The narrative is the response's `narrative` field when present; in every other case it is a string starting with "Error: " |
| Orchestrator.ErrorNarrativeMarked | orchestrator/app.py:117-126 | Every fallback narrative starts with "Error: " |
| Orchestrator.ResponseEchoes | orchestrator/app.py:128-134 | A successful response implies a successful retrieval, and carries the retrieved data, the full result map and the analysis result unchanged |
| Orchestrator.FailedFetchReported | orchestrator/app.py:80-89 | The error entry a failed symbol gets is rendered by the language service's formatter as "- symbol: Error fetching data (...)" |
| DataUtils.RemoveSpecialCharacters | data_ingestion/data_utils.py:24-26 | Only letters a-z/A-Z, digits, whitespace and `. , ! ? -` remain, and every such character keeps its number of occurrences |
| DataUtils.RemoveSpecialCharactersConcat | data_ingestion/data_utils.py:24-26 | The filter works character by character: filtering a concatenation concatenates the filtered parts, so the kept characters stay in order |
| DataUtils.RemoveSpecialCharactersChar | data_ingestion/data_utils.py:24-26 | A single character survives exactly when it is one of the kept kinds |
| DataUtils.RemoveSpecialCharactersFixedPoints | data_ingestion/data_utils.py:24-26 | The filter leaves a text unchanged exactly when all its characters are kept kinds |
| DataUtils.CollapseTrimmedStart | data_ingestion/data_utils.py:30 | For a text not starting with whitespace, replacing each whitespace run by one space gives its words joined by single spaces, plus one space when the text ends in whitespace |
| DataUtils.CollapseSpacesChars | data_ingestion/data_utils.py:30 | Collapsing introduces no character except a space |
| DataUtils.WordsOfJoin | data_ingestion/data_utils.py:28-30 | Splitting single-space-joined words into words gives back those words |
| DataUtils.NormalizeWhitespaceJoinsWords | data_ingestion/data_utils.py:28-30 | `normalize_whitespace` is the text's whitespace-separated words joined by single spaces |
| DataUtils.NormalizeWhitespaceShape | data_ingestion/data_utils.py:28-30 | The result has no leading or trailing whitespace and no whitespace other than single spaces between words |
| DataUtils.NormalizeWhitespaceIdempotent | data_ingestion/data_utils.py:28-30 | Normalizing twice equals normalizing once |
| DataUtils.NormalizeWhitespaceKeepsKept | data_ingestion/data_utils.py:28-30 | Normalizing a filtered text leaves it filtered |
| DataUtils.CleanTextData | data_ingestion/data_utils.py:32-40 | A non-string comes back as its `str()`; a string comes back as the words (split at whitespace runs) of its filtered text joined by single spaces, so it is filtered, trimmed and single-spaced |
| DataUtils.CleanTextShape | data_ingestion/data_utils.py:32-40 | The cleaned text has only kept characters, is trimmed and is single-spaced |
| DataUtils.CleanTextIdempotent | data_ingestion/data_utils.py:32-40 | Cleaning twice equals cleaning once |
| DataUtils.CleanFinancialNumberAsWritten | data_ingestion/data_utils.py:42-52 | A number comes back unchanged as a float (a bool as 1.0 or 0.0); anything that is neither a number nor a string gives None |
| DataUtils.DropCurrencyMarksConcat | data_ingestion/data_utils.py:61 | Removing `$` and `,` works character by character |
| DataUtils.DropCurrencyMarksFixedPoints | data_ingestion/data_utils.py:61 | The removal leaves a text unchanged exactly when it has no `$` or `,` |
| DataUtils.ParseFloatDigits | data_ingestion/data_utils.py:74-75 | `float` of a run of digits is its decimal value |
| DataUtils.ParseFloatPoint | data_ingestion/data_utils.py:74-75 | `float` of "a.b" is a plus b read as a fraction (either side may be empty, not both) |
| DataUtils.ParseFloatNegative | data_ingestion/data_utils.py:74-75 | A leading minus negates what the rest parses to |
| DataUtils.ParseFloatBadFirst | data_ingestion/data_utils.py:74-79 | A trimmed text starting with anything but a digit, point or sign raises `ValueError`, so the result is None |
| DataUtils.ParseFloatLetterFirst | data_ingestion/data_utils.py:74-79 | A text starting with an upper-case letter is not a number |
| DataUtils.ParseFloatEmpty | data_ingestion/data_utils.py:74-79 | The empty text is not a number |
| DataUtils.ParseFloatBadLast | data_ingestion/data_utils.py:74-79 | A text whose last character is a second K, M or B is not a number |
| DataUtils.MultiplierSuffix | data_ingestion/data_utils.py:63-75 | A trailing K, M or B multiplies what precedes it by 1,000, 1,000,000 or 1,000,000,000, and a text before it that does not parse gives None |
| DataUtils.AtMostOneSuffix | data_ingestion/data_utils.py:63-79 | Only one suffix is removed: two trailing suffixes give None |
| DataUtils.ParenthesesNegate | data_ingestion/data_utils.py:54-76 | "(x)", where x is trimmed and not itself in parentheses, gives the negation of what x gives; both conditions are needed, since "((5))" and "(5K )" give None |
| DataUtils.PlainAmountAsWritten | data_ingestion/data_utils.py:54-75 | A trimmed text without parentheses is upper-cased, stripped of `$` and `,`, then read with its suffix |
| DataUtils.SeparatorIgnoredAsWritten | data_ingestion/data_utils.py:61 | A thousands separator after leading digits is ignored: "a,r" reads as "ar" |
| DataUtils.SeparatedDecimalAsWritten | data_ingestion/data_utils.py:128-129 | Text of the shape of "1,250.75M" reads as (1250 + 0.75) times the suffix's factor |
| DataUtils.SeparatedDecimalExampleAsWritten | data_ingestion/data_utils.py:128-129 | The usage example "1,250.75M" reads as 1,250,750,000 |
| DataUtils.ScaledDigitsAsWritten | data_ingestion/data_utils.py:132-133 | Text of the shape of "300K" reads as the digits' value times the suffix's factor |
| DataUtils.ScaledDigitsExampleAsWritten | data_ingestion/data_utils.py:132-133 | The usage example "300K" reads as 300,000 |
| DataUtils.LetterFirstAsWritten | data_ingestion/data_utils.py:134-135 | Text starting with a letter, such as "InvalidData", gives None |
| DataUtils.DollarParenthesesAsWritten | data_ingestion/data_utils.py:54-61 | As written, "$(x)" gives None for every x (see Findings) |
| DataUtils.DollarParenthesesExampleAsWritten | data_ingestion/data_utils.py:130-131 | As written, the usage example "$(2.5B)" gives None |
| DataUtils.CleanFinancialNumber | data_ingestion/data_utils.py:42-52 | The corrected parser keeps the pass-through of numbers and the None for non-strings |
| DataUtils.DollarParenthesesNegate | data_ingestion/data_utils.py:54-76 | Corrected: "$(x)" gives the negation of what x gives |
| DataUtils.ParenthesesNegateCorrected | data_ingestion/data_utils.py:54-76 | Corrected: "(x)", with x trimmed and not in parentheses once `$` and `,` are removed, still gives the negation of what x gives |
| DataUtils.DollarOutside | data_ingestion/data_utils.py:54-61 | Corrected: a `$` in front of a trimmed amount does not change its value |
| DataUtils.CorrectedAgreesWithoutMarks | data_ingestion/data_utils.py:54-79 | The correction changes nothing for text without `$` or `,` |
| DataUtils.SortByKey | data_ingestion/data_utils.py:86 | `sorted(kwargs.items())` is ordered by key and holds exactly the same pairs |
| DataUtils.KeySortedUnique | data_ingestion/data_utils.py:86 | Two key-sorted orderings of the same pairs are equal |
| DataUtils.KeyParts | data_ingestion/data_utils.py:85-86 | One part per argument: the positional arguments first, in order, as `str(arg)` |
| DataUtils.KeyPartsKwargs | data_ingestion/data_utils.py:86 | Every keyword argument appears after the positional ones as "k=v" |
| DataUtils.KeyPartsOrdered | data_ingestion/data_utils.py:86 | The keyword parts come in increasing key order |
| DataUtils.CacheKeyOrderIndependent | data_ingestion/data_utils.py:83-87 | Reordering the keyword arguments never changes the key string |
| DataUtils.CacheKeySplits | data_ingestion/data_utils.py:87 | When no part contains "_", splitting the key string on "_" gives the parts back |
| AnalysisAgent.RegionOf | agents/analysis_agent/app.py:28-35 | "Asia" exactly for "TSM" and "005930.KS", "Other" for every other symbol |
| AnalysisAgent.StockValueCases | agents/analysis_agent/app.py:50-62 | Empty info is worth 0; a positive `marketCap` is taken; only a truthy non-numeric `marketCap` raises (at the `<= 0` comparison); any other value is `marketCap`, `previousClose` or 0 |
| AnalysisAgent.SectorOfCases | agents/analysis_agent/app.py:68 | The sector is `''` for empty info; only a present non-string sector raises |
| AnalysisAgent.AddStockOffset | agents/analysis_agent/app.py:49-71 | What one stock adds to the two sums, or the exception it raises, does not depend on the sums accumulated before it |
| AnalysisAgent.TallyAppend | agents/analysis_agent/app.py:49-71 | Over two concatenated parts of the market data, the numerator and the total are the sums of the parts' numerators and totals; an exception in the first part is the one raised, else one in the second part |
| AnalysisAgent.CalculateExposure | agents/analysis_agent/app.py:37-79 | The loop returns exactly `Exposure`: 0.0 for empty data or a total of at most 0, else round(100 × numerator / total, 2); `total_aum` takes no part |
| AnalysisAgent.TallyErrIff | agents/analysis_agent/app.py:49-71 | The call raises exactly when some entry's value or sector evaluation raises |
| AnalysisAgent.TallyNoRegion | agents/analysis_agent/app.py:64-71 | With no stock of the requested region the numerator is 0 |
| AnalysisAgent.TallyBounds | agents/analysis_agent/app.py:64-71 | With non-negative values, 0 ≤ numerator ≤ total |
| AnalysisAgent.PercentBounds | agents/analysis_agent/app.py:78 | The percentage of a part of a positive whole lies in [0, 100] |
| AnalysisAgent.ExposureInRange | agents/analysis_agent/app.py:73-79 | With non-negative values the result is 0.0 or the rounding of a percentage in [0, 100] |
| AnalysisAgent.TallyIgnoresSymbolField | agents/analysis_agent/app.py:49-71 | The sums depend on the map keys and the `info` values only, not on each entry's own `symbol` field |
| AnalysisAgent.ExposureIgnoresSymbolField | agents/analysis_agent/app.py:49-79 | So does the exposure |
| AnalysisAgent.Wrap | agents/analysis_agent/app.py:101 | As written, wrapping a parsed entry always raises; corrected, it wraps the entry's `info` under the key's symbol |
| AnalysisAgent.AnalyzePortfolio | agents/analysis_agent/app.py:94-124 | The wrapping loop then the exposure: a one-key `risk_metrics` map, or 500 "Analysis failed: ..." |
| AnalysisAgent.AsWrittenSkipsAll | agents/analysis_agent/app.py:96-104 | As written, every symbol is skipped |
| AnalysisAgent.AnalysisAsWrittenAlwaysZero | agents/analysis_agent/app.py:96-117 | As written, every request yields `asia_tech_exposure_percent` 0.0 (see Findings) |
| AnalysisAgent.CorrectedKeepsAll | agents/analysis_agent/app.py:96-104 | Corrected, every symbol is kept in order with its own `info` |
| AnalysisAgent.AnalysisCorrected | agents/analysis_agent/app.py:94-124 | Corrected, the response is the exposure of the request's own data under the single key `asia_tech_exposure_percent`, or the 500 its exception causes |
| AnalysisAgent.SingleAsiaTechStock | agents/analysis_agent/app.py:96-117 | One Asian technology stock: 100.0 corrected, 0.0 as written |
| LanguageAgent.Fixed2 | agents/language_agent/app.py:96 | `:.2f` succeeds exactly on numbers (bools included) and gives their two-decimal form |
| LanguageAgent.ContextLineCases | agents/language_agent/app.py:96 | A document line is "- text (Score: s)"; it raises exactly when `text` or `score` is missing or the score is not a number |
| LanguageAgent.ContextLinesPointwise | agents/language_agent/app.py:96 | One line per document, in input order, and no lines when any document raises |
| LanguageAgent.FormatContextLines | agents/language_agent/app.py:92-96 | No documents give "No relevant documents found."; otherwise, when no document line contains a newline, splitting the text at newlines gives back the document lines |
| LanguageAgent.FormatAnalysisCases | agents/language_agent/app.py:98-107 | "- Asia Tech Exposure: X%" exactly when the exposure is present and not None; otherwise "No specific analysis results available."; it raises only when `risk_metrics` is not an object |
| LanguageAgent.FormatAnalysisOfError | agents/language_agent/app.py:98-107 | An error-shaped analysis result gives "No specific analysis results available." |
| LanguageAgent.LastPriceCases | agents/language_agent/app.py:115-121 | "N/A" when the price list is missing, not a list or empty, or its last entry has no `Close`; otherwise the two-decimal `Close` |
| LanguageAgent.MarketDataLineCases | agents/language_agent/app.py:113-124 | Only an object with `info` or `error` yields a line; `info` wins over `error`; the error line is "- symbol: Error fetching data (err)"; the name defaults to the symbol |
| LanguageAgent.FormatMarketData | agents/language_agent/app.py:109-128 | The loop returns exactly `MarketDataText`, the highlights joined by newlines or the no-highlights message |
| LanguageAgent.HighlightsCount | agents/language_agent/app.py:111-125 | One line per qualifying entry |
| LanguageAgent.HighlightsAppend | agents/language_agent/app.py:111-125 | The lines follow the map order: the lines of a concatenation are the concatenated lines |
| LanguageAgent.MarketDataTextEmpty | agents/language_agent/app.py:126-128 | "No specific market data highlights available." exactly when no entry qualifies |
| LanguageAgent.HighlightsDashed | agents/language_agent/app.py:122-124 | Every highlight line starts with "-" |
| LanguageAgent.SynthesizeNarrative | agents/language_agent/app.py:131-181 | The endpoint returns exactly `Synthesis` |
| LanguageAgent.SynthesisOutcomes | agents/language_agent/app.py:143-181 | Every rejection is a 500; a narrative is returned exactly when the chain is loaded, the formatters succeed and the chain returns a non-empty text, and it is that text |

## Left out

- Network and concurrency: `httpx.AsyncClient`, timeouts and the scheduling
  of `asyncio.gather` are not modelled. The join is the given outcome
  sequence, and each collaborator is a function of the request.
- The retriever, API, voice and Streamlit services are not part of this
  model, and neither is the prompt template. The LLM chain is a parameter
  that returns a text or raises.
- Orchestrator.CallAgent: a body that is not JSON becomes one
  `ValueError`, not the decoder's exact message.
- Orchestrator.CallAgent: only 4xx/5xx statuses count as errors, as the
  code's comment states. Newer httpx versions also raise for 1xx and 3xx
  responses.
- Orchestrator.ProcessQuery: the symbol list is a parameter. The code
  always passes `["TSM", "005930.KS"]`, which is `DefaultSymbols`.
  The attribution lemmas assume distinct symbols; `DefaultSymbolsDistinct` proves that list has them.
- Orchestrator.ProcessQuery: the response-model check is a shape test that
  yields 500 "Internal Server Error". Pydantic's coercions between
  types are not modelled.
- Pydantic request validation (the 422 for malformed requests) is not
  modelled: requests arrive as already-typed values.
- Logging, `print`, `log_duration`, the cache file I/O in
  `save_to_cache`/`load_from_cache`, and the md5 digest are not modelled.
  `CacheKeyString` is the string that gets hashed.
- LanguageAgent.FormatContextLines: the split-back property is stated only
  when no document line contains a newline. A document's text goes into its
  line unchanged, so a text with a newline splits into more pieces than
  there are documents.
- Float parsing: `float()` is modelled on plain decimal notation only, with
  ASCII digits, surrounding whitespace and one optional sign. Other Unicode
  decimal digits, which Python's `float()` accepts, are rejected, and so
  are exponents, "inf", "nan" and underscores. Values are exact reals, so
  floating-point rounding is not modelled.
- DataUtils.CleanFinancialNumberAsWritten: a JSON integer beyond the
  range of a double makes `float(value)` raise `OverflowError`, which the
  code does not catch. Numbers are exact reals here, so every number
  comes back as itself; the same holds for `DataUtils.CleanFinancialNumber`.
- `round(x, 2)`, `format(x, ".2f")`, `str()` of a non-string, and the text
  of an exception are uninterpreted functions of `Runtime`.
- Case mapping is ASCII only: `upper` and `lower` change only a-z and A-Z.
  Whitespace (`\s`, `strip`) is Python's full `str.isspace` set.
- JSON objects the code reads only by key are maps. The market-data maps
  the code iterates over keep insertion order as a `Dict`.
- AnalysisAgent.StockValueCases: when `marketCap` is not taken, it states
  only that the value comes from `marketCap`, `previousClose` or is 0.
  `StockValue` itself pins the choice.
- AnalysisAgent.ExposureInRange: `round` is uninterpreted, so it bounds
  the percentage before rounding, not the rounded value.
- LanguageAgent.MarketDataLineCases: the name defaulting to the symbol is
  stated for an empty `info`. A present `shortName` is what
  `MarketDataLine` uses, and no lemma states it separately.
- DataUtils.KeyPartsOrdered: it states that the keyword parts at positions
  i < j come from two keyword pairs in increasing key order. Which pairs
  they are follows from `SortByKey`.

## Findings

| source | as written | input that shows it | evidently intended | confidence | as-written member | corrected member |
|---|---|---|---|---|---|---|
| data_ingestion/data_utils.py:54-61 | The parenthesis test runs on the text before `$` and `,` are removed, so a `$` in front of the parentheses hides them; the remaining "(2.5B)" keeps its closing parenthesis, so no suffix is cut, and `float` fails at the "(" | `"$(2.5B)"`, the usage example at line 130, gives None | −2,500,000,000: parentheses mark a negative amount whatever currency sign precedes them | not executed | DataUtils.DollarParenthesesAsWritten | DataUtils.DollarParenthesesNegate |
| agents/analysis_agent/app.py:98-104 | Each `data_dict` is already a parsed `StockInfo` model, which has no `get`; the resulting `AttributeError` is caught and the symbol skipped, so every symbol is skipped and the exposure is always 0.0 | `{"TSM": {"symbol": "TSM", "info": {"marketCap": 5, "sector": "Technology"}}}` gives 0.0 | the exposure of the request's own entries: 100.0 for this input | not executed | AnalysisAgent.AnalysisAsWrittenAlwaysZero | AnalysisAgent.AnalysisCorrected |
