/** Query aggregation in the orchestrator service (orchestrator/app.py): how
    one collaborator call is classified, and what `process_query` does with the
    joined results of the retrieval and market-data calls. */
module Orchestrator {
  import opened Wrappers
  import opened PyText
  import opened PyValues
  import LanguageAgent

  // ---------------------------------------------------------------------------
  // call_agent
  // ---------------------------------------------------------------------------

  /** What one HTTP exchange with a collaborator produced: a transport failure
      (`httpx.RequestError`), or a response with its status, its text and its
      body decoded as JSON (None when the body is not JSON). */
  datatype Exchange =
    | TransportError(message: string)
    | Response(status: int, text: string, body: Option<Json>)

  /** What a call gives back: the parsed body, the `HTTPException` it raises,
      or another exception (a body that is not JSON). */
  datatype Outcome =
    | Body(value: Json)
    | Raised(exception: HttpException)
    | Failed(error: PyError)

  /** The statuses `raise_for_status` rejects. */
  predicate IsErrorStatus(status: int)
  {
    400 <= status <= 599
  }

  /** `call_agent`: a transport failure becomes a 503, an error status is
      passed on with its own code, and any other response yields its JSON body. */
  function CallAgent(ex: Exchange): (o: Outcome)
    ensures ex.TransportError? ==> o.Raised? && o.exception.status == 503
    ensures ex.Response? && IsErrorStatus(ex.status) ==> o.Raised? && o.exception.status == ex.status
    ensures o.Raised? ==> o.exception.status == 503 || IsErrorStatus(o.exception.status)
    ensures o.Body? <==> ex.Response? && !IsErrorStatus(ex.status) && ex.body.Some?
    ensures o.Body? ==> o.value == ex.body.value
    ensures ex.Response? && !IsErrorStatus(ex.status) && ex.body.None? ==> o.Failed?
  {
    match ex
    case TransportError(message) =>
      Raised(HttpException(503, "Agent call failed: " + message))
    case Response(status, text, body) =>
      if IsErrorStatus(status) then Raised(HttpException(status, "Agent error: " + text))
      else if body.Some? then Body(body.value)
      else Failed(ValueError("Expecting value"))
  }

  // ---------------------------------------------------------------------------
  // The calls and the join
  // ---------------------------------------------------------------------------

  /** A request to a collaborator, with its payload. */
  datatype Call =
    | Retrieve(query: string, topK: int)
    | FetchStock(symbol: string)
    | Analyze(marketData: Dict<Json>, totalAum: int)
    | Synthesize(query: string, retrievedContext: Json, analysisResults: Json, marketData: Dict<Json>)

  /** The collaborators: what each request brings back. */
  type Services = Call -> Exchange

  /** The symbols the orchestrator fetches; the model takes them as a
      parameter. */
  const DefaultSymbols: seq<string> := ["TSM", "005930.KS"]

  /** The list the code passes has no repeated symbol, so the attribution
      lemmas below apply to it. */
  lemma DefaultSymbolsDistinct()
    ensures Distinct(DefaultSymbols)
  {
    assert DefaultSymbols[0] != DefaultSymbols[1] by {
      assert DefaultSymbols[0][0] != DefaultSymbols[1][0];
    }
  }

  /** `gather(retrieval_task, *api_tasks, return_exceptions=True)`: the outcome
      of the retrieval first, then one outcome per symbol, in order. */
  function Gather(services: Services, query: string, symbols: seq<string>): (joined: seq<Outcome>)
    ensures |joined| == |symbols| + 1
    ensures joined[0] == CallAgent(services(Retrieve(query, 3)))
    ensures forall i :: 0 <= i < |symbols| ==> joined[i + 1] == CallAgent(services(FetchStock(symbols[i])))
  {
    [CallAgent(services(Retrieve(query, 3)))]
      + seq(|symbols|, i requires 0 <= i < |symbols| => CallAgent(services(FetchStock(symbols[i]))))
  }

  // ---------------------------------------------------------------------------
  // process_query after the join
  // ---------------------------------------------------------------------------

  /** `{"error": message}` */
  function ErrorEntry(message: string): Json
  {
    JObj(map["error" := JStr(message)])
  }

  /** `retrieved_data`: the `results` of the retrieval body, `[]` when it has
      none or the body is not an object. */
  function RetrievedData(body: Json): (r: Json)
    ensures body.JObj? && "results" in body.fields ==> r == body.fields["results"]
    ensures !(body.JObj? && "results" in body.fields) ==> r == JList([])
  {
    if body.JObj? then Lookup(body.fields, "results", JList([])) else JList([])
  }

  /** Whether a symbol's outcome goes to the analysis. */
  predicate IsValidOutcome(o: Outcome)
  {
    o.Body? && o.value.JObj?
  }

  /** The entry `market_data_results[symbol]` receives for an outcome. */
  function MarketEntry(symbol: string, o: Outcome): (r: Json)
    ensures IsValidOutcome(o) ==> r == o.value
    ensures !o.Body? ==> r == ErrorEntry("Failed to fetch data for " + symbol)
    ensures o.Body? && !o.value.JObj? ==> r == ErrorEntry("Unexpected response type from API agent")
    ensures r.JObj?
  {
    if !o.Body? then ErrorEntry("Failed to fetch data for " + symbol)
    else if o.value.JObj? then o.value
    else ErrorEntry("Unexpected response type from API agent")
  }

  /** `market_data_results` after the first `k` symbols. */
  function ResultsUpTo(symbols: seq<string>, joined: seq<Outcome>, k: nat): Dict<Json>
    requires |joined| == |symbols| + 1 && k <= |symbols|
  {
    if k == 0 then []
    else Put(ResultsUpTo(symbols, joined, k - 1), symbols[k - 1], MarketEntry(symbols[k - 1], joined[k]))
  }

  /** `valid_market_data_for_analysis` after the first `k` symbols. */
  function ValidUpTo(symbols: seq<string>, joined: seq<Outcome>, k: nat): Dict<Json>
    requires |joined| == |symbols| + 1 && k <= |symbols|
  {
    if k == 0 then []
    else if IsValidOutcome(joined[k]) then Put(ValidUpTo(symbols, joined, k - 1), symbols[k - 1], joined[k].value)
    else ValidUpTo(symbols, joined, k - 1)
  }

  /** `analysis_results` and the calls made to reach it: no call without valid
      market data; otherwise one call, whose failure becomes an error entry. */
  function AnalysisStep(rt: Runtime, services: Services, valid: Dict<Json>): (Json, seq<Call>)
  {
    if valid == [] then (ErrorEntry("No valid market data for analysis"), [])
    else
      var call := Analyze(valid, 1000000);
      match CallAgent(services(call))
      case Body(j) => (j, [call])
      case Raised(e) => (ErrorEntry("Analysis agent failed: " + e.detail), [call])
      case Failed(e) => (ErrorEntry("Unexpected error during analysis call: " + rt.errorText(e)), [call])
  }

  /** A narrative that reports a failure instead of a text. */
  function ErrorNarrative(message: string): string
  {
    "Error: " + message
  }

  predicate IsErrorNarrative(text: string)
  {
    |text| >= 7 && text[..7] == "Error: "
  }

  /** `final_narrative` for the language service's outcome. */
  function Narrative(rt: Runtime, o: Outcome): Json
  {
    match o
    case Body(j) =>
      if j.JObj? then Lookup(j.fields, "narrative", JStr(ErrorNarrative("No narrative content in response.")))
      else JStr(ErrorNarrative("Unexpected error during language agent call: " + rt.errorText(AttributeError(j, "get"))))
    case Raised(e) => JStr(ErrorNarrative("Language agent failed: " + e.detail))
    case Failed(e) => JStr(ErrorNarrative("Unexpected error during language agent call: " + rt.errorText(e)))
  }

  /** `OrchestratorResponse`. */
  datatype QueryResponse = QueryResponse(
    retrievedContext: Json,
    marketData: Dict<Json>,
    analysisResults: Json,
    finalNarrative: string)

  /** The field types `OrchestratorResponse` checks: a list of objects, an
      object and a string. */
  predicate WellTyped(retrieved: Json, analysis: Json, narrative: Json)
  {
    && retrieved.JList? && (forall i :: 0 <= i < |retrieved.items| ==> retrieved.items[i].JObj?)
    && analysis.JObj?
    && narrative.JStr?
  }

  /** Building the response; a field of the wrong type makes the handler fail
      with a 500. */
  function Assemble(retrieved: Json, results: Dict<Json>, analysis: Json, narrative: Json): Result<QueryResponse, HttpException>
  {
    if WellTyped(retrieved, analysis, narrative) then Ok(QueryResponse(retrieved, results, analysis, narrative.s))
    else Err(HttpException(500, "Internal Server Error"))
  }

  /** What `process_query` returns or raises, and the calls it makes after the
      join. */
  function Process(rt: Runtime, services: Services, query: string, symbols: seq<string>, joined: seq<Outcome>)
    : (Result<QueryResponse, HttpException>, seq<Call>)
    requires |joined| == |symbols| + 1
  {
    if !joined[0].Body? then (Err(HttpException(500, "Failed to retrieve context.")), [])
    else
      var retrieved := RetrievedData(joined[0].value);
      var results := ResultsUpTo(symbols, joined, |symbols|);
      var valid := ValidUpTo(symbols, joined, |symbols|);
      var step := AnalysisStep(rt, services, valid);
      var languageCall := Synthesize(query, retrieved, step.0, results);
      var narrative := Narrative(rt, CallAgent(services(languageCall)));
      (Assemble(retrieved, results, step.0, narrative), step.1 + [languageCall])
  }

  /** `process_query(request)` from the join on: the retrieval check, the loop
      over the symbols, the analysis and language calls and the response. */
  method ProcessQuery(rt: Runtime, services: Services, query: string, symbols: seq<string>, joined: seq<Outcome>)
    returns (r: Result<QueryResponse, HttpException>, calls: seq<Call>)
    requires |joined| == |symbols| + 1
    ensures (r, calls) == Process(rt, services, query, symbols, joined)
  {
    calls := [];
    if !joined[0].Body? {
      return Err(HttpException(500, "Failed to retrieve context.")), calls;
    }
    var retrieved := RetrievedData(joined[0].value);
    var results: Dict<Json> := [];
    var valid: Dict<Json> := [];
    var i := 0;
    while i < |symbols|
      invariant 0 <= i <= |symbols|
      invariant results == ResultsUpTo(symbols, joined, i)
      invariant valid == ValidUpTo(symbols, joined, i)
    {
      var symbol := symbols[i];
      var result := joined[i + 1];
      if !result.Body? {
        results := Put(results, symbol, ErrorEntry("Failed to fetch data for " + symbol));
      } else if result.value.JObj? {
        results := Put(results, symbol, result.value);
        valid := Put(valid, symbol, result.value);
      } else {
        results := Put(results, symbol, ErrorEntry("Unexpected response type from API agent"));
      }
      i := i + 1;
    }
    var analysis := ErrorEntry("No valid market data for analysis");
    if valid != [] {
      var call := Analyze(valid, 1000000);
      calls := [call];
      var outcome := CallAgent(services(call));
      match outcome
      case Body(j) =>
        analysis := j;
      case Raised(e) =>
        analysis := ErrorEntry("Analysis agent failed: " + e.detail);
      case Failed(e) =>
        analysis := ErrorEntry("Unexpected error during analysis call: " + rt.errorText(e));
    }
    assert (analysis, calls) == AnalysisStep(rt, services, valid);
    var languageCall := Synthesize(query, retrieved, analysis, results);
    calls := calls + [languageCall];
    var narrative := Narrative(rt, CallAgent(services(languageCall)));
    r := Assemble(retrieved, results, analysis, narrative);
  }

  // ---------------------------------------------------------------------------
  // Properties
  // ---------------------------------------------------------------------------

  /** A failed retrieval aborts with a 500 before any analysis or language call. */
  lemma RetrievalFailureAborts(rt: Runtime, services: Services, query: string, symbols: seq<string>, joined: seq<Outcome>)
    requires |joined| == |symbols| + 1 && !joined[0].Body?
    ensures Process(rt, services, query, symbols, joined) == (Err(HttpException(500, "Failed to retrieve context.")), [])
  {
  }

  lemma NotInPrefix(symbols: seq<string>, i: nat)
    requires i < |symbols| && Distinct(symbols)
    ensures symbols[i] !in symbols[..i]
  {
    assert forall j :: 0 <= j < i ==> symbols[..i][j] == symbols[j];
  }

  /** The (symbol, entry) pairs of the first `k` symbols, in fetch order. */
  function Entries(symbols: seq<string>, joined: seq<Outcome>, k: nat): (d: Dict<Json>)
    requires |joined| == |symbols| + 1 && k <= |symbols|
    ensures Keys(d) == symbols[..k]
  {
    seq(k, i requires 0 <= i < k => (symbols[i], MarketEntry(symbols[i], joined[i + 1])))
  }

  lemma EntriesDistinct(symbols: seq<string>, joined: seq<Outcome>, k: nat)
    requires |joined| == |symbols| + 1 && k <= |symbols| && Distinct(symbols)
    ensures DistinctKeys(Entries(symbols, joined, k))
  {
    var ks := Keys(Entries(symbols, joined, k));
    assert forall i :: 0 <= i < k ==> ks[i] == symbols[i];
  }

  /** With distinct symbols, `market_data_results` holds one entry per
      symbol, in fetch order, each built from that symbol's own outcome. */
  lemma {:induction false} ResultsInOrder(symbols: seq<string>, joined: seq<Outcome>, k: nat)
    requires |joined| == |symbols| + 1 && k <= |symbols| && Distinct(symbols)
    ensures ResultsUpTo(symbols, joined, k) == Entries(symbols, joined, k)
  {
    if k > 0 {
      var prev := Entries(symbols, joined, k - 1);
      var s := symbols[k - 1];
      var e := MarketEntry(s, joined[k]);
      ResultsInOrder(symbols, joined, k - 1);
      NotInPrefix(symbols, k - 1);
      PutAppends(prev, s, e);
      assert prev + [(s, e)] == Entries(symbols, joined, k);
    }
  }

  /** The market-data keys are the fetched symbols, in order. */
  lemma ResultsKeys(symbols: seq<string>, joined: seq<Outcome>)
    requires |joined| == |symbols| + 1 && Distinct(symbols)
    ensures Keys(ResultsUpTo(symbols, joined, |symbols|)) == symbols
  {
    ResultsInOrder(symbols, joined, |symbols|);
    assert symbols[..|symbols|] == symbols;
  }

  /** For the list the code passes, the market-data keys are "TSM" and
      "005930.KS", in that order. */
  lemma DefaultResultsKeys(joined: seq<Outcome>)
    requires |joined| == |DefaultSymbols| + 1
    ensures Keys(ResultsUpTo(DefaultSymbols, joined, |DefaultSymbols|)) == ["TSM", "005930.KS"]
  {
    DefaultSymbolsDistinct();
    ResultsKeys(DefaultSymbols, joined);
  }

  /** Each symbol's market-data entry is built from its own outcome, the one
      at its position plus one in the join. */
  lemma ResultsAttribution(symbols: seq<string>, joined: seq<Outcome>, j: nat)
    requires |joined| == |symbols| + 1 && j < |symbols| && Distinct(symbols)
    ensures Get(ResultsUpTo(symbols, joined, |symbols|), symbols[j]) == Some(MarketEntry(symbols[j], joined[j + 1]))
  {
    var d := Entries(symbols, joined, |symbols|);
    ResultsInOrder(symbols, joined, |symbols|);
    assert ResultsUpTo(symbols, joined, |symbols|) == d;
    EntriesDistinct(symbols, joined, |symbols|);
    GetAt(d, j);
    assert d[j] == (symbols[j], MarketEntry(symbols[j], joined[j + 1]));
  }

  /** A symbol is in the valid map exactly when one of its outcomes was an
      object. */
  lemma {:induction false} ValidHasKey(symbols: seq<string>, joined: seq<Outcome>, k: nat, s: string)
    requires |joined| == |symbols| + 1 && k <= |symbols|
    ensures HasKey(ValidUpTo(symbols, joined, k), s) <==>
      exists j :: 0 <= j < k && symbols[j] == s && IsValidOutcome(joined[j + 1])
  {
    if k > 0 {
      var prev := ValidUpTo(symbols, joined, k - 1);
      var t := symbols[k - 1];
      ValidHasKey(symbols, joined, k - 1, s);
      if IsValidOutcome(joined[k]) {
        if s == t {
          PutGetSame(prev, t, joined[k].value);
          assert symbols[k - 1] == s && IsValidOutcome(joined[k - 1 + 1]);
        } else {
          PutGetOther(prev, t, joined[k].value, s);
        }
      }
    }
  }

  /** A symbol whose outcome was an object enters the valid map with that
      object. */
  lemma {:induction false} ValidAttribution(symbols: seq<string>, joined: seq<Outcome>, k: nat, j: nat)
    requires |joined| == |symbols| + 1 && j < k <= |symbols| && Distinct(symbols)
    requires IsValidOutcome(joined[j + 1])
    ensures Get(ValidUpTo(symbols, joined, k), symbols[j]) == Some(joined[j + 1].value)
  {
    var prev := ValidUpTo(symbols, joined, k - 1);
    if j == k - 1 {
      PutGetSame(prev, symbols[j], joined[k].value);
    } else {
      if IsValidOutcome(joined[k]) {
        PutGetOther(prev, symbols[k - 1], joined[k].value, symbols[j]);
      }
      ValidAttribution(symbols, joined, k - 1, j);
    }
  }

  /** The valid map agrees with `market_data_results` wherever it has an
      entry. */
  lemma ValidSubMap(symbols: seq<string>, joined: seq<Outcome>, s: string)
    requires |joined| == |symbols| + 1 && Distinct(symbols)
    requires HasKey(ValidUpTo(symbols, joined, |symbols|), s)
    ensures Get(ValidUpTo(symbols, joined, |symbols|), s) == Get(ResultsUpTo(symbols, joined, |symbols|), s)
  {
    ValidHasKey(symbols, joined, |symbols|, s);
    var j :| 0 <= j < |symbols| && symbols[j] == s && IsValidOutcome(joined[j + 1]);
    ValidAttribution(symbols, joined, |symbols|, j);
    ResultsAttribution(symbols, joined, j);
  }

  /** The analysis service is called at most once, and exactly when some
      symbol's outcome was an object; without one the result is the fixed
      error entry. A body it returns is stored unchanged; a failure becomes an
      error entry instead of propagating. */
  lemma AnalysisGate(rt: Runtime, services: Services, valid: Dict<Json>)
    ensures |AnalysisStep(rt, services, valid).1| <= 1
    ensures AnalysisStep(rt, services, valid).1 == [] <==> valid == []
    ensures valid != [] ==> AnalysisStep(rt, services, valid).1 == [Analyze(valid, 1000000)]
    ensures valid == [] ==> AnalysisStep(rt, services, valid).0 == ErrorEntry("No valid market data for analysis")
    ensures valid != [] && CallAgent(services(Analyze(valid, 1000000))).Body? ==>
      AnalysisStep(rt, services, valid).0 == CallAgent(services(Analyze(valid, 1000000))).value
    ensures valid != [] && CallAgent(services(Analyze(valid, 1000000))).Raised? ==>
      AnalysisStep(rt, services, valid).0
        == ErrorEntry("Analysis agent failed: " + CallAgent(services(Analyze(valid, 1000000))).exception.detail)
    ensures valid != [] && !CallAgent(services(Analyze(valid, 1000000))).Body? ==>
      var a := AnalysisStep(rt, services, valid).0;
      a.JObj? && "error" in a.fields
  {
  }

  /** The valid map is empty exactly when no symbol's outcome is an object. */
  lemma {:induction false} ValidEmpty(symbols: seq<string>, joined: seq<Outcome>, k: nat)
    requires |joined| == |symbols| + 1 && k <= |symbols|
    ensures ValidUpTo(symbols, joined, k) == [] <==> forall i :: 1 <= i <= k ==> !IsValidOutcome(joined[i])
  {
    if k > 0 {
      ValidEmpty(symbols, joined, k - 1);
      if IsValidOutcome(joined[k]) {
        var v := Put(ValidUpTo(symbols, joined, k - 1), symbols[k - 1], joined[k].value);
        PutGetSame(ValidUpTo(symbols, joined, k - 1), symbols[k - 1], joined[k].value);
        assert |Keys(v)| > 0;
      }
    }
  }

  /** After a successful retrieval: the language service is called exactly
      once, last, with the request's query, the analysis result and every
      market-data entry (errors included); the analysis
      service is called before it only when some symbol returned an object. */
  lemma CallsMade(rt: Runtime, services: Services, query: string, symbols: seq<string>, joined: seq<Outcome>)
    requires |joined| == |symbols| + 1 && joined[0].Body?
    ensures
      var calls := Process(rt, services, query, symbols, joined).1;
      var results := ResultsUpTo(symbols, joined, |symbols|);
      var valid := ValidUpTo(symbols, joined, |symbols|);
      && 1 <= |calls| <= 2
      && calls[|calls| - 1].Synthesize?
      && calls[|calls| - 1].query == query
      && calls[|calls| - 1].analysisResults == AnalysisStep(rt, services, valid).0
      && calls[|calls| - 1].marketData == results
      && calls[|calls| - 1].retrievedContext == RetrievedData(joined[0].value)
      && (|calls| == 2 <==> exists i :: 1 <= i <= |symbols| && IsValidOutcome(joined[i]))
      && (|calls| == 2 ==> calls[0] == Analyze(valid, 1000000))
  {
    ValidEmpty(symbols, joined, |symbols|);
    AnalysisGate(rt, services, ValidUpTo(symbols, joined, |symbols|));
  }

  lemma ErrorNarrativeMarked(message: string)
    ensures IsErrorNarrative(ErrorNarrative(message))
  {
    assert ErrorNarrative(message)[..7] == "Error: ";
  }

  /** A narrative not taken from the language service's `narrative` field is
      an "Error: ..." text. */
  lemma NarrativeFallbacks(rt: Runtime, o: Outcome)
    ensures !(o.Body? && o.value.JObj? && "narrative" in o.value.fields) ==>
      var n := Narrative(rt, o);
      n.JStr? && IsErrorNarrative(n.s)
    ensures o.Body? && o.value.JObj? && "narrative" in o.value.fields ==>
      Narrative(rt, o) == o.value.fields["narrative"]
  {
    match o
    case Body(j) =>
      if j.JObj? {
        ErrorNarrativeMarked("No narrative content in response.");
      } else {
        ErrorNarrativeMarked("Unexpected error during language agent call: " + rt.errorText(AttributeError(j, "get")));
      }
    case Raised(e) =>
      ErrorNarrativeMarked("Language agent failed: " + e.detail);
    case Failed(e) =>
      ErrorNarrativeMarked("Unexpected error during language agent call: " + rt.errorText(e));
  }

  /** A successful response echoes the retrieved data, the full market-data
      map and the analysis result unchanged. */
  lemma ResponseEchoes(rt: Runtime, services: Services, query: string, symbols: seq<string>, joined: seq<Outcome>)
    requires |joined| == |symbols| + 1
    requires Process(rt, services, query, symbols, joined).0.Ok?
    ensures joined[0].Body?
    ensures
      var resp := Process(rt, services, query, symbols, joined).0.value;
      var valid := ValidUpTo(symbols, joined, |symbols|);
      && resp.retrievedContext == RetrievedData(joined[0].value)
      && resp.marketData == ResultsUpTo(symbols, joined, |symbols|)
      && resp.analysisResults == AnalysisStep(rt, services, valid).0
  {
  }

  /** With the join built by `Gather`, each symbol's entry comes from the
      market-data call for that very symbol. */
  lemma GatherAttribution(services: Services, query: string, symbols: seq<string>, j: nat)
    requires Distinct(symbols) && j < |symbols|
    ensures
      var joined := Gather(services, query, symbols);
      Get(ResultsUpTo(symbols, joined, |symbols|), symbols[j])
        == Some(MarketEntry(symbols[j], CallAgent(services(FetchStock(symbols[j])))))
  {
    ResultsAttribution(symbols, Gather(services, query, symbols), j);
  }

  /** An entry recorded for a failed or malformed fetch is reported by the
      language service as an error line for that symbol. */
  lemma FailedFetchReported(rt: Runtime, symbol: string, o: Outcome)
    requires !IsValidOutcome(o)
    ensures
      var entry := MarketEntry(symbol, o);
      LanguageAgent.MarketDataLine(rt, symbol, entry)
        == Ok(Some("- " + symbol + ": Error fetching data (" + Str(rt, entry.fields["error"]) + ")"))
  {
    assert |"info"| != |"error"|;
  }
}
