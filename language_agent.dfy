/** The prompt-input formatters and the synthesis endpoint of the language
    service (agents/language_agent/app.py). The LLM chain is a parameter. */
module LanguageAgent {
  import opened Wrappers
  import opened PyText
  import opened PyValues

  const NoDocuments := "No relevant documents found."
  const NoAnalysis := "No specific analysis results available."
  const NoHighlights := "No specific market data highlights available."
  const NoPrice := "N/A"
  const Newline := "\n"

  /** `f"{x:.2f}"`: the two-decimal form of a number, or what `format` raises
      for anything else (a bool is a number). */
  function Fixed2(rt: Runtime, j: Json): (r: Result<string, PyError>)
    ensures r.Ok? <==> Number(j).Some?
    ensures r.Ok? ==> r.value == rt.fixed2(Number(j).value)
  {
    match Number(j)
    case Some(x) => Ok(rt.fixed2(x))
    case None => if j.JStr? then Err(ValueError("format code 'f'")) else Err(TypeError("__format__"))
  }

  // ---------------------------------------------------------------------------
  // format_context
  // ---------------------------------------------------------------------------

  /** One retrieved document as a bullet line: its text is read first, then
      its score, then the score is formatted. */
  function ContextLine(rt: Runtime, item: map<string, Json>): Result<string, PyError>
  {
    if "text" !in item then Err(KeyError("text"))
    else if "score" !in item then Err(KeyError("score"))
    else
      var score :- Fixed2(rt, item["score"]);
      Ok("- " + Str(rt, item["text"]) + " (Score: " + score + ")")
  }

  /** A line fails exactly when the text or score is missing or the score is
      not a number; otherwise it shows both. */
  lemma ContextLineCases(rt: Runtime, item: map<string, Json>)
    ensures ContextLine(rt, item).Err? <==>
      "text" !in item || "score" !in item || Number(item["score"]).None?
    ensures ContextLine(rt, item).Ok? ==>
      ContextLine(rt, item).value
        == "- " + Str(rt, item["text"]) + " (Score: " + rt.fixed2(Number(item["score"]).value) + ")"
  {
  }

  /** The list comprehension: the lines in order, or the first exception. */
  function ContextLines(rt: Runtime, context: seq<map<string, Json>>): Result<seq<string>, PyError>
  {
    if context == [] then Ok([])
    else
      var line :- ContextLine(rt, context[0]);
      var rest :- ContextLines(rt, context[1..]);
      Ok([line] + rest)
  }

  /** The comprehension succeeds exactly when every item does, and then has
      one line per item, in order. */
  lemma {:induction false} ContextLinesPointwise(rt: Runtime, context: seq<map<string, Json>>)
    ensures ContextLines(rt, context).Ok? <==> forall i :: 0 <= i < |context| ==> ContextLine(rt, context[i]).Ok?
    ensures ContextLines(rt, context).Ok? ==>
      |ContextLines(rt, context).value| == |context|
      && forall i :: 0 <= i < |context| ==> ContextLines(rt, context).value[i] == ContextLine(rt, context[i]).value
  {
    if context != [] {
      ContextLinesPointwise(rt, context[1..]);
      assert forall i :: 1 <= i < |context| ==> context[1..][i - 1] == context[i];
    }
  }

  /** `format_context(context)` */
  function FormatContext(rt: Runtime, context: seq<map<string, Json>>): Result<string, PyError>
  {
    if context == [] then Ok(NoDocuments)
    else
      var lines :- ContextLines(rt, context);
      Ok(Join(lines, Newline))
  }

  /** An empty context gives the fixed message; otherwise, when no line holds
      a newline, the text splits back into one line per document. */
  lemma FormatContextLines(rt: Runtime, context: seq<map<string, Json>>)
    ensures context == [] ==> FormatContext(rt, context) == Ok(NoDocuments)
    ensures context != [] && ContextLines(rt, context).Ok?
         && (forall l | l in ContextLines(rt, context).value :: '\n' !in l)
         ==> SplitOn(FormatContext(rt, context).value, '\n') == ContextLines(rt, context).value
  {
    if context != [] && ContextLines(rt, context).Ok? {
      var lines := ContextLines(rt, context).value;
      ContextLinesPointwise(rt, context);
      if forall l | l in lines :: '\n' !in l {
        assert forall i :: 0 <= i < |lines| ==> '\n' !in lines[i] by {
          forall i | 0 <= i < |lines| ensures '\n' !in lines[i] {
            assert lines[i] in lines;
          }
        }
        assert Newline == ['\n'];
        SplitOnJoin(lines, '\n');
      }
    }
  }

  // ---------------------------------------------------------------------------
  // format_analysis
  // ---------------------------------------------------------------------------

  /** `format_analysis(analysis)`: the exposure line when the metric is present
      and not None, else the fixed message; `AttributeError` when
      `risk_metrics` is there but is not an object. */
  function FormatAnalysis(rt: Runtime, analysis: map<string, Json>): Result<string, PyError>
  {
    var metrics := Lookup(analysis, "risk_metrics", JObj(map[]));
    if !metrics.JObj? then Err(AttributeError(metrics, "get"))
    else
      var exposure := Lookup(metrics.fields, "asia_tech_exposure_percent", JNull);
      var items := if exposure != JNull then ["- Asia Tech Exposure: " + Str(rt, exposure) + "%"] else [];
      if items == [] then Ok(NoAnalysis) else Ok(Join(items, Newline))
  }

  /** The three outcomes of `format_analysis`, each with its exact condition. */
  lemma FormatAnalysisCases(rt: Runtime, analysis: map<string, Json>)
    ensures FormatAnalysis(rt, analysis).Err? <==>
      "risk_metrics" in analysis && !analysis["risk_metrics"].JObj?
    ensures FormatAnalysis(rt, analysis) == Ok(NoAnalysis) <==>
      var metrics := Lookup(analysis, "risk_metrics", JObj(map[]));
      metrics.JObj? && Lookup(metrics.fields, "asia_tech_exposure_percent", JNull) == JNull
    ensures
      var metrics := Lookup(analysis, "risk_metrics", JObj(map[]));
      metrics.JObj? && Lookup(metrics.fields, "asia_tech_exposure_percent", JNull) != JNull ==>
      FormatAnalysis(rt, analysis)
        == Ok("- Asia Tech Exposure: " + Str(rt, metrics.fields["asia_tech_exposure_percent"]) + "%")
  {
    var metrics := Lookup(analysis, "risk_metrics", JObj(map[]));
    if metrics.JObj? {
      var exposure := Lookup(metrics.fields, "asia_tech_exposure_percent", JNull);
      if exposure != JNull {
        var line := "- Asia Tech Exposure: " + Str(rt, exposure) + "%";
        assert line[0] == '-' && NoAnalysis[0] == 'N';
      }
    }
  }

  /** An error-shaped analysis result (`{"error": ...}`) gives the fixed message. */
  lemma FormatAnalysisOfError(rt: Runtime, e: Json)
    ensures FormatAnalysis(rt, map["error" := e]) == Ok(NoAnalysis)
  {
    assert "risk_metrics" != "error" by {
      assert |"risk_metrics"| != |"error"|;
    }
    assert "risk_metrics" !in map["error" := e];
  }

  // ---------------------------------------------------------------------------
  // format_market_data
  // ---------------------------------------------------------------------------

  /** `key in entry`: a key of an object, a substring of a string, an element
      of a list; `TypeError` for anything else. */
  function Contains(entry: Json, key: string): Result<bool, PyError>
  {
    match entry
    case JObj(fields) => Ok(key in fields)
    case JStr(s) => Ok(IsSubstring(key, s))
    case JList(items) => Ok(JStr(key) in items)
    case _ => Err(TypeError("in"))
  }

  /** `entry[key]` with a string key, for an entry that contains it. */
  function Subscript(entry: Json, key: string): Result<Json, PyError>
  {
    if entry.JObj? && key in entry.fields then Ok(entry.fields[key])
    else Err(TypeError("indices must be integers"))
  }

  /** The last price: the `Close` of the last element of a non-empty price
      list in two-decimal form, else "N/A". */
  function LastPrice(rt: Runtime, price: Json): Result<string, PyError>
  {
    if Truthy(price) && price.JList? && |price.items| > 0 then
      var entry := price.items[|price.items| - 1];
      var has :- Contains(entry, "Close");
      if has then
        var close :- Subscript(entry, "Close");
        Fixed2(rt, close)
      else Ok(NoPrice)
    else Ok(NoPrice)
  }

  /** "N/A" when there is no price list, it is empty, or its last entry is an
      object without `Close`; the formatted `Close` when there is one. */
  lemma LastPriceCases(rt: Runtime, price: Json)
    ensures !price.JList? || price.items == [] ==> LastPrice(rt, price) == Ok(NoPrice)
    ensures price.JList? && price.items != [] && price.items[|price.items| - 1].JObj? ==>
      var last := price.items[|price.items| - 1].fields;
      LastPrice(rt, price) == if "Close" in last then Fixed2(rt, last["Close"]) else Ok(NoPrice)
  {
  }

  /** The highlight an entry contributes, if any: an object with `info` gives a
      price line, else an object with `error` gives an error line. */
  function MarketDataLine(rt: Runtime, symbol: string, data: Json): Result<Option<string>, PyError>
  {
    if data.JObj? && "info" in data.fields then
      var info := data.fields["info"];
      if !info.JObj? then Err(AttributeError(info, "get"))
      else
        var name := Lookup(info.fields, "shortName", JStr(symbol));
        var last :- LastPrice(rt, Lookup(data.fields, "price", JNull));
        Ok(Some("- " + Str(rt, name) + " (" + symbol + "): Last Price " + last))
    else if data.JObj? && "error" in data.fields then
      Ok(Some("- " + symbol + ": Error fetching data (" + Str(rt, data.fields["error"]) + ")"))
    else
      Ok(None)
  }

  /** Whether an entry yields a line. */
  predicate Qualifies(data: Json)
  {
    data.JObj? && ("info" in data.fields || "error" in data.fields)
  }

  /** Exactly the qualifying entries yield a line; `info` wins over `error`;
      a name defaults to the symbol. */
  lemma MarketDataLineCases(rt: Runtime, symbol: string, data: Json)
    ensures MarketDataLine(rt, symbol, data).Ok? ==>
      (MarketDataLine(rt, symbol, data).value.Some? <==> Qualifies(data))
    ensures !Qualifies(data) ==> MarketDataLine(rt, symbol, data) == Ok(None)
    ensures data.JObj? && "info" in data.fields ==>
      MarketDataLine(rt, symbol, data) == MarketDataLine(rt, symbol, JObj(data.fields - {"error"}))
    ensures data.JObj? && "info" !in data.fields && "error" in data.fields ==>
      MarketDataLine(rt, symbol, data)
        == Ok(Some("- " + symbol + ": Error fetching data (" + Str(rt, data.fields["error"]) + ")"))
    ensures (data.JObj? && "info" in data.fields && data.fields["info"] == JObj(map[])
             && Lookup(data.fields, "price", JNull) == JNull) ==>
      MarketDataLine(rt, symbol, data) == Ok(Some("- " + symbol + " (" + symbol + "): Last Price " + NoPrice))
  {
    if data.JObj? && "info" in data.fields {
      var f := data.fields - {"error"};
      assert "info" != "error";
      assert "price" != "error";
      assert f["info"] == data.fields["info"];
      assert Lookup(f, "price", JNull) == Lookup(data.fields, "price", JNull);
    }
  }

  /** The highlight lines after the loop has run over `md`, or the first
      exception raised. */
  function Highlights(rt: Runtime, md: Dict<Json>): Result<seq<string>, PyError>
  {
    if md == [] then Ok([])
    else
      var n := |md| - 1;
      var init :- Highlights(rt, md[..n]);
      var line :- MarketDataLine(rt, md[n].0, md[n].1);
      Ok(if line.Some? then init + [line.value] else init)
  }

  /** `format_market_data(market_data)` */
  function MarketDataText(rt: Runtime, md: Dict<Json>): Result<string, PyError>
  {
    var lines :- Highlights(rt, md);
    if lines == [] then Ok(NoHighlights) else Ok(Join(lines, Newline))
  }

  /** The loop of `format_market_data`. */
  method FormatMarketData(rt: Runtime, marketData: Dict<Json>) returns (r: Result<string, PyError>)
    ensures r == MarketDataText(rt, marketData)
  {
    var highlights: seq<string> := [];
    var i := 0;
    while i < |marketData|
      invariant 0 <= i <= |marketData|
      invariant Highlights(rt, marketData[..i]) == Ok(highlights)
    {
      var (symbol, data) := marketData[i];
      assert marketData[..i + 1][..i] == marketData[..i];
      var line := MarketDataLine(rt, symbol, data);
      if line.Err? {
        HighlightsErrSticks(rt, marketData, i + 1);
        return Err(line.error);
      }
      if line.value.Some? {
        highlights := highlights + [line.value.value];
      }
      i := i + 1;
    }
    assert marketData[..i] == marketData;
    if highlights == [] {
      return Ok(NoHighlights);
    }
    return Ok(Join(highlights, Newline));
  }

  /** Once an entry has raised, the rest of the loop does not run. */
  lemma {:induction false} HighlightsErrSticks(rt: Runtime, md: Dict<Json>, j: nat)
    requires j <= |md| && Highlights(rt, md[..j]).Err?
    ensures Highlights(rt, md) == Highlights(rt, md[..j])
    decreases |md|
  {
    if j < |md| {
      var init := md[..|md| - 1];
      assert init[..j] == md[..j];
      HighlightsErrSticks(rt, init, j);
    } else {
      assert md[..j] == md;
    }
  }

  /** Number of entries that yield a line. */
  function CountQualifying(md: Dict<Json>): (n: nat)
    ensures n <= |md|
  {
    if md == [] then 0
    else CountQualifying(md[..|md| - 1]) + (if Qualifies(md[|md| - 1].1) then 1 else 0)
  }

  /** One line per qualifying entry. */
  lemma {:induction false} HighlightsCount(rt: Runtime, md: Dict<Json>)
    requires Highlights(rt, md).Ok?
    ensures |Highlights(rt, md).value| == CountQualifying(md)
  {
    if md != [] {
      var n := |md| - 1;
      HighlightsCount(rt, md[..n]);
      MarketDataLineCases(rt, md[n].0, md[n].1);
    }
  }

  /** The lines of two runs of entries are the lines of the first run followed
      by those of the second: the map order is kept. */
  lemma {:induction false} HighlightsAppend(rt: Runtime, a: Dict<Json>, b: Dict<Json>)
    requires Highlights(rt, a).Ok? && Highlights(rt, b).Ok?
    ensures Highlights(rt, a + b) == Ok(Highlights(rt, a).value + Highlights(rt, b).value)
    decreases |b|
  {
    if b == [] {
      assert a + b == a;
      assert Highlights(rt, a).value + [] == Highlights(rt, a).value;
    } else {
      var n := |b| - 1;
      assert (a + b)[..|a| + n] == a + b[..n];
      assert (a + b)[|a| + n] == b[n];
      HighlightsAppend(rt, a, b[..n]);
      var ha := Highlights(rt, a).value;
      var hb := Highlights(rt, b[..n]).value;
      var line := MarketDataLine(rt, b[n].0, b[n].1).value;
      if line.Some? {
        assert ha + hb + [line.value] == ha + (hb + [line.value]);
      }
    }
  }

  /** The fixed message appears exactly when no entry qualifies. */
  lemma MarketDataTextEmpty(rt: Runtime, md: Dict<Json>)
    requires Highlights(rt, md).Ok?
    ensures MarketDataText(rt, md) == Ok(NoHighlights) <==> CountQualifying(md) == 0
  {
    HighlightsCount(rt, md);
    HighlightsDashed(rt, md);
    var lines := Highlights(rt, md).value;
    if lines != [] {
      JoinStartsWithDash(lines);
      assert NoHighlights[0] == 'N';
    }
  }

  /** Every highlight line starts with "- ". */
  lemma {:induction false} HighlightsDashed(rt: Runtime, md: Dict<Json>)
    requires Highlights(rt, md).Ok?
    ensures forall l | l in Highlights(rt, md).value :: |l| > 0 && l[0] == '-'
  {
    if md != [] {
      var n := |md| - 1;
      HighlightsDashed(rt, md[..n]);
      var line := MarketDataLine(rt, md[n].0, md[n].1);
      if line.Ok? && line.value.Some? {
        MarketDataLineDashed(rt, md[n].0, md[n].1);
      }
    }
  }

  lemma MarketDataLineDashed(rt: Runtime, symbol: string, data: Json)
    requires MarketDataLine(rt, symbol, data).Ok? && MarketDataLine(rt, symbol, data).value.Some?
    ensures |MarketDataLine(rt, symbol, data).value.value| > 0
    ensures MarketDataLine(rt, symbol, data).value.value[0] == '-'
  {
  }

  lemma JoinStartsWithDash(lines: seq<string>)
    requires lines != [] && forall l | l in lines :: |l| > 0 && l[0] == '-'
    ensures |Join(lines, Newline)| > 0 && Join(lines, Newline)[0] == '-'
  {
    assert lines[0] in lines;
    if |lines| > 1 {
      assert Join(lines, Newline) == lines[0] + Newline + Join(lines[1..], Newline);
    }
  }

  // ---------------------------------------------------------------------------
  // synthesize_narrative
  // ---------------------------------------------------------------------------

  /** `SynthesisRequest`: the query, the retrieved documents, the analysis
      result and the per-symbol market data (in insertion order). */
  datatype SynthesisRequest = SynthesisRequest(
    query: string,
    retrievedContext: seq<map<string, Json>>,
    analysisResults: map<string, Json>,
    marketData: Dict<Json>)

  /** The four prompt variables. */
  datatype PromptInput = PromptInput(query: string, context: string, analysis: string, marketHighlights: string)

  /** The loaded LLM chain: the prompt, the model and the string parser, as one
      opaque step that yields a string or raises. */
  type LlmChain = PromptInput -> Result<string, PyError>

  /** The three formatters run in order; the first exception wins. */
  function Prompt(rt: Runtime, request: SynthesisRequest): Result<PromptInput, PyError>
  {
    var context :- FormatContext(rt, request.retrievedContext);
    var analysis :- FormatAnalysis(rt, request.analysisResults);
    var market :- MarketDataText(rt, request.marketData);
    Ok(PromptInput(request.query, context, analysis, market))
  }

  function SynthesisFailed(rt: Runtime, e: PyError): HttpException
  {
    HttpException(500, "Synthesis failed: " + rt.errorText(e))
  }

  /** The narrative `synthesize_narrative` returns, or the exception it raises. */
  function Synthesis(rt: Runtime, chain: Option<LlmChain>, request: SynthesisRequest): Result<string, HttpException>
  {
    if chain.None? then Err(HttpException(500, "LLM chain not loaded. Check API key and logs."))
    else
      match Prompt(rt, request)
      case Err(e) => Err(SynthesisFailed(rt, e))
      case Ok(input) =>
        match chain.value(input)
        case Err(e) => Err(SynthesisFailed(rt, e))
        case Ok(response) =>
          if response == "" then Err(SynthesisFailed(rt, ValueError("LLM failed to generate a response.")))
          else Ok(response)
  }

  /** `synthesize_narrative(request)` */
  method SynthesizeNarrative(rt: Runtime, chain: Option<LlmChain>, request: SynthesisRequest)
    returns (r: Result<string, HttpException>)
    ensures r == Synthesis(rt, chain, request)
  {
    if chain.None? {
      return Err(HttpException(500, "LLM chain not loaded. Check API key and logs."));
    }
    var context := FormatContext(rt, request.retrievedContext);
    if context.Err? {
      return Err(SynthesisFailed(rt, context.error));
    }
    var analysis := FormatAnalysis(rt, request.analysisResults);
    if analysis.Err? {
      return Err(SynthesisFailed(rt, analysis.error));
    }
    var market := FormatMarketData(rt, request.marketData);
    if market.Err? {
      return Err(SynthesisFailed(rt, market.error));
    }
    var response := chain.value(PromptInput(request.query, context.value, analysis.value, market.value));
    if response.Err? {
      return Err(SynthesisFailed(rt, response.error));
    }
    if response.value == "" {
      return Err(SynthesisFailed(rt, ValueError("LLM failed to generate a response.")));
    }
    return Ok(response.value);
  }

  /** Every rejection is a 500, and a narrative is never empty: it is what the
      chain produced for the formatted prompt. */
  lemma SynthesisOutcomes(rt: Runtime, chain: Option<LlmChain>, request: SynthesisRequest)
    ensures Synthesis(rt, chain, request).Err? ==> Synthesis(rt, chain, request).error.status == 500
    ensures Synthesis(rt, chain, request).Ok? <==>
      chain.Some? && Prompt(rt, request).Ok?
      && chain.value(Prompt(rt, request).value).Ok? && chain.value(Prompt(rt, request).value).value != ""
    ensures Synthesis(rt, chain, request).Ok? ==>
      Synthesis(rt, chain, request).value == chain.value(Prompt(rt, request).value).value
  {
  }
}
