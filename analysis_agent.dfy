/** The exposure arithmetic of the analysis service
    (agents/analysis_agent/app.py). */
module AnalysisAgent {
  import opened Wrappers
  import opened PyText
  import opened PyValues

  /** `StockInfo`: the symbol and the `info` mapping a market-data entry
      carries. Only lookups and emptiness of `info` matter here, so it is a
      map rather than an ordered dict. */
  datatype StockInfo = StockInfo(symbol: string, info: map<string, Json>)

  /** The region the mock lookup assigns. */
  function RegionOf(symbol: string): (r: string)
    ensures r == "Asia" <==> symbol == "TSM" || symbol == "005930.KS"
    ensures r != "Asia" ==> r == "Other"
  {
    if symbol == "TSM" then "Asia"
    else if symbol == "005930.KS" then "Asia"
    else "Other"
  }

  /** `stock_value <= 0` raises `TypeError` exactly for a truthy value that is
      not a number (a falsy value never reaches the comparison). */
  predicate ComparisonFails(j: Json)
  {
    Truthy(j) && Number(j).None?
  }

  /** The value one stock contributes, or the exception its evaluation raises:
      a positive `marketCap`, else `previousClose` (default 0), else 0. */
  function StockValue(info: map<string, Json>): Result<real, PyError>
  {
    if info == map[] then Ok(0.0)
    else
      var cap := Lookup(info, "marketCap", JNull);
      if Truthy(cap) && ComparisonFails(cap) then
        Err(TypeError("<="))
      else if Truthy(cap) && Number(cap).value > 0.0 then
        Ok(Number(cap).value)
      else
        match Number(Lookup(info, "previousClose", JNum(0.0)))
        case Some(x) => Ok(x)
        case None => Ok(0.0)
  }

  /** Missing info is worth 0; only a truthy non-number `marketCap` raises; a
      positive `marketCap` is taken as is; any other value comes from
      `marketCap` or `previousClose`, or is 0. */
  lemma StockValueCases(info: map<string, Json>, n: real)
    ensures info == map[] ==> StockValue(info) == Ok(0.0)
    ensures StockValue(info).Err? <==> info != map[] && ComparisonFails(Lookup(info, "marketCap", JNull))
    ensures info != map[] && "marketCap" in info && info["marketCap"] == JNum(n) && n > 0.0 ==> StockValue(info) == Ok(n)
    ensures StockValue(info).Ok? ==>
      || StockValue(info).value == 0.0
      || Number(Lookup(info, "marketCap", JNull)) == Some(StockValue(info).value)
      || Number(Lookup(info, "previousClose", JNum(0.0))) == Some(StockValue(info).value)
  {
  }

  /** The lower-cased sector of a stock, `''` when its info is empty, or the
      `AttributeError` of `.lower()` on a non-string sector. */
  function SectorOf(info: map<string, Json>): Result<string, PyError>
  {
    if info == map[] then Ok("")
    else
      var s := Lookup(info, "sector", JStr(""));
      if s.JStr? then Ok(Lower(s.s)) else Err(AttributeError(s, "lower"))
  }

  /** Only a present, non-string sector raises. */
  lemma SectorOfCases(info: map<string, Json>)
    ensures SectorOf(info).Err? <==> info != map[] && "sector" in info && !Lookup(info, "sector", JStr("")).JStr?
    ensures info == map[] ==> SectorOf(info) == Ok("")
  {
  }

  /** The two running sums of `calculate_exposure`. */
  datatype Tally = Tally(matched: real, total: real)

  /** Whether a stock counts towards the numerator. */
  predicate Counts(region: string, symbol: string, sector: string)
  {
    RegionOf(symbol) == region && sector == "technology"
  }

  /** One loop iteration: the value is evaluated before the sector. */
  function AddStock(t: Tally, region: string, symbol: string, info: map<string, Json>): Result<Tally, PyError>
  {
    var v :- StockValue(info);
    var sector :- SectorOf(info);
    Ok(Tally(if Counts(region, symbol, sector) then t.matched + v else t.matched, t.total + v))
  }

  /** The three outcomes of one iteration. */
  lemma AddStockCases(t: Tally, region: string, symbol: string, info: map<string, Json>)
    ensures StockValue(info).Err? ==> AddStock(t, region, symbol, info) == Err(StockValue(info).error)
    ensures StockValue(info).Ok? && SectorOf(info).Err? ==>
      AddStock(t, region, symbol, info) == Err(SectorOf(info).error)
    ensures StockValue(info).Ok? && SectorOf(info).Ok? ==>
      var v := StockValue(info).value;
      AddStock(t, region, symbol, info)
        == Ok(Tally(if Counts(region, symbol, SectorOf(info).value) then t.matched + v else t.matched, t.total + v))
  {
  }

  /** Whether evaluating an entry raises. */
  predicate EntryFails(info: map<string, Json>)
  {
    StockValue(info).Err? || SectorOf(info).Err?
  }

  /** The sums after the loop has run over `md`, or the first exception raised. */
  function TallyOf(region: string, md: Dict<StockInfo>): Result<Tally, PyError>
  {
    if md == [] then Ok(Tally(0.0, 0.0))
    else
      var t :- TallyOf(region, md[..|md| - 1]);
      AddStock(t, region, md[|md| - 1].0, md[|md| - 1].1.info)
  }

  /** The sums after one more entry. */
  lemma TallyStep(region: string, md: Dict<StockInfo>, i: nat)
    requires i < |md|
    ensures TallyOf(region, md[..i + 1]) ==
      if TallyOf(region, md[..i]).Err? then TallyOf(region, md[..i])
      else AddStock(TallyOf(region, md[..i]).value, region, md[i].0, md[i].1.info)
  {
    assert md[..i + 1][..i] == md[..i];
  }

  /** `calculate_exposure(market_data, total_aum, region)` */
  function Exposure(rt: Runtime, md: Dict<StockInfo>, region: string): Result<real, PyError>
  {
    if md == [] then Ok(0.0)
    else
      var t :- TallyOf(region, md);
      if t.total <= 0.0 then Ok(0.0)
      else Ok(rt.round2(t.matched / t.total * 100.0))
  }

  /** Once an entry has raised, the rest of the loop does not run. */
  lemma {:induction false} TallyErrSticks(region: string, md: Dict<StockInfo>, j: nat)
    requires j <= |md| && TallyOf(region, md[..j]).Err?
    ensures TallyOf(region, md) == TallyOf(region, md[..j])
    decreases |md|
  {
    if j < |md| {
      var init := md[..|md| - 1];
      assert init[..j] == md[..j];
      TallyErrSticks(region, init, j);
    } else {
      assert md[..j] == md;
    }
  }

  /** The loop of `calculate_exposure`; `total_aum` is accepted and unused. */
  method CalculateExposure(rt: Runtime, marketData: Dict<StockInfo>, totalAum: real, region: string)
    returns (r: Result<real, PyError>)
    ensures r == Exposure(rt, marketData, region)
  {
    if marketData == [] {
      return Ok(0.0);
    }
    var matched := 0.0;
    var total := 0.0;
    var i := 0;
    while i < |marketData|
      invariant 0 <= i <= |marketData|
      invariant TallyOf(region, marketData[..i]) == Ok(Tally(matched, total))
    {
      var (symbol, data) := marketData[i];
      TallyStep(region, marketData, i);
      AddStockCases(Tally(matched, total), region, symbol, data.info);
      var value := StockValue(data.info);
      if value.Err? {
        TallyErrSticks(region, marketData, i + 1);
        return Err(value.error);
      }
      var sector := SectorOf(data.info);
      if sector.Err? {
        TallyErrSticks(region, marketData, i + 1);
        return Err(sector.error);
      }
      total := total + value.value;
      if Counts(region, symbol, sector.value) {
        matched := matched + value.value;
      }
      i := i + 1;
    }
    assert marketData[..i] == marketData;
    if total <= 0.0 {
      return Ok(0.0);
    }
    return Ok(rt.round2(matched / total * 100.0));
  }

  // ---------------------------------------------------------------------------
  // Properties of the exposure
  // ---------------------------------------------------------------------------

  lemma AddStockFails(t: Tally, region: string, symbol: string, info: map<string, Json>)
    ensures AddStock(t, region, symbol, info).Err? <==> EntryFails(info)
  {
  }

  /** Adding two pairs of sums. */
  function Combine(x: Tally, y: Tally): Tally
  {
    Tally(x.matched + y.matched, x.total + y.total)
  }

  /** What one entry adds does not depend on the sums so far: from any sums
      it raises the same exception, or adds what it adds to zero sums. */
  lemma AddStockOffset(t: Tally, region: string, symbol: string, info: map<string, Json>)
    ensures AddStock(t, region, symbol, info).Err? ==>
      AddStock(t, region, symbol, info) == AddStock(Tally(0.0, 0.0), region, symbol, info)
    ensures AddStock(t, region, symbol, info).Ok? ==>
      && AddStock(Tally(0.0, 0.0), region, symbol, info).Ok?
      && AddStock(t, region, symbol, info).value == Combine(t, AddStock(Tally(0.0, 0.0), region, symbol, info).value)
  {
  }

  /** The loop over a concatenation: the sums of the two parts add up, and the
      first exception, from the first part or else from the second, is the one
      raised. */
  lemma {:induction false} TallyAppend(region: string, a: Dict<StockInfo>, b: Dict<StockInfo>)
    ensures TallyOf(region, a).Err? ==> TallyOf(region, a + b) == TallyOf(region, a)
    ensures TallyOf(region, a).Ok? && TallyOf(region, b).Err? ==> TallyOf(region, a + b) == TallyOf(region, b)
    ensures TallyOf(region, a).Ok? && TallyOf(region, b).Ok? ==>
      TallyOf(region, a + b) == Ok(Combine(TallyOf(region, a).value, TallyOf(region, b).value))
    decreases |b|
  {
    if b == [] {
      assert a + b == a;
    } else {
      var init := b[..|b| - 1];
      var e := b[|b| - 1];
      TallyAppend(region, a, init);
      TallySnoc(region, init, e);
      TallySnoc(region, a + init, e);
      assert b == init + [e];
      assert a + b == (a + init) + [e];
      if TallyOf(region, a).Ok? && TallyOf(region, init).Ok? {
        CombineStep(TallyOf(region, a).value, TallyOf(region, init).value, region, e.0, e.1.info);
      }
    }
  }

  /** One entry after combined sums: the same exception, or the combination
      with the sums the entry gives after the second part alone. */
  lemma CombineStep(x: Tally, y: Tally, region: string, symbol: string, info: map<string, Json>)
    ensures AddStock(Combine(x, y), region, symbol, info).Err? <==> AddStock(y, region, symbol, info).Err?
    ensures AddStock(y, region, symbol, info).Err? ==>
      AddStock(Combine(x, y), region, symbol, info) == AddStock(y, region, symbol, info)
    ensures AddStock(y, region, symbol, info).Ok? ==>
      AddStock(Combine(x, y), region, symbol, info) == Ok(Combine(x, AddStock(y, region, symbol, info).value))
  {
    var zero := Tally(0.0, 0.0);
    AddStockOffset(Combine(x, y), region, symbol, info);
    AddStockOffset(y, region, symbol, info);
    if AddStock(zero, region, symbol, info).Ok? {
      var d := AddStock(zero, region, symbol, info).value;
      assert Combine(Combine(x, y), d) == Combine(x, Combine(y, d));
    }
  }

  /** The sums after one entry more. */
  lemma TallySnoc(region: string, md: Dict<StockInfo>, e: (string, StockInfo))
    ensures TallyOf(region, md + [e])
      == if TallyOf(region, md).Err? then TallyOf(region, md) else AddStock(TallyOf(region, md).value, region, e.0, e.1.info)
  {
    assert (md + [e])[..|md|] == md;
  }

  /** The request fails exactly when some entry raises. */
  lemma {:induction false} TallyErrIff(region: string, md: Dict<StockInfo>)
    ensures TallyOf(region, md).Err? <==> exists i :: 0 <= i < |md| && EntryFails(md[i].1.info)
  {
    if md != [] {
      var n := |md| - 1;
      var init := md[..n];
      TallyErrIff(region, init);
      if TallyOf(region, init).Ok? {
        AddStockFails(TallyOf(region, init).value, region, md[n].0, md[n].1.info);
      }
      assert forall i :: 0 <= i < n ==> init[i] == md[i];
      if exists i :: 0 <= i < |md| && EntryFails(md[i].1.info) {
        var i :| 0 <= i < |md| && EntryFails(md[i].1.info);
        assert i == n || EntryFails(init[i].1.info);
      }
    }
  }

  /** No stock of the requested region: nothing is counted in the numerator. */
  lemma {:induction false} TallyNoRegion(region: string, md: Dict<StockInfo>)
    requires forall i :: 0 <= i < |md| ==> RegionOf(md[i].0) != region
    requires TallyOf(region, md).Ok?
    ensures TallyOf(region, md).value.matched == 0.0
  {
    if md != [] {
      TallyNoRegion(region, md[..|md| - 1]);
    }
  }

  /** Every value non-negative. */
  predicate NonNegativeValues(md: Dict<StockInfo>)
  {
    forall i :: 0 <= i < |md| ==> StockValue(md[i].1.info).Ok? ==> StockValue(md[i].1.info).value >= 0.0
  }

  /** With non-negative values the numerator lies between 0 and the total. */
  lemma {:induction false} TallyBounds(region: string, md: Dict<StockInfo>)
    requires NonNegativeValues(md) && TallyOf(region, md).Ok?
    ensures 0.0 <= TallyOf(region, md).value.matched <= TallyOf(region, md).value.total
  {
    if md != [] {
      var init := md[..|md| - 1];
      assert NonNegativeValues(init) by {
        forall i | 0 <= i < |init| ensures init[i] == md[i] { }
      }
      TallyBounds(region, init);
      assert StockValue(md[|md| - 1].1.info).Ok?;
    }
  }

  lemma PercentBounds(m: real, t: real)
    requires 0.0 <= m <= t && t > 0.0
    ensures 0.0 <= m / t * 100.0 <= 100.0
  {
    assert m / t <= 1.0 by {
      assert m / t * t == m;
    }
  }

  /** With non-negative values the exposure is `round` of a percentage in [0, 100]. */
  lemma ExposureInRange(rt: Runtime, md: Dict<StockInfo>, region: string)
    requires NonNegativeValues(md) && Exposure(rt, md, region).Ok?
    ensures Exposure(rt, md, region).value == 0.0
         || exists p :: 0.0 <= p <= 100.0 && Exposure(rt, md, region).value == rt.round2(p)
  {
    if md != [] {
      var t := TallyOf(region, md).value;
      if t.total > 0.0 {
        TallyBounds(region, md);
        PercentBounds(t.matched, t.total);
        var p := t.matched / t.total * 100.0;
        assert Exposure(rt, md, region).value == rt.round2(p);
      }
    }
  }

  /** The symbol recorded inside an entry plays no part: only the key does. */
  lemma {:induction false} TallyIgnoresSymbolField(region: string, md: Dict<StockInfo>, md': Dict<StockInfo>)
    requires |md| == |md'|
    requires forall i :: 0 <= i < |md| ==> md[i].0 == md'[i].0 && md[i].1.info == md'[i].1.info
    ensures TallyOf(region, md) == TallyOf(region, md')
  {
    if md != [] {
      var n := |md| - 1;
      forall i | 0 <= i < n ensures md[..n][i].0 == md'[..n][i].0 && md[..n][i].1.info == md'[..n][i].1.info {
        assert md[..n][i] == md[i] && md'[..n][i] == md'[i];
      }
      TallyIgnoresSymbolField(region, md[..n], md'[..n]);
      assert md[n].0 == md'[n].0 && md[n].1.info == md'[n].1.info;
    }
  }

  lemma ExposureIgnoresSymbolField(rt: Runtime, region: string, md: Dict<StockInfo>, md': Dict<StockInfo>)
    requires |md| == |md'|
    requires forall i :: 0 <= i < |md| ==> md[i].0 == md'[i].0 && md[i].1.info == md'[i].1.info
    ensures Exposure(rt, md, region) == Exposure(rt, md', region)
  {
    TallyIgnoresSymbolField(region, md, md');
  }

  // ---------------------------------------------------------------------------
  // analyze_portfolio
  // ---------------------------------------------------------------------------

  /** Which form of the per-symbol wrapping runs. */
  datatype Wrapping = AsWritten | Corrected

  /** Building `StockInfo(symbol=symbol, info=data_dict.get('info', {}))`.
      As written, `data_dict` is already a `StockInfo` model, which has no
      `get`, so the call raises `AttributeError` for every entry; corrected,
      the entry's own `info` is wrapped under the key's symbol. */
  function Wrap(w: Wrapping, symbol: string, data: StockInfo): (r: Result<StockInfo, PyError>)
    ensures w == AsWritten ==> r.Err?
    ensures w == Corrected ==> r == Ok(StockInfo(symbol, data.info))
  {
    match w
    case AsWritten => Err(AttributeError(JNull, "get"))
    case Corrected => Ok(StockInfo(symbol, data.info))
  }

  /** `valid_market_data` after the loop over `md`. */
  function ValidMarketData(w: Wrapping, md: Dict<StockInfo>): Dict<StockInfo>
  {
    if md == [] then []
    else
      var valid := ValidMarketData(w, md[..|md| - 1]);
      var (symbol, data) := md[|md| - 1];
      match Wrap(w, symbol, data)
      case Ok(s) => Put(valid, symbol, s)
      case Err(_) => valid
  }

  /** The response body, or the 500 the outer handler raises. */
  function Analysis(rt: Runtime, w: Wrapping, md: Dict<StockInfo>): Result<Dict<Json>, HttpException>
  {
    match Exposure(rt, ValidMarketData(w, md), "Asia")
    case Ok(x) => Ok([("asia_tech_exposure_percent", JNum(x))])
    case Err(e) => Err(HttpException(500, "Analysis failed: " + rt.errorText(e)))
  }

  /** `analyze_portfolio(request)`: the request's market data, wrapped entry by
      entry, then measured for Asia technology exposure. */
  method AnalyzePortfolio(rt: Runtime, w: Wrapping, marketData: Dict<StockInfo>, totalAum: real)
    returns (r: Result<Dict<Json>, HttpException>)
    ensures r == Analysis(rt, w, marketData)
  {
    var valid: Dict<StockInfo> := [];
    var i := 0;
    while i < |marketData|
      invariant 0 <= i <= |marketData|
      invariant valid == ValidMarketData(w, marketData[..i])
    {
      var (symbol, data) := marketData[i];
      assert marketData[..i + 1][..i] == marketData[..i];
      var wrapped := Wrap(w, symbol, data);
      if wrapped.Ok? {
        valid := Put(valid, symbol, wrapped.value);
      }
      i := i + 1;
    }
    assert marketData[..i] == marketData;
    var exposure := CalculateExposure(rt, valid, totalAum, "Asia");
    match exposure
    case Ok(x) =>
      r := Ok([("asia_tech_exposure_percent", JNum(x))]);
    case Err(e) =>
      r := Err(HttpException(500, "Analysis failed: " + rt.errorText(e)));
  }

  /** As written every entry is skipped, so the exposure is always 0. */
  lemma {:induction false} AsWrittenSkipsAll(md: Dict<StockInfo>)
    ensures ValidMarketData(AsWritten, md) == []
  {
    if md != [] {
      AsWrittenSkipsAll(md[..|md| - 1]);
    }
  }

  lemma AnalysisAsWrittenAlwaysZero(rt: Runtime, md: Dict<StockInfo>)
    ensures Analysis(rt, AsWritten, md) == Ok([("asia_tech_exposure_percent", JNum(0.0))])
  {
    AsWrittenSkipsAll(md);
  }

  /** Corrected, every entry of a request (whose keys are distinct) is kept in
      order, under its key. */
  lemma {:induction false} CorrectedKeepsAll(md: Dict<StockInfo>)
    requires DistinctKeys(md)
    ensures |ValidMarketData(Corrected, md)| == |md|
    ensures forall i :: 0 <= i < |md| ==>
      ValidMarketData(Corrected, md)[i] == (md[i].0, StockInfo(md[i].0, md[i].1.info))
  {
    if md != [] {
      var init := md[..|md| - 1];
      assert DistinctKeys(init) by {
        forall i, j | 0 <= i < j < |init| ensures Keys(init)[i] != Keys(init)[j] {
          assert Keys(md)[i] != Keys(md)[j];
        }
      }
      CorrectedKeepsAll(init);
      var valid := ValidMarketData(Corrected, init);
      var k := md[|md| - 1].0;
      assert !HasKey(valid, k);
      PutAppends(valid, k, StockInfo(k, md[|md| - 1].1.info));
    }
  }

  /** Corrected, the service reports the exposure of the request's own data. */
  lemma AnalysisCorrected(rt: Runtime, md: Dict<StockInfo>)
    requires DistinctKeys(md)
    ensures Analysis(rt, Corrected, md) ==
      match Exposure(rt, md, "Asia")
      case Ok(x) => Ok([("asia_tech_exposure_percent", JNum(x))])
      case Err(e) => Err(HttpException(500, "Analysis failed: " + rt.errorText(e)))
  {
    CorrectedKeepsAll(md);
    ExposureIgnoresSymbolField(rt, "Asia", ValidMarketData(Corrected, md), md);
  }

  /** A single Taiwanese technology stock: corrected, its exposure is
      `round(100.0, 2)`; as written the service still answers 0. */
  lemma SingleAsiaTechStock(rt: Runtime)
    requires rt.round2(100.0) == 100.0
    ensures Analysis(rt, Corrected, [("TSM", StockInfo("TSM", map["marketCap" := JNum(5.0), "sector" := JStr("Technology")]))])
         == Ok([("asia_tech_exposure_percent", JNum(100.0))])
    ensures Analysis(rt, AsWritten, [("TSM", StockInfo("TSM", map["marketCap" := JNum(5.0), "sector" := JStr("Technology")]))])
         == Ok([("asia_tech_exposure_percent", JNum(0.0))])
  {
    var info := map["marketCap" := JNum(5.0), "sector" := JStr("Technology")];
    var md := [("TSM", StockInfo("TSM", info))];
    assert "marketCap" != "sector" by {
      assert |"marketCap"| != |"sector"|;
    }
    assert Lookup(info, "marketCap", JNull) == JNum(5.0);
    assert Lower("Technology") == "technology";
    assert StockValue(info) == Ok(5.0);
    assert SectorOf(info) == Ok("technology");
    assert md[..0] == [];
    assert TallyOf("Asia", md) == Ok(Tally(5.0, 5.0));
    AnalysisCorrected(rt, md);
    AnalysisAsWrittenAlwaysZero(rt, md);
  }
}
