/** The put/call ratio computed from an options-chain snapshot
    (`PutCallRatioAPI`): per-type accumulation over the contracts, the ratio
    that is undefined without calls, the five-bucket reading of a ratio, and
    the per-symbol result map of a batch request. The snapshot itself is an
    input: a fetch function standing for the REST client. */
module PutCallRatio {
  import opened Wrappers
  import opened Text

  /** The contract type as a snapshot exposes it: absent (no `details` or no
      `contract_type` attribute), present but None, or a text. */
  datatype TypeField = NoTypeField | NullType | TypeText(text: string)

  /** One contract of the snapshot. A `None` volume or open interest covers
      a missing attribute and a None value alike (both count as 0). */
  datatype Contract = Contract(contractType: TypeField, dayVolume: Option<int>, openInterest: Option<int>)

  function VolumeOf(c: Contract): int {
    if c.dayVolume.Some? then c.dayVolume.value else 0
  }

  function OpenInterestOf(c: Contract): int {
    if c.openInterest.Some? then c.openInterest.value else 0
  }

  /** Whether the lower-cased contract type equals `kind`. */
  predicate IsKind(c: Contract, kind: string) {
    c.contractType.TypeText? && Lower(c.contractType.text) == kind
  }

  /** Reference sums: volume and open interest over the contracts of one
      kind; contracts of every other type contribute nothing. */
  function SumVolume(cs: seq<Contract>, kind: string): int
    decreases |cs|
  {
    if |cs| == 0 then 0
    else SumVolume(cs[..|cs| - 1], kind) + (if IsKind(cs[|cs| - 1], kind) then VolumeOf(cs[|cs| - 1]) else 0)
  }

  function SumOpenInterest(cs: seq<Contract>, kind: string): int
    decreases |cs|
  {
    if |cs| == 0 then 0
    else SumOpenInterest(cs[..|cs| - 1], kind) + (if IsKind(cs[|cs| - 1], kind) then OpenInterestOf(cs[|cs| - 1]) else 0)
  }

  /** Contracts of neither kind leave both sums unchanged. */
  lemma {:induction false} OtherTypesIgnored(cs: seq<Contract>, c: Contract, kind: string)
    requires !IsKind(c, kind)
    ensures SumVolume(cs + [c], kind) == SumVolume(cs, kind)
    ensures SumOpenInterest(cs + [c], kind) == SumOpenInterest(cs, kind)
  {
    assert (cs + [c])[..|cs + [c]| - 1] == cs;
  }

  datatype ChainTotals = ChainTotals(putVolume: int, callVolume: int,
                                     putOpenInterest: int, callOpenInterest: int,
                                     totalContracts: nat, contractsProcessed: nat)

  /** What `.lower()` raises on a contract type that is None. */
  const NoneTypeError: string := "'NoneType' object has no attribute 'lower'"

  /** The accumulation loop written as a fold: the totals after the last
      contract are the totals of the ones before it, updated by that
      contract in the way one pass of the loop does. */
  function Tally(contracts: seq<Contract>): (r: Result<ChainTotals, string>)
    ensures r.Failure? <==> exists i :: 0 <= i < |contracts| && contracts[i].contractType.NullType?
    ensures r.Failure? ==> r.error == NoneTypeError
    ensures r.Success? ==> r.value == ChainTotals(
      SumVolume(contracts, "put"), SumVolume(contracts, "call"),
      SumOpenInterest(contracts, "put"), SumOpenInterest(contracts, "call"),
      |contracts|, |contracts|)
    decreases |contracts|
  {
    if |contracts| == 0 then Success(ChainTotals(0, 0, 0, 0, 0, 0))
    else
      var init, c := contracts[..|contracts| - 1], contracts[|contracts| - 1];
      assert forall i :: 0 <= i < |init| ==> init[i] == contracts[i];
      match Tally(init)
      case Failure(e) => Failure(e)
      case Success(t) =>
        if c.contractType.NullType? then Failure(NoneTypeError)
        else
          var counted := t.(totalContracts := t.totalContracts + 1, contractsProcessed := t.contractsProcessed + 1);
          if IsKind(c, "put") then
            Success(counted.(putVolume := t.putVolume + VolumeOf(c), putOpenInterest := t.putOpenInterest + OpenInterestOf(c)))
          else if IsKind(c, "call") then
            Success(counted.(callVolume := t.callVolume + VolumeOf(c), callOpenInterest := t.callOpenInterest + OpenInterestOf(c)))
          else Success(counted)
  }

  /** The accumulation loop over the snapshot. */
  method Accumulate(contracts: seq<Contract>) returns (r: Result<ChainTotals, string>)
    ensures r.Failure? <==> exists i :: 0 <= i < |contracts| && contracts[i].contractType.NullType?
    ensures r.Failure? ==> r.error == NoneTypeError
    ensures r.Success? ==> r.value == ChainTotals(
      SumVolume(contracts, "put"), SumVolume(contracts, "call"),
      SumOpenInterest(contracts, "put"), SumOpenInterest(contracts, "call"),
      |contracts|, |contracts|)
    ensures r == Tally(contracts)
  {
    var putVolume, callVolume, putOi, callOi := 0, 0, 0, 0;
    var totalContracts, contractsProcessed := 0, 0;
    var i := 0;
    while i < |contracts|
      invariant 0 <= i <= |contracts|
      invariant contractsProcessed == i && totalContracts == i
      invariant forall j :: 0 <= j < i ==> !contracts[j].contractType.NullType?
      invariant putVolume == SumVolume(contracts[..i], "put")
      invariant callVolume == SumVolume(contracts[..i], "call")
      invariant putOi == SumOpenInterest(contracts[..i], "put")
      invariant callOi == SumOpenInterest(contracts[..i], "call")
    {
      var c := contracts[i];
      contractsProcessed := contractsProcessed + 1;
      if c.contractType.NullType? {
        return Failure(NoneTypeError);
      }
      assert contracts[..i + 1] == contracts[..i] + [c];
      assert contracts[..i + 1][..i] == contracts[..i];
      var volume := VolumeOf(c);
      var oi := OpenInterestOf(c);
      if c.contractType.TypeText? && Lower(c.contractType.text) == "put" {
        putVolume := putVolume + volume;
        putOi := putOi + oi;
      } else if c.contractType.TypeText? && Lower(c.contractType.text) == "call" {
        callVolume := callVolume + volume;
        callOi := callOi + oi;
      }
      totalContracts := totalContracts + 1;
      i := i + 1;
    }
    assert contracts[..i] == contracts;
    r := Success(ChainTotals(putVolume, callVolume, putOi, callOi, totalContracts, contractsProcessed));
  }

  /** `put / call` when `call > 0`, otherwise None. */
  function Ratio(put: int, call: int): (r: Option<real>)
    ensures r.None? <==> call <= 0
    ensures r.Some? ==> r.value * call as real == put as real
    ensures r.Some? && put >= 0 ==> r.value >= 0.0
  {
    if call > 0 then Some(put as real / call as real) else None
  }

  /** The result dictionary (the timestamp is left out). */
  datatype ChainReport = ChainReport(symbol: string, putVolume: int, callVolume: int,
                                     volumeRatio: Option<real>, putOpenInterest: int,
                                     callOpenInterest: int, openInterestRatio: Option<real>,
                                     totalContracts: nat, expirationFilter: Option<string>,
                                     contractsProcessed: nat)

  /** The snapshot request: the contracts for a symbol and an optional
      expiration filter, or the error the client raised. */
  type Fetch = (string, Option<string>) -> Result<seq<Contract>, string>

  /** The expiration filter is sent only when it is a non-empty string. */
  function RequestFilter(expiration: Option<string>): (f: Option<string>)
    ensures f.Some? <==> expiration.Some? && expiration.value != ""
    ensures f.Some? ==> f == expiration
  {
    if expiration.Some? && expiration.value != "" then expiration else None
  }

  function FetchError(symbol: string, e: string): string {
    "Failed to fetch options data for " + symbol + ". Error: " + e
      + "\nNote: Options data may require a paid plan or have a delay."
  }

  /** `get_put_call_ratio`. */
  function GetPutCallRatio(symbol: string, expiration: Option<string>, fetch: Fetch): (r: Result<ChainReport, string>)
    ensures fetch(symbol, RequestFilter(expiration)).Failure? ==>
              r == Failure(FetchError(symbol, fetch(symbol, RequestFilter(expiration)).error))
    ensures fetch(symbol, RequestFilter(expiration)).Success? ==>
              var cs := fetch(symbol, RequestFilter(expiration)).value;
              && (r.Failure? <==> exists i :: 0 <= i < |cs| && cs[i].contractType.NullType?)
              && (r.Failure? ==> r.error == NoneTypeError)
    ensures r.Success? ==>
      var cs := fetch(symbol, RequestFilter(expiration)).value;
      && fetch(symbol, RequestFilter(expiration)).Success?
      && r.value.symbol == symbol && r.value.expirationFilter == expiration
      && r.value.putVolume == SumVolume(cs, "put") && r.value.callVolume == SumVolume(cs, "call")
      && r.value.putOpenInterest == SumOpenInterest(cs, "put")
      && r.value.callOpenInterest == SumOpenInterest(cs, "call")
      && r.value.totalContracts == |cs| && r.value.contractsProcessed == |cs|
      && (r.value.volumeRatio.None? <==> r.value.callVolume <= 0)
      && (r.value.volumeRatio.Some? ==> r.value.volumeRatio.value * r.value.callVolume as real == r.value.putVolume as real)
      && (r.value.openInterestRatio.None? <==> r.value.callOpenInterest <= 0)
      && (r.value.openInterestRatio.Some? ==>
            r.value.openInterestRatio.value * r.value.callOpenInterest as real == r.value.putOpenInterest as real)
  {
    match fetch(symbol, RequestFilter(expiration))
    case Failure(e) => Failure(FetchError(symbol, e))
    case Success(contracts) =>
      match Tally(contracts)
      case Failure(e) => Failure(e)
      case Success(t) =>
        Success(ChainReport(symbol, t.putVolume, t.callVolume, Ratio(t.putVolume, t.callVolume),
                            t.putOpenInterest, t.callOpenInterest,
                            Ratio(t.putOpenInterest, t.callOpenInterest),
                            t.totalContracts, expiration, t.contractsProcessed))
  }

  // ---------------------------------------------------------------------
  // Reading a ratio
  // ---------------------------------------------------------------------

  datatype PcSentiment = VeryBearish | Bearish | Neutral | Bullish | VeryBullish | Unknown {

    function Name(): string {
      match this
      case VeryBearish => "Very Bearish"
      case Bearish => "Bearish"
      case Neutral => "Neutral"
      case Bullish => "Bullish"
      case VeryBullish => "Very Bullish"
      case Unknown => "Unknown"
    }

    /** Position on the bearish-to-bullish scale. */
    function Rank(): int {
      match this
      case VeryBearish => 0
      case Bearish => 1
      case Neutral => 2
      case Bullish => 3
      case VeryBullish => 4
      case Unknown => -1
    }
  }

  /** `_interpret_ratio`: strict buckets above 1.3, 1.0, 0.7 and 0.5. */
  function InterpretRatio(ratio: real): (s: PcSentiment)
    ensures s != Unknown
    ensures s == VeryBearish <==> ratio > 1.3
    ensures s == Bearish <==> 1.0 < ratio <= 1.3
    ensures s == Neutral <==> 0.7 < ratio <= 1.0
    ensures s == Bullish <==> 0.5 < ratio <= 0.7
    ensures s == VeryBullish <==> ratio <= 0.5
  {
    if ratio > 1.3 then VeryBearish
    else if ratio > 1.0 then Bearish
    else if ratio > 0.7 then Neutral
    else if ratio > 0.5 then Bullish
    else VeryBullish
  }

  /** A higher ratio never reads more bullish. */
  lemma InterpretRatioAntitone(r1: real, r2: real)
    requires r1 <= r2
    ensures InterpretRatio(r2).Rank() <= InterpretRatio(r1).Rank()
  {
  }

  /** The cut points fall in the more bullish bucket. */
  lemma InterpretRatioCutPoints()
    ensures InterpretRatio(1.3) == Bearish
    ensures InterpretRatio(1.0) == Neutral
    ensures InterpretRatio(0.7) == Bullish
    ensures InterpretRatio(0.5) == VeryBullish
  {
  }

  /** The sentiment column of `compare_symbols`, written out again there. */
  function CompareSentiment(volumeRatio: Option<real>): (s: PcSentiment)
    ensures s == Unknown <==> volumeRatio.None?
  {
    match volumeRatio
    case None => Unknown
    case Some(pc) =>
      if pc > 1.3 then VeryBearish
      else if pc > 1.0 then Bearish
      else if pc > 0.7 then Neutral
      else if pc > 0.5 then Bullish
      else VeryBullish
  }

  /** The table's sentiment agrees with `_interpret_ratio` on every ratio. */
  lemma CompareAgreesWithInterpret(ratio: real)
    ensures CompareSentiment(Some(ratio)) == InterpretRatio(ratio)
  {
  }

  // ---------------------------------------------------------------------
  // Batches of symbols
  // ---------------------------------------------------------------------

  /** A value of the result map: the report, or `{"error": str(e)}`. */
  datatype SymbolEntry = Report(report: ChainReport) | ErrorEntry(error: string)

  function EntryFor(symbol: string, expiration: Option<string>, fetch: Fetch): (e: SymbolEntry)
    ensures e.ErrorEntry? <==> GetPutCallRatio(symbol, expiration, fetch).Failure?
  {
    match GetPutCallRatio(symbol, expiration, fetch)
    case Failure(msg) => ErrorEntry(msg)
    case Success(report) => Report(report)
  }

  /** `get_multiple_symbols`: every symbol is requested in turn; a failing
      symbol gets an error entry and the loop carries on. */
  method GetMultipleSymbols(symbols: seq<string>, expiration: Option<string>, fetch: Fetch)
    returns (results: map<string, SymbolEntry>)
    ensures results.Keys == set s | s in symbols
    ensures forall s :: s in results ==>
              (results[s].ErrorEntry? <==> GetPutCallRatio(s, expiration, fetch).Failure?)
    ensures forall s :: s in results && results[s].ErrorEntry? ==>
              results[s].error == GetPutCallRatio(s, expiration, fetch).error
    ensures forall s :: s in results && results[s].Report? ==>
              results[s].report == GetPutCallRatio(s, expiration, fetch).value
  {
    results := map[];
    for i := 0 to |symbols|
      invariant results.Keys == set j | 0 <= j < i :: symbols[j]
      invariant forall s :: s in results ==> results[s] == EntryFor(s, expiration, fetch)
    {
      var symbol := symbols[i];
      var entry: SymbolEntry;
      var r := GetPutCallRatio(symbol, expiration, fetch);
      if r.Failure? {
        entry := ErrorEntry(r.error);
      } else {
        entry := Report(r.value);
      }
      results := results[symbol := entry];
    }
    assert forall s :: s in symbols ==> exists j :: 0 <= j < |symbols| && symbols[j] == s;
  }

  /** The position of the first occurrence of `s` in `xs`. */
  function FirstIndex(xs: seq<string>, s: string): (k: nat)
    requires s in xs
    ensures k < |xs| && xs[k] == s && s !in xs[..k]
    decreases |xs|
  {
    if xs[0] == s then 0
    else
      var k := FirstIndex(xs[1..], s);
      assert xs[1..][..k] == xs[1..k + 1];
      assert xs[..k + 1] == [xs[0]] + xs[1..k + 1];
      k + 1
  }

  /** Appending an element leaves the first occurrences of earlier ones
      where they were, and puts a new one at the end. */
  lemma FirstIndexSnoc(xs: seq<string>, x: string, s: string)
    requires s in xs + [x]
    ensures s in xs ==> FirstIndex(xs + [x], s) == FirstIndex(xs, s)
    ensures s !in xs ==> FirstIndex(xs + [x], s) == |xs|
  {
    var ys := xs + [x];
    assert ys[..|xs|] == xs;
    if s in xs {
      var j := FirstIndex(xs, s);
      assert ys[j] == s && ys[..j] == xs[..j];
    }
  }

  /** Keys in first-insertion order, as a dictionary iterates them. */
  function Distinct(xs: seq<string>): (d: seq<string>)
    ensures forall s :: s in d <==> s in xs
    ensures forall i, j :: 0 <= i < j < |d| ==> d[i] != d[j]
    ensures forall i, j :: 0 <= i < j < |d| ==> FirstIndex(xs, d[i]) < FirstIndex(xs, d[j])
    decreases |xs|
  {
    if |xs| == 0 then []
    else
      var init, x := xs[..|xs| - 1], xs[|xs| - 1];
      var d0 := Distinct(init);
      assert xs == init + [x];
      assert forall s :: s in xs <==> s in init || s == x;
      forall s | s in init
        ensures FirstIndex(xs, s) == FirstIndex(init, s)
      {
        FirstIndexSnoc(init, x, s);
      }
      if x in d0 then d0
      else
        FirstIndexSnoc(init, x, x);
        d0 + [x]
  }

  /** One line of the comparison table. */
  datatype ComparisonRow =
    | ErrorRow(symbol: string, message: string)
    | RatioRow(symbol: string, volumeRatio: Option<real>, openInterestRatio: Option<real>, sentiment: PcSentiment)

  /** The table of `compare_symbols` for results iterated in `order`: error
      entries show the first 20 characters of the error text. */
  function ComparisonRows(order: seq<string>, results: map<string, SymbolEntry>): (rows: seq<ComparisonRow>)
    requires forall s :: s in order ==> s in results
    ensures |rows| == |order|
    ensures forall i :: 0 <= i < |order| ==> rows[i].symbol == order[i]
    ensures forall i :: 0 <= i < |order| ==> (rows[i].ErrorRow? <==> results[order[i]].ErrorEntry?)
    ensures forall i :: 0 <= i < |order| && rows[i].ErrorRow? ==>
              StartsWith(results[order[i]].error, rows[i].message)
              && |rows[i].message| == if |results[order[i]].error| < 20 then |results[order[i]].error| else 20
    ensures forall i :: 0 <= i < |order| && rows[i].RatioRow? ==>
              var ratio := results[order[i]].report.volumeRatio;
              && rows[i].volumeRatio == ratio
              && rows[i].openInterestRatio == results[order[i]].report.openInterestRatio
              && rows[i].sentiment == (if ratio.None? then Unknown else InterpretRatio(ratio.value))
  {
    seq(|order|, i requires 0 <= i < |order| =>
      var entry := results[order[i]];
      match entry
      case ErrorEntry(e) => ErrorRow(order[i], if |e| < 20 then e else e[..20])
      case Report(rep) =>
        RatioRow(order[i], rep.volumeRatio, rep.openInterestRatio, CompareSentiment(rep.volumeRatio)))
  }

  /**
   * The rows built from a map that agrees with `GetPutCallRatio` on every
   * key carry, symbol by symbol, what `GetPutCallRatio` reports.
   */
  lemma RowsMatchReports(order: seq<string>, expiration: Option<string>, fetch: Fetch,
                         results: map<string, SymbolEntry>, rows: seq<ComparisonRow>)
    requires forall s :: s in order ==> s in results
    requires forall s :: s in results ==>
               (results[s].ErrorEntry? <==> GetPutCallRatio(s, expiration, fetch).Failure?)
    requires forall s :: s in results && results[s].ErrorEntry? ==>
               results[s].error == GetPutCallRatio(s, expiration, fetch).error
    requires forall s :: s in results && results[s].Report? ==>
               results[s].report == GetPutCallRatio(s, expiration, fetch).value
    requires rows == ComparisonRows(order, results)
    ensures forall i :: 0 <= i < |rows| ==>
              rows[i].symbol == order[i]
              && (rows[i].ErrorRow? <==> GetPutCallRatio(rows[i].symbol, expiration, fetch).Failure?)
    ensures forall i :: 0 <= i < |rows| && rows[i].ErrorRow? ==>
              var e := GetPutCallRatio(rows[i].symbol, expiration, fetch).error;
              StartsWith(e, rows[i].message) && |rows[i].message| == if |e| < 20 then |e| else 20
    ensures forall i :: 0 <= i < |rows| && rows[i].RatioRow? ==>
              var rep := GetPutCallRatio(rows[i].symbol, expiration, fetch).value;
              && rows[i].volumeRatio == rep.volumeRatio
              && rows[i].openInterestRatio == rep.openInterestRatio
              && rows[i].sentiment == (if rep.volumeRatio.None? then Unknown else InterpretRatio(rep.volumeRatio.value))
  {
  }

  /** `compare_symbols` as a table: one row per distinct symbol. */
  method CompareSymbols(symbols: seq<string>, expiration: Option<string>, fetch: Fetch)
    returns (rows: seq<ComparisonRow>)
    ensures |rows| == |Distinct(symbols)|
    ensures forall s :: s in symbols <==> exists i :: 0 <= i < |rows| && rows[i].symbol == s
    ensures forall i, j :: 0 <= i < j < |rows| ==>
              rows[i].symbol in symbols && rows[j].symbol in symbols
              && FirstIndex(symbols, rows[i].symbol) < FirstIndex(symbols, rows[j].symbol)
    ensures forall i :: 0 <= i < |rows| ==>
              rows[i].symbol == Distinct(symbols)[i]
              && (rows[i].ErrorRow? <==> GetPutCallRatio(rows[i].symbol, expiration, fetch).Failure?)
    ensures forall i :: 0 <= i < |rows| && rows[i].ErrorRow? ==>
              var e := GetPutCallRatio(rows[i].symbol, expiration, fetch).error;
              StartsWith(e, rows[i].message) && |rows[i].message| == if |e| < 20 then |e| else 20
    ensures forall i :: 0 <= i < |rows| && rows[i].RatioRow? ==>
              var rep := GetPutCallRatio(rows[i].symbol, expiration, fetch).value;
              && rows[i].volumeRatio == rep.volumeRatio
              && rows[i].openInterestRatio == rep.openInterestRatio
              && rows[i].sentiment == (if rep.volumeRatio.None? then Unknown else InterpretRatio(rep.volumeRatio.value))
  {
    var results := GetMultipleSymbols(symbols, expiration, fetch);
    var order := Distinct(symbols);
    assert forall s :: s in order ==> s in symbols;
    rows := ComparisonRows(order, results);
    RowsMatchReports(order, expiration, fetch, results, rows);
  }
}
