/** The record logic of the Alpha Vantage collector (teste-2.py): classifying
    an API reply, building a record from a GLOBAL_QUOTE or an OVERVIEW
    payload, merging the two, collecting over many symbols, and naming the
    output file. Every HTTP exchange and every clock reading is an input. */
module AlphaVantage {
  import opened Records
  import opened Clock
  import opened Text

  /** A member of the decoded JSON object: a string, or an object of strings
      (as "Global Quote" is). */
  datatype Json = Str(s: string) | Obj(fields: map<string, string>)

  /** A decoded JSON reply body. */
  type Payload = map<string, Json>

  /** What one request to the API gave back: a transport failure (the
      `RequestException` path), or a status code with its decoded body. */
  datatype Reply = RequestFailed | Response(status: int, body: Payload)

  const SourceName: string := "Alpha Vantage API"

  /** `_make_request`: the body of a 200 reply that carries neither an
      "Error Message" nor an "Information" member; `None` otherwise. */
  function MakeRequest(reply: Reply): (r: Option<Payload>)
    ensures r.Some? <==>
      && reply.Response? && reply.status == 200
      && "Error Message" !in reply.body && "Information" !in reply.body
    ensures r.Some? ==> r.value == reply.body
  {
    match reply
    case RequestFailed => None
    case Response(status, body) =>
      if status == 200 then
        if "Error Message" in body then None
        else if "Information" in body then None
        else Some(body)
      else None
  }

  /** `d.get(key, default)` on a string map. */
  function Get(d: map<string, string>, key: string, default: string): (v: string)
    ensures key in d ==> v == d[key]
    ensures key !in d ==> v == default
  {
    if key in d then d[key] else default
  }

  /** `data.get(key, default)` on the payload, for a member that is a string. */
  function GetText(data: Payload, key: string, default: string): (v: string)
    ensures key in data && data[key].Str? ==> v == data[key].s
    ensures key !in data ==> v == default
  {
    if key in data && data[key].Str? then data[key].s else default
  }

  /** `_parse_quote_data`: a record from a GLOBAL_QUOTE payload. A payload
      without "Global Quote" gives `None`; so does one whose "Global Quote"
      is not an object, where the source's `.get` call raises and the
      handler returns `None`. */
  function ParseQuoteData(data: Payload, symbol: string, now: DateTime): (r: Option<Record>)
    requires now.Valid()
    ensures r.None? <==> "Global Quote" !in data || data["Global Quote"].Str?
    ensures r.Some? ==> HasColumns(r.value)
    ensures r.Some? ==>
      var quote := data["Global Quote"].fields;
      && r.value[Symbol] == symbol && r.value[Name] == symbol
      && r.value[Price] == (if "05. price" in quote then quote["05. price"] else NA)
      && r.value[Change] == (if "09. change" in quote then quote["09. change"] else NA)
      && r.value[ChangePercent] == (if "10. change percent" in quote then quote["10. change percent"] else NA)
      && r.value[Volume] == (if "06. volume" in quote then quote["06. volume"] else NA)
      && r.value[MarketCap] == NA && r.value[PeRatio] == NA
      && r.value[CollectionDate] == LongStamp(now)
      && r.value[Source] == SourceName
  {
    if "Global Quote" !in data then None
    else
      match data["Global Quote"]
      case Str(_) => None
      case Obj(quote) =>
        Some(MakeRecord(
          symbol,
          symbol,
          Get(quote, "05. price", NA),
          Get(quote, "09. change", NA),
          Get(quote, "10. change percent", NA),
          Get(quote, "06. volume", NA),
          NA,
          NA,
          LongStamp(now),
          SourceName))
  }

  /** `_parse_overview_data`: a record from an OVERVIEW payload; `None` when
      the payload has no "Symbol" member. */
  function ParseOverviewData(data: Payload, symbol: string, now: DateTime): (r: Option<Record>)
    requires now.Valid()
    ensures r.None? <==> "Symbol" !in data
    ensures r.Some? ==> HasColumns(r.value)
    ensures r.Some? ==>
      && r.value[Symbol] == symbol
      && r.value[Name] == GetText(data, "Name", symbol)
      && r.value[Price] == NA && r.value[Change] == NA
      && r.value[ChangePercent] == NA && r.value[Volume] == NA
      && r.value[MarketCap] == GetText(data, "MarketCapitalization", NA)
      && r.value[PeRatio] == GetText(data, "PERatio", NA)
      && r.value[CollectionDate] == LongStamp(now)
      && r.value[Source] == SourceName
  {
    if "Symbol" !in data then None
    else
      Some(MakeRecord(
        symbol,
        GetText(data, "Name", symbol),
        NA,
        NA,
        NA,
        NA,
        GetText(data, "MarketCapitalization", NA),
        GetText(data, "PERatio", NA),
        LongStamp(now),
        SourceName))
  }

  /** `get_stock_quote`: request, then parse; an empty payload is falsy and
      counts as a failed request. */
  function GetStockQuote(symbol: string, reply: Reply, now: DateTime): (r: Option<Record>)
    requires now.Valid()
    ensures r.Some? <==>
      && reply.Response? && reply.status == 200
      && "Error Message" !in reply.body && "Information" !in reply.body
      && "Global Quote" in reply.body && reply.body["Global Quote"].Obj?
    ensures r.Some? ==> r == ParseQuoteData(reply.body, symbol, now)
  {
    var data := MakeRequest(reply);
    if data.None? || data.value == map[] then None
    else ParseQuoteData(data.value, symbol, now)
  }

  /** `get_company_overview`: request, then parse. */
  function GetCompanyOverview(symbol: string, reply: Reply, now: DateTime): (r: Option<Record>)
    requires now.Valid()
    ensures r.Some? <==>
      && reply.Response? && reply.status == 200
      && "Error Message" !in reply.body && "Information" !in reply.body
      && "Symbol" in reply.body
    ensures r.Some? ==> r == ParseOverviewData(reply.body, symbol, now)
  {
    var data := MakeRequest(reply);
    if data.None? || data.value == map[] then None
    else ParseOverviewData(data.value, symbol, now)
  }

  /** The field the merge gives key `k`: the overview's value where the
      quote has "N/A" and the overview has something else, the quote's
      value otherwise. */
  function MergedField(quote: Record, overview: Record, k: Column): string
    requires k in quote
  {
    if quote[k] == NA && k in overview && overview[k] != NA then overview[k] else quote[k]
  }

  /** The quote record with each "N/A" field filled from the overview. */
  function Merged(quote: Record, overview: Record): Record {
    map k | k in quote :: MergedField(quote, overview, k)
  }

  /** The merge loop of `get_complete_stock_data`, visiting the overview's
      keys one at a time and overwriting the quote field in place. Since each
      key is visited once and only its own field changes, the order of the
      visits does not matter. */
  method MergeOverview(quote: Record, overview: Record) returns (merged: Record)
    ensures merged == Merged(quote, overview)
  {
    merged := quote;
    var pending := overview.Keys;
    while pending != {}
      invariant pending <= overview.Keys
      invariant merged.Keys == quote.Keys
      invariant forall k :: k in quote && k !in pending ==> merged[k] == MergedField(quote, overview, k)
      invariant forall k :: k in pending ==> k in quote ==> merged[k] == quote[k]
      decreases pending
    {
      var key :| key in pending;
      var value := overview[key];
      if key in merged && merged[key] == NA && value != NA {
        merged := merged[key := value];
      }
      pending := pending - {key};
    }
    assert forall k :: k in quote ==> merged[k] == Merged(quote, overview)[k];
  }

  /** The merge keeps the key set, never touches a field that is not "N/A",
      and replaces a field only by an overview value that is not "N/A". */
  lemma MergeOnlyFillsSentinels(quote: Record, overview: Record)
    ensures Merged(quote, overview).Keys == quote.Keys
    ensures forall k :: k in quote && quote[k] != NA ==> Merged(quote, overview)[k] == quote[k]
    ensures forall k :: k in quote && Merged(quote, overview)[k] != quote[k] ==>
      quote[k] == NA && k in overview && overview[k] != NA && Merged(quote, overview)[k] == overview[k]
  {
  }

  /** Merging never adds an "N/A" field, and merging the same overview a
      second time changes nothing. */
  lemma MergeMonotone(quote: Record, overview: Record)
    ensures forall k :: k in quote && Merged(quote, overview)[k] == NA ==> quote[k] == NA
    ensures Merged(Merged(quote, overview), overview) == Merged(quote, overview)
  {
  }

  /** Per symbol, the two exchanges with the API and the clock reading
      taken while parsing each reply. */
  datatype Exchange = Exchange(quoteReply: Reply, quoteTime: DateTime,
                               overviewReply: Reply, overviewTime: DateTime)
  {
    predicate Valid() { quoteTime.Valid() && overviewTime.Valid() }
  }

  /** What `get_complete_stock_data` returns for a symbol. */
  function CompleteStockData(symbol: string, e: Exchange): Option<Record>
    requires e.Valid()
  {
    match GetStockQuote(symbol, e.quoteReply, e.quoteTime)
    case None => None
    case Some(quote) =>
      match GetCompanyOverview(symbol, e.overviewReply, e.overviewTime)
      case None => Some(quote)
      case Some(overview) => Some(Merged(quote, overview))
  }

  /** `get_complete_stock_data`: quote first; no quote, no record; an
      overview that fails leaves the quote record as it is. */
  method GetCompleteStockData(symbol: string, e: Exchange) returns (r: Option<Record>)
    requires e.Valid()
    ensures r == CompleteStockData(symbol, e)
  {
    var quote := GetStockQuote(symbol, e.quoteReply, e.quoteTime);
    if quote.None? {
      return None;
    }
    var overview := GetCompanyOverview(symbol, e.overviewReply, e.overviewTime);
    if overview.Some? {
      var merged := MergeOverview(quote.value, overview.value);
      return Some(merged);
    }
    return quote;
  }

  /** The outcome of a symbol is decided by its quote step alone; an
      overview failure returns the quote record unmodified. */
  lemma CompleteStockDataOutcome(symbol: string, e: Exchange)
    requires e.Valid()
    ensures CompleteStockData(symbol, e).None? <==> GetStockQuote(symbol, e.quoteReply, e.quoteTime).None?
    ensures GetCompanyOverview(symbol, e.overviewReply, e.overviewTime).None? ==>
      CompleteStockData(symbol, e) == GetStockQuote(symbol, e.quoteReply, e.quoteTime)
  {
  }

  /** A complete record has all ten columns; its symbol, collection date
      and source are the quote's; its market figures are the quote's and its
      company figures the overview's. Its name is the symbol unless the
      symbol is itself "N/A", the one case where the quote's name can be
      overwritten. */
  lemma CompleteStockDataFields(symbol: string, e: Exchange)
    requires e.Valid()
    requires CompleteStockData(symbol, e).Some?
    ensures var r := CompleteStockData(symbol, e).value;
      var quote := GetStockQuote(symbol, e.quoteReply, e.quoteTime).value;
      && HasColumns(r)
      && r[Symbol] == symbol
      && (symbol != NA ==> r[Name] == symbol)
      && r[CollectionDate] == LongStamp(e.quoteTime)
      && r[Source] == SourceName
      && r[Price] == quote[Price] && r[Change] == quote[Change]
      && r[ChangePercent] == quote[ChangePercent] && r[Volume] == quote[Volume]
    ensures var r := CompleteStockData(symbol, e).value;
      var overview := GetCompanyOverview(symbol, e.overviewReply, e.overviewTime);
      overview.Some? ==>
        r[MarketCap] == overview.value[MarketCap] && r[PeRatio] == overview.value[PeRatio]
  {
    var quote := GetStockQuote(symbol, e.quoteReply, e.quoteTime).value;
    assert quote[CollectionDate] != NA;
    var overview := GetCompanyOverview(symbol, e.overviewReply, e.overviewTime);
    if overview.Some? {
      MergeOnlyFillsSentinels(quote, overview.value);
    }
  }

  /** The per-symbol outcomes of a run, in input order. */
  function Outcomes(symbols: seq<string>, exchanges: seq<Exchange>): (r: seq<Option<Record>>)
    requires |exchanges| == |symbols|
    requires forall i :: 0 <= i < |exchanges| ==> exchanges[i].Valid()
    ensures |r| == |symbols|
  {
    if symbols == [] then []
    else [CompleteStockData(symbols[0], exchanges[0])] + Outcomes(symbols[1..], exchanges[1..])
  }

  /** The outcome at position `i` is that of the `i`-th symbol alone. */
  lemma {:induction false} OutcomesAt(symbols: seq<string>, exchanges: seq<Exchange>, i: nat)
    requires |exchanges| == |symbols| && i < |symbols|
    requires forall j :: 0 <= j < |exchanges| ==> exchanges[j].Valid()
    ensures Outcomes(symbols, exchanges)[i] == CompleteStockData(symbols[i], exchanges[i])
  {
    if i > 0 {
      OutcomesAt(symbols[1..], exchanges[1..], i - 1);
    }
  }

  /** Every collected record has all ten columns and belongs to one of the
      requested symbols. */
  lemma CollectedRecordsComplete(symbols: seq<string>, exchanges: seq<Exchange>)
    requires |exchanges| == |symbols|
    requires forall i :: 0 <= i < |exchanges| ==> exchanges[i].Valid()
    ensures forall r :: r in Successes(Outcomes(symbols, exchanges)) ==> HasColumns(r) && r[Symbol] in symbols
  {
    var outcomes := Outcomes(symbols, exchanges);
    forall r | r in Successes(outcomes)
      ensures HasColumns(r) && r[Symbol] in symbols
    {
      SuccessesMembership(outcomes, r);
      var k :| 0 <= k < |symbols| && outcomes[k] == Some(r);
      OutcomesAt(symbols, exchanges, k);
      CompleteStockDataFields(symbols[k], exchanges[k]);
    }
  }

  /** `get_multiple_stocks_data`: the records of the symbols that succeeded,
      in input order; a failed symbol is skipped and the loop goes on. */
  method GetMultipleStocksData(symbols: seq<string>, exchanges: seq<Exchange>) returns (allData: seq<Record>)
    requires |exchanges| == |symbols|
    requires forall i :: 0 <= i < |exchanges| ==> exchanges[i].Valid()
    ensures allData == Successes(Outcomes(symbols, exchanges))
    ensures |allData| <= |symbols|
  {
    ghost var outcomes := Outcomes(symbols, exchanges);
    allData := [];
    var i := 0;
    while i < |symbols|
      invariant 0 <= i <= |symbols|
      invariant allData == Successes(outcomes[..i])
    {
      var data := GetCompleteStockData(symbols[i], exchanges[i]);
      OutcomesAt(symbols, exchanges, i);
      SuccessesStep(outcomes, i);
      if data.Some? {
        allData := allData + [data.value];
      }
      i := i + 1;
    }
    assert outcomes[..i] == outcomes;
  }

  /** The file name `save_to_csv` generates when none is given. */
  function DefaultFileName(now: DateTime): (name: string)
    requires now.Valid()
    ensures |name| == 35 && name[0] != '/'
  {
    "stocks_api_data_" + CompactStamp(now) + ".csv"
  }

  /** The path `save_to_csv` returns: the output directory joined with the
      given file name, or with a name stamped with the clock when none is
      given. Writing the rows is not modelled. */
  function SaveToCsv(outputDir: string, filename: Option<string>, now: DateTime): (path: string)
    requires now.Valid()
    ensures filename.Some? ==> path == JoinPath(outputDir, filename.value)
    ensures filename.None? ==> path == JoinPath(outputDir, DefaultFileName(now))
    ensures filename.None? ==>
      && |outputDir| <= |path| && path[..|outputDir|] == outputDir
      && |path| >= 35 && path[|path| - 35..] == "stocks_api_data_" + CompactStamp(now) + ".csv"
  {
    var name := if filename.None? then DefaultFileName(now) else filename.value;
    JoinPath(outputDir, name)
  }

  /** Two runs at different clock readings never pick the same default path. */
  lemma DefaultPathsDiffer(outputDir: string, t1: DateTime, t2: DateTime)
    requires t1.Valid() && t2.Valid() && t1 != t2
    ensures SaveToCsv(outputDir, None, t1) != SaveToCsv(outputDir, None, t2)
  {
    var n1, n2 := DefaultFileName(t1), DefaultFileName(t2);
    if JoinPath(outputDir, n1) == JoinPath(outputDir, n2) {
      JoinPathInjective(outputDir, n1, n2);
      assert n1[16..31] == CompactStamp(t1);
      assert n2[16..31] == CompactStamp(t2);
      CompactInjective(t1, t2);
      assert false;
    }
  }
}
