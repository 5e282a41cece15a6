/** The record logic of the Yahoo Finance scraper (teste-1.py): classifying
    a page fetch, building a record from the results of the page lookups,
    collecting over many symbols, and naming the output file. The HTTP
    exchange, the HTML lookups and the clock are inputs. */
module YahooFinance {
  import opened Records
  import opened Clock
  import opened Text

  /** What one page request gave back: a transport failure (the
      `RequestException` path), or a status code with the page text. */
  datatype Reply = RequestFailed | Response(status: int, text: string)

  /** The text of the element each of the seven `soup.find` lookups on the
      page matched, or `None` where it matched nothing. */
  datatype Lookups = Lookups(
    heading: Option<string>,
    price: Option<string>,
    change: Option<string>,
    changePercent: Option<string>,
    volume: Option<string>,
    marketCap: Option<string>,
    peRatio: Option<string>)

  const SourceName: string := "Yahoo Finance (Web Scraping)"

  /** `_fetch_page`: the page text for status 200, `None` for any other
      status or a failed request. */
  function FetchPage(reply: Reply): (html: Option<string>)
    ensures html.Some? <==> reply.Response? && reply.status == 200
    ensures html.Some? ==> html.value == reply.text
  {
    match reply
    case RequestFailed => None
    case Response(status, text) => if status == 200 then Some(text) else None
  }

  /** The company name: the heading's text up to its first "(", stripped of
      surrounding whitespace, or the symbol when there is no heading. */
  function ExtractName(heading: Option<string>, symbol: string): (name: string)
    ensures heading.None? ==> name == symbol
    ensures heading.Some? ==> name == Strip(BeforeFirst(heading.value, '('))
    ensures heading.Some? ==> '(' !in name && Trimmed(name)
    ensures heading.Some? && '(' !in heading.value && Trimmed(heading.value) ==> name == heading.value
  {
    match heading
    case None => symbol
    case Some(text) =>
      var name := Strip(BeforeFirst(text, '('));
      assert '(' !in name by {
        if '(' in name {
          StripKeepsOnlyInput(BeforeFirst(text, '('), '(');
        }
      }
      assert '(' !in text && Trimmed(text) ==> name == text by {
        if '(' !in text && Trimmed(text) {
          assert BeforeFirst(text, '(') == text;
          StripTrimmed(text);
        }
      }
      name
  }

  /** A heading of the form company name, whitespace, "(" and anything
      after it gives the company name. */
  lemma ExtractNameOfHeading(company: string, gap: string, rest: string, symbol: string)
    requires company != [] && !IsSpace(company[0]) && !IsSpace(company[|company| - 1])
    requires '(' !in company && SpaceIn(gap, 0, |gap|)
    ensures ExtractName(Some(company + gap + "(" + rest), symbol) == company
  {
    var p := company + gap;
    assert '(' !in gap by {
      assert !IsSpace('(');
    }
    assert company + gap + "(" + rest == p + ['('] + rest;
    BeforeFirstAt(p, '(', rest);
    assert p[0..|company|] == company;
    StripAt(p, 0, |company|);
  }

  /** The heading on a quote page names the company before the ticker. */
  lemma ExtractNameExample()
    ensures ExtractName(Some("Apple Inc. (AAPL)"), "AAPL") == "Apple Inc."
  {
    assert "Apple Inc. (AAPL)" == "Apple Inc." + " " + "(" + "AAPL)";
    ExtractNameOfHeading("Apple Inc.", " ", "AAPL)", "AAPL");
  }

  /** The text of a lookup, or "N/A" when it found nothing. */
  function TextOr(lookup: Option<string>): (v: string)
    ensures lookup.Some? ==> v == lookup.value
    ensures lookup.None? ==> v == NA
  {
    match lookup
    case None => NA
    case Some(text) => text
  }

  /** `_parse_data`: a record with all ten columns, each lookup falling back
      to "N/A" on its own. */
  function ParseData(symbol: string, page: Lookups, now: DateTime): (r: Record)
    requires now.Valid()
    ensures HasColumns(r)
    ensures r[Symbol] == symbol && r[Name] == ExtractName(page.heading, symbol)
    ensures r[Price] == TextOr(page.price) && r[Change] == TextOr(page.change)
    ensures r[ChangePercent] == TextOr(page.changePercent) && r[Volume] == TextOr(page.volume)
    ensures r[MarketCap] == TextOr(page.marketCap) && r[PeRatio] == TextOr(page.peRatio)
    ensures r[CollectionDate] == LongStamp(now) && r[Source] == SourceName
  {
    MakeRecord(
      symbol,
      ExtractName(page.heading, symbol),
      TextOr(page.price),
      TextOr(page.change),
      TextOr(page.changePercent),
      TextOr(page.volume),
      TextOr(page.marketCap),
      TextOr(page.peRatio),
      LongStamp(now),
      SourceName)
  }

  /** Each field of the record depends on its own lookup only: two pages
      whose price lookups agree give the same price, whatever else differs,
      and a lookup that finds nothing costs exactly its own field. */
  lemma ParseDataFieldsIndependent(symbol: string, p1: Lookups, p2: Lookups, now: DateTime)
    requires now.Valid()
    ensures p1.price == p2.price ==> ParseData(symbol, p1, now)[Price] == ParseData(symbol, p2, now)[Price]
    ensures p1.change == p2.change ==> ParseData(symbol, p1, now)[Change] == ParseData(symbol, p2, now)[Change]
    ensures p1.changePercent == p2.changePercent ==> ParseData(symbol, p1, now)[ChangePercent] == ParseData(symbol, p2, now)[ChangePercent]
    ensures p1.volume == p2.volume ==> ParseData(symbol, p1, now)[Volume] == ParseData(symbol, p2, now)[Volume]
    ensures p1.marketCap == p2.marketCap ==> ParseData(symbol, p1, now)[MarketCap] == ParseData(symbol, p2, now)[MarketCap]
    ensures p1.peRatio == p2.peRatio ==> ParseData(symbol, p1, now)[PeRatio] == ParseData(symbol, p2, now)[PeRatio]
    ensures p1.heading == p2.heading ==> ParseData(symbol, p1, now)[Name] == ParseData(symbol, p2, now)[Name]
  {
  }

  /** Per symbol, the page request's outcome, what the lookups find on the
      page, and the clock reading taken while parsing it. */
  datatype Visit = Visit(reply: Reply, page: Lookups, time: DateTime)

  /** `scrape_stock`: no page, or an empty one, gives no record; otherwise
      the parsed record. */
  function ScrapeStock(symbol: string, v: Visit): (r: Option<Record>)
    requires v.time.Valid()
    ensures r.Some? <==> v.reply.Response? && v.reply.status == 200 && v.reply.text != ""
    ensures r.Some? ==> r.value == ParseData(symbol, v.page, v.time)
  {
    var html := FetchPage(v.reply);
    if html.None? || html.value == "" then None
    else Some(ParseData(symbol, v.page, v.time))
  }

  /** The per-symbol outcomes of a run, in input order. */
  function Outcomes(symbols: seq<string>, visits: seq<Visit>): (r: seq<Option<Record>>)
    requires |visits| == |symbols|
    requires forall i :: 0 <= i < |visits| ==> visits[i].time.Valid()
    ensures |r| == |symbols|
  {
    if symbols == [] then []
    else [ScrapeStock(symbols[0], visits[0])] + Outcomes(symbols[1..], visits[1..])
  }

  /** The outcome at position `i` is that of the `i`-th symbol alone. */
  lemma {:induction false} OutcomesAt(symbols: seq<string>, visits: seq<Visit>, i: nat)
    requires |visits| == |symbols| && i < |symbols|
    requires forall j :: 0 <= j < |visits| ==> visits[j].time.Valid()
    ensures Outcomes(symbols, visits)[i] == ScrapeStock(symbols[i], visits[i])
  {
    if i > 0 {
      OutcomesAt(symbols[1..], visits[1..], i - 1);
    }
  }

  /** `scrape_multiple_stocks`: the records of the symbols that succeeded,
      in input order; a failed symbol is skipped and the loop goes on. */
  method ScrapeMultipleStocks(symbols: seq<string>, visits: seq<Visit>) returns (allData: seq<Record>)
    requires |visits| == |symbols|
    requires forall i :: 0 <= i < |visits| ==> visits[i].time.Valid()
    ensures allData == Successes(Outcomes(symbols, visits))
    ensures |allData| <= |symbols|
  {
    ghost var outcomes := Outcomes(symbols, visits);
    allData := [];
    var i := 0;
    while i < |symbols|
      invariant 0 <= i <= |symbols|
      invariant allData == Successes(outcomes[..i])
    {
      var data := ScrapeStock(symbols[i], visits[i]);
      OutcomesAt(symbols, visits, i);
      SuccessesStep(outcomes, i);
      if data.Some? {
        allData := allData + [data.value];
      }
      i := i + 1;
    }
    assert outcomes[..i] == outcomes;
  }

  /** Every collected record has all ten columns and belongs to one of the
      requested symbols. */
  lemma CollectedRecordsComplete(symbols: seq<string>, visits: seq<Visit>)
    requires |visits| == |symbols|
    requires forall i :: 0 <= i < |visits| ==> visits[i].time.Valid()
    ensures forall r :: r in Successes(Outcomes(symbols, visits)) ==> HasColumns(r) && r[Symbol] in symbols
  {
    var outcomes := Outcomes(symbols, visits);
    forall r | r in Successes(outcomes)
      ensures HasColumns(r) && r[Symbol] in symbols
    {
      SuccessesMembership(outcomes, r);
      var k :| 0 <= k < |symbols| && outcomes[k] == Some(r);
      OutcomesAt(symbols, visits, k);
    }
  }

  /** Two symbols where the first page loads (status 200, non-empty) and the
      second symbol fails (a failed request, another status, or an empty page):
      the run collects exactly one record, the first symbol's. */
  lemma SecondSymbolFails(a: string, b: string, va: Visit, vb: Visit)
    requires va.time.Valid() && vb.time.Valid()
    requires va.reply.Response? && va.reply.status == 200 && va.reply.text != ""
    requires ScrapeStock(b, vb).None?
    ensures var collected := Successes(Outcomes([a, b], [va, vb]));
      |collected| == 1 && collected[0] == ParseData(a, va.page, va.time) && collected[0][Symbol] == a
  {
    var outcomes := Outcomes([a, b], [va, vb]);
    OutcomesAt([a, b], [va, vb], 0);
    OutcomesAt([a, b], [va, vb], 1);
    SuccessesFirstOfTwo(outcomes);
  }

  /** The file name `save_to_csv` generates when none is given. */
  function DefaultFileName(now: DateTime): (name: string)
    requires now.Valid()
    ensures |name| == 31 && name[0] != '/'
  {
    "stocks_data_" + CompactStamp(now) + ".csv"
  }

  /** The path `save_to_csv` returns: the output directory joined with the
      given file name, or with a name stamped with the clock when none is
      given. Writing the rows is not modelled. */
  function SaveToCsv(outputDir: string, filename: Option<string>, now: DateTime): (path: string)
    requires now.Valid()
    ensures filename.Some? ==> path == JoinPath(outputDir, filename.value)
    ensures filename.None? ==> path == JoinPath(outputDir, DefaultFileName(now))
    ensures filename.None? ==>
      && |outputDir| <= |path| && path[..|outputDir|] == outputDir
      && |path| >= 31 && path[|path| - 31..] == "stocks_data_" + CompactStamp(now) + ".csv"
  {
    var name := if filename.None? then DefaultFileName(now) else filename.value;
    JoinPath(outputDir, name)
  }

  /** Two runs at different clock readings never pick the same default path. */
  lemma DefaultPathsDiffer(outputDir: string, t1: DateTime, t2: DateTime)
    requires t1.Valid() && t2.Valid() && t1 != t2
    ensures SaveToCsv(outputDir, None, t1) != SaveToCsv(outputDir, None, t2)
  {
    var n1, n2 := DefaultFileName(t1), DefaultFileName(t2);
    if JoinPath(outputDir, n1) == JoinPath(outputDir, n2) {
      JoinPathInjective(outputDir, n1, n2);
      assert n1[12..27] == CompactStamp(t1);
      assert n2[12..27] == CompactStamp(t2);
      CompactInjective(t1, t2);
      assert false;
    }
  }
}
