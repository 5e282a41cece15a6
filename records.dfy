/** The flat stock record both collectors build, and the filter their
    collector loops apply to the per-symbol outcomes. */
module Records {

  /** `None` stands for Python's `None` result of a failed step. */
  datatype Option<+T> = None | Some(value: T)

  /** The placeholder both collectors store for a field they could not resolve. */
  const NA: string := "N/A"

  /** The ten record keys, one constructor each. */
  datatype Column =
    | Symbol | Name | Price | Change | ChangePercent
    | Volume | MarketCap | PeRatio | CollectionDate | Source

  /** The keys in the column order of the CSV output. */
  const Columns: seq<Column> :=
    [Symbol, Name, Price, Change, ChangePercent, Volume, MarketCap, PeRatio, CollectionDate, Source]

  /** The dict key, and CSV header, of each column. */
  function Key(c: Column): string {
    match c
    case Symbol => "symbol"
    case Name => "name"
    case Price => "price"
    case Change => "change"
    case ChangePercent => "change_percent"
    case Volume => "volume"
    case MarketCap => "market_cap"
    case PeRatio => "pe_ratio"
    case CollectionDate => "collection_date"
    case Source => "source"
  }

  /** A record is a Python dict from column to text. */
  type Record = map<Column, string>

  /** The record holds every one of the ten columns (and, the key type
      having no others, nothing else). */
  predicate HasColumns(r: Record) {
    && Symbol in r && Name in r && Price in r && Change in r && ChangePercent in r
    && Volume in r && MarketCap in r && PeRatio in r && CollectionDate in r && Source in r
  }

  /** The column order lists every column exactly once, and no two columns
      share a dict key. */
  lemma ColumnsListEachKeyOnce()
    ensures |Columns| == 10
    ensures forall c: Column :: c in Columns
    ensures forall i, j :: 0 <= i < j < |Columns| ==> Columns[i] != Columns[j]
    ensures forall a: Column, b: Column :: Key(a) == Key(b) ==> a == b
  {
    forall c: Column
      ensures c in Columns
    {
      match c
      case Symbol => assert Columns[0] == c;
      case Name => assert Columns[1] == c;
      case Price => assert Columns[2] == c;
      case Change => assert Columns[3] == c;
      case ChangePercent => assert Columns[4] == c;
      case Volume => assert Columns[5] == c;
      case MarketCap => assert Columns[6] == c;
      case PeRatio => assert Columns[7] == c;
      case CollectionDate => assert Columns[8] == c;
      case Source => assert Columns[9] == c;
    }
  }

  /** A record has all ten columns exactly when it holds every column of
      the CSV order. */
  lemma HasColumnsIsColumnOrder(r: Record)
    ensures HasColumns(r) <==> forall i :: 0 <= i < |Columns| ==> Columns[i] in r
  {
    if forall i :: 0 <= i < |Columns| ==> Columns[i] in r {
      assert Columns[0] in r && Columns[1] in r && Columns[2] in r && Columns[3] in r;
      assert Columns[4] in r && Columns[5] in r && Columns[6] in r && Columns[7] in r;
      assert Columns[8] in r && Columns[9] in r;
    }
  }

  /** The ten-key dict literal both parsers return. */
  function MakeRecord(symbol: string, name: string, price: string, change: string,
                      changePercent: string, volume: string, marketCap: string,
                      peRatio: string, collectionDate: string, source: string): (r: Record)
    ensures HasColumns(r)
    ensures r[Symbol] == symbol && r[Name] == name && r[Price] == price
    ensures r[Change] == change && r[ChangePercent] == changePercent && r[Volume] == volume
    ensures r[MarketCap] == marketCap && r[PeRatio] == peRatio
    ensures r[CollectionDate] == collectionDate && r[Source] == source
  {
    map[Symbol := symbol, Name := name, Price := price, Change := change,
        ChangePercent := changePercent, Volume := volume, MarketCap := marketCap,
        PeRatio := peRatio, CollectionDate := collectionDate, Source := source]
  }

  /** The records of the successful outcomes, in the order of the outcomes:
      what `all_data` holds after the collector loop. */
  function Successes<T>(outcomes: seq<Option<T>>): (s: seq<T>)
    ensures |s| <= |outcomes|
  {
    if outcomes == [] then []
    else if outcomes[0].Some? then [outcomes[0].value] + Successes(outcomes[1..])
    else Successes(outcomes[1..])
  }

  /** Filtering distributes over concatenation: what one stretch of symbols
      yields does not depend on how an earlier stretch went. */
  lemma {:induction false} SuccessesConcat<T>(a: seq<Option<T>>, b: seq<Option<T>>)
    ensures Successes(a + b) == Successes(a) + Successes(b)
  {
    if a != [] {
      assert (a + b)[0] == a[0];
      assert (a + b)[1..] == a[1..] + b;
      SuccessesConcat(a[1..], b);
    } else {
      assert a + b == b;
    }
  }

  /** One more outcome appends its record, or nothing when it failed. */
  lemma SuccessesSnoc<T>(a: seq<Option<T>>, x: Option<T>)
    ensures Successes(a + [x]) == Successes(a) + (if x.Some? then [x.value] else [])
  {
    SuccessesConcat(a, [x]);
    assert [x][1..] == [];
  }

  /** The collector loop's step: after position `i` the records collected
      so far are those of the first `i + 1` outcomes. */
  lemma SuccessesStep<T>(outcomes: seq<Option<T>>, i: nat)
    requires i < |outcomes|
    ensures Successes(outcomes[..i + 1])
      == Successes(outcomes[..i]) + (if outcomes[i].Some? then [outcomes[i].value] else [])
  {
    assert outcomes[..i + 1] == outcomes[..i] + [outcomes[i]];
    SuccessesSnoc(outcomes[..i], outcomes[i]);
  }

  /** Of two symbols where only the first succeeds, exactly its record is kept. */
  lemma SuccessesFirstOfTwo<T>(outcomes: seq<Option<T>>)
    requires |outcomes| == 2 && outcomes[0].Some? && outcomes[1].None?
    ensures Successes(outcomes) == [outcomes[0].value]
  {
    assert outcomes[1..][1..] == [];
  }

  /** A failed symbol in the middle neither adds a record nor stops the ones after it. */
  lemma FailureIsSkipped<T>(a: seq<Option<T>>, b: seq<Option<T>>)
    ensures Successes(a + [None] + b) == Successes(a) + Successes(b)
  {
    SuccessesConcat(a + [None], b);
    SuccessesSnoc(a, None);
  }

  /** A record is collected exactly when it is one of the successful outcomes. */
  lemma {:induction false} SuccessesMembership<T>(outcomes: seq<Option<T>>, x: T)
    ensures x in Successes(outcomes) <==> Some(x) in outcomes
  {
    if outcomes != [] {
      SuccessesMembership(outcomes[1..], x);
      assert outcomes == [outcomes[0]] + outcomes[1..];
    }
  }

  /** When every symbol succeeds nothing is dropped. */
  lemma {:induction false} SuccessesAllSome<T>(outcomes: seq<Option<T>>)
    requires forall i :: 0 <= i < |outcomes| ==> outcomes[i].Some?
    ensures |Successes(outcomes)| == |outcomes|
    ensures forall i :: 0 <= i < |outcomes| ==> Successes(outcomes)[i] == outcomes[i].value
  {
    if outcomes != [] {
      SuccessesAllSome(outcomes[1..]);
    }
  }
}
