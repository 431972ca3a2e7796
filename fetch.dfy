/** The step of `fetch_stock_records` that turns each row of the windowed
    query into a `StockRecord`: a missing price or volume list counts as
    empty, the list is copied into a 15-slot buffer pre-filled with zeros,
    and entries beyond the 15th are dropped. The query itself is not part of
    this model: its rows are given as a sequence. */
module Fetch {
  import opened Screening

  datatype Option<T> = None | Some(value: T)

  /** One row of the query: a symbol and its aggregated lists, newest first;
      an aggregate over no values comes back as None. */
  datatype Row = Row(symbol: string, prices: Option<seq<real>>, volumes: Option<seq<int>>)

  /** `unwrap_or_default` on an optional list: None becomes the empty list. */
  function OrEmpty<T>(o: Option<seq<T>>): seq<T>
  {
    match o
    case None => []
    case Some(s) => s
  }

  /** The first 15 entries of src, followed by as many copies of zero as
      it takes to reach 15. */
  function Padded<T>(src: seq<T>, zero: T): (w: seq<T>)
    ensures |w| == Window
    ensures forall i :: 0 <= i < Window ==> w[i] == if i < |src| then src[i] else zero
  {
    if |src| >= Window then src[..Window] else src + seq(Window - |src|, _ => zero)
  }

  /** Fills a zero-initialised 15-slot buffer from src in place, stopping
      after 15 entries, and hands back its contents. */
  method PadWindow<T>(src: seq<T>, zero: T) returns (w: seq<T>)
    ensures w == Padded(src, zero)
  {
    var buffer := new T[Window](_ => zero);
    var i := 0;
    while i < |src| && i < Window
      invariant i <= |src| && i <= Window
      invariant forall k :: 0 <= k < i ==> buffer[k] == src[k]
      invariant forall k :: i <= k < Window ==> buffer[k] == zero
    {
      buffer[i] := src[i];
      i := i + 1;
    }
    w := buffer[..];
  }

  /** The record a row becomes. */
  function RecordOf(row: Row): StockRecord
  {
    StockRecord(row.symbol, Padded(OrEmpty(row.prices), 0.0), Padded(OrEmpty(row.volumes), 0))
  }

  /** The post-query loop of `fetch_stock_records`: one record per row, in
      row order. */
  method FetchStockRecords(rows: seq<Row>) returns (records: seq<StockRecord>)
    ensures |records| == |rows|
    ensures forall k :: 0 <= k < |rows| ==> records[k] == RecordOf(rows[k])
  {
    records := [];
    for k := 0 to |rows|
      invariant |records| == k
      invariant forall j :: 0 <= j < k ==> records[j] == RecordOf(rows[j])
    {
      var row := rows[k];
      var prices := OrEmpty(row.prices);
      var volumes := OrEmpty(row.volumes);
      var pricesWindow := PadWindow(prices, 0.0);
      var volumesWindow := PadWindow(volumes, 0);
      records := records + [StockRecord(row.symbol, pricesWindow, volumesWindow)];
    }
  }

  /** What a record keeps of its row: the symbol unchanged, and in each
      window slot i the row's i-th entry when there is one and 0 otherwise;
      a missing list gives a window of zeros. */
  lemma RecordOfSlots(row: Row)
    ensures RecordOf(row).symbol == row.symbol
    ensures forall i :: 0 <= i < Window ==>
      RecordOf(row).prices[i] == if i < |OrEmpty(row.prices)| then OrEmpty(row.prices)[i] else 0.0
    ensures forall i :: 0 <= i < Window ==>
      RecordOf(row).volumes[i] == if i < |OrEmpty(row.volumes)| then OrEmpty(row.volumes)[i] else 0
    ensures row.prices.None? ==> RecordOf(row).prices == seq(Window, _ => 0.0)
    ensures row.volumes.None? ==> RecordOf(row).volumes == seq(Window, _ => 0)
  {
  }

  /** Entries beyond the 15th do not matter: two lists that agree on their
      first 15 entries pad to the same window. */
  lemma PaddedIgnoresTail<T>(src: seq<T>, extra: seq<T>, zero: T)
    requires |src| >= Window
    ensures Padded(src + extra, zero) == Padded(src, zero)
  {
    assert (src + extra)[..Window] == src[..Window];
  }

  /** Padding fails closed: a row with fewer than 15 volumes or fewer than
      15 prices yields a record the rule rejects, because its baseline slot
      holds the zero sentinel. */
  lemma ShortHistoryFails(row: Row)
    requires |OrEmpty(row.volumes)| < Window || |OrEmpty(row.prices)| < Window
    ensures !Mvp(RecordOf(row))
  {
    ZeroBaselineFails(RecordOf(row));
  }
}
