/**
 The block of rows one ingest run appends to the ledger sheet. Cells are
 modelled as the text the sheet gives back when the ledger is read: totals
 are written as numbers and read back as their decimal text.
 */
module RawLedgerWriter {

  import opened CsvAggregator
  import opened JsNumber

  type Row = seq<string>

  /** The fixed column header row of every block. */
  const HeaderRow: Row := ["Buyer", "Tickets Purchased"]

  /** `${rangeKey} (${localeDate})`; the locale-dependent date text is a parameter. */
  function BlockLabel(rangeKey: string, localeDate: string): (rangeLabel: string)
    ensures |rangeLabel| == |rangeKey| + |localeDate| + 3 && rangeLabel != ""
    ensures rangeLabel[..|rangeKey|] == rangeKey && rangeLabel[|rangeKey|..|rangeKey| + 2] == " ("
    ensures rangeLabel[|rangeKey| + 2..|rangeLabel| - 1] == localeDate && rangeLabel[|rangeLabel| - 1] == ')'
  {
    rangeKey + " (" + localeDate + ")"
  }

  /**
   Under one range key the label names the date: runs on different dates write
   different labels, so the rebuild gives each its own column.
   */
  lemma BlockLabelDeterminesDate(rangeKey: string, d1: string, d2: string)
    requires BlockLabel(rangeKey, d1) == BlockLabel(rangeKey, d2)
    ensures d1 == d2
  {
    var l := BlockLabel(rangeKey, d1);
    assert d1 == l[|rangeKey| + 2..|l| - 1];
  }

  /**
   The rows `pushRawData` appends: the label alone, the header, one
   `[buyer, total]` row per aggregate in the given order, and an empty row.
   */
  function LedgerBlock(rangeLabel: string, aggs: seq<AggregateRow>): (rows: seq<Row>)
    ensures |rows| == |aggs| + 3
    ensures rows[0] == [rangeLabel] && rows[1] == HeaderRow && rows[|rows| - 1] == []
    ensures forall i :: 0 <= i < |aggs| ==> rows[i + 2] == [aggs[i].buyer, ToDecimal(aggs[i].total)]
  {
    [[rangeLabel], HeaderRow] + AggregateLines(aggs) + [[]]
  }

  /** The `[buyer, total]` rows of a block, in the aggregates' order. */
  function AggregateLines(aggs: seq<AggregateRow>): (rows: seq<Row>)
    ensures |rows| == |aggs|
    ensures forall i :: 0 <= i < |aggs| ==> rows[i] == [aggs[i].buyer, ToDecimal(aggs[i].total)]
  {
    seq(|aggs|, i requires 0 <= i < |aggs| => [aggs[i].buyer, ToDecimal(aggs[i].total)])
  }

  /** The ledger is append-only: a run adds its block after every earlier row, which stay as they were. */
  function AppendBlock(ledger: seq<Row>, rangeLabel: string, aggs: seq<AggregateRow>): (r: seq<Row>)
    ensures |r| == |ledger| + |aggs| + 3
    ensures r[..|ledger|] == ledger
    ensures r[|ledger|..] == LedgerBlock(rangeLabel, aggs)
  {
    ledger + LedgerBlock(rangeLabel, aggs)
  }
}
