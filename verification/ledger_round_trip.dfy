/**
 How the two scripts meet: the block an ingest run appends, read back by the
 rebuild scan, yields exactly the per-buyer totals that were written; and the
 worked example of a dropped all-zero block.
 */
module LedgerRoundTrip {

  import opened Wrappers
  import opened Seqs
  import opened OrderedMap
  import opened JsNumber
  import opened CsvAggregator
  import opened RawLedgerWriter
  import opened SummaryBuilder

  /** The bucket `aggs` should read back as: its buyers in order, each with its total. */
  predicate HoldsAggregates(b: Bucket, aggs: seq<AggregateRow>)
  {
    && b.keys == Buyers(aggs)
    && forall i :: 0 <= i < |aggs| ==> aggs[i].buyer in b.entries && b.entries[aggs[i].buyer] == aggs[i].total
  }

  lemma ScanFromSnoc(st: ScanState, rows: seq<seq<string>>, row: seq<string>)
    requires Inv(st)
    ensures ScanFrom(st, rows + [row]) == Step(ScanFrom(st, rows), row)
  {
    assert (rows + [row])[..|rows|] == rows;
  }

  lemma AggregateLinesSnoc(p: seq<AggregateRow>, x: AggregateRow)
    ensures AggregateLines(p + [x]) == AggregateLines(p) + [[x.buyer, ToDecimal(x.total)]]
    ensures Buyers(p + [x]) == Buyers(p) + [x.buyer]
  {
  }

  /** Putting a new buyer's total into a bucket holding `p` makes it hold `p + [x]`. */
  lemma HoldsSnoc(b0: Bucket, p: seq<AggregateRow>, x: AggregateRow)
    requires Valid(b0) && HoldsAggregates(b0, p) && x.buyer !in Buyers(p)
    ensures HoldsAggregates(Put(b0, x.buyer, x.total), p + [x])
  {
    assert x.buyer !in b0.entries;
    var b := Put(b0, x.buyer, x.total);
    AggregateLinesSnoc(p, x);
    var aggs := p + [x];
    forall i | 0 <= i < |aggs|
      ensures aggs[i].buyer in b.entries && b.entries[aggs[i].buyer] == aggs[i].total
    {
      if i < |p| {
        assert aggs[i] == p[i];
        assert Buyers(p)[i] == p[i].buyer;
      }
    }
  }

  /** One buyer row of a block: its total lands in the open bucket, after the buyers before it. */
  lemma FillOne(s0: ScanState, rangeLabel: string, p: seq<AggregateRow>, x: AggregateRow)
    requires Inv(s0) && s0.current == Some(rangeLabel)
    requires HoldsAggregates(s0.data.entries[rangeLabel], p)
    requires x.buyer != BuyerHeading && x.buyer !in Buyers(p)
    ensures var s := Step(s0, [x.buyer, ToDecimal(x.total)]);
      && s.current == s0.current
      && s.data.keys == s0.data.keys
      && HoldsAggregates(s.data.entries[rangeLabel], p + [x])
      && forall l :: l in s0.data.entries && l != rangeLabel ==> l in s.data.entries && s.data.entries[l] == s0.data.entries[l]
  {
    var q := ToDecimal(x.total);
    ToDecimalRoundTrip(x.total);
    var row := [x.buyer, q];
    var b0 := s0.data.entries[rangeLabel];
    var s := Step(s0, row);
    assert s == ScanState(s0.current, Put(s0.data, rangeLabel, Put(b0, x.buyer, ParseIntOr0(q))));
    assert s.data.entries[rangeLabel] == Put(b0, x.buyer, x.total);
    HoldsSnoc(b0, p, x);
  }

  /** Scanning the buyer rows of a block fills the freshly opened bucket and touches nothing else. */
  lemma {:induction false} ScanAggregateLines(s1: ScanState, rangeLabel: string, aggs: seq<AggregateRow>)
    requires Inv(s1) && s1.current == Some(rangeLabel) && s1.data.entries[rangeLabel] == Empty()
    requires NoDups(Buyers(aggs)) && BuyerHeading !in Buyers(aggs)
    ensures var s := ScanFrom(s1, AggregateLines(aggs));
      && s.current == s1.current
      && s.data.keys == s1.data.keys
      && HoldsAggregates(s.data.entries[rangeLabel], aggs)
      && forall l :: l in s1.data.entries && l != rangeLabel ==> l in s.data.entries && s.data.entries[l] == s1.data.entries[l]
  {
    if aggs == [] {
      assert AggregateLines(aggs) == [];
    } else {
      var p := aggs[..|aggs| - 1];
      var x := aggs[|aggs| - 1];
      assert aggs == p + [x];
      AggregateLinesSnoc(p, x);
      assert NoDups(Buyers(p)) && x.buyer !in Buyers(p) by {
        assert Buyers(p) == Buyers(aggs)[..|p|];
      }
      ScanAggregateLines(s1, rangeLabel, p);
      ScanFromSnoc(s1, AggregateLines(p), [x.buyer, ToDecimal(x.total)]);
      FillOne(ScanFrom(s1, AggregateLines(p)), rangeLabel, p, x);
    }
  }

  /**
   A block written for distinct buyers none of whom is named "Buyer" reads
   back as: its label current, its bucket holding exactly each buyer's total
   in order, a new label appended to the label order and a repeated one kept
   in place, and every other block untouched. Its header and blank rows
   contribute nothing.
   */
  lemma BlockReadsBack(st: ScanState, rangeLabel: string, aggs: seq<AggregateRow>)
    requires Inv(st) && rangeLabel != ""
    requires NoDups(Buyers(aggs)) && BuyerHeading !in Buyers(aggs)
    ensures var st' := ScanFrom(st, LedgerBlock(rangeLabel, aggs));
      && st'.current == Some(rangeLabel)
      && st'.data.keys == (if rangeLabel in st.data.entries then st.data.keys else st.data.keys + [rangeLabel])
      && HoldsAggregates(st'.data.entries[rangeLabel], aggs)
      && forall l :: l in st.data.entries && l != rangeLabel ==> l in st'.data.entries && st'.data.entries[l] == st.data.entries[l]
  {
    var head: seq<seq<string>> := [[rangeLabel], HeaderRow];
    var lines := AggregateLines(aggs);
    assert LedgerBlock(rangeLabel, aggs) == (head + lines) + [[]];
    ScanFromSnoc(st, head + lines, []);
    ScanFromAppend(st, head, lines);
    OpenBlock(st, rangeLabel);
    var s1 := Step(st, [rangeLabel]);
    LabelRowOpensBlock(st, [rangeLabel]);
    ScanAggregateLines(s1, rangeLabel, aggs);
    SkippedRows(ScanFrom(s1, lines), []);
  }

  /** The label and header rows of a block leave the label's bucket open and empty. */
  lemma OpenBlock(st: ScanState, rangeLabel: string)
    requires Inv(st) && rangeLabel != ""
    ensures ScanFrom(st, [[rangeLabel], HeaderRow]) == Step(st, [rangeLabel])
  {
    ScanFromSnoc(st, [], [rangeLabel]);
    assert [] + [[rangeLabel]] == [[rangeLabel]];
    ScanFromSnoc(st, [[rangeLabel]], HeaderRow);
    assert [[rangeLabel]] + [HeaderRow] == [[rangeLabel], HeaderRow];
    assert ScanFrom(st, []) == st;
    LabelRowOpensBlock(st, [rangeLabel]);
    SkippedRows(Step(st, [rangeLabel]), HeaderRow);
  }

  /**
   Ingest followed by rebuild: after the block for one report's records is
   scanned, the label's bucket maps every user name of the report to the sum
   of that user's quantities, buyers in first-seen order.
   */
  lemma IngestThenScan(st: ScanState, rangeLabel: string, recs: seq<Record>)
    requires Inv(st) && rangeLabel != ""
    requires BuyerHeading !in Users(recs)
    ensures var st' := ScanFrom(st, LedgerBlock(rangeLabel, AggregateRecords(recs)));
      rangeLabel in st'.data.entries &&
      var b := st'.data.entries[rangeLabel];
      && b.keys == Dedup(Users(recs)) && NoDups(b.keys) && InFirstSeenOrder(b.keys, Users(recs))
      && forall u :: u in Users(recs) ==> u in b.entries && b.entries[u] == BuyerTotal(recs, u)
  {
    var aggs := AggregateRecords(recs);
    BlockReadsBack(st, rangeLabel, aggs);
    var b := ScanFrom(st, LedgerBlock(rangeLabel, aggs)).data.entries[rangeLabel];
    forall u | u in Users(recs)
      ensures u in b.entries && b.entries[u] == BuyerTotal(recs, u)
    {
      assert u in Buyers(aggs);
      var i :| 0 <= i < |aggs| && Buyers(aggs)[i] == u;
    }
  }

  /**
   A second run under the same label (same range key on the same date) takes
   over that label's bucket: the rebuild sees only the later block's totals,
   and the label keeps its single place in the label order.
   */
  lemma RerunReplacesBlock(st: ScanState, rangeLabel: string, aggs1: seq<AggregateRow>, aggs2: seq<AggregateRow>)
    requires Inv(st) && rangeLabel != ""
    requires NoDups(Buyers(aggs1)) && BuyerHeading !in Buyers(aggs1)
    requires NoDups(Buyers(aggs2)) && BuyerHeading !in Buyers(aggs2)
    ensures var st' := ScanFrom(st, LedgerBlock(rangeLabel, aggs1) + LedgerBlock(rangeLabel, aggs2));
      && st'.data.keys == (if rangeLabel in st.data.entries then st.data.keys else st.data.keys + [rangeLabel])
      && HoldsAggregates(st'.data.entries[rangeLabel], aggs2)
  {
    ScanFromAppend(st, LedgerBlock(rangeLabel, aggs1), LedgerBlock(rangeLabel, aggs2));
    BlockReadsBack(st, rangeLabel, aggs1);
    var s1 := ScanFrom(st, LedgerBlock(rangeLabel, aggs1));
    assert rangeLabel in s1.data.entries;
    BlockReadsBack(s1, rangeLabel, aggs2);
  }

  /**
   The append an ingest run makes, followed by a rebuild of the whole ledger:
   the new block's label reads back as exactly its totals, the label order
   gains the label at the end unless an earlier block already used it, and
   every other earlier block reads back as before.
   */
  lemma AppendThenScan(ledger: seq<seq<string>>, rangeLabel: string, aggs: seq<AggregateRow>)
    requires rangeLabel != ""
    requires NoDups(Buyers(aggs)) && BuyerHeading !in Buyers(aggs)
    ensures var before := Scan(ledger).data;
      var after := Scan(AppendBlock(ledger, rangeLabel, aggs)).data;
      && after.keys == (if rangeLabel in before.entries then before.keys else before.keys + [rangeLabel])
      && rangeLabel in after.entries && HoldsAggregates(after.entries[rangeLabel], aggs)
      && forall l :: l in before.entries && l != rangeLabel ==> l in after.entries && after.entries[l] == before.entries[l]
  {
    ScanFromAppend(Start, ledger, LedgerBlock(rangeLabel, aggs));
    BlockReadsBack(Scan(ledger), rangeLabel, aggs);
  }

  /** A first block on an empty ledger opens the only label. */
  lemma FirstBlock(la: string, aggsA: seq<AggregateRow>)
    requires la != ""
    requires NoDups(Buyers(aggsA)) && BuyerHeading !in Buyers(aggsA)
    ensures var s1 := ScanFrom(Start, LedgerBlock(la, aggsA));
      && s1.data.keys == [la]
      && la in s1.data.entries && HoldsAggregates(s1.data.entries[la], aggsA)
  {
    BlockReadsBack(Start, la, aggsA);
  }

  /** A block under a new label after a one-block ledger opens the second label. */
  lemma SecondBlock(s1: ScanState, la: string, aggsA: seq<AggregateRow>, lb: string, aggsB: seq<AggregateRow>)
    requires Inv(s1) && lb != "" && la != lb
    requires s1.data.keys == [la] && la in s1.data.entries && HoldsAggregates(s1.data.entries[la], aggsA)
    requires NoDups(Buyers(aggsB)) && BuyerHeading !in Buyers(aggsB)
    ensures var s2 := ScanFrom(s1, LedgerBlock(lb, aggsB));
      && s2.data.keys == [la, lb]
      && la in s2.data.entries && HoldsAggregates(s2.data.entries[la], aggsA)
      && lb in s2.data.entries && HoldsAggregates(s2.data.entries[lb], aggsB)
  {
    assert lb !in s1.data.entries;
    BlockReadsBack(s1, lb, aggsB);
    var s2 := ScanFrom(s1, LedgerBlock(lb, aggsB));
    SecondBlockKeys(s1, s2, la, lb);
    assert la in s1.data.entries && la != lb;
    assert la in s2.data.entries && s2.data.entries[la] == s1.data.entries[la];
  }

  lemma SecondBlockKeys(s1: ScanState, s2: ScanState, la: string, lb: string)
    requires Inv(s1) && s1.data.keys == [la] && la != lb
    requires s2.data.keys == (if lb in s1.data.entries then s1.data.keys else s1.data.keys + [lb])
    ensures s2.data.keys == [la, lb]
  {
  }

  /** Two blocks with different labels read back as two buckets, in ledger order. */
  lemma TwoBlocks(la: string, aggsA: seq<AggregateRow>, lb: string, aggsB: seq<AggregateRow>)
    requires la != "" && lb != "" && la != lb
    requires NoDups(Buyers(aggsA)) && BuyerHeading !in Buyers(aggsA)
    requires NoDups(Buyers(aggsB)) && BuyerHeading !in Buyers(aggsB)
    ensures var data := Scan(LedgerBlock(la, aggsA) + LedgerBlock(lb, aggsB)).data;
      && data.keys == [la, lb]
      && la in data.entries && HoldsAggregates(data.entries[la], aggsA)
      && lb in data.entries && HoldsAggregates(data.entries[lb], aggsB)
  {
    var blockA := LedgerBlock(la, aggsA);
    var blockB := LedgerBlock(lb, aggsB);
    ScanFromAppend(Start, blockA, blockB);
    FirstBlock(la, aggsA);
    SecondBlock(ScanFrom(Start, blockA), la, aggsA, lb, aggsB);
  }

  /** A bucket read back from two aggregate rows holds exactly those two buyers. */
  lemma PairBucket(b: Bucket, x: int, y: int)
    requires HoldsAggregates(b, [AggregateRow("Alice", x), AggregateRow("Bob", y)])
    ensures b.keys == ["Alice", "Bob"]
    ensures "Alice" in b.entries && b.entries["Alice"] == x
    ensures "Bob" in b.entries && b.entries["Bob"] == y
  {
    var aggs := [AggregateRow("Alice", x), AggregateRow("Bob", y)];
    assert aggs[0].buyer == "Alice" && aggs[1].buyer == "Bob";
    assert Buyers(aggs) == ["Alice", "Bob"];
  }

  lemma ZeroPairNotPositive(b: Bucket)
    requires Valid(b) && b.keys == ["Alice", "Bob"]
    requires b.entries["Alice"] == 0 && b.entries["Bob"] == 0
    ensures !HasPositive(b)
  {
    forall k | k in b.entries
      ensures b.entries[k] <= 0
    {
      assert k in b.keys;
    }
  }

  lemma KeepSecondOnly(data: OMap<Bucket>, la: string, lb: string)
    requires Valid(data) && data.keys == [la, lb]
    requires !HasPositive(data.entries[la]) && HasPositive(data.entries[lb])
    ensures KeptLabels(data) == [lb]
  {
    assert data.keys[..1] == [la] && [la][..0] == [];
    assert KeepPositive([la], data) == [];
  }

  lemma OneLabelBuyers(data: OMap<Bucket>, lb: string)
    requires lb in data.entries && Valid(data.entries[lb])
    ensures SummaryBuyers([lb], data) == Dedup(data.entries[lb].keys)
  {
    assert [lb][..0] == [];
    assert ConcatKeys([lb], data) == [] + data.entries[lb].keys;
    assert [] + data.entries[lb].keys == data.entries[lb].keys;
  }

  /** The kept columns and summary rows of the worked example below, from its two buckets. */
  lemma ExampleColumns(data: OMap<Bucket>)
    requires Valid(data) && forall l :: l in data.entries ==> Valid(data.entries[l])
    requires data.keys == ["A", "B"]
    requires HoldsAggregates(data.entries["A"], [AggregateRow("Alice", 0), AggregateRow("Bob", 0)])
    requires HoldsAggregates(data.entries["B"], [AggregateRow("Alice", 3), AggregateRow("Bob", 0)])
    ensures KeptLabels(data) == ["B"]
    ensures SummaryBuyers(["B"], data) == ["Alice", "Bob"]
    ensures Lookup(data.entries["B"], "Alice") == 3 && Lookup(data.entries["B"], "Bob") == 0
  {
    var a := data.entries["A"];
    var b := data.entries["B"];
    PairBucket(a, 0, 0);
    PairBucket(b, 3, 0);
    ZeroPairNotPositive(a);
    assert HasPositive(b) by {
      assert "Alice" in b.entries && b.entries["Alice"] > 0;
    }
    KeepSecondOnly(data, "A", "B");
    OneLabelBuyers(data, "B");
    DedupNoDups(["Alice", "Bob"]);
  }

  /** The summary table of any ledger whose scan yields the two buckets of the worked example. */
  lemma ExampleTable(rows: seq<seq<string>>)
    requires var data := Scan(rows).data;
      && data.keys == ["A", "B"]
      && "A" in data.entries && HoldsAggregates(data.entries["A"], [AggregateRow("Alice", 0), AggregateRow("Bob", 0)])
      && "B" in data.entries && HoldsAggregates(data.entries["B"], [AggregateRow("Alice", 3), AggregateRow("Bob", 0)])
    ensures BuildSummary(rows) == [[Text("Buyer"), Text("B")], [Text("Alice"), Num(3)], [Text("Bob"), Num(0)]]
  {
    var data := Scan(rows).data;
    ExampleColumns(data);
    var t := BuildSummary(rows);
    assert |t| == 3;
    assert t[0] == [Text("Buyer"), Text("B")];
    assert t[1] == [Text("Alice"), Num(3)];
    assert t[2] == [Text("Bob"), Num(0)];
  }

  /**
   Worked example: block "A" with Alice 0 and Bob 0, then block "B" with
   Alice 3 and Bob 0. "A" has no positive total and is dropped; Bob stays as
   a zero row of the kept block.
   */
  lemma ZeroBlockDropped()
    ensures BuildSummary(
              LedgerBlock("A", [AggregateRow("Alice", 0), AggregateRow("Bob", 0)])
              + LedgerBlock("B", [AggregateRow("Alice", 3), AggregateRow("Bob", 0)]))
         == [[Text("Buyer"), Text("B")], [Text("Alice"), Num(3)], [Text("Bob"), Num(0)]]
  {
    var aggsA := [AggregateRow("Alice", 0), AggregateRow("Bob", 0)];
    var aggsB := [AggregateRow("Alice", 3), AggregateRow("Bob", 0)];
    assert Buyers(aggsA) == ["Alice", "Bob"] && Buyers(aggsB) == ["Alice", "Bob"];
    TwoBlocks("A", aggsA, "B", aggsB);
    ExampleTable(LedgerBlock("A", aggsA) + LedgerBlock("B", aggsB));
  }
}
