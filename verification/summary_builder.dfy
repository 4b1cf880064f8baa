/**
 The rebuild of the summary sheet: a scan of every ledger row into a
 label -> (buyer -> total) table, a filter that keeps the labels with some
 positive total, the buyers of the kept labels in first-seen order, and the
 zero-filled buyer-by-label matrix written over the summary sheet.
 */
module SummaryBuilder {

  import opened Wrappers
  import opened Seqs
  import opened OrderedMap
  import opened JsNumber

  /** The first cell of the block header row; data rows with this buyer are skipped. */
  const BuyerHeading: string := "Buyer"

  /** How the scan treats a ledger row, decided by its cell count alone. */
  datatype RowKind = LabelRow(rangeLabel: string) | DataRow(buyer: string, qty: string) | OtherRow

  /** One non-empty cell opens a block; two or more cells are a buyer and a quantity (later cells ignored). */
  function Classify(row: seq<string>): (k: RowKind)
    ensures k.LabelRow? <==> |row| == 1 && row[0] != ""
    ensures k.DataRow? <==> |row| >= 2
  {
    if |row| == 1 && row[0] != "" then LabelRow(row[0])
    else if |row| >= 2 then DataRow(row[0], row[1])
    else OtherRow
  }

  /** One block's buyer -> total map. */
  type Bucket = OMap<int>

  /** `currentRange` (null until the first label) and `dataMap`. */
  datatype ScanState = ScanState(current: Option<string>, data: OMap<Bucket>)

  predicate Inv(st: ScanState)
  {
    && Valid(st.data)
    && (forall l :: l in st.data.entries ==> Valid(st.data.entries[l]))
    && (st.current.Some? ==> st.current.value in st.data.entries)
  }

  const Start: ScanState := ScanState(None, Empty())

  /** One iteration of the scan loop over the ledger rows. */
  function Step(st: ScanState, row: seq<string>): (st': ScanState)
    requires Inv(st)
    ensures Inv(st')
  {
    match Classify(row)
    case LabelRow(l) => ScanState(Some(l), Put(st.data, l, Empty()))
    case DataRow(b, q) =>
      if st.current.Some? && b != BuyerHeading then
        var l := st.current.value;
        ScanState(st.current, Put(st.data, l, Put(st.data.entries[l], b, ParseIntOr0(q))))
      else st
    case OtherRow => st
  }

  /** The scan continued from `st` over `rows`, in order. */
  function ScanFrom(st: ScanState, rows: seq<seq<string>>): (st': ScanState)
    requires Inv(st)
    ensures Inv(st')
  {
    if rows == [] then st else Step(ScanFrom(st, rows[..|rows| - 1]), rows[|rows| - 1])
  }

  function Scan(rows: seq<seq<string>>): (st: ScanState)
    ensures Inv(st)
  {
    ScanFrom(Start, rows)
  }

  /** `Object.values(bucket).some(v => v > 0)` */
  predicate HasPositive(b: Bucket)
  {
    exists k :: k in b.entries && b.entries[k] > 0
  }

  /** The labels of `labels` whose bucket has a strictly positive total, in order. */
  function KeepPositive(labels: seq<string>, data: OMap<Bucket>): (kept: seq<string>)
    requires forall l :: l in labels ==> l in data.entries
    ensures forall l :: l in kept <==> l in labels && HasPositive(data.entries[l])
    ensures NoDups(labels) ==> NoDups(kept) && InFirstSeenOrder(kept, labels)
  {
    if labels == [] then []
    else
      var p := labels[..|labels| - 1];
      var l := labels[|labels| - 1];
      assert labels == p + [l];
      var k := KeepPositive(p, data);
      var r := if HasPositive(data.entries[l]) then k + [l] else k;
      assert NoDups(labels) ==> NoDups(r) && InFirstSeenOrder(r, labels) by {
        if NoDups(labels) {
          assert NoDups(p);
          assert l !in p;
          if HasPositive(data.entries[l]) {
            FirstSeenAppendNew(k, p, l);
          } else {
            FirstSeenExtend(k, p, l);
          }
        }
      }
      r
  }

  /** The summary's columns: the labels with a positive total, in ledger order. */
  function KeptLabels(data: OMap<Bucket>): (kept: seq<string>)
    requires Valid(data)
    ensures forall l :: l in kept <==> l in data.entries && HasPositive(data.entries[l])
    ensures NoDups(kept) && InFirstSeenOrder(kept, data.keys)
  {
    KeepPositive(data.keys, data)
  }

  /** `labels.flatMap(l => Object.keys(data[l]))` */
  function ConcatKeys(labels: seq<string>, data: OMap<Bucket>): (ks: seq<string>)
    requires forall l :: l in labels ==> l in data.entries && Valid(data.entries[l])
    ensures forall b :: b in ks <==> exists l :: l in labels && b in data.entries[l].entries
  {
    if labels == [] then []
    else
      var p := labels[..|labels| - 1];
      var l := labels[|labels| - 1];
      assert labels == p + [l];
      var r := ConcatKeys(p, data) + data.entries[l].keys;
      assert forall b :: b in r <==> exists m :: m in labels && b in data.entries[m].entries by {
        forall b
          ensures b in r <==> exists m :: m in labels && b in data.entries[m].entries
        {
          if b in ConcatKeys(p, data) {
            var m :| m in p && b in data.entries[m].entries;
            assert m in labels;
          } else if b in data.entries[l].keys {
            assert l in labels && Valid(data.entries[l]);
            assert b in data.entries[l].entries;
          }
          if exists m :: m in labels && b in data.entries[m].entries {
            var m :| m in labels && b in data.entries[m].entries;
            if m != l {
              assert m in p;
              assert b in ConcatKeys(p, data);
            } else {
              assert Valid(data.entries[l]);
              assert b in data.entries[l].keys;
            }
          }
        }
      }
      r
  }

  /**
   `flatMap` order: the keys of one label run come before those of the next,
   and a single label contributes its bucket's keys in their own order.
   */
  lemma {:induction false} ConcatKeysAppend(a: seq<string>, b: seq<string>, data: OMap<Bucket>)
    requires forall l :: l in a + b ==> l in data.entries && Valid(data.entries[l])
    ensures ConcatKeys(a + b, data) == ConcatKeys(a, data) + ConcatKeys(b, data)
    ensures |b| == 1 ==> ConcatKeys(b, data) == data.entries[b[0]].keys
    decreases |b|
  {
    if b == [] {
      assert a + b == a;
    } else {
      var p := b[..|b| - 1];
      var l := b[|b| - 1];
      assert (a + b)[..|a + b| - 1] == a + p;
      assert (a + b)[|a + b| - 1] == l;
      ConcatKeysAppend(a, p, data);
      if |b| == 1 {
        assert p == [];
      }
    }
  }

  /** The summary's rows: every buyer of a kept label, once, in first-seen order. */
  function SummaryBuyers(kept: seq<string>, data: OMap<Bucket>): (buyers: seq<string>)
    requires forall l :: l in kept ==> l in data.entries && Valid(data.entries[l])
    ensures NoDups(buyers)
    ensures forall b :: b in buyers <==> exists l :: l in kept && b in data.entries[l].entries
    ensures InFirstSeenOrder(buyers, ConcatKeys(kept, data))
  {
    DedupFirstSeen(ConcatKeys(kept, data));
    Dedup(ConcatKeys(kept, data))
  }

  /** One written cell: text for the headings, a number for a total. */
  datatype Cell = Text(text: string) | Num(value: int)

  /** `bucket[buyer] || 0` */
  function Lookup(b: Bucket, buyer: string): (n: int)
    ensures buyer !in b.entries ==> n == 0
    ensures buyer in b.entries ==> n == b.entries[buyer]
  {
    if buyer in b.entries then b.entries[buyer] else 0
  }

  /** The row for one buyer: the name, then its total under each label. */
  function BuyerLine(buyer: string, kept: seq<string>, data: OMap<Bucket>): (line: seq<Cell>)
    requires forall l :: l in kept ==> l in data.entries
    ensures |line| == |kept| + 1 && line[0] == Text(buyer)
    ensures forall j :: 1 <= j < |line| ==> line[j] == Num(Lookup(data.entries[kept[j - 1]], buyer))
  {
    [Text(buyer)] + seq(|kept|, j requires 0 <= j < |kept| => Num(Lookup(data.entries[kept[j]], buyer)))
  }

  /** The header row: the literal "Buyer", then the labels. */
  function HeaderLine(kept: seq<string>): (line: seq<Cell>)
    ensures |line| == |kept| + 1 && line[0] == Text(BuyerHeading)
    ensures forall j :: 1 <= j < |line| ==> line[j] == Text(kept[j - 1])
  {
    [Text(BuyerHeading)] + seq(|kept|, j requires 0 <= j < |kept| => Text(kept[j]))
  }

  /**
   `buildSummary` without its sheet I/O: the ledger rows in, the matrix out.
   One header row and one row per summary buyer, each as wide as the kept
   labels plus the name column; cell (buyer, label) is the block's total for
   that buyer, or 0 when the block has none.
   */
  function BuildSummary(rows: seq<seq<string>>): (table: seq<seq<Cell>>)
    ensures var data := Scan(rows).data;
      var kept := KeptLabels(data);
      var buyers := SummaryBuyers(kept, data);
      && |table| == |buyers| + 1
      && (forall i :: 0 <= i < |table| ==> |table[i]| == |kept| + 1)
      && table[0] == HeaderLine(kept)
      && (forall i :: 1 <= i < |table| ==> table[i][0] == Text(buyers[i - 1]))
      && (forall i, j :: 1 <= i < |table| && 1 <= j < |table[i]| ==>
            table[i][j] == Num(Lookup(data.entries[kept[j - 1]], buyers[i - 1])))
  {
    var data := Scan(rows).data;
    var kept := KeptLabels(data);
    var buyers := SummaryBuyers(kept, data);
    [HeaderLine(kept)] + seq(|buyers|, i requires 0 <= i < |buyers| => BuyerLine(buyers[i], kept, data))
  }

  /**
   A row with exactly one non-empty cell makes that cell the current label and
   empties its bucket; a label seen before keeps its place in the label order.
   */
  lemma LabelRowOpensBlock(st: ScanState, row: seq<string>)
    requires Inv(st) && |row| == 1 && row[0] != ""
    ensures var st' := Step(st, row);
      && st'.current == Some(row[0])
      && st'.data.entries[row[0]] == Empty()
      && st'.data.keys == (if row[0] in st.data.entries then st.data.keys else st.data.keys + [row[0]])
      && forall l :: l in st.data.entries && l != row[0] ==> st'.data.entries[l] == st.data.entries[l]
  {
  }

  /**
   A row with two or more cells after some label, whose first cell is not
   "Buyer", sets that buyer's total in the current bucket to the parsed second
   cell, overwriting an earlier value; nothing else changes.
   */
  lemma DataRowSetsTotal(st: ScanState, row: seq<string>)
    requires Inv(st) && |row| >= 2 && row[0] != BuyerHeading && st.current.Some?
    ensures var st' := Step(st, row);
      var l := st.current.value;
      && st'.current == st.current
      && st'.data.keys == st.data.keys
      && st'.data.entries[l].entries == st.data.entries[l].entries[row[0] := ParseIntOr0(row[1])]
      && st'.data.entries[l].keys == (if row[0] in st.data.entries[l].entries then st.data.entries[l].keys
                                      else st.data.entries[l].keys + [row[0]])
      && forall m :: m in st.data.entries && m != l ==> st'.data.entries[m] == st.data.entries[m]
  {
    var l := st.current.value;
    var nb := Put(st.data.entries[l], row[0], ParseIntOr0(row[1]));
    assert Classify(row) == DataRow(row[0], row[1]);
    assert Step(st, row) == ScanState(st.current, Put(st.data, l, nb));
  }

  /** Last write wins: of two rows for the same buyer in one block, the later total stays. */
  lemma LastWriteWins(st: ScanState, buyer: string, q1: string, q2: string, rest1: seq<string>, rest2: seq<string>)
    requires Inv(st) && st.current.Some? && buyer != BuyerHeading
    ensures var st' := Step(Step(st, [buyer, q1] + rest1), [buyer, q2] + rest2);
      st'.data.entries[st.current.value].entries[buyer] == ParseIntOr0(q2)
  {
    var r1 := [buyer, q1] + rest1;
    var r2 := [buyer, q2] + rest2;
    assert r1[0] == buyer && r2[0] == buyer && r2[1] == q2;
    DataRowSetsTotal(st, r1);
    var s1 := Step(st, r1);
    assert s1.current == st.current;
    DataRowSetsTotal(s1, r2);
  }

  /**
   Rows the scan skips: empty rows and single empty cells, header rows, and
   any buyer row before the first label.
   */
  lemma SkippedRows(st: ScanState, row: seq<string>)
    requires Inv(st)
    requires || |row| == 0
             || (|row| == 1 && row[0] == "")
             || (|row| >= 2 && row[0] == BuyerHeading)
             || (|row| >= 2 && st.current.None?)
    ensures Step(st, row) == st
  {
  }

  lemma {:induction false} ScanFromAppend(st: ScanState, a: seq<seq<string>>, b: seq<seq<string>>)
    requires Inv(st)
    ensures ScanFrom(st, a + b) == ScanFrom(ScanFrom(st, a), b)
  {
    if b == [] {
      assert a + b == a;
    } else {
      var p := b[..|b| - 1];
      assert (a + b)[..|a + b| - 1] == a + p;
      ScanFromAppend(st, a, p);
    }
  }

  /** Until the first label row, the scan records nothing. */
  lemma {:induction false} NothingBeforeFirstLabel(rows: seq<seq<string>>)
    requires forall i :: 0 <= i < |rows| ==> !(|rows[i]| == 1 && rows[i][0] != "")
    ensures Scan(rows) == Start
  {
    if rows != [] {
      var p := rows[..|rows| - 1];
      NothingBeforeFirstLabel(p);
      SkippedRows(Start, rows[|rows| - 1]);
    }
  }

  /**
   A blank row anywhere in the ledger, such as the separator that ends every
   block, leaves the summary as it was.
   */
  lemma BlankRowIgnored(a: seq<seq<string>>, b: seq<seq<string>>)
    ensures BuildSummary(a + [[]] + b) == BuildSummary(a + b)
  {
    var withBlank := a + [[]];
    assert withBlank[..|withBlank| - 1] == a;
    SkippedRows(Scan(a), []);
    assert Scan(withBlank) == Scan(a);
    ScanFromAppend(Start, withBlank, b);
    ScanFromAppend(Start, a, b);
  }
}
