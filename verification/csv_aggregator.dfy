/**
 The per-buyer aggregation of one report export: the preamble before the
 report's header line is dropped, and the order quantities of the parsed
 records are summed per buyer, buyers kept in the order they first appear.
 */
module CsvAggregator {

  import opened Wrappers
  import opened Seqs
  import opened OrderedMap
  import opened JsNumber

  /** One parsed report record: the "User Name" and "Order QTY" fields (the latter possibly absent). */
  datatype Record = Record(userName: string, orderQty: Option<string>)

  /** One buyer's total for one report fetch. */
  datatype AggregateRow = AggregateRow(buyer: string, total: int)

  /** The text the report's real header line starts with. */
  const HeaderToken: string := "\"Request Date and Time\""

  /** `line.startsWith(HeaderToken)` */
  predicate IsHeaderLine(line: string)
  {
    |HeaderToken| <= |line| && line[..|HeaderToken|] == HeaderToken
  }

  /** `text.split('\n')`: at least one piece, none containing a newline. */
  function SplitLines(text: string): (lines: seq<string>)
    ensures |lines| >= 1
    ensures forall i :: 0 <= i < |lines| ==> '\n' !in lines[i]
    decreases |text|
  {
    var i := FirstIndex(text, '\n');
    if i == |text| then [text] else [text[..i]] + SplitLines(text[i + 1..])
  }

  /** `lines.join('\n')` */
  function JoinLines(lines: seq<string>): string
  {
    if |lines| == 0 then ""
    else if |lines| == 1 then lines[0]
    else lines[0] + "\n" + JoinLines(lines[1..])
  }

  /** `lines.findIndex(l => l.startsWith(HeaderToken))`, with `|lines|` standing for -1. */
  function FindHeader(lines: seq<string>): (i: nat)
    ensures i <= |lines|
    ensures i < |lines| ==> IsHeaderLine(lines[i])
    ensures forall j :: 0 <= j < i ==> !IsHeaderLine(lines[j])
  {
    if lines == [] then 0
    else if IsHeaderLine(lines[0]) then 0
    else 1 + FindHeader(lines[1..])
  }

  /**
   The header skip of `aggregateByBuyer`: split into lines, keep the lines from
   the first header line on and join them again. With no header line
   `findIndex` yields -1 and `slice(-1)` keeps only the last line.
   */
  function SkipPreamble(text: string): string
  {
    var lines := SplitLines(text);
    var i := FindHeader(lines);
    JoinLines(if i < |lines| then lines[i..] else lines[|lines| - 1..])
  }

  /** Position `k` of `text` begins a line: it is the start, or follows a newline. */
  predicate LineStart(text: string, k: int)
  {
    k == 0 || (0 < k <= |text| && text[k - 1] == '\n')
  }

  /**
   Reference reading of the header skip on the raw text: walk the lines from
   the top; stop at the first one that starts with the header token, or at the
   last line when none does, and keep the text from there.
   */
  function KeepFromHeader(text: string): (r: string)
    ensures |r| <= |text| && r == text[|text| - |r|..]
    decreases |text|
  {
    if IsHeaderLine(text) then text
    else
      var i := FirstIndex(text, '\n');
      if i == |text| then text else KeepFromHeader(text[i + 1..])
  }

  /**
   What the header skip keeps is a suffix of the export that starts at a line
   start, and is either a header line and all after it, or a last line with no
   newline in it.
   */
  lemma {:induction false} KeepFromHeaderShape(text: string)
    ensures var r := KeepFromHeader(text);
      && LineStart(text, |text| - |r|)
      && (IsHeaderLine(r) || '\n' !in r)
    decreases |text|
  {
    if !IsHeaderLine(text) {
      var r := KeepFromHeader(text);
      var i := FirstIndex(text, '\n');
      if i == |text| {
        assert text[..i] == text;
      } else {
        var t := text[i + 1..];
        assert r == KeepFromHeader(t);
        KeepFromHeaderShape(t);
        SuffixAfterNewline(text, i, r);
      }
    }
  }

  /**
   The kept text begins at the FIRST line that starts with the header token:
   no earlier line does, and when the kept text is not a header line then no
   line of the export is one.
   */
  lemma {:induction false} KeepFromHeaderIsFirst(text: string)
    ensures var r := KeepFromHeader(text);
      && (forall k :: 0 <= k < |text| - |r| && LineStart(text, k) ==> !IsHeaderLine(text[k..]))
      && (!IsHeaderLine(r) ==> forall k :: 0 <= k <= |text| && LineStart(text, k) ==> !IsHeaderLine(text[k..]))
    decreases |text|
  {
    if !IsHeaderLine(text) {
      var r := KeepFromHeader(text);
      var i := FirstIndex(text, '\n');
      if i == |text| {
        forall j | 0 <= j < |text|
          ensures text[j] != '\n'
        {
          NothingBeforeFirst(text, '\n', j);
        }
      } else {
        var t := text[i + 1..];
        assert r == KeepFromHeader(t);
        KeepFromHeaderIsFirst(t);
        LineStartsAfterFirst(text, i);
        forall k | 0 < k <= |text| && LineStart(text, k) && (k < |text| - |r| || !IsHeaderLine(r))
          ensures !IsHeaderLine(text[k..])
        {
          assert LineStart(t, k - (i + 1)) && text[k..] == t[k - (i + 1)..];
        }
      }
    }
  }

  /** A line-start suffix of the text after a newline is a line-start suffix of the whole text. */
  lemma SuffixAfterNewline(text: string, i: nat, r: string)
    requires i < |text| && text[i] == '\n'
    requires var t := text[i + 1..];
      && |r| <= |t| && r == t[|t| - |r|..]
      && (|r| == |t| || t[|t| - |r| - 1] == '\n')
    ensures |r| <= |text| && r == text[|text| - |r|..]
    ensures |r| == |text| || text[|text| - |r| - 1] == '\n'
  {
    var t := text[i + 1..];
    assert t[|t| - |r|..] == text[|text| - |r|..];
    if |r| < |t| {
      assert t[|t| - |r| - 1] == text[|text| - |r| - 1];
    }
  }

  /**
   Past the first line, the line starts of the text are those of the text after
   its first newline, shifted by that newline's position.
   */
  lemma LineStartsAfterFirst(text: string, i: nat)
    requires i == FirstIndex(text, '\n') && i < |text|
    ensures forall k :: 0 <= k <= |text| && LineStart(text, k) ==>
      k == 0 || (i + 1 <= k && LineStart(text[i + 1..], k - (i + 1)) && text[k..] == text[i + 1..][k - (i + 1)..])
  {
    forall k | 0 < k <= |text| && LineStart(text, k)
      ensures i + 1 <= k && LineStart(text[i + 1..], k - (i + 1)) && text[k..] == text[i + 1..][k - (i + 1)..]
    {
      LineStartAfterFirst(text, i, k);
    }
  }

  /** A later line start lies past the first newline, and is a line start of the text after it. */
  lemma LineStartAfterFirst(text: string, i: nat, k: int)
    requires i == FirstIndex(text, '\n') && i < |text|
    requires 0 < k <= |text| && text[k - 1] == '\n'
    ensures i + 1 <= k && LineStart(text[i + 1..], k - (i + 1)) && text[k..] == text[i + 1..][k - (i + 1)..]
  {
    var t := text[i + 1..];
    FirstIndexAtMost(text, '\n', k - 1);
    assert k - (i + 1) == 0 || t[k - (i + 1) - 1] == text[k - 1];
  }

  lemma JoinLinesCons(line: string, tail: seq<string>)
    requires |tail| >= 1
    ensures JoinLines([line] + tail) == line + "\n" + JoinLines(tail)
  {
    assert ([line] + tail)[1..] == tail;
  }

  /** Splitting then joining on newlines gives back the text. */
  lemma {:induction false} JoinSplit(text: string)
    ensures JoinLines(SplitLines(text)) == text
    decreases |text|
  {
    var i := FirstIndex(text, '\n');
    if i < |text| {
      JoinSplit(text[i + 1..]);
      JoinSplitStep(text, i, text[i + 1..]);
    } else {
      JoinSplitLast(text);
    }
  }

  lemma JoinSplitLast(text: string)
    requires '\n' !in text
    ensures JoinLines(SplitLines(text)) == text
  {
  }

  lemma JoinSplitStep(text: string, i: nat, rest: string)
    requires i == FirstIndex(text, '\n') && i < |text| && rest == text[i + 1..]
    requires JoinLines(SplitLines(rest)) == rest
    ensures JoinLines(SplitLines(text)) == text
  {
    JoinLinesCons(text[..i], SplitLines(rest));
    assert text == text[..i] + "\n" + rest;
  }

  /** The header token holds no newline, so a text starts with it exactly when its first line does. */
  lemma HeaderInFirstLine(text: string, i: nat)
    requires i <= |text| && '\n' !in text[..i]
    requires i == |text| || text[i] == '\n'
    ensures IsHeaderLine(text) <==> IsHeaderLine(text[..i])
  {
    if IsHeaderLine(text) {
      assert text[..i][..|HeaderToken|] == text[..|HeaderToken|];
    }
    if IsHeaderLine(text[..i]) {
      assert text[..i][..|HeaderToken|] == text[..|HeaderToken|];
    }
  }

  /** The split-search-slice-join of the script keeps exactly what the reference reading keeps. */
  lemma {:induction false} SkipPreambleKeepsFromHeader(text: string)
    ensures SkipPreamble(text) == KeepFromHeader(text)
    decreases |text|
  {
    var lines := SplitLines(text);
    var i := FirstIndex(text, '\n');
    HeaderInFirstLine(text, i);
    if i == |text| {
      assert lines == [text];
    } else {
      var rest := text[i + 1..];
      var tail := SplitLines(rest);
      assert lines == [text[..i]] + tail;
      if IsHeaderLine(text) {
        assert FindHeader(lines) == 0;
        JoinSplit(text);
      } else {
        assert lines[1..] == tail;
        var k := FindHeader(tail);
        assert FindHeader(lines) == 1 + k;
        if k < |tail| {
          assert lines[1 + k..] == tail[k..];
        } else {
          assert lines[|lines| - 1..] == tail[|tail| - 1..];
        }
        SkipPreambleKeepsFromHeader(rest);
      }
    }
  }

  /** `parseInt(row['Order QTY'], 10) || 0`; an absent field reads as "undefined" and gives 0. */
  function Quantity(r: Record): int
  {
    match r.orderQty
    case None => 0
    case Some(q) => ParseIntOr0(q)
  }

  function Users(recs: seq<Record>): (us: seq<string>)
    ensures |us| == |recs| && forall i :: 0 <= i < |recs| ==> us[i] == recs[i].userName
  {
    seq(|recs|, i requires 0 <= i < |recs| => recs[i].userName)
  }

  /** Reference total of one buyer: the sum of the quantities of that buyer's records. */
  function BuyerTotal(recs: seq<Record>, buyer: string): int
  {
    if recs == [] then 0
    else
      var r := recs[|recs| - 1];
      BuyerTotal(recs[..|recs| - 1], buyer) + (if r.userName == buyer then Quantity(r) else 0)
  }

  /** The sum of the quantities of all records. */
  function GrandTotal(recs: seq<Record>): int
  {
    if recs == [] then 0 else GrandTotal(recs[..|recs| - 1]) + Quantity(recs[|recs| - 1])
  }

  lemma {:induction false} BuyerTotalAbsent(recs: seq<Record>, buyer: string)
    requires buyer !in Users(recs)
    ensures BuyerTotal(recs, buyer) == 0
  {
    if recs != [] {
      var p := recs[..|recs| - 1];
      assert Users(p) == Users(recs)[..|recs| - 1];
      BuyerTotalAbsent(p, buyer);
    }
  }

  /**
   The `totals` object after the loop over `recs`: keys in first-seen order,
   each key's value the buyer's reference total.
   */
  function Tally(recs: seq<Record>): (t: OMap<int>)
    ensures Valid(t)
    ensures t.keys == Dedup(Users(recs))
    ensures forall b :: b in t.entries ==> t.entries[b] == BuyerTotal(recs, b)
  {
    if recs == [] then Empty()
    else
      var p := recs[..|recs| - 1];
      var r := recs[|recs| - 1];
      var t := Tally(p);
      assert Users(recs) == Users(p) + [r.userName];
      assert r.userName !in t.entries ==> BuyerTotal(p, r.userName) == 0 by {
        if r.userName !in t.entries {
          BuyerTotalAbsent(p, r.userName);
        }
      }
      var t' := Put(t, r.userName, (if r.userName in t.entries then t.entries[r.userName] else 0) + Quantity(r));
      assert Users(recs)[..|recs| - 1] == Users(p) && Users(recs)[|recs| - 1] == r.userName;
      assert t'.keys == Dedup(Users(recs));
      assert forall b :: b in t'.entries ==> t'.entries[b] == BuyerTotal(recs, b) by {
        forall b | b in t'.entries
          ensures t'.entries[b] == BuyerTotal(recs, b)
        {
          assert BuyerTotal(recs, b) == BuyerTotal(p, b) + (if r.userName == b then Quantity(r) else 0);
          if b != r.userName {
            assert b in t.entries;
          }
        }
      }
      t'
  }

  function Buyers(rows: seq<AggregateRow>): (bs: seq<string>)
    ensures |bs| == |rows| && forall i :: 0 <= i < |rows| ==> bs[i] == rows[i].buyer
  {
    seq(|rows|, i requires 0 <= i < |rows| => rows[i].buyer)
  }

  function SumTotals(rows: seq<AggregateRow>): int
  {
    if rows == [] then 0 else SumTotals(rows[..|rows| - 1]) + rows[|rows| - 1].total
  }

  /**
   The group-sum of `aggregateByBuyer` over parsed records: one row per
   distinct user name, in first-seen order, carrying that buyer's total.
   */
  function AggregateRecords(recs: seq<Record>): (rows: seq<AggregateRow>)
    ensures Buyers(rows) == Dedup(Users(recs)) && NoDups(Buyers(rows))
    ensures forall b :: b in Buyers(rows) <==> b in Users(recs)
    ensures InFirstSeenOrder(Buyers(rows), Users(recs))
    ensures forall i :: 0 <= i < |rows| ==> rows[i].total == BuyerTotal(recs, rows[i].buyer)
    ensures recs == [] ==> rows == []
  {
    var t := Tally(recs);
    DedupFirstSeen(Users(recs));
    var rows := seq(|t.keys|, i requires 0 <= i < |t.keys| => AggregateRow(t.keys[i], t.entries[t.keys[i]]));
    assert Buyers(rows) == t.keys;
    rows
  }

  /**
   `aggregateByBuyer`: skip the preamble, hand the rest to the CSV parser
   (`parse`, a foreign library here given as a parameter) and group-sum.
   */
  function AggregateByBuyer(csvText: string, parse: string -> seq<Record>): (rows: seq<AggregateRow>)
    ensures var recs := parse(KeepFromHeader(csvText));
      && NoDups(Buyers(rows))
      && (forall b :: b in Buyers(rows) <==> b in Users(recs))
      && InFirstSeenOrder(Buyers(rows), Users(recs))
      && (forall i :: 0 <= i < |rows| ==> rows[i].total == BuyerTotal(recs, rows[i].buyer))
      && (recs == [] ==> rows == [])
  {
    SkipPreambleKeepsFromHeader(csvText);
    AggregateRecords(parse(SkipPreamble(csvText)))
  }

  /** Sum over a key list of the keys' reference totals. */
  function SumOver(keys: seq<string>, recs: seq<Record>): int
  {
    if keys == [] then 0 else SumOver(keys[..|keys| - 1], recs) + BuyerTotal(recs, keys[|keys| - 1])
  }

  lemma {:induction false} SumOverStep(keys: seq<string>, p: seq<Record>, r: Record)
    requires NoDups(keys)
    ensures SumOver(keys, p + [r]) == SumOver(keys, p) + (if r.userName in keys then Quantity(r) else 0)
  {
    var recs := p + [r];
    assert recs[..|recs| - 1] == p;
    if keys != [] {
      var ks := keys[..|keys| - 1];
      assert keys == ks + [keys[|keys| - 1]];
      SumOverStep(ks, p, r);
    }
  }

  lemma {:induction false} DedupSumIsGrandTotal(recs: seq<Record>)
    ensures SumOver(Dedup(Users(recs)), recs) == GrandTotal(recs)
  {
    if recs != [] {
      var p := recs[..|recs| - 1];
      var r := recs[|recs| - 1];
      assert recs == p + [r];
      assert Users(recs) == Users(p) + [r.userName];
      var ks := Dedup(Users(p));
      DedupSumIsGrandTotal(p);
      SumOverStep(ks, p, r);
      if r.userName !in ks {
        var ks' := ks + [r.userName];
        assert ks'[..|ks'| - 1] == ks;
        BuyerTotalAbsent(p, r.userName);
      }
    }
  }

  lemma {:induction false} SumTotalsIsSumOver(rows: seq<AggregateRow>, recs: seq<Record>)
    requires forall i :: 0 <= i < |rows| ==> rows[i].total == BuyerTotal(recs, rows[i].buyer)
    ensures SumTotals(rows) == SumOver(Buyers(rows), recs)
  {
    if rows != [] {
      var p := rows[..|rows| - 1];
      assert Buyers(p) == Buyers(rows)[..|rows| - 1];
      SumTotalsIsSumOver(p, recs);
    }
  }

  /** Sum conservation: the per-buyer totals add up to the sum over all records. */
  lemma AggregateConservesTotal(recs: seq<Record>)
    ensures SumTotals(AggregateRecords(recs)) == GrandTotal(recs)
  {
    var rows := AggregateRecords(recs);
    SumTotalsIsSumOver(rows, recs);
    assert Buyers(rows) == Dedup(Users(recs));
    DedupSumIsGrandTotal(recs);
  }
}
