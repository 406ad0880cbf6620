/** The RTP jitter/loss calculator (calc_rtp_stats.py): rows of RTP sequence
    number and relative arrival time, as exported from a packet capture, are
    cleaned, sorted by sequence number, and reduced to the jitter list, its
    mean, and the expected / received / lost packet counts. */
module RtpStats {
  import opened Wrappers
  import opened Arith

  /** A row of the capture table; either cell may be empty (NaN). */
  datatype Row = Row(seqNo: Option<int>, arrival: Option<real>)

  /** A row with both cells present: sequence number and arrival time (s). */
  datatype Sample = Sample(seqNo: int, arrival: real)

  predicate Complete(row: Row)
  {
    row.seqNo.Some? && row.arrival.Some?
  }

  function ToSample(row: Row): Sample
    requires Complete(row)
  {
    Sample(row.seqNo.value, row.arrival.value)
  }

  /** dropna over both columns: keeps the complete rows, in order. */
  function DropIncomplete(rows: seq<Row>): (r: seq<Sample>)
    ensures |r| <= |rows|
    ensures (forall i :: 0 <= i < |rows| ==> Complete(rows[i])) ==> |r| == |rows|
  {
    if rows == [] then []
    else
      var rest := DropIncomplete(rows[1..]);
      assert (forall i :: 0 <= i < |rows| ==> Complete(rows[i])) ==>
        (forall i :: 0 <= i < |rows[1..]| ==> Complete(rows[1..][i]));
      if Complete(rows[0]) then [ToSample(rows[0])] + rest else rest
  }

  /** The cleaned rows are exactly the complete rows of the table. */
  lemma {:induction false} DropIncompleteMembers(rows: seq<Row>)
    ensures forall x :: x in DropIncomplete(rows) <==>
      exists i :: 0 <= i < |rows| && Complete(rows[i]) && x == ToSample(rows[i])
  {
    if rows != [] {
      DropIncompleteMembers(rows[1..]);
      forall x ensures x in DropIncomplete(rows) <==>
        exists i :: 0 <= i < |rows| && Complete(rows[i]) && x == ToSample(rows[i])
      {
        if exists i :: 0 <= i < |rows| && Complete(rows[i]) && x == ToSample(rows[i]) {
          var i :| 0 <= i < |rows| && Complete(rows[i]) && x == ToSample(rows[i]);
          if i > 0 {
            assert rows[1..][i - 1] == rows[i];
          }
        }
        if x in DropIncomplete(rows[1..]) {
          var i :| 0 <= i < |rows[1..]| && Complete(rows[1..][i]) && x == ToSample(rows[1..][i]);
          assert rows[i + 1] == rows[1..][i];
        }
      }
    }
  }

  // ----- sorting by sequence number -----

  predicate SortedBySeq(s: seq<Sample>)
  {
    forall i, j :: 0 <= i < j < |s| ==> s[i].seqNo <= s[j].seqNo
  }

  lemma PrependSorted(y: Sample, t: seq<Sample>)
    requires SortedBySeq(t)
    requires forall j :: 0 <= j < |t| ==> y.seqNo <= t[j].seqNo
    ensures SortedBySeq([y] + t)
  {
    forall i, j | 0 <= i < j < |[y] + t| ensures ([y] + t)[i].seqNo <= ([y] + t)[j].seqNo {
      if i > 0 {
        assert ([y] + t)[i] == t[i - 1];
      }
      assert ([y] + t)[j] == t[j - 1];
    }
  }

  /** Places x after every element whose sequence number is not larger. */
  function Insert(x: Sample, s: seq<Sample>): seq<Sample>
    decreases |s|
  {
    if s == [] || x.seqNo < s[0].seqNo then [x] + s
    else [s[0]] + Insert(x, s[1..])
  }

  lemma {:induction false} InsertPermutes(x: Sample, s: seq<Sample>)
    ensures multiset(Insert(x, s)) == multiset(s) + multiset{x}
    decreases |s|
  {
    if s != [] && x.seqNo >= s[0].seqNo {
      InsertPermutes(x, s[1..]);
      assert s == [s[0]] + s[1..];
    }
  }

  lemma {:induction false} InsertSorted(x: Sample, s: seq<Sample>)
    requires SortedBySeq(s)
    ensures SortedBySeq(Insert(x, s))
    decreases |s|
  {
    if s == [] || x.seqNo < s[0].seqNo {
      PrependSorted(x, s);
    } else {
      var t := s[1..];
      var rest := Insert(x, t);
      assert SortedBySeq(t) by {
        forall i, j | 0 <= i < j < |t| ensures t[i].seqNo <= t[j].seqNo {
          assert t[i] == s[i + 1] && t[j] == s[j + 1];
        }
      }
      InsertSorted(x, t);
      InsertPermutes(x, t);
      forall j | 0 <= j < |rest| ensures s[0].seqNo <= rest[j].seqNo {
        assert rest[j] in multiset(rest);
        if rest[j] != x {
          assert rest[j] in multiset(t);
          var k :| 0 <= k < |t| && t[k] == rest[j];
          assert t[k] == s[k + 1];
        }
      }
      PrependSorted(s[0], rest);
    }
  }

  /** The table sorted on its sequence-number column: the rows reordered by
      ascending sequence number, each arrival time staying with its own
      sequence number. */
  function SortBySeq(s: seq<Sample>): (r: seq<Sample>)
    ensures SortedBySeq(r)
    ensures multiset(r) == multiset(s)
  {
    if s == [] then []
    else
      var init, last := s[..|s| - 1], s[|s| - 1];
      assert s == init + [last];
      InsertSorted(last, SortBySeq(init));
      InsertPermutes(last, SortBySeq(init));
      Insert(last, SortBySeq(init))
  }

  /** The sequence-number column; for rows sorted by sequence number it
      never decreases, so its first and last entries bound it. */
  function SeqNos(s: seq<Sample>): (r: seq<int>)
    ensures |r| == |s|
    ensures forall i :: 0 <= i < |s| ==> r[i] == s[i].seqNo
    ensures SortedBySeq(s) ==> forall i, j :: 0 <= i < j < |r| ==> r[i] <= r[j]
  {
    seq(|s|, i requires 0 <= i < |s| => s[i].seqNo)
  }

  /** The arrival-time column. */
  function Arrivals(s: seq<Sample>): seq<real>
  {
    seq(|s|, i requires 0 <= i < |s| => s[i].arrival)
  }

  // ----- jitter -----

  /** The absolute gap between each arrival and the one before it. */
  function Jitters(times: seq<real>): (r: seq<real>)
    ensures |r| == if |times| == 0 then 0 else |times| - 1
    ensures forall i :: 0 <= i < |r| ==> r[i] >= 0.0
    ensures forall i :: 0 <= i < |r| ==> r[i] == Abs(times[i + 1] - times[i])
    decreases |times|
  {
    if |times| < 2 then []
    else [Abs(times[1] - times[0])] + Jitters(times[1..])
  }

  /** Mean jitter: 0 with fewer than two arrivals, otherwise the mean of the
      gaps, which is never negative. */
  function AvgJitter(times: seq<real>): (r: real)
    ensures |times| < 2 ==> r == 0.0
    ensures |times| >= 2 ==> r * ((|times| - 1) as real) == Sum(Jitters(times))
    ensures r >= 0.0
  {
    Mean(Jitters(times))
  }

  // ----- loss -----

  datatype LossReport = LossReport(expected: int, received: nat, lost: int, lossPercent: real)

  /** Lines 23-26 over the sorted sequence numbers; None where `seqs[-1]`
      raises IndexError on an empty list. */
  function LossOf(seqs: seq<int>): (r: Option<LossReport>)
    ensures r.None? <==> seqs == []
    ensures r.Some? ==> r.value.expected == seqs[|seqs| - 1] - seqs[0] + 1
    ensures r.Some? ==> r.value.received == |seqs|
    ensures r.Some? ==> r.value.lost + r.value.received == r.value.expected
    ensures r.Some? && r.value.expected == 0 ==> r.value.lossPercent == 0.0
    ensures r.Some? && r.value.expected != 0 ==>
      r.value.lossPercent * (r.value.expected as real) == 100.0 * (r.value.lost as real)
  {
    if seqs == [] then None
    else
      var expected := seqs[|seqs| - 1] - seqs[0] + 1;
      var received := |seqs|;
      var lost := expected - received;
      var lossPercent := if expected != 0 then (lost as real / expected as real) * 100.0 else 0.0;
      Some(LossReport(expected, received, lost, lossPercent))
  }

  // ----- the whole script -----

  lemma {:induction false} NoSampleMeansNoCompleteRow(rows: seq<Row>)
    ensures DropIncomplete(rows) == [] <==> forall i :: 0 <= i < |rows| ==> !Complete(rows[i])
  {
    if rows != [] {
      NoSampleMeansNoCompleteRow(rows[1..]);
      assert forall i :: 1 <= i < |rows| ==> rows[i] == rows[1..][i - 1];
    }
  }

  datatype RtpReport = RtpReport(jitters: seq<real>, avgJitter: real, loss: LossReport)

  /** The capture held no complete row, so `seqs[-1]` raises IndexError. */
  datatype RtpError = EmptyCapture

  /** Clean, sort, then derive jitter and loss (calc_rtp_stats.py:7-26). */
  function Analyze(rows: seq<Row>): (r: Result<RtpReport, RtpError>)
    ensures r.Failure? <==> forall i :: 0 <= i < |rows| ==> !Complete(rows[i])
    ensures r.Success? ==> r.value.loss.received == |DropIncomplete(rows)|
    ensures r.Success? ==> r.value.loss.lost + r.value.loss.received == r.value.loss.expected
    ensures r.Success? ==> |r.value.jitters| == r.value.loss.received - 1
    ensures r.Success? ==> r.value.avgJitter >= 0.0
    ensures r.Success? && r.value.loss.received < 2 ==> r.value.avgJitter == 0.0
  {
    var samples := DropIncomplete(rows);
    var sorted := SortBySeq(samples);
    assert |sorted| == |samples| by {
      assert |multiset(sorted)| == |multiset(samples)|;
    }
    assert samples == [] <==> forall i :: 0 <= i < |rows| ==> !Complete(rows[i]) by {
      NoSampleMeansNoCompleteRow(rows);
    }
    var times := Arrivals(sorted);
    var jitters := Jitters(times);
    var avg := AvgJitter(times);
    match LossOf(SeqNos(sorted))
    case None => Failure(EmptyCapture)
    case Some(loss) => Success(RtpReport(jitters, avg, loss))
  }

  // ----- properties -----

  /** The row filter looks at each row on its own: an incomplete row anywhere
      in the table leaves the cleaned rows unchanged. */
  lemma {:induction false} DropIncompleteSkips(a: seq<Row>, row: Row, b: seq<Row>)
    requires !Complete(row)
    ensures DropIncomplete(a + [row] + b) == DropIncomplete(a + b)
    decreases |a|
  {
    if a == [] {
      calc {
        DropIncomplete(a + [row] + b);
        { assert a + [row] + b == [row] + b; }
        DropIncomplete([row] + b);
        { assert ([row] + b)[1..] == b; }
        DropIncomplete(b);
        { assert a + b == b; }
        DropIncomplete(a + b);
      }
    } else {
      DropIncompleteSkips(a[1..], row, b);
      assert (a + [row] + b)[1..] == a[1..] + [row] + b;
      assert (a + b)[1..] == a[1..] + b;
    }
  }

  /** Rows missing a sequence number or an arrival time take no part in any
      figure the calculator derives. */
  lemma IncompleteRowIgnored(a: seq<Row>, row: Row, b: seq<Row>)
    requires !Complete(row)
    ensures Analyze(a + [row] + b) == Analyze(a + b)
  {
    DropIncompleteSkips(a, row, b);
  }

  /** Smallest sequence number among the samples. */
  function MinSeq(s: seq<Sample>): (r: int)
    requires s != []
    ensures exists i :: 0 <= i < |s| && s[i].seqNo == r
    ensures forall i :: 0 <= i < |s| ==> r <= s[i].seqNo
  {
    if |s| == 1 then s[0].seqNo
    else
      var m := MinSeq(s[1..]);
      assert forall i :: 1 <= i < |s| ==> s[i] == s[1..][i - 1];
      if s[0].seqNo <= m then s[0].seqNo else m
  }

  /** Largest sequence number among the samples. */
  function MaxSeq(s: seq<Sample>): (r: int)
    requires s != []
    ensures exists i :: 0 <= i < |s| && s[i].seqNo == r
    ensures forall i :: 0 <= i < |s| ==> s[i].seqNo <= r
  {
    if |s| == 1 then s[0].seqNo
    else
      var m := MaxSeq(s[1..]);
      assert forall i :: 1 <= i < |s| ==> s[i] == s[1..][i - 1];
      if s[0].seqNo >= m then s[0].seqNo else m
  }

  lemma SortedEnds(s: seq<Sample>)
    requires SortedBySeq(s) && s != []
    ensures s[0].seqNo == MinSeq(s) && s[|s| - 1].seqNo == MaxSeq(s)
  {
    SortedFirstIsMin(s);
    SortedLastIsMax(s);
  }

  lemma SortedFirstIsMin(s: seq<Sample>)
    requires SortedBySeq(s) && s != []
    ensures s[0].seqNo == MinSeq(s)
  {
    var i :| 0 <= i < |s| && s[i].seqNo == MinSeq(s);
    if i > 0 {
      assert s[0].seqNo <= s[i].seqNo;
    }
  }

  lemma SortedLastIsMax(s: seq<Sample>)
    requires SortedBySeq(s) && s != []
    ensures s[|s| - 1].seqNo == MaxSeq(s)
  {
    var j :| 0 <= j < |s| && s[j].seqNo == MaxSeq(s);
    if j < |s| - 1 {
      assert s[j].seqNo <= s[|s| - 1].seqNo;
    }
  }

  lemma MinMaxWithin(u: seq<Sample>, v: seq<Sample>)
    requires u != [] && multiset(u) <= multiset(v)
    ensures v != [] && MinSeq(v) <= MinSeq(u) && MaxSeq(u) <= MaxSeq(v)
  {
    assert u[0] in multiset(v);
    var i :| 0 <= i < |u| && u[i].seqNo == MinSeq(u);
    var j :| 0 <= j < |u| && u[j].seqNo == MaxSeq(u);
    assert u[i] in multiset(u) && u[j] in multiset(u);
    assert u[i] in multiset(v) && u[j] in multiset(v);
    var i' :| 0 <= i' < |v| && v[i'] == u[i];
    var j' :| 0 <= j' < |v| && v[j'] == u[j];
  }

  lemma MinMaxOfPermutation(s: seq<Sample>, t: seq<Sample>)
    requires s != [] && multiset(s) == multiset(t)
    ensures t != []
    ensures MinSeq(s) == MinSeq(t) && MaxSeq(s) == MaxSeq(t)
  {
    MinMaxWithin(s, t);
    MinMaxWithin(t, s);
  }

  /** expected = last - first + 1 after the sort is the span of the sequence
      numbers seen, max - min + 1, hence at least 1. */
  lemma ExpectedIsSpan(rows: seq<Row>)
    requires Analyze(rows).Success?
    ensures DropIncomplete(rows) != []
    ensures Analyze(rows).value.loss.expected
         == MaxSeq(DropIncomplete(rows)) - MinSeq(DropIncomplete(rows)) + 1
    ensures Analyze(rows).value.loss.expected >= 1
  {
    var samples := DropIncomplete(rows);
    var sorted := SortBySeq(samples);
    NoSampleMeansNoCompleteRow(rows);
    assert |sorted| == |samples| by {
      assert |multiset(sorted)| == |multiset(samples)|;
    }
    SortedEnds(sorted);
    MinMaxOfPermutation(sorted, samples);
  }

  /** LossOf looks only at the first and last entries and the length. */
  lemma LossOfEnds(a: seq<int>, b: seq<int>)
    requires |a| == |b| && a != [] && a[0] == b[0] && a[|a| - 1] == b[|b| - 1]
    ensures LossOf(a) == LossOf(b)
  {
  }

  /** pandas' default sort does not promise an order among rows with equal
      sequence numbers; the loss figures are the same for every ordering
      that a sort may produce. */
  lemma LossIndependentOfTieOrder(rows: seq<Row>, other: seq<Sample>)
    requires Analyze(rows).Success?
    requires SortedBySeq(other) && multiset(other) == multiset(DropIncomplete(rows))
    ensures LossOf(SeqNos(other)) == Some(Analyze(rows).value.loss)
  {
    var samples := DropIncomplete(rows);
    var sorted := SortBySeq(samples);
    NoSampleMeansNoCompleteRow(rows);
    assert |sorted| == |samples| == |other| by {
      assert |multiset(sorted)| == |multiset(samples)| == |multiset(other)|;
    }
    MinMaxOfPermutation(samples, other);
    MinMaxOfPermutation(samples, sorted);
    SortedEnds(other);
    SortedEnds(sorted);
    LossOfEnds(SeqNos(other), SeqNos(sorted));
  }

  predicate DistinctSeqNos(s: seq<Sample>)
  {
    forall i, j :: 0 <= i < j < |s| ==> s[i].seqNo != s[j].seqNo
  }

  /** The set of sequence numbers seen; as many as rows when none repeats. */
  function SeqNoSet(s: seq<Sample>): (r: set<int>)
    ensures forall i :: 0 <= i < |s| ==> s[i].seqNo in r
    ensures forall k :: k in r ==> exists i :: 0 <= i < |s| && s[i].seqNo == k
  {
    if s == [] then {}
    else
      var init := s[..|s| - 1];
      assert forall i :: 0 <= i < |init| ==> init[i] == s[i];
      SeqNoSet(init) + {s[|s| - 1].seqNo}
  }

  lemma {:induction false} SeqNoSetCard(s: seq<Sample>)
    requires DistinctSeqNos(s)
    ensures |SeqNoSet(s)| == |s|
  {
    if s != [] {
      var init := s[..|s| - 1];
      assert DistinctSeqNos(init) by {
        assert forall i :: 0 <= i < |init| ==> init[i] == s[i];
      }
      SeqNoSetCard(init);
      assert forall i :: 0 <= i < |init| ==> init[i].seqNo != s[|s| - 1].seqNo by {
        assert forall i :: 0 <= i < |init| ==> init[i] == s[i];
      }
    }
  }

  /** The integers lo..hi. */
  function IntRange(lo: int, hi: int): (r: set<int>)
    ensures forall k :: k in r <==> lo <= k <= hi
    ensures lo <= hi + 1 ==> |r| == hi - lo + 1
    decreases hi - lo
  {
    if hi < lo then {} else IntRange(lo, hi - 1) + {hi}
  }

  /** Whenever lost is between 0 and expected - 1, the percentage is in [0, 100). */
  lemma LossPercentBounds(seqs: seq<int>)
    requires LossOf(seqs).Some?
    requires 0 <= LossOf(seqs).value.lost < LossOf(seqs).value.expected
    ensures 0.0 <= LossOf(seqs).value.lossPercent < 100.0
  {
    var loss := LossOf(seqs).value;
    var e, l := loss.expected as real, loss.lost as real;
    assert 0.0 <= l < e;
    assert loss.lossPercent * e == 100.0 * l;
  }

  lemma SubsetCard(a: set<int>, b: set<int>)
    requires a <= b
    ensures |a| <= |b|
  {
    assert b == a + (b - a);
  }

  /** Distinct sequence numbers cannot outnumber the span they lie in. */
  lemma DistinctWithinSpan(s: seq<Sample>)
    requires s != [] && DistinctSeqNos(s)
    ensures |s| <= MaxSeq(s) - MinSeq(s) + 1
  {
    var seen := SeqNoSet(s);
    var lo, hi := MinSeq(s), MaxSeq(s);
    var span := IntRange(lo, hi);
    SeqNoSetCard(s);
    assert |span| == hi - lo + 1;
    assert seen <= span by {
      forall k | k in seen ensures k in span {
        var i :| 0 <= i < |s| && s[i].seqNo == k;
        assert lo <= k <= hi;
      }
    }
    SubsetCard(seen, span);
  }

  /** With no duplicated sequence number, nothing is lost below zero and the
      loss percentage lies in [0, 100). */
  lemma DistinctLossBounds(rows: seq<Row>)
    requires Analyze(rows).Success?
    requires DistinctSeqNos(DropIncomplete(rows))
    ensures Analyze(rows).value.loss.lost >= 0
    ensures 0.0 <= Analyze(rows).value.loss.lossPercent < 100.0
  {
    var samples := DropIncomplete(rows);
    var sorted := SortBySeq(samples);
    ExpectedIsSpan(rows);
    DistinctWithinSpan(samples);
    NoSampleMeansNoCompleteRow(rows);
    LossPercentBounds(SeqNos(sorted));
  }

  /** Inserting a sample whose sequence number is not below any present
      appends it. */
  lemma {:induction false} InsertAtEnd(x: Sample, s: seq<Sample>)
    requires forall j :: 0 <= j < |s| ==> s[j].seqNo <= x.seqNo
    ensures Insert(x, s) == s + [x]
    decreases |s|
  {
    if s != [] {
      var t := s[1..];
      assert forall j :: 0 <= j < |t| ==> t[j] == s[j + 1];
      InsertAtEnd(x, t);
      assert s == [s[0]] + t;
    }
  }

  /** The sort leaves an already sorted table as it is, and is therefore
      idempotent. */
  lemma {:induction false} SortSortedIdentity(s: seq<Sample>)
    requires SortedBySeq(s)
    ensures SortBySeq(s) == s
  {
    if s != [] {
      var init := s[..|s| - 1];
      assert SortedBySeq(init) by {
        assert forall i :: 0 <= i < |init| ==> init[i] == s[i];
      }
      SortSortedIdentity(init);
      InsertAtEnd(s[|s| - 1], init);
      assert init + [s[|s| - 1]] == s;
    }
  }

  lemma SortIdempotent(s: seq<Sample>)
    ensures SortBySeq(SortBySeq(s)) == SortBySeq(s)
  {
    SortSortedIdentity(SortBySeq(s));
  }

  /** A capture already in sequence-number order is analysed in the order
      it was captured. */
  lemma InOrderCapture(rows: seq<Row>, samples: seq<Sample>)
    requires DropIncomplete(rows) == samples && samples != [] && SortedBySeq(samples)
    ensures Analyze(rows).Success?
    ensures Analyze(rows).value.jitters == Jitters(Arrivals(samples))
    ensures Analyze(rows).value.loss == LossOf(SeqNos(samples)).value
  {
    SortSortedIdentity(samples);
  }

  lemma TwoCompleteRows(n0: int, n1: int, t0: real, t1: real)
    ensures DropIncomplete([Row(Some(n0), Some(t0)), Row(Some(n1), Some(t1))])
         == [Sample(n0, t0), Sample(n1, t1)]
  {
    var rows := [Row(Some(n0), Some(t0)), Row(Some(n1), Some(t1))];
    assert rows[1..][1..] == [];
    assert DropIncomplete(rows[1..]) == [Sample(n1, t1)];
  }

  /** A duplicated packet is counted twice: two rows of sequence number 100
      give expected 1, received 2, lost -1 and a loss of -100 percent. */
  lemma DuplicateRowsGiveNegativeLoss(t0: real, t1: real)
    ensures var r := Analyze([Row(Some(100), Some(t0)), Row(Some(100), Some(t1))]);
      r.Success? && r.value.loss == LossReport(1, 2, -1, -100.0)
  {
    var rows := [Row(Some(100), Some(t0)), Row(Some(100), Some(t1))];
    var samples := [Sample(100, t0), Sample(100, t1)];
    TwoCompleteRows(100, 100, t0, t1);
    InOrderCapture(rows, samples);
    LossOfEnds(SeqNos(samples), [100, 100]);
    DuplicateLossOf();
  }

  lemma DuplicateLossOf()
    ensures LossOf([100, 100]) == Some(LossReport(1, 2, -1, -100.0))
  {
    var l := LossOf([100, 100]).value;
    assert l.expected == 1 && l.received == 2 && l.lost == -1;
  }

  lemma WorkedDropExample(t0: real, t1: real, t2: real)
    ensures DropIncomplete([Row(Some(100), Some(t0)), Row(None, Some(t1)), Row(Some(103), Some(t2))])
         == [Sample(100, t0), Sample(103, t2)]
  {
    var rows := [Row(Some(100), Some(t0)), Row(None, Some(t1)), Row(Some(103), Some(t2))];
    assert rows[1..][1..] == [Row(Some(103), Some(t2))];
    assert rows[1..][1..][1..] == [];
    assert DropIncomplete(rows[1..][1..]) == [Sample(103, t2)];
  }

  /** Sequence numbers 100, 101, 103: expected 4, received 3, lost 1, 25%. */
  lemma WorkedLossOf()
    ensures LossOf([100, 101, 103]) == Some(LossReport(4, 3, 1, 25.0))
  {
    var l := LossOf([100, 101, 103]).value;
    assert l.expected == 4 && l.received == 3 && l.lost == 1;
  }

  lemma WorkedCleanRows(t0: real, t1: real, t2: real)
    ensures DropIncomplete([Row(Some(100), Some(t0)), Row(Some(101), Some(t1)), Row(Some(103), Some(t2))])
         == [Sample(100, t0), Sample(101, t1), Sample(103, t2)]
  {
    var rows := [Row(Some(100), Some(t0)), Row(Some(101), Some(t1)), Row(Some(103), Some(t2))];
    var samples := [Sample(100, t0), Sample(101, t1), Sample(103, t2)];
    assert rows[1..][1..] == [rows[2]] && rows[1..][1..][1..] == [];
    assert DropIncomplete(rows[1..][1..]) == [samples[2]];
    assert DropIncomplete(rows[1..]) == samples[1..];
  }

  /** Packets 100, 101 and 103 arriving in order: one packet (102) is lost,
      25 percent of the four expected. */
  lemma WorkedLossExample(t0: real, t1: real, t2: real)
    ensures var r := Analyze([Row(Some(100), Some(t0)), Row(Some(101), Some(t1)), Row(Some(103), Some(t2))]);
      r.Success? && r.value.loss == LossReport(4, 3, 1, 25.0)
  {
    var rows := [Row(Some(100), Some(t0)), Row(Some(101), Some(t1)), Row(Some(103), Some(t2))];
    var samples := [Sample(100, t0), Sample(101, t1), Sample(103, t2)];
    WorkedCleanRows(t0, t1, t2);
    InOrderCapture(rows, samples);
    LossOfEnds(SeqNos(samples), [100, 101, 103]);
    WorkedLossOf();
  }

  /** Arrivals 0.0, 0.01, 0.03: gaps 0.01 and 0.02, mean 0.015. */
  lemma WorkedJitterExample()
    ensures Jitters([0.0, 0.01, 0.03]) == [0.01, 0.02]
    ensures AvgJitter([0.0, 0.01, 0.03]) == 0.015
  {
    var g := [0.01, 0.02];
    assert Jitters([0.0, 0.01, 0.03]) == g;
    assert g[..1] == [0.01];
    assert [0.01][..0] == [];
    assert Sum(g) == 0.03;
  }
}
