/** The result plotter (plot_qos_results.py): the ffmpeg bitrate and iperf
    throughput extractors, and the loop that reduces the logs of techniques
    0..4 to one mean bitrate and one summed throughput per technique. */
module QosResults {
  import opened Wrappers
  import opened Arith
  import opened LogPatterns

  /** Why the script stops: a log file that does not exist (FileNotFoundError
      from open) or a throughput token float() rejects (ValueError). */
  datatype LogFile = FfmpegLog | IperfLog(index: nat)
  datatype ScrapeError = MissingLog(technique: nat, file: LogFile) | MalformedNumber(token: string)

  // ----- extrair_bitrate_ffmpeg -----

  /** What one ffmpeg log line adds to `bitrates`: the first bitrate match
      through float(), or nothing when there is no match or float() raises.
      A line gives a value exactly when it matches and its token is a
      number float() accepts, and the value is never negative. */
  function LineBitrate(line: string): (r: Option<real>)
    ensures r.Some? <==> Search(BitratePattern, line).Some? && IsFloatToken(Search(BitratePattern, line).value)
    ensures r.Some? ==> r.value >= 0.0
  {
    match Search(BitratePattern, line)
    case None => None
    case Some(token) =>
      ParseDecimalAccepts(token);
      ParseDecimal(token)
  }

  /** The values f gives for the lines, in order, skipping the lines for
      which it gives none. */
  function Collect(f: string -> Option<real>, lines: seq<string>): (r: seq<real>)
    ensures |r| <= |lines|
  {
    if lines == [] then []
    else
      var init := Collect(f, lines[..|lines| - 1]);
      match f(lines[|lines| - 1])
      case None => init
      case Some(v) => init + [v]
  }

  lemma {:induction false} CollectAppend(f: string -> Option<real>, a: seq<string>, b: seq<string>)
    ensures Collect(f, a + b) == Collect(f, a) + Collect(f, b)
    decreases |b|
  {
    if b == [] {
      assert a + b == a;
    } else {
      var b' := b[..|b| - 1];
      CollectAppend(f, a, b');
      assert (a + b)[..|a + b| - 1] == a + b';
      assert (a + b)[|a + b| - 1] == b[|b| - 1];
    }
  }

  /** The `bitrates` list once every line has been read. */
  function BitrateSamples(lines: seq<string>): (r: seq<real>)
    ensures |r| <= |lines|
  {
    Collect(LineBitrate, lines)
  }

  /** Every sample, and hence the mean bitrate, is at least 0. */
  lemma {:induction false} BitrateSamplesNonNegative(lines: seq<string>)
    ensures forall i :: 0 <= i < |BitrateSamples(lines)| ==> BitrateSamples(lines)[i] >= 0.0
    ensures Mean(BitrateSamples(lines)) >= 0.0
  {
    if lines != [] {
      BitrateSamplesNonNegative(lines[..|lines| - 1]);
    }
  }

  method ExtractBitrate(lines: seq<string>) returns (avg: real)
    ensures avg == Mean(BitrateSamples(lines))
  {
    var bitrates: seq<real> := [];
    for i := 0 to |lines|
      invariant bitrates == BitrateSamples(lines[..i])
    {
      assert lines[..i + 1][..i] == lines[..i];
      var m := Search(BitratePattern, lines[i]);
      if m.Some? {
        var bitrate := ParseDecimal(m.value);
        if bitrate.None? {
          continue;
        }
        bitrates := bitrates + [bitrate.value];
      }
    }
    assert lines[..|lines|] == lines;
    avg := if bitrates != [] then Sum(bitrates) / (|bitrates| as real) else 0.0;
  }

  /** Each line contributes on its own: the samples of a log are the samples
      of its first part followed by those of the rest. */
  lemma BitrateSamplesAppend(a: seq<string>, b: seq<string>)
    ensures BitrateSamples(a + b) == BitrateSamples(a) + BitrateSamples(b)
  {
    CollectAppend(LineBitrate, a, b);
  }

  /** A single line contributes its LineBitrate value, or nothing. */
  lemma SingleLineSamples(line: string)
    ensures BitrateSamples([line]) == match LineBitrate(line) case Some(v) => [v] case None => []
  {
    assert [line][..0] == [];
  }

  /** No line yields a value, so the extractor returns 0. */
  lemma {:induction false} NoBitrateGivesZero(lines: seq<string>)
    requires forall i :: 0 <= i < |lines| ==> LineBitrate(lines[i]).None?
    ensures BitrateSamples(lines) == []
    ensures Mean(BitrateSamples(lines)) == 0.0
  {
    if lines != [] {
      var init := lines[..|lines| - 1];
      assert forall i :: 0 <= i < |init| ==> init[i] == lines[i];
      NoBitrateGivesZero(init);
    }
  }

  /** The line "bitrate= 1.2.3kbits" matches the pattern, but float()
      rejects its token, so it adds no sample. */
  lemma MalformedBitrateToken()
    ensures LineBitrate("bitrate= " + "1.2.3" + "kbits") == None
  {
    assert "" + "bitrate= " + "1.2.3" + "kbits" + "" == "bitrate= " + "1.2.3" + "kbits";
    BitrateLine("", "1.2.3", "");
    FloatRejects();
  }

  /** A line whose token float() rejects, such as "bitrate=1.2.3kbits",
      adds nothing to the sum or the count and raises nothing. */
  lemma MalformedBitrateSkipped(lines: seq<string>, line: string)
    requires Search(BitratePattern, line).Some?
    requires ParseDecimal(Search(BitratePattern, line).value).None?
    ensures BitrateSamples(lines + [line]) == BitrateSamples(lines)
  {
    assert (lines + [line])[..|lines|] == lines;
  }

  /** The text an ffmpeg progress line carries before its bitrate field. */
  const ProgressHead := "q=28.0 size=  64kB "
  /** ... and after it. */
  const ProgressTail := "/s speed=1x"

  lemma ProgressHeadFree()
    ensures !Contains(ProgressHead, "bitrate=")
  {
    AbsentFirstChar(ProgressHead, "bitrate=");
  }

  lemma Bitrate512Line()
    ensures LineBitrate(ProgressHead + "bitrate= " + "512.3" + "kbits" + ProgressTail) == Some(512.3)
  {
    ProgressHeadFree();
    BitrateLine(ProgressHead, "512.3", ProgressTail);
    FloatOf512Point3();
  }

  lemma Bitrate600Line()
    ensures LineBitrate(ProgressHead + "bitrate= " + "600.0" + "kbits" + ProgressTail) == Some(600.0)
  {
    ProgressHeadFree();
    BitrateLine(ProgressHead, "600.0", ProgressTail);
    FloatOf600Point0();
  }

  lemma WorkedBitrateSamples()
    ensures BitrateSamples([ProgressHead + "bitrate= " + "512.3" + "kbits" + ProgressTail,
                            ProgressHead + "bitrate= " + "600.0" + "kbits" + ProgressTail])
         == [512.3, 600.0]
  {
    var l1 := ProgressHead + "bitrate= " + "512.3" + "kbits" + ProgressTail;
    var l2 := ProgressHead + "bitrate= " + "600.0" + "kbits" + ProgressTail;
    Bitrate512Line();
    Bitrate600Line();
    TwoLineSamples(l1, l2, 512.3, 600.0);
  }

  lemma TwoLineSamples(l1: string, l2: string, v1: real, v2: real)
    requires LineBitrate(l1) == Some(v1) && LineBitrate(l2) == Some(v2)
    ensures BitrateSamples([l1, l2]) == [v1, v2]
  {
    SingleLineSamples(l1);
    SingleLineSamples(l2);
    BitrateSamplesAppend([l1], [l2]);
    assert [l1] + [l2] == [l1, l2];
  }

  lemma WorkedMean()
    ensures Mean([512.3, 600.0]) == 556.15
  {
    assert [512.3, 600.0][..1] == [512.3];
    assert [512.3][..0] == [];
    assert Sum([512.3, 600.0]) == 1112.3;
  }

  /** Progress lines "q=28.0 size=  64kB bitrate= 512.3kbits/s speed=1x" and
      the same with 600.0 average 556.15. */
  lemma WorkedBitrateExample()
    ensures Mean(BitrateSamples([ProgressHead + "bitrate= " + "512.3" + "kbits" + ProgressTail,
                                 ProgressHead + "bitrate= " + "600.0" + "kbits" + ProgressTail]))
         == 556.15
  {
    WorkedBitrateSamples();
    WorkedMean();
  }

  lemma FloatOf600Point0()
    ensures ParseDecimal("600.0") == Some(600.0)
  {
    assert DotIndex("600.0") == 3 by {
      assert "600.0"[1..] == "00.0";
      assert "00.0"[1..] == "0.0";
      assert "0.0"[1..] == ".0";
    }
    assert "600.0"[..3] == "600";
    assert "600"[..2] == "60";
    assert "60"[..1] == "6";
    assert DigitsValue("600") == 600;
    assert "600.0"[4..] == "0";
    assert DigitsValue("0") == 0;
  }

  // ----- extrair_vazao_iperf -----

  /** A line the throughput scan stops at: no "Server Report", and a match. */
  predicate Qualifies(line: string)
  {
    !Contains(line, "Server Report") && Search(ThroughputPattern, line).Some?
  }

  /** float() of the token captured on a qualifying line: a value that is
      never negative, or ValueError naming the captured token exactly when
      float() rejects it. */
  function LineThroughput(line: string): (r: Result<real, ScrapeError>)
    requires Qualifies(line)
    ensures r.Success? ==> r.value >= 0.0
    ensures r.Failure? <==> !IsFloatToken(Search(ThroughputPattern, line).value)
    ensures r.Failure? ==> r.error == MalformedNumber(Search(ThroughputPattern, line).value)
  {
    var token := Search(ThroughputPattern, line).value;
    ParseDecimalAccepts(token);
    match ParseDecimal(token)
    case Some(v) => Success(v)
    case None => Failure(MalformedNumber(token))
  }

  /** What the throughput extractor returns, or the ValueError it raises:
      a value that is never negative, or a token float() rejects. */
  function FirstThroughput(lines: seq<string>): (r: Result<real, ScrapeError>)
    ensures r.Success? ==> r.value >= 0.0
    ensures r.Failure? ==> r.error.MalformedNumber? && !IsFloatToken(r.error.token)
  {
    if lines == [] then Success(0.0)
    else if Qualifies(lines[0]) then LineThroughput(lines[0])
    else FirstThroughput(lines[1..])
  }

  method ExtractThroughput(lines: seq<string>) returns (r: Result<real, ScrapeError>)
    ensures r == FirstThroughput(lines)
  {
    for i := 0 to |lines|
      invariant FirstThroughput(lines) == FirstThroughput(lines[i..])
    {
      assert lines[i..][1..] == lines[i + 1..];
      if Contains(lines[i], "Server Report") {
        continue;
      }
      var m := Search(ThroughputPattern, lines[i]);
      if m.Some? {
        var v := ParseDecimal(m.value);
        if v.None? {
          return Failure(MalformedNumber(m.value));
        }
        return Success(v.value);
      }
    }
    return Success(0.0);
  }

  /** The first qualifying line decides the result. */
  lemma {:induction false} FirstQualifyingLineDecides(lines: seq<string>, k: nat)
    requires k < |lines| && Qualifies(lines[k])
    requires forall i :: 0 <= i < k ==> !Qualifies(lines[i])
    ensures FirstThroughput(lines) == LineThroughput(lines[k])
  {
    if k > 0 {
      assert forall i :: 0 <= i < k - 1 ==> lines[1..][i] == lines[i + 1];
      FirstQualifyingLineDecides(lines[1..], k - 1);
    }
  }

  /** With no qualifying line the extractor returns 0. */
  lemma {:induction false} NoQualifyingLineGivesZero(lines: seq<string>)
    requires forall i :: 0 <= i < |lines| ==> !Qualifies(lines[i])
    ensures FirstThroughput(lines) == Success(0.0)
  {
    if lines != [] {
      assert forall i :: 0 <= i < |lines| - 1 ==> lines[1..][i] == lines[i + 1];
      NoQualifyingLineGivesZero(lines[1..]);
    }
  }

  /** Once a line qualifies, nothing after it can change the result. */
  lemma {:induction false} LaterLinesIgnored(lines: seq<string>, more: seq<string>, k: nat)
    requires k < |lines| && Qualifies(lines[k])
    ensures FirstThroughput(lines + more) == FirstThroughput(lines)
  {
    if !Qualifies(lines[0]) {
      assert (lines + more)[1..] == lines[1..] + more;
      LaterLinesIgnored(lines[1..], more, k - 1);
    }
  }

  /** A "Server Report" line is skipped wherever it stands, even when it
      carries a Mbits/sec figure. */
  lemma {:induction false} ServerReportIgnored(a: seq<string>, report: string, b: seq<string>)
    requires Contains(report, "Server Report")
    ensures FirstThroughput(a + [report] + b) == FirstThroughput(a + b)
    decreases |a|
  {
    if a == [] {
      assert a + [report] + b == [report] + b;
      assert ([report] + b)[1..] == b;
      assert a + b == b;
    } else if !Qualifies(a[0]) {
      ServerReportIgnored(a[1..], report, b);
      assert (a + [report] + b)[1..] == a[1..] + [report] + b;
      assert (a + b)[1..] == a[1..] + b;
    }
  }

  /** The iperf client format: a line such as
      "[  3]  0.0-20.0 sec  12.5 MBytes  5.20 Mbits/sec", that is text free of
      'S' and of "Mbits/sec" and not ending in a digit or dot, then
      "<number> Mbits/sec", then text free of 'S', qualifies and yields the
      number. */
  lemma ThroughputLine(pre: string, num: string, rest: string)
    requires !Contains(pre, "Mbits/sec") && (pre == [] || !IsNumChar(pre[|pre| - 1]))
    requires NoCapitalS(pre) && NoCapitalS(rest)
    requires AllNumChars(num) && num != []
    ensures Qualifies(pre + num + " Mbits/sec" + rest)
    ensures Search(ThroughputPattern, pre + num + " Mbits/sec" + rest) == Some(num)
  {
    var line := pre + num + " Mbits/sec" + rest;
    assert pre + num + " " + "Mbits/sec" + rest == line;
    ThroughputWithSpace(pre, num, " ", rest);
    NoServerReport(pre, num, rest);
  }

  predicate NoCapitalS(s: string)
  {
    forall k :: 0 <= k < |s| ==> s[k] != 'S'
  }

  lemma NoServerReport(pre: string, num: string, rest: string)
    requires NoCapitalS(pre) && NoCapitalS(rest) && AllNumChars(num)
    ensures !Contains(pre + num + " Mbits/sec" + rest, "Server Report")
  {
    var line := pre + num + " Mbits/sec" + rest;
    var a, b := |pre|, |pre| + |num|;
    forall k | 0 <= k < |line| ensures line[k] != 'S' {
      if k < a {
        assert line[k] == pre[k];
      } else if k < b {
        assert line[k] == num[k - a];
      } else if k < b + 10 {
        assert line[k] == " Mbits/sec"[k - b];
      } else {
        assert line[k] == rest[k - b - 10];
      }
    }
    AbsentFirstChar(line, "Server Report");
  }

  lemma FloatOf5Point20()
    ensures ParseDecimal("5.20") == Some(5.2)
  {
    assert DotIndex("5.20") == 1;
    assert "5.20"[..1] == "5";
    assert "5.20"[2..] == "20";
    assert "20"[..1] == "2";
    assert DigitsValue("20") == 20;
  }

  /** The text an iperf client report line carries before its figure. */
  const IntervalHead := "[  3]  0.0-20.0 sec  "

  lemma IntervalHeadFree()
    ensures !Contains(IntervalHead, "Mbits/sec") && NoCapitalS(IntervalHead) && NoCapitalS("")
    ensures !IsNumChar(IntervalHead[|IntervalHead| - 1])
  {
    AbsentFirstChar(IntervalHead, "Mbits/sec");
  }

  /** With the unit glued to the figure, "[  3]  0.0-20.0 sec  5.20Mbits/sec"
      yields no throughput. */
  lemma GluedClientLine()
    ensures Search(ThroughputPattern, IntervalHead + "5.20" + "Mbits/sec") == None
  {
    assert forall x :: 0 <= x < |IntervalHead| ==> IntervalHead[x] != 'M';
    GluedUnitNotMatched(IntervalHead, "5.20");
  }

  /** The client line "[  3]  0.0-20.0 sec  5.20 Mbits/sec" is taken and the
      "Server Report 9.99 Mbits/sec" line before it is ignored, though it
      carries a figure too. */
  lemma ReportLineExample()
    ensures FirstThroughput(["Server Report" + " 9.99 Mbits/sec", IntervalHead + "5.20" + " Mbits/sec" + ""])
         == Success(5.2)
  {
    var report, line := "Server Report" + " 9.99 Mbits/sec", IntervalHead + "5.20" + " Mbits/sec" + "";
    ContainsPrefix("Server Report", " 9.99 Mbits/sec");
    ClientLineExample();
    ServerReportIgnored([], report, [line]);
    assert [] + [report] + [line] == [report, line];
    assert [] + [line] == [line];
  }

  lemma ClientLineExample()
    ensures FirstThroughput([IntervalHead + "5.20" + " Mbits/sec" + ""]) == Success(5.2)
  {
    IntervalHeadFree();
    ThroughputLine(IntervalHead, "5.20", "");
    FloatOf5Point20();
  }

  /** Without a try/except, "[  3]  0.0-20.0 sec  1.2.3 Mbits/sec" makes the
      extractor raise. */
  lemma MalformedThroughputRaises()
    ensures FirstThroughput([IntervalHead + "1.2.3" + " Mbits/sec" + ""]) == Failure(MalformedNumber("1.2.3"))
  {
    IntervalHeadFree();
    ThroughputLine(IntervalHead, "1.2.3", "");
    FloatRejects();
  }

  // ----- the loop over techniques 0..4 -----

  const Techniques: nat := 5
  const IperfRuns: nat := 3

  /** The files under resultados/tecnica_<i>/, by technique and file; a
      missing key is a file that does not exist. */
  type ResultsTree = map<(nat, LogFile), seq<string>>

  datatype Summary = Summary(bitrates: seq<real>, throughputs: seq<real>)

  /** What reading iperf log j of technique i gives. */
  function RunThroughput(tree: ResultsTree, i: nat, j: nat): Result<real, ScrapeError>
  {
    if (i, IperfLog(j)) !in tree then Failure(MissingLog(i, IperfLog(j)))
    else FirstThroughput(tree[(i, IperfLog(j))])
  }

  /** The iperf logs of technique i, run by run. */
  function Runs(tree: ResultsTree, i: nat): nat -> Result<real, ScrapeError>
  {
    (j: nat) => RunThroughput(tree, i, j)
  }

  /** The running total after the first n runs, run(j) giving run j's
      throughput: the first failure stops the sum. */
  function SumRuns(run: nat -> Result<real, ScrapeError>, n: nat): Result<real, ScrapeError>
  {
    if n == 0 then Success(0.0)
    else
      match SumRuns(run, n - 1)
      case Failure(e) => Failure(e)
      case Success(total) =>
        match run(n - 1)
        case Failure(e) => Failure(e)
        case Success(v) => Success(total + v)
  }

  /** iperf_total for technique i after the first n iperf logs. */
  function IperfTotal(tree: ResultsTree, i: nat, n: nat): Result<real, ScrapeError>
  {
    SumRuns(Runs(tree, i), n)
  }

  /** The bitrate and throughput figures of technique i. */
  function TechniqueFigures(tree: ResultsTree, i: nat): Result<(real, real), ScrapeError>
  {
    if (i, FfmpegLog) !in tree then Failure(MissingLog(i, FfmpegLog))
    else
      match IperfTotal(tree, i, IperfRuns)
      case Failure(e) => Failure(e)
      case Success(total) => Success((Mean(BitrateSamples(tree[(i, FfmpegLog)])), total))
  }

  /** The two lists after the first n techniques, figures(i) giving the
      figures of technique i: the first failure stops the loop. */
  function Tabulate(figures: nat -> Result<(real, real), ScrapeError>, n: nat): Result<Summary, ScrapeError>
  {
    if n == 0 then Success(Summary([], []))
    else
      match Tabulate(figures, n - 1)
      case Failure(e) => Failure(e)
      case Success(s) =>
        match figures(n - 1)
        case Failure(e) => Failure(e)
        case Success(f) => Success(Summary(s.bitrates + [f.0], s.throughputs + [f.1]))
  }

  /** bitrate_medios and iperf_medios after techniques 0..n-1. */
  function Aggregation(tree: ResultsTree, n: nat): Result<Summary, ScrapeError>
  {
    Tabulate((i: nat) => TechniqueFigures(tree, i), n)
  }

  lemma {:induction false} SumRunsFailureSticks(run: nat -> Result<real, ScrapeError>, n: nat, m: nat)
    requires n <= m && SumRuns(run, n).Failure?
    ensures SumRuns(run, m) == SumRuns(run, n)
    decreases m - n
  {
    if n < m {
      SumRunsFailureSticks(run, n, m - 1);
    }
  }

  lemma {:induction false} TabulateFailureSticks(figures: nat -> Result<(real, real), ScrapeError>, n: nat, m: nat)
    requires n <= m && Tabulate(figures, n).Failure?
    ensures Tabulate(figures, m) == Tabulate(figures, n)
    decreases m - n
  {
    if n < m {
      TabulateFailureSticks(figures, n, m - 1);
    }
  }

  /** Once a technique fails, the later ones are never read. */
  lemma AggregationFailureSticks(tree: ResultsTree, n: nat, m: nat)
    requires n <= m && Aggregation(tree, n).Failure?
    ensures Aggregation(tree, m) == Aggregation(tree, n)
  {
    TabulateFailureSticks((i: nat) => TechniqueFigures(tree, i), n, m);
  }

  /** One more run: its result t either ends the sum or is added to it. */
  lemma SumRunsNext(run: nat -> Result<real, ScrapeError>, j: nat, total: real, t: Result<real, ScrapeError>)
    requires SumRuns(run, j) == Success(total) && t == run(j)
    ensures t.Failure? ==> SumRuns(run, j + 1) == Failure(t.error)
    ensures t.Success? ==> SumRuns(run, j + 1) == Success(total + t.value)
  {
  }

  /** Opening iperf log j of technique i and extracting its throughput. */
  method ReadRun(tree: ResultsTree, i: nat, j: nat) returns (r: Result<real, ScrapeError>)
    ensures r == Runs(tree, i)(j)
  {
    if (i, IperfLog(j)) !in tree {
      return Failure(MissingLog(i, IperfLog(j)));
    }
    r := ExtractThroughput(tree[(i, IperfLog(j))]);
  }

  /** The inner loop over the three iperf logs of technique i. */
  method SumIperfRuns(tree: ResultsTree, i: nat) returns (r: Result<real, ScrapeError>)
    ensures r == IperfTotal(tree, i, IperfRuns)
  {
    var run := Runs(tree, i);
    var total: real := 0.0;
    for j := 0 to IperfRuns
      invariant SumRuns(run, j) == Success(total)
    {
      var t := ReadRun(tree, i, j);
      SumRunsNext(run, j, total, t);
      if t.Failure? {
        SumRunsFailureSticks(run, j + 1, IperfRuns);
        return Failure(t.error);
      }
      total := total + t.value;
    }
    return Success(total);
  }

  /** One pass of the outer loop body: the ffmpeg log, then the iperf logs. */
  method ReadTechnique(tree: ResultsTree, i: nat) returns (r: Result<(real, real), ScrapeError>)
    ensures r == TechniqueFigures(tree, i)
  {
    if (i, FfmpegLog) !in tree {
      return Failure(MissingLog(i, FfmpegLog));
    }
    var bitrate := ExtractBitrate(tree[(i, FfmpegLog)]);
    var total := SumIperfRuns(tree, i);
    if total.Failure? {
      return Failure(total.error);
    }
    return Success((bitrate, total.value));
  }

  /** The loop over techniques 0..n-1; the first missing file or malformed
      throughput token stops the script. */
  method CollectFirst(tree: ResultsTree, n: nat) returns (r: Result<Summary, ScrapeError>)
    ensures r == Aggregation(tree, n)
  {
    var summary := Summary([], []);
    for i := 0 to n
      invariant Aggregation(tree, i) == Success(summary)
    {
      var figures := ReadTechnique(tree, i);
      if figures.Failure? {
        AggregationFailureSticks(tree, i + 1, n);
        return Failure(figures.error);
      }
      summary := Summary(summary.bitrates + [figures.value.0], summary.throughputs + [figures.value.1]);
    }
    return Success(summary);
  }

  /** The script's loop, over techniques 0..4. */
  method CollectResults(tree: ResultsTree) returns (r: Result<Summary, ScrapeError>)
    ensures r == Aggregation(tree, Techniques)
  {
    r := CollectFirst(tree, Techniques);
  }

  /** The per-technique throughput a log set contributes, when it can be read. */
  predicate Readable(tree: ResultsTree, i: nat)
  {
    && (i, FfmpegLog) in tree
    && forall j :: 0 <= j < IperfRuns ==> RunThroughput(tree, i, j).Success?
  }

  lemma {:induction false} SumRunsSucceeds(run: nat -> Result<real, ScrapeError>, n: nat)
    ensures SumRuns(run, n).Success? <==> forall j :: 0 <= j < n ==> run(j).Success?
  {
    if n > 0 {
      SumRunsSucceeds(run, n - 1);
    }
  }

  lemma IperfTotalSucceeds(tree: ResultsTree, i: nat, n: nat)
    ensures IperfTotal(tree, i, n).Success? <==> forall j :: 0 <= j < n ==> RunThroughput(tree, i, j).Success?
  {
    var run := Runs(tree, i);
    SumRunsSucceeds(run, n);
    forall j | 0 <= j < n ensures run(j) == RunThroughput(tree, i, j) {
    }
  }

  lemma {:induction false} TabulateSucceeds(figures: nat -> Result<(real, real), ScrapeError>, n: nat)
    ensures Tabulate(figures, n).Success? <==> forall i :: 0 <= i < n ==> figures(i).Success?
  {
    if n > 0 {
      TabulateSucceeds(figures, n - 1);
    }
  }

  /** The loop completes exactly when every log of techniques 0..n-1 exists
      and no throughput token is malformed. */
  lemma AggregationReadable(tree: ResultsTree, n: nat)
    ensures Aggregation(tree, n).Success? <==> forall i :: 0 <= i < n ==> Readable(tree, i)
  {
    var figures := (i: nat) => TechniqueFigures(tree, i);
    TabulateSucceeds(figures, n);
    forall i | 0 <= i < n ensures figures(i).Success? <==> Readable(tree, i) {
      TechniqueReadable(tree, i);
    }
  }

  /** One technique's figures can be read exactly when its logs are there and
      none of its throughput tokens is malformed. */
  lemma TechniqueReadable(tree: ResultsTree, i: nat)
    ensures TechniqueFigures(tree, i).Success? <==> Readable(tree, i)
  {
    IperfTotalSucceeds(tree, i, IperfRuns);
  }

  lemma {:induction false} TabulateContents(figures: nat -> Result<(real, real), ScrapeError>, n: nat)
    requires Tabulate(figures, n).Success?
    ensures |Tabulate(figures, n).value.bitrates| == n
    ensures |Tabulate(figures, n).value.throughputs| == n
    ensures forall i :: 0 <= i < n ==>
      figures(i) == Success((Tabulate(figures, n).value.bitrates[i], Tabulate(figures, n).value.throughputs[i]))
  {
    if n > 0 {
      TabulateContents(figures, n - 1);
      var s := Tabulate(figures, n - 1).value;
      var f := figures(n - 1).value;
      var t := Tabulate(figures, n).value;
      assert t.bitrates == s.bitrates + [f.0];
      assert t.throughputs == s.throughputs + [f.1];
      forall i | 0 <= i < n
        ensures figures(i) == Success((t.bitrates[i], t.throughputs[i]))
      {
        if i < n - 1 {
          assert t.bitrates[i] == s.bitrates[i];
          assert t.throughputs[i] == s.throughputs[i];
        }
      }
    }
  }

  /** After the loop each list has n entries in technique order: entry i is
      the mean bitrate and the summed iperf throughput of technique i. */
  lemma AggregationContents(tree: ResultsTree, n: nat)
    requires Aggregation(tree, n).Success?
    ensures |Aggregation(tree, n).value.bitrates| == n
    ensures |Aggregation(tree, n).value.throughputs| == n
    ensures forall i :: 0 <= i < n ==>
      TechniqueFigures(tree, i) ==
        Success((Aggregation(tree, n).value.bitrates[i], Aggregation(tree, n).value.throughputs[i]))
  {
    var figures := (i: nat) => TechniqueFigures(tree, i);
    TabulateContents(figures, n);
    forall i | 0 <= i < n ensures TechniqueFigures(tree, i) == figures(i) {
    }
  }

  lemma IperfTotalOfThree(tree: ResultsTree, i: nat)
    requires Readable(tree, i)
    ensures IperfTotal(tree, i, 3) == Success(
      RunThroughput(tree, i, 0).value + RunThroughput(tree, i, 1).value + RunThroughput(tree, i, 2).value)
  {
    var run := Runs(tree, i);
    var t0 := RunThroughput(tree, i, 0);
    var t1 := RunThroughput(tree, i, 1);
    var t2 := RunThroughput(tree, i, 2);
    assert t0.Success? && t1.Success? && t2.Success?;
    assert run(0) == t0 && run(1) == t1 && run(2) == t2;
    assert SumRuns(run, 1) == Success(0.0 + t0.value);
    assert SumRuns(run, 2) == Success(0.0 + t0.value + t1.value);
  }

  /** The figures of technique i: the mean bitrate of its ffmpeg log and the
      sum of its three iperf throughputs. */
  lemma TechniqueFiguresAre(tree: ResultsTree, i: nat)
    requires Readable(tree, i)
    ensures TechniqueFigures(tree, i) == Success((
      Mean(BitrateSamples(tree[(i, FfmpegLog)])),
      RunThroughput(tree, i, 0).value + RunThroughput(tree, i, 1).value + RunThroughput(tree, i, 2).value))
  {
    IperfTotalOfThree(tree, i);
  }
}
