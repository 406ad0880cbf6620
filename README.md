# QoS experiment harness: shaping, RTP statistics and log scraping in Dafny

This project models the core of a Mininet experiment that compares traffic-shaping
techniques on a bottleneck link, and proves properties of that model. The model has
three parts:

- **The shaping step** (`apply_qos_tc` in `experimento_qos.py`).
  - A switch runs ten `tc` commands on one interface. They delete the old root, then
    add an HTB root with `default 30`, the parent class 1:1 (10 mbit), and the child
    classes 1:10, 1:20 and 1:30 with guaranteed and ceiling rates.
  - Next come three u32 destination-port filters (5004 and 5006 to 1:10, 5001 to
    1:20) and a TBF under 1:20.
  - `QosShaping` models each interface's queueing configuration as a value and each
    command as a transition of that value. The switch is a class whose `Cmd` runs one
    command and appends it to a log.
  - The proofs cover four things. Kernel-validity is kept by every command. A stricter
    design rule holds: rate ≤ ceil, a child's ceil ≤ its parent's, and the children's
    rates sum to no more than the parent's rate. The script's plan satisfies that rule
    and reaches one fixed configuration from any valid one. Finally, each port goes
    to a specific class.
- **The RTP statistics script** (`calc_rtp_stats.py`).
  - Rows of (RTP sequence number, arrival time) are cleaned and sorted by sequence
    number. They are then reduced to the jitter list, its mean, and the expected,
    received, lost and percentage loss figures (`RtpStats`).
- **The result plotter** (`plot_qos_results.py`).
  - Two regular expressions and `float()` are written out as matchers (`LogPatterns`).
  - The ffmpeg bitrate extractor and the iperf throughput extractor are loops proved
    against specification functions (`QosResults`).
  - The loop over techniques 0..4 gives one mean bitrate and one summed iperf
    throughput per technique. It stops at the first missing file or malformed
    throughput token.

The files are:

- `wrappers.dfy`: Option and Result.
- `arith.dfy`: `abs`, `sum` and the guarded mean.
- `rtp_stats.dfy`
- `log_patterns.dfy`
- `qos_results.dfy`
- `qos_shaping.dfy`

### Behaviour worth knowing

- **A refused tc command is ignored.** The output of `switch.cmd` is discarded, so a
  refused command leaves the interface unchanged and the script carries on
  (`QosShaping.Step`, `QosShaping.StepKeepsValid`).
- **One fixed configuration.** `apply_qos_tc` takes no policy argument and always
  issues the same ten commands (`QosShaping.QosPlan`).
- **`received` counts duplicate rows and `lost` can be negative.** `received` is the
  number of complete rows, and `lost` is `expected - received` with no floor. Two rows
  with the same sequence number give a loss of −1
  (`RtpStats.DuplicateRowsGiveNegativeLoss`).
- **The iperf extractor raises on a malformed token.** It has no `try`/`except`, so
  `float()` raises `ValueError` and the script stops
  (`QosResults.MalformedThroughputRaises`). The bitrate extractor skips such tokens
  (`QosResults.MalformedBitrateSkipped`).
- **A missing log stops the script.** `open` raises `FileNotFoundError`
  (the `MissingLog` error of `QosResults.ScrapeError`).
- **Log layout.** The logs read are `resultados/tecnica_<i>/ffmpeg.log` and
  `resultados/tecnica_<i>/iperf_<j>.log`, for i in 0..4 and j in 0..2.

## Model

| member | source | states |
|---|---|---|
| RtpStats.DropIncompleteMembers | calc_rtp_stats.py:7 | a sample survives cleaning exactly when it comes from a row with both cells present |
| RtpStats.DropIncomplete | calc_rtp_stats.py:7 | cleaning never adds rows, and drops none from a table of complete rows |
| RtpStats.DropIncompleteSkips | calc_rtp_stats.py:7 | an incomplete row anywhere in the table can be removed without changing the cleaned rows |
| RtpStats.NoSampleMeansNoCompleteRow | calc_rtp_stats.py:7 | nothing survives cleaning iff no row is complete |
| RtpStats.SortBySeq | calc_rtp_stats.py:14 | the result is sorted by ascending sequence number and is a permutation of the input (arrival times stay with their rows) |
| RtpStats.SortSortedIdentity | calc_rtp_stats.py:14 | an already sorted table is left unchanged by the sort |
| RtpStats.SortIdempotent | calc_rtp_stats.py:14 | sorting twice is sorting once |
| RtpStats.SeqNos | calc_rtp_stats.py:15 | entry i is row i's sequence number; for rows sorted by sequence number the list never decreases, so its first entry is its minimum and its last its maximum |
| Arith.Abs | calc_rtp_stats.py:19 | abs(x) is non-negative and equals x or -x |
| RtpStats.Jitters | calc_rtp_stats.py:19 | one entry fewer than the arrivals (none for an empty list); entry i is the absolute gap between arrivals i+1 and i, never negative |
| RtpStats.AvgJitter | calc_rtp_stats.py:20 | 0 with fewer than two arrivals; otherwise the mean gap times the gap count is the sum of the gaps; never negative |
| Arith.Mean | calc_rtp_stats.py:20 | 0 for no samples; otherwise mean times count equals sum; non-negative for non-negative samples |
| RtpStats.LossOf | calc_rtp_stats.py:23-26 | None exactly for an empty list (seqs[-1] raises); expected = last - first + 1, received = length, lost + received = expected, percentage times expected = 100 times lost, 0 when expected is 0 |
| RtpStats.Analyze | calc_rtp_stats.py:7-26 | fails iff no row is complete; received is the number of complete rows; lost + received = expected; one jitter fewer than received; the mean jitter is non-negative, and 0 for a single packet |
| RtpStats.IncompleteRowIgnored | calc_rtp_stats.py:7-26 | a row missing either cell changes none of the figures |
| RtpStats.ExpectedIsSpan | calc_rtp_stats.py:14-23 | after the sort, expected is max - min + 1 of the sequence numbers seen, hence at least 1 |
| RtpStats.LossIndependentOfTieOrder | calc_rtp_stats.py:14-26 | every sorted permutation of the cleaned rows gives the same loss figures, so the unspecified order among equal sequence numbers cannot change them |
| RtpStats.LossPercentBounds | calc_rtp_stats.py:26 | when 0 <= lost < expected, the percentage lies in [0, 100) |
| RtpStats.DistinctWithinSpan | calc_rtp_stats.py:23-24 | distinct sequence numbers cannot outnumber max - min + 1 |
| RtpStats.DistinctLossBounds | calc_rtp_stats.py:23-26 | with no duplicated sequence number, lost >= 0 and the loss percentage lies in [0, 100) |
| RtpStats.InOrderCapture | calc_rtp_stats.py:14-26 | a capture already in sequence order is analysed in capture order: the jitters of its arrivals and the loss of its sequence numbers |
| RtpStats.DuplicateRowsGiveNegativeLoss | calc_rtp_stats.py:23-26 | two rows with sequence number 100 give expected 1, received 2, lost -1, -100 percent |
| RtpStats.WorkedDropExample | calc_rtp_stats.py:7 | a row lacking its sequence number is dropped, the others kept in order |
| RtpStats.WorkedLossExample | calc_rtp_stats.py:23-26 | packets 100, 101, 103 give expected 4, received 3, lost 1 and 25 percent |
| RtpStats.WorkedJitterExample | calc_rtp_stats.py:19-20 | arrivals 0, 0.01, 0.03 give jitters 0.01, 0.02 and mean 0.015 |
| LogPatterns.SkipSpaces | plot_qos_results.py:11 | the end of the maximal run of whitespace from a position |
| LogPatterns.SkipNumChars | plot_qos_results.py:11 | the end of the maximal run of digits and dots from a position |
| LogPatterns.MatchAt | plot_qos_results.py:11-25 | a match of either pattern starting at a given position captures a non-empty run of digits and dots; BitrateMatchShape and ThroughputMatchShape give the text around it |
| LogPatterns.BitrateMatchShape | plot_qos_results.py:11 | a bitrate match at i has "bitrate=" at i, then whitespace, the captured group, whitespace and "kbits", in that order |
| LogPatterns.ThroughputMatchShape | plot_qos_results.py:25 | a throughput match at i has the captured group at i, then at least one whitespace character and "Mbits/sec" |
| LogPatterns.Search | plot_qos_results.py:11-25 | re.search's group, when there is one, is a non-empty run of digits and dots |
| LogPatterns.SearchLeftmost | plot_qos_results.py:11 | re.search succeeds iff the pattern matches at some position, and then yields the group of the leftmost match |
| LogPatterns.SearchFromLeftmost | plot_qos_results.py:25 | the scan from position i stops at the first matching position, or none at or after i matches |
| LogPatterns.SearchFirstMatch | plot_qos_results.py:11 | a match at position n with no match before it is the one re.search reports |
| LogPatterns.BitrateNotInPrefix | plot_qos_results.py:11 | text free of "bitrate=" before a "bitrate=" holds no start of a bitrate match, not even one straddling the join |
| LogPatterns.ThroughputNotInPrefix | plot_qos_results.py:25 | text free of "Mbits/sec" that does not end in a digit or dot, before a number, holds no start of a throughput match |
| LogPatterns.BitrateSpacesOptional | plot_qos_results.py:11 | anywhere in a line after text free of "bitrate=": "bitrate=", spaces, a number, spaces and "kbits" yield that number, either run of spaces possibly empty, whatever follows |
| LogPatterns.BitrateLine | plot_qos_results.py:11 | an ffmpeg progress line, text free of "bitrate=" then "bitrate= <number>kbits" then anything (as in "… bitrate= 512.3kbits/s speed=1x"), yields the number |
| LogPatterns.ThroughputWithSpace | plot_qos_results.py:25 | after text free of "Mbits/sec" not ending in a digit or dot: a number, one or more spaces and "Mbits/sec" yield the number, whatever follows |
| LogPatterns.ThroughputNeedsSpace | plot_qos_results.py:25 | a line in which no "Mbits/sec" has whitespace just before it yields no throughput, whatever else it holds |
| LogPatterns.GluedUnitNotMatched | plot_qos_results.py:25 | text without an 'M', a number and "Mbits/sec" glued to it yields no throughput |
| LogPatterns.Contains | plot_qos_results.py:23 | `lit in line` iff lit occurs at some position |
| LogPatterns.ContainsPrefix | plot_qos_results.py:23 | a line starting with lit contains it |
| LogPatterns.AbsentFirstChar | plot_qos_results.py:23 | a literal whose first character is absent from the line is not in it |
| LogPatterns.ParseDecimal | plot_qos_results.py:14 | float() on a digits-and-dots token never gives a negative value |
| LogPatterns.ParseDecimalAccepts | plot_qos_results.py:14 | float() accepts a token iff it is digits and dots with at most one dot and at least one digit |
| LogPatterns.FloatAcceptsBareDot | plot_qos_results.py:14 | "1." is 1.0 and ".5" is 0.5 |
| LogPatterns.FloatRejects | plot_qos_results.py:14-17 | "." and "1.2.3" are rejected (ValueError) |
| LogPatterns.FloatOf512Point3 | plot_qos_results.py:14 | "512.3" is 512.3 |
| QosResults.LineBitrate | plot_qos_results.py:11-17 | a line gives a sample iff the pattern matches and float() accepts the captured token, and the sample is never negative |
| QosResults.ExtractBitrate | plot_qos_results.py:7-18 | the loop returns the mean of the samples of the lines: the float of each line's first match, skipping lines with no match or a token float() rejects |
| QosResults.BitrateSamplesNonNegative | plot_qos_results.py:8-18 | every sample, and so the returned mean, is at least 0 |
| QosResults.BitrateSamplesAppend | plot_qos_results.py:10-15 | lines contribute independently: the samples of a + b are those of a followed by those of b |
| QosResults.SingleLineSamples | plot_qos_results.py:10-15 | one line contributes its value, or nothing |
| QosResults.NoBitrateGivesZero | plot_qos_results.py:18 | with no line yielding a value there are no samples and the result is 0 |
| QosResults.MalformedBitrateSkipped | plot_qos_results.py:13-17 | a matching line whose token float() rejects adds nothing and raises nothing |
| QosResults.MalformedBitrateToken | plot_qos_results.py:11-17 | "bitrate= 1.2.3kbits" matches but adds no sample |
| QosResults.WorkedBitrateExample | plot_qos_results.py:7-18 | progress lines "q=28.0 size=  64kB bitrate= 512.3kbits/s speed=1x" and the same with 600.0 average 556.15 |
| QosResults.LineThroughput | plot_qos_results.py:25-27 | on a qualifying line the result is float() of the captured token, never negative, or ValueError naming that token exactly when float() rejects it |
| QosResults.FirstThroughput | plot_qos_results.py:20-28 | the extractor returns a value that is never negative, or ValueError for a token float() rejects |
| QosResults.ExtractThroughput | plot_qos_results.py:20-28 | the loop returns the value of the first line that is no "Server Report" and matches, the ValueError when float() rejects its token, or 0 |
| QosResults.FirstQualifyingLineDecides | plot_qos_results.py:22-27 | the first qualifying line alone decides the result |
| QosResults.NoQualifyingLineGivesZero | plot_qos_results.py:28 | with no qualifying line the result is 0 |
| QosResults.LaterLinesIgnored | plot_qos_results.py:26-27 | lines after a qualifying line never change the result |
| QosResults.ServerReportIgnored | plot_qos_results.py:23-24 | a "Server Report" line, anywhere, is skipped even when it carries a Mbits/sec figure |
| QosResults.ThroughputLine | plot_qos_results.py:23-25 | an iperf client report line, text free of 'S' and "Mbits/sec" not ending in a digit or dot, then "<number> Mbits/sec", then text free of 'S' (as in "[  3]  0.0-20.0 sec  12.5 MBytes  5.20 Mbits/sec"), qualifies and yields the number |
| QosResults.GluedClientLine | plot_qos_results.py:25 | the client line "[  3]  0.0-20.0 sec  5.20Mbits/sec", unit glued to the figure, yields no throughput |
| QosResults.ReportLineExample | plot_qos_results.py:22-27 | a "Server Report 9.99 Mbits/sec" line before "[  3]  0.0-20.0 sec  5.20 Mbits/sec" is ignored, giving 5.2 |
| QosResults.MalformedThroughputRaises | plot_qos_results.py:27 | "[  3]  0.0-20.0 sec  1.2.3 Mbits/sec" makes the extractor raise ValueError |
| QosResults.ReadRun | plot_qos_results.py:44-45 | reading iperf log j gives that log's first qualifying throughput, or the missing-file error when it does not exist |
| QosResults.SumIperfRuns | plot_qos_results.py:42-45 | the inner loop returns the sum of the three iperf throughputs, or the first missing file or ValueError |
| QosResults.ReadTechnique | plot_qos_results.py:36-45 | one outer iteration: the ffmpeg mean bitrate and the iperf total, or the first error |
| QosResults.CollectFirst | plot_qos_results.py:33-46 | the loop over techniques 0..n-1 builds both lists as the aggregation does, stopping at the first error |
| QosResults.CollectResults | plot_qos_results.py:30-46 | the script's loop over the five techniques |
| QosResults.TechniqueReadable | plot_qos_results.py:37-45 | one technique's figures can be read iff its ffmpeg log exists and each iperf log exists with a well-formed token |
| QosResults.AggregationReadable | plot_qos_results.py:33-46 | the loop completes iff every technique's figures can be read |
| QosResults.AggregationContents | plot_qos_results.py:30-46 | after the loop both lists have n entries, and entry i holds technique i's mean bitrate and iperf total |
| QosResults.AggregationFailureSticks | plot_qos_results.py:33-46 | once a technique fails, later techniques are never read |
| QosResults.TechniqueFiguresAre | plot_qos_results.py:36-46 | the figures are the mean of the ffmpeg samples and the sum of the three iperf throughputs |
| QosShaping.Apply | experimento_qos.py:33-50 | an accepted delete leaves the interface empty, and the delete is refused iff there is no root; an accepted add keeps every object already present, in order, and adds exactly one |
| QosShaping.StepKeepsValid | experimento_qos.py:33-50 | whether the interface accepts a command or refuses it (the output is discarded), a valid configuration stays valid |
| QosShaping.ApplyPreservesValid | experimento_qos.py:33-50 | every accepted command keeps the configuration kernel-valid |
| QosShaping.RunPreservesValid | experimento_qos.py:33-50 | any run of commands, accepted or refused, keeps a valid configuration valid |
| QosShaping.DeleteLeavesEmpty | experimento_qos.py:33 | the root delete, whose failure the script ignores, empties any valid interface, whether or not it had a root |
| QosShaping.StrictAccepted | experimento_qos.py:36-50 | a command that keeps the design rules is accepted by the interface |
| QosShaping.StrictKeepsRates | experimento_qos.py:37-42 | adding a class under the rules keeps rate <= ceil, ceils nested under parents, and children's rates within the parent's |
| QosShaping.ChecksFromSound | experimento_qos.py:36-50 | a run that keeps the rules is accepted command by command and ends valid and within the rate bounds |
| QosShaping.WellFormedPlanSound | experimento_qos.py:33-50 | a well-formed plan applied to any valid configuration is fully accepted after the delete and ends in a result independent of the start |
| QosShaping.QosPlan | experimento_qos.py:33-50 | the script issues ten commands, all on `iface` |
| QosShaping.RootStep | experimento_qos.py:36 | the HTB root keeps the rules on the cleared interface |
| QosShaping.ParentClassStep | experimento_qos.py:37 | class 1:1 keeps the rules under the root |
| QosShaping.RtpClassStep | experimento_qos.py:40 | class 1:10 (4/8 mbit) keeps the rules under 1:1 |
| QosShaping.IperfClassStep | experimento_qos.py:41 | class 1:20 (2/5 mbit) keeps the rules with 4 mbit already below 1:1 |
| QosShaping.BestEffortClassStep | experimento_qos.py:42 | class 1:30 (1/2 mbit) keeps the rules with 6 mbit already below 1:1 |
| QosShaping.FilterSteps | experimento_qos.py:45-47 | each port filter sits on the root and points at an existing class |
| QosShaping.TbfStep | experimento_qos.py:50 | the TBF goes under the existing class 1:20, which has no qdisc yet |
| QosShaping.RunAppend | experimento_qos.py:33-50 | two command lists run back to back are their concatenation, which keeps the rules iff both halves do |
| QosShaping.QosPlanBuilds | experimento_qos.py:36-50 | the nine commands after the delete keep the rules and build the final configuration |
| QosShaping.QosPlanWellFormed | experimento_qos.py:33-50 | the script's plan is well formed, with the default class 1:30 among the classes it creates |
| QosShaping.QosPlanResult | experimento_qos.py:33-50 | from any valid configuration the script ends in the same configuration, so applying it twice equals applying it once |
| QosShaping.BestFilter | experimento_qos.py:45-47 | the chosen filter matches, has the lowest prio among the matches and is the first at that prio; none iff no filter matches |
| QosShaping.Classify | experimento_qos.py:36 | a packet that is not unshaped goes to a leaf class |
| QosShaping.ClassifyTotal | experimento_qos.py:36 | when every filter and the default point at leaf classes, no port is unshaped and an unmatched port goes to the default class |
| QosShaping.QosLeaves | experimento_qos.py:37-42 | 1:10, 1:20 and 1:30 are leaf classes and 1:1 is not |
| QosShaping.QosClassification | experimento_qos.py:36-47 | ports 5004 and 5006 go to 1:10, 5001 to 1:20, every other port to 1:30 |
| QosShaping.Switch.Cmd | experimento_qos.py:33 | `switch.cmd` logs the command, changes only the interface it names, by Step, and keeps every interface valid |
| QosShaping.ApplyQosTc | experimento_qos.py:29-50 | the ten commands are logged in order, `iface` ends in the final configuration whatever valid one it held, no other interface changes, and the switch stays valid |
| QosShaping.ResetRoot | experimento_qos.py:33 | the delete is logged and empties `iface`; the switch stays valid |
| QosShaping.AddHtbRoot | experimento_qos.py:36-37 | the root and 1:1 are logged and installed; the switch stays valid |
| QosShaping.AddChildClasses | experimento_qos.py:40-42 | the three child classes are logged and installed; the switch stays valid |
| QosShaping.AddFiltersAndTbf | experimento_qos.py:45-50 | the three filters and the TBF are logged and installed; the switch stays valid |

## Left out

- **I/O.** Reading the CSV and the log files is modelled as data. `rtp.csv` becomes a
  sequence of rows; the `resultados/` tree becomes a map from (technique, file) to lines,
  where a missing key is a file `open` cannot find.
- **Output.** Printing and all matplotlib plotting and saving are not modelled.
- **Floating point.** Python floats are modelled as exact reals; rounding in `float()`,
  in subtraction, in `sum` and in division is not modelled.
- **Character classes.** `\d` is taken as ASCII digits only. Python's `\d` also accepts
  other Unicode decimal digits, and float() would read them.
- **Sorting.** pandas' default sort is not stable. The model sorts stably, by insertion.
  LossIndependentOfTieOrder shows that the loss figures do not depend on the order of
  equal sequence numbers; the jitter list can depend on it.
- **RTP sequence numbers.** They are 16 bits and wrap around; like the script, the model
  treats them as plain integers.
- **Kernel semantics.** The `tc` behaviour used by Step is an abstraction. It covers
  which commands an interface refuses (missing parent, existing handle, no root) and the
  structure they build, but not packet scheduling or statistics.
- **apply_qos_tc's banner.** The `print` on experimento_qos.py:30 is not modelled.
- **Proof structure.** apply_qos_tc is split into four section methods, and
  CollectResults delegates to CollectFirst. This keeps each proof small; the commands
  and file reads happen in the source's order.
- **Example texts.** Literal log lines in the examples are written as concatenations,
  such as `ProgressHead + "bitrate= " + "512.3" + "kbits" + ProgressTail`. The
  ffmpeg example omits the `frame=` and `fps=` fields and the iperf example the
  `MBytes` column, which keeps their proofs small. The RTP examples leave the arrival
  times symbolic where only the loss is concerned.
- **Rest of the repository.** The Mininet topology (`RTPTopo`), `run()`,
  `show_tc_config`, the ffmpeg, iperf and tshark processes, their timing, and
  `rodar_todos.py` are not part of this model.
- QosShaping.Switch.Cmd and the methods built on it (ResetRoot, AddHtbRoot,
  AddChildClasses, AddFiltersAndTbf, ApplyQosTc) require `Switch.Valid()`: every
  interface holds a configuration the kernel can be in. A real interface always does.
- LogPatterns.BitrateSpacesOptional and LogPatterns.BitrateLine cover lines whose text
  before the field is free of "bitrate=". Other lines can hold an earlier match, which
  re.search reports instead; SearchLeftmost states that case.
- LogPatterns.ThroughputWithSpace covers lines whose text before the number is free of
  "Mbits/sec" and does not end in a digit or dot. Other lines can hold an earlier or
  longer match; SearchLeftmost states that case.
- QosResults.ThroughputLine also needs the text around the figure to be free of 'S', so
  that the line cannot contain "Server Report". Other lines are covered by
  ServerReportIgnored and FirstQualifyingLineDecides.
