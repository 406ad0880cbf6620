/** The two regular expressions the result plotter applies to log lines, and
    Python's float() on the text they capture, written out as matchers.

    `bitrate=\s*([\d.]+)\s*kbits` and `([\d.]+)\s+Mbits/sec` (used with
    re.search) never need to backtrack: no `[\d.]` character is `\s`, and
    neither `k`, `M` nor `\s` is in `[\d.]`, so at a given start position every
    repetition can only succeed with its longest run. A match at position i is
    therefore found by skipping maximal runs, and re.search is the leftmost
    position that matches. */
module LogPatterns {
  import opened Wrappers

  /** `\s` on a str pattern: the characters Python's str.isspace accepts. */
  predicate IsSpace(c: char)
  {
    var n := c as int;
    (9 <= n <= 13) || (28 <= n <= 32) || n == 0x85 || n == 0xA0 || n == 0x1680
    || (0x2000 <= n <= 0x200A) || n == 0x2028 || n == 0x2029 || n == 0x202F
    || n == 0x205F || n == 0x3000
  }

  predicate IsDigit(c: char)
  {
    '0' <= c <= '9'
  }

  /** `[\d.]` */
  predicate IsNumChar(c: char)
  {
    IsDigit(c) || c == '.'
  }

  predicate LiteralAt(line: string, i: nat, lit: string)
  {
    i + |lit| <= |line| && line[i..i + |lit|] == lit
  }

  /** End of the maximal run of `\s` starting at i. */
  function SkipSpaces(line: string, i: nat): (j: nat)
    requires i <= |line|
    ensures i <= j <= |line|
    ensures forall k :: i <= k < j ==> IsSpace(line[k])
    ensures j == |line| || !IsSpace(line[j])
    decreases |line| - i
  {
    if i < |line| && IsSpace(line[i]) then SkipSpaces(line, i + 1) else i
  }

  /** End of the maximal run of `[\d.]` starting at i. */
  function SkipNumChars(line: string, i: nat): (j: nat)
    requires i <= |line|
    ensures i <= j <= |line|
    ensures forall k :: i <= k < j ==> IsNumChar(line[k])
    ensures j == |line| || !IsNumChar(line[j])
    decreases |line| - i
  {
    if i < |line| && IsNumChar(line[i]) then SkipNumChars(line, i + 1) else i
  }

  datatype Pattern =
    | BitratePattern     // bitrate=\s*([\d.]+)\s*kbits
    | ThroughputPattern  // ([\d.]+)\s+Mbits/sec

  /** The captured group of a match of p that starts exactly at i: when there
      is one it is a non-empty run of `[\d.]` characters of the line. */
  function MatchAt(p: Pattern, line: string, i: nat): (r: Option<string>)
    ensures r.Some? ==> r.value != [] && AllNumChars(r.value)
  {
    if i > |line| then None
    else
      match p
      case BitratePattern =>
        if !LiteralAt(line, i, "bitrate=") then None
        else
          var j := SkipSpaces(line, i + 8);
          var k := SkipNumChars(line, j);
          var m := SkipSpaces(line, k);
          if j < k && LiteralAt(line, m, "kbits") then Some(line[j..k]) else None
      case ThroughputPattern =>
        var k := SkipNumChars(line, i);
        var m := SkipSpaces(line, k);
        if i < k && k < m && LiteralAt(line, m, "Mbits/sec") then Some(line[i..k]) else None
  }

  /** re.search from position i: the leftmost start at or after i where p matches. */
  function SearchFrom(p: Pattern, line: string, i: nat): Option<nat>
    requires i <= |line|
    decreases |line| - i
  {
    if MatchAt(p, line, i).Some? then Some(i)
    else if i == |line| then None
    else SearchFrom(p, line, i + 1)
  }

  /** SearchFrom finds the leftmost matching start, or reports that none
      at or after i matches. */
  lemma {:induction false} SearchFromLeftmost(p: Pattern, line: string, i: nat)
    requires i <= |line|
    ensures SearchFrom(p, line, i).Some? ==>
      var k := SearchFrom(p, line, i).value;
      i <= k <= |line| && MatchAt(p, line, k).Some?
      && forall j :: i <= j < k ==> MatchAt(p, line, j).None?
    ensures SearchFrom(p, line, i).None? ==> forall j :: i <= j <= |line| ==> MatchAt(p, line, j).None?
    decreases |line| - i
  {
    var here := MatchAt(p, line, i);
    if here.None? && i < |line| {
      var r := SearchFrom(p, line, i + 1);
      assert SearchFrom(p, line, i) == r;
      SearchFromLeftmost(p, line, i + 1);
      forall j | i <= j <= |line| && (r.None? || j < r.value)
        ensures MatchAt(p, line, j).None?
      {
        if j == i {
          assert MatchAt(p, line, j) == here;
        }
      }
    }
  }

  /** Searching the line for the pattern anywhere: the first group of the
      leftmost match, or None when nothing matches; a group is always a
      non-empty run of `[\d.]` characters. */
  function Search(p: Pattern, line: string): (r: Option<string>)
    ensures r.Some? ==> r.value != [] && AllNumChars(r.value)
  {
    match SearchFrom(p, line, 0)
    case Some(k) => MatchAt(p, line, k)
    case None => None
  }

  /** re.search succeeds exactly when p matches at some position, and then
      gives the group of the leftmost match. */
  lemma SearchLeftmost(p: Pattern, line: string)
    ensures Search(p, line).Some? <==> exists k :: 0 <= k <= |line| && MatchAt(p, line, k).Some?
    ensures Search(p, line).Some? ==>
      exists k :: 0 <= k <= |line| && Search(p, line) == MatchAt(p, line, k)
        && (forall j :: 0 <= j < k ==> MatchAt(p, line, j).None?)
  {
    SearchFromLeftmost(p, line, 0);
  }

  /** `lit in line`, looking from position i on. */
  function ContainsFrom(line: string, lit: string, i: nat): bool
    requires i <= |line|
    decreases |line| - i
  {
    if LiteralAt(line, i, lit) then true
    else if i == |line| then false
    else ContainsFrom(line, lit, i + 1)
  }

  lemma {:induction false} ContainsFromOccurrence(line: string, lit: string, i: nat)
    requires i <= |line|
    ensures ContainsFrom(line, lit, i) <==> exists k :: i <= k <= |line| && LiteralAt(line, k, lit)
    decreases |line| - i
  {
    if !LiteralAt(line, i, lit) && i < |line| {
      ContainsFromOccurrence(line, lit, i + 1);
    }
  }

  /** `lit in line`: true exactly when lit occurs at some position. */
  function Contains(line: string, lit: string): (r: bool)
    ensures r <==> exists k :: 0 <= k <= |line| && LiteralAt(line, k, lit)
  {
    ContainsFromOccurrence(line, lit, 0);
    ContainsFrom(line, lit, 0)
  }

  /** A literal at the head of a line is in it. */
  lemma ContainsPrefix(lit: string, rest: string)
    ensures Contains(lit + rest, lit)
  {
    assert (lit + rest)[..|lit|] == lit;
    assert LiteralAt(lit + rest, 0, lit);
  }

  /** A literal whose first character never occurs in the line is not in it. */
  lemma AbsentFirstChar(line: string, lit: string)
    requires lit != [] && forall k :: 0 <= k < |line| ==> line[k] != lit[0]
    ensures !Contains(line, lit)
  {
    forall k | 0 <= k <= |line| ensures !LiteralAt(line, k, lit) {
      if k + |lit| <= |line| {
        assert line[k..k + |lit|][0] == line[k];
      }
    }
  }

  // ----- float() on a `[\d.]+` token -----

  function DigitValue(c: char): (d: nat)
    requires IsDigit(c)
    ensures d < 10
  {
    (c as int - '0' as int) as nat
  }

  predicate AllDigits(s: string)
  {
    forall i :: 0 <= i < |s| ==> IsDigit(s[i])
  }

  /** The decimal value of a string of digits ("" is 0). */
  function DigitsValue(s: string): nat
    requires AllDigits(s)
  {
    if s == [] then 0 else DigitsValue(s[..|s| - 1]) * 10 + DigitValue(s[|s| - 1])
  }

  function Pow10(n: nat): (r: nat)
    ensures r >= 1
  {
    if n == 0 then 1 else 10 * Pow10(n - 1)
  }

  /** Index of the first '.', or |s| when there is none. */
  function DotIndex(s: string): (k: nat)
    ensures k <= |s|
    ensures k < |s| ==> s[k] == '.'
    ensures forall i :: 0 <= i < k ==> s[i] != '.'
  {
    if s == [] then 0
    else if s[0] == '.' then 0
    else 1 + DotIndex(s[1..])
  }

  function DotCount(s: string): nat
  {
    if s == [] then 0 else (if s[0] == '.' then 1 else 0) + DotCount(s[1..])
  }

  /** The `[\d.]+` strings float() accepts: at least one digit and at most one
      dot, so "1." and ".5" are numbers and "." and "1.2.3" are not. */
  predicate IsFloatToken(s: string)
  {
    && (forall i :: 0 <= i < |s| ==> IsNumChar(s[i]))
    && DotCount(s) <= 1
    && exists i :: 0 <= i < |s| && IsDigit(s[i])
  }

  /** The condition ParseDecimal tests is the one float() applies. */
  lemma FloatTokenShape(s: string)
    requires forall i :: 0 <= i < |s| ==> IsNumChar(s[i])
    ensures var k := DotIndex(s);
      var whole, frac := s[..k], if k < |s| then s[k + 1..] else [];
      IsFloatToken(s) <==>
        (k == |s| || DotIndex(frac) == |frac|) && !(whole == [] && frac == [])
  {
    var k := DotIndex(s);
    var whole, frac := s[..k], if k < |s| then s[k + 1..] else [];
    DotIndexSplit(s);
    if k == |s| {
      assert whole == s;
      if s != [] {
        assert IsDigit(s[0]);
      }
    } else if DotIndex(frac) == |frac| {
      if whole != [] {
        assert IsDigit(s[0]);
      } else if frac != [] {
        assert IsDigit(s[k + 1]);
      } else {
        assert s == ".";
      }
    }
  }

  /** float(s) for s made of digits and dots; None where float raises ValueError. */
  function ParseDecimal(s: string): (r: Option<real>)
    ensures r.Some? ==> r.value >= 0.0
  {
    if !AllNumChars(s) then None
    else
      var k := DotIndex(s);
      var whole, frac := s[..k], if k < |s| then s[k + 1..] else [];
      if k < |s| && DotIndex(frac) < |frac| then None
      else if whole == [] && frac == [] then None
      else
        DotIndexSplit(s);
        Some(DecimalValue(whole, frac))
  }

  /** The value of `whole.frac`, which no digit string makes negative. */
  function DecimalValue(whole: string, frac: string): (r: real)
    requires AllDigits(whole) && AllDigits(frac)
    ensures r >= 0.0
  {
    var n, d, p := DigitsValue(whole) as real, DigitsValue(frac) as real, Pow10(|frac|) as real;
    assert d / p >= 0.0 by {
      assert d >= 0.0 && p >= 1.0;
    }
    n + d / p
  }

  /** float() accepts exactly the float tokens. */
  lemma ParseDecimalAccepts(s: string)
    ensures ParseDecimal(s).Some? <==> IsFloatToken(s)
  {
    if AllNumChars(s) {
      FloatTokenShape(s);
    }
  }

  lemma {:induction false} DotCountSplit(a: string, b: string)
    ensures DotCount(a + b) == DotCount(a) + DotCount(b)
    decreases |a|
  {
    if a == [] {
      assert a + b == b;
    } else {
      DotCountSplit(a[1..], b);
      assert (a + b)[1..] == a[1..] + b;
    }
  }

  lemma {:induction false} NoDotCount(s: string)
    ensures DotIndex(s) == |s| <==> DotCount(s) == 0
  {
    if s != [] {
      NoDotCount(s[1..]);
    }
  }

  /** How DotIndex splits a string of digits and dots. */
  lemma DotIndexSplit(s: string)
    requires forall i :: 0 <= i < |s| ==> IsNumChar(s[i])
    ensures AllDigits(s[..DotIndex(s)])
    ensures DotIndex(s) < |s| ==> s == s[..DotIndex(s)] + "." + s[DotIndex(s) + 1..]
    ensures DotIndex(s) < |s| ==>
      (DotCount(s) <= 1 <==> DotIndex(s[DotIndex(s) + 1..]) == |s[DotIndex(s) + 1..]|)
    ensures DotIndex(s) < |s| && DotIndex(s[DotIndex(s) + 1..]) == |s[DotIndex(s) + 1..]| ==>
      AllDigits(s[DotIndex(s) + 1..])
    ensures DotIndex(s) == |s| ==> DotCount(s) == 0
  {
    var k := DotIndex(s);
    NoDotCount(s);
    assert AllDigits(s[..k]) by {
      forall i | 0 <= i < k ensures IsDigit(s[..k][i]) {
        assert s[..k][i] == s[i];
      }
    }
    if k < |s| {
      DotAfterWhole(s, k);
    }
  }

  lemma DotAfterWhole(s: string, k: nat)
    requires forall i :: 0 <= i < |s| ==> IsNumChar(s[i])
    requires k == DotIndex(s) < |s|
    ensures s == s[..k] + "." + s[k + 1..]
    ensures DotCount(s) <= 1 <==> DotIndex(s[k + 1..]) == |s[k + 1..]|
    ensures DotIndex(s[k + 1..]) == |s[k + 1..]| ==> AllDigits(s[k + 1..])
  {
    var whole, frac := s[..k], s[k + 1..];
    assert s == whole + "." + frac;
    DotCountSplit(whole + ".", frac);
    DotCountSplit(whole, ".");
    DotIndexPrefix(s, k);
    NoDotCount(whole);
    NoDotCount(frac);
    if DotIndex(frac) == |frac| {
      forall i | 0 <= i < |frac| ensures IsDigit(frac[i]) {
        assert frac[i] == s[k + 1 + i];
      }
    }
  }

  lemma {:induction false} DotIndexPrefix(s: string, k: nat)
    requires k <= |s| && forall i :: 0 <= i < k ==> s[i] != '.'
    ensures DotIndex(s[..k]) == k
    decreases k
  {
    if k > 0 {
      assert s[..k][1..] == s[1..][..k - 1];
      DotIndexPrefix(s[1..], k - 1);
    }
  }

  // ----- properties of the matchers -----

  lemma {:induction false} SkipSpacesTo(line: string, i: nat, j: nat)
    requires i <= j <= |line|
    requires forall k :: i <= k < j ==> IsSpace(line[k])
    requires j == |line| || !IsSpace(line[j])
    ensures SkipSpaces(line, i) == j
    decreases j - i
  {
    if i < j {
      SkipSpacesTo(line, i + 1, j);
    }
  }

  lemma {:induction false} SkipNumCharsTo(line: string, i: nat, j: nat)
    requires i <= j <= |line|
    requires forall k :: i <= k < j ==> IsNumChar(line[k])
    requires j == |line| || !IsNumChar(line[j])
    ensures SkipNumChars(line, i) == j
    decreases j - i
  {
    if i < j {
      SkipNumCharsTo(line, i + 1, j);
    }
  }

  predicate AllSpaces(s: string)
  {
    forall i :: 0 <= i < |s| ==> IsSpace(s[i])
  }

  predicate AllNumChars(s: string)
  {
    forall i :: 0 <= i < |s| ==> IsNumChar(s[i])
  }

  /** A match at position n with no match before it is the one re.search
      reports. */
  lemma SearchFirstMatch(p: Pattern, line: string, n: nat)
    requires n <= |line| && MatchAt(p, line, n).Some?
    requires forall j :: 0 <= j < n ==> MatchAt(p, line, j).None?
    ensures Search(p, line) == MatchAt(p, line, n)
  {
    SearchFromLeftmost(p, line, 0);
    var r := SearchFrom(p, line, 0);
    assert r.Some?;
    assert r.value == n;
  }

  lemma OnlyLeadingB(i: nat)
    requires 0 < i < 8
    ensures "bitrate="[i] != 'b'
  {
  }

  lemma NoNumCharInMbits(i: nat)
    requires i < 9
    ensures !IsNumChar("Mbits/sec"[i])
  {
  }

  /** Text free of "bitrate=" in front of a line that starts with 'b' holds
      no start of a bitrate match: "bitrate=" has no 'b' after its first
      character, so it cannot straddle the join either. */
  lemma BitrateNotInPrefix(pre: string, s: string)
    requires !Contains(pre, "bitrate=") && s != [] && s[0] == 'b'
    ensures forall j :: 0 <= j < |pre| ==> MatchAt(BitratePattern, pre + s, j).None?
  {
    var line, n := pre + s, |pre|;
    forall j | 0 <= j < n ensures !LiteralAt(line, j, "bitrate=") {
      if j + 8 <= n {
        assert line[j..j + 8] == pre[j..j + 8];
        assert !LiteralAt(pre, j, "bitrate=");
      } else if j + 8 <= |line| {
        assert line[j..j + 8][n - j] == line[n] == s[0];
        OnlyLeadingB(n - j);
      }
    }
  }

  /** Text free of "Mbits/sec" and not ending in `[\d.]`, in front of a line
      that starts with `[\d.]`, holds no start of a throughput match. */
  lemma ThroughputNotInPrefix(pre: string, s: string)
    requires !Contains(pre, "Mbits/sec") && (pre == [] || !IsNumChar(pre[|pre| - 1]))
    requires s != [] && IsNumChar(s[0])
    ensures forall j :: 0 <= j < |pre| ==> MatchAt(ThroughputPattern, pre + s, j).None?
  {
    var line, n := pre + s, |pre|;
    forall j | 0 <= j < n ensures MatchAt(ThroughputPattern, line, j).None? {
      var k := SkipNumChars(line, j);
      var m := SkipSpaces(line, k);
      assert line[n - 1] == pre[n - 1];
      assert line[n] == s[0];
      NumCharNotSpace(s[0]);
      assert k < n;
      assert m <= n;
      if m + 9 <= n {
        assert line[m..m + 9] == pre[m..m + 9];
        assert !LiteralAt(pre, m, "Mbits/sec");
      } else if m + 9 <= |line| {
        assert line[m..m + 9][n - m] == line[n];
        NoNumCharInMbits(n - m);
      }
    }
  }

  /** Whitespace is optional on both sides of the bitrate number: after any
      text free of "bitrate=", the literal "bitrate=", any run of spaces, a
      number, any run of spaces and "kbits" yield that number, whatever
      follows. */
  lemma BitrateSpacesOptional(pre: string, ws1: string, num: string, ws2: string, rest: string)
    requires !Contains(pre, "bitrate=")
    requires AllSpaces(ws1) && AllSpaces(ws2) && AllNumChars(num) && num != []
    ensures Search(BitratePattern, pre + "bitrate=" + ws1 + num + ws2 + "kbits" + rest) == Some(num)
  {
    var s := "bitrate=" + ws1 + num + ws2 + "kbits" + rest;
    var line := pre + "bitrate=" + ws1 + num + ws2 + "kbits" + rest;
    assert line == pre + s;
    BitrateMatch(pre, ws1, num, ws2, rest);
    assert s[0] == 'b';
    BitrateNotInPrefix(pre, s);
    SearchFirstMatch(BitratePattern, line, |pre|);
  }

  lemma BitrateMatch(pre: string, ws1: string, num: string, ws2: string, rest: string)
    requires AllSpaces(ws1) && AllSpaces(ws2) && AllNumChars(num) && num != []
    ensures var line := pre + "bitrate=" + ws1 + num + ws2 + "kbits" + rest;
      MatchAt(BitratePattern, line, |pre|) == Some(num)
  {
    var line := pre + "bitrate=" + ws1 + num + ws2 + "kbits" + rest;
    var i := |pre|;
    var j := i + 8 + |ws1|;
    var k := j + |num|;
    var m := k + |ws2|;
    BitrateHead(pre, ws1, num, ws2, rest);
    BitrateNumber(pre, ws1, num, ws2, rest);
    BitrateTail(pre, ws1, num, ws2, rest);
    BitrateMatchAt(line, i, j, k, m);
  }

  /** The literal "bitrate=" and the spaces after it. */
  lemma BitrateHead(pre: string, ws1: string, num: string, ws2: string, rest: string)
    requires AllSpaces(ws1) && AllNumChars(num) && num != []
    ensures var line := pre + "bitrate=" + ws1 + num + ws2 + "kbits" + rest;
      LiteralAt(line, |pre|, "bitrate=") && SkipSpaces(line, |pre| + 8) == |pre| + 8 + |ws1|
  {
    var line := pre + "bitrate=" + ws1 + num + ws2 + "kbits" + rest;
    var h := pre + "bitrate=";
    Regroup6(h, ws1, num, ws2, "kbits", rest);
    Assoc(pre, "bitrate=", ws1 + (num + ws2 + "kbits" + rest));
    LiteralAfter(pre, "bitrate=", ws1 + (num + ws2 + "kbits" + rest));
    Assoc(h, ws1, num + ws2 + "kbits" + rest);
    NumCharNotSpace(num[0]);
    SpacesRun(h, ws1, num + ws2 + "kbits" + rest);
  }

  /** The number run ends where the number does. */
  lemma BitrateNumber(pre: string, ws1: string, num: string, ws2: string, rest: string)
    requires AllSpaces(ws2) && AllNumChars(num)
    ensures var line := pre + "bitrate=" + ws1 + num + ws2 + "kbits" + rest;
      var j := |pre| + 8 + |ws1|;
      SkipNumChars(line, j) == j + |num| && line[j..j + |num|] == num
  {
    var line := pre + "bitrate=" + ws1 + num + ws2 + "kbits" + rest;
    Regroup5(pre + "bitrate=" + ws1, num, ws2, "kbits", rest);
    MiddleSlice(pre + "bitrate=" + ws1, num, ws2 + "kbits" + rest);
    if ws2 != [] {
      SpaceNotNumChar(ws2[0]);
    }
    NumRun(pre + "bitrate=" + ws1, num, ws2 + "kbits" + rest);
  }

  /** The spaces after the number and the unit that closes the pattern. */
  lemma BitrateTail(pre: string, ws1: string, num: string, ws2: string, rest: string)
    requires AllSpaces(ws2)
    ensures var line := pre + "bitrate=" + ws1 + num + ws2 + "kbits" + rest;
      var k := |pre| + 8 + |ws1| + |num|;
      SkipSpaces(line, k) == k + |ws2| && LiteralAt(line, k + |ws2|, "kbits")
  {
    var line := pre + "bitrate=" + ws1 + num + ws2 + "kbits" + rest;
    Assoc(pre + "bitrate=" + ws1 + num + ws2, "kbits", rest);
    SpacesRun(pre + "bitrate=" + ws1 + num, ws2, "kbits" + rest);
    LiteralAfter(pre + "bitrate=" + ws1 + num + ws2, "kbits", rest);
  }

  lemma Assoc(a: string, b: string, c: string)
    ensures a + (b + c) == a + b + c
  {
  }

  /** Five pieces with everything after the second grouped together. */
  lemma Regroup5(a: string, b: string, c: string, d: string, e: string)
    ensures a + b + c + d + e == a + b + (c + d + e)
  {
    Assoc(a + b, c + d, e);
    Assoc(a + b, c, d);
  }

  /** Six pieces with everything after the second grouped together. */
  lemma Regroup6(a: string, b: string, c: string, d: string, e: string, f: string)
    ensures a + b + c + d + e + f == a + b + (c + d + e + f)
  {
    Assoc(a + b, c + d + e, f);
    Regroup5(a, b, c, d, e);
  }

  lemma LiteralAfter(pre: string, lit: string, rest: string)
    ensures LiteralAt(pre + lit + rest, |pre|, lit)
  {
    MiddleSlice(pre, lit, rest);
  }

  /** A run of spaces followed by a non-space ends where it seems to. */
  lemma SpacesRun(pre: string, ws: string, rest: string)
    requires AllSpaces(ws) && (rest == [] || !IsSpace(rest[0]))
    ensures SkipSpaces(pre + ws + rest, |pre|) == |pre| + |ws|
  {
    var line := pre + ws + rest;
    assert forall x :: |pre| <= x < |pre| + |ws| ==> line[x] == ws[x - |pre|];
    if rest != [] {
      assert line[|pre| + |ws|] == rest[0];
    }
    SkipSpacesTo(line, |pre|, |pre| + |ws|);
  }

  /** A run of `[\d.]` followed by anything else ends where it seems to. */
  lemma NumRun(pre: string, num: string, rest: string)
    requires AllNumChars(num) && (rest == [] || !IsNumChar(rest[0]))
    ensures SkipNumChars(pre + num + rest, |pre|) == |pre| + |num|
  {
    var line := pre + num + rest;
    assert forall x :: |pre| <= x < |pre| + |num| ==> line[x] == num[x - |pre|];
    if rest != [] {
      assert line[|pre| + |num|] == rest[0];
    }
    SkipNumCharsTo(line, |pre|, |pre| + |num|);
  }

  lemma NumCharNotSpace(c: char)
    requires IsNumChar(c)
    ensures !IsSpace(c)
  {
  }

  lemma SpaceNotNumChar(c: char)
    requires IsSpace(c)
    ensures !IsNumChar(c)
  {
  }

  /** The bitrate pattern at position i in terms of the three runs it skips. */
  lemma BitrateMatchAt(line: string, i: nat, j: nat, k: nat, m: nat)
    requires LiteralAt(line, i, "bitrate=") && i + 8 <= j < k <= m <= |line|
    requires SkipSpaces(line, i + 8) == j && SkipNumChars(line, j) == k && SkipSpaces(line, k) == m
    requires LiteralAt(line, m, "kbits")
    ensures MatchAt(BitratePattern, line, i) == Some(line[j..k])
  {
  }

  lemma MiddleSlice(a: string, b: string, c: string)
    ensures (a + b + c)[|a|..|a| + |b|] == b
  {
  }

  /** The ffmpeg progress format: a line such as
      "frame=  25 q=28.0 size=  64kB bitrate= 512.3kbits/s speed=1x", that is
      text free of "bitrate=", then "bitrate= <number>kbits" and anything,
      yields the number. */
  lemma BitrateLine(pre: string, num: string, rest: string)
    requires !Contains(pre, "bitrate=") && AllNumChars(num) && num != []
    ensures Search(BitratePattern, pre + "bitrate= " + num + "kbits" + rest) == Some(num)
  {
    assert pre + "bitrate= " + num + "kbits" + rest == pre + "bitrate=" + " " + num + "" + "kbits" + rest;
    BitrateSpacesOptional(pre, " ", num, "", rest);
  }

  lemma ThroughputMatch(pre: string, num: string, ws: string, rest: string)
    requires AllSpaces(ws) && ws != [] && AllNumChars(num) && num != []
    ensures MatchAt(ThroughputPattern, pre + num + ws + "Mbits/sec" + rest, |pre|) == Some(num)
  {
    var line := pre + num + ws + "Mbits/sec" + rest;
    var i := |pre|;
    var k := i + |num|;
    var m := k + |ws|;
    ThroughputNumber(pre, num, ws, rest);
    ThroughputUnit(pre, num, ws, rest);
    ThroughputMatchAt(line, i, k, m);
  }

  /** The throughput pattern at position i in terms of the two runs it skips. */
  lemma ThroughputMatchAt(line: string, i: nat, k: nat, m: nat)
    requires i < k < m <= |line|
    requires SkipNumChars(line, i) == k && SkipSpaces(line, k) == m
    requires LiteralAt(line, m, "Mbits/sec")
    ensures MatchAt(ThroughputPattern, line, i) == Some(line[i..k])
  {
  }

  lemma ThroughputNumber(pre: string, num: string, ws: string, rest: string)
    requires AllSpaces(ws) && ws != [] && AllNumChars(num)
    ensures var line := pre + num + ws + "Mbits/sec" + rest;
      SkipNumChars(line, |pre|) == |pre| + |num| && line[|pre|..|pre| + |num|] == num
  {
    var line := pre + num + ws + "Mbits/sec" + rest;
    Regroup5(pre, num, ws, "Mbits/sec", rest);
    MiddleSlice(pre, num, ws + "Mbits/sec" + rest);
    SpaceNotNumChar(ws[0]);
    NumRun(pre, num, ws + "Mbits/sec" + rest);
  }

  lemma ThroughputUnit(pre: string, num: string, ws: string, rest: string)
    requires AllSpaces(ws)
    ensures var line := pre + num + ws + "Mbits/sec" + rest;
      var k := |pre| + |num|;
      SkipSpaces(line, k) == k + |ws| && LiteralAt(line, k + |ws|, "Mbits/sec")
  {
    var line := pre + num + ws + "Mbits/sec" + rest;
    Assoc(pre + num + ws, "Mbits/sec", rest);
    SpacesRun(pre + num, ws, "Mbits/sec" + rest);
    LiteralAfter(pre + num + ws, "Mbits/sec", rest);
  }

  /** After text free of "Mbits/sec" that does not end in `[\d.]`, a number,
      at least one space and "Mbits/sec" yield the number, whatever follows. */
  lemma ThroughputWithSpace(pre: string, num: string, ws: string, rest: string)
    requires !Contains(pre, "Mbits/sec") && (pre == [] || !IsNumChar(pre[|pre| - 1]))
    requires AllSpaces(ws) && ws != [] && AllNumChars(num) && num != []
    ensures Search(ThroughputPattern, pre + num + ws + "Mbits/sec" + rest) == Some(num)
  {
    var s := num + ws + "Mbits/sec" + rest;
    var line := pre + num + ws + "Mbits/sec" + rest;
    assert line == pre + s;
    ThroughputMatch(pre, num, ws, rest);
    assert s[0] == num[0];
    ThroughputNotInPrefix(pre, s);
    SearchFirstMatch(ThroughputPattern, line, |pre|);
  }

  /** A bitrate match at i is "bitrate=", a run of `\s`, the group, another
      run of `\s` and "kbits", in that order from i. */
  lemma BitrateMatchShape(line: string, i: nat)
    requires MatchAt(BitratePattern, line, i).Some?
    ensures LiteralAt(line, i, "bitrate=")
    ensures exists j, k, m ::
      (i + 8 <= j < k <= m <= |line|
       && (forall x :: i + 8 <= x < j ==> IsSpace(line[x]))
       && line[j..k] == MatchAt(BitratePattern, line, i).value
       && (forall x :: k <= x < m ==> IsSpace(line[x]))
       && LiteralAt(line, m, "kbits"))
  {
    var j := SkipSpaces(line, i + 8);
    var k := SkipNumChars(line, j);
    var m := SkipSpaces(line, k);
    assert line[j..k] == MatchAt(BitratePattern, line, i).value;
    assert LiteralAt(line, m, "kbits");
  }

  /** A throughput match at i is the group, at least one `\s` and
      "Mbits/sec", in that order from i. */
  lemma ThroughputMatchShape(line: string, i: nat)
    requires MatchAt(ThroughputPattern, line, i).Some?
    ensures exists k, m ::
      (i < k < m <= |line|
       && line[i..k] == MatchAt(ThroughputPattern, line, i).value
       && (forall x :: k <= x < m ==> IsSpace(line[x]))
       && LiteralAt(line, m, "Mbits/sec"))
  {
    var k := SkipNumChars(line, i);
    var m := SkipSpaces(line, k);
    assert line[i..k] == MatchAt(ThroughputPattern, line, i).value;
    assert LiteralAt(line, m, "Mbits/sec");
  }

  /** `\s+` needs at least one space: a line in which no "Mbits/sec" has
      whitespace just before it yields no throughput, whatever else it holds. */
  lemma ThroughputNeedsSpace(line: string)
    requires forall m :: 0 < m <= |line| && LiteralAt(line, m, "Mbits/sec") ==> !IsSpace(line[m - 1])
    ensures Search(ThroughputPattern, line) == None
  {
    SearchFromLeftmost(ThroughputPattern, line, 0);
    if SearchFrom(ThroughputPattern, line, 0).Some? {
      var i := SearchFrom(ThroughputPattern, line, 0).value;
      ThroughputMatchShape(line, i);
      assert false;
    }
  }

  /** The unit glued to the number: text without an 'M', a number and
      "Mbits/sec" straight after it does not match. */
  lemma GluedUnitNotMatched(pre: string, num: string)
    requires forall x :: 0 <= x < |pre| ==> pre[x] != 'M'
    requires AllNumChars(num) && num != []
    ensures Search(ThroughputPattern, pre + num + "Mbits/sec") == None
  {
    var line := pre + num + "Mbits/sec";
    var n := |pre| + |num|;
    forall x | 0 <= x < n ensures line[x] != 'M' {
      if x < |pre| {
        assert line[x] == pre[x];
      } else {
        assert line[x] == num[x - |pre|];
      }
    }
    assert line[n - 1] == num[|num| - 1];
    NumCharNotSpace(num[|num| - 1]);
    forall m | 0 < m <= |line| && LiteralAt(line, m, "Mbits/sec")
      ensures !IsSpace(line[m - 1])
    {
      assert line[m] == line[m..m + 9][0] == 'M';
    }
    ThroughputNeedsSpace(line);
  }

  /** "1." and ".5" are numbers to float(). */
  lemma FloatAcceptsBareDot()
    ensures ParseDecimal("1.") == Some(1.0)
    ensures ParseDecimal(".5") == Some(0.5)
  {
    assert DotIndex("1.") == 1;
    assert DotIndex(".5") == 0;
  }

  /** "." and "1.2.3" make float() raise ValueError. */
  lemma FloatRejects()
    ensures ParseDecimal(".") == None
    ensures ParseDecimal("1.2.3") == None
  {
    assert DotIndex("1.2.3") == 1;
    assert "1.2.3"[2..] == "2.3";
    assert DotIndex("2.3") == 1;
  }

  lemma FloatOf512Point3()
    ensures ParseDecimal("512.3") == Some(512.3)
  {
    assert DotIndex("512.3") == 3 by {
      assert "512.3"[1..] == "12.3";
      assert "12.3"[1..] == "2.3";
      assert "2.3"[1..] == ".3";
    }
    assert "512.3"[..3] == "512";
    assert "512"[..2] == "51";
    assert "51"[..1] == "5";
    assert DigitsValue("512") == 512;
    assert "512.3"[4..] == "3";
    assert DigitsValue("3") == 3;
  }
}
