/** The text `exportCSV` of main.js builds before handing it to the browser
    as a download: a header line, then one line per sample holding its
    1-based position and its value. `toFixed(6)` is the parameter `fmt`. */
module JsExport {
  import opened Wrappers

  /** The first line of the file, with its line break. */
  const Header: string := "index,latency_ms\n"

  /** The header line without its line break. */
  const HeaderLine: string := "index,latency_ms"

  /** The decimal digit for `d`. */
  function DigitChar(d: nat): (c: char)
    requires d < 10
    ensures '0' <= c <= '9'
    ensures c as int - '0' as int == d
  {
    (('0' as int) + d) as char
  }

  /** A string of decimal digits. */
  predicate AllDigits(s: string) {
    forall k :: 0 <= k < |s| ==> '0' <= s[k] <= '9'
  }

  /** The number a string of decimal digits denotes, most significant first. */
  function DecimalValue(s: string): nat
    requires AllDigits(s)
  {
    if |s| == 0 then 0
    else 10 * DecimalValue(s[..|s| - 1]) + (s[|s| - 1] as int - '0' as int)
  }

  /** `${n}` for a natural number: its decimal digits, without leading zeros. */
  function NatToDecimal(n: nat): (s: string)
    ensures |s| >= 1
    ensures AllDigits(s)
    ensures s[0] == '0' ==> n == 0 && |s| == 1
  {
    if n < 10 then [DigitChar(n)]
    else NatToDecimal(n / 10) + [DigitChar(n % 10)]
  }

  /** Reading the digits back gives the number: the index column is exact. */
  lemma {:induction false} DecimalRoundTrip(n: nat)
    ensures DecimalValue(NatToDecimal(n)) == n
  {
    var s := NatToDecimal(n);
    if n >= 10 {
      DecimalRoundTrip(n / 10);
      assert s[..|s| - 1] == NatToDecimal(n / 10);
    }
  }

  /** `fmt` writes a value without line breaks, as `toFixed` does. */
  ghost predicate SingleLine(fmt: real -> string) {
    forall v :: '\n' !in fmt(v)
  }

  /** The line for the sample at 1-based position `index`, without its line break. */
  function RowText(index: nat, v: real, fmt: real -> string): string {
    NatToDecimal(index) + "," + fmt(v)
  }

  /** The rows for all samples, in order, each ended by a line break. */
  function Rows(latencies: seq<real>, fmt: real -> string): (csv: string)
  {
    if |latencies| == 0 then ""
    else
      var n := |latencies|;
      Rows(latencies[..n - 1], fmt) + RowText(n, latencies[n - 1], fmt) + "\n"
  }

  /** The loop of `exportCSV`: `csv += `${i+1},${latArr[i].toFixed(6)}\n``. */
  method BuildCsv(latencies: seq<real>, fmt: real -> string) returns (csv: string)
    ensures csv == Header + Rows(latencies, fmt)
  {
    csv := Header;
    var i := 0;
    while i < |latencies|
      invariant 0 <= i <= |latencies|
      invariant csv == Header + Rows(latencies[..i], fmt)
    {
      assert latencies[..i + 1][..i] == latencies[..i];
      csv := csv + RowText(i + 1, latencies[i], fmt) + "\n";
      i := i + 1;
    }
    assert latencies[..i] == latencies;
  }

  /** `exportCSV`: nothing for an empty series, otherwise the file text. */
  method ExportCsv(latencies: seq<real>, fmt: real -> string) returns (file: Option<string>)
    ensures file.None? <==> |latencies| == 0
    ensures file.Some? ==> file.value == Header + Rows(latencies, fmt)
  {
    if |latencies| == 0 {
      return None;
    }
    var csv := BuildCsv(latencies, fmt);
    file := Some(csv);
  }

  /** Position of the first line break, or the length if there is none. */
  function FirstBreak(s: string): (i: nat)
    ensures i <= |s|
    ensures i < |s| ==> s[i] == '\n'
    ensures forall k :: 0 <= k < i ==> s[k] != '\n'
  {
    if |s| == 0 || s[0] == '\n' then 0 else 1 + FirstBreak(s[1..])
  }

  /** The lines of a text: each ended by a line break, the last one possibly not. */
  function Lines(s: string): seq<string>
    decreases |s|
  {
    if |s| == 0 then []
    else
      var i := FirstBreak(s);
      if i == |s| then [s] else [s[..i]] + Lines(s[i + 1..])
  }

  /** An empty text, or one that ends with a line break. */
  predicate Terminated(s: string) {
    |s| == 0 || s[|s| - 1] == '\n'
  }

  /** A text starting with one complete line splits off that line first. */
  lemma LinesCons(x: string, rest: string)
    requires '\n' !in x
    ensures Lines(x + "\n" + rest) == [x] + Lines(rest)
  {
    var s := x + "\n" + rest;
    assert forall k :: 0 <= k < |x| ==> s[k] == x[k] && x[k] in x;
    assert s[|x|] == '\n';
    assert FirstBreak(s) == |x|;
    assert s[..|x|] == x;
    assert s[|x| + 1..] == rest;
  }

  /** A terminated, non-empty text is its first line, a line break, and a
      terminated remainder. */
  lemma SplitFirstLine(a: string) returns (y: string, rest: string)
    requires Terminated(a) && |a| > 0
    ensures '\n' !in y
    ensures a == y + "\n" + rest
    ensures Terminated(rest) && |rest| < |a|
  {
    var i := FirstBreak(a);
    y, rest := a[..i], a[i + 1..];
    assert forall k :: 0 <= k < |y| ==> y[k] == a[k];
    assert a == y + "\n" + rest;
  }

  /** Appending one complete line to a terminated text appends one line. */
  lemma {:induction false} LinesSnoc(a: string, x: string)
    requires Terminated(a)
    requires '\n' !in x
    ensures Lines(a + x + "\n") == Lines(a) + [x]
    decreases |a|
  {
    if |a| == 0 {
      assert a + x + "\n" == x + "\n" + "";
      LinesCons(x, "");
    } else {
      var y, rest := SplitFirstLine(a);
      calc {
        Lines(a + x + "\n");
        { assert a + x + "\n" == y + "\n" + (rest + x + "\n");
          LinesCons(y, rest + x + "\n"); }
        [y] + Lines(rest + x + "\n");
        { LinesSnoc(rest, x); }
        [y] + (Lines(rest) + [x]);
        { LinesCons(y, rest); }
        Lines(a) + [x];
      }
    }
  }

  /** The rows are terminated text. */
  lemma RowsTerminated(latencies: seq<real>, fmt: real -> string)
    ensures Terminated(Rows(latencies, fmt))
  {
  }

  /** Row text never holds a line break when `fmt` writes none. */
  lemma RowTextSingleLine(index: nat, v: real, fmt: real -> string)
    requires SingleLine(fmt)
    ensures '\n' !in RowText(index, v, fmt)
  {
    var d := NatToDecimal(index);
    assert '\n' !in d by {
      forall k | 0 <= k < |d|
        ensures d[k] != '\n'
      {
        assert '0' <= d[k] <= '9';
      }
    }
    assert '\n' !in fmt(v);
  }

  /** Text followed by the rows of a longer series is that text followed by
      the rows of all but the last sample, then the last row. */
  lemma RowsUnfold(h: string, latencies: seq<real>, fmt: real -> string)
    requires |latencies| > 0
    ensures var n := |latencies|;
      h + Rows(latencies, fmt) ==
      h + Rows(latencies[..n - 1], fmt) + RowText(n, latencies[n - 1], fmt) + "\n"
  {
    var n := |latencies|;
    var r, row := Rows(latencies[..n - 1], fmt), RowText(n, latencies[n - 1], fmt);
    assert Rows(latencies, fmt) == r + row + "\n";
  }

  /** The header alone is one line. */
  lemma HeaderLines()
    ensures Lines(Header) == [HeaderLine]
  {
    assert Header == HeaderLine + "\n" + "";
    LinesCons(HeaderLine, "");
  }

  /** One more sample appends its row to the lines of the file. */
  lemma CsvLinesStep(latencies: seq<real>, fmt: real -> string)
    requires SingleLine(fmt) && |latencies| > 0
    ensures var n := |latencies|;
      Lines(Header + Rows(latencies, fmt)) ==
      Lines(Header + Rows(latencies[..n - 1], fmt)) + [RowText(n, latencies[n - 1], fmt)]
  {
    var n := |latencies|;
    var a := Header + Rows(latencies[..n - 1], fmt);
    var row := RowText(n, latencies[n - 1], fmt);
    calc {
      Lines(Header + Rows(latencies, fmt));
      { RowsUnfold(Header, latencies, fmt); }
      Lines(a + row + "\n");
      { RowsTerminated(latencies[..n - 1], fmt);
        RowTextSingleLine(n, latencies[n - 1], fmt);
        LinesSnoc(a, row); }
      Lines(a) + [row];
    }
  }

  /** The row lines of a series, without line breaks, in order. */
  function RowLines(latencies: seq<real>, fmt: real -> string): (lines: seq<string>)
    ensures |lines| == |latencies|
  {
    if |latencies| == 0 then []
    else
      var n := |latencies|;
      RowLines(latencies[..n - 1], fmt) + [RowText(n, latencies[n - 1], fmt)]
  }

  /** Row line `k` holds the 1-based index `k + 1`, a comma and the formatted sample `k`. */
  lemma {:induction false} RowLinesAt(latencies: seq<real>, fmt: real -> string)
    ensures forall k :: 0 <= k < |latencies| ==>
      RowLines(latencies, fmt)[k] == RowText(k + 1, latencies[k], fmt)
  {
    var n := |latencies|;
    if n > 0 {
      var prefix := latencies[..n - 1];
      RowLinesAt(prefix, fmt);
      forall k | 0 <= k < n - 1
        ensures RowLines(latencies, fmt)[k] == RowText(k + 1, latencies[k], fmt)
      {
        assert latencies[k] == prefix[k];
      }
    }
  }

  /** Read back line by line, the file is the header line followed by the
      row lines. */
  lemma {:induction false} CsvLines(latencies: seq<real>, fmt: real -> string)
    requires SingleLine(fmt)
    ensures Lines(Header + Rows(latencies, fmt)) == [HeaderLine] + RowLines(latencies, fmt)
    decreases |latencies|
  {
    var n := |latencies|;
    if n == 0 {
      HeaderLines();
      assert Header + Rows(latencies, fmt) == Header;
    } else {
      var prefix := latencies[..n - 1];
      var row := RowText(n, latencies[n - 1], fmt);
      calc {
        Lines(Header + Rows(latencies, fmt));
        { CsvLinesStep(latencies, fmt); }
        Lines(Header + Rows(prefix, fmt)) + [row];
        { CsvLines(prefix, fmt); }
        [HeaderLine] + RowLines(prefix, fmt) + [row];
        [HeaderLine] + RowLines(latencies, fmt);
      }
    }
  }

  /** The file has exactly one line more than the series has samples: the
      header, then line `k + 1` holding the 1-based index `k + 1`, a comma
      and the formatted sample `k`. */
  lemma CsvLayout(latencies: seq<real>, fmt: real -> string)
    requires SingleLine(fmt)
    ensures |Lines(Header + Rows(latencies, fmt))| == |latencies| + 1
    ensures Lines(Header + Rows(latencies, fmt))[0] == HeaderLine
    ensures forall k :: 0 <= k < |latencies| ==>
      Lines(Header + Rows(latencies, fmt))[k + 1] == RowText(k + 1, latencies[k], fmt)
  {
    CsvLines(latencies, fmt);
    RowLinesAt(latencies, fmt);
  }

  /** Two samples whose formatted values are "1.500000" and "2.250000" give
      the file "index,latency_ms\n1,1.500000\n2,2.250000\n". */
  lemma TwoSampleFile(latencies: seq<real>, fmt: real -> string)
    requires |latencies| == 2 && latencies[0] == 1.5 && latencies[1] == 2.25
    requires fmt(1.5) == "1.500000" && fmt(2.25) == "2.250000"
    ensures Header + Rows(latencies, fmt) == "index,latency_ms\n1,1.500000\n2,2.250000\n"
  {
    assert latencies[..1][..0] == [];
    assert Rows(latencies[..1], fmt) == "1,1.500000\n";
  }
}
