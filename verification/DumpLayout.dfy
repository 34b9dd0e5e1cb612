/** What every character of a dump shows, said of the printed text itself: address,
    hex digits and gutter of each line of a dump, and of each line of a log. */
module DumpLayout {
  import opened Common
  import opened PyText
  import opened Hexdump
  import opened RoundTrip
  import opened LogTranscript

  const DIGITS := "0123456789ABCDEF"

  // ----- what a reader sees -----------------------------------------------

  predicate IsDigit(c: char) { '0' <= c <= '9' || 'A' <= c <= 'F' }

  /** The value of upper-case hex digits. */
  function HexValue(s: string): nat
    requires forall c :: c in s ==> IsDigit(c)
  {
    if s == "" then 0
    else
      var n := |s| - 1;
      assert IsDigit(s[n]);
      16 * HexValue(s[..n]) + if s[n] <= '9' then s[n] as int - '0' as int else s[n] as int - 'A' as int + 10
  }

  /** At least eight digits with the given value, and no more than it takes. */
  predicate IsAddressOf(s: string, n: nat) {
    && |s| >= 8 && (|s| > 8 ==> s[0] != '0')
    && (forall c :: c in s ==> IsDigit(c))
    && HexValue(s) == n
  }

  /** The column of the first digit of a byte: three for each, one more after the eighth. */
  function Column(i: nat): nat {
    if i < 8 then 3 * i else 3 * i + 1
  }

  /** Columns that no digit of `n` bytes is printed in: one after each byte, the extra one,
      and all from the last byte on. */
  predicate IsGap(j: nat, n: nat) {
    if j < 24 then j % 3 == 2 || j / 3 >= n else j == 24 || (j - 25) % 3 == 2 || 8 + (j - 25) / 3 >= n
  }

  /** In the gutter a byte shows as itself if it is printable ASCII, and as a dot otherwise. */
  function Shown(b: Byte): char {
    if 0x20 <= b <= 0x7E then b as char else '.'
  }

  /** Fifty columns with the digits of each byte at its column and blanks elsewhere, and
      then one character for each byte. */
  predicate ShowsRow(text: string, d: seq<Byte>) {
    && |d| <= 16 && |text| == 50 + |d|
    && (forall i :: 0 <= i < |d| ==>
         text[Column(i)] == DIGITS[d[i] / 16] && text[Column(i) + 1] == DIGITS[d[i] % 16])
    && (forall j :: 0 <= j < 50 && IsGap(j, |d|) ==> text[j] == ' ')
    && (forall i :: 0 <= i < |d| ==> text[50 + i] == Shown(d[i]))
  }

  /** A line of a dump: the address up to the first colon, a blank, and the row. */
  predicate ShowsLine(line: string, n: nat, d: seq<Byte>) {
    var a := Find(line, ':');
    && 0 <= a < |line| - 1 && IsAddressOf(line[..a], n)
    && line[a + 1] == ' ' && ShowsRow(line[a + 2..], d)
  }

  /** Row number `k` of the data. */
  function RowOf(data: seq<Byte>, k: nat): seq<Byte>
    requires 16 * k <= |data|
  {
    data[16 * k..if 16 * k + 16 <= |data| then 16 * k + 16 else |data|]
  }

  // ----- addresses --------------------------------------------------------

  lemma DigitShown(n: int)
    requires 0 <= n < 16
    ensures HexDigit(n) == DIGITS[n] && IsDigit(DIGITS[n])
  {
  }

  lemma {:induction false} HexDigitsValue(n: nat)
    ensures forall c :: c in HexDigits(n) ==> IsDigit(c)
    ensures HexDigits(n) != "" && HexValue(HexDigits(n)) == n
    ensures n > 0 ==> HexDigits(n)[0] != '0'
  {
    DigitShown(n % 16);
    var s := HexDigits(n);
    if n < 16 {
      assert s[..0] == "" && HexValue("") == 0;
    } else {
      HexDigitsValue(n / 16);
      assert s[..|s| - 1] == HexDigits(n / 16);
    }
  }

  lemma {:induction false} LeadingZeros(zeros: string, s: string)
    requires forall i :: 0 <= i < |zeros| ==> zeros[i] == '0'
    requires forall c :: c in s ==> IsDigit(c)
    ensures forall c :: c in zeros + s ==> IsDigit(c)
    ensures HexValue(zeros + s) == HexValue(s)
    decreases |zeros|
  {
    DigitShown(0);
    if zeros == "" {
      assert zeros + s == s;
    } else {
      LeadingZeros(zeros[1..], s);
      LeadingZero(zeros[1..] + s);
      assert zeros + s == "0" + (zeros[1..] + s);
    }
  }

  lemma {:induction false} LeadingZero(s: string)
    requires forall c :: c in s ==> IsDigit(c)
    ensures forall c :: c in "0" + s ==> IsDigit(c)
    ensures HexValue("0" + s) == HexValue(s)
    decreases |s|
  {
    DigitShown(0);
    var all := "0" + s;
    if s == "" {
      assert all[..0] == "" && HexValue("") == 0;
    } else {
      var n := |s| - 1;
      assert forall c :: c in s[..n] ==> c in s;
      LeadingZero(s[..n]);
      assert all[..|all| - 1] == "0" + s[..n] && all[|all| - 1] == s[n];
    }
  }

  lemma AddressShown(n: nat)
    ensures IsAddressOf(Format08X(n), n)
  {
    var s := HexDigits(n);
    HexDigitsValue(n);
    assert |HexDigits(0)| == 1;
    hide HexDigits, HexValue;
    if |s| < 8 {
      LeadingZeros(seq(8 - |s|, _ => '0'), s);
    } else {
      assert Format08X(n) == "" + s == s;
    }
  }

  // ----- rows -------------------------------------------------------------

  /** The digits of each byte, three columns apart, with blanks between them. */
  predicate ShowsBytes(s: string, d: seq<Byte>) {
    && |s| == 3 * |d| - 1
    && (forall i :: 0 <= i < |d| ==> s[3 * i] == DIGITS[d[i] / 16] && s[3 * i + 1] == DIGITS[d[i] % 16])
    && (forall i :: 0 <= i < |d| - 1 ==> s[3 * i + 2] == ' ')
  }

  lemma OneByteMore(x: string, rest: string, d: seq<Byte>)
    requires |d| > 1 && x == [DIGITS[d[0] / 16], DIGITS[d[0] % 16]] && ShowsBytes(rest, d[1..])
    ensures ShowsBytes(x + " " + rest, d)
  {
    var s := x + " " + rest;
    forall i | 0 <= i < |d|
      ensures s[3 * i] == DIGITS[d[i] / 16] && s[3 * i + 1] == DIGITS[d[i] % 16]
      ensures i < |d| - 1 ==> s[3 * i + 2] == ' '
    {
      if i > 0 {
        var k := i - 1;
        assert d[1..][k] == d[i];
        assert s[3 * i] == rest[3 * k] && s[3 * i + 1] == rest[3 * k + 1];
        assert i < |d| - 1 ==> s[3 * i + 2] == rest[3 * k + 2];
      }
    }
  }

  lemma {:induction false} SpacedHexShown(d: seq<Byte>)
    requires d != []
    ensures ShowsBytes(SpacedHex(d), d)
  {
    DigitShown(d[0] / 16);
    DigitShown(d[0] % 16);
    if |d| > 1 {
      assert SpacedHex(d) == ByteHex(d[0]) + " " + SpacedHex(d[1..]);
      hide SpacedHex, ShowsBytes;
      SpacedHexShown(d[1..]);
      OneByteMore(ByteHex(d[0]), SpacedHex(d[1..]), d);
    }
  }

  /** The digits and blanks of a row before its gutter. */
  predicate ShowsDigits(h: string, d: seq<Byte>) {
    && (forall i :: 0 <= i < |d| ==>
         Column(i) + 1 < |h| && h[Column(i)] == DIGITS[d[i] / 16] && h[Column(i) + 1] == DIGITS[d[i] % 16])
    && (forall j :: 0 <= j < |h| && IsGap(j, |d|) ==> h[j] == ' ')
  }

  lemma HexTextShown(d: seq<Byte>)
    requires IsRow(d)
    ensures ShowsDigits(HexText(d), d)
  {
    hide SpacedHex, ShowsDigits, ShowsBytes;
    if |d| <= 8 {
      SpacedHexShown(d);
      ShortTextShown(HexText(d), d);
    } else {
      SpacedHexShown(d[..8]);
      SpacedHexShown(d[8..]);
      LongTextShown(SpacedHex(d[..8]), SpacedHex(d[8..]), d);
    }
  }

  lemma ShortTextShown(h: string, d: seq<Byte>)
    requires 1 <= |d| <= 8 && ShowsBytes(h, d)
    ensures ShowsDigits(h, d)
  {
    forall i | 0 <= i < |d|
      ensures Column(i) + 1 < |h| && h[Column(i)] == DIGITS[d[i] / 16] && h[Column(i) + 1] == DIGITS[d[i] % 16]
    {
      assert h[3 * i] == DIGITS[d[i] / 16];
    }
    forall j | 0 <= j < |h| && IsGap(j, |d|)
      ensures h[j] == ' '
    {
      assert h[3 * (j / 3) + 2] == ' ';
    }
  }

  lemma LongTextShown(a: string, b: string, d: seq<Byte>)
    requires 8 < |d| <= 16 && ShowsBytes(a, d[..8]) && ShowsBytes(b, d[8..])
    ensures ShowsDigits(a + "  " + b, d)
  {
    var h := a + "  " + b;
    forall i | 0 <= i < |d|
      ensures Column(i) + 1 < |h| && h[Column(i)] == DIGITS[d[i] / 16] && h[Column(i) + 1] == DIGITS[d[i] % 16]
    {
      if i < 8 {
        assert d[..8][i] == d[i];
        assert h[3 * i] == a[3 * i] && h[3 * i + 1] == a[3 * i + 1];
      } else {
        assert d[8..][i - 8] == d[i];
        assert h[Column(i)] == b[3 * (i - 8)] && h[Column(i) + 1] == b[3 * (i - 8) + 1];
      }
    }
    forall j | 0 <= j < |h| && IsGap(j, |d|)
      ensures h[j] == ' '
    {
      if j < 23 {
        assert h[j] == a[j] && a[3 * (j / 3) + 2] == ' ';
      } else if j > 24 {
        assert h[j] == b[j - 25] && b[3 * ((j - 25) / 3) + 2] == ' ';
      }
    }
  }

  /** A printed row shows its bytes, whatever precedes it on its line. */
  lemma BodyShown(d: seq<Byte>)
    requires IsRow(d)
    ensures ShowsRow(Body(d), d)
  {
    HexColumnsShape(d);
    HexTextShown(d);
    assert Body(d) == HexText(d) + Blanks(50 - |HexText(d)|) + Gutter(d);
    hide HexText, ShowsRow, ShowsDigits;
    RowShown(HexText(d), d);
  }

  lemma RowShown(h: string, d: seq<Byte>)
    requires |d| <= 16 && |h| <= 48 && ShowsDigits(h, d)
    ensures ShowsRow(h + Blanks(50 - |h|) + Gutter(d), d)
  {
    var left, gutter := h + Blanks(50 - |h|), Gutter(d);
    var text := left + gutter;
    assert |left| == 50 && |gutter| == |d|;
    forall i | 0 <= i < |d|
      ensures text[50 + i] == Shown(d[i])
    {
      assert text[50 + i] == gutter[i];
    }
    hide Gutter;
    forall i | 0 <= i < |d|
      ensures text[Column(i)] == DIGITS[d[i] / 16] && text[Column(i) + 1] == DIGITS[d[i] % 16]
    {
      assert text[Column(i)] == h[Column(i)] && text[Column(i) + 1] == h[Column(i) + 1];
    }
    forall j | 0 <= j < 50 && IsGap(j, |d|)
      ensures text[j] == ' '
    {
      assert text[j] == left[j] == if j < |h| then h[j] else ' ';
    }
  }

  lemma CutAtColon(a: string, body: string)
    requires ':' !in a
    ensures var line := a + ": " + body;
      && Find(line, ':') == |a| && line[..|a|] == a && line[|a| + 1] == ' ' && line[|a| + 2..] == body
  {
    Regrouped(a, ": ", body);
    JoinedAndCut(a, ": " + body);
    JoinedAndCut(a + ": ", body);
    var line := a + ": " + body;
    assert line[|a|] == ':' && line[|a| + 1] == ' ';
    FindFirst(line, ':', |a|);
  }

  lemma LineShown(k: nat, d: seq<Byte>)
    requires IsRow(d)
    ensures ShowsLine(RowLine(k, d), 16 * k, d)
  {
    var a, body := Format08X(16 * k), Body(d);
    AddressShown(16 * k);
    BodyShown(d);
    Regrouped(a + ": ", HexColumns(d), Gutter(d));
    assert RowLine(k, d) == a + ": " + body;
    hide *;
    AddressHasNoColon(a, 16 * k);
    CutAtColon(a, body);
    LineOfParts(a + ": " + body, |a|, 16 * k, d);
  }

  lemma LineOfParts(line: string, a: nat, n: nat, d: seq<Byte>)
    requires Find(line, ':') == a && a < |line| - 1
    requires IsAddressOf(line[..a], n) && line[a + 1] == ' ' && ShowsRow(line[a + 2..], d)
    ensures ShowsLine(line, n, d)
  {
    hide IsAddressOf, ShowsRow, Find;
  }

  lemma AddressHasNoColon(a: string, n: nat)
    requires IsAddressOf(a, n)
    ensures ':' !in a
  {
    assert !IsDigit(':');
  }

  // ----- main results -----------------------------------------------------

  /** Every character of a dump: there is one line for each 16 bytes begun, and each shows
      its address in upper-case digits, the digits of its bytes in their columns and its
      bytes in the gutter. */
  lemma HexdumpShowsData(data: seq<Byte>)
    requires data != []
    ensures var lines := Split(HexdumpText(data), '\n');
      && |lines| == (|data| + 15) / 16
      && forall k :: 0 <= k < |lines| ==> ShowsLine(lines[k], 16 * k, RowOf(data, k))
  {
    var rows := Chunks(data, 16);
    RowsOf(data);
    RowsIndexed(data);
    SplitDump(rows);
    hide Chunks, RowLine, ShowsLine;
    forall k | 0 <= k < |rows|
      ensures ShowsLine(DumpLines(rows)[k], 16 * k, RowOf(data, k))
    {
      LineShown(k, rows[k]);
    }
  }

  lemma LogLineShown(op: Operation, k: nat)
    requires k < |Chunks(op.data, 16)| && IsRow(Chunks(op.data, 16)[k])
    ensures |LogEntry(op)| == |Chunks(op.data, 16)|
    ensures LogEntry(op)[k] == (if op.Writing? then "-->  " else "<--  ") + Body(Chunks(op.data, 16)[k])
  {
    FormattedRows(op.data);
    hide Chunks, Body, FormatBytes;
    var body := Body(Chunks(op.data, 16)[k]);
    var arrow := if op.Writing? then "--> " else "<-- ";
    assert LogEntry(op)[k] == arrow + (" " + body);
    Regrouped(arrow, " ", body);
    assert arrow + " " == if op.Writing? then "-->  " else "<--  ";
  }

  /** Every character of a log entry: the arrow of its direction, two blanks, and the row. */
  lemma LogShowsData(op: Operation)
    ensures var log := LogEntry(op);
      && |log| == (|op.data| + 15) / 16
      && forall k :: 0 <= k < |log| ==>
           && |log[k]| >= 5 && log[k][..5] == (if op.Writing? then "-->  " else "<--  ")
           && ShowsRow(log[k][5..], RowOf(op.data, k))
  {
    var rows := Chunks(op.data, 16);
    RowsIndexed(op.data);
    FormattedRows(op.data);
    assert |LogEntry(op)| == |rows|;
    hide Chunks, ShowsRow, Body, FormatBytes, LogEntry;
    forall k | 0 <= k < |rows|
      ensures var line := LogEntry(op)[k];
        && |line| >= 5 && line[..5] == (if op.Writing? then "-->  " else "<--  ")
        && ShowsRow(line[5..], RowOf(op.data, k))
    {
      BodyShown(rows[k]);
      LogLineShown(op, k);
      JoinedAndCut(if op.Writing? then "-->  " else "<--  ", Body(rows[k]));
    }
  }
}
