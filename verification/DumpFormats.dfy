/** The other texts that `dehex` and `restore` promise to read: what `dump` prints
    with any chunk size, raw hex without separators, and Scapy-style lines. */
module DumpFormats {
  import opened Common
  import opened PyText
  import opened Hexdump
  import opened RoundTrip

  // ----- `dehex(dump(b, size, " "))` --------------------------------------

  lemma {:induction false} HexRunSplit(b: seq<Byte>, k: nat)
    requires k <= |b|
    ensures HexRun(b) == HexRun(b[..k]) + HexRun(b[k..])
    ensures |HexRun(b)| == 2 * |b| && |HexRun(b[..k])| == 2 * k
  {
    UpperHexlify(b);
    UpperHexlify(b[..k]);
    if k == 0 {
      assert b[0..] == b;
    } else {
      assert b[..k][1..] == b[1..][..k - 1] && b[1..][k - 1..] == b[k..] && b[..k][0] == b[0];
      assert HexRun(b) == ByteHex(b[0]) + HexRun(b[1..]);
      assert HexRun(b[..k]) == ByteHex(b[0]) + HexRun(b[1..][..k - 1]);
      hide HexRun, ByteHex;
      HexRunSplit(b[1..], k - 1);
      Regrouped(ByteHex(b[0]), HexRun(b[1..][..k - 1]), HexRun(b[k..]));
    }
  }

  lemma {:induction false} HexRunDecodes(b: seq<Byte>)
    ensures FromHex(HexRun(b)) == Ok(b)
    ensures forall c :: c in HexRun(b) ==> Plain(c) && IsHexChar(c)
  {
    if b != [] {
      HexDigitValue(b[0] / 16);
      HexDigitValue(b[0] % 16);
      HexRunDecodes(b[1..]);
      FromHexByte(b[0]);
      FromHexAppend(ByteHex(b[0]), HexRun(b[1..]), [b[0]]);
      assert [b[0]] + b[1..] == b;
    }
  }

  lemma JoinCut(s: string, size: nat, sep: string)
    requires 0 < size < |s|
    ensures Join(Chunks(s, size), sep) == s[..size] + sep + Join(Chunks(s[size..], size), sep)
  {
    assert Chunks(s, size)[1..] == Chunks(s[size..], size);
  }

  /** `dehex` skips any ASCII whitespace between complete pairs of digits. */
  lemma FromHexWhitespace(h: string, c: char, rest: string, x: seq<Byte>)
    requires FromHex(h) == Ok(x)
    requires c == ' ' || c == '\t' || c == '\n' || c == '\r' || c == '\U{0B}' || c == '\U{0C}'
    ensures FromHex(h + [c] + rest) == Prepend(x, FromHex(rest))
  {
    assert ([c] + rest)[1..] == rest;
    assert FromHex([c] + rest) == FromHex(rest);
    Regrouped(h, [c], rest);
    hide FromHex;
    FromHexAppend(h, [c] + rest, x);
  }

  lemma {:induction false} DehexEvenChunks(b: seq<Byte>, k: nat)
    requires k > 0
    ensures FromHex(Join(Chunks(HexRun(b), 2 * k), " ")) == Ok(b)
    decreases |b|
  {
    UpperHexlify(b);
    if |b| <= k {
      HexRunDecodes(b);
    } else {
      hide HexRun, FromHex, Join, Chunks;
      HexRunSplit(b, k);
      HexRunDecodes(b[..k]);
      DehexEvenChunks(b[k..], k);
      JoinCut(HexRun(b), 2 * k, " ");
      var first, second := HexRun(b[..k]), HexRun(b[k..]);
      JoinedAndCut(first, second);
      FromHexWhitespace(first, ' ', Join(Chunks(second, 2 * k), " "), b[..k]);
      CutAndJoined(b, k);
    }
  }

  lemma FromHexCutPair(h: string, c: char, rest: string, x: seq<Byte>)
    requires FromHex(h) == Ok(x) && IsHexChar(c)
    ensures FromHex(h + [c] + " " + rest) == Err(ValueError)
  {
    assert FromHex([c, ' '] + rest) == Err(ValueError);
    assert h + [c] + " " + rest == h + ([c, ' '] + rest);
    FromHexAppend(h, [c, ' '] + rest, x);
  }

  lemma DehexOddChunks(b: seq<Byte>, k: nat)
    requires 2 * k + 1 < 2 * |b|
    ensures FromHex(Join(Chunks(HexRun(b), 2 * k + 1), " ")) == Err(ValueError)
  {
    hide HexRun, FromHex, Join, Chunks;
    var size := 2 * k + 1;
    var s := HexRun(b);
    UpperHexlify(b);
    HexRunSplit(b, k);
    HexRunDecodes(b);
    HexRunDecodes(b[..k]);
    JoinCut(s, size, " ");
    assert s[2 * k] in s;
    assert s[..size] == HexRun(b[..k]) + [s[2 * k]];
    FromHexCutPair(HexRun(b[..k]), s[2 * k], Join(Chunks(s[size..], size), " "), b[..k]);
  }

  /** `dehex` undoes `dump` for every even chunk size; an odd one is harmless only
      while the digits fit in one chunk, and otherwise cuts a pair in two. */
  lemma DehexDump(b: seq<Byte>, size: nat)
    requires size > 0
    ensures FromHex(Dump(b, size, " ")) ==
      if size % 2 == 0 || 2 * |b| <= size then Ok(b) else Err(ValueError)
  {
    UpperHexlify(b);
    assert 2 * |b| <= size ==> Dump(b, size, " ") == HexRun(b);
    hide HexRun, Chunks, Join, FromHex;
    if size % 2 == 0 {
      DehexEvenChunks(b, size / 2);
    } else if 2 * |b| <= size {
      HexRunDecodes(b);
    } else {
      DehexOddChunks(b, size / 2);
    }
  }

  // ----- raw hex ----------------------------------------------------------

  lemma {:induction false} JoinNothing(s: string, size: nat)
    requires size > 0
    ensures Join(Chunks(s, size), "") == s
    decreases |s|
  {
    if |s| > size {
      JoinCut(s, size, "");
      JoinNothing(s[size..], size);
    }
  }

  /** Lines without surrounding blanks are read as they are. */
  lemma RestoredClean(lines: seq<string>)
    requires lines != []
    requires forall k :: 0 <= k < |lines| ==>
      LStrip(lines[k]) == RStrip(lines[k]) == lines[k] != "" && '\n' !in lines[k]
    ensures Restored(Join(lines, "\n")) == RestoreLines(lines)
  {
    hide LStrip, RStrip, Restored, RestoreLines, Join;
    assert TrimEnds(lines) == lines;
    RestoredJoin(lines);
  }

  lemma RestoreLinesOne(line: string)
    ensures RestoreLines([line]) == RestoreLine(line)
  {
    hide RestoreLine;
    assert [line][1..] == [];
    var r := RestoreLine(line);
    if r.Ok? { assert r.value + [] == r.value; }
  }

  lemma NoColon(s: string)
    requires ':' !in s
    ensures StripAddress(s) == s
  {
  }

  lemma ReadClean(s: string)
    requires s != "" && !IsSpace(s[0]) && ':' !in s
    ensures RestoreLine(s) ==
      if |s| <= 2 then Err(IndexError) else FromHex(if s[2] == ' ' then SelectColumns(s) else s)
  {
    assert LStrip(s) == s;
    NoColon(s);
    hide FromHex, SelectColumns, StripAddress, LStrip;
  }

  lemma CleanEnds(s: string)
    requires s != "" && !IsSpace(s[0]) && !IsSpace(s[|s| - 1])
    ensures LStrip(s) == RStrip(s) == s
  {
  }

  lemma PlainLine(s: string)
    requires s != "" && forall c :: c in s ==> Plain(c)
    ensures Restored(s) == if |s| <= 2 then Err(IndexError) else FromHex(s)
  {
    hide LStrip, RStrip, RestoreLine, RestoreLines, Restored, FromHex, SelectColumns;
    assert Join([s], "\n") == s;
    hide Join;
    assert Plain(s[0]) && Plain(s[|s| - 1]) && (|s| > 2 ==> Plain(s[2]));
    assert !Plain(':') && !Plain('\n') && !Plain(' ');
    CleanEnds(s);
    hide Plain, IsSpace;
    RestoredClean([s]);
    RestoreLinesOne(s);
    ReadClean(s);
  }

  /** `restore` reads a single line of hex digits of two bytes or more. */
  lemma {:induction false} RestoreRawHex(b: seq<Byte>)
    ensures Restored(Dump(b, 2, "")) == if |b| >= 2 then Ok(b) else Err(IndexError)
  {
    UpperHexlify(b);
    JoinNothing(HexRun(b), 2);
    HexRunDecodes(b);
    if b == [] {
      assert Split(Strip(""), '\n') == [""];
    } else {
      PlainLine(HexRun(b));
    }
  }

  // ----- Scapy layout -----------------------------------------------------

  lemma SelectScapy(s: string)
    requires |s| <= 23 || (26 <= |s| <= 47 && s[24] != ' ' && s[25] != ' ')
    ensures SelectColumns(s) == s
  {
    var sep := Slice(s, 23, 26);
    if |s| > 23 {
      assert sep == [s[23], s[24], s[25]];
      assert Slice(sep, 0, 2)[1] == s[24] && Slice(sep, 2, 3)[0] == s[25];
    } else {
      assert sep == "";
    }
  }

  lemma SpacedHexMiddle(d: seq<Byte>)
    requires 8 < |d| <= 16
    ensures |SpacedHex(d)| >= 26 && SpacedHex(d)[24] != ' ' && SpacedHex(d)[25] != ' '
  {
    SpacedHexShape(d[..8]);
    SpacedHexShape(d[8..]);
    assert d[..8] + d[8..] == d;
    SpacedHexAppend(d[..8], d[8..]);
    HexDigitValue(d[8] / 16);
    HexDigitValue(d[8] % 16);
    var a, b := SpacedHex(d[..8]), SpacedHex(d[8..]);
    assert b[0] != ' ' && b[1] != ' ';
    hide SpacedHex;
    assert (a + " " + b)[24..] == b;
  }

  lemma RestoreScapyLine(d: seq<Byte>)
    requires IsRow(d)
    ensures RestoreLine(SpacedHex(d)) == if |d| == 1 then Err(IndexError) else Ok(d)
    ensures LStrip(SpacedHex(d)) == RStrip(SpacedHex(d)) == SpacedHex(d)
    ensures SpacedHex(d) != "" && '\n' !in SpacedHex(d)
  {
    hide SpacedHex, SelectColumns, FromHex, LStrip, RStrip, RestoreLine;
    var s := SpacedHex(d);
    SpacedHexShape(d);
    assert !Plain(':') && !Plain('\n');
    CleanEnds(s);
    ReadClean(s);
    if |d| > 8 { SpacedHexMiddle(d); }
    SelectScapy(s);
  }

  lemma SelectScapyFull(s: string, t: string)
    requires |s| == 47 && s[24] != ' ' && s[25] != ' '
    ensures SelectColumns(s + t) == s
  {
    var l := s + t;
    var sep := Slice(l, 23, 26);
    assert sep == [s[23], s[24], s[25]];
    SliceOfThree(s[23], s[24], s[25]);
    assert "  "[1] == ' ' && " "[0] == ' ';
    JoinedAndCut(s, t);
    assert SelectColumns(l) == Slice(l, 0, 47) == l[..47];
  }

  /** One full Scapy row, after its address and with anything behind it. */
  lemma RestoreScapyRow(p: string, d: seq<Byte>, t: string)
    requires IsAddress(p) && !IsWide(p) && |d| == 16
    ensures RestoreLine(p + (Dump(d, 2, " ") + t)) == Ok(d)
  {
    DumpIsSpacedHex(d);
    SpacedHexShape(d);
    SpacedHexMiddle(d);
    hide SpacedHex, Dump, SelectColumns, FromHex, IsAddress, IsWide, RestoreLine;
    var s := SpacedHex(d);
    SelectScapyFull(s, t);
    assert (s + t)[0] == s[0] && (s + t)[2] == s[2];
    ReadHexPart(p, s + t);
  }

  /** The Scapy-style dump of `b`: the rows of `dump`, one to a line. */
  function ScapyLines(rows: seq<seq<Byte>>): seq<string> {
    seq(|rows|, k requires 0 <= k < |rows| => Dump(rows[k], 2, " "))
  }

  /** `restore` reads Scapy-style lines unless the last row has one byte only. */
  lemma {:induction false} RestoreScapy(b: seq<Byte>)
    ensures Restored(Join(ScapyLines(Chunks(b, 16)), "\n")) ==
      if b == [] || |b| % 16 == 1 then Err(IndexError) else Ok(b)
  {
    var rows := Chunks(b, 16);
    var lines := ScapyLines(rows);
    if b == [] {
      assert Split(Strip(""), '\n') == [""];
    } else {
      RowsOf(b);
      forall k | 0 <= k < |rows|
        ensures lines[k] == SpacedHex(rows[k])
        ensures RestoreLine(lines[k]) == if |rows[k]| == 1 then Err(IndexError) else Ok(rows[k])
        ensures LStrip(lines[k]) == RStrip(lines[k]) == lines[k] != "" && '\n' !in lines[k]
      {
        DumpIsSpacedHex(rows[k]);
        RestoreScapyLine(rows[k]);
      }
      RestoreScapyRows(b, rows, lines);
    }
  }

  lemma RowLengths(b: seq<Byte>)
    requires b != []
    ensures var rows := Chunks(b, 16);
      && rows != []
      && (forall k :: 0 <= k < |rows| - 1 ==> |rows[k]| == 16)
      && (|rows[|rows| - 1]| == 1 <==> |b| % 16 == 1)
  {
    RowsIndexed(b);
    hide Chunks;
    var n := |Chunks(b, 16)| - 1;
    assert |Chunks(b, 16)[n]| == |b| - 16 * n;
  }

  lemma RestoreScapyRows(b: seq<Byte>, rows: seq<seq<Byte>>, lines: seq<string>)
    requires b != [] && rows == Chunks(b, 16) && |lines| == |rows|
    requires forall k :: 0 <= k < |rows| ==>
      && RestoreLine(lines[k]) == (if |rows[k]| == 1 then Err(IndexError) else Ok(rows[k]))
      && LStrip(lines[k]) == RStrip(lines[k]) == lines[k] != "" && '\n' !in lines[k]
    ensures Restored(Join(lines, "\n")) == if |b| % 16 == 1 then Err(IndexError) else Ok(b)
  {
    hide LStrip, RStrip, RestoreLine, Join, Restored, Chunks;
    var n := |rows| - 1;
    RowLengths(b);
    ConcatChunks(b, 16);
    RestoredClean(lines);
    if |b| % 16 == 1 {
      RestoreLinesPrefix(lines, rows, n);
      assert lines[n..][0] == lines[n];
    } else {
      RestoreLinesPrefix(lines, rows, n + 1);
      assert lines[n + 1..] == [] && rows[..n + 1] == rows;
      assert b + [] == b;
    }
  }

  // ----- Far Manager layout -----------------------------------------------

  /** A row as Far Manager prints it: eight bytes, a bar and the rest. */
  function FarManagerLine(d: seq<Byte>): string {
    if |d| <= 8 then Dump(d, 2, " ") else Dump(d[..8], 2, " ") + " | " + Dump(d[8..], 2, " ")
  }

  lemma SliceOfThree(x: char, y: char, z: char)
    ensures Slice([x, y, z], 0, 2) == [x, y] && Slice([x, y, z], 2, 3) == [z]
  {
    assert [x, y, z][0..2] == [x, y];
    assert [x, y, z][2..3] == [[x, y, z][2]];
  }

  lemma SelectBarred(a: string, b: string, t: string)
    requires |a| == 23 && |b| <= 23 && (|b| == 23 || t == "")
    ensures SelectColumns(a + " | " + b + t) == a + b
  {
    var l := a + " | " + b + t;
    var sep := Slice(l, 23, 26);
    assert sep == [' ', '|', ' '];
    SliceOfThree(' ', '|', ' ');
    assert "  "[1] == ' ';
    assert SelectColumns(l) == Slice(l, 0, 23) + Slice(l, 26, 49);
    Regrouped(a, " | ", b);
    Regrouped(a, " | " + b, t);
    JoinedAndCut(a, " | " + b + t);
    JoinedAndCut(a + " | ", b + t);
    Regrouped(a + " | ", b, t);
    JoinedAndCut(b, t);
    assert Slice(l, 0, 23) == l[..23];
    assert |b| == 23 ==> Slice(l, 26, 49) == l[26..][..23];
    assert t == "" ==> b + t == b && Slice(l, 26, 49) == l[26..];
  }

  /** What is in the columns of a barred row, with anything behind a full one. */
  lemma DecodeBarred(d: seq<Byte>, t: string)
    requires 8 < |d| <= 16 && (|d| == 16 || t == "")
    ensures var l := FarManagerLine(d) + t;
      && |FarManagerLine(d)| == 3 * |d| + 1
      && Plain(l[0]) && l[2] == ' ' && FromHex(SelectColumns(l)) == Ok(d)
      && Plain(FarManagerLine(d)[|FarManagerLine(d)| - 1])
      && (forall c :: c in FarManagerLine(d) ==> c != ':' && c != '\n')
  {
    DumpIsSpacedHex(d[..8]);
    DumpIsSpacedHex(d[8..]);
    var a, b := SpacedHex(d[..8]), SpacedHex(d[8..]);
    assert FarManagerLine(d) == a + " | " + b;
    SpacedHexShape(d[..8]);
    SpacedHexShape(d[8..]);
    hide SpacedHex, FromHex, SelectColumns, FarManagerLine;
    SelectBarred(a, b, t);
    FromHexAppend(a, b, d[..8]);
    CutAndJoined(d, 8);
    assert !Plain(':') && !Plain('\n');
  }

  /** One barred row, after its address and with its gutter. */
  lemma RestoreFarManagerRow(p: string, d: seq<Byte>, t: string)
    requires IsAddress(p) && !IsWide(p) && |d| == 16
    ensures RestoreLine(p + (FarManagerLine(d) + t)) == Ok(d)
  {
    DecodeBarred(d, t);
    ReadHexPart(p, FarManagerLine(d) + t);
  }

  lemma RestoreFarManagerLine(d: seq<Byte>)
    requires IsRow(d)
    ensures RestoreLine(FarManagerLine(d)) == if |d| == 1 then Err(IndexError) else Ok(d)
    ensures LStrip(FarManagerLine(d)) == RStrip(FarManagerLine(d)) == FarManagerLine(d)
    ensures FarManagerLine(d) != "" && '\n' !in FarManagerLine(d)
  {
    if |d| <= 8 {
      DumpIsSpacedHex(d);
      RestoreScapyLine(d);
    } else {
      DecodeBarred(d, "");
      hide FarManagerLine, SelectColumns, FromHex, LStrip, RStrip, RestoreLine;
      var s := FarManagerLine(d);
      assert s + "" == s;
      CleanEnds(s);
      ReadClean(s);
    }
  }

  function FarManagerLines(rows: seq<seq<Byte>>): seq<string> {
    seq(|rows|, k requires 0 <= k < |rows| => FarManagerLine(rows[k]))
  }

  /** `restore` reads Far Manager lines unless the last row has one byte only. */
  lemma {:induction false} RestoreFarManager(b: seq<Byte>)
    ensures Restored(Join(FarManagerLines(Chunks(b, 16)), "\n")) ==
      if b == [] || |b| % 16 == 1 then Err(IndexError) else Ok(b)
  {
    var rows := Chunks(b, 16);
    var lines := FarManagerLines(rows);
    if b == [] {
      assert Split(Strip(""), '\n') == [""];
    } else {
      RowsOf(b);
      forall k | 0 <= k < |rows|
        ensures RestoreLine(lines[k]) == if |rows[k]| == 1 then Err(IndexError) else Ok(rows[k])
        ensures LStrip(lines[k]) == RStrip(lines[k]) == lines[k] != "" && '\n' !in lines[k]
      {
        RestoreFarManagerLine(rows[k]);
      }
      RestoreScapyRows(b, rows, lines);
    }
  }

  // ----- what surrounds a dump --------------------------------------------

  lemma {:induction false} SkipBlanks(a: string, s: string)
    requires forall i :: 0 <= i < |a| ==> a[i] == ' ' || a[i] == '\t' || a[i] == '\n' || a[i] == '\r'
    ensures LStrip(a + s) == LStrip(s)
    decreases |a|
  {
    if a == "" {
      assert a + s == s;
    } else {
      assert (a + s)[1..] == a[1..] + s;
      SkipBlanks(a[1..], s);
    }
  }

  lemma {:induction false} DropBlanks(s: string, a: string)
    requires forall i :: 0 <= i < |a| ==> a[i] == ' ' || a[i] == '\t' || a[i] == '\n' || a[i] == '\r'
    ensures RStrip(s + a) == RStrip(s)
    decreases |a|
  {
    if a == "" {
      assert s + a == s;
    } else {
      var n := |a| - 1;
      assert (s + a)[..|s + a| - 1] == s + a[..n] && (s + a)[|s + a| - 1] == a[n];
      DropBlanks(s, a[..n]);
    }
  }

  lemma {:induction false} LStripTo(s: string)
    ensures LStrip(s) == "" || !IsSpace(LStrip(s)[0])
    ensures LStrip(s) == "" ==> forall i :: 0 <= i < |s| ==> IsSpace(s[i])
  {
    if s != "" && IsSpace(s[0]) {
      LStripTo(s[1..]);
      assert forall i :: 0 < i < |s| ==> s[i] == s[1..][i - 1];
    }
  }

  lemma {:induction false} LStripBefore(s: string, a: string)
    requires LStrip(s) != ""
    ensures LStrip(s + a) == LStrip(s) + a
  {
    if IsSpace(s[0]) {
      assert (s + a)[1..] == s[1..] + a;
      LStripBefore(s[1..], a);
    }
  }

  /** Blank lines and blanks around a dump do not matter. */
  lemma SurroundingsIgnored(before: string, dump: string, after: string)
    requires forall c :: c in before + after ==> c == ' ' || c == '\t' || c == '\n' || c == '\r'
    requires exists i :: 0 <= i < |dump| && !IsSpace(dump[i])
    ensures Restored(before + dump + after) == Restored(dump)
  {
    assert forall i :: 0 <= i < |before| ==> before[i] in before + after;
    assert forall i :: 0 <= i < |after| ==> after[i] in before + after;
    LStripTo(dump);
    Regrouped(before, dump, after);
    SkipBlanks(before, dump + after);
    LStripBefore(dump, after);
    DropBlanks(LStrip(dump), after);
    hide RestoreLines, Split, LStrip, RStrip;
  }

  /** A line whose first character is a colon is never read: the colon does not end an
      address. */
  lemma LeadingColon(rest: string)
    ensures RestoreLine(":" + rest) == Err(if |rest| < 2 then IndexError else ValueError)
  {
    var line := ":" + rest;
    assert !IsSpace(':') && !IsAsciiSpace(':') && !IsHexChar(':');
    assert LStrip(line) == line;
    assert StripAddress(line) == line;
    hide LStrip, StripAddress;
    if |rest| >= 2 {
      ColonFirst(line);
      ColonFirst(SelectColumns(line));
    }
  }

  lemma ColonFirst(s: string)
    requires s != "" && s[0] == ':'
    ensures FromHex(s) == Err(ValueError)
    ensures SelectColumns(s) != "" && SelectColumns(s)[0] == ':'
  {
    assert !IsAsciiSpace(':') && !IsHexChar(':');
  }
}
