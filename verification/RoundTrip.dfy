/** `restore` undoes `hexdump`: the layout of a dump line, how `restore` reads it
    in each of its three column layouts, and the exact domain of the round trip. */
module RoundTrip {
  import opened Common
  import opened PyText
  import opened Hexdump

  // ----- what `dump` prints -----------------------------------------------

  function HexRun(d: seq<Byte>): string {
    if d == [] then "" else ByteHex(d[0]) + HexRun(d[1..])
  }

  function SpacedHex(d: seq<Byte>): string {
    if d == [] then "" else if |d| == 1 then ByteHex(d[0]) else ByteHex(d[0]) + " " + SpacedHex(d[1..])
  }

  lemma {:induction false} UpperHexlify(d: seq<Byte>)
    ensures Upper(Hexlify(d)) == HexRun(d)
    ensures |HexRun(d)| == 2 * |d|
  {
    if d != [] {
      UpperHexlify(d[1..]);
      assert Upper(Hexlify(d)) == ByteHex(d[0]) + Upper(Hexlify(d[1..]));
    }
  }

  lemma {:induction false} JoinHexPairs(d: seq<Byte>)
    ensures Join(Chunks(HexRun(d), 2), " ") == SpacedHex(d)
  {
    if d != [] {
      JoinHexPairs(d[1..]);
      UpperHexlify(d);
      ChunksStep(HexRun(d), 2);
      assert HexRun(d)[2..] == HexRun(d[1..]) && HexRun(d)[..2] == ByteHex(d[0]);
      var c := Chunks(HexRun(d), 2);
      assert c == [ByteHex(d[0])] + Chunks(HexRun(d[1..]), 2);
      assert c[1..] == Chunks(HexRun(d[1..]), 2);
      UpperHexlify(d[1..]);
    }
  }

  /** `dump(d)` prints the bytes as digit pairs separated by single blanks. */
  lemma DumpIsSpacedHex(d: seq<Byte>)
    ensures Dump(d, 2, " ") == SpacedHex(d)
  {
    UpperHexlify(d);
    JoinHexPairs(d);
  }

  /** Neither blank, colon nor line break. */
  predicate Plain(c: char) {
    !IsSpace(c) && c != ':' && c != '\n'
  }

  lemma {:induction false} SpacedHexShape(d: seq<Byte>)
    requires d != []
    ensures |SpacedHex(d)| == 3 * |d| - 1
    ensures forall c :: c in SpacedHex(d) ==> c == ' ' || Plain(c)
    ensures Plain(SpacedHex(d)[0]) && Plain(SpacedHex(d)[|SpacedHex(d)| - 1])
    ensures |d| > 1 ==> SpacedHex(d)[2] == ' '
    ensures FromHex(SpacedHex(d)) == Ok(d)
  {
    HexDigitValue(d[0] / 16);
    HexDigitValue(d[0] % 16);
    FromHexByte(d[0]);
    if |d| == 1 {
      assert d == [d[0]];
    } else {
      var rest := SpacedHex(d[1..]);
      SpacedHexShape(d[1..]);
      FromHexAppend(ByteHex(d[0]), " " + rest, [d[0]]);
      assert (" " + rest)[1..] == rest;
      assert ByteHex(d[0]) + " " + rest == ByteHex(d[0]) + (" " + rest);
      assert [d[0]] + d[1..] == d;
    }
  }

  lemma {:induction false} SpacedHexAppend(a: seq<Byte>, b: seq<Byte>)
    requires a != [] && b != []
    ensures SpacedHex(a + b) == SpacedHex(a) + " " + SpacedHex(b)
  {
    assert (a + b)[1..] == a[1..] + b;
    if |a| > 1 {
      SpacedHexAppend(a[1..], b);
    }
  }

  // ----- the 50 columns ---------------------------------------------------

  predicate IsRow(d: seq<Byte>) { 1 <= |d| <= 16 }

  /** The hex digits of a row with the extra blank after the eighth byte. */
  function HexText(d: seq<Byte>): string
    requires IsRow(d)
  {
    if |d| <= 8 then SpacedHex(d) else SpacedHex(d[..8]) + "  " + SpacedHex(d[8..])
  }

  /** A row as printed, without its address. */
  function Body(d: seq<Byte>): string {
    HexColumns(d) + Gutter(d)
  }

  lemma HexTextShape(d: seq<Byte>)
    requires IsRow(d)
    ensures |HexText(d)| == if |d| <= 8 then 3 * |d| - 1 else 3 * |d|
    ensures forall c :: c in HexText(d) ==> c == ' ' || Plain(c)
    ensures Plain(HexText(d)[0]) && Plain(HexText(d)[|HexText(d)| - 1])
    ensures |d| > 1 ==> HexText(d)[2] == ' '
    ensures FromHex(HexText(d)) == Ok(d)
  {
    if |d| <= 8 {
      SpacedHexShape(d);
    } else {
      var a, b := SpacedHex(d[..8]), SpacedHex(d[8..]);
      SpacedHexShape(d[..8]);
      SpacedHexShape(d[8..]);
      FromHexAppend(a, "  " + b, d[..8]);
      assert ("  " + b)[1..][1..] == b;
      assert a + "  " + b == a + ("  " + b);
      assert d[..8] + d[8..] == d;
    }
  }

  lemma HexColumnsShort(d: seq<Byte>, dumpstr: string)
    requires 1 <= |d| <= 8 && Dump(d, 2, " ") == dumpstr && |dumpstr| <= 23
    ensures HexColumns(d) == dumpstr + Blanks(51 - 3 * |d|)
  {
    assert Slice(dumpstr, 0, 24) + "" == dumpstr;
  }

  lemma HexColumnsLong(d: seq<Byte>, a: string, b: string)
    requires 8 < |d| <= 16 && a == SpacedHex(d[..8]) && b == SpacedHex(d[8..])
    ensures HexColumns(d) == (a + "  " + b) + Blanks(50 - 3 * |d|)
  {
    DumpIsSpacedHex(d);
    SpacedHexShape(d);
    SpacedHexShape(d[..8]);
    SpacedHexAppend(d[..8], d[8..]);
    CutAndJoined(d, 8);
    var s, a1 := SpacedHex(d), a + " ";
    assert s == a1 + b && |a1| == 24;
    assert HexColumns(d) == Slice(s, 0, 24) + (" " + Slice(s, 24, 24 + |s|)) + Blanks(50 - 3 * |d|);
    hide SpacedHex, Dump, HexColumns;
    JoinedAndCut(a1, b);
    assert Slice(s, 0, 24) == a1 && Slice(s, 24, 24 + |s|) == b;
    Regrouped(a1, " ", b);
    assert a1 + " " == a + "  ";
  }

  lemma HexColumnsShape(d: seq<Byte>)
    requires IsRow(d)
    ensures |HexText(d)| <= 48
    ensures HexColumns(d) == HexText(d) + Blanks(50 - |HexText(d)|)
    ensures |HexColumns(d)| == 50
  {
    HexTextShape(d);
    if |d| <= 8 {
      DumpIsSpacedHex(d);
      HexColumnsShort(d, SpacedHex(d));
    } else {
      HexColumnsLong(d, SpacedHex(d[..8]), SpacedHex(d[8..]));
    }
  }

  /** Layout: for every row length the gutter starts exactly 50 columns after the
      `": "` that ends the address, and everything before it decodes to the row. */
  lemma GutterColumn(index: nat, d: seq<Byte>)
    requires IsRow(d)
    ensures var a := |Format08X(16 * index)| + 2;
      && |RowLine(index, d)| == a + 50 + |d|
      && RowLine(index, d)[a + 50..] == Gutter(d)
      && FromHex(RowLine(index, d)[a..a + 50]) == Ok(d)
  {
    HexColumnsShape(d);
    HexTextShape(d);
    DecodePadded(HexText(d), Blanks(50 - |HexText(d)|), d);
    var a := |Format08X(16 * index)| + 2;
    assert RowLine(index, d)[a..a + 50] == HexColumns(d);
  }

  // ----- reading one line -------------------------------------------------

  /** What may follow the hex digits of a row: nothing at all, or the padding up
      to column 50 and at least one gutter character. */
  predicate IsTail(d: seq<Byte>, t: string)
    requires IsRow(d)
  {
    var pad := 50 - |HexText(d)|;
    t == "" || (0 <= pad < |t| && forall i :: 0 <= i < pad ==> t[i] == ' ')
  }

  lemma NativeColumns(h: string, t: string)
    requires 26 < |h| <= 48 && h[23] == ' ' && h[24] == ' ' && h[25] != ' '
    ensures SelectColumns(h + t) == h + Slice(t, 0, 48 - |h|)
  {
    var l := h + t;
    var sep := Slice(l, 23, 26);
    assert sep == [' ', ' ', h[25]];
    assert Slice(sep, 0, 2) == "  " && Slice(sep, 2, 3)[0] == h[25];
    assert Slice(l, 0, 48) == h + Slice(t, 0, 48 - |h|);
  }

  lemma FarManagerColumns(h: string, t: string)
    requires |h| <= 23 && |t| > 50 - |h| && forall i :: 0 <= i < 50 - |h| ==> t[i] == ' '
    ensures SelectColumns(h + t) == h + Blanks(46 - |h|)
  {
    var l := h + t;
    assert forall i :: |h| <= i < 50 ==> l[i] == t[i - |h|] == ' ';
    var sep := Slice(l, 23, 26);
    assert sep == [' ', ' ', ' '];
    assert Slice(sep, 2, 3) == [sep[2]] == " ";
    assert SelectColumns(l) == Slice(l, 0, 23) + Slice(l, 26, 49);
    assert Slice(l, 0, 23) == h + Blanks(23 - |h|) && Slice(l, 26, 49) == Blanks(23);
  }

  lemma DecodePadded(h: string, pad: string, d: seq<Byte>)
    requires FromHex(h) == Ok(d) && forall i :: 0 <= i < |pad| ==> pad[i] == ' '
    ensures FromHex(h + pad) == Ok(d)
  {
    FromHexBlank(pad);
    FromHexAppend(h, pad, d);
    assert d + [] == d;
  }

  lemma DecodeNative(d: seq<Byte>, t: string)
    requires 8 < |d| <= 16 && IsTail(d, t)
    ensures FromHex(SelectColumns(HexText(d) + t)) == Ok(d)
  {
    HexTextShape(d);
    SpacedHexShape(d[..8]);
    SpacedHexShape(d[8..]);
    var h, a, b := HexText(d), SpacedHex(d[..8]), SpacedHex(d[8..]);
    assert h == a + "  " + b;
    hide HexText, SpacedHex, FromHex, SelectColumns;
    NativeColumns(h, t);
    DecodePadded(h, Slice(t, 0, 48 - |h|), d);
  }

  lemma DecodeFarManager(d: seq<Byte>, t: string)
    requires 1 <= |d| <= 8 && IsTail(d, t) && t != ""
    ensures FromHex(SelectColumns(HexText(d) + t)) == Ok(d)
  {
    HexTextShape(d);
    hide HexText, FromHex, SelectColumns;
    var h := HexText(d);
    FarManagerColumns(h, t);
    DecodePadded(h, Blanks(46 - |h|), d);
  }

  lemma DecodeScapy(d: seq<Byte>)
    requires 1 <= |d| <= 8
    ensures FromHex(SelectColumns(HexText(d))) == Ok(d)
  {
    HexTextShape(d);
    assert SelectColumns(HexText(d)) == HexText(d);
  }

  /** The three layouts between them read every row, whole or with its trailing
      blanks stripped; only a stripped one-byte row is too short to look at. */
  lemma DecodeBody(d: seq<Byte>, t: string)
    requires IsRow(d) && IsTail(d, t)
    ensures var l := HexText(d) + t;
      if |d| == 1 && t == "" then |l| == 2
      else |l| > 2 && l[2] == ' ' && FromHex(SelectColumns(l)) == Ok(d)
  {
    HexTextShape(d);
    assert HexText(d) + "" == HexText(d);
    if |d| > 8 {
      DecodeNative(d, t);
    } else if t == "" {
      DecodeScapy(d);
    } else {
      DecodeFarManager(d, t);
    }
  }

  /** What precedes a row on its line: nothing, one blank, or an address. */
  predicate IsPrefix(p: string) {
    p == "" || p == " " || IsAddress(p)
  }

  predicate IsAddress(p: string) {
    && 3 <= |p| && p[|p| - 2..] == ": "
    && forall i :: 0 <= i < |p| - 2 ==> Plain(p[i])
  }

  /** An address too wide for the `addrend < minhexwidth` test. */
  predicate IsWide(p: string) {
    |p| >= MIN_HEX_WIDTH + 2
  }

  lemma NoEarlyColon(p: string, d: seq<Byte>, t: string)
    requires IsRow(d) && IsTail(d, t) && (p == "" || p == " ")
    ensures StripAddress(p + HexText(d) + t) == p + HexText(d) + t
  {
    HexTextShape(d);
    var h := HexText(d);
    var s := p + h + t;
    forall i | 0 <= i < |s| && i < 50
      ensures s[i] != ':'
    {
      if |p| <= i < |p| + |h| { assert s[i] in h; }
    }
  }

  lemma StripNarrowAddress(p: string, l: string)
    requires IsAddress(p) && !IsWide(p)
    ensures StripAddress(p + l) == " " + l
  {
    assert (p + l)[|p| - 2] == ':';
    assert (p + l)[..|p| - 2] == p[..|p| - 2];
    FindFirst(p + l, ':', |p| - 2);
    var a := p[..|p| - 1];
    assert p == a + " " by {
      assert p[|p| - 2..][1] == ' ';
    }
    Regrouped(a, " ", l);
    JoinedAndCut(a, " " + l);
  }

  lemma LStripBlank(l: string)
    requires l != "" && !IsSpace(l[0])
    ensures LStrip(l) == l && LStrip(" " + l) == l
  {
    assert (" " + l)[1..] == l;
  }

  lemma ReadHexPart(p: string, l: string)
    requires IsPrefix(p) && !IsWide(p) && l != "" && Plain(l[0])
    requires !IsAddress(p) ==> StripAddress(p + l) == p + l
    ensures RestoreLine(p + l) ==
      if |l| <= 2 then Err(IndexError) else FromHex(if l[2] == ' ' then SelectColumns(l) else l)
  {
    LStripBlank(l);
    if IsAddress(p) {
      StripNarrowAddress(p, l);
    } else {
      assert "" + l == l;
    }
  }

  /** Reading back one printed row. */
  lemma RestoreRow(p: string, d: seq<Byte>, t: string)
    requires IsPrefix(p) && !IsWide(p) && IsRow(d) && IsTail(d, t)
    ensures RestoreLine(p + HexText(d) + t) ==
      if |d| == 1 && t == "" then Err(IndexError) else Ok(d)
  {
    var h := HexText(d);
    assert p + h + t == p + (h + t);
    assert h != "" && Plain((h + t)[0]) by { HexTextShape(d); }
    if !IsAddress(p) {
      NoEarlyColon(p, d, t);
    }
    ReadHexPart(p, h + t);
    DecodeBody(d, t);
  }

  /** A line whose address is 32 or more digits long is taken for raw hex, and the
      colon makes it fail. */
  lemma RestoreWideRow(p: string, l: string)
    requires IsAddress(p) && IsWide(p)
    ensures RestoreLine(p + l) == Err(ValueError)
  {
    var s := p + l;
    assert s[|p| - 2] == ':' by { assert p[|p| - 2..][0] == ':'; }
    assert s[..|p| - 2] == p[..|p| - 2];
    FindFirst(s, ':', |p| - 2);
    LStripBlank(s);
    assert s[2] == p[2] != ' ';
    FromHexRejects(s, |p| - 2);
  }

  // ----- stripping the whole text -----------------------------------------

  lemma RStripParts(h: string, pad: string, g: string)
    requires h != "" && !IsSpace(h[|h| - 1])
    requires forall i :: 0 <= i < |pad| ==> pad[i] == ' '
    ensures RStrip(h + (pad + g)) == h + RStrip(pad + g)
    ensures RStrip(pad + g) == if RStrip(g) == "" then "" else pad + RStrip(g)
  {
    RStripPrefix(pad);
    RStripAppend(pad, g);
    RStripAppend(h, pad + g);
    assert h + "" == h;
  }

  lemma GutterBlanks(d: seq<Byte>)
    ensures RStrip(Gutter(d)) == "" <==> forall k :: 0 <= k < |d| ==> d[k] == 0x20
  {
    RStripPrefix(Gutter(d));
    assert forall k :: 0 <= k < |d| ==> Gutter(d)[k] == GutterChar(d[k]);
  }

  /** Stripping blanks off the end of a printed row removes gutter blanks only,
      unless the row consists of blanks, when the padding goes too. */
  lemma StrippedRow(p: string, d: seq<Byte>) returns (t: string)
    requires IsRow(d)
    ensures RStrip(p + Body(d)) == p + HexText(d) + t && IsTail(d, t)
    ensures t == "" <==> forall k :: 0 <= k < |d| ==> d[k] == 0x20
  {
    HexTextShape(d);
    HexColumnsShape(d);
    var h, pad, g := HexText(d), Blanks(50 - |HexText(d)|), Gutter(d);
    assert p + Body(d) == (p + h) + (pad + g);
    RStripParts(p + h, pad, g);
    GutterBlanks(d);
    t := RStrip(pad + g);
  }

  lemma LStripJoin(parts: seq<string>, sep: string)
    requires parts != [] && LStrip(parts[0]) != ""
    ensures LStrip(Join(parts, sep)) == Join(parts[0 := LStrip(parts[0])], sep)
  {
    var rest := if |parts| == 1 then "" else sep + Join(parts[1..], sep);
    assert forall p: string {:trigger [p] + parts[1..]} :: Join([p] + parts[1..], sep) == p + rest by {
      forall p: string ensures Join([p] + parts[1..], sep) == p + rest {
        assert ([p] + parts[1..])[1..] == parts[1..];
      }
    }
    assert parts == [parts[0]] + parts[1..];
    assert parts[0 := LStrip(parts[0])] == [LStrip(parts[0])] + parts[1..];
    LStripAppend(parts[0], rest);
  }

  lemma {:induction false} LStripAppend(s: string, t: string)
    requires LStrip(s) != ""
    ensures LStrip(s + t) == LStrip(s) + t
  {
    if IsSpace(s[0]) {
      assert (s + t)[1..] == s[1..] + t;
      LStripAppend(s[1..], t);
    }
  }

  lemma RStripJoin(parts: seq<string>, sep: string)
    requires parts != [] && RStrip(parts[|parts| - 1]) != ""
    ensures RStrip(Join(parts, sep)) == Join(parts[|parts| - 1 := RStrip(parts[|parts| - 1])], sep)
  {
    var n := |parts| - 1;
    if n > 0 {
      var init, last := parts[..n], parts[n];
      assert parts == init + [last];
      assert parts[n := RStrip(last)] == init + [RStrip(last)];
      JoinSnoc(init, last, sep);
      JoinSnoc(init, RStrip(last), sep);
      RStripAppend(Join(init, sep) + sep, last);
    }
  }

  function TrimEnds(lines: seq<string>): seq<string>
    requires lines != []
  {
    var a := lines[0 := LStrip(lines[0])];
    a[|a| - 1 := RStrip(a[|a| - 1])]
  }

  /** `restore` of joined lines reads those lines, the first and the last one trimmed. */
  lemma RestoredJoin(lines: seq<string>)
    requires lines != []
    requires forall l :: l in lines ==> '\n' !in l
    requires LStrip(lines[0]) != "" && forall l :: l in TrimEnds(lines) ==> l != "" && '\n' !in l
    ensures Restored(Join(lines, "\n")) == RestoreLines(TrimEnds(lines))
  {
    var a := lines[0 := LStrip(lines[0])];
    LStripJoin(lines, "\n");
    assert RStrip(a[|a| - 1]) == TrimEnds(lines)[|a| - 1];
    assert TrimEnds(lines)[|a| - 1] in TrimEnds(lines);
    RStripJoin(a, "\n");
    SplitJoin(TrimEnds(lines), '\n');
  }

  // ----- reading a whole dump ---------------------------------------------

  lemma {:induction false} RestoreLinesPrefix(lines: seq<string>, rows: seq<seq<Byte>>, k: nat)
    requires k <= |lines| && k <= |rows|
    requires forall i :: 0 <= i < k ==> RestoreLine(lines[i]) == Ok(rows[i])
    ensures RestoreLines(lines) == Prepend(Concat(rows[..k]), RestoreLines(lines[k..]))
  {
    if k == 0 {
      assert lines[0..] == lines;
      PrependTwice([], [], RestoreLines(lines));
    } else {
      RestoreLinesPrefix(lines[1..], rows[1..], k - 1);
      assert lines[1..][k - 1..] == lines[k..];
      assert rows[..k][1..] == rows[1..][..k - 1];
      PrependTwice(rows[0], Concat(rows[1..][..k - 1]), RestoreLines(lines[k..]));
    }
  }

  /** A printed row with what precedes it on the line. */
  predicate IsPrinted(line: string, p: string, d: seq<Byte>) {
    IsPrefix(p) && IsRow(d) && line == p + Body(d)
  }

  lemma PrintedNoBreak(line: string, p: string, d: seq<Byte>)
    requires IsPrinted(line, p, d)
    ensures '\n' !in line && line != "" && '\n' !in RStrip(line) && RStrip(line) != ""
  {
    hide SpacedHex;
    var h := HexText(d);
    HexTextShape(d);
    HexColumnsShape(d);
    forall c | c in line
      ensures c != '\n'
    {
      assert line == p + h + Blanks(50 - |h|) + Gutter(d);
      assert c in p || c in h || c in Blanks(50 - |h|) || c in Gutter(d);
    }
    RStripPrefix(line);
    assert line[|p|] == h[0];
  }

  lemma PrintedTrimLeft(line: string, p: string, d: seq<Byte>)
    requires IsPrinted(line, p, d)
    ensures LStrip(line) != ""
    ensures IsPrinted(LStrip(line), if p == " " then "" else p, d)
  {
    HexTextShape(d);
    HexColumnsShape(d);
    assert Body(d)[0] == HexText(d)[0];
    if p == " " {
      LStripBlank(Body(d));
      assert "" + Body(d) == Body(d);
    } else {
      assert line[0] == if p == "" then Body(d)[0] else p[0];
      LStripBlank(line);
    }
  }

  lemma OneBlank(d: seq<Byte>)
    ensures d == [0x20] <==> |d| == 1 && forall k :: 0 <= k < |d| ==> d[k] == 0x20
  {
    assert |d| == 1 ==> d == [d[0]];
  }

  lemma StrippedPrinted(p: string, d: seq<Byte>) returns (u: string)
    requires IsRow(d) && IsPrefix(p)
    ensures RStrip(p + Body(d)) == p + u
    ensures !IsWide(p) ==> RestoreLine(p + u) == if d == [0x20] then Err(IndexError) else Ok(d)
  {
    hide *;
    var t := StrippedRow(p, d);
    OneBlank(d);
    u := HexText(d) + t;
    assert p + u == p + HexText(d) + t;
    if !IsWide(p) { RestoreRow(p, d, t); }
  }

  lemma WholePrinted(p: string, d: seq<Byte>)
    requires IsRow(d) && IsPrefix(p) && !IsWide(p)
    ensures RestoreLine(p + Body(d)) == Ok(d)
  {
    hide HexText, SpacedHex, FromHex, RestoreLine, IsSpace;
    HexColumnsShape(d);
    var tail := Blanks(50 - |HexText(d)|) + Gutter(d);
    assert p + Body(d) == p + HexText(d) + tail;
    RestoreRow(p, d, tail);
  }

  lemma PrintedLine(line: string, p: string, d: seq<Byte>)
    requires IsPrinted(line, p, d)
    ensures !IsWide(p) ==> RestoreLine(line) == Ok(d)
    ensures !IsWide(p) ==> RestoreLine(RStrip(line)) == if d == [0x20] then Err(IndexError) else Ok(d)
    ensures IsWide(p) ==> RestoreLine(line) == RestoreLine(RStrip(line)) == Err(ValueError)
  {
    var u := StrippedPrinted(p, d);
    if IsWide(p) {
      RestoreWideRow(p, Body(d));
      RestoreWideRow(p, u);
    } else {
      WholePrinted(p, d);
    }
  }

  /** Trimming keeps every line of a dump a printed row, except that the last one
      may have lost blanks. */
  lemma {:induction false} TrimmedLines(lines: seq<string>, ps: seq<string>, rows: seq<seq<Byte>>)
    requires |lines| == |ps| == |rows| > 0
    requires forall k :: 0 <= k < |lines| ==> IsPrinted(lines[k], ps[k], rows[k])
    ensures |TrimEnds(lines)| == |lines|
    ensures Restored(Join(lines, "\n")) == RestoreLines(TrimEnds(lines))
    ensures forall k :: 0 <= k < |lines| ==>
      RestoreLine(TrimEnds(lines)[k]) ==
        if IsWide(ps[k]) then Err(ValueError)
        else if k == |lines| - 1 && rows[k] == [0x20] then Err(IndexError)
        else Ok(rows[k])
  {
    hide IsPrinted, RestoreLine, RStrip, LStrip, Join, Restored, RestoreLines;
    var n := |lines| - 1;
    var trimmed := TrimEnds(lines);
    var p0 := if ps[0] == " " then "" else ps[0];
    var a := lines[0 := LStrip(lines[0])];
    PrintedTrimLeft(lines[0], ps[0], rows[0]);
    forall k | 0 <= k < |lines|
      ensures '\n' !in lines[k] && '\n' !in trimmed[k] && trimmed[k] != ""
      ensures RestoreLine(trimmed[k]) ==
        if IsWide(ps[k]) then Err(ValueError)
        else if k == n && rows[k] == [0x20] then Err(IndexError)
        else Ok(rows[k])
    {
      var p := if k == 0 then p0 else ps[k];
      assert IsPrinted(a[k], p, rows[k]);
      assert trimmed[k] == if k == n then RStrip(a[k]) else a[k];
      PrintedNoBreak(lines[k], ps[k], rows[k]);
      PrintedNoBreak(a[k], p, rows[k]);
      PrintedLine(a[k], p, rows[k]);
    }
    RestoredJoin(lines);
  }

  /** Lines without over-wide addresses are read back, unless the last row is one blank. */
  lemma RestoreNarrow(lines: seq<string>, ps: seq<string>, rows: seq<seq<Byte>>)
    requires |lines| == |ps| == |rows| > 0
    requires forall k :: 0 <= k < |lines| ==> IsPrinted(lines[k], ps[k], rows[k]) && !IsWide(ps[k])
    ensures Restored(Join(lines, "\n")) ==
      if rows[|rows| - 1] == [0x20] then Err(IndexError) else Ok(Concat(rows))
  {
    hide IsPrinted, IsWide, TrimEnds, RestoreLine, Restored, Join;
    TrimmedLines(lines, ps, rows);
    var n := |lines| - 1;
    var trimmed := TrimEnds(lines);
    if rows[n] == [0x20] {
      RestoreLinesPrefix(trimmed, rows, n);
      assert trimmed[n..][0] == trimmed[n];
    } else {
      RestoreLinesPrefix(trimmed, rows, n + 1);
      assert trimmed[n + 1..] == [] && rows[..n + 1] == rows;
      assert Concat(rows) + [] == Concat(rows);
    }
  }

  /** The first over-wide address stops the reading. */
  lemma RestoreWide(lines: seq<string>, ps: seq<string>, rows: seq<seq<Byte>>, w: nat)
    requires |lines| == |ps| == |rows| && w < |lines|
    requires forall k :: 0 <= k < |lines| ==> IsPrinted(lines[k], ps[k], rows[k])
    requires IsWide(ps[w]) && forall k :: 0 <= k < w ==> !IsWide(ps[k])
    ensures Restored(Join(lines, "\n")) == Err(ValueError)
  {
    TrimmedLines(lines, ps, rows);
    var trimmed := TrimEnds(lines);
    RestoreLinesPrefix(trimmed, rows, w);
    assert trimmed[w..][0] == trimmed[w];
  }

  // ----- addresses --------------------------------------------------------

  function Pow16(k: nat): nat {
    if k == 0 then 1 else 16 * Pow16(k - 1)
  }

  /** 16^31: from this many bytes on, addresses have 32 hex digits. */
  function AddressLimit(): nat { Pow16(31) }

  lemma {:induction false} HexDigitsWidth(n: nat, k: nat)
    requires k > 0
    ensures |HexDigits(n)| <= k <==> n < Pow16(k)
    ensures |HexDigits(n)| > 0 && forall c :: c in HexDigits(n) ==> Plain(c)
    decreases k
  {
    HexDigitValue(n % 16);
    if n >= 16 {
      if k > 1 {
        HexDigitsWidth(n / 16, k - 1);
      } else {
        HexDigitsPlain(n / 16);
        assert Pow16(1) == 16 * Pow16(0);
      }
    } else {
      Pow16Grows(k);
    }
  }

  lemma {:induction false} HexDigitsPlain(n: nat)
    ensures |HexDigits(n)| > 0 && forall c :: c in HexDigits(n) ==> Plain(c)
  {
    HexDigitValue(n % 16);
    if n >= 16 { HexDigitsPlain(n / 16); }
  }

  lemma {:induction false} Pow16Grows(k: nat)
    requires k > 0
    ensures Pow16(k) >= 16
  {
    if k > 1 { Pow16Grows(k - 1); }
  }

  /** The address of row `k` is over-wide from byte 16^31 on. */
  lemma AddressWidth(k: nat)
    ensures IsAddress(Format08X(16 * k) + ": ")
    ensures IsWide(Format08X(16 * k) + ": ") <==> 16 * k >= AddressLimit()
  {
    HexDigitsWidth(16 * k, 31);
    var s := Format08X(16 * k);
    assert forall i :: 0 <= i < |s| ==> Plain(s[i]) by {
      assert forall c :: c in s ==> c == '0' || c in HexDigits(16 * k);
    }
  }

  lemma DumpLinesPrinted(rows: seq<seq<Byte>>) returns (ps: seq<string>)
    requires forall k :: 0 <= k < |rows| ==> IsRow(rows[k])
    ensures |ps| == |rows| == |DumpLines(rows)|
    ensures forall k :: 0 <= k < |rows| ==>
      && IsPrinted(DumpLines(rows)[k], ps[k], rows[k])
      && (IsWide(ps[k]) <==> 16 * k >= AddressLimit())
  {
    ps := seq(|rows|, k requires 0 <= k < |rows| => Format08X(16 * k) + ": ");
    forall k | 0 <= k < |rows|
      ensures IsPrinted(DumpLines(rows)[k], ps[k], rows[k])
      ensures IsWide(ps[k]) <==> 16 * k >= AddressLimit()
    {
      AddressWidth(k);
      assert ps[k] + HexColumns(rows[k]) + Gutter(rows[k]) == ps[k] + Body(rows[k]);
    }
  }

  lemma RowsOf(d: seq<Byte>)
    requires d != []
    ensures var rows := Chunks(d, 16);
      && rows != [] && Concat(rows) == d
      && (forall k :: 0 <= k < |rows| ==> IsRow(rows[k]))
      && 16 * (|rows| - 1) < |d| <= 16 * |rows|
      && rows[|rows| - 1] == d[16 * (|rows| - 1)..]
  {
    RowsIndexed(d);
    ConcatChunks(d, 16);
  }

  /** The byte strings whose last dump row is the single byte 0x20. */
  predicate EndsInLoneBlank(d: seq<Byte>) {
    |d| % 16 == 1 && d[|d| - 1] == 0x20
  }

  // ----- main results -----------------------------------------------------

  lemma LoneBlankRow(d: seq<Byte>)
    requires d != []
    ensures var rows := Chunks(d, 16); rows != [] && (rows[|rows| - 1] == [0x20] <==> EndsInLoneBlank(d))
  {
    hide Chunks, Concat;
    RowsOf(d);
    var n := |Chunks(d, 16)| - 1;
    var last := Chunks(d, 16)[n];
    assert |last| == |d| - 16 * n;
    assert |last| == 1 <==> |d| % 16 == 1;
    assert last[|last| - 1] == d[|d| - 1];
    assert |last| == 1 ==> last == [last[0]];
  }

  lemma RoundTripWide(d: seq<Byte>, w: nat)
    requires |d| > AddressLimit() == 16 * w
    ensures Restored(HexdumpText(d)) == Err(ValueError)
  {
    assert HexdumpText(d) == Join(DumpLines(Chunks(d, 16)), "\n");
    hide *;
    RowsOf(d);
    var rows := Chunks(d, 16);
    var ps := DumpLinesPrinted(rows);
    RestoreWide(DumpLines(rows), ps, rows, w);
  }

  lemma RoundTripNarrow(d: seq<Byte>)
    requires 0 < |d| <= AddressLimit()
    ensures Restored(HexdumpText(d)) == if EndsInLoneBlank(d) then Err(IndexError) else Ok(d)
  {
    var rows := Chunks(d, 16);
    assert HexdumpText(d) == Join(DumpLines(rows), "\n");
    hide *;
    RowsOf(d);
    LoneBlankRow(d);
    var ps := DumpLinesPrinted(rows);
    forall k | 0 <= k < |rows|
      ensures !IsWide(ps[k])
    {
      assert 16 * k <= 16 * (|rows| - 1) < AddressLimit();
    }
    RestoreNarrow(DumpLines(rows), ps, rows);
  }

  /** The round trip on every byte string: what `restore(hexdump(d, "return"))`
      returns, and which exception it raises when it does not return `d`. */
  lemma RoundTrip(d: seq<Byte>)
    ensures Restored(HexdumpText(d)) ==
      if d == [] then Err(IndexError)
      else if |d| > AddressLimit() then Err(ValueError)
      else if EndsInLoneBlank(d) then Err(IndexError)
      else Ok(d)
  {
    if d == [] {
      assert DumpLines(Chunks(d, 16)) == [];
      assert Split(Strip(""), '\n') == [""];
    } else if |d| > AddressLimit() {
      RoundTripWide(d, Pow16(30));
    } else {
      RoundTripNarrow(d);
    }
  }

  /** The same as a condition that a caller can check on the data. */
  lemma RoundTripDomain(d: seq<Byte>)
    ensures Restored(HexdumpText(d)) == Ok(d) <==>
      0 < |d| <= AddressLimit() && !EndsInLoneBlank(d)
  {
    RoundTrip(d);
  }

  /** Printing a file and printing its bytes restore alike. */
  method RoundTripFile(f: Reader) returns (r: Result<seq<Byte>>)
    requires f.Valid()
    modifies f
    ensures var d := old(f.Remaining());
      r == Ok(d) <==> 0 < |d| <= AddressLimit() && !EndsInLoneBlank(d)
  {
    ghost var d := f.Remaining();
    var text := HexdumpFile(f);
    r := Restore(text);
    RoundTripDomain(d);
  }

  /** No two byte strings have the same dump, those included that `restore` rejects. */
  lemma HexdumpInjective(a: seq<Byte>, b: seq<Byte>)
    requires HexdumpText(a) == HexdumpText(b)
    ensures a == b
  {
    var xs, ys := Chunks(a, 16), Chunks(b, 16);
    HexdumpEmpty(a);
    HexdumpEmpty(b);
    if a != [] && b != [] {
      RowsOf(a);
      RowsOf(b);
      SplitDump(xs);
      SplitDump(ys);
      forall k | 0 <= k < |xs|
        ensures xs[k] == ys[k]
      {
        GutterColumn(k, xs[k]);
        GutterColumn(k, ys[k]);
        assert DumpLines(xs)[k] == DumpLines(ys)[k];
      }
      assert xs == ys;
    }
  }

  lemma SplitDump(rows: seq<seq<Byte>>)
    requires rows != [] && forall k :: 0 <= k < |rows| ==> IsRow(rows[k])
    ensures Split(Join(DumpLines(rows), "\n"), '\n') == DumpLines(rows)
  {
    var ps := DumpLinesPrinted(rows);
    forall l | l in DumpLines(rows)
      ensures '\n' !in l
    {
      var k :| 0 <= k < |rows| && DumpLines(rows)[k] == l;
      PrintedNoBreak(l, ps[k], rows[k]);
    }
    SplitJoin(DumpLines(rows), '\n');
  }

  lemma HexdumpEmpty(d: seq<Byte>)
    ensures HexdumpText(d) == "" <==> d == []
  {
    if d != [] {
      RowsOf(d);
      var rows := Chunks(d, 16);
      GutterColumn(0, rows[0]);
      var lines := DumpLines(rows);
      assert |Join(lines, "\n")| >= |lines[0]|;
    }
  }
}
