/** The hex dump printer (`chunks`, `chunkread`, `dump`, `dumpgen`, `hexdump`)
    and the parser `restore`, written both as specification functions and, where
    the program loops, as methods proved against them. */
module Hexdump {
  import opened PyText

  // ----- chunking ---------------------------------------------------------

  /** The pieces of `s`, all of length `size` except possibly the last. */
  function Chunks<T>(s: seq<T>, size: nat): seq<seq<T>>
    requires size > 0
  {
    if s == [] then []
    else if |s| <= size then [s]
    else [s[..size]] + Chunks(s[size..], size)
  }

  function Concat<T>(parts: seq<seq<T>>): seq<T> {
    if parts == [] then [] else parts[0] + Concat(parts[1..])
  }

  /** Cutting loses nothing. */
  lemma {:induction false} ConcatChunks<T>(s: seq<T>, size: nat)
    requires size > 0
    ensures Concat(Chunks(s, size)) == s
    decreases |s|
  {
    if |s| > size {
      ConcatChunks(s[size..], size);
      assert Chunks(s, size)[1..] == Chunks(s[size..], size);
    }
  }

  lemma ChunksStep<T>(s: seq<T>, size: nat)
    requires 0 < size <= |s|
    ensures Chunks(s, size) == [s[..size]] + Chunks(s[size..], size)
  {
    if |s| == size { assert s[..size] == s; }
  }

  /** The rows of a dump: how many, what each holds, and how long the last one is. */
  lemma {:induction false} RowsIndexed<T>(s: seq<T>)
    ensures |Chunks(s, 16)| == (|s| + 15) / 16
    ensures forall k :: 0 <= k < |Chunks(s, 16)| ==>
      16 * k < |s| && Chunks(s, 16)[k] == Slice(s, 16 * k, 16 * k + 16)
    decreases |s|
  {
    if |s| > 16 {
      var t := s[16..];
      RowsIndexed(t);
      var c, d := Chunks(s, 16), Chunks(t, 16);
      forall k | 0 <= k < |c|
        ensures 16 * k < |s| && c[k] == Slice(s, 16 * k, 16 * k + 16)
      {
        if k > 0 { assert c[k] == d[k - 1]; }
      }
    }
  }

  lemma MultipleBelow(i: nat, d: nat, size: nat)
    requires i < d
    ensures 0 <= i * size <= i * size + size == (i + 1) * size <= d * size
  {
    if i + 1 < d {
      MultipleBelow(i, d - 1, size);
      assert d * size == (d - 1) * size + size;
    }
  }

  /** The generator `chunks`: full pieces first, then the remainder if any. */
  method ChunkSequence<T>(s: seq<T>, size: nat) returns (parts: seq<seq<T>>)
    requires size > 0
    ensures parts == Chunks(s, size)
  {
    var d, m := |s| / size, |s| % size;
    assert d * size + m == |s|;
    parts := [];
    for i := 0 to d
      invariant 0 <= i * size <= d * size
      invariant Chunks(s, size) == parts + Chunks(s[i * size..], size)
    {
      MultipleBelow(i, d, size);
      var lo, hi := i * size, (i + 1) * size;
      ChunksStep(s[lo..], size);
      assert s[lo..][..size] == s[lo..hi] && s[lo..][size..] == s[hi..];
      parts := parts + [s[lo..hi]];
    }
    if m != 0 {
      parts := parts + [s[d * size..]];
    }
  }

  /** A file object whose reads return as much as was asked for while data lasts. */
  class Reader {
    const data: seq<Byte>
    var position: nat

    ghost predicate Valid() reads this { position <= |data| }

    ghost function Remaining(): seq<Byte>
      requires Valid()
      reads this
    {
      data[position..]
    }

    constructor (data: seq<Byte>)
      ensures Valid() && Remaining() == data
    {
      this.data, position := data, 0;
    }

    method Read(size: nat) returns (c: seq<Byte>)
      requires Valid()
      modifies this
      ensures Valid()
      ensures c == Slice(old(Remaining()), 0, size) && c + Remaining() == old(Remaining())
    {
      var end := if position + size <= |data| then position + size else |data|;
      c := data[position..end];
      position := end;
    }
  }

  /** The generator `chunkread` yields the same rows as `chunks` on the file's bytes. */
  method ChunkRead(f: Reader, size: nat) returns (parts: seq<seq<Byte>>)
    requires f.Valid() && size > 0
    modifies f
    ensures f.Valid() && f.Remaining() == []
    ensures parts == Chunks(old(f.Remaining()), size)
  {
    ghost var all := f.Remaining();
    parts := [];
    var c := f.Read(size);
    while |c| != 0
      invariant f.Valid()
      invariant |c| == 0 ==> f.Remaining() == []
      invariant c == Slice(c + f.Remaining(), 0, size)
      invariant Chunks(all, size) == parts + Chunks(c + f.Remaining(), size)
      decreases |c| + |f.Remaining()|
    {
      ghost var rest := f.Remaining();
      assert Chunks(c + rest, size) == [c] + Chunks(rest, size) by {
        assert c + rest == if rest == [] then c else (c + rest)[..size] + rest;
        assert rest != [] ==> (c + rest)[..size] == c && (c + rest)[size..] == rest;
      }
      parts := parts + [c];
      c := f.Read(size);
    }
  }

  // ----- printing ---------------------------------------------------------

  /** `dump(binary, size, sep)`. */
  function Dump(binary: seq<Byte>, size: nat, sep: string): string
    requires size > 0
  {
    Join(Chunks(Upper(Hexlify(binary)), size), sep)
  }

  function GutterChar(b: Byte): char {
    if 0x20 <= b <= 0x7E then b as char else '.'
  }

  function Gutter(d: seq<Byte>): string {
    seq(|d|, i requires 0 <= i < |d| => GutterChar(d[i]))
  }

  /** The blanks between the hex digits and the gutter. */
  function Padding(n: nat): nat {
    2 + (if n < 16 then 3 * (16 - n) else 0) + (if n <= 8 then 1 else 0)
  }

  /** The 50 columns of hex digits and blanks after the address. */
  function HexColumns(d: seq<Byte>): string {
    var dumpstr := Dump(d, 2, " ");
    Slice(dumpstr, 0, 24)
    + (if |d| > 8 then " " + Slice(dumpstr, 24, 24 + |dumpstr|) else "")
    + Blanks(Padding(|d|))
  }

  /** The line that `dumpgen` yields for row number `index`. */
  function RowLine(index: nat, d: seq<Byte>): string {
    Format08X(16 * index) + ": " + HexColumns(d) + Gutter(d)
  }

  function DumpLines(rows: seq<seq<Byte>>): seq<string> {
    seq(|rows|, k requires 0 <= k < |rows| => RowLine(k, rows[k]))
  }

  /** `hexdump(data, "return")`. */
  function HexdumpText(data: seq<Byte>): string {
    Join(DumpLines(Chunks(data, 16)), "\n")
  }

  /** The loop of `dumpgen`. */
  method RenderRows(rows: seq<seq<Byte>>) returns (lines: seq<string>)
    ensures lines == DumpLines(rows)
  {
    lines := [];
    for addr := 0 to |rows|
      invariant lines == DumpLines(rows[..addr])
    {
      var line := RenderRow(addr, rows[addr]);
      DumpLinesSnoc(rows, addr);
      lines := lines + [line];
    }
    assert rows[..|rows|] == rows;
  }

  /** The body of that loop, which grows a line piece by piece. */
  method RenderRow(addr: nat, d: seq<Byte>) returns (line: string)
    ensures line == RowLine(addr, d)
  {
    var dumpstr := Dump(d, 2, " ");
    var hex := Slice(dumpstr, 0, 24);
    if |d| > 8 {
      hex := hex + (" " + Slice(dumpstr, 24, 24 + |dumpstr|));
    } else {
      assert hex + "" == hex;
    }
    var pad := 2;
    if |d| < 16 { pad := pad + 3 * (16 - |d|); }
    if |d| <= 8 { pad := pad + 1; }
    hex := hex + Blanks(pad);
    line := Format08X(16 * addr) + ": " + hex;
    ghost var columns := line;
    for i := 0 to |d|
      invariant line == columns + Gutter(d[..i])
    {
      GutterSnoc(d, i);
      if 0x20 <= d[i] <= 0x7E {
        line := line + [d[i] as char];
      } else {
        line := line + ".";
      }
    }
    assert d[..|d|] == d;
  }

  lemma GutterSnoc(d: seq<Byte>, i: nat)
    requires i < |d|
    ensures Gutter(d[..i + 1]) == Gutter(d[..i]) + [GutterChar(d[i])]
  {
  }

  lemma DumpLinesSnoc(rows: seq<seq<Byte>>, k: nat)
    requires k < |rows|
    ensures DumpLines(rows[..k + 1]) == DumpLines(rows[..k]) + [RowLine(k, rows[k])]
  {
  }

  method HexdumpBytes(data: seq<Byte>) returns (text: string)
    ensures text == HexdumpText(data)
  {
    var rows := ChunkSequence(data, 16);
    var lines := RenderRows(rows);
    text := Join(lines, "\n");
  }

  method HexdumpFile(f: Reader) returns (text: string)
    requires f.Valid()
    modifies f
    ensures text == HexdumpText(old(f.Remaining()))
  {
    var rows := ChunkRead(f, 16);
    var lines := RenderRows(rows);
    text := Join(lines, "\n");
  }

  // ----- parsing ----------------------------------------------------------

  const MIN_HEX_WIDTH := 32
  const BYTE_HEX_WIDTH := 47
  const SEP_START := 23

  /** Drops everything up to the first colon when that is not in the gutter. */
  function StripAddress(line: string): string {
    var a := Find(line, ':');
    if 0 < a < MIN_HEX_WIDTH then line[a + 1..] else line
  }

  /** Selects the hex columns of a `00 00 ...` line by looking at the separator:
      native, Far Manager or Scapy layout. */
  function SelectColumns(line: string): string {
    var sep := Slice(line, SEP_START, SEP_START + 3);
    if Slice(sep, 0, 2) == "  " && Slice(sep, 2, 3) != " " then
      Slice(line, 0, BYTE_HEX_WIDTH + 1)
    else if Slice(sep, 2, 3) == " " then
      Slice(line, 0, SEP_START) + Slice(line, SEP_START + 3, BYTE_HEX_WIDTH + 2)
    else
      Slice(line, 0, BYTE_HEX_WIDTH)
  }

  function RestoreLine(line: string): Result<seq<Byte>> {
    var l := LStrip(StripAddress(line));
    if |l| <= 2 then Err(IndexError)
    else FromHex(if l[2] == ' ' then SelectColumns(l) else l)
  }

  function RestoreLines(lines: seq<string>): Result<seq<Byte>> {
    if lines == [] then Ok([])
    else
      match RestoreLine(lines[0])
      case Err(e) => Err(e)
      case Ok(x) => Prepend(x, RestoreLines(lines[1..]))
  }

  /** What `restore(dump)` returns or raises. */
  function Restored(dump: string): Result<seq<Byte>> {
    RestoreLines(Split(Strip(dump), '\n'))
  }

  lemma RestoreLinesStep(result: seq<Byte>, lines: seq<string>, k: nat)
    requires k < |lines|
    ensures Prepend(result, RestoreLines(lines[k..])) ==
      match RestoreLine(lines[k])
      case Err(e) => Err(e)
      case Ok(x) => Prepend(result + x, RestoreLines(lines[k + 1..]))
  {
    assert lines[k..][1..] == lines[k + 1..];
    var r := RestoreLine(lines[k]);
    if r.Ok? {
      PrependTwice(result, r.value, RestoreLines(lines[k + 1..]));
    }
  }

  /** The loop of `restore`. */
  method Restore(dump: string) returns (r: Result<seq<Byte>>)
    ensures r == Restored(dump)
  {
    var lines := Split(Strip(dump), '\n');
    var result: seq<Byte> := [];
    assert lines[0..] == lines;
    PrependTwice([], [], RestoreLines(lines));
    for k := 0 to |lines|
      invariant RestoreLines(lines) == Prepend(result, RestoreLines(lines[k..]))
    {
      RestoreLinesStep(result, lines, k);
      var decoded := RestoreOneLine(lines[k]);
      if decoded.Err? {
        return decoded;
      }
      result := result + decoded.value;
    }
    assert result + [] == result;
    r := Ok(result);
  }

  /** The body of that loop. */
  method RestoreOneLine(text: string) returns (r: Result<seq<Byte>>)
    ensures r == RestoreLine(text)
  {
    var line := text;
    var addrend := Find(line, ':');
    if 0 < addrend < MIN_HEX_WIDTH {
      line := line[addrend + 1..];
    }
    line := LStrip(line);
    if |line| <= 2 {
      return Err(IndexError);
    }
    if line[2] == ' ' {
      var sep := Slice(line, SEP_START, SEP_START + 3);
      var hexdata;
      if Slice(sep, 0, 2) == "  " && Slice(sep, 2, 3) != " " {
        hexdata := Slice(line, 0, BYTE_HEX_WIDTH + 1);
      } else if Slice(sep, 2, 3) == " " {
        hexdata := Slice(line, 0, SEP_START) + Slice(line, SEP_START + 3, BYTE_HEX_WIDTH + 2);
      } else {
        hexdata := Slice(line, 0, BYTE_HEX_WIDTH);
      }
      line := hexdata;
    }
    r := FromHex(line);
  }
}
