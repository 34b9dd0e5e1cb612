/** The Python text and bytes operations that the hex dump code relies on:
    `str.strip`, `str.lstrip`, `str.find`, `str.split`, `str.join`, slicing,
    `%08X` formatting, `binascii.hexlify`, `str.upper` and `bytes.fromhex`.
    Exceptions are modelled as failure results. */
module PyText {
  type Byte = b: int | 0 <= b < 256

  datatype PyError = IndexError | ValueError

  datatype Result<+T> = Ok(value: T) | Err(error: PyError)

  // ----- str methods ------------------------------------------------------

  /** The characters for which `str.isspace` holds, all of which `strip` removes. */
  predicate IsSpace(c: char) {
    || '\t' <= c <= '\r' || '\U{1C}' <= c <= ' ' || c == '\U{85}' || c == '\U{A0}'
    || c == '\U{1680}' || '\U{2000}' <= c <= '\U{200A}' || c == '\U{2028}'
    || c == '\U{2029}' || c == '\U{202F}' || c == '\U{205F}' || c == '\U{3000}'
  }

  function LStrip(s: string): string {
    if s != "" && IsSpace(s[0]) then LStrip(s[1..]) else s
  }

  function RStrip(s: string): string {
    if s != "" && IsSpace(s[|s| - 1]) then RStrip(s[..|s| - 1]) else s
  }

  function Strip(s: string): string {
    RStrip(LStrip(s))
  }

  /** `s.find(c)`: the first position of `c`, or -1. */
  function Find(s: string, c: char): (i: int)
    ensures -1 <= i < |s|
    ensures i < 0 ==> c !in s
    ensures 0 <= i ==> s[i] == c && c !in s[..i]
  {
    if s == "" then -1
    else if s[0] == c then 0
    else
      var i := Find(s[1..], c);
      if i < 0 then -1 else assert s[..i + 1] == [s[0]] + s[1..][..i]; i + 1
  }

  lemma {:induction false} FindFirst(s: string, c: char, i: nat)
    requires i < |s| && s[i] == c && c !in s[..i]
    ensures Find(s, c) == i
  {
    if i > 0 {
      assert s[0] == s[..i][0];
      assert s[1..][..i - 1] == s[..i][1..];
      FindFirst(s[1..], c, i - 1);
    }
  }

  /** `s.split(sep)` for a one-character separator. */
  function Split(s: string, sep: char): (parts: seq<string>)
    ensures |parts| >= 1
  {
    var i := Find(s, sep);
    if i < 0 then [s] else [s[..i]] + Split(s[i + 1..], sep)
  }

  /** `sep.join(parts)`. */
  function Join(parts: seq<string>, sep: string): string {
    if parts == [] then ""
    else if |parts| == 1 then parts[0]
    else parts[0] + sep + Join(parts[1..], sep)
  }

  /** `s[lo:hi]` for non-negative bounds, which Python clamps to the length. */
  function Slice<T>(s: seq<T>, lo: nat, hi: nat): seq<T>
    requires lo <= hi
  {
    var h := if hi <= |s| then hi else |s|;
    s[if lo <= h then lo else h..h]
  }

  function Blanks(n: nat): string {
    seq(n, _ => ' ')
  }

  // ----- hexadecimal ------------------------------------------------------

  function LowerDigit(n: int): char
    requires 0 <= n < 16
  {
    if n < 10 then ('0' as int + n) as char else ('a' as int + n - 10) as char
  }

  function UpperChar(c: char): char {
    if 'a' <= c <= 'z' then (c as int - 32) as char else c
  }

  function Upper(s: string): string {
    seq(|s|, i requires 0 <= i < |s| => UpperChar(s[i]))
  }

  /** `binascii.hexlify(b).decode("ascii")`. */
  function Hexlify(b: seq<Byte>): string {
    if b == [] then "" else [LowerDigit(b[0] / 16), LowerDigit(b[0] % 16)] + Hexlify(b[1..])
  }

  function HexDigit(n: int): char
    requires 0 <= n < 16
  {
    UpperChar(LowerDigit(n))
  }

  /** The digits that `%X` prints. */
  function HexDigits(n: nat): string {
    if n < 16 then [HexDigit(n)] else HexDigits(n / 16) + [HexDigit(n % 16)]
  }

  /** `%08X`. */
  function Format08X(n: nat): string {
    var s := HexDigits(n);
    (if |s| < 8 then seq(8 - |s|, _ => '0') else "") + s
  }

  predicate IsHexChar(c: char) {
    '0' <= c <= '9' || 'A' <= c <= 'F' || 'a' <= c <= 'f'
  }

  function DigitValue(c: char): (v: int)
    requires IsHexChar(c)
    ensures 0 <= v < 16
  {
    if c <= '9' then c as int - '0' as int
    else if c <= 'F' then c as int - 'A' as int + 10
    else c as int - 'a' as int + 10
  }

  predicate IsAsciiSpace(c: char) {
    '\t' <= c <= '\r' || c == ' '
  }

  /** `bytes.fromhex`: pairs of hex digits with ASCII whitespace allowed between
      pairs but not inside one; a lone digit or any other character fails. */
  function FromHex(s: string): Result<seq<Byte>> {
    if s == "" then Ok([])
    else if IsAsciiSpace(s[0]) then FromHex(s[1..])
    else if |s| < 2 || !IsHexChar(s[0]) || !IsHexChar(s[1]) then Err(ValueError)
    else
      match FromHex(s[2..])
      case Ok(rest) => Ok([16 * DigitValue(s[0]) + DigitValue(s[1])] + rest)
      case Err(e) => Err(e)
  }

  /** The two upper-case digits of one byte. */
  function ByteHex(b: Byte): string {
    [HexDigit(b / 16), HexDigit(b % 16)]
  }

  function Prepend(x: seq<Byte>, r: Result<seq<Byte>>): Result<seq<Byte>> {
    match r
    case Ok(y) => Ok(x + y)
    case Err(e) => Err(e)
  }

  lemma HexDigitValue(n: int)
    requires 0 <= n < 16
    ensures IsHexChar(HexDigit(n)) && DigitValue(HexDigit(n)) == n
    ensures !IsSpace(HexDigit(n)) && HexDigit(n) != ':' && HexDigit(n) != '\n'
  {
  }

  lemma FromHexPair(s: string)
    requires |s| >= 2 && IsHexChar(s[0]) && IsHexChar(s[1])
    ensures FromHex(s) == Prepend([16 * DigitValue(s[0]) + DigitValue(s[1])], FromHex(s[2..]))
  {
  }

  lemma PrependTwice(x: seq<Byte>, y: seq<Byte>, r: Result<seq<Byte>>)
    ensures Prepend(x, Prepend(y, r)) == Prepend(x + y, r)
    ensures Prepend([], r) == r
  {
    if r.Ok? {
      assert x + (y + r.value) == (x + y) + r.value;
      assert [] + r.value == r.value;
    }
  }

  lemma FromHexPairAppend(s: string, t: string, x: seq<Byte>, y: seq<Byte>)
    requires |s| >= 2 && IsHexChar(s[0]) && IsHexChar(s[1])
    requires FromHex(s) == Ok(x) && FromHex(s[2..]) == Ok(y)
    requires FromHex(s[2..] + t) == Prepend(y, FromHex(t))
    ensures FromHex(s + t) == Prepend(x, FromHex(t))
  {
    hide FromHex;
    FromHexPair(s);
    assert (s + t)[2..] == s[2..] + t && (s + t)[0] == s[0] && (s + t)[1] == s[1];
    FromHexPair(s + t);
    PrependTwice([16 * DigitValue(s[0]) + DigitValue(s[1])], y, FromHex(t));
  }

  /** A text that decodes completely can be split off the front of any longer text. */
  lemma {:induction false} FromHexAppend(s: string, t: string, x: seq<Byte>)
    requires FromHex(s) == Ok(x)
    ensures FromHex(s + t) == Prepend(x, FromHex(t))
  {
    if s == "" {
      assert s + t == t;
      PrependTwice(x, x, FromHex(t));
    } else if IsAsciiSpace(s[0]) {
      assert (s + t)[1..] == s[1..] + t && (s + t)[0] == s[0];
      assert FromHex(s) == FromHex(s[1..]) && FromHex(s + t) == FromHex((s + t)[1..]);
      hide FromHex, Prepend;
      FromHexAppend(s[1..], t, x);
    } else {
      var y := FromHex(s[2..]).value;
      assert |s| >= 2 && IsHexChar(s[0]) && IsHexChar(s[1]) && FromHex(s[2..]) == Ok(y);
      hide FromHex, Prepend;
      FromHexAppend(s[2..], t, y);
      FromHexPairAppend(s, t, x, y);
    }
  }

  lemma FromHexByte(b: Byte)
    ensures FromHex(ByteHex(b)) == Ok([b])
  {
    HexDigitValue(b / 16);
    HexDigitValue(b % 16);
    FromHexPair(ByteHex(b));
    assert FromHex(ByteHex(b)[2..]) == Ok([]);
    assert [b] + [] == [b];
  }

  lemma {:induction false} FromHexBlank(s: string)
    requires forall i :: 0 <= i < |s| ==> s[i] == ' '
    ensures FromHex(s) == Ok([])
  {
    if s != "" { FromHexBlank(s[1..]); }
  }

  /** A text whose first character that is neither blank nor a hex digit exists fails. */
  lemma {:induction false} FromHexRejects(s: string, i: nat)
    requires i < |s| && !IsHexChar(s[i]) && !IsAsciiSpace(s[i])
    ensures FromHex(s) == Err(ValueError)
  {
    if IsAsciiSpace(s[0]) {
      FromHexRejects(s[1..], i - 1);
    } else if i >= 2 && IsHexChar(s[0]) && IsHexChar(s[1]) {
      FromHexRejects(s[2..], i - 2);
    }
  }

  // ----- stripping, splitting and joining ---------------------------------

  lemma {:induction false} RStripAppend(s: string, t: string)
    ensures RStrip(s + t) == if RStrip(t) == "" then RStrip(s) else s + RStrip(t)
  {
    if t == "" {
      assert s + t == s;
    } else if IsSpace(t[|t| - 1]) {
      assert (s + t)[..|s + t| - 1] == s + t[..|t| - 1];
      RStripAppend(s, t[..|t| - 1]);
    }
  }

  lemma {:induction false} RStripPrefix(s: string)
    ensures RStrip(s) <= s
    ensures RStrip(s) == "" <==> forall i :: 0 <= i < |s| ==> IsSpace(s[i])
  {
    if s != "" && IsSpace(s[|s| - 1]) {
      RStripPrefix(s[..|s| - 1]);
      assert forall i :: 0 <= i < |s| - 1 ==> s[i] == s[..|s| - 1][i];
    }
  }

  lemma {:induction false} JoinSnoc(parts: seq<string>, last: string, sep: string)
    requires parts != []
    ensures Join(parts + [last], sep) == Join(parts, sep) + sep + last
  {
    if |parts| == 1 {
      assert parts + [last] == [parts[0], last];
      assert Join([last], sep) == last;
    } else {
      assert (parts + [last])[1..] == parts[1..] + [last];
      JoinSnoc(parts[1..], last, sep);
    }
  }

  /** Splitting at a separator undoes joining with it. */
  lemma {:induction false} SplitJoin(parts: seq<string>, sep: char)
    requires parts != []
    requires forall p :: p in parts ==> sep !in p
    ensures Split(Join(parts, [sep]), sep) == parts
  {
    var text := Join(parts, [sep]);
    if |parts| == 1 {
      assert parts == [text] && parts[0] in parts;
    } else {
      var i := |parts[0]|;
      assert text[..i] == parts[0] && text[i] == sep;
      FindFirst(text, sep, i);
      assert text[i + 1..] == Join(parts[1..], [sep]);
      SplitJoin(parts[1..], sep);
      assert parts == [parts[0]] + parts[1..];
    }
  }
}
