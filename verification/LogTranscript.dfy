/** The logging middleware: every read and write goes through to the wrapped
    connection unchanged, and the lines that it logs can be turned back into the
    bytes that were read and written. */
module LogTranscript {
  import opened Common
  import opened PyText
  import opened Hexdump
  import opened RoundTrip

  const READ_PREFIX := "<-- "
  const WRITE_PREFIX := "--> "

  // ----- formatters -------------------------------------------------------

  /** `line[line.index(":") + 1 :]` */
  function AfterColon(line: string): string {
    line[Find(line, ':') + 1..]
  }

  function FormatBytes(obj: seq<Byte>): seq<string> {
    var lines := DumpLines(Chunks(obj, 16));
    seq(|lines|, k requires 0 <= k < |lines| => AfterColon(lines[k]))
  }

  function PrefixedFormat(prefix: string, obj: seq<Byte>): seq<string> {
    var lines := FormatBytes(obj);
    seq(|lines|, k requires 0 <= k < |lines| => prefix + lines[k])
  }

  // ----- the middleware ---------------------------------------------------

  /** What was logged: a read that returned, or a write, which is logged before the wrapped
      connection is asked and may raise there. */
  datatype Operation = Reading(data: seq<Byte>) | Writing(data: seq<Byte>, done: bool)

  function LogEntry(op: Operation): seq<string> {
    match op
    case Reading(data) => PrefixedFormat(READ_PREFIX, data)
    case Writing(data, _) => PrefixedFormat(WRITE_PREFIX, data)
  }

  function LogOf(ops: seq<Operation>): seq<string> {
    if ops == [] then [] else LogEntry(ops[0]) + LogOf(ops[1..])
  }

  function Payloads(ops: seq<Operation>, writes: bool): seq<seq<Byte>> {
    if ops == [] then []
    else (if ops[0].Writing? == writes then [ops[0].data] else []) + Payloads(ops[1..], writes)
  }

  /** The payloads of the writes that did not raise. */
  function Sent(ops: seq<Operation>): seq<seq<Byte>> {
    if ops == [] then []
    else (if ops[0].Writing? && ops[0].done then [ops[0].data] else []) + Sent(ops[1..])
  }

  /** The wrapped connection: how its next reads and writes will fare (a read that raises
      delivers nothing; without an entry a read is cancelled and a write succeeds), and
      what it has delivered and sent. */
  class Wire {
    var readOutcomes: seq<Option<seq<Byte>>>
    var writeOutcomes: seq<bool>
    var delivered: seq<seq<Byte>>
    var sent: seq<seq<Byte>>

    constructor (readOutcomes: seq<Option<seq<Byte>>>, writeOutcomes: seq<bool>)
      ensures this.readOutcomes == readOutcomes && this.writeOutcomes == writeOutcomes && delivered == [] && sent == []
    {
      this.readOutcomes, this.writeOutcomes, delivered, sent := readOutcomes, writeOutcomes, [], [];
    }

    method Read() returns (data: Option<seq<Byte>>)
      modifies this`readOutcomes, this`delivered
      ensures data == if old(readOutcomes) == [] then None else old(readOutcomes)[0]
      ensures delivered == old(delivered) + if data.Some? then [data.value] else []
    {
      data := None;
      if readOutcomes != [] {
        data := readOutcomes[0];
        readOutcomes := readOutcomes[1..];
      }
      if data.Some? {
        delivered := delivered + [data.value];
      }
    }

    method Write(data: seq<Byte>) returns (success: bool)
      modifies this`writeOutcomes, this`sent
      ensures success == (old(writeOutcomes) == [] || old(writeOutcomes)[0])
      ensures sent == old(sent) + if success then [data] else []
    {
      success := true;
      if writeOutcomes != [] {
        success := writeOutcomes[0];
        writeOutcomes := writeOutcomes[1..];
      }
      if success {
        sent := sent + [data];
      }
    }
  }

  /** The middleware with the default formatters and one writer for both directions. */
  class LoggingMiddleware {
    const wrapped: Wire
    var log: seq<string>
    ghost var history: seq<Operation>

    /** The log is that of the operations so far, and the wrapped connection delivered and
        sent exactly the payloads of those that did not raise. */
    ghost predicate Valid()
      reads this, wrapped
    {
      && log == LogOf(history)
      && wrapped.sent == Sent(history)
      && wrapped.delivered == Payloads(history, false)
    }

    constructor (wrapped: Wire)
      requires wrapped.sent == [] && wrapped.delivered == []
      ensures Valid() && this.wrapped == wrapped && history == [] && log == []
    {
      this.wrapped, log, history := wrapped, [], [];
    }

    /** A read that raises logs nothing. */
    method Read() returns (result: Option<seq<Byte>>)
      requires Valid()
      modifies this, wrapped
      ensures Valid() && history == old(history) + if result.Some? then [Reading(result.value)] else []
      ensures result == if old(wrapped.readOutcomes) == [] then None else old(wrapped.readOutcomes)[0]
      ensures wrapped.delivered == old(wrapped.delivered) + if result.Some? then [result.value] else []
      ensures wrapped.sent == old(wrapped.sent)
    {
      hide LogOf, Payloads, Sent, PrefixedFormat;
      result := wrapped.Read();
      if result.None? {
        return;
      }
      Emit(PrefixedFormat(READ_PREFIX, result.value));
      HistorySnoc(history, Reading(result.value));
      history := history + [Reading(result.value)];
    }

    /** A write that raises is logged all the same. */
    method Write(data: seq<Byte>) returns (success: bool)
      requires Valid()
      modifies this, wrapped
      ensures Valid() && history == old(history) + [Writing(data, success)]
      ensures success == (old(wrapped.writeOutcomes) == [] || old(wrapped.writeOutcomes)[0])
      ensures wrapped.sent == old(wrapped.sent) + if success then [data] else []
      ensures wrapped.delivered == old(wrapped.delivered)
    {
      hide LogOf, Payloads, Sent, PrefixedFormat;
      Emit(PrefixedFormat(WRITE_PREFIX, data));
      success := wrapped.Write(data);
      HistorySnoc(history, Writing(data, success));
      history := history + [Writing(data, success)];
    }

    /** The loop that hands formatted lines to the writer. */
    method Emit(lines: seq<string>)
      modifies this`log
      ensures log == old(log) + lines
    {
      for k := 0 to |lines|
        invariant log == old(log) + lines[..k]
      {
        log := log + [lines[k]];
      }
    }

    /** At any point of any run, the logged read lines restore to what the wrapped
        connection delivered, and the logged write lines to what it was asked to send,
        which is what it sent if and only if no write of any bytes raised. */
    lemma {:induction false} Transcript()
      requires Valid()
      ensures Restored(Join(Selected(log, "<-- "), "\n")) == Readable(wrapped.delivered)
      ensures Restored(Join(Selected(log, "--> "), "\n")) == Readable(Payloads(history, true))
      ensures Concat(Payloads(history, true)) == Concat(wrapped.sent) <==> NothingFailed(history)
    {
      WriteTranscript(history);
      ReadTranscript(history);
      SentExactly(history);
    }
  }

  /** No write of any bytes raised. */
  predicate NothingFailed(ops: seq<Operation>) {
    forall i :: 0 <= i < |ops| && ops[i].Writing? && !ops[i].done ==> ops[i].data == []
  }

  /** The bytes that writes were asked for are those that were sent exactly when no write
      of any bytes raised. */
  lemma {:induction false} SentExactly(ops: seq<Operation>)
    ensures |Concat(Sent(ops))| <= |Concat(Payloads(ops, true))|
    ensures Concat(Payloads(ops, true)) == Concat(Sent(ops)) <==> NothingFailed(ops)
    ensures NothingFailed(ops) <==> |Concat(Payloads(ops, true))| == |Concat(Sent(ops))|
  {
    if ops != [] {
      var op, rest := ops[0], ops[1..];
      SentExactly(rest);
      assert NothingFailed(ops) <==> NothingFailed(rest) && (op.Writing? && !op.done ==> op.data == []) by {
        assert forall i :: 0 < i < |ops| ==> ops[i] == rest[i - 1];
        assert forall i :: 0 <= i < |rest| ==> rest[i] == ops[i + 1];
      }
      assert Payloads(ops, true) == (if op.Writing? then [op.data] else []) + Payloads(rest, true);
      assert Sent(ops) == (if op.Writing? && op.done then [op.data] else []) + Sent(rest);
      hide NothingFailed, Payloads, Sent;
      ConcatFirst(op.Writing?, op.data, Payloads(rest, true));
      ConcatFirst(op.Writing? && op.done, op.data, Sent(rest));
    }
  }

  lemma ConcatFirst(there: bool, first: seq<Byte>, rest: seq<seq<Byte>>)
    ensures Concat((if there then [first] else []) + rest) == (if there then first else []) + Concat(rest)
  {
    if there {
      assert ([first] + rest)[1..] == rest;
    } else {
      assert [] + rest == rest && [] + Concat(rest) == Concat(rest);
    }
  }

  lemma HistorySnoc(ops: seq<Operation>, op: Operation)
    ensures LogOf(ops + [op]) == LogOf(ops) + LogEntry(op)
    ensures Payloads(ops + [op], false) == Payloads(ops, false) + (if op.Writing? then [] else [op.data])
    ensures Sent(ops + [op]) == Sent(ops) + (if op.Writing? && op.done then [op.data] else [])
  {
    LogOfSnoc(ops, op);
    PayloadsSnoc(ops, op);
    SentSnoc(ops, op);
  }

  lemma {:induction false} SentSnoc(ops: seq<Operation>, op: Operation)
    ensures Sent(ops + [op]) == Sent(ops) + (if op.Writing? && op.done then [op.data] else [])
  {
    if ops != [] {
      assert (ops + [op])[1..] == ops[1..] + [op];
      SentSnoc(ops[1..], op);
    }
  }

  lemma {:induction false} LogOfSnoc(ops: seq<Operation>, op: Operation)
    ensures LogOf(ops + [op]) == LogOf(ops) + LogEntry(op)
  {
    hide LogEntry;
    if ops == [] {
      assert LogOf([op]) == LogEntry(op) + LogOf([]);
    } else {
      assert (ops + [op])[1..] == ops[1..] + [op];
      LogOfSnoc(ops[1..], op);
    }
  }

  lemma {:induction false} PayloadsSnoc(ops: seq<Operation>, op: Operation)
    ensures Payloads(ops + [op], false) == Payloads(ops, false) + (if op.Writing? then [] else [op.data])
  {
    if ops != [] {
      assert (ops + [op])[1..] == ops[1..] + [op];
      PayloadsSnoc(ops[1..], op);
    }
  }

  // ----- reading the log back ---------------------------------------------

  /** The lines with the given four-character prefix, without it. */
  function Selected(log: seq<string>, prefix: string): seq<string> {
    if log == [] then []
    else (if prefix <= log[0] then [log[0][|prefix|..]] else []) + Selected(log[1..], prefix)
  }

  /** Whether the last row that the payloads were printed in is a single blank. */
  predicate LastRowIsLoneBlank(payloads: seq<seq<Byte>>) {
    payloads != [] &&
    var n := |payloads| - 1;
    if payloads[n] == [] then LastRowIsLoneBlank(payloads[..n]) else EndsInLoneBlank(payloads[n])
  }

  /** What `restore` makes of the logged payloads. */
  function Readable(payloads: seq<seq<Byte>>): Result<seq<Byte>> {
    if Concat(payloads) == [] || LastRowIsLoneBlank(payloads) then Err(IndexError)
    else Ok(Concat(payloads))
  }

  /** The rows of all payloads; each payload starts a new row. */
  function AllRows(payloads: seq<seq<Byte>>): seq<seq<Byte>> {
    if payloads == [] then [] else Chunks(payloads[0], 16) + AllRows(payloads[1..])
  }

  function RowTexts(rows: seq<seq<Byte>>): seq<string> {
    seq(|rows|, k requires 0 <= k < |rows| => " " + Body(rows[k]))
  }

  lemma AfterAddress(a: string, rest: string)
    requires ':' !in a
    ensures AfterColon(a + ": " + rest) == " " + rest
  {
    var line := a + ": " + rest;
    assert line[..|a|] == a && line[|a|] == ':';
    FindFirst(line, ':', |a|);
  }

  lemma FormattedRow(index: nat, d: seq<Byte>)
    ensures AfterColon(RowLine(index, d)) == " " + Body(d)
  {
    var a := Format08X(16 * index);
    AddressWidth(index);
    assert ':' !in a by {
      assert forall i :: 0 <= i < |a| ==> (a + ": ")[i] == a[i] && Plain(a[i]);
    }
    hide HexColumns, Gutter, Format08X, AfterColon, IsAddress, IsWide;
    assert RowLine(index, d) == a + ": " + Body(d);
    AfterAddress(a, Body(d));
  }

  /** Formatting keeps the rows and drops the addresses. */
  lemma FormattedRows(obj: seq<Byte>)
    ensures FormatBytes(obj) == RowTexts(Chunks(obj, 16))
  {
    var rows := Chunks(obj, 16);
    hide Chunks, RowLine, Body, AfterColon;
    forall k | 0 <= k < |rows|
      ensures FormatBytes(obj)[k] == " " + Body(rows[k])
    {
      FormattedRow(k, rows[k]);
    }
  }

  lemma {:induction false} SelectedAppend(a: seq<string>, b: seq<string>, prefix: string)
    ensures Selected(a + b, prefix) == Selected(a, prefix) + Selected(b, prefix)
  {
    if a == [] {
      assert a + b == b;
    } else {
      assert (a + b)[1..] == a[1..] + b;
      SelectedAppend(a[1..], b, prefix);
    }
  }

  lemma {:induction false} SelectedPrefixed(lines: seq<string>, texts: seq<string>, own: string, prefix: string)
    requires |lines| == |texts| && |own| == |prefix|
    requires forall k :: 0 <= k < |lines| ==> lines[k] == own + texts[k]
    ensures Selected(lines, prefix) == if own == prefix then texts else []
  {
    if lines != [] {
      SelectedPrefixed(lines[1..], texts[1..], own, prefix);
      assert lines[0][..|own|] == own && lines[0][|own|..] == texts[0];
      assert texts == [texts[0]] + texts[1..];
    }
  }

  lemma SelectedEntry(op: Operation, writes: bool)
    ensures Selected(LogEntry(op), if writes then WRITE_PREFIX else READ_PREFIX) ==
      if op.Writing? == writes then RowTexts(Chunks(op.data, 16)) else []
  {
    FormattedRows(op.data);
    hide FormatBytes, Chunks, RowTexts;
    assert WRITE_PREFIX[0] == '-' && READ_PREFIX[0] == '<';
    var prefix := if writes then WRITE_PREFIX else READ_PREFIX;
    var own := if op.Writing? then WRITE_PREFIX else READ_PREFIX;
    SelectedPrefixed(LogEntry(op), FormatBytes(op.data), own, prefix);
  }

  lemma RowTextsAppend(a: seq<seq<Byte>>, b: seq<seq<Byte>>)
    ensures RowTexts(a + b) == RowTexts(a) + RowTexts(b)
  {
    hide Body;
  }

  /** The selected log lines are the rows of the payloads in that direction. */
  lemma {:induction false} SelectedLog(ops: seq<Operation>, writes: bool)
    ensures Selected(LogOf(ops), if writes then WRITE_PREFIX else READ_PREFIX) ==
      RowTexts(AllRows(Payloads(ops, writes)))
  {
    hide LogEntry, RowTexts, Chunks;
    if ops == [] {
      RowTextsEmpty();
    } else {
      SelectedAppend(LogEntry(ops[0]), LogOf(ops[1..]), if writes then WRITE_PREFIX else READ_PREFIX);
      SelectedEntry(ops[0], writes);
      SelectedLog(ops[1..], writes);
      var rest := Payloads(ops[1..], writes);
      if ops[0].Writing? == writes {
        assert ([ops[0].data] + rest)[1..] == rest;
        RowTextsAppend(Chunks(ops[0].data, 16), AllRows(rest));
      } else {
        assert [] + rest == rest;
      }
    }
  }

  lemma RowTextsEmpty()
    ensures RowTexts([]) == []
  {
  }

  lemma {:induction false} AllRowsShape(payloads: seq<seq<Byte>>)
    ensures Concat(AllRows(payloads)) == Concat(payloads)
    ensures forall k :: 0 <= k < |AllRows(payloads)| ==> IsRow(AllRows(payloads)[k])
    ensures AllRows(payloads) == [] <==> Concat(payloads) == []
  {
    if payloads != [] {
      var p := payloads[0];
      AllRowsShape(payloads[1..]);
      if p != [] { RowsOf(p); }
      hide Chunks;
      ConcatAppend(Chunks(p, 16), AllRows(payloads[1..]));
    }
  }

  lemma {:induction false} ConcatAppend(a: seq<seq<Byte>>, b: seq<seq<Byte>>)
    ensures Concat(a + b) == Concat(a) + Concat(b)
  {
    if a == [] {
      assert a + b == b;
    } else {
      assert (a + b)[1..] == a[1..] + b;
      ConcatAppend(a[1..], b);
    }
  }

  lemma {:induction false} AllRowsSnoc(payloads: seq<seq<Byte>>, last: seq<Byte>)
    ensures AllRows(payloads + [last]) == AllRows(payloads) + Chunks(last, 16)
  {
    hide Chunks;
    if payloads == [] {
      assert [last][1..] == [] && AllRows([last]) == Chunks(last, 16) + AllRows([]);
    } else {
      assert (payloads + [last])[1..] == payloads[1..] + [last];
      AllRowsSnoc(payloads[1..], last);
    }
  }

  lemma {:induction false} LastRow(payloads: seq<seq<Byte>>)
    ensures LastRowIsLoneBlank(payloads) <==>
      var rows := AllRows(payloads); rows != [] && rows[|rows| - 1] == [0x20]
  {
    if payloads != [] {
      var n := |payloads| - 1;
      var last := payloads[n];
      assert payloads == payloads[..n] + [last];
      AllRowsSnoc(payloads[..n], last);
      if last == [] {
        LastRow(payloads[..n]);
        assert AllRows(payloads) == AllRows(payloads[..n]);
      } else {
        LoneBlankRow(last);
      }
    }
  }

  lemma RowTextsPrinted(rows: seq<seq<Byte>>) returns (ps: seq<string>)
    requires forall k :: 0 <= k < |rows| ==> IsRow(rows[k])
    ensures |RowTexts(rows)| == |ps| == |rows|
    ensures forall k :: 0 <= k < |rows| ==> IsPrinted(RowTexts(rows)[k], ps[k], rows[k]) && !IsWide(ps[k])
  {
    hide Body;
    ps := seq(|rows|, _ => " ");
  }

  /** Rows printed without addresses are read back whatever the gutter holds: a
      colon there comes too late to be taken for the end of an address. */
  lemma {:induction false} RestoreAllRows(payloads: seq<seq<Byte>>)
    ensures Restored(Join(RowTexts(AllRows(payloads)), "\n")) == Readable(payloads)
  {
    var rows := AllRows(payloads);
    AllRowsShape(payloads);
    LastRow(payloads);
    if rows == [] {
      assert RowTexts(rows) == [];
      assert Split(Strip(""), '\n') == [""];
    } else {
      hide AllRows, RowTexts, Restored, Join, Concat, LastRowIsLoneBlank, IsPrinted, IsWide;
      var ps := RowTextsPrinted(rows);
      RestoreNarrow(RowTexts(rows), ps, rows);
    }
  }

  /** The write log is a faithful transcript of any run of reads and writes. */
  lemma {:induction false} WriteTranscript(ops: seq<Operation>)
    ensures Restored(Join(Selected(LogOf(ops), "--> "), "\n")) == Readable(Payloads(ops, true))
  {
    SelectedLog(ops, true);
    RestoreAllRows(Payloads(ops, true));
  }

  /** So is the read log. */
  lemma {:induction false} ReadTranscript(ops: seq<Operation>)
    ensures Restored(Join(Selected(LogOf(ops), "<-- "), "\n")) == Readable(Payloads(ops, false))
  {
    SelectedLog(ops, false);
    RestoreAllRows(Payloads(ops, false));
  }
}
