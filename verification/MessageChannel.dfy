/** Message channels over the two ends of a loopback connection pair: a message that was
    sent is delivered once, in order, and nothing else is. A Trio memory channel is taken
    as a queue that holds the chunks in its buffer followed by those of the senders that
    wait for room, and that is closed from either end. */
module MessageChannel {
  import opened Common
  import opened PyText

  type Chunk = seq<Byte>

  // ----- connections ------------------------------------------------------

  datatype Taken = Data(data: Chunk) | EndOfChannel | WouldBlock | ClosedResource

  datatype Put = Entered | BrokenResource | SendClosed

  class MemoryChannel {
    const bufferSize: nat
    var chunks: seq<Chunk>
    var sendOpen: bool
    var receiveOpen: bool

    constructor (bufferSize: nat)
      ensures this.bufferSize == bufferSize && chunks == [] && sendOpen && receiveOpen
    {
      this.bufferSize := bufferSize;
      chunks, sendOpen, receiveOpen := [], true, true;
    }

    method Send(data: Chunk) returns (put: Put)
      modifies this`chunks
      ensures put == if !sendOpen then SendClosed else if !receiveOpen then BrokenResource else Entered
      ensures chunks == if put == Entered then old(chunks) + [data] else old(chunks)
    {
      if !sendOpen {
        return SendClosed;
      }
      if !receiveOpen {
        return BrokenResource;
      }
      chunks := chunks + [data];
      put := Entered;
    }

    method Receive() returns (taken: Taken)
      modifies this`chunks
      ensures !receiveOpen ==> taken == ClosedResource && chunks == old(chunks)
      ensures receiveOpen && old(chunks) != [] ==> taken == Data(old(chunks)[0]) && chunks == old(chunks)[1..]
      ensures receiveOpen && old(chunks) == [] ==>
        chunks == [] && taken == if sendOpen then WouldBlock else EndOfChannel
    {
      if !receiveOpen {
        return ClosedResource;
      }
      if chunks == [] {
        return if sendOpen then WouldBlock else EndOfChannel;
      }
      taken := Data(chunks[0]);
      chunks := chunks[1..];
    }

    /** A sender that still waits for room is cancelled. */
    method CancelSend(k: nat)
      requires bufferSize <= k < |chunks|
      modifies this`chunks
      ensures chunks == Removed(old(chunks), k)
    {
      chunks := chunks[..k] + chunks[k + 1..];
    }

    /** Senders that still wait for room raise an error, and their chunks are gone. */
    method CloseSend()
      modifies this`chunks, this`sendOpen
      ensures !sendOpen && chunks == FirstOf(old(chunks), bufferSize)
    {
      sendOpen := false;
      if bufferSize < |chunks| {
        chunks := chunks[..bufferSize];
      }
    }

    /** Everything that was not received is gone. */
    method CloseReceive()
      modifies this`chunks, this`receiveOpen
      ensures !receiveOpen && chunks == []
    {
      receiveOpen, chunks := false, [];
    }
  }

  /** The first `n` elements, or all; the buffer of a memory channel holds that much of
      its contents. */
  function FirstOf<T>(contents: seq<T>, n: nat): seq<T> {
    if n < |contents| then contents[..n] else contents
  }

  function Removed<T>(contents: seq<T>, k: nat): seq<T>
    requires k < |contents|
  {
    contents[..k] + contents[k + 1..]
  }

  class ChannelConnection {
    const tx: MemoryChannel
    const rx: MemoryChannel

    constructor (tx: MemoryChannel, rx: MemoryChannel)
      ensures this.tx == tx && this.rx == rx
    {
      this.tx, this.rx := tx, rx;
    }

    method Read() returns (taken: Taken)
      modifies rx`chunks
      ensures !rx.receiveOpen ==> taken == ClosedResource && rx.chunks == old(rx.chunks)
      ensures rx.receiveOpen && old(rx.chunks) != [] ==>
        taken == Data(old(rx.chunks)[0]) && rx.chunks == old(rx.chunks)[1..]
      ensures rx.receiveOpen && old(rx.chunks) == [] ==>
        rx.chunks == [] && taken == if rx.sendOpen then WouldBlock else EndOfChannel
    {
      taken := rx.Receive();
    }

    method Write(data: Chunk) returns (put: Put)
      modifies tx`chunks
      ensures put == if !tx.sendOpen then SendClosed else if !tx.receiveOpen then BrokenResource else Entered
      ensures tx.chunks == if put == Entered then old(tx.chunks) + [data] else old(tx.chunks)
    {
      put := tx.Send(data);
    }

    /** `_close` up to its first await. */
    method CloseSending()
      modifies tx`chunks, tx`sendOpen
      ensures !tx.sendOpen && tx.chunks == FirstOf(old(tx.chunks), tx.bufferSize)
    {
      tx.CloseSend();
    }

    /** The rest of `_close`. */
    method CloseReceiving()
      modifies rx`chunks, rx`receiveOpen
      ensures !rx.receiveOpen && rx.chunks == []
    {
      rx.CloseReceive();
    }

    /** `_close` without a step of anybody else in between; a cancellation at its first
        await leaves the receiving end as it is. */
    method Close(cancelled: bool) returns (success: bool)
      requires tx != rx
      modifies tx`chunks, tx`sendOpen, rx`chunks, rx`receiveOpen
      ensures success == !cancelled
      ensures !tx.sendOpen && tx.chunks == FirstOf(old(tx.chunks), tx.bufferSize)
      ensures rx.sendOpen == old(rx.sendOpen) && tx.receiveOpen == old(tx.receiveOpen)
      ensures
        if success then !rx.receiveOpen && rx.chunks == []
        else rx.receiveOpen == old(rx.receiveOpen) && rx.chunks == old(rx.chunks)
    {
      CloseSending();
      if cancelled {
        return false;
      }
      CloseReceiving();
      success := true;
    }
  }

  /** What one end sends, the other end receives, both ways. */
  method CreateLoopbackConnectionPair(bufferSize: nat) returns (conn1: ChannelConnection, conn2: ChannelConnection)
    ensures fresh(conn1) && fresh(conn2) && fresh(conn1.tx) && fresh(conn2.tx)
    ensures conn1.tx == conn2.rx && conn2.tx == conn1.rx && conn1.tx != conn2.tx
    ensures conn1.tx.chunks == [] && conn1.tx.sendOpen && conn1.tx.receiveOpen && conn1.tx.bufferSize == bufferSize
    ensures conn2.tx.chunks == [] && conn2.tx.sendOpen && conn2.tx.receiveOpen && conn2.tx.bufferSize == bufferSize
  {
    var q1 := new MemoryChannel(bufferSize);
    var q2 := new MemoryChannel(bufferSize);
    conn1 := new ChannelConnection(q1, q2);
    conn2 := new ChannelConnection(q2, q1);
  }

  // ----- receiving --------------------------------------------------------

  /** How a `receive` call fares, up to the point where it would block. */
  datatype Received<+M> = Delivered(message: M) | Ended | Blocked | Failed

  /** A codec: the encoder and the parser of a channel. */
  datatype Codec<!M> = Codec(encode: M -> Chunk, parse: Chunk -> seq<M>)

  /** All messages in the given chunks. */
  function Decode<M>(codec: Codec<M>, chunks: seq<Chunk>): seq<M> {
    if chunks == [] then [] else codec.parse(chunks[0]) + Decode(codec, chunks[1..])
  }

  /** The number of chunks read by a `receive` call: as many as it takes to get a message
      or an empty chunk. */
  function ChunksRead<M>(codec: Codec<M>, pending: seq<M>, chunks: seq<Chunk>): (n: nat)
    ensures n <= |chunks|
    decreases |chunks|
  {
    if pending != [] || chunks == [] then 0
    else if chunks[0] == [] then 1
    else 1 + ChunksRead(codec, codec.parse(chunks[0]), chunks[1..])
  }

  function ReceiveFrom<M>(codec: Codec<M>, pending: seq<M>, chunks: seq<Chunk>, sendOpen: bool): (Received<M>, seq<M>)
    decreases |chunks|
  {
    if pending != [] then (Delivered(pending[0]), pending[1..])
    else if chunks == [] then (if sendOpen then Blocked else Ended, [])
    else if chunks[0] == [] then (Ended, [])
    else ReceiveFrom(codec, codec.parse(chunks[0]), chunks[1..], sendOpen)
  }

  /** The messages that a receiver gets from a channel before its calls stop returning
      any: those pending, and those in the chunks up to the first empty one. */
  function Left<M>(codec: Codec<M>, pending: seq<M>, chunks: seq<Chunk>): seq<M>
    decreases |chunks|
  {
    pending
    + if chunks == [] || chunks[0] == [] then []
      else Left(codec, codec.parse(chunks[0]), chunks[1..])
  }

  /** One call takes the first message left, if there is one. */
  lemma {:induction false} ReceiveTakesFirst<M>(codec: Codec<M>, pending: seq<M>, chunks: seq<Chunk>, sendOpen: bool)
    ensures var left := Left(codec, pending, chunks);
      var (received, pending') := ReceiveFrom(codec, pending, chunks, sendOpen);
      var chunks' := chunks[ChunksRead(codec, pending, chunks)..];
      if left == [] then received.Ended? || received.Blocked?
      else received == Delivered(left[0]) && Left(codec, pending', chunks') == left[1..]
    decreases |chunks|
  {
    if pending != [] {
      var rest := Left(codec, pending[1..], chunks);
      assert Left(codec, pending, chunks)[1..] == rest;
    } else if chunks != [] && chunks[0] != [] {
      var next, n := codec.parse(chunks[0]), ChunksRead(codec, codec.parse(chunks[0]), chunks[1..]);
      assert Left(codec, pending, chunks) == Left(codec, next, chunks[1..]);
      assert ReceiveFrom(codec, pending, chunks, sendOpen) == ReceiveFrom(codec, next, chunks[1..], sendOpen);
      assert ChunksRead(codec, pending, chunks) == 1 + n;
      hide *;
      ReceiveTakesFirst(codec, next, chunks[1..], sendOpen);
      assert chunks[1..][n..] == chunks[1 + n..];
    }
  }

  /** How a call ends that finds no message left: with an error on a closed end, with the
      end of the channel at an empty chunk or after the sender closed, and otherwise not. */
  function NoMessageLeft<M>(chunks: seq<Chunk>, sendOpen: bool, receiveOpen: bool): Received<M> {
    if !receiveOpen then Failed
    else if [] in chunks || !sendOpen then Ended
    else Blocked
  }

  lemma {:induction false} ReceiveEnds<M>(codec: Codec<M>, pending: seq<M>, chunks: seq<Chunk>, sendOpen: bool)
    ensures Left(codec, pending, chunks) == [] ==>
      ReceiveFrom(codec, pending, chunks, sendOpen).0 == NoMessageLeft(chunks, sendOpen, true)
    ensures Left(codec, pending, chunks) != [] ==>
      ([] in chunks[ChunksRead(codec, pending, chunks)..] <==> [] in chunks)
    decreases |chunks|
  {
    if pending == [] && chunks != [] && chunks[0] != [] {
      var next, rest := codec.parse(chunks[0]), chunks[1..];
      var n := ChunksRead(codec, next, rest);
      assert [] in chunks <==> [] in rest by { HeadAndTail(chunks); }
      assert Left(codec, pending, chunks) == [] + Left(codec, next, rest) == Left(codec, next, rest);
      assert ReceiveFrom(codec, pending, chunks, sendOpen) == ReceiveFrom(codec, next, rest, sendOpen);
      assert ChunksRead(codec, pending, chunks) == 1 + n;
      hide Left, ReceiveFrom, ChunksRead;
      ReceiveEnds(codec, next, rest, sendOpen);
      assert rest[n..] == chunks[1 + n..];
    }
  }

  /** A call has read some of the chunks, and what is pending now is all that matters. */
  predicate ReadSoFar<M(==)>(
    codec: Codec<M>, before: seq<M>, chunks: seq<Chunk>, sendOpen: bool, pending: seq<M>, read: nat)
    requires read <= |chunks|
  {
    && ReceiveFrom(codec, pending, chunks[read..], sendOpen) == ReceiveFrom(codec, before, chunks, sendOpen)
    && read + ChunksRead(codec, pending, chunks[read..]) == ChunksRead(codec, before, chunks)
  }

  lemma ReadNothing<M>(codec: Codec<M>, before: seq<M>, chunks: seq<Chunk>, sendOpen: bool)
    ensures chunks[0..] == chunks && ReadSoFar(codec, before, chunks, sendOpen, before, 0)
  {
    hide ReceiveFrom, ChunksRead;
    assert chunks[0..] == chunks;
  }

  /** What reading one chunk leaves to do. */
  lemma ReadOne<M>(codec: Codec<M>, before: seq<M>, chunks: seq<Chunk>, sendOpen: bool, read: nat)
    requires read <= |chunks| && ReadSoFar(codec, before, chunks, sendOpen, [], read)
    ensures var outcome, n := ReceiveFrom(codec, before, chunks, sendOpen), ChunksRead(codec, before, chunks);
      if read == |chunks| then
        chunks[read..] == [] && outcome == (if sendOpen then Blocked else Ended, []) && n == read
      else
        && chunks[read..] != [] && chunks[read..][0] == chunks[read] && chunks[read..][1..] == chunks[read + 1..]
        && if chunks[read] == [] then outcome == (Ended, []) && n == read + 1
           else ReadSoFar(codec, before, chunks, sendOpen, [] + codec.parse(chunks[read]), read + 1)
  {
    if read < |chunks| {
      assert [] + codec.parse(chunks[read]) == codec.parse(chunks[read]);
      assert chunks[read..][1..] == chunks[read + 1..];
    }
  }

  lemma ReadEnough<M>(
    codec: Codec<M>, before: seq<M>, chunks: seq<Chunk>, sendOpen: bool, pending: seq<M>, read: nat)
    requires read <= |chunks| && ReadSoFar(codec, before, chunks, sendOpen, pending, read) && pending != []
    ensures ReceiveFrom(codec, before, chunks, sendOpen) == (Delivered(pending[0]), pending[1..])
    ensures ChunksRead(codec, before, chunks) == read
  {
  }

  class MessageChannel<M> {
    const connection: ChannelConnection
    const codec: Codec<M>
    var pending: seq<M>

    constructor (connection: ChannelConnection, codec: Codec<M>)
      ensures this.connection == connection && this.codec == codec && pending == []
    {
      this.connection, this.codec := connection, codec;
      pending := [];
    }

    function MessagesLeft(): seq<M>
      reads this, connection.rx
    {
      if connection.rx.receiveOpen
      then Left(codec, pending, connection.rx.chunks)
      else pending
    }

    /** How a call ends once no message is left. */
    function CallsEnd(): Received<M>
      reads connection.rx
    {
      NoMessageLeft(connection.rx.chunks, connection.rx.sendOpen, connection.rx.receiveOpen)
    }

    method Send(value: M) returns (put: Put)
      modifies connection.tx`chunks
      ensures put ==
        if !connection.tx.sendOpen then SendClosed
        else if !connection.tx.receiveOpen then BrokenResource
        else Entered
      ensures connection.tx.chunks ==
        if put == Entered then old(connection.tx.chunks) + [codec.encode(value)] else old(connection.tx.chunks)
    {
      put := connection.Write(codec.encode(value));
    }

    /** Reads one chunk; an outcome other than `Data` ends the call that asked for it. */
    method ReadPending() returns (taken: Taken)
      modifies this`pending, connection.rx`chunks
      ensures !connection.rx.receiveOpen ==> taken == ClosedResource
      ensures connection.rx.receiveOpen && old(connection.rx.chunks) == [] ==>
        taken == if connection.rx.sendOpen then WouldBlock else EndOfChannel
      ensures connection.rx.receiveOpen && old(connection.rx.chunks) != [] ==>
        var data := old(connection.rx.chunks)[0];
        && taken == (if data == [] then EndOfChannel else Data(data))
        && connection.rx.chunks == old(connection.rx.chunks)[1..]
        && pending == old(pending) + (if data == [] then [] else codec.parse(data))
      ensures !connection.rx.receiveOpen || old(connection.rx.chunks) == [] ==>
        pending == old(pending) && connection.rx.chunks == old(connection.rx.chunks)
    {
      taken := connection.Read();
      if taken.Data? {
        if taken.data == [] {
          return EndOfChannel;
        }
        pending := pending + codec.parse(taken.data);
      }
    }

    method Receive() returns (received: Received<M>)
      modifies this`pending, connection.rx`chunks
      ensures connection.rx.receiveOpen || old(pending) != [] ==>
        && (received, pending) ==
             ReceiveFrom(codec, old(pending), old(connection.rx.chunks), connection.rx.sendOpen)
        && connection.rx.chunks ==
             old(connection.rx.chunks)[ChunksRead(codec, old(pending), old(connection.rx.chunks))..]
      ensures !connection.rx.receiveOpen && old(pending) == [] ==>
        received == Failed && pending == [] && connection.rx.chunks == old(connection.rx.chunks)
      ensures
        var left := old(MessagesLeft());
        if left == [] then received == old(CallsEnd()) && !received.Delivered?
        else received == Delivered(left[0]) && MessagesLeft() == left[1..] && CallsEnd() == old(CallsEnd())
    {
      var rx := connection.rx;
      ghost var before, was, read := pending, rx.chunks, 0;
      ReceiveTakesFirst(codec, before, was, rx.sendOpen);
      ReceiveEnds(codec, before, was, rx.sendOpen);
      ReadNothing(codec, before, was, rx.sendOpen);
      hide *;
      while pending == []
        invariant read <= |was| && rx.chunks == was[read..]
        invariant ReadSoFar(codec, before, was, rx.sendOpen, pending, read)
        invariant !rx.receiveOpen ==> pending == before && read == 0
        decreases |rx.chunks|
      {
        ReadOne(codec, before, was, rx.sendOpen, read);
        var taken := ReadPending();
        match taken {
          case Data(data) =>
            read := read + 1;
          case EndOfChannel =>
            return Ended;
          case WouldBlock =>
            return Blocked;
          case ClosedResource =>
            return Failed;
        }
      }
      ReadEnough(codec, before, was, rx.sendOpen, pending, read);
      received := Delivered(pending[0]);
      pending := pending[1..];
    }

    method Aclose(cancelled: bool) returns (success: bool)
      requires connection.tx != connection.rx
      modifies connection.tx`chunks, connection.tx`sendOpen, connection.rx`chunks, connection.rx`receiveOpen
      ensures success == !cancelled && pending == old(pending)
      ensures !connection.tx.sendOpen
      ensures connection.tx.chunks == FirstOf(old(connection.tx.chunks), connection.tx.bufferSize)
      ensures
        if success then !connection.rx.receiveOpen && connection.rx.chunks == []
        else
          && connection.rx.receiveOpen == old(connection.rx.receiveOpen)
          && connection.rx.chunks == old(connection.rx.chunks)
    {
      success := connection.Close(cancelled);
    }
  }

  // ----- one direction of a pair ------------------------------------------

  /** What happened to the messages sent from one end to the other. The record of what
      was sent is kept apart from where the messages are: it grows with every accepted
      `send`, and loses the messages of senders that are cancelled or cut off while they
      wait, which it finds by their place from the end. */
  datatype Line<M> = Line(
    bufferSize: nat,
    queued: seq<M>,      // in the memory channel: in its buffer, or with a waiting sender
    sendOpen: bool,
    receiveOpen: bool,
    sent: seq<M>,        // the record of what was sent
    lost: seq<M>,        // what was in the buffer when the receiving end was closed
    pending: seq<M>,     // in the receiver's deque
    delivered: seq<M>)   // what `receive` returned

  datatype Event<M> = Sends(message: M) | Receives | Withdraws(k: nat) | SenderCloses | ReceiverCloses

  function NewLine<M>(bufferSize: nat): Line<M> {
    Line(bufferSize, [], true, true, [], [], [], [])
  }

  function Encoded<M>(codec: Codec<M>, messages: seq<M>): (chunks: seq<Chunk>)
    ensures |chunks| == |messages|
    ensures forall i :: 0 <= i < |chunks| ==> chunks[i] == codec.encode(messages[i])
  {
    if messages == [] then [] else [codec.encode(messages[0])] + Encoded(codec, messages[1..])
  }

  predicate Possible<M>(s: Line<M>, e: Event<M>) {
    match e
    case Withdraws(k) => s.bufferSize <= k < |s.queued|
    case _ => true
  }

  function ReceivedBy<M>(codec: Codec<M>, s: Line<M>): Received<M> {
    if s.pending == [] && !s.receiveOpen then Failed
    else ReceiveFrom(codec, s.pending, Encoded(codec, s.queued), s.sendOpen).0
  }

  function Next<M>(codec: Codec<M>, s: Line<M>, e: Event<M>): Line<M>
    requires Possible(s, e)
  {
    match e
    case Sends(m) =>
      if s.sendOpen && s.receiveOpen then s.(queued := s.queued + [m], sent := s.sent + [m]) else s
    case Receives =>
      if s.pending == [] && !s.receiveOpen then s
      else
        var chunks := Encoded(codec, s.queued);
        var n := ChunksRead(codec, s.pending, chunks);
        var (received, pending) := ReceiveFrom(codec, s.pending, chunks, s.sendOpen);
        s.(queued := s.queued[n..], pending := pending,
           delivered := s.delivered + if received.Delivered? then [received.message] else [])
    case Withdraws(k) =>
      s.(queued := Removed(s.queued, k), sent := RemovedFromEnd(s.sent, |s.queued| - 1 - k))
    case SenderCloses =>
      s.(sendOpen := false, queued := FirstOf(s.queued, s.bufferSize), sent := Settled(s))
    case ReceiverCloses =>
      s.(receiveOpen := false, queued := [], lost := s.lost + FirstOf(s.queued, s.bufferSize), sent := Settled(s))
  }

  /** Without the element that has `n` others behind it. */
  function RemovedFromEnd<T>(contents: seq<T>, n: nat): seq<T> {
    if n < |contents| then Removed(contents, |contents| - 1 - n) else contents
  }

  function AllButLast<T>(contents: seq<T>, n: nat): seq<T> {
    if n <= |contents| then contents[..|contents| - n] else []
  }

  /** What was sent by calls that do not wait any more. */
  function Settled<M>(s: Line<M>): seq<M> {
    AllButLast(s.sent, if s.bufferSize < |s.queued| then |s.queued| - s.bufferSize else 0)
  }

  predicate IsHistory<M>(codec: Codec<M>, s: Line<M>, events: seq<Event<M>>)
    decreases |events|
  {
    events != [] ==> Possible(s, events[0]) && IsHistory(codec, Next(codec, s, events[0]), events[1..])
  }

  function Finally<M>(codec: Codec<M>, s: Line<M>, events: seq<Event<M>>): Line<M>
    requires IsHistory(codec, s, events)
    decreases |events|
  {
    if events == [] then s else Finally(codec, Next(codec, s, events[0]), events[1..])
  }

  /** The objects at the two ends are in the given state. */
  ghost predicate Carries<M>(from: MessageChannel<M>, to: MessageChannel<M>, s: Line<M>)
    reads from.connection.tx, to
  {
    var q := from.connection.tx;
    && q == to.connection.rx
    && q.bufferSize == s.bufferSize
    && q.chunks == Encoded(from.codec, s.queued)
    && q.sendOpen == s.sendOpen
    && q.receiveOpen == s.receiveOpen
    && to.pending == s.pending
  }

  lemma EncodedSnoc<M>(codec: Codec<M>, a: seq<M>, m: M)
    ensures Encoded(codec, a + [m]) == Encoded(codec, a) + [codec.encode(m)]
  {
    hide *;
    assert forall i :: 0 <= i < |a| ==> (a + [m])[i] == a[i];
  }

  lemma EncodedFrom<M>(codec: Codec<M>, a: seq<M>, n: nat)
    requires n <= |a|
    ensures Encoded(codec, a[n..]) == Encoded(codec, a)[n..]
  {
    hide *;
  }

  lemma EncodedFirst<M>(codec: Codec<M>, a: seq<M>, n: nat)
    ensures Encoded(codec, FirstOf(a, n)) == FirstOf(Encoded(codec, a), n)
  {
    hide Encoded;
    assert forall i :: 0 <= i < n < |a| ==> a[..n][i] == a[i];
  }

  lemma EncodedRemoved<M>(codec: Codec<M>, a: seq<M>, k: nat)
    requires k < |a|
    ensures Encoded(codec, Removed(a, k)) == Removed(Encoded(codec, a), k)
  {
    hide Encoded;
    assert forall i :: 0 <= i < |a| - 1 ==> Removed(a, k)[i] == a[if i < k then i else i + 1];
  }

  datatype Action<M> = Send(message: M) | Receive | Withdraw(k: nat) | CloseSending | CloseReceiving

  /** One end of a pair takes a step: both directions take the steps of their models. */
  method Act<M>(a: MessageChannel<M>, b: MessageChannel<M>, action: Action<M>, ghost ab: Line<M>, ghost ba: Line<M>)
    returns (received: Received<M>)
    requires a != b && a.codec == b.codec && a.connection.tx != b.connection.tx
    requires Carries(a, b, ab) && Carries(b, a, ba)
    requires action.Withdraw? ==> Possible(ab, Withdraws(action.k))
    modifies a, b, a.connection.tx, b.connection.tx
    ensures action.Receive? ==> received == ReceivedBy(a.codec, ba)
    ensures Carries(a, b,
      match action
      case Send(m) => Next(a.codec, ab, Sends(m))
      case Withdraw(k) => Next(a.codec, ab, Withdraws(k))
      case CloseSending => Next(a.codec, ab, SenderCloses)
      case _ => ab)
    ensures Carries(b, a,
      match action
      case Receive => Next(a.codec, ba, Receives)
      case CloseReceiving => Next(a.codec, ba, ReceiverCloses)
      case _ => ba)
  {
    received := Blocked;
    hide Encoded, ReceiveFrom, ChunksRead, FirstOf, Removed;
    match action {
      case Send(m) =>
        EncodedSnoc(a.codec, ab.queued, m);
        var _ := a.Send(m);
      case Withdraw(k) =>
        EncodedRemoved(a.codec, ab.queued, k);
        a.connection.tx.CancelSend(k);
      case CloseSending =>
        EncodedFirst(a.codec, ab.queued, ab.bufferSize);
        a.connection.CloseSending();
      case CloseReceiving =>
        a.connection.CloseReceiving();
      case Receive =>
        EncodedFrom(a.codec, ba.queued, ChunksRead(a.codec, ba.pending, Encoded(a.codec, ba.queued)));
        received := a.Receive();
    }
  }

  // ----- conservation -----------------------------------------------------

  /** What was sent is what was delivered, then what is pending, then what the queue
      decodes to; or else was dropped when the receiving end was closed. */
  ghost predicate Conserved<M>(codec: Codec<M>, s: Line<M>) {
    s.sent == s.delivered + s.pending + Decode(codec, Encoded(codec, s.queued)) + s.lost
  }

  /** Encodings are not empty, and the parser inverts the encoder on each of them. */
  ghost predicate Inverts<M(!new)>(codec: Codec<M>) {
    forall m :: codec.encode(m) != [] && codec.parse(codec.encode(m)) == [m]
  }

  lemma {:induction false} DecodeEncoded<M(!new)>(codec: Codec<M>, messages: seq<M>)
    requires Inverts(codec)
    ensures Decode(codec, Encoded(codec, messages)) == messages
  {
    if messages != [] {
      assert codec.encode(messages[0]) != [];
      DecodeEncoded(codec, messages[1..]);
    }
  }

  /** The same with the messages in the queue, which is empty once anything was dropped. */
  predicate Accounted<M(==)>(s: Line<M>) {
    && s.sent == s.delivered + s.pending + s.queued + s.lost
    && if s.receiveOpen then s.lost == [] else s.queued == []
  }

  /** With an inverting codec a call reads at most one chunk, and gets its message. */
  lemma ReceiveOne<M(!new)>(codec: Codec<M>, s: Line<M>)
    requires Inverts(codec) && s.pending == [] && s.queued != []
    ensures var chunks := Encoded(codec, s.queued);
      && ChunksRead(codec, s.pending, chunks) == 1
      && ReceiveFrom(codec, s.pending, chunks, s.sendOpen) == (Delivered(s.queued[0]), [])
  {
    var m := s.queued[0];
    var chunks := Encoded(codec, s.queued);
    assert chunks[0] == codec.encode(m) != [] && codec.parse(chunks[0]) == [m];
    assert ChunksRead(codec, [m], chunks[1..]) == 0;
    assert ReceiveFrom(codec, [m], chunks[1..], s.sendOpen) == (Delivered(m), [m][1..]);
    assert [m][1..] == [];
  }

  lemma FirstMoves<T>(before: seq<T>, from: seq<T>, after: seq<T>)
    requires from != []
    ensures before + from + after == (before + [from[0]]) + from[1..] + after
  {
    HeadAndTail(from);
  }

  lemma AccountedReceive<M(!new)>(codec: Codec<M>, s: Line<M>)
    requires Inverts(codec) && Accounted(s)
    ensures Accounted(Next(codec, s, Receives))
  {
    if s.pending != [] {
      FirstMoves(s.delivered, s.pending, s.queued + s.lost);
      hide Encoded;
      var d := s.delivered + [s.pending[0]];
      assert s.delivered + s.pending + (s.queued + s.lost) == s.sent;
      assert d + s.pending[1..] + s.queued + s.lost == d + s.pending[1..] + (s.queued + s.lost);
    } else if s.queued != [] {
      ReceiveOne(codec, s);
      FirstMoves(s.delivered, s.queued, s.lost);
      hide Inverts, Encoded, ChunksRead, ReceiveFrom;
      assert s.delivered + [] == s.delivered;
      assert s.delivered + [s.queued[0]] + [] == s.delivered + [s.queued[0]];
    }
  }

  lemma AccountedWithdraw<M>(codec: Codec<M>, s: Line<M>, k: nat)
    requires Accounted(s) && Possible(s, Withdraws(k))
    ensures Accounted(Next(codec, s, Withdraws(k)))
  {
    var had := s.delivered + s.pending;
    assert s.sent == had + s.queued && |s.sent| - 1 - (|s.queued| - 1 - k) == |had| + k;
    RemovedAppend(had, s.queued, k);
  }

  lemma AccountedSettled<M>(s: Line<M>)
    requires Accounted(s)
    ensures Settled(s) == s.delivered + s.pending + FirstOf(s.queued, s.bufferSize) + s.lost
  {
    var had := s.delivered + s.pending;
    if s.bufferSize < |s.queued| {
      assert s.sent == had + s.queued;
      assert s.sent[..|had| + s.bufferSize] == had + s.queued[..s.bufferSize];
    } else {
      assert s.sent[..|s.sent|] == s.sent;
    }
  }

  lemma AccountedStep<M(!new)>(codec: Codec<M>, s: Line<M>, e: Event<M>)
    requires Inverts(codec) && Possible(s, e) && Accounted(s)
    ensures Accounted(Next(codec, s, e))
  {
    match e {
      case Receives => AccountedReceive(codec, s);
      case Withdraws(k) => AccountedWithdraw(codec, s, k);
      case _ =>
        hide Settled, Encoded;
        AccountedSettled(s);
    }
  }

  lemma {:induction false} AccountedRun<M(!new)>(codec: Codec<M>, s: Line<M>, events: seq<Event<M>>)
    requires Inverts(codec) && IsHistory(codec, s, events) && Accounted(s)
    ensures Accounted(Finally(codec, s, events))
    decreases |events|
  {
    if events != [] {
      AccountedStep(codec, s, events[0]);
      hide Inverts, Accounted, Next;
      AccountedRun(codec, Next(codec, s, events[0]), events[1..]);
    }
  }

  /** Every message is accounted for after any events on a new line. */
  ghost predicate AlwaysConserved<M(!new)>(codec: Codec<M>) {
    forall n: nat, events: seq<Event<M>> :: IsHistory(codec, NewLine(n), events) ==>
      Conserved(codec, Finally(codec, NewLine(n), events))
  }

  lemma TwoEvents<M>(codec: Codec<M>, s: Line<M>, e: Event<M>, f: Event<M>)
    requires Possible(s, e) && Possible(Next(codec, s, e), f)
    ensures IsHistory(codec, s, [e]) && Finally(codec, s, [e]) == Next(codec, s, e)
    ensures IsHistory(codec, s, [e, f]) && Finally(codec, s, [e, f]) == Next(codec, Next(codec, s, e), f)
  {
    var s1 := Next(codec, s, e);
    var s2 := Next(codec, s1, f);
    hide Next;
    assert [e][1..] == [] && [f][1..] == [] && [e, f][1..] == [f];
    assert IsHistory(codec, s2, []) && Finally(codec, s2, []) == s2;
    assert IsHistory(codec, s1, []) && Finally(codec, s1, []) == s1;
    assert IsHistory(codec, s1, [f]) && Finally(codec, s1, [f]) == s2;
  }

  /** A message that the codec gets wrong is lost or changed as soon as it is sent and
      received. */
  lemma BadMessage<M(!new)>(codec: Codec<M>, m: M)
    requires codec.encode(m) == [] || codec.parse(codec.encode(m)) != [m]
    ensures !AlwaysConserved(codec)
  {
    var s0 := NewLine<M>(0);
    var s1 := Next(codec, s0, Sends(m));
    var s2 := Next(codec, s1, Receives);
    var parsed := codec.parse(codec.encode(m));
    TwoEvents(codec, s0, Sends(m), Receives);
    assert Encoded(codec, s1.queued) == [codec.encode(m)];
    assert Decode(codec, [codec.encode(m)]) == parsed;
    if parsed == [m] {
      assert Encoded(codec, s2.queued) == [] && s2.sent == [m];
      assert |s2.delivered + s2.pending + Decode(codec, Encoded(codec, s2.queued)) + s2.lost| == 0;
      assert !Conserved(codec, s2);
    } else {
      assert s1.sent == [m] && s1.delivered + s1.pending + parsed + s1.lost == parsed;
      assert !Conserved(codec, s1);
    }
  }

  /** End-to-end conservation holds for exactly the codecs whose encodings are not empty
      and are inverted by the parser. */
  lemma ConservedExactly<M(!new)>(codec: Codec<M>)
    ensures AlwaysConserved(codec) <==> Inverts(codec)
  {
    if Inverts(codec) {
      forall n: nat, events: seq<Event<M>> | IsHistory(codec, NewLine(n), events)
        ensures Conserved(codec, Finally(codec, NewLine(n), events))
      {
        var s := Finally(codec, NewLine(n), events);
        AccountedRun(codec, NewLine(n), events);
        DecodeEncoded(codec, s.queued);
      }
    } else {
      var m :| codec.encode(m) == [] || codec.parse(codec.encode(m)) != [m];
      BadMessage(codec, m);
    }
  }

  /** `EndOfChannel` reaches the reader only when nothing is pending; with an inverting
      codec only after the sender closed its end and every message was delivered. */
  lemma EndMeansEverythingDelivered<M(!new)>(codec: Codec<M>, bufferSize: nat, events: seq<Event<M>>)
    requires IsHistory(codec, NewLine(bufferSize), events)
    ensures var s := Finally(codec, NewLine(bufferSize), events);
      ReceivedBy(codec, s).Ended? ==>
        && s.pending == []
        && (Inverts(codec) ==> !s.sendOpen && s.receiveOpen && s.delivered == s.sent)
  {
    var s := Finally(codec, NewLine(bufferSize), events);
    if ReceivedBy(codec, s).Ended? && Inverts(codec) {
      AccountedRun(codec, NewLine(bufferSize), events);
      if s.queued != [] { ReceiveOne(codec, s); }
    }
  }

  lemma RemovedAppend<T>(a: seq<T>, b: seq<T>, k: nat)
    requires k < |b|
    ensures Removed(a + b, |a| + k) == a + Removed(b, k)
  {
    assert (a + b)[..|a| + k] == a + b[..k];
    assert (a + b)[|a| + k + 1..] == b[k + 1..];
  }

  /** No call of the receiver ends while the sender's end is open. */
  ghost predicate NeverEndsEarly<M(!new)>(codec: Codec<M>) {
    forall n: nat, events: seq<Event<M>> :: IsHistory(codec, NewLine(n), events) ==>
      (ReceivedBy(codec, Finally(codec, NewLine(n), events)).Ended? ==> !Finally(codec, NewLine(n), events).sendOpen)
  }

  lemma {:induction false} EndedMeansClosed<M>(codec: Codec<M>, pending: seq<M>, chunks: seq<Chunk>, sendOpen: bool)
    requires forall i :: 0 <= i < |chunks| ==> chunks[i] != []
    ensures ReceiveFrom(codec, pending, chunks, sendOpen).0.Ended? ==> !sendOpen
    decreases |chunks|
  {
    if pending == [] && chunks != [] {
      EndedMeansClosed(codec, codec.parse(chunks[0]), chunks[1..], sendOpen);
    }
  }

  /** A message that is encoded as no data ends the channel for its receiver, with both
      ends open. */
  lemma EmptyEncodingEnds<M>(codec: Codec<M>, m: M)
    requires codec.encode(m) == []
    ensures IsHistory(codec, NewLine(0), [Sends(m)])
    ensures var s := Finally(codec, NewLine(0), [Sends(m)]);
      s.sendOpen && s.receiveOpen && ReceivedBy(codec, s).Ended?
  {
    var s := Next(codec, NewLine(0), Sends(m));
    TwoEvents(codec, NewLine(0), Sends(m), Receives);
    assert Encoded(codec, s.queued) == [[]];
  }

  /** A channel ends early on some run if and only if some message is encoded as no data. */
  lemma EndsEarlyExactly<M(!new)>(codec: Codec<M>)
    ensures NeverEndsEarly(codec) <==> forall m :: codec.encode(m) != []
  {
    if forall m :: codec.encode(m) != [] {
      forall n: nat, events: seq<Event<M>> | IsHistory(codec, NewLine(n), events)
        ensures var s := Finally(codec, NewLine(n), events); ReceivedBy(codec, s).Ended? ==> !s.sendOpen
      {
        var s := Finally(codec, NewLine(n), events);
        EndedMeansClosed(codec, s.pending, Encoded(codec, s.queued), s.sendOpen);
      }
    } else {
      var m :| codec.encode(m) == [];
      EmptyEncodingEnds(codec, m);
      var s0: Line<M> := NewLine(0);
      assert ReceivedBy(codec, Finally(codec, s0, [Sends(m)])).Ended?;
    }
  }

  // ----- the record of what was sent --------------------------------------

  /** Every queued message is on record. */
  predicate OnRecord<M>(s: Line<M>) {
    |s.queued| <= |s.sent|
  }

  /** The record grows by the messages that are sent while both ends are open, and loses
      only messages of waiting senders that are cancelled or cut off by a closed end. */
  lemma {:induction false} SentChanges<M>(codec: Codec<M>, s: Line<M>, e: Event<M>)
    requires Possible(s, e) && OnRecord(s)
    ensures var s' := Next(codec, s, e);
      && OnRecord(s')
      && Settled(s) <= Settled(s')
      && match e
         case Sends(m) => s'.sent == s.sent + if s.sendOpen && s.receiveOpen then [m] else []
         case Receives => s'.sent == s.sent
         case Withdraws(k) => s'.sent == Removed(s.sent, |Settled(s)| + k - s.bufferSize)
         case _ => s'.sent == Settled(s')
  {
    hide Encoded, ChunksRead, ReceiveFrom;
  }

  /** The messages of the `send` events, in order. */
  function SendsOf<M>(events: seq<Event<M>>): seq<M> {
    if events == [] then []
    else (if events[0].Sends? then [events[0].message] else []) + SendsOf(events[1..])
  }

  /** A message is sent for good once its sender does not wait any more. */
  lemma {:induction false} SettledStays<M>(codec: Codec<M>, s: Line<M>, events: seq<Event<M>>)
    requires IsHistory(codec, s, events) && OnRecord(s)
    ensures var s' := Finally(codec, s, events);
      OnRecord(s') && Settled(s) <= Settled(s') <= s'.sent
    decreases |events|
  {
    if events != [] {
      SentChanges(codec, s, events[0]);
      hide Next, Settled, OnRecord;
      SettledStays(codec, Next(codec, s, events[0]), events[1..]);
    }
  }

  predicate OnlyTraffic<M>(events: seq<Event<M>>) {
    events != [] ==> (events[0].Sends? || events[0].Receives?) && OnlyTraffic(events[1..])
  }

  lemma TrafficStep<M>(codec: Codec<M>, s: Line<M>, e: Event<M>)
    requires s.sendOpen && s.receiveOpen && (e.Sends? || e.Receives?)
    ensures var s' := Next(codec, s, e);
      s'.sendOpen && s'.receiveOpen && s'.sent == s.sent + if e.Sends? then [e.message] else []
  {
    hide Encoded, ChunksRead, ReceiveFrom;
  }

  /** As long as no sender is cancelled and no end closed, all messages sent are recorded. */
  lemma {:induction false} SendsAreRecorded<M>(codec: Codec<M>, s: Line<M>, events: seq<Event<M>>)
    requires IsHistory(codec, s, events) && s.sendOpen && s.receiveOpen && OnlyTraffic(events)
    ensures Finally(codec, s, events).sent == s.sent + SendsOf(events)
    decreases |events|
  {
    if events != [] {
      hide Next;
      var first := if events[0].Sends? then [events[0].message] else [];
      TrafficStep(codec, s, events[0]);
      SendsAreRecorded(codec, Next(codec, s, events[0]), events[1..]);
      Regrouped(s.sent, first, SendsOf(events[1..]));
    }
  }
}
