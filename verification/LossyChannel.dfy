/** The lossy wrapper around a channel: which messages get through. */
module LossyChannel {
  import opened Common
  import opened MessageChannel

  /** A source of random numbers: the numbers that it yields, and how many it has. */
  class Random {
    const draws: nat -> real
    var drawn: nat

    constructor (draws: nat -> real)
      ensures this.draws == draws && drawn == 0
    {
      this.draws := draws;
      drawn := 0;
    }

    method Draw() returns (r: real)
      modifies this
      ensures r == DrawAt(draws, old(drawn)) && drawn == old(drawn) + 1
    {
      r := draws(drawn);
      drawn := drawn + 1;
    }
  }

  /** A number of the source. */
  function DrawAt(draws: nat -> real, i: nat): (r: real)
    ensures r == draws(i)
  {
    draws(i)
  }

  // ----- survivors --------------------------------------------------------

  /** The messages whose draws are high enough, the first of them matched with draw `d`. */
  function Survivors<M>(messages: seq<M>, draws: nat -> real, d: nat, loss: real): seq<M> {
    if messages == [] then []
    else
      (if DrawAt(draws, d) >= loss then [messages[0]] else [])
      + Survivors(messages[1..], draws, d + 1, loss)
  }

  /** The number of messages that one call takes: all up to the first survivor. */
  function Consumed<M>(messages: seq<M>, draws: nat -> real, d: nat, loss: real): (n: nat)
    ensures n <= |messages|
    ensures forall i :: d <= i < d + n - 1 ==> DrawAt(draws, i) < loss
    ensures n < |messages| ==> 0 < n && DrawAt(draws, d + n - 1) >= loss
    decreases |messages|
  {
    if messages == [] then 0
    else if DrawAt(draws, d) >= loss then 1
    else 1 + Consumed(messages[1..], draws, d + 1, loss)
  }

  lemma TakeOne<M>(messages: seq<M>, k: nat, draws: nat -> real, d: nat, loss: real)
    requires k <= |messages|
    ensures var rest, survivors, n :=
        messages[k..], Survivors(messages[k..], draws, d + k, loss), Consumed(messages[k..], draws, d + k, loss);
      if rest == [] then survivors == [] && n == 0
      else
        && rest[0] == messages[k] && rest[1..] == messages[k + 1..]
        && if DrawAt(draws, d + k) >= loss then survivors != [] && survivors[0] == messages[k] && n == 1
           else
             && survivors == Survivors(messages[k + 1..], draws, d + k + 1, loss)
             && n == 1 + Consumed(messages[k + 1..], draws, d + k + 1, loss)
  {
    if k < |messages| {
      assert messages[k..][1..] == messages[k + 1..];
    }
  }

  /** A call has taken `k` of the messages, and none of them has survived. */
  predicate LostSoFar<M(==)>(messages: seq<M>, k: nat, draws: nat -> real, d: nat, loss: real)
    requires k <= |messages|
  {
    && Consumed(messages, draws, d, loss) == k + Consumed(messages[k..], draws, d + k, loss)
    && Survivors(messages, draws, d, loss) == Survivors(messages[k..], draws, d + k, loss)
  }

  lemma LostNone<M>(messages: seq<M>, draws: nat -> real, d: nat, loss: real)
    ensures messages[0..] == messages && LostSoFar(messages, 0, draws, d, loss)
  {
    hide Survivors, Consumed;
    assert messages[0..] == messages;
  }

  lemma LostAll<M>(messages: seq<M>, draws: nat -> real, d: nat, loss: real)
    requires LostSoFar(messages, |messages|, draws, d, loss)
    ensures Survivors(messages, draws, d, loss) == [] && Consumed(messages, draws, d, loss) == |messages|
  {
    assert messages[|messages|..] == [];
  }

  lemma LostOrFound<M>(messages: seq<M>, k: nat, draws: nat -> real, d: nat, loss: real)
    requires k < |messages| && LostSoFar(messages, k, draws, d, loss)
    ensures messages[k..] != [] && messages[k..][0] == messages[k] && messages[k..][1..] == messages[k + 1..]
    ensures DrawAt(draws, d + k) < loss ==> LostSoFar(messages, k + 1, draws, d, loss)
    ensures DrawAt(draws, d + k) >= loss ==>
      Consumed(messages, draws, d, loss) == k + 1
      && Survivors(messages, draws, d, loss) != [] && Survivors(messages, draws, d, loss)[0] == messages[k]
  {
    TakeOne(messages, k, draws, d, loss);
    hide Survivors, Consumed;
  }

  // ----- the wrapper ------------------------------------------------------

  /** Any channel, by the messages that it will yield before its `receive` calls stop
      returning any, how they stop, and the messages that it has accepted. */
  class Stream<M> {
    const acceptance: Put
    const ending: Received<M>
    var incoming: seq<M>
    var outgoing: seq<M>

    constructor (incoming: seq<M>, ending: Received<M>, acceptance: Put)
      ensures this.incoming == incoming && outgoing == []
      ensures this.ending == ending && this.acceptance == acceptance
    {
      this.ending, this.acceptance := ending, acceptance;
      this.incoming, outgoing := incoming, [];
    }
  }

  /** What is wrapped: a message channel, or any other channel. */
  datatype Wrapped<!M> = Messages(channel: MessageChannel<M>) | Other(stream: Stream<M>) {
    ghost predicate Valid() {
      Other? ==> !stream.ending.Delivered?
    }

    ghost function ReceivingParts(): set<object> {
      match this
      case Messages(channel) => {channel, channel.connection.rx}
      case Other(stream) => {stream}
    }

    ghost function SendingParts(): set<object> {
      match this
      case Messages(channel) => {channel.connection.tx}
      case Other(stream) => {stream}
    }

    ghost function MessagesLeft(): seq<M>
      reads ReceivingParts()
    {
      match this
      case Messages(channel) => channel.MessagesLeft()
      case Other(stream) => stream.incoming
    }

    /** How a call on what is wrapped ends once no message is left. */
    ghost function CallsEnd(): Received<M>
      reads ReceivingParts()
    {
      match this
      case Messages(channel) => channel.CallsEnd()
      case Other(stream) => stream.ending
    }

    method Receive() returns (received: Received<M>)
      requires Valid()
      modifies ReceivingParts()
      ensures
        var left := old(MessagesLeft());
        if left == [] then received == old(CallsEnd()) && !received.Delivered?
        else received == Delivered(left[0]) && MessagesLeft() == left[1..] && CallsEnd() == old(CallsEnd())
      ensures Other? ==> stream.outgoing == old(stream.outgoing)
      ensures Messages? ==>
        channel.connection.rx.sendOpen == old(channel.connection.rx.sendOpen)
        && channel.connection.rx.receiveOpen == old(channel.connection.rx.receiveOpen)
    {
      match this {
        case Messages(channel) =>
          received := channel.Receive();
        case Other(stream) =>
          if stream.incoming == [] {
            return stream.ending;
          }
          received := Delivered(stream.incoming[0]);
          stream.incoming := stream.incoming[1..];
      }
    }

    /** How a `send` call on what is wrapped fares. */
    ghost function Fate(): Put
      reads SendingParts()
    {
      match this
      case Messages(channel) =>
        var tx := channel.connection.tx;
        if !tx.sendOpen then SendClosed else if !tx.receiveOpen then BrokenResource else Entered
      case Other(stream) => stream.acceptance
    }

    method Send(value: M) returns (put: Put)
      modifies SendingParts()
      ensures put == old(Fate())
      ensures Other? ==>
        stream.incoming == old(stream.incoming)
        && stream.outgoing == old(stream.outgoing) + if put == Entered then [value] else []
      ensures Messages? ==>
        var tx := channel.connection.tx;
        && tx.sendOpen == old(tx.sendOpen) && tx.receiveOpen == old(tx.receiveOpen)
        && tx.chunks == old(tx.chunks) + if put == Entered then [channel.codec.encode(value)] else []
    {
      match this {
        case Messages(channel) =>
          put := channel.Send(value);
        case Other(stream) =>
          put := stream.acceptance;
          if put == Entered {
            stream.outgoing := stream.outgoing + [value];
          }
      }
    }
  }

  class LossyChannelWrapper<M> {
    const wrapped: Wrapped<M>
    const lossProbability: real
    const random: Random

    constructor (wrapped: Wrapped<M>, lossProbability: real, random: Random)
      ensures this.wrapped == wrapped && this.lossProbability == lossProbability && this.random == random
    {
      this.wrapped, this.lossProbability, this.random := wrapped, lossProbability, random;
    }

    /** A message that is lost looks to the caller as if it had been sent. */
    method Send(value: M) returns (put: Put)
      modifies random, wrapped.SendingParts()
      ensures random.drawn == old(random.drawn) + 1
      ensures
        var kept := DrawAt(random.draws, old(random.drawn)) >= lossProbability;
        && put == (if kept then old(wrapped.Fate()) else Entered)
        && (wrapped.Other? ==>
             && wrapped.stream.incoming == old(wrapped.stream.incoming)
             && wrapped.stream.outgoing ==
                  old(wrapped.stream.outgoing) + if kept && put == Entered then [value] else [])
        && (wrapped.Messages? ==>
             var tx := wrapped.channel.connection.tx;
             && tx.sendOpen == old(tx.sendOpen) && tx.receiveOpen == old(tx.receiveOpen)
             && tx.chunks ==
                  old(tx.chunks) + if kept && put == Entered then [wrapped.channel.codec.encode(value)] else [])
    {
      var r := random.Draw();
      put := Entered;
      if r >= lossProbability {
        put := wrapped.Send(value);
      }
    }

    /** The body of the loop of `receive`. */
    method TryOne() returns (received: Received<M>, survives: bool)
      requires wrapped.Valid()
      modifies random, wrapped.ReceivingParts()
      ensures
        var left, d := old(wrapped.MessagesLeft()), old(random.drawn);
        if left == [] then received == old(wrapped.CallsEnd()) && !received.Delivered? && random.drawn == d
        else
          && received == Delivered(left[0]) && survives == (DrawAt(random.draws, d) >= lossProbability)
          && random.drawn == d + 1
          && wrapped.MessagesLeft() == left[1..] && wrapped.CallsEnd() == old(wrapped.CallsEnd())
    {
      assert random !in wrapped.ReceivingParts();
      hide *;
      survives := false;
      received := wrapped.Receive();
      if received.Delivered? {
        var r := random.Draw();
        survives := r >= lossProbability;
      }
    }

    /** Delivers the first message that survives, having drawn once per message taken; if
        none does, the call ends as one on the wrapped channel ends. */
    method Receive() returns (received: Received<M>)
      requires wrapped.Valid()
      modifies random, wrapped.ReceivingParts()
      ensures
        var left, d := old(wrapped.MessagesLeft()), old(random.drawn);
        var n := Consumed(left, random.draws, d, lossProbability);
        var kept := Survivors(left, random.draws, d, lossProbability);
        && random.drawn == d + n
        && (if kept == [] then received == old(wrapped.CallsEnd()) && !received.Delivered? && n == |left|
            else received == Delivered(kept[0]) && wrapped.MessagesLeft() == left[n..])
    {
      ghost var left, d, k := wrapped.MessagesLeft(), random.drawn, 0;
      LostNone(left, random.draws, d, lossProbability);
      assert wrapped.Valid();
      hide *;
      while true
        invariant k <= |left| && random.drawn == d + k && wrapped.MessagesLeft() == left[k..]
        invariant wrapped.CallsEnd() == old(wrapped.CallsEnd())
        invariant LostSoFar(left, k, random.draws, d, lossProbability)
        decreases |left| - k
      {
        var survives;
        received, survives := TryOne();
        if !received.Delivered? {
          LostAll(left, random.draws, d, lossProbability);
          return;
        }
        LostOrFound(left, k, random.draws, d, lossProbability);
        if survives {
          return;
        }
        k := k + 1;
      }
    }
  }

  // ----- receive-only runs ------------------------------------------------

  /** What the given number of calls deliver, and how many messages they take. */
  function ReceiveRun<M>(messages: seq<M>, draws: nat -> real, d: nat, loss: real, calls: nat): (seq<M>, nat) {
    if calls == 0 then ([], 0)
    else
      var n := Consumed(messages, draws, d, loss);
      var kept := Survivors(messages, draws, d, loss);
      var (delivered, taken) := ReceiveRun(messages[n..], draws, d + n, loss, calls - 1);
      ((if kept == [] then [] else [kept[0]]) + delivered, n + taken)
  }

  lemma FirstDraw<M>(messages: seq<M>, draws: nat -> real, d: nat, loss: real)
    ensures var n, kept := Consumed(messages, draws, d, loss), Survivors(messages, draws, d, loss);
      if messages == [] then n == 0 && kept == []
      else
        var rest := Survivors(messages[1..], draws, d + 1, loss);
        if DrawAt(draws, d) >= loss then n == 1 && kept == [messages[0]] + rest
        else n == 1 + Consumed(messages[1..], draws, d + 1, loss) && kept == rest
  {
  }

  lemma CutTwice<T>(a: seq<T>, n: nat)
    requires 1 + n <= |a|
    ensures a[1..][n..] == a[1 + n..]
  {
  }

  /** What one call leaves to the next. */
  lemma {:induction false} AfterOneCall<M>(messages: seq<M>, draws: nat -> real, d: nat, loss: real)
    ensures var n, kept := Consumed(messages, draws, d, loss), Survivors(messages, draws, d, loss);
      && Survivors(messages[n..], draws, d + n, loss) == (if kept == [] then [] else kept[1..])
      && (kept == [] ==> n == |messages|)
    decreases |messages|
  {
    hide *;
    FirstDraw(messages, draws, d, loss);
    if messages == [] {
      assert messages[0..] == [];
    } else {
      var tail := messages[1..];
      var n, kept := Consumed(tail, draws, d + 1, loss), Survivors(tail, draws, d + 1, loss);
      if DrawAt(draws, d) >= loss {
        JoinedAndCut([messages[0]], kept);
      } else {
        AfterOneCall(tail, draws, d + 1, loss);
        CutTwice(messages, n);
      }
    }
  }

  lemma FirstOfNext<M>(kept: seq<M>, rest: seq<M>, n: nat)
    requires rest == if kept == [] then [] else kept[1..]
    ensures (if kept == [] then [] else [kept[0]]) + FirstOf(rest, n) == FirstOf(kept, n + 1)
  {
  }

  /** A receive-only run delivers the first survivors, in order and without gaps: all of
      them once there was a call for each. A call more has taken every message, with one
      draw for each. */
  lemma {:induction false} RunDeliversSurvivors<M>(messages: seq<M>, draws: nat -> real, d: nat, loss: real, calls: nat)
    ensures var kept, (delivered, taken) :=
        Survivors(messages, draws, d, loss), ReceiveRun(messages, draws, d, loss, calls);
      && delivered == FirstOf(kept, calls)
      && taken <= |messages| && (|kept| < calls ==> taken == |messages|)
    decreases calls
  {
    hide Survivors, Consumed, FirstOf;
    var n, kept := Consumed(messages, draws, d, loss), Survivors(messages, draws, d, loss);
    if calls == 0 {
      assert FirstOf(kept, 0) == [] by { NoneOf(kept); }
    } else {
      var rest := Survivors(messages[n..], draws, d + n, loss);
      AfterOneCall(messages, draws, d, loss);
      RunDeliversSurvivors(messages[n..], draws, d + n, loss, calls - 1);
      FirstOfNext(kept, rest, calls - 1);
    }
  }

  lemma NoneOf<T>(contents: seq<T>)
    ensures FirstOf(contents, 0) == []
  {
  }

  /** The positions, in order, of the messages whose draws are high enough. */
  function Positions(count: nat, draws: nat -> real, d: nat, loss: real): (at: seq<nat>)
    ensures forall j :: 0 <= j < |at| ==> at[j] < count && DrawAt(draws, d + at[j]) >= loss
    ensures forall j, k :: 0 <= j < k < |at| ==> at[j] < at[k]
    ensures forall i :: 0 <= i < count && DrawAt(draws, d + i) >= loss ==> i in at
  {
    if count == 0 then []
    else Positions(count - 1, draws, d, loss) + if DrawAt(draws, d + count - 1) >= loss then [count - 1] else []
  }

  /** Survivors are the messages `m[i]` with a draw `r[i]` that is not below the loss
      probability, in order. */
  lemma {:induction false} SurvivorsExactly<M>(messages: seq<M>, draws: nat -> real, d: nat, loss: real)
    ensures var at, kept := Positions(|messages|, draws, d, loss), Survivors(messages, draws, d, loss);
      && |kept| == |at|
      && forall j :: 0 <= j < |at| ==> kept[j] == messages[at[j]]
    decreases |messages|
  {
    if messages != [] {
      var n := |messages| - 1;
      SurvivorsSnoc(messages[..n], messages[n], draws, d, loss);
      assert messages[..n] + [messages[n]] == messages;
      SurvivorsExactly(messages[..n], draws, d, loss);
    }
  }

  lemma {:induction false} SurvivorsSnoc<M>(messages: seq<M>, m: M, draws: nat -> real, d: nat, loss: real)
    ensures Survivors(messages + [m], draws, d, loss) ==
      Survivors(messages, draws, d, loss) + if DrawAt(draws, d + |messages|) >= loss then [m] else []
    decreases |messages|
  {
    if messages != [] {
      assert (messages + [m])[1..] == messages[1..] + [m];
      SurvivorsSnoc(messages[1..], m, draws, d + 1, loss);
    }
  }

  /** Over a line with an inverting codec, the messages left to a receiver are those
      pending and those in the memory channel. */
  lemma {:induction false} LeftOnLine<M(!new)>(codec: Codec<M>, pending: seq<M>, queued: seq<M>)
    requires Inverts(codec)
    ensures Left(codec, pending, Encoded(codec, queued)) == pending + queued
    decreases |queued|
  {
    if queued != [] {
      var m, chunks := queued[0], Encoded(codec, queued);
      assert chunks[0] == codec.encode(m) != [] && codec.parse(chunks[0]) == [m];
      hide Encoded, Inverts;
      EncodedFrom(codec, queued, 1);
      assert Left(codec, pending, chunks) == pending + Left(codec, [m], chunks[1..]);
      hide Left;
      LeftOnLine(codec, [m], queued[1..]);
      HeadAndTail(queued);
    }
  }
}
