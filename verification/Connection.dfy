/** The stateful base class of all connections. `ListenerBase` is the same class with
    its states called CLOSED, PREPARING, OPEN and CLOSING and its flags `_is_closed`
    and `_is_open`, so everything proved here and in `Lifecycle` holds of it too. */
module Connection {
  datatype ConnectionState = Disconnected | Connecting | Connected | Disconnecting

  datatype Signal =
    | StateChanged(oldState: ConnectionState, newState: ConnectionState)
    | ConnectedSignal
    | DisconnectedSignal

  /** The fields of a connection and the signals that it has sent. */
  datatype Conn = Conn(state: ConnectionState, isConnected: bool, isDisconnected: bool, signals: seq<Signal>)

  const NEW_CONN := Conn(Disconnected, false, true, [])

  /** `_set_state` on values. */
  function SetState(c: Conn, newState: ConnectionState): Conn {
    if newState == c.state then c
    else
      var up, down := newState == Connected && !c.isConnected, newState == Disconnected && !c.isDisconnected;
      Conn(
        newState,
        newState == Connected,
        newState == Disconnected,
        c.signals + [StateChanged(c.state, newState)]
        + (if up then [ConnectedSignal] else []) + (if down then [DisconnectedSignal] else []))
  }

  /** Where a call of `open` or `close` stands once it has given up control. */
  datatype Point =
    | Returned
    | JoinOpen       // waits for CONNECTED, then returns
    | JoinClose      // waits for DISCONNECTED, then returns
    | WaitThenOpen   // waits for DISCONNECTED, then opens
    | WaitThenClose  // waits for CONNECTED, then closes
    | InOpen         // inside `_open`
    | InClose        // inside `_close`

  function EntryOfOpen(state: ConnectionState): Point {
    match state
    case Connected => Returned
    case Connecting => JoinOpen
    case Disconnecting => WaitThenOpen
    case Disconnected => InOpen
  }

  function EntryOfClose(state: ConnectionState): Point {
    match state
    case Disconnected => Returned
    case Disconnecting => JoinClose
    case Connecting => WaitThenClose
    case Connected => InClose
  }

  /** The state that a body which has just begun is announced with. */
  function Announce(c: Conn, p: Point): Conn {
    match p
    case InOpen => SetState(c, Connecting)
    case InClose => SetState(c, Disconnecting)
    case _ => c
  }

  function AfterOpen(success: bool): ConnectionState {
    if success then Connected else Disconnected
  }

  function AfterClose(success: bool): ConnectionState {
    if success then Disconnected else Connected
  }

  // ----- the class --------------------------------------------------------

  /** The methods are the pieces of `open` and `close` between two awaits. */
  class ConnectionBase {
    var state: ConnectionState
    var isConnected: bool
    var isDisconnected: bool
    var signals: seq<Signal>

    ghost function Model(): Conn reads this {
      Conn(state, isConnected, isDisconnected, signals)
    }

    constructor ()
      ensures Model() == NEW_CONN
    {
      state, isConnected, isDisconnected, signals := Disconnected, false, true, [];
    }

    method SetStateTo(newState: ConnectionState)
      modifies this
      ensures Model() == SetState(old(Model()), newState)
    {
      var oldState := state;
      if newState == oldState {
        return;
      }
      state := newState;
      signals := signals + [StateChanged(oldState, newState)];
      if !isConnected && newState == Connected {
        isConnected := true;
        signals := signals + [ConnectedSignal];
      }
      if !isDisconnected && newState == Disconnected {
        isDisconnected := true;
        signals := signals + [DisconnectedSignal];
      }
      if isConnected && newState != Connected {
        isConnected := false;
      }
      if isDisconnected && newState != Disconnected {
        isDisconnected := false;
      }
    }

    /** `open` up to its first await. */
    method BeginOpen() returns (at: Point)
      modifies this
      ensures at == EntryOfOpen(old(state)) && Model() == Announce(old(Model()), at)
    {
      if state == Connected {
        return Returned;
      } else if state == Connecting {
        return JoinOpen;
      } else if state == Disconnecting {
        return WaitThenOpen;
      }
      SetStateTo(Connecting);
      at := InOpen;
    }

    /** `close` up to its first await. */
    method BeginClose() returns (at: Point)
      modifies this
      ensures at == EntryOfClose(old(state)) && Model() == Announce(old(Model()), at)
    {
      if state == Disconnected {
        return Returned;
      } else if state == Disconnecting {
        return JoinClose;
      } else if state == Connecting {
        return WaitThenClose;
      }
      SetStateTo(Disconnecting);
      at := InClose;
    }

    /** What follows a wait that was over; the state is not looked at again. */
    method Continue(p: Point) returns (at: Point)
      modifies this
      ensures at == AfterWait(p) && Model() == Announce(old(Model()), at)
    {
      at := AfterWait(p);
      if at == InOpen {
        SetStateTo(Connecting);
      } else if at == InClose {
        SetStateTo(Disconnecting);
      }
    }

    /** The `finally` block of `open`. */
    method EndOpen(success: bool)
      modifies this
      ensures Model() == SetState(old(Model()), AfterOpen(success))
      ensures state == if success then Connected else Disconnected
    {
      SetStateTo(if success then Connected else Disconnected);
    }

    /** The `finally` block of `close`. */
    method EndClose(success: bool)
      modifies this
      ensures Model() == SetState(old(Model()), AfterClose(success))
      ensures state == if success then Disconnected else Connected
    {
      SetStateTo(if success then Disconnected else Connected);
    }
  }

  function AfterWait(p: Point): Point {
    match p
    case WaitThenOpen => InOpen
    case WaitThenClose => InClose
    case _ => Returned
  }

  // ----- signals ----------------------------------------------------------

  /** Both awaitable flags say what the state says. */
  predicate FlagsAgree(c: Conn) {
    c.isConnected == (c.state == Connected) && c.isDisconnected == (c.state == Disconnected)
  }

  /** The state that the signals sent so far lead to. */
  function LastState(signals: seq<Signal>): ConnectionState {
    if signals == [] then Disconnected
    else
      match signals[|signals| - 1]
      case StateChanged(_, newState) => newState
      case _ => LastState(signals[..|signals| - 1])
  }

  predicate Enters(signal: Signal, state: ConnectionState) {
    signal.StateChanged? && signal.newState == state
  }

  /** What may be signalled at position `i`: a change from the state before to another
      one, `connected` right after an entry into CONNECTED and `disconnected` right
      after an entry into DISCONNECTED, and in those two places nothing else. */
  predicate SignalFits(signals: seq<Signal>, i: nat)
    requires i < |signals|
  {
    && (signals[i].ConnectedSignal? <==> i > 0 && Enters(signals[i - 1], Connected))
    && (signals[i].DisconnectedSignal? <==> i > 0 && Enters(signals[i - 1], Disconnected))
    && (signals[i].StateChanged? ==> signals[i].oldState == LastState(signals[..i]) != signals[i].newState)
  }

  predicate AllFit(signals: seq<Signal>) {
    forall i :: 0 <= i < |signals| ==> SignalFits(signals, i)
  }

  /** `state_changed` events form a chain from DISCONNECTED to the current state without
      empty links, and each entry into CONNECTED or DISCONNECTED is signalled once. */
  predicate IsTrace(signals: seq<Signal>, state: ConnectionState) {
    && LastState(signals) == state
    && AllFit(signals)
    && (signals != [] ==> !Enters(signals[|signals| - 1], Connected) && !Enters(signals[|signals| - 1], Disconnected))
  }

  lemma FitsAppend(signals: seq<Signal>, x: Signal)
    requires AllFit(signals)
    requires SignalFits(signals + [x], |signals|)
    ensures AllFit(signals + [x])
  {
    var s := signals + [x];
    forall i | 0 <= i < |s|
      ensures SignalFits(s, i)
    {
      if i < |signals| {
        assert s[..i] == signals[..i] && SignalFits(signals, i);
      }
    }
  }

  /** Every `_set_state` keeps the trace well formed and the flags in agreement. */
  lemma TraceStep(c: Conn, newState: ConnectionState)
    requires FlagsAgree(c) && IsTrace(c.signals, c.state)
    ensures FlagsAgree(SetState(c, newState))
    ensures IsTrace(SetState(c, newState).signals, SetState(c, newState).state)
    ensures c.signals <= SetState(c, newState).signals
  {
    if newState != c.state {
      var x := StateChanged(c.state, newState);
      var change := c.signals + [x];
      assert change[..|c.signals|] == c.signals;
      FitsAppend(c.signals, x);
      assert LastState(change) == newState;
      if newState == Connected || newState == Disconnected {
        var y := if newState == Connected then ConnectedSignal else DisconnectedSignal;
        assert (change + [y])[..|change|] == change;
        FitsAppend(change, y);
        assert LastState(change + [y]) == newState;
        assert SetState(c, newState).signals == change + [y];
      } else {
        assert SetState(c, newState).signals == change;
      }
    }
  }
}
