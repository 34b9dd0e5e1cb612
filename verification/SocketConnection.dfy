/** Connections over a socket, on top of the lifecycle, with the broadcast addresses of
    `UDPListenerConnection`. A plain socket connection is one that allows no broadcasts. */
module SocketConnection {
  import opened Common
  import opened Connection
  import opened Lifecycle

  datatype Address = Address(host: string, port: int)

  datatype Socket = Socket(
    allowBroadcast: bool,
    socket: Option<nat>,
    broadcastPort: Option<int>,
    inferred: Option<Address>,
    userDefined: Option<Address>)

  function NewSocket(allowBroadcast: bool, broadcastPort: Option<int>): Socket {
    Socket(broadcastPort.Some? || allowBroadcast, None, broadcastPort, None, None)
  }

  /** The `broadcast_address` property. */
  function BroadcastAddress(k: Socket): Option<Address> {
    if k.userDefined.Some? then k.userDefined else k.inferred
  }

  // ----- pieces of the methods --------------------------------------------

  /** Without a configured broadcast port, the first port bound to becomes it. */
  function LearnPort(k: Socket, port: int): Socket {
    if k.allowBroadcast && k.broadcastPort.None? then k.(broadcastPort := Some(port)) else k
  }

  /** The end of `_create_and_open_socket` and of `_open`. */
  function FinishOpen(k: Socket, sock: nat, host: string): Socket {
    k.(
      inferred :=
        if k.allowBroadcast && k.broadcastPort.Some? then Some(Address(host, k.broadcastPort.value))
        else k.inferred,
      socket := Some(sock))
  }

  /** `_close`: the inferred address goes first, whether or not the assertion holds. */
  function Close(k: Socket): Socket {
    k.(inferred := None, socket := None)
  }

  function SetUserDefined(k: Socket, address: Option<Address>): Socket {
    if !k.allowBroadcast && address.Some? then k else k.(userDefined := address)
  }

  class UDPListenerConnection {
    const allowBroadcast: bool
    var socket: Option<nat>
    var broadcastPort: Option<int>
    var inferredBroadcastAddress: Option<Address>
    var userDefinedBroadcastAddress: Option<Address>

    ghost function Model(): Socket reads this {
      Socket(allowBroadcast, socket, broadcastPort, inferredBroadcastAddress, userDefinedBroadcastAddress)
    }

    constructor (allowBroadcast: bool, broadcastPort: Option<int>)
      ensures Model() == NewSocket(allowBroadcast, broadcastPort)
    {
      this.allowBroadcast := if broadcastPort.Some? then true else allowBroadcast;
      this.broadcastPort, socket := broadcastPort, None;
      inferredBroadcastAddress, userDefinedBroadcastAddress := None, None;
    }

    method LearnPortFrom(port: int)
      modifies this`broadcastPort
      ensures Model() == LearnPort(old(Model()), port)
    {
      if allowBroadcast {
        if broadcastPort.None? { broadcastPort := Some(port); }
      }
    }

    method CompleteOpen(sock: nat, host: string)
      modifies this`inferredBroadcastAddress, this`socket
      ensures Model() == FinishOpen(old(Model()), sock, host)
    {
      if allowBroadcast {
        if broadcastPort.Some? {
          inferredBroadcastAddress := Some(Address(host, broadcastPort.value));
        }
      }
      socket := Some(sock);
    }

    method CloseSocket() returns (success: bool)
      modifies this`inferredBroadcastAddress, this`socket
      ensures success == old(socket).Some?
      ensures Model() == Close(old(Model()))
    {
      inferredBroadcastAddress := None;
      if socket.None? {
        return false;
      }
      socket := None;
      success := true;
    }

    method SetUserDefinedBroadcastAddress(address: Option<Address>) returns (success: bool)
      modifies this`userDefinedBroadcastAddress
      ensures success == (allowBroadcast || address.None?)
      ensures Model() == SetUserDefined(old(Model()), address)
    {
      if !allowBroadcast && address.Some? {
        return false;
      }
      userDefinedBroadcastAddress := address;
      success := true;
    }
  }

  // ----- the protocol -----------------------------------------------------

  /** A connection, and the port that its socket is bound to, from the binding within
      `_open` until the socket is closed or given up. */
  datatype State = State(sys: System, sock: Socket, bound: Option<int>)

  datatype Event =
    | Other(action: Action)                                // anything but the end of a body
    | PortBound(call: CallId, port: int)                   // within `_open`
    | OpenReturns(call: CallId, socket: nat, host: string)
    | OpenRaises(call: CallId)                             // failure or cancellation
    | CloseRuns(call: CallId)
    | UserDefines(address: Option<Address>)

  /** The step of the lifecycle that an event is, if any. */
  function Base(s: State, e: Event): Option<Action> {
    match e
    case Other(action) => Some(action)
    case OpenReturns(t, _, _) => Some(EndOpen(t, true))
    case OpenRaises(t) => Some(EndOpen(t, false))
    case CloseRuns(t) => Some(EndClose(t, s.sock.socket.Some?))
    case PortBound(_, _) => None
    case UserDefines(_) => None
  }

  predicate Possible(s: State, e: Event) {
    && (Base(s, e).Some? ==> Enabled(s.sys, Base(s, e).value))
    && (e.Other? ==> !e.action.EndOpen? && !e.action.EndClose?)
    && (e.PortBound? ==> e.call in s.sys.calls && s.sys.calls[e.call].at == InOpen && s.bound.None?)
  }

  function NextSocket(k: Socket, e: Event): Socket {
    match e
    case PortBound(_, port) => LearnPort(k, port)
    case OpenReturns(_, sock, host) => FinishOpen(k, sock, host)
    case CloseRuns(_) => Close(k)
    case UserDefines(address) => SetUserDefined(k, address)
    case _ => k
  }

  function Next(s: State, e: Event): State
    requires Possible(s, e)
  {
    var b := Base(s, e);
    State(if b.Some? then Apply(s.sys, b.value) else s.sys, NextSocket(s.sock, e), NextBound(s.bound, e))
  }

  function NextBound(bound: Option<int>, e: Event): Option<int> {
    match e
    case PortBound(_, port) => Some(port)
    case OpenRaises(_) => None
    case CloseRuns(_) => None
    case _ => bound
  }

  predicate IsHistory(s: State, events: seq<Event>)
    decreases |events|
  {
    && OneOfEach(s.sys)
    && (events != [] ==> Possible(s, events[0]) && IsHistory(Next(s, events[0]), events[1..]))
  }

  function Finally(s: State, events: seq<Event>): State
    requires IsHistory(s, events)
    decreases |events|
  {
    if events == [] then s else Finally(Next(s, events[0]), events[1..])
  }

  /** The assertion of `_close` holds whenever it is reached. */
  predicate AssertsHold(s: State, events: seq<Event>)
    requires IsHistory(s, events)
    decreases |events|
  {
    events != [] ==>
      && (events[0].CloseRuns? ==> s.sock.socket.Some?)
      && AssertsHold(Next(s, events[0]), events[1..])
  }

  /** A socket exactly while up; an inferred address exactly while up with a broadcast
      port, and then with that port. */
  predicate SocketFits(k: Socket, up: bool) {
    && k.socket.Some? == up
    && (k.inferred.Some? <==> up && k.allowBroadcast && k.broadcastPort.Some?)
    && (k.inferred.Some? ==> k.inferred.value.port == k.broadcastPort.value)
    && (!k.allowBroadcast ==> k.userDefined.None? && k.broadcastPort.None?)
  }

  lemma SocketStep(k: Socket, e: Event, up: bool)
    requires SocketFits(k, up)
    requires e.PortBound? ==> !up
    ensures SocketFits(NextSocket(k, e),
      match e
      case OpenReturns(_, _, _) => true
      case CloseRuns(_) => false
      case _ => up)
    ensures k.broadcastPort.Some? ==> NextSocket(k, e).broadcastPort == k.broadcastPort
    ensures NextSocket(k, e).allowBroadcast == k.allowBroadcast
  {
  }

  predicate Fits(s: State) {
    SocketFits(s.sock, IsUp(s.sys))
  }

  lemma FitsStep(s: State, e: Event)
    requires Safe(s.sys) && Fits(s) && Possible(s, e)
    requires OneOfEach(s.sys) && OneOfEach(Next(s, e).sys)
    ensures Safe(Next(s, e).sys) && Fits(Next(s, e))
    ensures e.CloseRuns? ==> s.sock.socket.Some?
    ensures s.sock.broadcastPort.Some? ==> Next(s, e).sock.broadcastPort == s.sock.broadcastPort
  {
    assert e.PortBound? ==> !IsUp(s.sys) by {
      hide IsTrace, Apply;
    }
    hide Safe, OneOfEach, Apply, StepInOrder, ResumesInPlace, Enabled, NextSocket;
    if Base(s, e).Some? {
      SafeStep(s.sys, Base(s, e).value);
      UpStep(s.sys, Base(s, e).value);
    }
    SocketStep(s.sock, e, IsUp(s.sys));
  }

  lemma OneOfEachFirst(s: State, events: seq<Event>)
    requires IsHistory(s, events) && events != []
    ensures OneOfEach(s.sys) && OneOfEach(Next(s, events[0]).sys)
  {
  }

  lemma {:induction false} FitsHistory(s: State, events: seq<Event>)
    requires Safe(s.sys) && Fits(s) && IsHistory(s, events)
    ensures Fits(Finally(s, events)) && AssertsHold(s, events)
    ensures s.sock.broadcastPort.Some? ==> Finally(s, events).sock.broadcastPort == s.sock.broadcastPort
    decreases |events|
  {
    if events != [] {
      hide Safe, Fits, Next, OneOfEach;
      OneOfEachFirst(s, events);
      FitsStep(s, events[0]);
      FitsHistory(Next(s, events[0]), events[1..]);
    }
  }

  function NewState(allowBroadcast: bool, broadcastPort: Option<int>): State {
    State(NEW_SYSTEM, NewSocket(allowBroadcast, broadcastPort), None)
  }

  /** With one active open and one active close at a time: a socket exactly when CONNECTED
      among the settled states, an assertion in `_close` that never fails, and no
      broadcast address of a closed connection but the user's own. */
  lemma SocketExactlyWhenUp(allowBroadcast: bool, broadcastPort: Option<int>, events: seq<Event>)
    requires IsHistory(NewState(allowBroadcast, broadcastPort), events)
    ensures AssertsHold(NewState(allowBroadcast, broadcastPort), events)
    ensures var s := Finally(NewState(allowBroadcast, broadcastPort), events);
      && (s.sys.conn.state == Connected ==> s.sock.socket.Some?)
      && (s.sys.conn.state == Disconnected ==>
           s.sock.socket.None? && BroadcastAddress(s.sock) == s.sock.userDefined)
      && (s.sys.conn.state == Connected && s.sock.broadcastPort.Some? && s.sock.userDefined.None? &&
           s.sock.allowBroadcast ==>
           BroadcastAddress(s.sock).Some? && BroadcastAddress(s.sock).value.port == s.sock.broadcastPort.value)
      && (!s.sock.allowBroadcast ==> BroadcastAddress(s.sock) == None && s.sock.broadcastPort == None)
      && (broadcastPort.Some? ==> s.sock.broadcastPort == broadcastPort)
  {
    FitsHistory(NewState(allowBroadcast, broadcastPort), events);
  }

  /** A broadcast port once learned is kept over closing and reopening, even when the
      socket is bound to another port then. */
  lemma BroadcastPortIsKept(allowBroadcast: bool, broadcastPort: Option<int>, before: seq<Event>, after: seq<Event>)
    requires IsHistory(NewState(allowBroadcast, broadcastPort), before)
    requires IsHistory(Finally(NewState(allowBroadcast, broadcastPort), before), after)
    ensures var s := Finally(NewState(allowBroadcast, broadcastPort), before);
      s.sock.broadcastPort.Some? ==> Finally(s, after).sock.broadcastPort == s.sock.broadcastPort
  {
    SafeFinally(NewState(allowBroadcast, broadcastPort), before);
    FitsHistory(NewState(allowBroadcast, broadcastPort), before);
    FitsHistory(Finally(NewState(allowBroadcast, broadcastPort), before), after);
  }

  lemma {:induction false} SafeFinally(s: State, events: seq<Event>)
    requires Safe(s.sys) && Fits(s) && IsHistory(s, events)
    ensures Safe(Finally(s, events).sys)
    decreases |events|
  {
    if events != [] {
      hide Safe, Fits, Next, OneOfEach;
      OneOfEachFirst(s, events);
      FitsStep(s, events[0]);
      SafeFinally(Next(s, events[0]), events[1..]);
    }
  }

  // ----- the port of broadcasts -------------------------------------------

  /** The first port that a socket of the connection was bound to. */
  function FirstBound(events: seq<Event>): Option<int> {
    if events == [] then None
    else if events[0].PortBound? then Some(events[0].port)
    else FirstBound(events[1..])
  }

  /** The broadcast port is the configured one, or the first one learned. */
  lemma {:induction false} PortLearned(s: State, events: seq<Event>)
    requires IsHistory(s, events) && s.sock.allowBroadcast
    ensures var k := Finally(s, events).sock;
      && k.allowBroadcast
      && k.broadcastPort == if s.sock.broadcastPort.Some? then s.sock.broadcastPort else FirstBound(events)
    decreases |events|
  {
    if events != [] {
      hide Apply, Enabled, OneOfEach;
      PortLearned(Next(s, events[0]), events[1..]);
    }
  }

  /** Broadcasts go to the port that the socket is bound to, as documented for
      connections without a configured broadcast port, if and only if that is the first
      port that any socket of the connection was bound to. */
  lemma BoundPortExactly(events: seq<Event>)
    requires IsHistory(NewState(true, None), events)
    ensures var s := Finally(NewState(true, None), events);
      s.sys.conn.state == Connected && s.bound.Some? ==>
        && s.sock.inferred.Some?
        && (s.sock.inferred.value.port == s.bound.value <==> s.bound == FirstBound(events))
  {
    var s0 := NewState(true, None);
    FitsHistory(s0, events);
    PortLearned(s0, events);
    BoundIsKnown(s0, events);
  }

  /** A port that is bound to is learned, unless another one is known. */
  lemma {:induction false} BoundIsKnown(s: State, events: seq<Event>)
    requires IsHistory(s, events) && s.sock.allowBroadcast
    requires s.bound.Some? ==> s.sock.broadcastPort.Some?
    ensures Finally(s, events).bound.Some? ==> Finally(s, events).sock.broadcastPort.Some?
    decreases |events|
  {
    if events != [] {
      hide Apply, Enabled, OneOfEach;
      BoundIsKnown(Next(s, events[0]), events[1..]);
    }
  }

  // ----- where broadcasts go ----------------------------------------------

  /** The address that the user last set or cleared; without broadcasts none can be set. */
  function LastUserDefined(events: seq<Event>, allowBroadcast: bool, before: Option<Address>): Option<Address> {
    if events == [] then before
    else
      LastUserDefined(events[1..], allowBroadcast,
        if events[0].UserDefines? && (allowBroadcast || events[0].address.None?) then events[0].address else before)
  }

  /** The broadcast host found by the last `_open` that returned. */
  function LastHost(events: seq<Event>, before: string): string {
    if events == [] then before
    else LastHost(events[1..], if events[0].OpenReturns? then events[0].host else before)
  }

  lemma {:induction false} AddressHistory(s: State, events: seq<Event>, host: string)
    requires IsHistory(s, events)
    requires s.sock.inferred.Some? ==>
      s.sock.inferred.value.host == host && s.sock.allowBroadcast && s.sock.broadcastPort.Some?
    ensures var k := Finally(s, events).sock;
      && k.allowBroadcast == s.sock.allowBroadcast
      && k.userDefined == LastUserDefined(events, s.sock.allowBroadcast, s.sock.userDefined)
      && (k.inferred.Some? ==> k.inferred.value.host == LastHost(events, host))
    decreases |events|
  {
    if events != [] {
      hide Apply, Enabled, OneOfEach;
      AddressHistory(Next(s, events[0]), events[1..], if events[0].OpenReturns? then events[0].host else host);
    }
  }

  /** The address that broadcasts are sent to: the user's, if one was set and not cleared
      since; otherwise, while the connection is up, the host of its last opening with the
      configured port or, without one, the first port that it was bound to. */
  lemma BroadcastsGoTo(allowBroadcast: bool, broadcastPort: Option<int>, events: seq<Event>)
    requires IsHistory(NewState(allowBroadcast, broadcastPort), events)
    ensures var s := Finally(NewState(allowBroadcast, broadcastPort), events);
      var allowed := allowBroadcast || broadcastPort.Some?;
      var user := LastUserDefined(events, allowed, None);
      var port := if broadcastPort.Some? then broadcastPort else FirstBound(events);
      BroadcastAddress(s.sock) ==
        if user.Some? then user
        else if IsUp(s.sys) && allowed && port.Some? then Some(Address(LastHost(events, ""), port.value))
        else None
  {
    var s0 := NewState(allowBroadcast, broadcastPort);
    FitsHistory(s0, events);
    AddressHistory(s0, events, "");
    if s0.sock.allowBroadcast { PortLearned(s0, events); }
    hide IsHistory, Finally, LastHost, LastUserDefined, FirstBound;
  }

  // ----- reopened on another port -----------------------------------------

  lemma {:induction false} HistoryAppend(s: State, events: seq<Event>, e: Event)
    requires IsHistory(s, events) && Possible(Finally(s, events), e)
    requires OneOfEach(Next(Finally(s, events), e).sys)
    ensures IsHistory(s, events + [e]) && Finally(s, events + [e]) == Next(Finally(s, events), e)
    decreases |events|
  {
    hide OneOfEach, Possible, Next;
    var all := events + [e];
    if events == [] {
      assert all[1..] == [] && all[0] == e;
      assert IsHistory(Next(s, e), []);
    } else {
      assert all[1..] == events[1..] + [e] && all[0] == events[0];
      HistoryAppend(Next(s, events[0]), events[1..], e);
    }
  }

  /** At most one call is in flight, and it is at the given point. */
  predicate Alone(sys: System, t: CallId, p: Point) {
    if p == Returned then sys.calls.Keys == {} else sys.calls.Keys == {t} && sys.calls[t].at == p
  }

  lemma Go(s0: State, events: seq<Event>, s: State, e: Event, t: CallId, p: Point)
    returns (longer: seq<Event>, s': State)
    requires IsHistory(s0, events) && Finally(s0, events) == s && Possible(s, e) && Alone(s.sys, t, p)
    requires Base(s, e).Some? ==> Base(s, e).value.call == t
    ensures IsHistory(s0, longer) && Finally(s0, longer) == s' == Next(s, e)
    ensures Base(s, e).None? ==> s'.sys == s.sys
    ensures Base(s, e).Some? ==>
      && s'.sys.conn.state == NextState(s.sys, Base(s, e).value)
      && Alone(s'.sys, t, Reaches(s.sys, Base(s, e).value))
  {
    s' := Next(s, e);
    if Base(s, e).Some? {
      StepFrame(s.sys, Base(s, e).value);
      StepState(s.sys, Base(s, e).value);
    }
    hide Apply, IsHistory, Finally, SetState;
    assert s'.sys.calls.Keys <= {t};
    longer := events + [e];
    HistoryAppend(s0, events, e);
  }

  /** Opened once more on the given port, from a state in which it is closed. */
  lemma OpenedOn(s0: State, events: seq<Event>, s: State, port: int) returns (longer: seq<Event>, s': State)
    requires IsHistory(s0, events) && Finally(s0, events) == s
    requires s.sys.conn.state == Disconnected && Alone(s.sys, 0, Returned) && s.bound.None?
    ensures IsHistory(s0, longer) && Finally(s0, longer) == s'
    ensures s'.sys.conn.state == Connected && Alone(s'.sys, 0, Returned) && s'.bound == Some(port)
    ensures s'.sock == FinishOpen(LearnPort(s.sock, port), 0, "")
  {
    hide Apply, IsHistory, Finally, SetState;
    longer, s' := Go(s0, events, s, Other(CallOpen(0)), 0, Returned);
    longer, s' := Go(s0, longer, s', PortBound(0, port), 0, InOpen);
    longer, s' := Go(s0, longer, s', OpenReturns(0, 0, ""), 0, InOpen);
  }

  lemma Start(s0: State)
    requires OneOfEach(s0.sys)
    ensures IsHistory(s0, []) && Finally(s0, []) == s0
  {
  }

  /** Bound to one port, closed and reopened on another, a connection without a configured
      broadcast port keeps sending its broadcasts to the first. */
  lemma ReopenedOnAnotherPort(p: int, q: int) returns (events: seq<Event>)
    ensures IsHistory(NewState(true, None), events)
    ensures var s := Finally(NewState(true, None), events);
      && s.sys.conn.state == Connected && s.bound == Some(q)
      && BroadcastAddress(s.sock) == Some(Address("", p))
  {
    var s0 := NewState(true, None);
    var s;
    Start(s0);
    hide Apply, IsHistory, Finally, SetState;
    events, s := OpenedOn(s0, [], s0, p);
    events, s := Go(s0, events, s, Other(CallClose(0)), 0, Returned);
    events, s := Go(s0, events, s, CloseRuns(0), 0, InClose);
    events, s := OpenedOn(s0, events, s, q);
  }
}
