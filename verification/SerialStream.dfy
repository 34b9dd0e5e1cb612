/** The threaded serial port stream: sends from any number of tasks through a device
    that may take any part of what it is offered never interleave on the wire. */
module SerialStream {
  import opened Common

  type Data = seq<int>

  type CallId = nat

  // ----- the conflict detector --------------------------------------------

  class ConflictDetector {
    var held: bool

    constructor ()
      ensures !held
    {
      held := false;
    }

    /** Entering raises an error, and changes nothing, when somebody is in. */
    method Enter() returns (success: bool)
      modifies this
      ensures success == !old(held) && held
    {
      if held {
        return false;
      }
      held := true;
      success := true;
    }

    method Exit()
      modifies this
      ensures !held
    {
      held := false;
    }
  }

  /** How a call of `send_all` fares when it starts. */
  datatype Start = ReturnsAtOnce | IsBusy | Accepted

  function StartOf(held: bool, data: Data): Start {
    if data == [] then ReturnsAtOnce else if held then IsBusy else Accepted
  }

  class ThreadedSerialPortStream {
    const sendConflictDetector: ConflictDetector

    constructor ()
      ensures fresh(sendConflictDetector) && !sendConflictDetector.held
    {
      sendConflictDetector := new ConflictDetector();
    }

    /** `send_all` up to its first write. */
    method StartSending(data: Data) returns (start: Start)
      modifies sendConflictDetector
      ensures start == StartOf(old(sendConflictDetector.held), data)
      ensures sendConflictDetector.held == (old(sendConflictDetector.held) || start == Accepted)
    {
      if data == [] {
        return ReturnsAtOnce;
      }
      var entered := sendConflictDetector.Enter();
      start := if entered then Accepted else IsBusy;
    }

    /** One turn of its loop: what is left to send, or nothing once it is over. A negative
        number of bytes is an error, one beyond the data leaves nothing, and leaving the
        block releases the detector. */
    method ContinueSending(data: Data, numWritten: int) returns (rest: Data, error: bool)
      requires data != []
      modifies sendConflictDetector
      ensures error == (numWritten < 0)
      ensures rest == if error then data else if numWritten >= |data| then [] else data[numWritten..]
      ensures sendConflictDetector.held == (!error && rest != [] && old(sendConflictDetector.held))
    {
      error := numWritten < 0;
      rest := data;
      if !error {
        rest := if numWritten >= |data| then [] else data[numWritten..];
      }
      if error || rest == [] {
        sendConflictDetector.Exit();
      }
    }
  }

  // ----- any number of calls ----------------------------------------------

  /** A payload that passed the detector, how much of it the device has taken, and
      whether its call is still sending, has returned or has failed. */
  datatype Progress = Sending | Returned | Failed

  datatype Sent = Sent(call: CallId, payload: Data, taken: nat, progress: Progress)

  /** How a call ended: without an error, with the error of the detector, or with another. */
  datatype Ending = Normally | Refused | WithError

  datatype Over = Over(call: CallId, payload: Data, ending: Ending)

  /** `accepted` lists the payloads in the order in which they passed the detector, `over`
      the calls that ended, in that order. */
  datatype State = State(held: bool, device: Data, calls: map<CallId, nat>, accepted: seq<Sent>, over: seq<Over>)

  const NEW_STATE := State(false, [], map[], [], [])

  datatype Event =
    | Sends(call: CallId, data: Data)
    | Writes(call: CallId, taken: nat, reported: nat)
    | Fails(call: CallId, taken: nat)   // the write raises, or is cancelled, or returns a negative number

  function Current(s: State, t: CallId): Sent
    requires t in s.calls && s.calls[t] < |s.accepted|
  {
    s.accepted[s.calls[t]]
  }

  function Unsent(s: State, t: CallId): int
    requires t in s.calls && s.calls[t] < |s.accepted|
  {
    |Current(s, t).payload| - Current(s, t).taken
  }

  /** A device reports as many bytes as it took; it may report more once it took all. */
  predicate Possible(s: State, e: Event) {
    match e
    case Sends(t, _) => t !in s.calls
    case Writes(t, k, reported) => CanTake(s, t, k) && (reported == k || reported > k == Unsent(s, t))
    case Fails(t, k) => CanTake(s, t, k)
  }

  predicate CanTake(s: State, t: CallId, k: nat) {
    && t in s.calls && s.calls[t] < |s.accepted|
    && Current(s, t).taken + k <= |Current(s, t).payload|
  }

  /** The device takes the next bytes of the call's payload. */
  function Take(s: State, t: CallId, k: nat, progress: Progress): State
    requires CanTake(s, t, k)
  {
    var c := Current(s, t);
    var ends := progress != Sending;
    State(
      s.held && !ends,
      s.device + c.payload[c.taken..c.taken + k],
      if ends then s.calls - {t} else s.calls,
      s.accepted[s.calls[t] := c.(taken := c.taken + k, progress := progress)],
      s.over + if ends then [Over(t, c.payload, if progress == Returned then Normally else WithError)] else [])
  }

  function Next(s: State, e: Event): State
    requires Possible(s, e)
  {
    match e
    case Sends(t, data) =>
      (match StartOf(s.held, data)
       case Accepted =>
         s.(held := true, calls := s.calls[t := |s.accepted|], accepted := s.accepted + [Sent(t, data, 0, Sending)])
       case IsBusy => s.(over := s.over + [Over(t, data, Refused)])
       case ReturnsAtOnce => s.(over := s.over + [Over(t, data, Normally)]))
    case Writes(t, k, reported) => Take(s, t, k, if reported >= Unsent(s, t) then Returned else Sending)
    case Fails(t, k) => Take(s, t, k, Failed)
  }

  predicate IsHistory(s: State, events: seq<Event>)
    decreases |events|
  {
    events != [] ==> Possible(s, events[0]) && IsHistory(Next(s, events[0]), events[1..])
  }

  function Finally(s: State, events: seq<Event>): State
    requires IsHistory(s, events)
    decreases |events|
  {
    if events == [] then s else Finally(Next(s, events[0]), events[1..])
  }

  // ----- what is on the wire ----------------------------------------------

  predicate Proper(c: Sent) {
    && c.taken <= |c.payload|
    && (c.progress == Returned ==> c.taken == |c.payload|)
  }

  /** The part of the payload that the device has taken. */
  function Prefix(c: Sent): Data {
    if c.taken <= |c.payload| then c.payload[..c.taken] else c.payload
  }

  /** One prefix per accepted payload, in the order of acceptance. */
  function Wire(accepted: seq<Sent>): Data {
    if accepted == [] then []
    else Wire(accepted[..|accepted| - 1]) + Prefix(accepted[|accepted| - 1])
  }

  /** Only the payload accepted last may still be going out. */
  predicate InOrder(accepted: seq<Sent>) {
    && (forall i :: 0 <= i < |accepted| ==> Proper(accepted[i]))
    && (forall i :: 0 <= i < |accepted| - 1 ==> accepted[i].progress != Sending)
  }

  /** The detector is held exactly while that payload is, and only by its call. */
  predicate HeldByLast(held: bool, calls: map<CallId, nat>, accepted: seq<Sent>) {
    && (held <==> accepted != [] && accepted[|accepted| - 1].progress == Sending)
    && (if held then calls == map[accepted[|accepted| - 1].call := |accepted| - 1] else calls == map[])
  }

  /** Nothing interleaves: the wire has the prefixes one after the other. */
  predicate Clean(s: State) {
    InOrder(s.accepted) && s.device == Wire(s.accepted) && HeldByLast(s.held, s.calls, s.accepted)
  }

  lemma WireLast(accepted: seq<Sent>, k: nat, progress: Progress)
    requires accepted != []
    requires var c := accepted[|accepted| - 1]; c.taken + k <= |c.payload|
    ensures var c := accepted[|accepted| - 1];
      Wire(accepted[|accepted| - 1 := c.(taken := c.taken + k, progress := progress)]) ==
        Wire(accepted) + c.payload[c.taken..c.taken + k]
  {
    var n := |accepted| - 1;
    var c := accepted[n];
    var longer := accepted[n := c.(taken := c.taken + k, progress := progress)];
    var init, more := accepted[..n], c.payload[c.taken..c.taken + k];
    assert longer[..n] == init;
    assert Wire(longer) == Wire(init) + Prefix(longer[n]) && Wire(accepted) == Wire(init) + Prefix(c);
    PrefixGrows(c, k, progress);
    hide *;
    Regrouped(Wire(init), Prefix(c), more);
  }

  lemma PrefixGrows(c: Sent, k: nat, progress: Progress)
    requires c.taken + k <= |c.payload|
    ensures Prefix(c.(taken := c.taken + k, progress := progress)) == Prefix(c) + c.payload[c.taken..c.taken + k]
  {
  }

  lemma InOrderLast(accepted: seq<Sent>, c: Sent)
    requires InOrder(accepted) && accepted != [] && Proper(c)
    ensures InOrder(accepted[|accepted| - 1 := c])
  {
  }

  lemma TakeStep(s: State, t: CallId, k: nat, progress: Progress)
    requires Clean(s) && CanTake(s, t, k)
    requires progress == Returned ==> Current(s, t).taken + k == |Current(s, t).payload|
    ensures Clean(Take(s, t, k, progress))
    ensures s.device <= Take(s, t, k, progress).device
  {
    hide Wire, Prefix, InOrder;
    var n := |s.accepted| - 1;
    var c := s.accepted[n];
    assert s.calls[t] == n;
    WireLast(s.accepted, k, progress);
    InOrderLast(s.accepted, c.(taken := c.taken + k, progress := progress));
    assert s.calls - {t} == map[];
  }

  lemma SendStep(s: State, t: CallId, data: Data)
    requires Clean(s) && t !in s.calls
    ensures Clean(Next(s, Sends(t, data)))
    ensures data == [] || s.held ==> Next(s, Sends(t, data)).(over := s.over) == s
    ensures s.device == Next(s, Sends(t, data)).device
  {
    hide Take;
    if StartOf(s.held, data) == Accepted {
      var s' := Next(s, Sends(t, data));
      assert s'.accepted[..|s.accepted|] == s.accepted;
      assert Prefix(Sent(t, data, 0, Sending)) == [];
    }
  }

  lemma CleanStep(s: State, e: Event)
    requires Clean(s) && Possible(s, e)
    ensures Clean(Next(s, e))
    ensures s.device <= Next(s, e).device
  {
    hide Clean, Take, Wire;
    match e {
      case Sends(t, data) => SendStep(s, t, data);
      case Writes(t, k, reported) =>
        TakeStep(s, t, k, if reported >= Unsent(s, t) then Returned else Sending);
      case Fails(t, k) => TakeStep(s, t, k, Failed);
    }
  }

  lemma {:induction false} CleanHistory(s: State, events: seq<Event>)
    requires Clean(s) && IsHistory(s, events)
    ensures Clean(Finally(s, events))
    decreases |events|
  {
    if events != [] {
      CleanStep(s, events[0]);
      hide Clean, Next;
      CleanHistory(Next(s, events[0]), events[1..]);
    }
  }

  /** For any number of calls and any way the device takes the bytes, the stream on the
      wire is one prefix per accepted payload in the order of acceptance, the whole
      payload for each call that returned, and at most the latest is still going on. */
  lemma NoInterleaving(events: seq<Event>)
    requires IsHistory(NEW_STATE, events)
    ensures var s := Finally(NEW_STATE, events);
      && (forall i :: 0 <= i < |s.accepted| ==> Proper(s.accepted[i]))
      && s.device == Wire(s.accepted)
      && (forall i :: 0 <= i < |s.accepted| - 1 ==> s.accepted[i].progress != Sending)
  {
    CleanHistory(NEW_STATE, events);
  }

  /** A call that meets a held detector writes nothing and does not release it, whatever
      happened before: all it does is to end, with the error of the detector if it has data. */
  lemma BusyCallChangesNothing(events: seq<Event>, t: CallId, data: Data)
    requires IsHistory(NEW_STATE, events) && Finally(NEW_STATE, events).held
    requires Possible(Finally(NEW_STATE, events), Sends(t, data))
    ensures var s := Finally(NEW_STATE, events);
      && Next(s, Sends(t, data)) == s.(over := s.over + [Over(t, data, if data == [] then Normally else Refused)])
      && s.calls != map[]
  {
    CleanHistory(NEW_STATE, events);
    var s := Finally(NEW_STATE, events);
    hide IsHistory, Finally, Wire;
    assert s.accepted[|s.accepted| - 1].call in s.calls;
  }

  // ----- how calls end ----------------------------------------------------

  predicate SomeSending(accepted: seq<Sent>) {
    exists i :: 0 <= i < |accepted| && accepted[i].progress == Sending
  }

  /** At any time a call is refused if and only if it has data and an accepted payload is
      still being sent; it is accepted if and only if it has data and there is none. */
  lemma RefusedExactly(events: seq<Event>, t: CallId, data: Data)
    requires IsHistory(NEW_STATE, events) && Possible(Finally(NEW_STATE, events), Sends(t, data))
    ensures var s := Finally(NEW_STATE, events);
      var s' := Next(s, Sends(t, data));
      && (s'.over == s.over + [Over(t, data, Refused)] <==> data != [] && SomeSending(s.accepted))
      && (s'.over == s.over + [Over(t, data, Normally)] <==> data == [])
      && (s'.accepted == s.accepted + [Sent(t, data, 0, Sending)] <==> data != [] && !SomeSending(s.accepted))
  {
    CleanHistory(NEW_STATE, events);
    var s := Finally(NEW_STATE, events);
    hide IsHistory, Finally, Wire, Possible;
    assert s.held <==> SomeSending(s.accepted) by {
      if s.held { assert s.accepted[|s.accepted| - 1].progress == Sending; }
    }
    var s' := Next(s, Sends(t, data));
    assert |s'.over| == |s.over| + 1 ==> s'.over[|s.over|].call == t;
  }

  /** What the calls that ended without an error were given, those without data left out. */
  function Given(over: seq<Over>): seq<(CallId, Data)> {
    if over == [] then []
    else
      var o := over[|over| - 1];
      Given(over[..|over| - 1]) + if o.ending == Normally && o.payload != [] then [(o.call, o.payload)] else []
  }

  /** What was accepted of calls that returned. */
  function Done(accepted: seq<Sent>): seq<(CallId, Data)> {
    if accepted == [] then []
    else
      var c := accepted[|accepted| - 1];
      Done(accepted[..|accepted| - 1]) + if c.progress == Returned then [(c.call, c.payload)] else []
  }

  lemma GivenSnoc(over: seq<Over>, o: Over)
    ensures Given(over + [o]) == Given(over) + if o.ending == Normally && o.payload != [] then [(o.call, o.payload)] else []
  {
    assert (over + [o])[..|over|] == over;
  }

  lemma DoneSnoc(accepted: seq<Sent>, c: Sent)
    ensures Done(accepted + [c]) == Done(accepted) + if c.progress == Returned then [(c.call, c.payload)] else []
  {
    assert (accepted + [c])[..|accepted|] == accepted;
  }

  predicate EndingsFit(s: State) {
    && Given(s.over) == Done(s.accepted)
    && forall i :: 0 <= i < |s.accepted| ==> s.accepted[i].payload != []
  }

  lemma EndingsFitTake(s: State, t: CallId, k: nat, progress: Progress)
    requires Clean(s) && EndingsFit(s) && CanTake(s, t, k)
    ensures EndingsFit(Take(s, t, k, progress))
  {
    var n := |s.accepted| - 1;
    assert s.calls[t] == n && s.accepted[n].progress == Sending && s.accepted[n].call == t;
    var c, s' := s.accepted[n], Take(s, t, k, progress);
    var c' := c.(taken := c.taken + k, progress := progress);
    var o := Over(t, c.payload, if progress == Returned then Normally else WithError);
    assert s'.accepted == s.accepted[n := c'];
    assert s'.over == s.over + if progress != Sending then [o] else [];
    assert forall i :: 0 <= i < n ==> s'.accepted[i] == s.accepted[i];
    hide *;
    DoneLast(s.accepted, c');
    GivenSnoc(s.over, o);
    assert s.over + [] == s.over;
    PayloadOf(s, n);
    assert Given(s.over) + [] == Given(s.over);
    EndingsFitParts(s, s', c');
  }

  lemma DoneLast(accepted: seq<Sent>, c: Sent)
    requires accepted != [] && accepted[|accepted| - 1].progress == Sending
    ensures Done(accepted[|accepted| - 1 := c]) ==
      Done(accepted) + if c.progress == Returned then [(c.call, c.payload)] else []
  {
    var n := |accepted| - 1;
    var init := accepted[..n];
    DoneSnoc(init, accepted[n]);
    DoneSnoc(init, c);
    assert accepted == init + [accepted[n]] && accepted[n := c] == init + [c];
    assert Done(init) + [] == Done(init);
  }

  lemma PayloadOf(s: State, i: nat)
    requires EndingsFit(s) && i < |s.accepted|
    ensures s.accepted[i].payload != []
  {
  }

  lemma EndingsFitParts(s: State, s': State, c: Sent)
    requires EndingsFit(s) && s.accepted != [] && c.payload == s.accepted[|s.accepted| - 1].payload
    requires s'.accepted == s.accepted[|s.accepted| - 1 := c]
    requires Given(s'.over) == Given(s.over) + if c.progress == Returned then [(c.call, c.payload)] else []
    requires Done(s'.accepted) == Done(s.accepted) + if c.progress == Returned then [(c.call, c.payload)] else []
    ensures EndingsFit(s')
  {
    hide Given, Done;
  }

  lemma EndingsFitSend(s: State, t: CallId, data: Data)
    requires EndingsFit(s) && Possible(s, Sends(t, data))
    ensures EndingsFit(Next(s, Sends(t, data)))
  {
    var s' := Next(s, Sends(t, data));
    hide Given, Done, Possible;
    assert Given(s.over) + [] == Given(s.over) && Done(s.accepted) + [] == Done(s.accepted);
    match StartOf(s.held, data) {
      case Accepted =>
        DoneSnoc(s.accepted, Sent(t, data, 0, Sending));
      case IsBusy =>
        GivenSnoc(s.over, Over(t, data, Refused));
      case ReturnsAtOnce =>
        GivenSnoc(s.over, Over(t, data, Normally));
    }
  }

  lemma EndingsFitStep(s: State, e: Event)
    requires Clean(s) && EndingsFit(s) && Possible(s, e)
    ensures EndingsFit(Next(s, e))
  {
    hide Clean, EndingsFit, Take;
    match e {
      case Sends(t, data) =>
        EndingsFitSend(s, t, data);
      case Writes(t, k, reported) =>
        EndingsFitTake(s, t, k, if reported >= Unsent(s, t) then Returned else Sending);
      case Fails(t, k) =>
        EndingsFitTake(s, t, k, Failed);
    }
  }

  lemma {:induction false} EndingsFitHistory(s: State, events: seq<Event>)
    requires Clean(s) && EndingsFit(s) && IsHistory(s, events)
    ensures Clean(Finally(s, events)) && EndingsFit(Finally(s, events))
    decreases |events|
  {
    if events != [] {
      CleanStep(s, events[0]);
      EndingsFitStep(s, events[0]);
      hide Clean, EndingsFit, Next;
      EndingsFitHistory(Next(s, events[0]), events[1..]);
    }
  }

  /** The place of an accepted payload on the wire. */
  lemma {:induction false} WireAt(accepted: seq<Sent>, i: nat)
    requires i < |accepted|
    ensures var at, p := |Wire(accepted[..i])|, Prefix(accepted[i]);
      at + |p| <= |Wire(accepted)| && Wire(accepted)[at..at + |p|] == p
    decreases |accepted|
  {
    var n := |accepted| - 1;
    var init, last := accepted[..n], Prefix(accepted[n]);
    assert Wire(accepted) == Wire(init) + last;
    if i < n {
      WireAt(init, i);
      assert init[..i] == accepted[..i] && init[i] == accepted[i];
      hide Wire, Prefix;
      var at, p := |Wire(accepted[..i])|, Prefix(accepted[i]);
      assert (Wire(init) + last)[at..at + |p|] == Wire(init)[at..at + |p|];
    }
  }

  /** The payload number `i` is on the wire as a whole, right behind everything accepted
      before it. */
  predicate IsOnWire(s: State, i: nat)
    requires i < |s.accepted|
  {
    var at, p := |Wire(s.accepted[..i])|, s.accepted[i].payload;
    at + |p| <= |s.device| && s.device[at..at + |p|] == p
  }

  lemma ReturnedIsOnWire(s: State, i: nat)
    requires Clean(s) && i < |s.accepted| && s.accepted[i].progress == Returned
    ensures IsOnWire(s, i)
  {
    assert Proper(s.accepted[i]);
    WireAt(s.accepted, i);
    assert Prefix(s.accepted[i]) == s.accepted[i].payload;
    hide Wire;
  }

  /** Over all runs the calls that ended without an error, those without data left out, are
      one by one and in order the accepted payloads that were sent out, and each of these
      is on the wire at its place. */
  lemma EndingsTellTheTruth(events: seq<Event>)
    requires IsHistory(NEW_STATE, events)
    ensures var s := Finally(NEW_STATE, events);
      && Given(s.over) == Done(s.accepted)
      && forall i :: 0 <= i < |s.accepted| && s.accepted[i].progress == Returned ==> IsOnWire(s, i)
  {
    EndingsFitHistory(NEW_STATE, events);
    var s := Finally(NEW_STATE, events);
    hide IsHistory, Finally, Wire, Clean, IsOnWire;
    forall i | 0 <= i < |s.accepted| && s.accepted[i].progress == Returned
      ensures IsOnWire(s, i)
    {
      ReturnedIsOnWire(s, i);
    }
  }

  /** The payload was accepted from the call, which returned. */
  predicate IsSentOut(c: Sent, x: (CallId, Data)) {
    c.progress == Returned && c.call == x.0 && c.payload == x.1
  }

  lemma {:induction false} DoneMember(accepted: seq<Sent>, x: (CallId, Data)) returns (i: nat)
    requires x in Done(accepted)
    ensures i < |accepted| && IsSentOut(accepted[i], x)
  {
    var n := |accepted| - 1;
    if x in Done(accepted[..n]) {
      i := DoneMember(accepted[..n], x);
    } else {
      i := n;
    }
  }

  lemma {:induction false} GivenMember(over: seq<Over>, k: nat)
    requires k < |over| && over[k].ending == Normally && over[k].payload != []
    ensures (over[k].call, over[k].payload) in Given(over)
  {
    var n := |over| - 1;
    if k < n {
      assert over[..n][k] == over[k];
      GivenMember(over[..n], k);
    }
  }

  /** A call that ended without an error had nothing to send, or its whole payload was
      accepted from it and is on the wire at its place. */
  lemma NormalMeansSent(events: seq<Event>, k: nat) returns (i: nat)
    requires IsHistory(NEW_STATE, events)
    requires k < |Finally(NEW_STATE, events).over| && Finally(NEW_STATE, events).over[k].ending == Normally
    ensures var s := Finally(NEW_STATE, events);
      var o := s.over[k];
      o.payload == [] || (i < |s.accepted| && IsSentOut(s.accepted[i], (o.call, o.payload)) && IsOnWire(s, i))
  {
    EndingsTellTheTruth(events);
    var s := Finally(NEW_STATE, events);
    var o := s.over[k];
    hide IsHistory, Finally, Wire, Given, Done, IsOnWire;
    i := 0;
    if o.payload != [] {
      GivenMember(s.over, k);
      i := DoneMember(s.accepted, (o.call, o.payload));
    }
  }
}
