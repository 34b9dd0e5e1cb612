/** `open` and `close` as a protocol run by any number of concurrent calls. Code
    between two awaits is one step; a wait becomes runnable when its flag turns true
    and stays so even if the flag turns back; bodies end in success or failure (an
    exception or a cancellation) and waits may be cancelled, at any time. */
module Lifecycle {
  import opened Connection

  type CallId = nat

  datatype Call = Call(at: Point, woken: bool)

  /** A connection and the calls in flight on it. */
  datatype System = System(conn: Conn, calls: map<CallId, Call>)

  const NEW_SYSTEM := System(NEW_CONN, map[])

  datatype Action =
    | CallOpen(call: CallId)
    | CallClose(call: CallId)
    | Resume(call: CallId)                   // a wait that was over gets to run
    | Abort(call: CallId)                    // a wait is cancelled
    | EndOpen(call: CallId, success: bool)   // `_open` ends
    | EndClose(call: CallId, success: bool)  // `_close` ends

  // ----- steps ------------------------------------------------------------

  predicate WaitsForConnected(p: Point) { p == JoinOpen || p == WaitThenClose }

  predicate WaitsForDisconnected(p: Point) { p == JoinClose || p == WaitThenOpen }

  predicate Waits(p: Point) { WaitsForConnected(p) || WaitsForDisconnected(p) }

  predicate Flag(c: Conn, p: Point) {
    (WaitsForConnected(p) && c.isConnected) || (WaitsForDisconnected(p) && c.isDisconnected)
  }

  /** Setting a flag makes everybody who waits for it runnable. */
  function Wake(c: Conn, calls: map<CallId, Call>): map<CallId, Call> {
    map t | t in calls :: Call(calls[t].at, calls[t].woken || Flag(c, calls[t].at))
  }

  predicate Enabled(s: System, a: Action) {
    match a
    case CallOpen(t) => t !in s.calls
    case CallClose(t) => t !in s.calls
    case Resume(t) => t in s.calls && Waits(s.calls[t].at) && s.calls[t].woken
    case Abort(t) => t in s.calls && Waits(s.calls[t].at)
    case EndOpen(t, _) => t in s.calls && s.calls[t].at == InOpen
    case EndClose(t, _) => t in s.calls && s.calls[t].at == InClose
  }

  /** The point that the call of an action reaches with it. */
  function Reaches(s: System, a: Action): Point
    requires Enabled(s, a)
  {
    match a
    case CallOpen(_) => EntryOfOpen(s.conn.state)
    case CallClose(_) => EntryOfClose(s.conn.state)
    case Resume(t) => AfterWait(s.calls[t].at)
    case _ => Returned
  }

  function NextConn(s: System, a: Action): Conn
    requires Enabled(s, a)
  {
    match a
    case EndOpen(_, success) => SetState(s.conn, AfterOpen(success))
    case EndClose(_, success) => SetState(s.conn, AfterClose(success))
    case _ => Announce(s.conn, Reaches(s, a))
  }

  function Apply(s: System, a: Action): System
    requires Enabled(s, a)
  {
    var p := Reaches(s, a);
    var c := NextConn(s, a);
    System(c, Wake(c, if p == Returned then s.calls - {a.call} else s.calls[a.call := Call(p, false)]))
  }

  /** The effect of a step, call by call. */
  lemma StepFrame(s: System, a: Action)
    requires Enabled(s, a)
    ensures var s', p := Apply(s, a), Reaches(s, a);
      && (a.call in s'.calls <==> p != Returned)
      && (forall t :: t != a.call ==> (t in s'.calls <==> t in s.calls))
      && (forall t :: t in s'.calls ==> s'.calls[t].at == if t == a.call then p else s.calls[t].at)
      && (forall t :: t in s'.calls ==>
           s'.calls[t].woken == ((t != a.call && s.calls[t].woken) || Flag(s'.conn, s'.calls[t].at)))
  {
  }

  function NextState(s: System, a: Action): ConnectionState
    requires Enabled(s, a)
  {
    match a
    case EndOpen(_, success) => AfterOpen(success)
    case EndClose(_, success) => AfterClose(success)
    case _ =>
      var p := Reaches(s, a);
      if p == InOpen then Connecting else if p == InClose then Disconnecting else s.conn.state
  }

  lemma StepState(s: System, a: Action)
    requires Enabled(s, a)
    ensures Apply(s, a).conn.state == NextState(s, a)
    ensures Apply(s, a).conn == SetState(s.conn, NextState(s, a))
  {
  }

  // ----- runs -------------------------------------------------------------

  predicate IsRun(s: System, run: seq<Action>)
    decreases |run|
  {
    run != [] ==> Enabled(s, run[0]) && IsRun(Apply(s, run[0]), run[1..])
  }

  function After(s: System, run: seq<Action>): System
    requires IsRun(s, run)
    decreases |run|
  {
    if run == [] then s else After(Apply(s, run[0]), run[1..])
  }

  /** Closers from base.py:291 or 293 on, and openers from base.py:316 or 318 on. */
  predicate ActiveClose(c: Call) { c.at == WaitThenClose || c.at == InClose }

  predicate ActiveOpen(c: Call) { c.at == WaitThenOpen || c.at == InOpen }

  /** At most one active open and at most one active close. */
  predicate OneOfEach(s: System) {
    forall t, u :: t in s.calls && u in s.calls &&
      ((ActiveOpen(s.calls[t]) && ActiveOpen(s.calls[u])) || (ActiveClose(s.calls[t]) && ActiveClose(s.calls[u])))
      ==> t == u
  }

  predicate AlwaysOneOfEach(s: System, run: seq<Action>)
    requires IsRun(s, run)
    decreases |run|
  {
    OneOfEach(s) && (run != [] ==> AlwaysOneOfEach(Apply(s, run[0]), run[1..]))
  }

  // ----- what holds of every run ------------------------------------------

  predicate SomeCallIn(s: System, p: Point) {
    exists t :: t in s.calls && s.calls[t].at == p
  }

  /** Flags and signals are in order, and a transition always has somebody at work on it. */
  predicate Consistent(s: System) {
    && FlagsAgree(s.conn)
    && IsTrace(s.conn.signals, s.conn.state)
    && (forall t :: t in s.calls && !s.calls[t].woken ==> !Flag(s.conn, s.calls[t].at))
    && (forall t :: t in s.calls ==> s.calls[t].at != Returned)
    && (s.conn.state == Connecting ==> SomeCallIn(s, InOpen))
    && (s.conn.state == Disconnecting ==> SomeCallIn(s, InClose))
  }

  lemma ConsistentStep(s: System, a: Action)
    requires Consistent(s) && Enabled(s, a)
    ensures Consistent(Apply(s, a))
    ensures s.conn.signals <= Apply(s, a).conn.signals
  {
    StepFrame(s, a);
    StepState(s, a);
    TraceStep(s.conn, NextState(s, a));
    hide IsTrace, SetState, Apply;
    var s', p := Apply(s, a), Reaches(s, a);
    if s'.conn.state == Connecting {
      var t := if p == InOpen then a.call else var t :| t in s.calls && s.calls[t].at == InOpen; t;
      assert t in s'.calls && s'.calls[t].at == InOpen;
    }
    if s'.conn.state == Disconnecting {
      var t := if p == InClose then a.call else var t :| t in s.calls && s.calls[t].at == InClose; t;
      assert t in s'.calls && s'.calls[t].at == InClose;
    }
  }

  lemma {:induction false} ConsistentRun(s: System, run: seq<Action>)
    requires Consistent(s) && IsRun(s, run)
    ensures Consistent(After(s, run)) && s.conn.signals <= After(s, run).conn.signals
    decreases |run|
  {
    if run != [] {
      ConsistentStep(s, run[0]);
      ConsistentRun(Apply(s, run[0]), run[1..]);
    }
  }

  /** No orphaned transition, whatever the calls do: CONNECTING means that somebody is
      inside `_open`, DISCONNECTING that somebody is inside `_close`, and a connection
      without calls in flight is up or down. */
  lemma NoOrphanedTransition(run: seq<Action>)
    requires IsRun(NEW_SYSTEM, run)
    ensures var s := After(NEW_SYSTEM, run);
      && (s.conn.state == Connecting ==> SomeCallIn(s, InOpen))
      && (s.conn.state == Disconnecting ==> SomeCallIn(s, InClose))
      && (s.calls == map[] ==> s.conn.state == Connected || s.conn.state == Disconnected)
  {
    ConsistentRun(NEW_SYSTEM, run);
  }

  /** On every run the signals tell the state's history and the flags its present. */
  lemma SignalsTellTheState(run: seq<Action>)
    requires IsRun(NEW_SYSTEM, run)
    ensures var c := After(NEW_SYSTEM, run).conn; IsTrace(c.signals, c.state) && FlagsAgree(c)
  {
    ConsistentRun(NEW_SYSTEM, run);
  }

  // ----- mutual exclusion -------------------------------------------------

  predicate Inside(c: Call) { c.at == InOpen || c.at == InClose }

  /** At most one body is executing. */
  predicate Exclusive(s: System) {
    forall t, u :: t in s.calls && u in s.calls && Inside(s.calls[t]) && Inside(s.calls[u]) ==> t == u
  }

  predicate IsEdge(before: ConnectionState, after: ConnectionState) {
    match before
    case Disconnected => after == Connecting
    case Connecting => after == Connected || after == Disconnected
    case Connected => after == Disconnecting
    case Disconnecting => after == Disconnected || after == Connected
  }

  /** `_open` starts from DISCONNECTED only, `_close` from CONNECTED only, and the state
      moves along the edges of the diagram. */
  predicate StepInOrder(s: System, a: Action)
    requires Enabled(s, a)
  {
    && (Reaches(s, a) == InOpen ==> s.conn.state == Disconnected)
    && (Reaches(s, a) == InClose ==> s.conn.state == Connected)
    && (Apply(s, a).conn.state != s.conn.state ==> IsEdge(s.conn.state, Apply(s, a).conn.state))
  }

  predicate RunInOrder(s: System, run: seq<Action>)
    requires IsRun(s, run)
    decreases |run|
  {
    && Exclusive(s)
    && (run != [] ==> StepInOrder(s, run[0]) && RunInOrder(Apply(s, run[0]), run[1..]))
  }

  /** The check that `open` and `close` do not repeat: a wait that was over finds the
      state it was waiting for when the call gets to run. */
  predicate ResumesInPlace(s: System, a: Action) {
    a.Resume? && a.call in s.calls ==>
      && (s.calls[a.call].at == WaitThenOpen ==> s.conn.state == Disconnected)
      && (s.calls[a.call].at == WaitThenClose ==> s.conn.state == Connected)
  }

  predicate AlwaysResumesInPlace(s: System, run: seq<Action>)
    requires IsRun(s, run)
    decreases |run|
  {
    run != [] ==> ResumesInPlace(s, run[0]) && AlwaysResumesInPlace(Apply(s, run[0]), run[1..])
  }

  /** Bodies run in the states that announce them, one at a time. */
  predicate Orderly(s: System) {
    && Exclusive(s)
    && (forall t :: t in s.calls && s.calls[t].at == InOpen ==> s.conn.state == Connecting)
    && (forall t :: t in s.calls && s.calls[t].at == InClose ==> s.conn.state == Disconnecting)
  }

  lemma OrderlyStep(s: System, a: Action)
    requires Orderly(s) && Enabled(s, a) && ResumesInPlace(s, a)
    ensures Orderly(Apply(s, a)) && StepInOrder(s, a)
  {
    StepFrame(s, a);
    StepState(s, a);
    hide SetState, Apply;
  }

  /** The exact condition for order: `_open` and `_close` never overlap, start in the
      right state and move the state along the diagram on precisely those runs on which
      no waiter resumes after the state has moved on. */
  lemma {:induction false} OrderIffResumesInPlace(s: System, run: seq<Action>)
    requires Orderly(s) && IsRun(s, run)
    ensures RunInOrder(s, run) <==> AlwaysResumesInPlace(s, run)
    decreases |run|
  {
    if run != [] && ResumesInPlace(s, run[0]) {
      OrderlyStep(s, run[0]);
      OrderIffResumesInPlace(Apply(s, run[0]), run[1..]);
    }
  }

  lemma OrderExactly(run: seq<Action>)
    requires IsRun(NEW_SYSTEM, run)
    ensures RunInOrder(NEW_SYSTEM, run) <==> AlwaysResumesInPlace(NEW_SYSTEM, run)
  {
    OrderIffResumesInPlace(NEW_SYSTEM, run);
  }

  /** A woken closer is in a connection that is still up, a woken opener in one that is
      still down. */
  predicate WokenInPlace(s: System) {
    && (forall t :: t in s.calls && s.calls[t] == Call(WaitThenClose, true) ==> s.conn.state == Connected)
    && (forall t :: t in s.calls && s.calls[t] == Call(WaitThenOpen, true) ==> s.conn.state == Disconnected)
  }

  /** What one active open and one active close at a time keep true. */
  predicate Safe(s: System) {
    Consistent(s) && Orderly(s) && WokenInPlace(s)
  }

  lemma WokenCall(s: System, a: Action, t: CallId)
    requires Safe(s) && Enabled(s, a) && OneOfEach(s) && OneOfEach(Apply(s, a))
    requires FlagsAgree(Apply(s, a).conn)
    requires t in Apply(s, a).calls
    ensures Apply(s, a).calls[t] == Call(WaitThenClose, true) ==> Apply(s, a).conn.state == Connected
    ensures Apply(s, a).calls[t] == Call(WaitThenOpen, true) ==> Apply(s, a).conn.state == Disconnected
  {
    StepFrame(s, a);
    StepState(s, a);
    hide IsTrace, SetState, Apply, Consistent, Exclusive;
    var s' := Apply(s, a);
    if t != a.call && Reaches(s, a) != Returned {
      assert s'.calls[a.call].at == Reaches(s, a);
    }
  }

  lemma WokenStep(s: System, a: Action)
    requires Safe(s) && Enabled(s, a) && OneOfEach(s) && OneOfEach(Apply(s, a))
    requires FlagsAgree(Apply(s, a).conn)
    ensures WokenInPlace(Apply(s, a))
  {
    hide Safe, OneOfEach, FlagsAgree, Apply;
    forall t | t in Apply(s, a).calls
      ensures Apply(s, a).calls[t] == Call(WaitThenClose, true) ==> Apply(s, a).conn.state == Connected
      ensures Apply(s, a).calls[t] == Call(WaitThenOpen, true) ==> Apply(s, a).conn.state == Disconnected
    {
      WokenCall(s, a, t);
    }
  }

  lemma SafeStep(s: System, a: Action)
    requires Safe(s) && Enabled(s, a) && OneOfEach(s) && OneOfEach(Apply(s, a))
    ensures Safe(Apply(s, a)) && StepInOrder(s, a) && ResumesInPlace(s, a)
  {
    hide IsTrace;
    ConsistentStep(s, a);
    OrderlyStep(s, a);
    WokenStep(s, a);
  }

  /** The connection is up: opened successfully and not yet closed successfully. */
  predicate IsUp(s: System) {
    s.conn.state == Connected || s.conn.state == Disconnecting
  }

  /** Only the successful end of a body moves a connection between up and down. */
  lemma UpStep(s: System, a: Action)
    requires Safe(s) && Enabled(s, a) && StepInOrder(s, a)
    ensures IsUp(Apply(s, a)) ==
      match a
      case EndOpen(_, success) => success
      case EndClose(_, success) => !success
      case _ => IsUp(s)
    ensures a.EndOpen? ==> s.conn.state == Connecting
    ensures a.EndClose? ==> s.conn.state == Disconnecting
  {
    StepState(s, a);
    hide IsTrace, SetState, Apply;
  }

  lemma BodyStates(s: System)
    requires Safe(s)
    ensures forall t :: t in s.calls && s.calls[t].at == InOpen ==> s.conn.state == Connecting
    ensures forall t :: t in s.calls && s.calls[t].at == InClose ==> s.conn.state == Disconnecting
    ensures forall t, u :: t in s.calls && u in s.calls && Inside(s.calls[t]) && Inside(s.calls[u]) ==> t == u
  {
    hide IsTrace;
  }

  lemma {:induction false} SafeRun(s: System, run: seq<Action>)
    requires Safe(s) && IsRun(s, run) && AlwaysOneOfEach(s, run)
    ensures RunInOrder(s, run) && AlwaysResumesInPlace(s, run) && Safe(After(s, run))
    decreases |run|
  {
    if run != [] {
      SafeStep(s, run[0]);
      SafeRun(Apply(s, run[0]), run[1..]);
    }
  }

  /** Lifecycle safety: with at most one active open and one active close at any time,
      and any number of joining and returning calls, failures and cancellations, the
      bodies never overlap, start in the right state, and the state follows the diagram. */
  lemma LifecycleSafety(run: seq<Action>)
    requires IsRun(NEW_SYSTEM, run) && AlwaysOneOfEach(NEW_SYSTEM, run)
    ensures RunInOrder(NEW_SYSTEM, run)
    ensures var s := After(NEW_SYSTEM, run); forall t :: t in s.calls ==>
      && (s.calls[t].at == InOpen ==> s.conn.state == Connecting)
      && (s.calls[t].at == InClose ==> s.conn.state == Disconnecting)
  {
    SafeRun(NEW_SYSTEM, run);
  }

  lemma {:induction false} RunAppend(s: System, run: seq<Action>, a: Action)
    requires IsRun(s, run) && Enabled(After(s, run), a)
    ensures IsRun(s, run + [a]) && After(s, run + [a]) == Apply(After(s, run), a)
    ensures RunInOrder(s, run + [a]) ==> RunInOrder(s, run) && StepInOrder(After(s, run), a)
    decreases |run|
  {
    var all := run + [a];
    if run == [] {
      assert all[1..] == [] && all[0] == a;
    } else {
      assert all[1..] == run[1..] + [a] && all[0] == run[0];
      RunAppend(Apply(s, run[0]), run[1..], a);
    }
  }

  lemma TwoClosersWait() returns (run: seq<Action>)
    ensures IsRun(NEW_SYSTEM, run)
    ensures var s := After(NEW_SYSTEM, run);
      && {1, 2} <= s.calls.Keys
      && s.calls[1] == s.calls[2] == Call(WaitThenClose, true)
  {
    hide SetState, Apply, RunInOrder, After, IsRun;
    var s0 := NEW_SYSTEM;
    run := ShortRun(s0);
    run := Extend(s0, run, s0, CallOpen(0));
    var s1 := Apply(s0, CallOpen(0));
    run := Extend(s0, run, s1, CallClose(1));
    var s2 := Apply(s1, CallClose(1));
    run := Extend(s0, run, s2, CallClose(2));
    var s3 := Apply(s2, CallClose(2));
    run := Extend(s0, run, s3, EndOpen(0, true));
    ConnectedFlag(s3.conn);
  }

  /** Without the hypothesis order is lost: two closers that wait for the same opening
      both proceed, the second one while the first is inside `_close`. */
  lemma TwoClosersOverlap() returns (run: seq<Action>)
    ensures IsRun(NEW_SYSTEM, run) && !RunInOrder(NEW_SYSTEM, run)
    ensures !Exclusive(After(NEW_SYSTEM, run))
  {
    hide SetState, Apply, RunInOrder, After, IsRun;
    run := TwoClosersWait();
    var s := After(NEW_SYSTEM, run);
    run := Extend(NEW_SYSTEM, run, s, Resume(1));
    var s' := Apply(s, Resume(1));
    run := Extend(NEW_SYSTEM, run, s', Resume(2));
    assert Apply(s', Resume(2)).calls[1].at == Apply(s', Resume(2)).calls[2].at == InClose;
  }

  lemma ConnectedFlag(c: Conn)
    requires c.state != Connected
    ensures SetState(c, Connected).isConnected
  {
  }

  lemma ShortRun(s: System) returns (run: seq<Action>)
    ensures IsRun(s, run) && After(s, run) == s
  {
    run := [];
  }

  lemma Extend(s: System, run: seq<Action>, at: System, a: Action) returns (longer: seq<Action>)
    requires IsRun(s, run) && After(s, run) == at && Enabled(at, a)
    ensures IsRun(s, longer) && After(s, longer) == Apply(at, a)
    ensures !StepInOrder(at, a) ==> !RunInOrder(s, longer)
    ensures var s', p := Apply(at, a), Reaches(at, a);
      && s'.conn == SetState(at.conn, NextState(at, a)) && s'.conn.state == NextState(at, a)
      && (p != Returned ==> a.call in s'.calls && s'.calls[a.call].at == p)
      && (forall t :: t !in at.calls && t != a.call ==> t !in s'.calls)
      && (forall t :: t in at.calls && t != a.call ==>
           && t in s'.calls && s'.calls[t].at == at.calls[t].at
           && s'.calls[t].woken == (at.calls[t].woken || Flag(s'.conn, at.calls[t].at)))
  {
    StepFrame(at, a);
    StepState(at, a);
    longer := run + [a];
    RunAppend(s, run, a);
  }
}
