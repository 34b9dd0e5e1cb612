/** When a call of `open` or `close` may return: over all runs of the lifecycle, with any
    number of calls, failures and cancellations, and without a hypothesis. */
module Returns {
  import opened Connection
  import opened Lifecycle

  datatype Kind = Opening | Closing

  /** What a call was for, the state that it found, and the number of signals sent by then. */
  datatype Begun = Begun(kind: Kind, state: ConnectionState, from: nat)

  /** A call that returned without an exception: whether it had run a body itself, and the
      number of signals sent by then. */
  datatype Return = Return(begun: Begun, own: bool, until: nat)

  /** A connection, and the record of the calls in flight and of those that returned. */
  datatype State = State(sys: System, begun: map<CallId, Begun>, over: seq<Return>)

  const NEW_STATE := State(NEW_SYSTEM, map[], [])

  /** The call is over with this step, neither by a cancelled wait nor by a failed body. */
  predicate ReturnsBy(s: System, a: Action)
    requires Enabled(s, a)
  {
    && a.call !in Apply(s, a).calls
    && !a.Abort?
    && (a.EndOpen? || a.EndClose? ==> a.success)
  }

  function BegunBy(s: State, a: Action): Begun {
    match a
    case CallOpen(_) => Begun(Opening, s.sys.conn.state, |s.sys.conn.signals|)
    case CallClose(_) => Begun(Closing, s.sys.conn.state, |s.sys.conn.signals|)
    case _ => if a.call in s.begun then s.begun[a.call] else Begun(Opening, Disconnected, 0)
  }

  function Next(s: State, a: Action): State
    requires Enabled(s.sys, a)
  {
    var sys, b := Apply(s.sys, a), BegunBy(s, a);
    State(
      sys,
      if a.call in sys.calls then s.begun[a.call := b] else s.begun - {a.call},
      s.over + if ReturnsBy(s.sys, a) then [Return(b, a.EndOpen? || a.EndClose?, |sys.conn.signals|)] else [])
  }

  /** The run with its record. */
  function Recorded(s: State, run: seq<Action>): State
    requires IsRun(s.sys, run)
    decreases |run|
  {
    if run == [] then s else Recorded(Next(s, run[0]), run[1..])
  }

  // ----- what a return means ----------------------------------------------

  /** The state that a call is for, and the one on the way to it. */
  function Goal(kind: Kind): ConnectionState {
    if kind.Opening? then Connected else Disconnected
  }

  function Way(kind: Kind): ConnectionState {
    if kind.Opening? then Connecting else Disconnecting
  }

  /** The goal was entered after the first `from` signals and within the first `to`. */
  predicate Entered(signals: seq<Signal>, kind: Kind, from: nat, until: nat) {
    exists i :: from <= i < until <= |signals| &&
      signals[i] == if kind.Opening? then ConnectedSignal else DisconnectedSignal
  }

  /** A call returns at once if it finds its goal, and otherwise only after the goal was
      entered since it began: by its own body, unless somebody was on the way already. */
  predicate IsEarned(signals: seq<Signal>, r: Return) {
    && r.begun.from <= r.until <= |signals|
    && if r.begun.state == Goal(r.begun.kind) then !r.own && r.until == r.begun.from
       else
         && Entered(signals, r.begun.kind, r.begun.from, r.until)
         && (r.own <==> r.begun.state != Way(r.begun.kind))
  }

  /** Where a call can be, by the state that it found. */
  predicate InPlace(p: Point, b: Begun) {
    match p
    case JoinOpen => b.kind.Opening? && b.state == Connecting
    case WaitThenOpen => b.kind.Opening? && b.state == Disconnecting
    case InOpen => b.kind.Opening? && (b.state == Disconnecting || b.state == Disconnected)
    case JoinClose => b.kind.Closing? && b.state == Disconnecting
    case WaitThenClose => b.kind.Closing? && b.state == Connecting
    case InClose => b.kind.Closing? && (b.state == Connecting || b.state == Connected)
    case Returned => false
  }

  /** A joining call that may resume, and a body whose goal was reached by another one,
      have seen their goal entered. */
  predicate CallFits(conn: Conn, c: Call, b: Begun) {
    && InPlace(c.at, b)
    && b.from <= |conn.signals|
    && ((c.at == JoinOpen || c.at == JoinClose) && c.woken ==> Entered(conn.signals, b.kind, b.from, |conn.signals|))
    && (Inside(c) && conn.state == Goal(b.kind) ==> Entered(conn.signals, b.kind, b.from, |conn.signals|))
  }

  predicate Fits(s: State) {
    && Consistent(s.sys)
    && s.begun.Keys == s.sys.calls.Keys
    && (forall t :: t in s.sys.calls ==> CallFits(s.sys.conn, s.sys.calls[t], s.begun[t]))
    && (forall i :: 0 <= i < |s.over| ==> IsEarned(s.sys.conn.signals, s.over[i]))
  }

  // ----- steps ------------------------------------------------------------

  lemma EnteredLonger(a: seq<Signal>, b: seq<Signal>, kind: Kind, from: nat, until: nat, later: nat)
    requires a <= b && until <= later <= |b| && Entered(a, kind, from, until)
    ensures Entered(b, kind, from, later)
  {
    var i :| from <= i < until && a[i] == if kind.Opening? then ConnectedSignal else DisconnectedSignal;
    assert b[i] == a[i];
  }

  /** A state change to the goal signals it. */
  lemma EnteredNow(c: Conn, newState: ConnectionState, kind: Kind, from: nat)
    requires FlagsAgree(c) && c.state != Goal(kind) && newState == Goal(kind) && from <= |c.signals|
    ensures var signals := SetState(c, newState).signals; Entered(signals, kind, from, |signals|)
  {
    var signals := SetState(c, newState).signals;
    assert signals[|signals| - 1] == if kind.Opening? then ConnectedSignal else DisconnectedSignal;
  }

  /** What was entered stays so, and the goal, if it is reached by this step, is entered. */
  lemma GoalStep(s: System, a: Action, kind: Kind, from: nat)
    requires Consistent(s) && Enabled(s, a) && from <= |s.conn.signals|
    ensures var signals := Apply(s, a).conn.signals;
      && s.conn.signals <= signals
      && (Entered(s.conn.signals, kind, from, |s.conn.signals|) ==> Entered(signals, kind, from, |signals|))
      && (s.conn.state != Goal(kind) && Apply(s, a).conn.state == Goal(kind) ==>
           Entered(signals, kind, from, |signals|))
  {
    ConsistentStep(s, a);
    StepState(s, a);
    hide IsTrace, SetState, Apply, Entered, SomeCallIn;
    if Entered(s.conn.signals, kind, from, |s.conn.signals|) {
      EnteredLonger(s.conn.signals, Apply(s, a).conn.signals, kind, from, |s.conn.signals|, |Apply(s, a).conn.signals|);
    }
    if s.conn.state != Goal(kind) && NextState(s, a) == Goal(kind) {
      EnteredNow(s.conn, NextState(s, a), kind, from);
    }
  }

  /** A call that goes on. */
  lemma OtherCallFits(s: State, a: Action, t: CallId)
    requires Fits(s) && Enabled(s.sys, a) && t != a.call && t in s.sys.calls
    requires t in Apply(s.sys, a).calls && FlagsAgree(Apply(s.sys, a).conn)
    ensures CallFits(Apply(s.sys, a).conn, Apply(s.sys, a).calls[t], s.begun[t])
  {
    var b := s.begun[t];
    assert CallFits(s.sys.conn, s.sys.calls[t], b);
    assert !s.sys.calls[t].woken ==> !Flag(s.sys.conn, s.sys.calls[t].at);
    assert FlagsAgree(s.sys.conn);
    StepFrame(s.sys, a);
    GoalStep(s.sys, a, b.kind, b.from);
    hide Apply, Enabled, Entered, Consistent, Fits;
  }

  /** The call that takes the step, if it does not return by it. */
  lemma OwnCallFits(s: State, a: Action)
    requires Fits(s) && Enabled(s.sys, a) && a.call in Apply(s.sys, a).calls
    ensures CallFits(Apply(s.sys, a).conn, Apply(s.sys, a).calls[a.call], BegunBy(s, a))
    ensures FlagsAgree(Apply(s.sys, a).conn)
  {
    assert a.call in s.sys.calls ==> CallFits(s.sys.conn, s.sys.calls[a.call], s.begun[a.call]);
    ConsistentStep(s.sys, a);
    StepFrame(s.sys, a);
    StepState(s.sys, a);
    hide Apply, Entered, Fits, SetState, IsTrace, SomeCallIn;
  }

  lemma ReturnFits(s: State, a: Action)
    requires Fits(s) && Enabled(s.sys, a) && ReturnsBy(s.sys, a)
    ensures var signals := Apply(s.sys, a).conn.signals;
      IsEarned(signals, Return(BegunBy(s, a), a.EndOpen? || a.EndClose?, |signals|))
  {
    var b := BegunBy(s, a);
    assert a.call in s.sys.calls ==> CallFits(s.sys.conn, s.sys.calls[a.call], s.begun[a.call]);
    StepFrame(s.sys, a);
    StepState(s.sys, a);
    if a.CallOpen? || a.CallClose? {
      assert NextState(s.sys, a) == s.sys.conn.state;
      assert Apply(s.sys, a).conn == s.sys.conn;
    } else {
      GoalStep(s.sys, a, b.kind, b.from);
    }
    hide Apply, Entered, Fits, SetState, Consistent;
  }

  lemma EarnedKept(s: State, signals: seq<Signal>)
    requires Fits(s) && s.sys.conn.signals <= signals
    ensures forall i :: 0 <= i < |s.over| ==> IsEarned(signals, s.over[i])
  {
    forall i | 0 <= i < |s.over|
      ensures IsEarned(signals, s.over[i])
    {
      var r := s.over[i];
      assert IsEarned(s.sys.conn.signals, r);
      if r.begun.state != Goal(r.begun.kind) {
        EnteredLonger(s.sys.conn.signals, signals, r.begun.kind, r.begun.from, r.until, r.until);
      }
    }
  }

  lemma FitsStep(s: State, a: Action)
    requires Fits(s) && Enabled(s.sys, a)
    ensures Fits(Next(s, a))
  {
    var s' := Next(s, a);
    ConsistentStep(s.sys, a);
    StepFrame(s.sys, a);
    EarnedKept(s, s'.sys.conn.signals);
    if ReturnsBy(s.sys, a) { ReturnFits(s, a); }
    hide Apply, Enabled, CallFits, IsEarned, ReturnsBy, BegunBy, IsTrace, SomeCallIn;
    forall t | t in s'.sys.calls
      ensures t in s'.begun && CallFits(s'.sys.conn, s'.sys.calls[t], s'.begun[t])
    {
      if t == a.call { OwnCallFits(s, a); } else { OtherCallFits(s, a, t); }
    }
  }

  lemma {:induction false} FitsRun(s: State, run: seq<Action>)
    requires Fits(s) && IsRun(s.sys, run)
    ensures Fits(Recorded(s, run)) && Recorded(s, run).sys == After(s.sys, run)
    decreases |run|
  {
    if run != [] {
      assert Next(s, run[0]).sys == Apply(s.sys, run[0]);
      FitsStep(s, run[0]);
      hide Fits, Apply, Next;
      FitsRun(Next(s, run[0]), run[1..]);
    }
  }

  // ----- main results -----------------------------------------------------

  /** On every run, a call of `open` that returned had found the connection CONNECTED or
      saw it enter CONNECTED since it began; the same with `close` and DISCONNECTED. Who
      ran the body is told by the state that the call found. */
  lemma ReturnsAreEarned(run: seq<Action>)
    requires IsRun(NEW_SYSTEM, run)
    ensures var s := Recorded(NEW_STATE, run);
      && s.sys == After(NEW_SYSTEM, run)
      && forall i :: 0 <= i < |s.over| ==> IsEarned(s.sys.conn.signals, s.over[i])
  {
    FitsRun(NEW_STATE, run);
  }

  /** A call is over as soon as it begins if and only if it finds its goal. */
  lemma AtOnceExactly(s: System, t: CallId)
    requires t !in s.calls
    ensures t !in Apply(s, CallOpen(t)).calls <==> s.conn.state == Connected
    ensures t !in Apply(s, CallClose(t)).calls <==> s.conn.state == Disconnected
  {
    StepFrame(s, CallOpen(t));
    StepFrame(s, CallClose(t));
    hide Apply;
  }

  /** On every run a call that found a transition under way may go on as soon as that
      transition has succeeded. */
  lemma WaitersMayResume(run: seq<Action>)
    requires IsRun(NEW_SYSTEM, run)
    ensures var s := Recorded(NEW_STATE, run);
      forall t :: t in s.sys.calls && !Inside(s.sys.calls[t]) ==>
        && t in s.begun
        && (s.begun[t].state == Connecting || s.begun[t].state == Disconnecting)
        && (s.sys.conn.state == (if s.begun[t].state == Connecting then Connected else Disconnected) ==>
             Enabled(s.sys, Resume(t)))
  {
    FitsRun(NEW_STATE, run);
    var s := Recorded(NEW_STATE, run);
    hide Entered, IsRun, Recorded, IsTrace, SomeCallIn, IsEarned;
    forall t | t in s.sys.calls && !Inside(s.sys.calls[t])
      ensures t in s.begun && (s.begun[t].state == Connecting || s.begun[t].state == Disconnecting)
      ensures s.sys.conn.state == (if s.begun[t].state == Connecting then Connected else Disconnected) ==>
        Enabled(s.sys, Resume(t))
    {
      assert CallFits(s.sys.conn, s.sys.calls[t], s.begun[t]);
    }
  }
}
