/** Connections that live in a task of their own, on top of the lifecycle. The question
    is whether a connection that is DISCONNECTED can still have its task running. */
module TaskConnection {
  import opened Common
  import opened Connection
  import opened Lifecycle

  /** One number names an opening, its task, its cancel scope and its closing event. */
  type RunId = nat

  /** The fields of the connection and the closing events that are set. */
  datatype Fields = Fields(
    hasNursery: bool,
    cancelScope: Option<RunId>,
    closedEvent: Option<RunId>,
    setEvents: set<RunId>)

  const NEW_FIELDS := Fields(false, None, None, {})

  /** What a call of `_open` or `_close` remembers while it waits. */
  datatype Local =
    | Spawned(run: RunId)                     // waits for the task to report that it started
    | NotSpawned                              // no nursery, or the nursery refused the task
    | AwaitsEvent(event: Option<RunId>)       // has cancelled the scope
    | FoundNoScope                            // returns at once

  // ----- pieces of the methods --------------------------------------------

  /** `assign_nursery`, which fails unless the connection is closed. */
  function AssignNursery(f: Fields): Fields {
    f.(hasNursery := true, cancelScope := None, closedEvent := None)
  }

  /** `_open` up to its wait. */
  function BeginBody(f: Fields, run: RunId): Fields {
    if f.hasNursery then f.(closedEvent := Some(run)) else f
  }

  /** `_open` after its wait. */
  function KeepScope(f: Fields, run: RunId): Fields {
    f.(cancelScope := Some(run))
  }

  /** `_close` up to its wait. */
  function CancelRun(f: Fields): (Fields, Local) {
    if f.cancelScope.Some? then (f.(cancelScope := None), AwaitsEvent(f.closedEvent))
    else (f, FoundNoScope)
  }

  /** The `finally` block around `_run`. */
  function SetClosed(f: Fields): Fields {
    if f.closedEvent.Some? then f.(setEvents := f.setEvents + {f.closedEvent.value}) else f
  }

  class TaskConnectionBase {
    var hasNursery: bool
    var cancelScope: Option<RunId>
    var closedEvent: Option<RunId>
    var setEvents: set<RunId>

    ghost function Model(): Fields reads this {
      Fields(hasNursery, cancelScope, closedEvent, setEvents)
    }

    constructor ()
      ensures Model() == NEW_FIELDS
    {
      hasNursery, cancelScope, closedEvent, setEvents := false, None, None, {};
    }

    method Assign(state: ConnectionState) returns (success: bool)
      modifies this
      ensures success == (state == Disconnected)
      ensures Model() == if success then AssignNursery(old(Model())) else old(Model())
      ensures success ==> hasNursery && cancelScope.None? && closedEvent.None? && setEvents == old(setEvents)
    {
      if state != Disconnected {
        return false;
      }
      hasNursery := true;
      cancelScope := None;
      closedEvent := None;
      success := true;
    }

    method StartOpening(run: RunId) returns (success: bool)
      modifies this
      ensures success == old(hasNursery) && Model() == BeginBody(old(Model()), run)
      ensures closedEvent == if success then Some(run) else old(closedEvent)
      ensures cancelScope == old(cancelScope) && setEvents == old(setEvents)
    {
      if !hasNursery {
        return false;
      }
      closedEvent := Some(run);
      success := true;
    }

    method FinishOpening(scope: RunId)
      modifies this
      ensures Model() == KeepScope(old(Model()), scope)
      ensures cancelScope == Some(scope) && closedEvent == old(closedEvent)
    {
      cancelScope := Some(scope);
    }

    method StartClosing() returns (waits: Local)
      modifies this
      ensures (Model(), waits) == CancelRun(old(Model()))
      ensures cancelScope.None? && closedEvent == old(closedEvent)
      ensures waits == if old(cancelScope).Some? then AwaitsEvent(closedEvent) else FoundNoScope
    {
      if cancelScope.Some? {
        cancelScope := None;
        waits := AwaitsEvent(closedEvent);
      } else {
        waits := FoundNoScope;
      }
    }

    method RunFinally()
      modifies this
      ensures Model() == SetClosed(old(Model()))
      ensures closedEvent.Some? ==> closedEvent.value in setEvents
    {
      if closedEvent.Some? {
        setEvents := setEvents + {closedEvent.value};
      }
    }
  }

  // ----- the protocol -----------------------------------------------------

  datatype Phase = Executing(started: bool) | Ended(started: bool)

  datatype State = State(
    sys: System,
    fields: Fields,
    runs: seq<Phase>,              // by RunId; every opening uses up one number
    locals: map<CallId, Local>)

  const NEW_STATE := State(NEW_SYSTEM, NEW_FIELDS, [], map[])

  datatype Event =
    | Other(action: Action, spawns: bool)  // anything but the end of a body; `_open` may fail to spawn
    | Assigned
    | Started(run: RunId)                  // the task reports that it started
    | RunEnds(run: RunId)                  // `_run` returns, raises or is cancelled
    | OpenReturns(call: CallId)
    | OpenRaises(call: CallId)             // the task ended before it reported, or there is none
    | CloseReturns(call: CallId)
    | CloseCancelled(call: CallId)         // while waiting for the closing event

  /** The step of the lifecycle that an event is, if any. The call of `close` at the end
      of the task is one of the calls that anybody may make at any time. */
  function Base(e: Event): Option<Action> {
    match e
    case Other(action, _) => Some(action)
    case OpenReturns(t) => Some(EndOpen(t, true))
    case OpenRaises(t) => Some(EndOpen(t, false))
    case CloseReturns(t) => Some(EndClose(t, true))
    case CloseCancelled(t) => Some(EndClose(t, false))
    case _ => None
  }

  predicate InBody(s: State, t: CallId, p: Point) {
    t in s.sys.calls && s.sys.calls[t].at == p && t in s.locals
  }

  predicate Possible(s: State, e: Event) {
    && (Base(e).Some? ==> Enabled(s.sys, Base(e).value))
    && match e
       case Other(action, _) => !action.EndOpen? && !action.EndClose?
       case Assigned => s.sys.conn.state == Disconnected
       case Started(n) => n < |s.runs| && s.runs[n] == Executing(false)
       case RunEnds(n) => n < |s.runs| && s.runs[n].Executing?
       case OpenReturns(t) =>
         && InBody(s, t, InOpen) && s.locals[t].Spawned?
         && s.locals[t].run < |s.runs| && s.runs[s.locals[t].run].started
       case OpenRaises(t) =>
         && InBody(s, t, InOpen)
         && (s.locals[t].Spawned? ==> s.locals[t].run < |s.runs| && s.runs[s.locals[t].run] == Ended(false))
       case CloseReturns(t) =>
         && InBody(s, t, InClose)
         && (s.locals[t].AwaitsEvent? && s.locals[t].event.Some? ==> s.locals[t].event.value in s.fields.setEvents)
       case CloseCancelled(t) => InBody(s, t, InClose) && s.locals[t].AwaitsEvent?
  }

  /** The first piece of a body, which runs in the same step as the call's way to it. */
  function EnterBody(s: State, t: CallId, p: Point, spawns: bool): State {
    match p
    case InOpen =>
      var spawned := s.fields.hasNursery && spawns;
      s.(fields := BeginBody(s.fields, |s.runs|),
         runs := s.runs + [if spawned then Executing(false) else Ended(false)],
         locals := s.locals[t := if spawned then Spawned(|s.runs|) else NotSpawned])
    case InClose =>
      var (fields, local) := CancelRun(s.fields);
      s.(fields := fields, locals := s.locals[t := local])
    case _ => s
  }

  function LocalEffect(s: State, e: Event): State
    requires Possible(s, e)
  {
    match e
    case Other(action, spawns) => EnterBody(s, action.call, Reaches(s.sys, action), spawns)
    case Assigned => s.(fields := AssignNursery(s.fields))
    case Started(n) => s.(runs := s.runs[n := Executing(true)])
    case RunEnds(n) => s.(runs := s.runs[n := Ended(s.runs[n].started)], fields := SetClosed(s.fields))
    case OpenReturns(t) => s.(fields := KeepScope(s.fields, s.locals[t].run))
    case _ => s
  }

  function Next(s: State, e: Event): State
    requires Possible(s, e)
  {
    LocalEffect(s, e).(sys := if Base(e).Some? then Apply(s.sys, Base(e).value) else s.sys)
  }

  predicate IsHistory(s: State, events: seq<Event>)
    decreases |events|
  {
    && OneOfEach(s.sys)
    && (events != [] ==> Possible(s, events[0]) && IsHistory(Next(s, events[0]), events[1..]))
  }

  function Finally(s: State, events: seq<Event>): State
    requires IsHistory(s, events)
    decreases |events|
  {
    if events == [] then s else Finally(Next(s, events[0]), events[1..])
  }

  // ----- no task without a connection -------------------------------------

  predicate NoRun(s: State) {
    forall n :: 0 <= n < |s.runs| ==> s.runs[n].Ended?
  }

  predicate IdleWhenDown(s: State) {
    s.sys.conn.state == Disconnected ==> NoRun(s)
  }

  predicate AlwaysIdleWhenDown(s: State, events: seq<Event>)
    requires IsHistory(s, events)
    decreases |events|
  {
    IdleWhenDown(s) && (events != [] ==> AlwaysIdleWhenDown(Next(s, events[0]), events[1..]))
  }

  /** A `_close` that found no scope to cancel, and so did not wait, returns while there
      is a closing event that is not set. */
  predicate ClosesBlindly(s: State, e: Event) {
    && e.CloseReturns? && e.call in s.locals && s.locals[e.call] == FoundNoScope
    && s.fields.closedEvent.Some? && s.fields.closedEvent.value !in s.fields.setEvents
  }

  predicate NeverClosesBlindly(s: State, events: seq<Event>)
    requires IsHistory(s, events)
    decreases |events|
  {
    events != [] ==> !ClosesBlindly(s, events[0]) && NeverClosesBlindly(Next(s, events[0]), events[1..])
  }

  /** Only the run of the current closing event can be executing, and then its event is
      not set. The current event is set once its run was started and ended, and while the
      connection is up it is that of a started run. While down nothing is executing. */
  predicate EventsFit(runs: seq<Phase>, f: Fields, state: ConnectionState) {
    && (forall n :: 0 <= n < |runs| && runs[n].Executing? ==> f.closedEvent == Some(n) && n !in f.setEvents)
    && (forall e :: e in f.setEvents ==> e < |runs|)
    && (f.closedEvent.Some? ==>
         var n := f.closedEvent.value;
         && n < |runs|
         && (runs[n] == Ended(true) ==> n in f.setEvents)
         && (state == Connected || state == Disconnecting ==> runs[n].started))
    && (state == Disconnected ==> forall n :: 0 <= n < |runs| ==> runs[n].Ended?)
  }

  /** Calls inside a body remember the current event. */
  predicate RunFits(s: State) {
    && EventsFit(s.runs, s.fields, s.sys.conn.state)
    && (forall t :: t in s.sys.calls && s.sys.calls[t].at == InOpen ==> OpenerFits(s, t))
    && (forall t :: t in s.sys.calls && s.sys.calls[t].at == InClose ==> CloserFits(s, t))
  }

  predicate OpenerFits(s: State, t: CallId) {
    && t in s.locals
    && (s.locals[t].Spawned? || s.locals[t].NotSpawned?)
    && (s.locals[t].Spawned? ==> s.fields.closedEvent == Some(s.locals[t].run))
    && (s.locals[t].NotSpawned? ==> NoRun(s))
  }

  predicate CloserFits(s: State, t: CallId) {
    && t in s.locals
    && (s.locals[t].AwaitsEvent? || s.locals[t].FoundNoScope?)
    && (s.locals[t].AwaitsEvent? ==> s.locals[t].event == s.fields.closedEvent)
  }

  /** Events within a body or on the nursery leave the lifecycle alone. */
  lemma InternalStep(s: State, e: Event)
    requires Safe(s.sys) && RunFits(s) && Possible(s, e) && Base(e).None?
    ensures RunFits(Next(s, e))
  {
    BodyStates(s.sys);
    hide Safe, Enabled, Apply;
  }

  lemma EndStep(s: State, e: Event)
    requires Safe(s.sys) && RunFits(s) && Possible(s, e) && Base(e).Some? && !e.Other?
    requires Safe(Next(s, e).sys)
    requires !ClosesBlindly(s, e)
    ensures RunFits(Next(s, e))
  {
    var a := Base(e).value;
    BodyStates(s.sys);
    BodyStates(Next(s, e).sys);
    StepFrame(s.sys, a);
    StepState(s.sys, a);
    hide Safe, Apply, Enabled, SetState;
  }

  /** The first piece of `_open` on the parts other than the lifecycle. */
  lemma EnterOpening(s: State, t: CallId, spawns: bool)
    requires EventsFit(s.runs, s.fields, Disconnected)
    ensures var s' := EnterBody(s, t, InOpen, spawns);
      OpenerFits(s', t) && EventsFit(s'.runs, s'.fields, Connecting)
  {
  }

  /** The first piece of `_close` on the parts other than the lifecycle. */
  lemma EnterClosing(s: State, t: CallId, spawns: bool)
    requires EventsFit(s.runs, s.fields, Connected)
    ensures var s' := EnterBody(s, t, InClose, spawns);
      CloserFits(s', t) && EventsFit(s'.runs, s'.fields, Disconnecting)
  {
  }

  /** A call that enters a body is the only one inside. */
  lemma EnterAlone(s: State, e: Event, p: Point)
    requires Safe(s.sys) && Possible(s, e) && e.Other? && Reaches(s.sys, e.action) == p
    requires p == InOpen || p == InClose
    requires Safe(Next(s, e).sys) && StepInOrder(s.sys, e.action)
    ensures s.sys.conn.state == if p == InOpen then Disconnected else Connected
    ensures Next(s, e) == EnterBody(s, e.action.call, p, e.spawns).(sys := Next(s, e).sys)
    ensures Next(s, e).sys.conn.state == if p == InOpen then Connecting else Disconnecting
    ensures forall t :: t in Next(s, e).sys.calls && Inside(Next(s, e).sys.calls[t]) ==>
      t == e.action.call && Next(s, e).sys.calls[t].at == p
  {
    BodyStates(Next(s, e).sys);
    StepFrame(s.sys, e.action);
    StepState(s.sys, e.action);
    hide Safe, Apply, Enabled, SetState;
  }

  lemma EnterBodyStep(s: State, e: Event, p: Point)
    requires Safe(s.sys) && RunFits(s) && Possible(s, e) && e.Other? && Reaches(s.sys, e.action) == p
    requires p == InOpen || p == InClose
    requires Safe(Next(s, e).sys) && StepInOrder(s.sys, e.action)
    ensures RunFits(Next(s, e))
  {
    EnterAlone(s, e, p);
    hide Safe, Apply, Enabled, Possible, StepInOrder, Next, EventsFit, EnterBody;
    if p == InOpen {
      EnterOpening(s, e.action.call, e.spawns);
    } else {
      EnterClosing(s, e.action.call, e.spawns);
    }
  }

  lemma EnterWaitStep(s: State, e: Event)
    requires Safe(s.sys) && RunFits(s) && Possible(s, e) && e.Other?
    requires Reaches(s.sys, e.action) != InClose && Reaches(s.sys, e.action) != InOpen
    ensures RunFits(Next(s, e))
  {
    var a := e.action;
    var s' := Next(s, e);
    StepFrame(s.sys, a);
    StepState(s.sys, a);
    assert s'.(sys := s.sys) == s;
    hide Safe, Apply, Enabled, SetState, EventsFit, Next;
    forall t | t in s'.sys.calls && Inside(s'.sys.calls[t])
      ensures t in s.sys.calls && s.sys.calls[t].at == s'.sys.calls[t].at
    {
    }
  }

  /** Returning blindly leaves the run of the closing event behind. */
  lemma BlindStep(s: State, e: Event)
    requires Safe(s.sys) && RunFits(s) && Possible(s, e) && ClosesBlindly(s, e)
    ensures !IdleWhenDown(Next(s, e))
  {
    BodyStates(s.sys);
    StepState(s.sys, Base(e).value);
    hide Safe, Apply, SetState;
    assert s.runs[s.fields.closedEvent.value] == Executing(true);
    assert Next(s, e).runs == s.runs;
  }

  lemma RunFitsStep(s: State, e: Event)
    requires Safe(s.sys) && RunFits(s) && Possible(s, e)
    requires OneOfEach(s.sys) && OneOfEach(Next(s, e).sys)
    ensures Safe(Next(s, e).sys)
    ensures !ClosesBlindly(s, e) ==> RunFits(Next(s, e))
    ensures ClosesBlindly(s, e) ==> !IdleWhenDown(Next(s, e))
  {
    if Base(e).Some? {
      SafeStep(s.sys, Base(e).value);
    }
    hide Safe, Apply, RunFits, OneOfEach, StepInOrder, Enabled, ClosesBlindly, IdleWhenDown;
    if ClosesBlindly(s, e) {
      BlindStep(s, e);
    } else if Base(e).None? {
      InternalStep(s, e);
    } else if e.Other? {
      if Reaches(s.sys, e.action) == InOpen || Reaches(s.sys, e.action) == InClose {
        EnterBodyStep(s, e, Reaches(s.sys, e.action));
      } else {
        EnterWaitStep(s, e);
      }
    } else {
      EndStep(s, e);
    }
  }

  lemma OneOfEachFirst(s: State, events: seq<Event>)
    requires IsHistory(s, events) && events != []
    ensures OneOfEach(s.sys) && OneOfEach(Next(s, events[0]).sys)
  {
  }

  lemma {:induction false} IdleIffNotBlind(s: State, events: seq<Event>)
    requires Safe(s.sys) && RunFits(s) && IsHistory(s, events)
    ensures AlwaysIdleWhenDown(s, events) <==> NeverClosesBlindly(s, events)
    decreases |events|
  {
    assert IdleWhenDown(s);
    if events != [] {
      hide Safe, RunFits, Next, OneOfEach, IdleWhenDown, ClosesBlindly;
      OneOfEachFirst(s, events);
      RunFitsStep(s, events[0]);
      if !ClosesBlindly(s, events[0]) {
        IdleIffNotBlind(Next(s, events[0]), events[1..]);
      }
    }
  }

  /** The exact condition, with one active open and one active close at a time: no `_run`
      ever executes while DISCONNECTED if and only if no `_close` that found no scope to
      cancel returns while the connection has a closing event that is not set. */
  lemma IdleExactly(events: seq<Event>)
    requires IsHistory(NEW_STATE, events)
    ensures AlwaysIdleWhenDown(NEW_STATE, events) <==> NeverClosesBlindly(NEW_STATE, events)
  {
    IdleIffNotBlind(NEW_STATE, events);
  }

  // ----- closers that are not cancelled -----------------------------------

  predicate Uncancelled(events: seq<Event>) {
    forall i :: 0 <= i < |events| ==> !events[i].CloseCancelled?
  }

  /** While up there is a scope to cancel, until the one closer has taken it. */
  predicate ScopeKept(s: State) {
    && (s.sys.conn.state == Connected ==> s.fields.cancelScope.Some?)
    && (forall t :: t in s.sys.calls && s.sys.calls[t].at == InClose && t in s.locals ==> s.locals[t] != FoundNoScope)
  }

  lemma ScopeStep(s: State, e: Event)
    requires Safe(s.sys) && ScopeKept(s) && Possible(s, e) && !e.CloseCancelled?
    requires Base(e).Some? ==> StepInOrder(s.sys, Base(e).value)
    ensures ScopeKept(Next(s, e))
    ensures !ClosesBlindly(s, e)
  {
    BodyStates(s.sys);
    if Base(e).Some? {
      StepFrame(s.sys, Base(e).value);
      StepState(s.sys, Base(e).value);
    }
    hide Safe, Apply, Enabled, SetState, NoRun;
  }

  lemma {:induction false} UncancelledNotBlind(s: State, events: seq<Event>)
    requires Safe(s.sys) && ScopeKept(s) && IsHistory(s, events) && Uncancelled(events)
    ensures NeverClosesBlindly(s, events)
    decreases |events|
  {
    if events != [] {
      OneOfEachFirst(s, events);
      var e := events[0];
      assert Uncancelled(events[1..]);
      assert !e.CloseCancelled?;
      if Base(e).Some? {
        SafeStep(s.sys, Base(e).value);
      }
      hide Safe, ScopeKept, OneOfEach, ClosesBlindly, StepInOrder, Apply, Enabled;
      ScopeStep(s, e);
      UncancelledNotBlind(Next(s, e), events[1..]);
    }
  }

  /** With closers that are not cancelled while they wait, no `_run` executes while the
      connection is DISCONNECTED, also when the task ends by itself, ends while still
      CONNECTING, or calls `close` while another closer waits for it. */
  lemma IdleWhenClosersFinish(events: seq<Event>)
    requires IsHistory(NEW_STATE, events) && Uncancelled(events)
    ensures AlwaysIdleWhenDown(NEW_STATE, events)
  {
    UncancelledNotBlind(NEW_STATE, events);
    IdleExactly(events);
  }

  // ----- a closer that is cancelled ---------------------------------------

  lemma {:induction false} HistoryAppend(s: State, events: seq<Event>, e: Event)
    requires IsHistory(s, events) && Possible(Finally(s, events), e)
    requires OneOfEach(Next(Finally(s, events), e).sys)
    ensures IsHistory(s, events + [e]) && Finally(s, events + [e]) == Next(Finally(s, events), e)
    ensures AlwaysIdleWhenDown(s, events + [e]) ==> IdleWhenDown(Next(Finally(s, events), e))
    decreases |events|
  {
    hide OneOfEach, Possible, Next, IdleWhenDown;
    var all := events + [e];
    if events == [] {
      assert all[1..] == [] && all[0] == e;
      assert IsHistory(Next(s, e), []);
      assert AlwaysIdleWhenDown(s, all) ==> AlwaysIdleWhenDown(Next(s, e), []);
    } else {
      assert all[1..] == events[1..] + [e] && all[0] == events[0];
      HistoryAppend(Next(s, events[0]), events[1..], e);
    }
  }

  /** A step of a single call: the state, the call and nothing else in flight. */
  predicate Alone(s: State, state: ConnectionState, t: CallId, p: Point) {
    && s.sys.conn.state == state
    && (p == Returned ==> s.sys.calls.Keys == {})
    && (p != Returned ==> s.sys.calls.Keys == {t} && s.sys.calls[t].at == p)
    && (p == InOpen || p == InClose ==> t in s.locals)
  }

  lemma Go(events: seq<Event>, s: State, e: Event, t: CallId, p: Point) returns (longer: seq<Event>, s': State)
    requires IsHistory(NEW_STATE, events) && Finally(NEW_STATE, events) == s && Possible(s, e)
    requires Alone(s, s.sys.conn.state, t, p)
    requires Base(e).Some? ==> Base(e).value.call == t
    ensures IsHistory(NEW_STATE, longer) && Finally(NEW_STATE, longer) == s' == Next(s, e)
    ensures AlwaysIdleWhenDown(NEW_STATE, longer) ==> IdleWhenDown(s')
    ensures Base(e).None? ==> Alone(s', s.sys.conn.state, t, p)
    ensures Base(e).Some? ==> Alone(s', NextState(s.sys, Base(e).value), t, Reaches(s.sys, Base(e).value))
  {
    s' := Next(s, e);
    if Base(e).Some? {
      StepFrame(s.sys, Base(e).value);
      StepState(s.sys, Base(e).value);
    }
    hide Apply, IsHistory, Finally, AlwaysIdleWhenDown, SetState, IdleWhenDown;
    assert s'.sys.calls.Keys <= {t};
    longer := events + [e];
    HistoryAppend(NEW_STATE, events, e);
  }

  lemma OpenedOnce() returns (events: seq<Event>, s: State)
    ensures IsHistory(NEW_STATE, events) && Finally(NEW_STATE, events) == s
    ensures Alone(s, Connected, 0, Returned) && s.runs == [Executing(true)]
    ensures s.fields.cancelScope == Some(0) && s.fields.closedEvent == Some(0) && s.fields.setEvents == {}
  {
    events, s := [], NEW_STATE;
    hide IsHistory, Finally, AlwaysIdleWhenDown, SetState, Apply;
    assert IsHistory(NEW_STATE, []) && Finally(NEW_STATE, []) == NEW_STATE by { Start(); }
    events, s := Go(events, s, Assigned, 0, Returned);
    events, s := Go(events, s, Other(CallOpen(0), true), 0, Returned);
    events, s := Go(events, s, Started(0), 0, InOpen);
    events, s := Go(events, s, OpenReturns(0), 0, InOpen);
  }

  lemma Start()
    ensures IsHistory(NEW_STATE, []) && Finally(NEW_STATE, []) == NEW_STATE
  {
  }

  /** The hypothesis is needed: a closer that is cancelled while it waits has already
      taken the scope, so the next closer does not wait and the connection ends up
      DISCONNECTED with its task executing. */
  lemma CancelledCloserLeavesRun() returns (events: seq<Event>)
    ensures IsHistory(NEW_STATE, events) && !AlwaysIdleWhenDown(NEW_STATE, events)
  {
    var s;
    events, s := OpenedOnce();
    hide IsHistory, Finally, AlwaysIdleWhenDown, SetState, Apply;
    events, s := Go(events, s, Other(CallClose(0), true), 0, Returned);
    assert s.locals[0] == AwaitsEvent(Some(0)) && s.fields.cancelScope == None;
    events, s := Go(events, s, CloseCancelled(0), 0, InClose);
    events, s := Go(events, s, Other(CallClose(0), true), 0, Returned);
    assert s.locals[0] == FoundNoScope;
    events, s := Go(events, s, CloseReturns(0), 0, InClose);
    assert s.runs[0] == Executing(true);
  }
}
