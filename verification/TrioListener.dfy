/** Trio-style listeners, which serve in a task of their own, on top of the lifecycle
    (`ListenerBase` is `ConnectionBase` with CLOSED, PREPARING, OPEN and CLOSING for
    DISCONNECTED, CONNECTING, CONNECTED and DISCONNECTING). */
module TrioListener {
  import opened Common
  import opened Connection
  import opened Lifecycle

  /** One number names an opening, its task, its cancel scope and its exit event. */
  type RunId = nat

  datatype Fields = Fields(cancelScope: Option<RunId>, taskExited: Option<RunId>, setEvents: set<RunId>)

  const NEW_FIELDS := Fields(None, None, {})

  /** What a call of `_open` or `_close` remembers while it waits. */
  datatype Local =
    | Spawned(run: RunId)               // waits for the task to report that it started
    | NotSpawned                        // there is no nursery, or it refused the task
    | AwaitsExit(event: Option<RunId>)  // waits for the exit event, if there is one

  // ----- pieces of the methods --------------------------------------------

  /** The task up to `_run`. */
  function BeginTask(f: Fields, run: RunId): Fields {
    f.(cancelScope := Some(run), taskExited := Some(run))
  }

  /** The task after its cancel scope, unless it is being torn down from outside. */
  function EndTask(f: Fields): Fields {
    f.(cancelScope := None,
       setEvents := f.setEvents + (if f.taskExited.Some? then {f.taskExited.value} else {}))
  }

  /** `_close` up to its wait. */
  function CancelTask(f: Fields): (Fields, Local) {
    (f.(cancelScope := None), AwaitsExit(f.taskExited))
  }

  class TrioListenerBase {
    var cancelScope: Option<RunId>
    var taskExited: Option<RunId>
    var setEvents: set<RunId>

    ghost function Model(): Fields reads this {
      Fields(cancelScope, taskExited, setEvents)
    }

    constructor ()
      ensures Model() == NEW_FIELDS
    {
      cancelScope, taskExited, setEvents := None, None, {};
    }

    method EnterTask(run: RunId)
      modifies this
      ensures Model() == BeginTask(old(Model()), run)
      ensures cancelScope == taskExited == Some(run) && setEvents == old(setEvents)
    {
      cancelScope := Some(run);
      taskExited := Some(run);
    }

    method LeaveTask()
      modifies this
      ensures Model() == EndTask(old(Model()))
      ensures cancelScope.None? && taskExited == old(taskExited)
      ensures taskExited.Some? ==> taskExited.value in setEvents
    {
      cancelScope := None;
      if taskExited.Some? {
        setEvents := setEvents + {taskExited.value};
      }
    }

    method StartClosing() returns (waits: Local)
      modifies this
      ensures (Model(), waits) == CancelTask(old(Model()))
      ensures cancelScope.None? && taskExited == old(taskExited) && waits == AwaitsExit(taskExited)
    {
      if cancelScope.Some? {
        cancelScope := None;
      }
      waits := AwaitsExit(taskExited);
    }
  }

  // ----- the protocol -----------------------------------------------------

  datatype Phase = Pending | Serving(started: bool) | Exited(started: bool)

  datatype State = State(
    sys: System,
    fields: Fields,
    runs: seq<Phase>,              // by RunId; every opening uses up one number
    locals: map<CallId, Local>)

  const NEW_STATE := State(NEW_SYSTEM, NEW_FIELDS, [], map[])

  datatype Event =
    | Other(action: Action, spawns: bool)  // anything but the end of a body; `_open` may fail to spawn
    | TaskBegins(run: RunId)
    | Started(run: RunId)                  // the task reports that it accepts connections
    | TaskExits(run: RunId, clean: bool)   // unclean when its nursery is cancelled
    | OpenReturns(call: CallId)
    | OpenRaises(call: CallId)             // the task ended before it reported, or there is none
    | CloseReturns(call: CallId)
    | CloseCancelled(call: CallId)         // while waiting for the exit event

  /** The step of the lifecycle that an event is, if any. The call of `close` that an
      ended task leaves behind is one of those that anybody may make at any time. */
  function Base(e: Event): Option<Action> {
    match e
    case Other(action, _) => Some(action)
    case OpenReturns(t) => Some(EndOpen(t, true))
    case OpenRaises(t) => Some(EndOpen(t, false))
    case CloseReturns(t) => Some(EndClose(t, true))
    case CloseCancelled(t) => Some(EndClose(t, false))
    case _ => None
  }

  predicate InBody(s: State, t: CallId, p: Point) {
    t in s.sys.calls && s.sys.calls[t].at == p && t in s.locals
  }

  predicate Possible(s: State, e: Event) {
    && (Base(e).Some? ==> Enabled(s.sys, Base(e).value))
    && match e
       case Other(action, _) => !action.EndOpen? && !action.EndClose?
       case TaskBegins(n) => n < |s.runs| && s.runs[n] == Pending
       case Started(n) => n < |s.runs| && s.runs[n] == Serving(false)
       case TaskExits(n, _) => n < |s.runs| && s.runs[n].Serving?
       case OpenReturns(t) =>
         && InBody(s, t, InOpen) && s.locals[t].Spawned?
         && s.locals[t].run < |s.runs| && s.runs[s.locals[t].run] in {Serving(true), Exited(true)}
       case OpenRaises(t) =>
         && InBody(s, t, InOpen)
         && (s.locals[t].Spawned? ==> s.locals[t].run < |s.runs| && s.runs[s.locals[t].run] == Exited(false))
       case CloseReturns(t) =>
         && InBody(s, t, InClose) && s.locals[t].AwaitsExit?
         && (s.locals[t].event.Some? ==> s.locals[t].event.value in s.fields.setEvents)
       case CloseCancelled(t) => InBody(s, t, InClose) && s.locals[t].AwaitsExit?
  }

  /** The first piece of a body, which runs in the same step as the call's way to it. */
  function EnterBody(s: State, t: CallId, p: Point, spawns: bool): State {
    match p
    case InOpen =>
      s.(runs := s.runs + [if spawns then Pending else Exited(false)],
         locals := s.locals[t := if spawns then Spawned(|s.runs|) else NotSpawned])
    case InClose =>
      var (fields, local) := CancelTask(s.fields);
      s.(fields := fields, locals := s.locals[t := local])
    case _ => s
  }

  function LocalEffect(s: State, e: Event): State
    requires Possible(s, e)
  {
    match e
    case Other(action, spawns) => EnterBody(s, action.call, Reaches(s.sys, action), spawns)
    case TaskBegins(n) => s.(runs := s.runs[n := Serving(false)], fields := BeginTask(s.fields, n))
    case Started(n) => s.(runs := s.runs[n := Serving(true)])
    case TaskExits(n, clean) =>
      s.(runs := s.runs[n := Exited(s.runs[n].started)], fields := if clean then EndTask(s.fields) else s.fields)
    case _ => s
  }

  function Next(s: State, e: Event): State
    requires Possible(s, e)
  {
    LocalEffect(s, e).(sys := if Base(e).Some? then Apply(s.sys, Base(e).value) else s.sys)
  }

  predicate IsHistory(s: State, events: seq<Event>)
    decreases |events|
  {
    && OneOfEach(s.sys)
    && (events != [] ==> Possible(s, events[0]) && IsHistory(Next(s, events[0]), events[1..]))
  }

  function Finally(s: State, events: seq<Event>): State
    requires IsHistory(s, events)
    decreases |events|
  {
    if events == [] then s else Finally(Next(s, events[0]), events[1..])
  }

  // ----- closed means not serving -----------------------------------------

  predicate NoTask(s: State) {
    forall n :: 0 <= n < |s.runs| ==> s.runs[n].Exited?
  }

  /** Only the latest run can be alive; once it serves, its exit event is the current one
      and not set. While the listener is closed there is none. A scope that is there is that
      of the current task, which has not ended; while opening it is there, while closing
      not. */
  predicate TasksFit(runs: seq<Phase>, f: Fields, state: ConnectionState) {
    && (forall n :: 0 <= n < |runs| - 1 ==> runs[n].Exited?)
    && (forall n :: 0 <= n < |runs| && runs[n].Serving? ==> f.taskExited == Some(n) && n !in f.setEvents)
    && (forall n :: 0 <= n < |runs| && runs[n].Pending? ==> state == Connecting)
    && (forall e :: e in f.setEvents ==> e < |runs| && runs[e].Exited?)
    && (f.taskExited.Some? ==> f.taskExited.value < |runs|)
    && (state == Disconnected ==> forall n :: 0 <= n < |runs| ==> runs[n].Exited?)
    && (f.cancelScope.Some? ==> f.cancelScope == f.taskExited && f.cancelScope.value !in f.setEvents)
    && (state == Disconnecting ==> f.cancelScope.None?)
    && (state == Connecting ==> forall n :: 0 <= n < |runs| && runs[n].Serving? ==> f.cancelScope == Some(n))
  }

  /** Calls inside a body remember the latest run or the current exit event. */
  predicate TaskFits(s: State) {
    && TasksFit(s.runs, s.fields, s.sys.conn.state)
    && (forall t :: t in s.sys.calls && s.sys.calls[t].at == InOpen ==> OpenerFits(s, t))
    && (forall t :: t in s.sys.calls && s.sys.calls[t].at == InClose ==> CloserFits(s, t))
  }

  predicate OpenerFits(s: State, t: CallId) {
    && t in s.locals
    && (s.locals[t].Spawned? || s.locals[t].NotSpawned?)
    && (s.locals[t].Spawned? ==> s.locals[t].run == |s.runs| - 1)
    && (s.locals[t].NotSpawned? ==> NoTask(s))
  }

  predicate CloserFits(s: State, t: CallId) {
    t in s.locals && s.locals[t] == AwaitsExit(s.fields.taskExited)
  }

  lemma InternalStep(s: State, e: Event)
    requires Safe(s.sys) && TaskFits(s) && Possible(s, e) && Base(e).None?
    ensures TaskFits(Next(s, e))
  {
    BodyStates(s.sys);
    hide Safe, Enabled, Apply;
  }

  /** The end of a body on the parts other than the lifecycle. */
  lemma EndBody(s: State, e: Event)
    requires Possible(s, e) && (e.OpenReturns? || e.OpenRaises? || e.CloseReturns? || e.CloseCancelled?)
    requires TasksFit(s.runs, s.fields, if e.OpenReturns? || e.OpenRaises? then Connecting else Disconnecting)
    requires e.OpenReturns? || e.OpenRaises? ==> OpenerFits(s, e.call)
    requires e.CloseReturns? || e.CloseCancelled? ==> CloserFits(s, e.call)
    ensures TasksFit(s.runs, s.fields, NextState(s.sys, Base(e).value))
  {
    hide Enabled;
  }

  lemma EndStep(s: State, e: Event)
    requires Safe(s.sys) && TaskFits(s) && Possible(s, e)
    requires e.OpenReturns? || e.OpenRaises? || e.CloseReturns? || e.CloseCancelled?
    requires Safe(Next(s, e).sys)
    ensures TaskFits(Next(s, e))
  {
    var a := Base(e).value;
    var s' := Next(s, e);
    BodyStates(s.sys);
    BodyStates(s'.sys);
    StepFrame(s.sys, a);
    StepState(s.sys, a);
    EndBody(s, e);
    assert s'.(sys := s.sys) == s;
    hide Safe, Apply, Enabled, SetState, TasksFit, Next, Possible;
    forall t | t in s'.sys.calls && Inside(s'.sys.calls[t])
      ensures t in s.sys.calls && s.sys.calls[t].at == s'.sys.calls[t].at
    {
    }
  }

  /** A call that enters a body is the only one inside. */
  lemma EnterAlone(s: State, e: Event, p: Point)
    requires Safe(s.sys) && Possible(s, e) && e.Other? && Reaches(s.sys, e.action) == p
    requires p == InOpen || p == InClose
    requires Safe(Next(s, e).sys) && StepInOrder(s.sys, e.action)
    ensures s.sys.conn.state == if p == InOpen then Disconnected else Connected
    ensures Next(s, e) == EnterBody(s, e.action.call, p, e.spawns).(sys := Next(s, e).sys)
    ensures Next(s, e).sys.conn.state == if p == InOpen then Connecting else Disconnecting
    ensures forall t :: t in Next(s, e).sys.calls && Inside(Next(s, e).sys.calls[t]) ==>
      t == e.action.call && Next(s, e).sys.calls[t].at == p
  {
    BodyStates(Next(s, e).sys);
    StepFrame(s.sys, e.action);
    StepState(s.sys, e.action);
    hide Safe, Apply, Enabled, SetState;
  }

  /** The first piece of a body on the parts other than the lifecycle. */
  lemma EnterFits(s: State, t: CallId, p: Point, spawns: bool)
    requires p == InOpen || p == InClose
    requires TasksFit(s.runs, s.fields, if p == InOpen then Disconnected else Connected)
    ensures var s' := EnterBody(s, t, p, spawns);
      && TasksFit(s'.runs, s'.fields, if p == InOpen then Connecting else Disconnecting)
      && if p == InOpen then OpenerFits(s', t) else CloserFits(s', t)
  {
  }

  lemma EnterBodyStep(s: State, e: Event, p: Point)
    requires Safe(s.sys) && TaskFits(s) && Possible(s, e) && e.Other? && Reaches(s.sys, e.action) == p
    requires p == InOpen || p == InClose
    requires Safe(Next(s, e).sys) && StepInOrder(s.sys, e.action)
    ensures TaskFits(Next(s, e))
  {
    EnterAlone(s, e, p);
    hide Safe, Apply, Enabled, Possible, StepInOrder, Next, TasksFit, EnterBody;
    EnterFits(s, e.action.call, p, e.spawns);
  }

  lemma EnterWaitStep(s: State, e: Event)
    requires Safe(s.sys) && TaskFits(s) && Possible(s, e) && e.Other?
    requires Reaches(s.sys, e.action) != InClose && Reaches(s.sys, e.action) != InOpen
    ensures TaskFits(Next(s, e))
  {
    var a := e.action;
    var s' := Next(s, e);
    StepFrame(s.sys, a);
    StepState(s.sys, a);
    assert s'.(sys := s.sys) == s;
    hide Safe, Apply, Enabled, SetState, TasksFit, Next;
    forall t | t in s'.sys.calls && Inside(s'.sys.calls[t])
      ensures t in s.sys.calls && s.sys.calls[t].at == s'.sys.calls[t].at
    {
    }
  }

  lemma TaskFitsStep(s: State, e: Event)
    requires Safe(s.sys) && TaskFits(s) && Possible(s, e)
    requires OneOfEach(s.sys) && OneOfEach(Next(s, e).sys)
    ensures Safe(Next(s, e).sys) && TaskFits(Next(s, e))
  {
    if Base(e).Some? {
      SafeStep(s.sys, Base(e).value);
    }
    hide Safe, Apply, TaskFits, OneOfEach, StepInOrder, Enabled;
    if Base(e).None? {
      InternalStep(s, e);
    } else if !e.Other? {
      EndStep(s, e);
    } else if Reaches(s.sys, e.action) == InOpen || Reaches(s.sys, e.action) == InClose {
      EnterBodyStep(s, e, Reaches(s.sys, e.action));
    } else {
      EnterWaitStep(s, e);
    }
  }

  lemma OneOfEachFirst(s: State, events: seq<Event>)
    requires IsHistory(s, events) && events != []
    ensures OneOfEach(s.sys) && OneOfEach(Next(s, events[0]).sys)
  {
  }

  lemma {:induction false} TaskFitsHistory(s: State, events: seq<Event>)
    requires Safe(s.sys) && TaskFits(s) && IsHistory(s, events)
    ensures TaskFits(Finally(s, events))
    decreases |events|
  {
    if events != [] {
      hide Safe, TaskFits, Next, OneOfEach;
      OneOfEachFirst(s, events);
      TaskFitsStep(s, events[0]);
      TaskFitsHistory(Next(s, events[0]), events[1..]);
    }
  }

  /** With one active open and one active close at a time, and closers that may be
      cancelled at any point: a listener that is CLOSED has no task, serving or about to,
      and while it is not being opened at most the task of the current exit event. A task
      that serves can be cancelled until a closer has done so. */
  lemma QuietListener(events: seq<Event>)
    requires IsHistory(NEW_STATE, events)
    ensures var s := Finally(NEW_STATE, events);
      && (s.sys.conn.state == Disconnected ==> NoTask(s))
      && (s.sys.conn.state != Connecting ==>
           forall n :: 0 <= n < |s.runs| && !s.runs[n].Exited? ==>
             s.fields.taskExited == Some(n) && n !in s.fields.setEvents)
      && (s.sys.conn.state == Connecting ==>
           forall n :: 0 <= n < |s.runs| && s.runs[n].Serving? ==> s.fields.cancelScope == Some(n))
      && (s.sys.conn.state == Disconnecting ==> s.fields.cancelScope.None?)
      && (s.fields.cancelScope.Some? ==>
           s.fields.cancelScope == s.fields.taskExited && s.fields.cancelScope.value !in s.fields.setEvents)
  {
    TaskFitsHistory(NEW_STATE, events);
  }
}
