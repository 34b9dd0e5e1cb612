/** Connections over a file descriptor or file object, on top of the lifecycle: the
    file object is there exactly while the connection is up, so the assertion at the
    start of `_close` never fails. */
module FileConnection {
  import opened Common
  import opened Connection
  import opened Lifecycle

  datatype FileLike = OpenedFrom(descriptor: int) | Given(id: nat)

  /** What `_get_file_object_during_open` may return. */
  datatype Source = Nothing | Descriptor(descriptor: int) | FileObject(id: nat, fileno: int)

  datatype HandleChange = HandleChange(oldHandle: Option<int>, newHandle: Option<int>)

  /** The fields of the connection and the `file_handle_changed` signals that it sent. */
  datatype File = File(handle: Option<int>, obj: Option<FileLike>, owned: bool, changes: seq<HandleChange>)

  const NO_FILE := File(None, None, false, [])

  function HandleOf(source: Source): Option<int> {
    match source
    case Nothing => None
    case Descriptor(fd) => Some(fd)
    case FileObject(_, fileno) => Some(fileno)
  }

  function ObjectOf(source: Source): Option<FileLike> {
    match source
    case Nothing => None
    case Descriptor(fd) => Some(OpenedFrom(fd))
    case FileObject(id, _) => Some(Given(id))
  }

  /** `_attach` on values; `_detach` attaches nothing. */
  function Attach(f: File, source: Source): File {
    var handle := HandleOf(source);
    File(handle, ObjectOf(source), source.FileObject?,
      f.changes + (if handle != f.handle then [HandleChange(f.handle, handle)] else []))
  }

  class FDConnection {
    var fileHandle: Option<int>
    var fileObject: Option<FileLike>
    var fileHandleOwned: bool
    var changes: seq<HandleChange>

    ghost function Model(): File reads this {
      File(fileHandle, fileObject, fileHandleOwned, changes)
    }

    constructor ()
      ensures Model() == NO_FILE
    {
      fileHandle, fileObject, fileHandleOwned, changes := None, None, false, [];
    }

    method AttachTo(source: Source)
      modifies this
      ensures Model() == Attach(old(Model()), source)
    {
      var handle, obj, owned;
      match source {
        case Nothing => handle, obj, owned := None, None, false;
        case Descriptor(fd) => handle, obj, owned := Some(fd), Some(OpenedFrom(fd)), false;
        case FileObject(id, fileno) => handle, obj, owned := Some(fileno), Some(Given(id)), true;
      }
      var oldHandle := fileHandle;
      if fileHandle != handle { fileHandle := handle; }
      if fileObject != obj { fileObject := obj; }
      fileHandleOwned := owned;
      if oldHandle != fileHandle {
        changes := changes + [HandleChange(oldHandle, fileHandle)];
      }
    }

    /** The rest of `_open` once the file object is there; fails when it is not. */
    method FinishOpen(source: Source) returns (success: bool)
      modifies this
      ensures success == !source.Nothing?
      ensures Model() == if success then Attach(old(Model()), source) else old(Model())
    {
      if source == Nothing {
        return false;
      }
      AttachTo(source);
      success := true;
    }

    /** `_close`; fails when its assertion does. */
    method Close() returns (success: bool)
      modifies this
      ensures success == old(fileObject).Some?
      ensures Model() == if success then Attach(old(Model()), Nothing) else old(Model())
    {
      if fileObject.None? {
        return false;
      }
      AttachTo(Nothing);
      success := true;
    }
  }

  // ----- the protocol -----------------------------------------------------

  datatype State = State(sys: System, file: File)

  const NEW_STATE := State(NEW_SYSTEM, NO_FILE)

  datatype Event =
    | Other(action: Action)                    // anything but the end of a body
    | OpenReturns(call: CallId, source: Source)
    | OpenRaises(call: CallId)                 // failure or cancellation
    | CloseRuns(call: CallId)

  /** The step of the lifecycle that an event is. */
  function Base(s: State, e: Event): Action {
    match e
    case Other(action) => action
    case OpenReturns(t, source) => EndOpen(t, !source.Nothing?)
    case OpenRaises(t) => EndOpen(t, false)
    case CloseRuns(t) => EndClose(t, s.file.obj.Some?)
  }

  predicate Possible(s: State, e: Event) {
    Enabled(s.sys, Base(s, e)) && (e.Other? ==> !e.action.EndOpen? && !e.action.EndClose?)
  }

  function Next(s: State, e: Event): State
    requires Possible(s, e)
  {
    State(Apply(s.sys, Base(s, e)), NextFile(s.file, e))
  }

  function NextFile(f: File, e: Event): File {
    match e
    case OpenReturns(_, source) => if source.Nothing? then f else Attach(f, source)
    case CloseRuns(_) => if f.obj.Some? then Attach(f, Nothing) else f
    case _ => f
  }

  predicate IsHistory(s: State, events: seq<Event>)
    decreases |events|
  {
    && OneOfEach(s.sys)
    && (events != [] ==> Possible(s, events[0]) && IsHistory(Next(s, events[0]), events[1..]))
  }

  function Finally(s: State, events: seq<Event>): State
    requires IsHistory(s, events)
    decreases |events|
  {
    if events == [] then s else Finally(Next(s, events[0]), events[1..])
  }

  /** The assertion of `_close` holds whenever it is reached. */
  predicate AssertsHold(s: State, events: seq<Event>)
    requires IsHistory(s, events)
    decreases |events|
  {
    events != [] ==>
      && (events[0].CloseRuns? ==> s.file.obj.Some?)
      && AssertsHold(Next(s, events[0]), events[1..])
  }

  function LastHandle(changes: seq<HandleChange>): Option<int> {
    if changes == [] then None else changes[|changes| - 1].newHandle
  }

  predicate IsHandleTrace(changes: seq<HandleChange>, handle: Option<int>) {
    && LastHandle(changes) == handle
    && forall i :: 0 <= i < |changes| ==>
         changes[i].oldHandle == LastHandle(changes[..i]) != changes[i].newHandle
  }

  predicate FileFits(f: File, up: bool) {
    && f.obj.Some? == up && f.handle.Some? == up && (f.owned ==> up)
    && IsHandleTrace(f.changes, f.handle)
  }

  predicate Attached(s: State) {
    FileFits(s.file, IsUp(s.sys))
  }

  lemma AttachTrace(f: File, source: Source)
    requires IsHandleTrace(f.changes, f.handle)
    ensures IsHandleTrace(Attach(f, source).changes, Attach(f, source).handle)
  {
    var c := Attach(f, source).changes;
    assert c[..|f.changes|] == f.changes;
    forall i | 0 <= i < |c|
      ensures c[i].oldHandle == LastHandle(c[..i]) != c[i].newHandle
    {
      assert i < |f.changes| ==> c[..i] == f.changes[..i];
    }
  }

  lemma FileStep(f: File, e: Event, up: bool)
    requires FileFits(f, up)
    requires e.OpenReturns? ==> !up
    requires e.CloseRuns? ==> up
    ensures FileFits(NextFile(f, e),
      match e
      case OpenReturns(_, source) => !source.Nothing?
      case CloseRuns(_) => false
      case _ => up)
  {
    AttachTrace(f, if e.OpenReturns? then e.source else Nothing);
    hide IsHandleTrace;
  }

  lemma AttachedStep(s: State, e: Event)
    requires Safe(s.sys) && Attached(s) && Possible(s, e)
    requires OneOfEach(s.sys) && OneOfEach(Next(s, e).sys)
    ensures Safe(Next(s, e).sys) && Attached(Next(s, e))
    ensures e.CloseRuns? ==> s.file.obj.Some?
  {
    hide Safe, OneOfEach, Apply, StepInOrder, ResumesInPlace, IsHandleTrace, Enabled, NextFile;
    SafeStep(s.sys, Base(s, e));
    UpStep(s.sys, Base(s, e));
    FileStep(s.file, e, IsUp(s.sys));
  }

  lemma {:induction false} AttachedHistory(s: State, events: seq<Event>)
    requires Safe(s.sys) && Attached(s) && IsHistory(s, events)
    ensures Attached(Finally(s, events)) && AssertsHold(s, events)
    decreases |events|
  {
    if events != [] {
      hide Safe, Attached, Next, OneOfEach;
      OneOfEachFirst(s, events);
      AttachedStep(s, events[0]);
      AttachedHistory(Next(s, events[0]), events[1..]);
    }
  }

  lemma OneOfEachFirst(s: State, events: seq<Event>)
    requires IsHistory(s, events) && events != []
    ensures OneOfEach(s.sys) && OneOfEach(Next(s, events[0]).sys)
  {
  }

  /** Attached exactly when up: with one active open and one active close at a time,
      a connection that is CONNECTED has a file object and one that is DISCONNECTED has
      none; the assertion in `_close` never fails; and `file_handle_changed` events
      chain from no handle to the current one. */
  lemma AttachedExactlyWhenUp(events: seq<Event>)
    requires IsHistory(NEW_STATE, events)
    ensures AssertsHold(NEW_STATE, events)
    ensures var s := Finally(NEW_STATE, events);
      && (s.sys.conn.state == Connected ==> s.file.obj.Some? && s.file.handle.Some?)
      && (s.sys.conn.state == Disconnected ==> s.file.obj.None? && s.file.handle.None? && !s.file.owned)
      && IsHandleTrace(s.file.changes, s.file.handle)
  {
    AttachedHistory(NEW_STATE, events);
  }

  // ----- attached to what ------------------------------------------------

  /** What the last successful `_open` among the events returned. */
  function LastSource(events: seq<Event>, before: Source): Source {
    if events == [] then before
    else
      LastSource(events[1..],
        if events[0].OpenReturns? && !events[0].source.Nothing? then events[0].source else before)
  }

  /** A descriptor is opened and not owned; a file object is taken with its own descriptor
      and owned. */
  predicate IsAttachedTo(f: File, source: Source) {
    match source
    case Nothing => false
    case Descriptor(fd) => f.handle == Some(fd) && f.obj == Some(OpenedFrom(fd)) && !f.owned
    case FileObject(id, fileno) => f.handle == Some(fileno) && f.obj == Some(Given(id)) && f.owned
  }

  lemma {:induction false} AttachedToHistory(s: State, events: seq<Event>, before: Source)
    requires Safe(s.sys) && Attached(s) && IsHistory(s, events)
    requires IsUp(s.sys) ==> IsAttachedTo(s.file, before)
    ensures IsUp(Finally(s, events).sys) ==> IsAttachedTo(Finally(s, events).file, LastSource(events, before))
    decreases |events|
  {
    if events != [] {
      var e, s' := events[0], Next(s, events[0]);
      OneOfEachFirst(s, events);
      AttachedStep(s, e);
      SafeStep(s.sys, Base(s, e));
      UpStep(s.sys, Base(s, e));
      hide Safe, Attached, OneOfEach, Apply, StepInOrder, ResumesInPlace, Enabled;
      var after := if e.OpenReturns? && !e.source.Nothing? then e.source else before;
      assert IsUp(s'.sys) ==> IsAttachedTo(s'.file, after);
      hide Next, IsAttachedTo;
      AttachedToHistory(s', events[1..], after);
    }
  }

  /** A connection that is CONNECTED is attached to what its last successful `_open`
      returned. */
  lemma AttachedToLastSource(events: seq<Event>)
    requires IsHistory(NEW_STATE, events)
    ensures var s := Finally(NEW_STATE, events);
      s.sys.conn.state == Connected ==> IsAttachedTo(s.file, LastSource(events, Nothing))
  {
    AttachedToHistory(NEW_STATE, events, Nothing);
  }
}
