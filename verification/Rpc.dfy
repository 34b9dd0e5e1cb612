/** Remote procedure calls over a message channel: which outcome a call gets, and in
    which order replies leave, however calls, messages and timeouts interleave. The
    future map is taken as a map of futures added when a call starts to wait for its
    response and removed when it stops; the outbound queue is a queue without buffer,
    whose senders wait in order until their message is taken. */
module Rpc {
  import opened Common

  type CallId = nat

  /** The `error` of an error response: a dictionary whose keys may be missing, or text. */
  datatype ErrorPayload = ErrorDict(code: Option<int>, message: Option<string>) | ErrorText(text: string)

  datatype Message =
    | Request(oneWay: bool)
    | ErrorResponse(uniqueId: string, error: ErrorPayload)
    | Response(uniqueId: string, exception: Option<nat>, result: nat)
    | UnknownMessage

  datatype Outcome = HasResult(result: nat) | HasException(exception: nat) | HasRpcError(code: int, message: string)

  // ----- the future map ---------------------------------------------------

  /** The registered futures by request identifier, each done or not. */
  type Futures = map<string, Option<Outcome>>

  /** What a response or error message says, if it is one. */
  function OutcomeOf(m: Message): Option<Outcome> {
    match m
    case ErrorResponse(_, ErrorDict(code, message)) => Some(HasRpcError(code.GetOr(0), message.GetOr("")))
    case ErrorResponse(_, ErrorText(text)) => Some(HasRpcError(0, text))
    case Response(_, Some(exception), _) => Some(HasException(exception))
    case Response(_, None, result) => Some(HasResult(result))
    case _ => None
  }

  /** Only a registered future that is not done is set. */
  function Resolve(f: Futures, id: string, outcome: Outcome): Futures {
    if id in f && f[id].None? then f[id := Some(outcome)] else f
  }

  datatype Warning = Stale(id: string) | Duplicate(id: string) | UnknownType

  /** The map of futures and the outbound queue of a call to `serve_rpc_requests`. */
  class RpcPeer {
    var futures: Futures
    var queue: seq<Item>
    var warnings: seq<Warning>

    constructor ()
      ensures futures == map[] && queue == [] && warnings == []
    {
      futures, queue, warnings := map[], [], [];
    }

    /** `send_request` up to its wait for the queue. */
    method PostRequest(t: CallId)
      modifies this`queue
      ensures queue == old(queue) + [RequestItem(t)]
    {
      queue := queue + [RequestItem(t)];
    }

    /** `send_request` once its request was taken, if it needs a response. */
    method Register(id: string)
      modifies this`futures
      ensures id in futures && futures[id].None?
      ensures futures - {id} == old(futures) - {id}
    {
      futures := futures[id := None];
    }

    /** The end of `send_request`: what its future holds, if anything. */
    method Forget(id: string) returns (outcome: Option<Outcome>)
      modifies this`futures
      ensures id !in futures && futures == old(futures) - {id}
      ensures outcome == if id in old(futures) then old(futures)[id] else None
    {
      outcome := if id in futures then futures[id] else None;
      futures := futures - {id};
    }

    /** `handle_single_inbound_message` for a request with the given handler result. */
    method HandleRequest(oneWay: bool, response: Option<nat>)
      modifies this`queue
      ensures old(queue) <= queue
      ensures Replies(queue) == Replies(old(queue)) + Due([Handled(oneWay, response)])
      ensures Replies(queue[|old(queue)|..]) == Due([Handled(oneWay, response)])
    {
      assert Due([Handled(oneWay, response)][1..]) == [];
      if response.Some? && !oneWay {
        RepliesAppend(queue, [ReplyItem(response.value)]);
        queue := queue + [ReplyItem(response.value)];
      } else {
        assert queue[|queue|..] == [];
      }
    }

    /** `handle_single_inbound_message` for everything but requests. */
    method HandleResponse(m: Message)
      requires !m.Request?
      modifies this`futures, this`warnings
      ensures OutcomeOf(m).None? ==> futures == old(futures)
      ensures OutcomeOf(m).Some? ==> futures == Resolve(old(futures), m.uniqueId, OutcomeOf(m).value)
      ensures OutcomeOf(m).Some? && m.uniqueId in old(futures) && old(futures)[m.uniqueId].None? ==>
        futures[m.uniqueId].Some? && Says(m, m.uniqueId, futures[m.uniqueId].value)
      ensures warnings == old(warnings) + (
        if OutcomeOf(m).None? then [UnknownType]
        else if m.uniqueId !in old(futures) then [Stale(m.uniqueId)]
        else if old(futures)[m.uniqueId].Some? then [Duplicate(m.uniqueId)]
        else [])
    {
      match m {
        case ErrorResponse(id, error) =>
          if id in futures {
            if futures[id].None? {
              match error {
                case ErrorDict(code, message) => futures := futures[id := Some(HasRpcError(code.GetOr(0), message.GetOr("")))];
                case ErrorText(text) => futures := futures[id := Some(HasRpcError(0, text))];
              }
            } else {
              warnings := warnings + [Duplicate(id)];
            }
          } else {
            warnings := warnings + [Stale(id)];
          }
        case Response(id, exception, result) =>
          if id in futures {
            if futures[id].None? {
              if exception.Some? {
                futures := futures[id := Some(HasException(exception.value))];
              } else {
                futures := futures[id := Some(HasResult(result))];
              }
            } else {
              warnings := warnings + [Duplicate(id)];
            }
          } else {
            warnings := warnings + [Stale(id)];
          }
        case UnknownMessage =>
          warnings := warnings + [UnknownType];
      }
    }
  }

  // ----- calls, messages and the queue ------------------------------------

  datatype Item = RequestItem(call: CallId) | ReplyItem(response: nat)

  /** A call by the point that it has reached; one-way calls have no identifier. */
  datatype CallState =
    | Queued(id: Option<string>)           // its request waits to be taken
    | Taken(id: Option<string>)            // its request was taken
    | Registered(id: Option<string>, from: nat) // waits for its future since that many messages

  /** The task that handles inbound messages, one at a time. */
  datatype Inbound = Free | Handling(oneWay: bool) | Replying

  /** The truth of one inbound request: whether it was one-way and the handler's result. */
  datatype Handled = Handled(oneWay: bool, response: Option<nat>)

  /** A call that is over: its identifier, the stretch of messages during which it was
      registered, and what it got, if it did not time out. */
  datatype Finished = Finished(call: CallId, id: string, from: nat, to: nat, outcome: Option<Outcome>)

  datatype State = State(
    queue: seq<Item>,                 // what senders wait with, in order
    outgoing: Option<Item>,           // what the outbound task is sending
    wire: seq<Item>,
    inbound: Inbound,
    futures: Futures,
    calls: map<CallId, CallState>,
    messages: seq<Message>,           // the inbound messages so far
    handled: seq<Handled>,            // the requests handled so far
    finished: seq<Finished>)

  const NEW_STATE := State([], None, [], Free, map[], map[], [], [], [])

  datatype Event =
    | Calls(call: CallId, id: Option<string>)
    | QueueIsTaken
    | Leaves
    | Continues(call: CallId)         // once its request was taken
    | GetsOutcome(call: CallId)
    | GivesUp(call: CallId)           // timeout or cancellation while it waits
    | Withdraws(call: CallId)         // cancellation while its request waits
    | Receives(message: Message)
    | Handles(response: Option<nat>)  // the handler's result, falsy ones as none

  /** The identifier of a call in flight that waits for a response. */
  predicate UsesId(s: State, t: CallId, id: string) {
    t in s.calls && s.calls[t].id == Some(id)
  }

  predicate Possible(s: State, e: Event) {
    match e
    case Calls(t, id) => t !in s.calls && (id.Some? ==> forall u :: u in s.calls ==> !UsesId(s, u, id.value))
    case QueueIsTaken => s.queue != [] && s.outgoing.None?
    case Leaves => s.outgoing.Some?
    case Continues(t) => t in s.calls && s.calls[t].Taken?
    case GetsOutcome(t) =>
      && t in s.calls && s.calls[t].Registered? && s.calls[t].id.Some?
      && s.calls[t].id.value in s.futures && s.futures[s.calls[t].id.value].Some?
    case GivesUp(t) => t in s.calls && s.calls[t].Registered? && s.calls[t].id.Some?
    case Withdraws(t) => t in s.calls && s.calls[t].Queued?
    case Receives(_) => s.inbound == Free
    case Handles(_) => s.inbound.Handling?
  }

  function Without(queue: seq<Item>, t: CallId): seq<Item> {
    if queue == [] then []
    else (if queue[0] == RequestItem(t) then [] else [queue[0]]) + Without(queue[1..], t)
  }

  function Finish(s: State, t: CallId, outcome: Option<Outcome>): State
    requires t in s.calls && s.calls[t].Registered? && s.calls[t].id.Some?
  {
    var id := s.calls[t].id.value;
    s.(futures := s.futures - {id},
       calls := s.calls - {t},
       finished := s.finished + [Finished(t, id, s.calls[t].from, |s.messages|, outcome)])
  }

  function Next(s: State, e: Event): State
    requires Possible(s, e)
  {
    match e
    case Calls(t, id) => s.(queue := s.queue + [RequestItem(t)], calls := s.calls[t := Queued(id)])
    case QueueIsTaken =>
      var item := s.queue[0];
      var s1 := s.(queue := s.queue[1..], outgoing := Some(item));
      (match item
       case RequestItem(t) => if t in s.calls then s1.(calls := s.calls[t := Taken(s.calls[t].id)]) else s1
       case ReplyItem(_) => s1.(inbound := Free))
    case Leaves => s.(wire := s.wire + [s.outgoing.value], outgoing := None)
    case Continues(t) =>
      if s.calls[t].id.None? then s.(calls := s.calls - {t})
      else s.(futures := s.futures[s.calls[t].id.value := None],
              calls := s.calls[t := Registered(s.calls[t].id, |s.messages|)])
    case GetsOutcome(t) => Finish(s, t, s.futures[s.calls[t].id.value])
    case GivesUp(t) => Finish(s, t, None)
    case Withdraws(t) => s.(queue := Without(s.queue, t), calls := s.calls - {t})
    case Receives(m) =>
      var s1 := s.(messages := s.messages + [m]);
      if m.Request? then s1.(inbound := Handling(m.oneWay))
      else if OutcomeOf(m).None? then s1
      else s1.(futures := Resolve(s.futures, m.uniqueId, OutcomeOf(m).value))
    case Handles(response) =>
      var s1 := s.(handled := s.handled + [Handled(s.inbound.oneWay, response)]);
      if response.Some? && !s.inbound.oneWay then
        s1.(queue := s.queue + [ReplyItem(response.value)], inbound := Replying)
      else s1.(inbound := Free)
  }

  predicate IsHistory(s: State, events: seq<Event>)
    decreases |events|
  {
    events != [] ==> Possible(s, events[0]) && IsHistory(Next(s, events[0]), events[1..])
  }

  function Finally(s: State, events: seq<Event>): State
    requires IsHistory(s, events)
    decreases |events|
  {
    if events == [] then s else Finally(Next(s, events[0]), events[1..])
  }

  // ----- matching ---------------------------------------------------------

  /** The message is a response or an error for the given identifier. */
  predicate Answers(m: Message, id: string) {
    (m.Response? || m.ErrorResponse?) && m.uniqueId == id
  }

  /** What the first response or error with the given identifier says. */
  function FirstOutcome(messages: seq<Message>, id: string): Option<Outcome> {
    if messages == [] then None
    else if Answers(messages[0], id) then OutcomeOf(messages[0])
    else FirstOutcome(messages[1..], id)
  }

  lemma {:induction false} FirstOutcomeSnoc(messages: seq<Message>, m: Message, id: string)
    ensures FirstOutcome(messages + [m], id) ==
      if FirstOutcome(messages, id).Some? then FirstOutcome(messages, id)
      else if Answers(m, id) then OutcomeOf(m) else None
  {
    if messages == [] {
      assert [m][1..] == [];
    } else {
      assert (messages + [m])[1..] == messages[1..] + [m];
      FirstOutcomeSnoc(messages[1..], m, id);
    }
  }

  /** The future of a registered call holds the first outcome since its registration. */
  predicate CallFits(s: State, t: CallId)
    requires t in s.calls
  {
    s.calls[t].Registered? ==>
      && s.calls[t].id.Some? && s.calls[t].id.value in s.futures
      && s.calls[t].from <= |s.messages|
      && s.futures[s.calls[t].id.value] == FirstOutcome(s.messages[s.calls[t].from..], s.calls[t].id.value)
  }

  predicate FinishedFits(s: State, f: Finished) {
    && f.from <= f.to <= |s.messages|
    && (f.outcome.Some? ==> f.outcome == FirstOutcome(s.messages[f.from..f.to], f.id))
  }

  predicate DistinctIds(s: State) {
    forall t, u :: t in s.calls && u in s.calls && s.calls[t].id.Some? && s.calls[t].id == s.calls[u].id ==> t == u
  }

  predicate OnlyRegistered(s: State) {
    forall id :: id in s.futures ==> exists t :: t in s.calls && s.calls[t].Registered? && s.calls[t].id == Some(id)
  }

  predicate Matched(s: State) {
    && DistinctIds(s)
    && (forall t :: t in s.calls ==> CallFits(s, t))
    && (forall i :: 0 <= i < |s.finished| ==> FinishedFits(s, s.finished[i]))
    && OnlyRegistered(s)
  }

  lemma ReceiveCallFits(s: State, m: Message, t: CallId)
    requires Possible(s, Receives(m)) && t in s.calls && CallFits(s, t)
    ensures CallFits(Next(s, Receives(m)), t)
  {
    var s' := Next(s, Receives(m));
    assert s'.futures.Keys == s.futures.Keys && s'.calls == s.calls;
    hide OutcomeOf, FirstOutcome, Resolve, Answers;
    if s.calls[t].Registered? {
      var from, id := s.calls[t].from, s.calls[t].id.value;
      FirstOutcomeSnoc(s.messages[from..], m, id);
      assert s'.messages[from..] == s.messages[from..] + [m];
      ResolvedFits(s.futures, m, id);
    }
  }

  /** A response reaches exactly the future registered under its identifier. */
  lemma ReceiveMatched(s: State, m: Message)
    requires Matched(s) && Possible(s, Receives(m))
    ensures Matched(Next(s, Receives(m)))
  {
    var s' := Next(s, Receives(m));
    assert s'.futures.Keys == s.futures.Keys && s'.calls == s.calls && s'.finished == s.finished;
    assert s'.messages == s.messages + [m];
    hide OutcomeOf, FirstOutcome, Resolve, CallFits, FinishedFits;
    forall t | t in s'.calls
      ensures CallFits(s', t)
    {
      ReceiveCallFits(s, m, t);
    }
    hide Next;
    forall i | 0 <= i < |s'.finished|
      ensures FinishedFits(s', s'.finished[i])
    {
      FinishedLonger(s, s', m, s.finished[i]);
    }
  }

  lemma FinishedLonger(s: State, s': State, m: Message, f: Finished)
    requires s'.messages == s.messages + [m] && FinishedFits(s, f)
    ensures FinishedFits(s', f)
  {
    hide FirstOutcome;
    assert s'.messages[f.from..f.to] == s.messages[f.from..f.to];
  }

  /** What a message makes of one future. */
  lemma ResolvedFits(futures: Futures, m: Message, id: string)
    requires id in futures
    ensures var after := if OutcomeOf(m).None? then futures else Resolve(futures, m.uniqueId, OutcomeOf(m).value);
      after[id] == if futures[id].None? && Answers(m, id) then OutcomeOf(m) else futures[id]
  {
  }

  lemma RegisterMatched(s: State, t: CallId)
    requires Matched(s) && Possible(s, Continues(t)) && s.calls[t].id.Some?
    ensures Matched(Next(s, Continues(t)))
  {
    var s' := Next(s, Continues(t));
    forall u | u in s'.calls
      ensures CallFits(s', u)
    {
      if u == t {
        assert s'.messages[|s.messages|..] == [];
      } else {
        assert CallFits(s, u);
      }
    }
    forall i | 0 <= i < |s'.finished|
      ensures FinishedFits(s', s'.finished[i])
    {
      assert FinishedFits(s, s.finished[i]);
    }
    forall id | id in s'.futures
      ensures exists u :: u in s'.calls && s'.calls[u].Registered? && s'.calls[u].id == Some(id)
    {
      if id == s.calls[t].id.value {
        assert s'.calls[t].id == Some(id);
      } else {
        var u :| u in s.calls && s.calls[u].Registered? && s.calls[u].id == Some(id);
        assert u in s'.calls && s'.calls[u] == s.calls[u];
      }
    }
  }

  lemma FinishMatched(s: State, t: CallId, outcome: Option<Outcome>)
    requires Matched(s) && t in s.calls && s.calls[t].Registered? && s.calls[t].id.Some?
    requires outcome.Some? ==> s.calls[t].id.value in s.futures && outcome == s.futures[s.calls[t].id.value]
    ensures Matched(Finish(s, t, outcome))
  {
    var s' := Finish(s, t, outcome);
    assert CallFits(s, t);
    hide FirstOutcome;
    forall u | u in s'.calls
      ensures CallFits(s', u)
    {
      assert CallFits(s, u);
    }
    assert s.messages[s.calls[t].from..|s.messages|] == s.messages[s.calls[t].from..];
    forall i | 0 <= i < |s'.finished|
      ensures FinishedFits(s', s'.finished[i])
    {
      if i < |s.finished| { assert FinishedFits(s, s.finished[i]); }
    }
    forall id | id in s'.futures
      ensures exists u :: u in s'.calls && s'.calls[u].Registered? && s'.calls[u].id == Some(id)
    {
      var u :| u in s.calls && s.calls[u].Registered? && s.calls[u].id == Some(id);
      assert u in s'.calls && s'.calls[u] == s.calls[u];
    }
  }

  /** Steps that touch neither futures nor responses and register nobody. */
  lemma OtherMatched(s: State, s': State)
    requires Matched(s)
    requires s'.futures == s.futures && s'.messages == s.messages && s'.finished == s.finished
    requires forall t :: t in s'.calls && s'.calls[t].Registered? ==> t in s.calls && s'.calls[t] == s.calls[t]
    requires forall t :: t in s.calls && s.calls[t].Registered? ==> t in s'.calls && s'.calls[t] == s.calls[t]
    requires DistinctIds(s')
    ensures Matched(s')
  {
    hide FirstOutcome;
    forall t | t in s'.calls
      ensures CallFits(s', t)
    {
      if s'.calls[t].Registered? { assert CallFits(s, t); }
    }
    forall i | 0 <= i < |s'.finished|
      ensures FinishedFits(s', s'.finished[i])
    {
      assert FinishedFits(s, s.finished[i]);
    }
    forall id | id in s'.futures
      ensures exists u :: u in s'.calls && s'.calls[u].Registered? && s'.calls[u].id == Some(id)
    {
      var u :| u in s.calls && s.calls[u].Registered? && s.calls[u].id == Some(id);
      assert u in s'.calls;
    }
  }

  predicate NoRepeatedRequest(queue: seq<Item>) {
    queue != [] ==> (queue[0].RequestItem? ==> queue[0] !in queue[1..]) && NoRepeatedRequest(queue[1..])
  }

  /** Requests in the queue are those of the calls that wait with them. */
  predicate QueueFits(s: State) {
    && (forall x :: x in s.queue && x.RequestItem? ==> x.call in s.calls && s.calls[x.call].Queued?)
    && NoRepeatedRequest(s.queue)
  }

  lemma {:induction false} NoRepeatSnoc(queue: seq<Item>, x: Item)
    requires NoRepeatedRequest(queue) && (x.RequestItem? ==> x !in queue)
    ensures NoRepeatedRequest(queue + [x])
  {
    if queue != [] {
      assert (queue + [x])[1..] == queue[1..] + [x];
      NoRepeatSnoc(queue[1..], x);
    }
  }

  lemma {:induction false} WithoutFits(queue: seq<Item>, t: CallId)
    ensures forall x :: x in Without(queue, t) ==> x in queue && x != RequestItem(t)
    ensures NoRepeatedRequest(queue) ==> NoRepeatedRequest(Without(queue, t))
  {
    if queue != [] {
      WithoutFits(queue[1..], t);
      var rest := Without(queue[1..], t);
      assert ([queue[0]] + rest)[1..] == rest && [] + rest == rest;
    }
  }

  lemma {:induction false} WithoutReplies(queue: seq<Item>, t: CallId)
    ensures Replies(Without(queue, t)) == Replies(queue)
  {
    if queue != [] {
      WithoutReplies(queue[1..], t);
      var rest := Without(queue[1..], t);
      assert ([queue[0]] + rest)[1..] == rest && [] + rest == rest && [] + Replies(rest) == Replies(rest);
    }
  }

  lemma QueueFitsStep(s: State, e: Event)
    requires QueueFits(s) && Possible(s, e)
    ensures QueueFits(Next(s, e))
  {
    match e {
      case Calls(t, _) => NoRepeatSnoc(s.queue, RequestItem(t));
      case Withdraws(t) => WithoutFits(s.queue, t);
      case Handles(response) =>
        if response.Some? { NoRepeatSnoc(s.queue, ReplyItem(response.value)); }
      case QueueIsTaken => assert forall x :: x in s.queue[1..] ==> x in s.queue;
      case _ =>
    }
    hide Without, NoRepeatedRequest;
  }

  /** The steps by which no message comes in and no call is registered or finished. */
  lemma MatchedKept(s: State, e: Event)
    requires Matched(s) && QueueFits(s) && Possible(s, e)
    requires !e.GetsOutcome? && !e.GivesUp? && !e.Receives?
    requires e.Continues? ==> s.calls[e.call].id.None?
    ensures Matched(Next(s, e))
  {
    hide CallFits, FinishedFits, OnlyRegistered, NoRepeatedRequest, Without, Resolve, OutcomeOf;
    var s' := Next(s, e);
    if e.QueueIsTaken? { assert s.queue[0] in s.queue; }
    if e.Continues? { assert CallFits(s, e.call); }
    OtherMatched(s, s');
  }

  lemma MatchedStep(s: State, e: Event)
    requires Matched(s) && QueueFits(s) && Possible(s, e)
    ensures Matched(Next(s, e))
  {
    match e {
      case Receives(m) => ReceiveMatched(s, m);
      case Continues(t) =>
        if s.calls[t].id.Some? { RegisterMatched(s, t); } else { MatchedKept(s, e); }
      case GetsOutcome(t) => FinishMatched(s, t, s.futures[s.calls[t].id.value]);
      case GivesUp(t) => FinishMatched(s, t, None);
      case _ => MatchedKept(s, e);
    }
  }

  lemma {:induction false} MatchedHistory(s: State, events: seq<Event>)
    requires Matched(s) && QueueFits(s) && IsHistory(s, events)
    ensures Matched(Finally(s, events))
    decreases |events|
  {
    if events != [] {
      MatchedStep(s, events[0]);
      QueueFitsStep(s, events[0]);
      hide Matched, QueueFits, Next;
      MatchedHistory(Next(s, events[0]), events[1..]);
    }
  }

  /** The first answer to an identifier within a stretch of messages. */
  predicate IsFirstFor(messages: seq<Message>, from: nat, to: nat, id: string, i: int) {
    && from <= i < to <= |messages| && Answers(messages[i], id)
    && forall j :: from <= j < i ==> !Answers(messages[j], id)
  }

  /** What a caller gets by the message that answers it: the result of a response without
      an exception, the exception of one with it, or the code and text of an error, of
      which a dictionary may leave out either. */
  predicate Says(m: Message, id: string, outcome: Outcome) {
    match outcome
    case HasResult(result) => m == Response(id, None, result)
    case HasException(exception) => m.Response? && m.uniqueId == id && m.exception == Some(exception)
    case HasRpcError(code, text) =>
      && m.ErrorResponse? && m.uniqueId == id
      && match m.error
         case ErrorText(t) => code == 0 && text == t
         case ErrorDict(c, t) => (if c.Some? then code == c.value else code == 0) && (if t.Some? then text == t.value else text == "")
  }

  /** The outcome is what the first answer within a stretch of messages says, if any. */
  predicate IsFirstAnswer(messages: seq<Message>, from: nat, to: nat, id: string, outcome: Option<Outcome>)
    requires from <= to <= |messages|
  {
    match outcome
    case None => forall j :: from <= j < to ==> !Answers(messages[j], id)
    case Some(o) => (exists i :: from <= i < to && IsFirstFor(messages, from, to, id, i) && Says(messages[i], id, o))
  }

  lemma OutcomeSays(m: Message, id: string)
    requires Answers(m, id)
    ensures OutcomeOf(m).Some? && Says(m, id, OutcomeOf(m).value)
  {
  }

  lemma {:induction false} FirstOutcomeSays(messages: seq<Message>, from: nat, to: nat, id: string)
    requires from <= to <= |messages|
    ensures IsFirstAnswer(messages, from, to, id, FirstOutcome(messages[from..to], id))
    decreases if from <= to then to - from else 0
  {
    var part := messages[from..to];
    if from < to {
      assert part[0] == messages[from] && part[1..] == messages[from + 1..to];
      if Answers(messages[from], id) {
        OutcomeSays(messages[from], id);
        assert FirstOutcome(part, id) == OutcomeOf(messages[from]);
        hide *;
        FirstAtOnce(messages, from, to, id, OutcomeOf(messages[from]).value);
      } else {
        assert FirstOutcome(part, id) == FirstOutcome(messages[from + 1..to], id);
        FirstOutcomeSays(messages, from + 1, to, id);
        FirstLater(messages, from, to, id, FirstOutcome(part, id));
      }
    }
  }

  lemma FirstAtOnce(messages: seq<Message>, from: nat, to: nat, id: string, o: Outcome)
    requires from < to <= |messages| && Answers(messages[from], id) && Says(messages[from], id, o)
    ensures IsFirstAnswer(messages, from, to, id, Some(o))
  {
    hide Says, Answers;
    assert IsFirstFor(messages, from, to, id, from);
  }

  lemma FirstLater(messages: seq<Message>, from: nat, to: nat, id: string, outcome: Option<Outcome>)
    requires from < to <= |messages| && !Answers(messages[from], id)
    requires IsFirstAnswer(messages, from + 1, to, id, outcome)
    ensures IsFirstAnswer(messages, from, to, id, outcome)
  {
    hide Says;
    if outcome.Some? {
      var i :| from + 1 <= i < to && IsFirstFor(messages, from + 1, to, id, i) && Says(messages[i], id, outcome.value);
      forall j | from <= j < i
        ensures !Answers(messages[j], id)
      {
      }
      assert IsFirstFor(messages, from, to, id, i);
    }
  }

  /** Matching, over any interleaving of calls with distinct identifiers: a call that got
      an outcome got what the first answer to its own identifier handled while it was
      registered says; the future of a call that still waits holds that as soon as there
      is such an answer; and only calls that wait for a response are registered. */
  lemma CallsGetTheirFirstOutcome(events: seq<Event>)
    requires IsHistory(NEW_STATE, events)
    ensures var s := Finally(NEW_STATE, events);
      && (forall k :: 0 <= k < |s.finished| && s.finished[k].outcome.Some? ==>
           var f := s.finished[k];
           f.from <= f.to <= |s.messages| && IsFirstAnswer(s.messages, f.from, f.to, f.id, f.outcome))
      && (forall t :: t in s.calls && s.calls[t].Registered? ==>
           var Registered(id, from) := s.calls[t];
           && id.Some? && id.value in s.futures && from <= |s.messages|
           && IsFirstAnswer(s.messages, from, |s.messages|, id.value, s.futures[id.value]))
      && OnlyRegistered(s)
  {
    MatchedHistory(NEW_STATE, events);
    hide FirstOutcome, IsHistory, Finally, IsFirstAnswer, OnlyRegistered, DistinctIds;
    var s := Finally(NEW_STATE, events);
    forall k | 0 <= k < |s.finished| && s.finished[k].outcome.Some?
      ensures var f := s.finished[k];
        f.from <= f.to <= |s.messages| && IsFirstAnswer(s.messages, f.from, f.to, f.id, f.outcome)
    {
      var f := s.finished[k];
      assert FinishedFits(s, f);
      FirstOutcomeSays(s.messages, f.from, f.to, f.id);
    }
    forall t | t in s.calls && s.calls[t].Registered?
      ensures var Registered(id, from) := s.calls[t];
        && id.Some? && id.value in s.futures && from <= |s.messages|
        && IsFirstAnswer(s.messages, from, |s.messages|, id.value, s.futures[id.value])
    {
      assert CallFits(s, t);
      var from := s.calls[t].from;
      assert s.messages[from..|s.messages|] == s.messages[from..];
      FirstOutcomeSays(s.messages, from, |s.messages|, s.calls[t].id.value);
    }
  }

  predicate SomeAnswer(messages: seq<Message>, from: nat, id: string) {
    exists j :: from <= j < |messages| && Answers(messages[j], id)
  }

  /** At any time of any run a waiting call may go on with an outcome if and only if an
      answer to it was handled since it was registered, and then it ends with what the
      first one says; a call that gives up ends without an outcome. Either way its future
      is gone, so that later answers are stale. */
  lemma WaitingCallsEnd(events: seq<Event>, t: CallId)
    requires IsHistory(NEW_STATE, events)
    requires t in Finally(NEW_STATE, events).calls && Finally(NEW_STATE, events).calls[t].Registered?
    ensures var s := Finally(NEW_STATE, events);
      var Registered(id, from) := s.calls[t];
      && id.Some? && from <= |s.messages|
      && (Possible(s, GetsOutcome(t)) <==> SomeAnswer(s.messages, from, id.value))
      && (Possible(s, GetsOutcome(t)) ==>
           var s' := Next(s, GetsOutcome(t));
           && t !in s'.calls && id.value !in s'.futures && |s'.finished| == |s.finished| + 1
           && s'.finished[|s.finished|].outcome.Some?
           && IsFirstAnswer(s.messages, from, |s.messages|, id.value, s'.finished[|s.finished|].outcome))
      && Possible(s, GivesUp(t))
      && var s' := Next(s, GivesUp(t));
         && t !in s'.calls && id.value !in s'.futures
         && s'.finished == s.finished + [Finished(t, id.value, from, |s.messages|, None)]
  {
    CallsGetTheirFirstOutcome(events);
    var s := Finally(NEW_STATE, events);
    hide IsHistory, Finally, IsFirstFor, Says, OnlyRegistered, Answers;
    var Registered(id, from) := s.calls[t];
    assert IsFirstAnswer(s.messages, from, |s.messages|, id.value, s.futures[id.value]);
    if s.futures[id.value].Some? {
      AnswerThere(s.messages, from, id.value, s.futures[id.value]);
    }
  }

  lemma AnswerThere(messages: seq<Message>, from: nat, id: string, outcome: Option<Outcome>)
    requires from <= |messages| && outcome.Some? && IsFirstAnswer(messages, from, |messages|, id, outcome)
    ensures SomeAnswer(messages, from, id)
  {
    hide Says, Answers;
    var i :| from <= i < |messages| && IsFirstFor(messages, from, |messages|, id, i)
      && Says(messages[i], id, outcome.value);
    assert Answers(messages[i], id);
  }

  // ----- reply order ------------------------------------------------------

  function Replies(items: seq<Item>): seq<nat> {
    if items == [] then []
    else (if items[0].ReplyItem? then [items[0].response] else []) + Replies(items[1..])
  }

  /** The truthy results of two-way requests, in order of arrival. */
  function Due(handled: seq<Handled>): seq<nat> {
    if handled == [] then []
    else
      (if handled[0].response.Some? && !handled[0].oneWay then [handled[0].response.value] else [])
      + Due(handled[1..])
  }

  function Unsent(s: State): seq<Item> {
    (if s.outgoing.Some? then [s.outgoing.value] else []) + s.queue
  }

  lemma {:induction false} RepliesAppend(a: seq<Item>, b: seq<Item>)
    ensures Replies(a + b) == Replies(a) + Replies(b)
  {
    if a == [] {
      assert a + b == b;
    } else {
      assert (a + b)[1..] == a[1..] + b;
      RepliesAppend(a[1..], b);
      var x := if a[0].ReplyItem? then [a[0].response] else [];
      Regrouped(x, Replies(a[1..]), Replies(b));
    }
  }

  lemma {:induction false} DueSnoc(handled: seq<Handled>, h: Handled)
    ensures Due(handled + [h]) == Due(handled) + if h.response.Some? && !h.oneWay then [h.response.value] else []
  {
    if handled != [] {
      assert (handled + [h])[1..] == handled[1..] + [h];
      DueSnoc(handled[1..], h);
    }
  }

  /** Every reply due is on the wire or on its way there, in order. */
  predicate RepliesInOrder(s: State) {
    Replies(s.wire) + Replies(Unsent(s)) == Due(s.handled)
  }

  lemma RepliesMove(a: seq<Item>, x: seq<Item>, b: seq<Item>)
    ensures Replies(a) + Replies(x + b) == Replies(a + x) + Replies(b)
  {
    hide Replies;
    RepliesAppend(x, b);
    RepliesAppend(a, x);
    Regrouped(Replies(a), Replies(x), Replies(b));
  }

  lemma RepliesQueued(s: State, x: Item)
    requires RepliesInOrder(s)
    ensures var s' := s.(queue := s.queue + [x]);
      Replies(s'.wire) + Replies(Unsent(s')) == Due(s.handled) + (if x.ReplyItem? then [x.response] else [])
  {
    RepliesAppend(Unsent(s), [x]);
    assert Unsent(s.(queue := s.queue + [x])) == Unsent(s) + [x];
    var r := Replies([x]);
    Regrouped(Replies(s.wire), Replies(Unsent(s)), r);
  }

  lemma RepliesInOrderStep(s: State, e: Event)
    requires RepliesInOrder(s) && Possible(s, e)
    ensures RepliesInOrder(Next(s, e))
  {
    hide Replies, Due, Without, Resolve, OutcomeOf;
    var s' := Next(s, e);
    match e {
      case Calls(t, _) =>
        RepliesQueued(s, RequestItem(t));
        assert Unsent(s') == Unsent(s.(queue := s'.queue));
        assert Due(s.handled) + [] == Due(s.handled);
      case Leaves =>
        RepliesMove(s.wire, [s.outgoing.value], s.queue);
        assert Unsent(s') == s.queue;
      case Withdraws(t) =>
        WithoutReplies(s.queue, t);
        var out := if s.outgoing.Some? then [s.outgoing.value] else [];
        RepliesAppend(out, s.queue);
        RepliesAppend(out, Without(s.queue, t));
      case Handles(response) =>
        DueSnoc(s.handled, Handled(s.inbound.oneWay, response));
        if response.Some? && !s.inbound.oneWay {
          RepliesQueued(s, ReplyItem(response.value));
          assert Unsent(s') == Unsent(s.(queue := s'.queue));
        } else {
          assert Due(s.handled) + [] == Due(s.handled);
          assert Unsent(s') == Unsent(s);
        }
      case _ =>
        assert Unsent(s') == Unsent(s);
    }
  }

  lemma {:induction false} RepliesHistory(s: State, events: seq<Event>)
    requires RepliesInOrder(s) && IsHistory(s, events)
    ensures RepliesInOrder(Finally(s, events))
    decreases |events|
  {
    if events != [] {
      RepliesInOrderStep(s, events[0]);
      hide RepliesInOrder, Next;
      RepliesHistory(Next(s, events[0]), events[1..]);
    }
  }

  /** Which inbound requests were one-way, in order of arrival. */
  function OneWayFlags(messages: seq<Message>): seq<bool> {
    if messages == [] then []
    else (if messages[0].Request? then [messages[0].oneWay] else []) + OneWayFlags(messages[1..])
  }

  lemma {:induction false} OneWayFlagsSnoc(messages: seq<Message>, m: Message)
    ensures OneWayFlags(messages + [m]) == OneWayFlags(messages) + if m.Request? then [m.oneWay] else []
  {
    if messages == [] {
      assert [m][1..] == [] && [] + [m] == [m];
    } else {
      assert (messages + [m])[1..] == messages[1..] + [m];
      OneWayFlagsSnoc(messages[1..], m);
      Regrouped(if messages[0].Request? then [messages[0].oneWay] else [], OneWayFlags(messages[1..]),
        if m.Request? then [m.oneWay] else []);
    }
  }

  function FlagsOf(handled: seq<Handled>): seq<bool> {
    seq(|handled|, i requires 0 <= i < |handled| => handled[i].oneWay)
  }

  lemma FlagsSnoc(handled: seq<Handled>, h: Handled)
    ensures FlagsOf(handled + [h]) == FlagsOf(handled) + [h.oneWay]
  {
  }

  /** The requests handled, and the one being handled, are those that arrived. */
  predicate HandledInOrder(s: State) {
    OneWayFlags(s.messages) == FlagsOf(s.handled) + if s.inbound.Handling? then [s.inbound.oneWay] else []
  }

  /** A reply waits in the queue exactly while its request is not done with. */
  predicate ReplyWaits(s: State) {
    |Replies(s.queue)| == if s.inbound.Replying? then 1 else 0
  }

  lemma ReplyWaitsStep(s: State, e: Event)
    requires ReplyWaits(s) && Possible(s, e)
    ensures ReplyWaits(Next(s, e))
    ensures e.QueueIsTaken? && s.queue[0].ReplyItem? ==> s.inbound.Replying?
  {
    match e {
      case Calls(t, _) =>
        RepliesAppend(s.queue, [RequestItem(t)]);
        assert [RequestItem(t)][1..] == [];
      case Withdraws(t) =>
        WithoutReplies(s.queue, t);
      case Handles(response) =>
        if response.Some? {
          RepliesAppend(s.queue, [ReplyItem(response.value)]);
          assert [ReplyItem(response.value)][1..] == [];
        }
      case _ =>
    }
    hide Without, Resolve, OutcomeOf;
  }

  lemma HandledInOrderStep(s: State, e: Event)
    requires HandledInOrder(s) && Possible(s, e)
    requires e.QueueIsTaken? && s.queue[0].ReplyItem? ==> s.inbound.Replying?
    ensures HandledInOrder(Next(s, e))
  {
    var flags := FlagsOf(s.handled);
    if e.Receives? { OneWayFlagsSnoc(s.messages, e.message); }
    if e.Handles? { FlagsSnoc(s.handled, Handled(s.inbound.oneWay, e.response)); }
    hide OneWayFlags, FlagsOf, Without, Resolve, OutcomeOf;
    assert flags + [] == flags;
    assert OneWayFlags(s.messages) + [] == OneWayFlags(s.messages);
    assert e.Handles? ==> (flags + [s.inbound.oneWay]) + [] == flags + [s.inbound.oneWay];
  }

  lemma {:induction false} HandledHistory(s: State, events: seq<Event>)
    requires HandledInOrder(s) && ReplyWaits(s) && IsHistory(s, events)
    ensures HandledInOrder(Finally(s, events)) && ReplyWaits(Finally(s, events))
    decreases |events|
  {
    if events != [] {
      ReplyWaitsStep(s, events[0]);
      hide HandledInOrder, ReplyWaits, Next;
      HandledInOrderStep(s, events[0]);
      HandledHistory(Next(s, events[0]), events[1..]);
    }
  }

  lemma {:induction false} DueAppend(a: seq<Handled>, b: seq<Handled>)
    ensures Due(a + b) == Due(a) + Due(b)
  {
    if a == [] {
      assert a + b == b;
    } else {
      assert (a + b)[1..] == a[1..] + b;
      DueAppend(a[1..], b);
      var h := a[0];
      Regrouped(if h.response.Some? && !h.oneWay then [h.response.value] else [], Due(a[1..]), Due(b));
    }
  }

  lemma DueOnce(h: Handled)
    ensures Due([h]) == if h.response.Some? && !h.oneWay then [h.response.value] else []
  {
    assert [h][1..] == [];
  }

  /** Replies are due one for each two-way request with a truthy result, in order. */
  lemma {:induction false} DueExactly(a: seq<Handled>, b: seq<Handled>, response: nat)
    ensures Due([Handled(false, Some(response))]) == [response]
    ensures Due([Handled(true, Some(response))]) == Due([Handled(true, None)]) == Due([Handled(false, None)]) == []
    ensures Due(a + b) == Due(a) + Due(b)
  {
    DueAppend(a, b);
    DueOnce(Handled(false, Some(response)));
    DueOnce(Handled(true, Some(response)));
    DueOnce(Handled(true, None));
    DueOnce(Handled(false, None));
  }

  /** Reply order: the replies on the wire are a prefix of the truthy results for the
      two-way requests in order of arrival, at most one per request and none for one-way
      requests; the rest of them is still waiting to be sent. What was handled, and is
      being handled, are the requests that arrived. */
  lemma RepliesLeaveInOrder(events: seq<Event>)
    requires IsHistory(NEW_STATE, events)
    ensures var s := Finally(NEW_STATE, events);
      && Replies(s.wire) <= Due(s.handled)
      && Replies(s.wire) + Replies(Unsent(s)) == Due(s.handled)
      && |Due(s.handled)| <= |s.handled|
      && OneWayFlags(s.messages) ==
           FlagsOf(s.handled) + if s.inbound.Handling? then [s.inbound.oneWay] else []
  {
    RepliesHistory(NEW_STATE, events);
    HandledHistory(NEW_STATE, events);
    DueShort(Finally(NEW_STATE, events).handled);
  }

  lemma {:induction false} DueShort(handled: seq<Handled>)
    ensures |Due(handled)| <= |handled|
  {
    if handled != [] { DueShort(handled[1..]); }
  }
}
