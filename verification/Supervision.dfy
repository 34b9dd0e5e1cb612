/** `supervise`: which policy calls it makes and when it sleeps and stops, and in which
    state of the connection the calls are made while other tasks close it. */
module Supervision {
  import opened Common
  import opened Connection
  import opened Lifecycle

  // ----- the loop ---------------------------------------------------------

  datatype PolicyCall = OpenCall | CloseCall | ErrorCall

  /** What the policy may answer to a `close` or error call. `True` is a number here. */
  datatype Answer = AnswersFalse | AnswersNone | AnswersTrue | Number(seconds: real) | OtherValue | Raises

  /** One turn of the loop as the environment decides it: whether `open` succeeds, the
      call that announces it returns, and the wait ends without an exception. */
  datatype Turn = Turn(opens: bool, informs: bool, ends: bool, answer: Answer)

  datatype Step = Policy(call: PolicyCall) | Sleep(seconds: real)

  datatype Ending = Stopped | PolicyError | ActionError | SleepError | Running

  datatype Result = Result(steps: seq<Step>, ending: Ending, turns: nat)

  function DelayOf(answer: Answer): Option<real> {
    match answer
    case AnswersTrue => Some(1.0)
    case Number(seconds) => Some(seconds)
    case _ => None
  }

  /** The loop of `supervise`, for as many turns as are given. */
  method Supervise(turns: seq<Turn>) returns (r: Result)
    ensures r == Supervised(turns)
  {
    r := Result([], Running, 0);
    assert turns[0..] == turns;
    assert r.steps + Supervised(turns).steps == Supervised(turns).steps;
    while r.turns < |turns|
      invariant r.turns <= |turns| && r.ending == Running
      invariant Supervised(turns) == Then(r, Supervised(turns[r.turns..]))
      decreases |turns| - r.turns
    {
      ThenStep(r, turns, r.turns);
      var x := TakeTurn(turns[r.turns]);
      r := Result(r.steps + x.steps, x.ending, r.turns + 1);
      if x.ending != Running {
        return;
      }
    }
    assert turns[|turns|..] == [];
    assert r.steps + [] == r.steps;
  }

  /** The body of that loop. The `open` call of the policy is made inside the `try`
      block, so an exception that it raises becomes an error call; `sleep` does not
      accept negative delays. */
  method TakeTurn(turn: Turn) returns (x: Result)
    ensures x == TurnResult(turn)
  {
    var steps := [];
    var normal := false;
    if turn.opens {
      steps := steps + [Policy(OpenCall)];
      if turn.informs {
        normal := turn.ends;
      }
    }
    steps := steps + [Policy(if normal then CloseCall else ErrorCall)];
    assert steps == AsSteps(TurnCalls(turn));
    assert steps + [] == steps;
    if turn.answer == Raises {
      return Result(steps, PolicyError, 1);
    } else if turn.answer == AnswersFalse || turn.answer == AnswersNone {
      return Result(steps, Stopped, 1);
    } else if turn.answer.Number? || turn.answer == AnswersTrue {
      var delay := if turn.answer.Number? then turn.answer.seconds else 1.0;
      if delay < 0.0 {
        return Result(steps, SleepError, 1);
      }
      return Result(steps + [Sleep(delay)], Running, 1);
    }
    x := Result(steps, ActionError, 1);
  }

  function TurnCalls(turn: Turn): seq<PolicyCall> {
    if !turn.opens then [ErrorCall]
    else [OpenCall, if turn.informs && turn.ends then CloseCall else ErrorCall]
  }

  function AsSteps(calls: seq<PolicyCall>): seq<Step> {
    seq(|calls|, i requires 0 <= i < |calls| => Policy(calls[i]))
  }

  function EndingOf(answer: Answer): Ending {
    match answer
    case AnswersFalse => Stopped
    case AnswersNone => Stopped
    case Raises => PolicyError
    case OtherValue => ActionError
    case _ => if DelayOf(answer).value < 0.0 then SleepError else Running
  }

  function TurnResult(turn: Turn): Result {
    var ending := EndingOf(turn.answer);
    Result(AsSteps(TurnCalls(turn)) + (if ending == Running then [Sleep(DelayOf(turn.answer).value)] else []), ending, 1)
  }

  function Then(r: Result, s: Result): Result {
    if r.ending == Running then Result(r.steps + s.steps, s.ending, r.turns + s.turns) else r
  }

  function Supervised(turns: seq<Turn>): Result {
    if turns == [] then Result([], Running, 0) else Then(TurnResult(turns[0]), Supervised(turns[1..]))
  }

  lemma ThenStep(r: Result, turns: seq<Turn>, k: nat)
    requires k < |turns| && r.ending == Running
    ensures Then(r, Supervised(turns[k..])) ==
      var x := TurnResult(turns[k]);
      Then(Result(r.steps + x.steps, x.ending, r.turns + 1), Supervised(turns[k + 1..]))
  {
    assert turns[k..][1..] == turns[k + 1..];
    var x, y := TurnResult(turns[k]), Supervised(turns[k + 1..]);
    assert r.steps + (x.steps + y.steps) == (r.steps + x.steps) + y.steps;
  }

  // ----- the language of policy calls -------------------------------------

  function PolicyCalls(steps: seq<Step>): seq<PolicyCall> {
    if steps == [] then []
    else (if steps[0].Policy? then [steps[0].call] else []) + PolicyCalls(steps[1..])
  }

  function Sleeps(steps: seq<Step>): seq<real> {
    if steps == [] then []
    else (if steps[0].Sleep? then [steps[0].seconds] else []) + Sleeps(steps[1..])
  }

  /** (open close | open error | error)* */
  predicate InLanguage(calls: seq<PolicyCall>) {
    || calls == []
    || (calls[0] == ErrorCall && InLanguage(calls[1..]))
    || (|calls| >= 2 && calls[0] == OpenCall && calls[1] != OpenCall && InLanguage(calls[2..]))
  }

  /** The delays that were answered, in order. */
  function Delays(turns: seq<Turn>): seq<real> {
    if turns == [] then []
    else (if DelayOf(turns[0].answer).Some? then [DelayOf(turns[0].answer).value] else []) + Delays(turns[1..])
  }

  lemma {:induction false} PolicyCallsAppend(a: seq<Step>, b: seq<Step>)
    ensures PolicyCalls(a + b) == PolicyCalls(a) + PolicyCalls(b)
  {
    if a == [] {
      assert a + b == b;
    } else {
      assert (a + b)[1..] == a[1..] + b;
      PolicyCallsAppend(a[1..], b);
      var first := if a[0].Policy? then [a[0].call] else [];
      Regrouped(first, PolicyCalls(a[1..]), PolicyCalls(b));
    }
  }

  lemma {:induction false} SleepsAppend(a: seq<Step>, b: seq<Step>)
    ensures Sleeps(a + b) == Sleeps(a) + Sleeps(b)
  {
    if a == [] {
      assert a + b == b;
    } else {
      assert (a + b)[1..] == a[1..] + b;
      SleepsAppend(a[1..], b);
      var first := if a[0].Sleep? then [a[0].seconds] else [];
      Regrouped(first, Sleeps(a[1..]), Sleeps(b));
    }
  }

  lemma StepsAppend(a: seq<Step>, b: seq<Step>)
    ensures PolicyCalls(a + b) == PolicyCalls(a) + PolicyCalls(b)
    ensures Sleeps(a + b) == Sleeps(a) + Sleeps(b)
  {
    PolicyCallsAppend(a, b);
    SleepsAppend(a, b);
  }

  lemma TurnSteps(turn: Turn)
    ensures PolicyCalls(TurnResult(turn).steps) == TurnCalls(turn)
    ensures Sleeps(TurnResult(turn).steps) ==
      if TurnResult(turn).ending == Running then [DelayOf(turn.answer).value] else []
  {
    var steps := AsSteps(TurnCalls(turn));
    var rest := TurnResult(turn).steps[|steps|..];
    assert TurnResult(turn).steps == steps + rest;
    StepsAppend(steps, rest);
    if turn.opens {
      assert steps == [steps[0]] + [steps[1]];
      StepsAppend([steps[0]], [steps[1]]);
    }
  }

  /** Every run that is not cancelled calls the policy in the language
      (open close | open error | error)*. */
  lemma {:induction false} PolicyLanguage(turns: seq<Turn>)
    ensures InLanguage(PolicyCalls(Supervised(turns).steps))
  {
    if turns != [] {
      var x, y := TurnResult(turns[0]), Supervised(turns[1..]);
      PolicyLanguage(turns[1..]);
      TurnSteps(turns[0]);
      StepsAppend(x.steps, y.steps);
      LanguageStep(turns[0], []);
      LanguageStep(turns[0], PolicyCalls(y.steps));
      assert TurnCalls(turns[0]) + [] == TurnCalls(turns[0]);
      hide TurnResult, PolicyCalls, InLanguage, TurnCalls;
    }
  }

  /** It goes on exactly while the answers are delays that `sleep` accepts, and ends the
      way the first other answer says: False and None stop it, everything else raises. */
  lemma {:induction false} SuperviseEnds(turns: seq<Turn>)
    ensures var r := Supervised(turns);
      && r.turns <= |turns|
      && (forall i :: 0 <= i < r.turns - 1 ==> EndingOf(turns[i].answer) == Running)
      && (r.ending == Running ==> r.turns == |turns|)
      && (r.turns > 0 ==> EndingOf(turns[r.turns - 1].answer) == r.ending)
      && (r.turns == 0 <==> turns == [])
  {
    if turns != [] {
      SuperviseEnds(turns[1..]);
      hide EndingOf;
      assert forall i :: 0 < i < |turns| ==> turns[i] == turns[1..][i - 1];
    }
  }

  /** True and numbers that are not negative. */
  predicate IsDelay(answer: Answer) {
    answer.AnswersTrue? || (answer.Number? && answer.seconds >= 0.0)
  }

  /** The same, answer by answer. */
  lemma AnswersDecide(turns: seq<Turn>)
    requires turns != []
    ensures var r := Supervised(turns);
      && 0 < r.turns <= |turns|
      && (forall i :: 0 <= i < r.turns - 1 ==> IsDelay(turns[i].answer))
      && var last := turns[r.turns - 1].answer;
         && (r.ending == Running <==> IsDelay(last))
         && (r.ending == Stopped <==> last == AnswersFalse || last == AnswersNone)
         && (r.ending == PolicyError <==> last == Raises)
         && (r.ending == ActionError <==> last == OtherValue)
         && (r.ending == SleepError <==> last.Number? && last.seconds < 0.0)
         && (r.ending == Running ==> r.turns == |turns|)
  {
    SuperviseEnds(turns);
    var r := Supervised(turns);
    assert forall i :: 0 <= i < r.turns - 1 ==> EndingOf(turns[i].answer) == Running;
    hide Supervised;
  }

  // ----- turn by turn -----------------------------------------------------

  /** The number of steps made before a turn: one or two calls, and a sleep, for each. */
  function StepsBefore(turns: seq<Turn>, i: nat): nat
    requires i <= |turns|
  {
    if i == 0 then 0 else (if turns[0].opens then 3 else 2) + StepsBefore(turns[1..], i - 1)
  }

  /** The steps from `p` on are those of the given turn. */
  predicate ShowsTurn(steps: seq<Step>, p: nat, turn: Turn, sleeps: bool, isLast: bool) {
    var q := if turn.opens then p + 2 else p + 1;
    && q <= |steps|
    && (turn.opens ==> steps[p] == Policy(OpenCall))
    && steps[q - 1] == Policy(if turn.opens && turn.informs && turn.ends then CloseCall else ErrorCall)
    && (sleeps ==> q < |steps| && steps[q] == Sleep(if turn.answer.Number? then turn.answer.seconds else 1.0))
    && (isLast ==> |steps| == if sleeps then q + 1 else q)
  }

  lemma FirstTurn(turn: Turn)
    ensures var x := TurnResult(turn);
      && x.turns == 1 && ShowsTurn(x.steps, 0, turn, x.ending == Running, true)
  {
  }

  lemma ShownLater(steps: seq<Step>, p: nat, turn: Turn, sleeps: bool, isLast: bool, before: seq<Step>)
    requires ShowsTurn(steps, p, turn, sleeps, isLast)
    ensures ShowsTurn(before + steps, |before| + p, turn, sleeps, isLast)
  {
  }

  lemma ShownFirst(steps: seq<Step>, turn: Turn, after: seq<Step>, isLast: bool)
    requires ShowsTurn(steps, 0, turn, true, true) && (isLast ==> after == [])
    ensures ShowsTurn(steps + after, 0, turn, true, isLast)
  {
  }

  /** A run is its first turn and, if that ends with a sleep, the run of the others. */
  lemma FirstAndRest(turns: seq<Turn>)
    requires turns != []
    ensures var x, y, r := TurnResult(turns[0]), Supervised(turns[1..]), Supervised(turns);
      && r.turns <= |turns| && x.turns == 1
      && if x.ending == Running then
           && r.steps == x.steps + y.steps && r.ending == y.ending && r.turns == 1 + y.turns
           && |x.steps| == (if turns[0].opens then 3 else 2)
           && (y.turns == 0 ==> y.steps == [] && y.ending == Running)
         else r == x
  {
    SuperviseEnds(turns);
    SuperviseEnds(turns[1..]);
  }

  /** Every turn that is made calls the policy with "open" if and only if the opening
      succeeds, then with "close" if and only if besides nothing raises and with an error
      otherwise, and then sleeps for the answer; nothing else is done. */
  lemma {:induction false} TurnByTurn(turns: seq<Turn>, i: nat)
    requires i < Supervised(turns).turns
    ensures var r := Supervised(turns);
      && r.turns <= |turns|
      && ShowsTurn(r.steps, StepsBefore(turns, i), turns[i],
           i < r.turns - 1 || r.ending == Running, i == r.turns - 1)
    decreases i
  {
    assert turns != [] by { assert Supervised([]).turns == 0; }
    FirstAndRest(turns);
    assert StepsBefore(turns, i) == if i == 0 then 0 else (if turns[0].opens then 3 else 2) + StepsBefore(turns[1..], i - 1);
    hide *;
    var x, y, r := TurnResult(turns[0]), Supervised(turns[1..]), Supervised(turns);
    if i > 0 {
      assert turns[i] == turns[1..][i - 1];
      TurnByTurn(turns[1..], i - 1);
      ShownLater(y.steps, StepsBefore(turns[1..], i - 1), turns[i],
        i < r.turns - 1 || r.ending == Running, i == r.turns - 1, x.steps);
    } else {
      FirstTurn(turns[0]);
      if x.ending == Running { ShownFirst(x.steps, turns[0], y.steps, r.turns == 1); }
    }
  }

  lemma DelaysOfFirst(turns: seq<Turn>, k: nat)
    requires k <= |turns|
    ensures Delays(turns[..k]) ==
      if k == 0 then []
      else
        (if DelayOf(turns[0].answer).Some? then [DelayOf(turns[0].answer).value] else [])
        + Delays(turns[1..][..k - 1])
  {
    if k > 0 {
      assert turns[..k][1..] == turns[1..][..k - 1] && turns[..k][0] == turns[0];
    }
  }

  /** The turns of a run whose answers were slept for. */
  function Slept(r: Result): nat {
    if r.ending == SleepError && r.turns > 0 then r.turns - 1 else r.turns
  }

  lemma SleepsOnce(turn: Turn)
    ensures var x := TurnResult(turn);
      && x.turns == 1
      && Sleeps(x.steps) == Delays([turn][..Slept(x)])
      && (x.ending == Running ==> Sleeps(x.steps) == [DelayOf(turn.answer).value] && DelayOf(turn.answer).Some?)
  {
    TurnSteps(turn);
    hide Sleeps;
    DelaysOfFirst([turn], Slept(TurnResult(turn)));
    assert Delays([turn][1..][..0]) == [];
  }

  /** It sleeps exactly the numeric answers, once each and in order. */
  lemma {:induction false} SuperviseSleeps(turns: seq<Turn>)
    ensures var r := Supervised(turns);
      && r.turns <= |turns| && (r.ending == SleepError ==> r.turns > 0)
      && Sleeps(r.steps) == Delays(turns[..Slept(r)])
  {
    if turns != [] {
      var x, y, r := TurnResult(turns[0]), Supervised(turns[1..]), Supervised(turns);
      SleepsOnce(turns[0]);
      assert r == Then(x, y);
      hide Supervised, TurnResult, Sleeps, Delays, DelayOf;
      if x.ending == Running {
        SuperviseSleeps(turns[1..]);
        StepsAppend(x.steps, y.steps);
        assert r.turns == 1 + y.turns && Slept(r) == 1 + Slept(y);
        DelaysOfFirst(turns, 1 + Slept(y));
      } else if Slept(r) == 0 {
        assert turns[..0] == [turns[0]][..0];
      } else {
        assert turns[..1] == [turns[0]][..1];
      }
    }
  }

  // ----- exceptions of the policy -----------------------------------------

  /** The call that tells the policy about the opening raises. */
  predicate InformingRaises(turn: Turn) {
    turn.opens && !turn.informs
  }

  /** The loop as documented, which passes on every exception that the policy raises. */
  function Documented(turns: seq<Turn>): Result {
    if turns == [] then Result([], Running, 0)
    else if InformingRaises(turns[0]) then Result([Policy(OpenCall)], PolicyError, 1)
    else Then(TurnResult(turns[0]), Documented(turns[1..]))
  }

  /** An "open" call that raises is followed by an error call, and the loop goes on. */
  lemma InformingErrorIsFedBack()
    ensures var r := Supervised([Turn(true, false, true, Number(1.0))]);
      && r.ending == Running
      && r.steps == [Policy(OpenCall), Policy(ErrorCall), Sleep(1.0)]
  {
    var turns := [Turn(true, false, true, Number(1.0))];
    assert turns[1..] == [];
    assert AsSteps([OpenCall, ErrorCall]) == [Policy(OpenCall), Policy(ErrorCall)];
  }

  /** An exception of the policy ends the loop exactly when a `close` or error call
      raised it; one of an "open" call never does. */
  lemma {:induction false} PolicyErrorExactly(turns: seq<Turn>)
    ensures var r := Supervised(turns);
      && r.turns <= |turns|
      && (r.ending == PolicyError <==> exists i :: 0 <= i < r.turns && turns[i].answer == Raises)
  {
    SuperviseEnds(turns);
    var r := Supervised(turns);
    if i :| 0 <= i < r.turns && turns[i].answer == Raises {
      assert EndingOf(turns[i].answer) == PolicyError;
    }
    if r.ending == PolicyError {
      assert turns[r.turns - 1].answer == Raises;
    }
  }

  lemma ThenCancels(x: Result, y: Result, z: Result)
    requires x.ending == Running && Then(x, y) == Then(x, z)
    ensures y == z
  {
    assert y.steps == (x.steps + y.steps)[|x.steps|..] == (x.steps + z.steps)[|x.steps|..] == z.steps;
  }

  /** The loop does what is documented if and only if no "open" call made in it raises. */
  lemma {:induction false} DocumentedExactly(turns: seq<Turn>)
    ensures var r := Supervised(turns);
      && r.turns <= |turns|
      && (r == Documented(turns) <==> forall i :: 0 <= i < r.turns ==> !InformingRaises(turns[i]))
  {
    if turns != [] {
      var x, y, r := TurnResult(turns[0]), Supervised(turns[1..]), Supervised(turns);
      DocumentedExactly(turns[1..]);
      if InformingRaises(turns[0]) {
        assert r.steps != [Policy(OpenCall)] by {
          assert |x.steps| >= 2 && |r.steps| >= |x.steps|;
        }
        assert 0 < r.turns;
      } else if x.ending == Running {
        hide TurnResult, InformingRaises;
        assert forall i :: 0 < i < |turns| ==> turns[i] == turns[1..][i - 1];
        if r == Documented(turns) {
          ThenCancels(x, y, Documented(turns[1..]));
        }
        assert forall i :: 0 <= i < y.turns ==> turns[1..][i] == turns[i + 1];
      }
    }
  }

  /** Every word of the language is what the policy sees in some run. */
  lemma {:induction false} EveryWordIsARun(calls: seq<PolicyCall>) returns (turns: seq<Turn>)
    requires InLanguage(calls)
    ensures PolicyCalls(Supervised(turns).steps) == calls && Supervised(turns).ending == Running
    decreases |calls|
  {
    if calls == [] {
      return [];
    }
    var turn, n :=
      if calls[0] == ErrorCall then Turn(false, false, false, Number(0.0))
      else Turn(true, true, calls[1] == CloseCall, Number(0.0)),
      if calls[0] == ErrorCall then 1 else 2;
    assert InLanguage(calls[n..]) && calls[..n] == TurnCalls(turn) && TurnResult(turn).ending == Running;
    hide InLanguage, TurnCalls, TurnResult;
    var rest := EveryWordIsARun(calls[n..]);
    turns := [turn] + rest;
    assert turns[0] == turn && turns[1..] == rest;
    assert Supervised(turns) == Then(TurnResult(turn), Supervised(rest));
    TurnSteps(turn);
    StepsAppend(TurnResult(turn).steps, Supervised(rest).steps);
    assert calls == calls[..n] + calls[n..];
  }

  lemma LanguageStep(turn: Turn, calls: seq<PolicyCall>)
    requires InLanguage(calls)
    ensures InLanguage(TurnCalls(turn) + calls)
  {
    var all := TurnCalls(turn) + calls;
    assert all[|TurnCalls(turn)|..] == calls;
  }

  // ----- next to other tasks ----------------------------------------------

  /** A policy call, the state it saw and the number of signals sent before it. */
  datatype Record = Record(call: PolicyCall, state: ConnectionState, signals: nat)

  datatype Where =
    | Resting              // about to call `open`
    | Opening              // its `open` is in flight
    | Waiting(woken: bool) // for the disconnection, or for its task as well
    | Asleep               // sleeping or finished

  /** A supervised connection with its supervisor, who is call number 0, and whatever
      other calls are made on the connection. */
  datatype State = State(sys: System, place: Where, records: seq<Record>, hasTask: bool)

  const SUPERVISOR: CallId := 0

  datatype Event =
    | Others(action: Action)                         // steps of other calls, which never open
    | Opens(informs: bool)                           // the supervisor calls `open`
    | Proceeds(action: Action, informs: bool)        // its `open` takes a step
    | WaitEnds(normally: bool)                       // the wait or the task is over
    | WakesUp                                        // from the sleep

  predicate Possible(s: State, e: Event) {
    match e
    case Others(action) =>
      Enabled(s.sys, action) && action.call != SUPERVISOR && !action.CallOpen?
    case Opens(_) => s.place == Resting && Enabled(s.sys, CallOpen(SUPERVISOR))
    case Proceeds(action, _) =>
      && s.place == Opening && Enabled(s.sys, action) && action.call == SUPERVISOR
      && (action.Resume? || action.EndOpen?)
    case WaitEnds(normally) =>
      s.place.Waiting? && (s.hasTask || (s.place.woken && normally))
    case WakesUp => s.place == Asleep
  }

  function Noted(s: State, sys: System, calls: seq<PolicyCall>): seq<Record> {
    s.records + seq(|calls|, i requires 0 <= i < |calls| => Record(calls[i], sys.conn.state, |sys.conn.signals|))
  }

  /** What follows a successful `open` without giving up control. */
  function Opened(s: State, sys: System, informs: bool): State {
    if informs then
      s.(sys := sys, records := Noted(s, sys, [OpenCall]), place := Waiting(sys.conn.isDisconnected))
    else
      s.(sys := sys, records := Noted(s, sys, [OpenCall, ErrorCall]), place := Asleep)
  }

  function Next(s: State, e: Event): State
    requires Possible(s, e)
  {
    match e
    case Others(action) =>
      var sys := Apply(s.sys, action);
      s.(sys := sys, place := if s.place.Waiting? then Waiting(s.place.woken || sys.conn.isDisconnected) else s.place)
    case Opens(informs) =>
      var sys := Apply(s.sys, CallOpen(SUPERVISOR));
      if Reaches(s.sys, CallOpen(SUPERVISOR)) == Returned then Opened(s, sys, informs)
      else s.(sys := sys, place := Opening)
    case Proceeds(action, informs) =>
      var sys := Apply(s.sys, action);
      if Reaches(s.sys, action) != Returned then s.(sys := sys)
      else if action == EndOpen(SUPERVISOR, false) then
        s.(sys := sys, records := Noted(s, sys, [ErrorCall]), place := Asleep)
      else Opened(s, sys, informs)
    case WaitEnds(normally) =>
      s.(records := Noted(s, s.sys, [if normally then CloseCall else ErrorCall]), place := Asleep)
    case WakesUp => s.(place := Resting)
  }

  predicate IsHistory(s: State, events: seq<Event>)
    decreases |events|
  {
    events != [] ==> Possible(s, events[0]) && IsHistory(Next(s, events[0]), events[1..])
  }

  function Finally(s: State, events: seq<Event>): State
    requires IsHistory(s, events)
    decreases |events|
  {
    if events == [] then s else Finally(Next(s, events[0]), events[1..])
  }

  /** The connection entered DISCONNECTED after the first `from` signals. */
  predicate WentDown(signals: seq<Signal>, from: nat) {
    exists i :: from <= i < |signals| && signals[i] == DisconnectedSignal
  }

  /** Every `open` call sees CONNECTED, and without a task every `close` call comes after
      an entry into DISCONNECTED since the `open` call right before it. */
  predicate RecordFits(s: State, i: nat)
    requires i < |s.records|
  {
    && (s.records[i].call == OpenCall ==> s.records[i].state == Connected)
    && (s.records[i].call == CloseCall && !s.hasTask ==>
         i > 0 && s.records[i - 1].call == OpenCall && WentDown(s.sys.conn.signals, s.records[i - 1].signals))
  }

  /** Nobody else opens, and a wait that is over was ended by a disconnection. */
  predicate Supervising(s: State) {
    && Consistent(s.sys)
    && (forall t :: t in s.sys.calls && s.sys.calls[t].at in {JoinOpen, WaitThenOpen, InOpen} ==> t == SUPERVISOR)
    && (SUPERVISOR in s.sys.calls <==> s.place == Opening)
    && (s.place == Opening ==> s.sys.calls[SUPERVISOR].at in {WaitThenOpen, InOpen})
    && (forall i :: 0 <= i < |s.records| ==> RecordFits(s, i))
    && (s.place.Waiting? ==>
         && s.records != [] && s.records[|s.records| - 1].call == OpenCall
         && (s.place.woken ==> WentDown(s.sys.conn.signals, s.records[|s.records| - 1].signals))
         && (!s.place.woken ==>
              !s.sys.conn.isDisconnected && s.records[|s.records| - 1].signals <= |s.sys.conn.signals|))
  }

  lemma Falls(c: Conn, newState: ConnectionState)
    requires FlagsAgree(c) && !c.isDisconnected && SetState(c, newState).isDisconnected
    ensures WentDown(SetState(c, newState).signals, |c.signals|)
  {
    var signals := SetState(c, newState).signals;
    assert signals[|signals| - 1] == DisconnectedSignal;
  }

  lemma WentDownLonger(a: seq<Signal>, b: seq<Signal>, from: nat)
    requires a <= b
    ensures WentDown(a, from) ==> WentDown(b, from)
  {
    if WentDown(a, from) {
      var i :| from <= i < |a| && a[i] == DisconnectedSignal;
      assert b[i] == DisconnectedSignal;
    }
  }

  /** Records stay in order while the connection goes on. */
  lemma RecordsKept(s: State, sys: System, place: Where)
    requires forall i :: 0 <= i < |s.records| ==> RecordFits(s, i)
    requires s.sys.conn.signals <= sys.conn.signals
    ensures forall i :: 0 <= i < |s.records| ==> RecordFits(s.(sys := sys, place := place), i)
  {
    hide WentDown;
    forall i | 0 <= i < |s.records|
      ensures RecordFits(s.(sys := sys, place := place), i)
    {
      assert RecordFits(s, i);
      if i > 0 { WentDownLonger(s.sys.conn.signals, sys.conn.signals, s.records[i - 1].signals); }
    }
  }

  lemma RecordsAppend(s: State, calls: seq<PolicyCall>, place: Where)
    requires forall i :: 0 <= i < |s.records| ==> RecordFits(s, i)
    requires forall c :: c in calls && c == OpenCall ==> s.sys.conn.state == Connected
    requires CloseCall in calls && !s.hasTask ==>
      calls == [CloseCall] && s.records != [] && s.records[|s.records| - 1].call == OpenCall
      && WentDown(s.sys.conn.signals, s.records[|s.records| - 1].signals)
    ensures var s' := s.(records := Noted(s, s.sys, calls), place := place);
      forall i :: 0 <= i < |s'.records| ==> RecordFits(s', i)
  {
    hide WentDown;
    var s' := s.(records := Noted(s, s.sys, calls), place := place);
    forall i | 0 <= i < |s'.records|
      ensures RecordFits(s', i)
    {
      if i < |s.records| {
        assert RecordFits(s, i);
      } else {
        assert s'.records[i].call == calls[i - |s.records|] && calls[i - |s.records|] in calls;
        assert i > 0 ==> s'.records[..|s.records|] == s.records;
      }
    }
  }

  lemma OthersStep(s: State, e: Event)
    requires Supervising(s) && Possible(s, e) && e.Others?
    ensures Supervising(Next(s, e))
  {
    var s' := Next(s, e);
    ConsistentStep(s.sys, e.action);
    StepFrame(s.sys, e.action);
    StepState(s.sys, e.action);
    RecordsKept(s, s'.sys, s'.place);
    if s.place.Waiting? {
      var from := s.records[|s.records| - 1].signals;
      WentDownLonger(s.sys.conn.signals, s'.sys.conn.signals, from);
      if !s.place.woken && s'.place.woken {
        Falls(s.sys.conn, s'.sys.conn.state);
        assert WentDown(s'.sys.conn.signals, from);
      }
    }
    assert Reaches(s.sys, e.action) !in {JoinOpen, WaitThenOpen, InOpen} by {
      hide IsTrace, FlagsAgree, Apply;
    }
    hide IsTrace, FlagsAgree, SetState, Apply, WentDown, RecordFits, Enabled;
  }

  lemma OpenedStep(s: State, sys: System, informs: bool)
    requires forall i :: 0 <= i < |s.records| ==> RecordFits(s, i)
    requires s.sys.conn.signals <= sys.conn.signals && FlagsAgree(sys.conn) && sys.conn.state == Connected
    ensures var s' := Opened(s, sys, informs);
      && (forall i :: 0 <= i < |s'.records| ==> RecordFits(s', i))
      && (s'.place.Waiting? ==>
           && !s'.place.woken && s'.records != []
           && s'.records[|s'.records| - 1] == Record(OpenCall, Connected, |sys.conn.signals|))
  {
    var calls := if informs then [OpenCall] else [OpenCall, ErrorCall];
    var place := Opened(s, sys, informs).place;
    var s1 := s.(sys := sys, place := place);
    RecordsKept(s, sys, place);
    RecordsAppend(s1, calls, place);
    hide RecordFits;
    assert Opened(s, sys, informs) == s1.(records := Noted(s1, sys, calls), place := place);
  }

  lemma OpensStep(s: State, e: Event)
    requires Supervising(s) && Possible(s, e) && e.Opens?
    ensures Supervising(Next(s, e))
  {
    var a := CallOpen(SUPERVISOR);
    var sys := Apply(s.sys, a);
    assert s.sys.conn.state != Connecting;
    ConsistentStep(s.sys, a);
    StepFrame(s.sys, a);
    StepState(s.sys, a);
    RecordsKept(s, sys, Opening);
    if Reaches(s.sys, a) == Returned {
      OpenedStep(s, sys, e.informs);
    }
    hide IsTrace, SetState, Apply, WentDown, RecordFits, Enabled;
  }

  lemma ProceedsStep(s: State, e: Event)
    requires Supervising(s) && Possible(s, e) && e.Proceeds?
    ensures Supervising(Next(s, e))
  {
    var a := e.action;
    var sys := Apply(s.sys, a);
    ConsistentStep(s.sys, a);
    StepFrame(s.sys, a);
    StepState(s.sys, a);
    RecordsKept(s, sys, Asleep);
    RecordsKept(s, sys, Opening);
    if a == EndOpen(SUPERVISOR, true) {
      OpenedStep(s, sys, e.informs);
    } else if a.EndOpen? {
      var s1 := s.(sys := sys);
      RecordsAppend(s1, [ErrorCall], Asleep);
      assert Next(s, e) == s1.(records := Noted(s1, sys, [ErrorCall]), place := Asleep);
    }
    hide IsTrace, SetState, Apply, WentDown, RecordFits, Enabled;
  }

  lemma SupervisingStep(s: State, e: Event)
    requires Supervising(s) && Possible(s, e)
    ensures Supervising(Next(s, e))
  {
    match e {
      case Others(_) => OthersStep(s, e);
      case Opens(_) => OpensStep(s, e);
      case Proceeds(_, _) => ProceedsStep(s, e);
      case WaitEnds(normally) =>
        RecordsAppend(s, [if normally then CloseCall else ErrorCall], Asleep);
      case WakesUp =>
        RecordsKept(s, s.sys, Resting);
    }
  }

  lemma {:induction false} SupervisingHistory(s: State, events: seq<Event>)
    requires Supervising(s) && IsHistory(s, events)
    ensures Supervising(Finally(s, events))
    decreases |events|
  {
    if events != [] {
      hide Supervising, Next;
      SupervisingStep(s, events[0]);
      SupervisingHistory(Next(s, events[0]), events[1..]);
    }
  }

  /** When the supervisor is the only opener, and however many other calls close the
      connection, every `open` call of the policy sees state CONNECTED, and without a
      task every `close` call follows an entry into DISCONNECTED since that `open`. */
  lemma PolicySeesTheConnection(events: seq<Event>, hasTask: bool)
    requires IsHistory(State(NEW_SYSTEM, Resting, [], hasTask), events)
    ensures var s := Finally(State(NEW_SYSTEM, Resting, [], hasTask), events);
      forall i :: 0 <= i < |s.records| ==> RecordFits(s, i)
  {
    SupervisingHistory(State(NEW_SYSTEM, Resting, [], hasTask), events);
  }

  // ----- the same calls ---------------------------------------------------

  function CallsOf(records: seq<Record>): (calls: seq<PolicyCall>)
    ensures |calls| == |records|
  {
    seq(|records|, i requires 0 <= i < |records| => records[i].call)
  }

  /** The calls of finished turns, and the "open" call of a turn that is under way. */
  predicate FollowsLanguage(s: State) {
    var calls := CallsOf(s.records);
    if s.place.Waiting? then
      calls != [] && calls[|calls| - 1] == OpenCall && InLanguage(calls[..|calls| - 1])
    else InLanguage(calls)
  }

  lemma {:induction false} LanguageAppend(a: seq<PolicyCall>, b: seq<PolicyCall>)
    requires InLanguage(a) && InLanguage(b)
    ensures InLanguage(a + b)
    decreases |a|
  {
    if a == [] {
      assert a + b == b;
    } else {
      var n := if a[0] == ErrorCall then 1 else 2;
      LanguageAppend(a[n..], b);
      assert (a + b)[n..] == a[n..] + b;
    }
  }

  lemma CallsNoted(s: State, sys: System, calls: seq<PolicyCall>)
    ensures CallsOf(Noted(s, sys, calls)) == CallsOf(s.records) + calls
  {
  }

  lemma ShortWords()
    ensures InLanguage([ErrorCall]) && InLanguage([OpenCall, ErrorCall]) && InLanguage([OpenCall, CloseCall])
  {
    assert [ErrorCall][1..] == [] && [OpenCall, ErrorCall][2..] == [] && [OpenCall, CloseCall][2..] == [];
  }

  /** The turn that is over with an event, as the event tells it; it is answered with a
      delay, or there is no other turn. */
  function TurnOf(s: State, e: Event): seq<Turn>
    requires Possible(s, e)
  {
    match e
    case Opens(informs) =>
      if s.sys.conn.state == Connected && !informs then [Turn(true, false, false, Number(0.0))] else []
    case Proceeds(action, informs) =>
      if action == EndOpen(SUPERVISOR, false) then [Turn(false, false, false, Number(0.0))]
      else if SUPERVISOR !in Apply(s.sys, action).calls && !informs then [Turn(true, false, false, Number(0.0))]
      else []
    case WaitEnds(normally) => [Turn(true, true, normally, Number(0.0))]
    case _ => []
  }

  /** The policy calls of one step, by where the supervisor is before and after it. */
  lemma NextCalls(s: State, e: Event) returns (added: seq<PolicyCall>)
    requires Possible(s, e)
    ensures CallsOf(Next(s, e).records) == CallsOf(s.records) + added
    ensures var t := TurnOf(s, e);
      if s.place.Waiting? then
        if Next(s, e).place.Waiting? then t == [] && added == [] else t != [] && TurnCalls(t[0]) == [OpenCall] + added
      else if Next(s, e).place.Waiting? then t == [] && added == [OpenCall]
      else if t == [] then added == [] else TurnCalls(t[0]) == added
    ensures
      if s.place.Waiting? then
        if Next(s, e).place.Waiting? then added == [] else added == [CloseCall] || added == [ErrorCall]
      else
        if Next(s, e).place.Waiting? then added == [OpenCall]
        else added == [] || added == [ErrorCall] || added == [OpenCall, ErrorCall]
  {
    if e.Opens? { StepFrame(s.sys, CallOpen(SUPERVISOR)); }
    if e.Proceeds? { StepFrame(s.sys, e.action); }
    hide Apply, CallsOf, Noted;
    var sys := Next(s, e).sys;
    added := match e
      case WaitEnds(normally) => [if normally then CloseCall else ErrorCall]
      case Opens(informs) =>
        if Reaches(s.sys, CallOpen(SUPERVISOR)) != Returned then []
        else if informs then [OpenCall] else [OpenCall, ErrorCall]
      case Proceeds(action, informs) =>
        if Reaches(s.sys, action) != Returned then []
        else if action == EndOpen(SUPERVISOR, false) then [ErrorCall]
        else if informs then [OpenCall] else [OpenCall, ErrorCall]
      case _ => [];
    if added == [] {
      assert CallsOf(s.records) + [] == CallsOf(s.records);
    } else {
      CallsNoted(s, sys, added);
    }
  }

  lemma LanguageKept(s: State, e: Event)
    requires FollowsLanguage(s) && Possible(s, e)
    ensures FollowsLanguage(Next(s, e))
  {
    var calls := CallsOf(s.records);
    var added := NextCalls(s, e);
    ShortWords();
    hide Next, InLanguage;
    if s.place.Waiting? {
      var whole := calls[..|calls| - 1];
      assert calls == whole + [OpenCall];
      if added == [] {
        assert calls + added == calls;
      } else {
        Regrouped(whole, [OpenCall], added);
        LanguageAppend(whole, [OpenCall] + added);
      }
    } else if added == [OpenCall] {
      assert (calls + added)[..|calls|] == calls;
    } else if added == [] {
      assert calls + added == calls;
    } else {
      LanguageAppend(calls, added);
    }
  }

  lemma {:induction false} LanguageHistory(s: State, events: seq<Event>)
    requires FollowsLanguage(s) && IsHistory(s, events)
    ensures FollowsLanguage(Finally(s, events))
    decreases |events|
  {
    if events != [] {
      LanguageKept(s, events[0]);
      hide FollowsLanguage, Next;
      LanguageHistory(Next(s, events[0]), events[1..]);
    }
  }

  function TurnsOf(s: State, events: seq<Event>): seq<Turn>
    requires IsHistory(s, events)
    decreases |events|
  {
    if events == [] then [] else TurnOf(s, events[0]) + TurnsOf(Next(s, events[0]), events[1..])
  }

  /** The calls without the "open" call of a turn that is under way. */
  function Whole(s: State): seq<PolicyCall>
    requires FollowsLanguage(s)
  {
    var calls := CallsOf(s.records);
    if s.place.Waiting? then calls[..|calls| - 1] else calls
  }

  lemma WholeStep(s: State, e: Event)
    requires FollowsLanguage(s) && Possible(s, e)
    ensures FollowsLanguage(Next(s, e))
    ensures Whole(Next(s, e)) == Whole(s) + if TurnOf(s, e) == [] then [] else TurnCalls(TurnOf(s, e)[0])
  {
    LanguageKept(s, e);
    var added := NextCalls(s, e);
    WholeAndRest(s);
    WholeAndRest(Next(s, e));
    hide FollowsLanguage, InLanguage, Next, TurnOf, Apply, CallsOf, Whole, TurnCalls;
    var calls, whole := CallsOf(s.records), Whole(s);
    NothingAfter(calls);
    NothingAfter(whole);
    NothingAfter(Whole(Next(s, e)));
    if s.place.Waiting? {
      Regrouped(whole, [OpenCall], added);
      if added == [] { SameFront(Whole(Next(s, e)), whole, OpenCall); }
    } else if Next(s, e).place.Waiting? {
      SameFront(Whole(Next(s, e)), calls, OpenCall);
    }
  }

  lemma NothingAfter(calls: seq<PolicyCall>)
    ensures calls + [] == calls
  {
  }

  lemma SameFront(a: seq<PolicyCall>, b: seq<PolicyCall>, last: PolicyCall)
    requires a + [last] == b + [last]
    ensures a == b
  {
    assert a == (a + [last])[..|a|] && b == (b + [last])[..|b|] && |a + [last]| == |a| + 1;
  }

  lemma {:induction false} WholeHistory(s: State, events: seq<Event>)
    requires FollowsLanguage(s) && IsHistory(s, events)
    ensures FollowsLanguage(Finally(s, events))
    ensures Supervised(TurnsOf(s, events)).ending == Running
    ensures Whole(Finally(s, events)) == Whole(s) + PolicyCalls(Supervised(TurnsOf(s, events)).steps)
    decreases |events|
  {
    hide FollowsLanguage, Whole, PolicyCalls, Supervised, InLanguage, Next, TurnOf, TurnCalls;
    if events == [] {
      NoTurnsNoCalls();
      NothingAfter(Whole(s));
    } else {
      var s1, t := Next(s, events[0]), TurnOf(s, events[0]);
      WholeStep(s, events[0]);
      TurnShape(s, events[0]);
      WholeHistory(s1, events[1..]);
      AfterTurns(t, TurnsOf(s1, events[1..]), Whole(s));
    }
  }

  lemma NoTurnsNoCalls()
    ensures Supervised([]).ending == Running && PolicyCalls(Supervised([]).steps) == []
  {
  }

  lemma TurnShape(s: State, e: Event)
    requires Possible(s, e)
    ensures |TurnOf(s, e)| <= 1 && (TurnOf(s, e) != [] ==> TurnOf(s, e)[0].answer == Number(0.0))
  {
  }

  lemma AfterTurns(t: seq<Turn>, rest: seq<Turn>, whole: seq<PolicyCall>)
    requires |t| <= 1 && (t != [] ==> t[0].answer == Number(0.0))
    ensures whole + (if t == [] then [] else TurnCalls(t[0])) + PolicyCalls(Supervised(rest).steps) ==
      whole + PolicyCalls(Supervised(t + rest).steps)
    ensures Supervised(t + rest).ending == Supervised(rest).ending
  {
    hide PolicyCalls, Supervised, TurnCalls;
    if t == [] {
      assert t + rest == rest;
      NothingAfter(whole);
    } else {
      OneTurnMore(t[0], rest);
      assert t == [t[0]];
      Regrouped(whole, TurnCalls(t[0]), PolicyCalls(Supervised(rest).steps));
    }
  }

  lemma OneTurnMore(turn: Turn, rest: seq<Turn>)
    requires turn.answer == Number(0.0)
    ensures var r := Supervised([turn] + rest);
      && PolicyCalls(r.steps) == TurnCalls(turn) + PolicyCalls(Supervised(rest).steps)
      && r.ending == Supervised(rest).ending
  {
    JoinedAndCut([turn], rest);
    assert ([turn] + rest)[0] == turn;
    assert Supervised([turn] + rest) == Then(TurnResult(turn), Supervised(rest));
    TurnSteps(turn);
    StepsAppend(TurnResult(turn).steps, Supervised(rest).steps);
  }

  /** Next to other tasks the policy sees what it sees in a run of the loop alone, whose
      turns are told by the events, with the "open" call of the turn that is under way. */
  lemma SameCallsAsTheLoop(events: seq<Event>, hasTask: bool)
    requires IsHistory(State(NEW_SYSTEM, Resting, [], hasTask), events)
    ensures var s0 := State(NEW_SYSTEM, Resting, [], hasTask);
      var s := Finally(s0, events);
      CallsOf(s.records) ==
        PolicyCalls(Supervised(TurnsOf(s0, events)).steps) + if s.place.Waiting? then [OpenCall] else []
  {
    var s0 := State(NEW_SYSTEM, Resting, [], hasTask);
    WholeHistory(s0, events);
    var s := Finally(s0, events);
    assert Whole(s0) == [];
    hide PolicyCalls, Supervised, TurnsOf, IsHistory, Finally, InLanguage;
    NothingBefore(PolicyCalls(Supervised(TurnsOf(s0, events)).steps));
    WholeAndRest(s);
  }

  lemma NothingBefore(calls: seq<PolicyCall>)
    ensures [] + calls == calls
  {
  }

  lemma WholeAndRest(s: State)
    requires FollowsLanguage(s)
    ensures CallsOf(s.records) == Whole(s) + if s.place.Waiting? then [OpenCall] else []
  {
    hide InLanguage, CallsOf;
    var calls := CallsOf(s.records);
    if s.place.Waiting? {
      CutAndJoined(calls, |calls| - 1);
      assert calls[|calls| - 1..] == [calls[|calls| - 1]];
    }
  }
}
