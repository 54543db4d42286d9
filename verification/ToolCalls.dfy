/** Tool calls of a voice session: accepted intents, native calls of the live model, and cancellations,
    as steps that interleave freely. Every step is the code between two points where it waits. */
module ToolCalls {

  datatype Status = Success | Failed | Rejected

  /** How a dispatched tool ends: with a result, or by throwing. */
  datatype Outcome = Resolved(status: Status) | Thrown

  datatype Kind = Dispatching | Completed | Errored | Refused

  /** Events of accepted intents, and of native calls (`live:` ids). */
  datatype Source = Intent(id: string) | Live(id: string)

  datatype ToolEvent = ToolEvent(kind: Kind, source: Source)

  datatype LiveCall = LiveCall(id: string, aborted: bool)

  /** `pendingIntents` and `pendingCalls` are the dispatches that have not settled; a native call is known by
      its number, its controller in `inFlight` by its id. */
  datatype Session = Session(
    executed: set<string>, pendingIntents: set<string>,
    calls: nat, pendingCalls: map<nat, LiveCall>, inFlight: map<string, nat>, cancelled: set<string>,
    open: bool, events: seq<ToolEvent>, responses: seq<string>)

  datatype Step =
    | Accept(id: string, isTool: bool, valid: bool)
    | SettleIntent(id: string, outcome: Outcome)
    | Call(id: string, supported: bool)
    | SettleCall(number: nat, outcome: Outcome)
    | Cancel(ids: seq<string>)
    | Socket(open: bool)
    | Teardown
    | Reconnect

  function Ending(outcome: Outcome, aborted: bool): Kind {
    match outcome
    case Resolved(Success) => Completed
    case Resolved(Failed) => Errored
    case Resolved(Rejected) => Refused
    case Thrown => if aborted then Refused else Errored
  }

  function Log(s: Session, kind: Kind, source: Source): Session {
    s.(events := s.events + [ToolEvent(kind, source)])
  }

  function Respond(s: Session, id: string): Session {
    if s.open then s.(responses := s.responses + [id]) else s
  }

  function CancelOne(s: Session, id: string): Session {
    var s := s.(cancelled := s.cancelled + {id});
    if id !in s.inFlight then s
    else
      var n := s.inFlight[id];
      s.(inFlight := s.inFlight - {id},
         pendingCalls := if n in s.pendingCalls then s.pendingCalls[n := s.pendingCalls[n].(aborted := true)]
             else s.pendingCalls)
  }

  function CancelAll(s: Session, ids: seq<string>): Session
    decreases |ids|
  {
    if ids == [] then s else CancelAll(CancelOne(s, ids[0]), ids[1..])
  }

  function AcceptIntent(s: Session, id: string, isTool: bool, valid: bool): Session {
    if !isTool || id in s.executed then s
    else
      var s := s.(executed := s.executed + {id});
      if valid then Log(s.(pendingIntents := s.pendingIntents + {id}), Dispatching, Intent(id))
      else Log(s, Refused, Intent(id))
  }

  function StartCall(s: Session, id: string, supported: bool): Session {
    if !supported then Respond(s, id)
    else
      Log(s.(calls := s.calls + 1, cancelled := s.cancelled - {id}, inFlight := s.inFlight[id := s.calls],
             pendingCalls := s.pendingCalls[s.calls := LiveCall(id, false)]), Dispatching, Live(id))
  }

  function EndCall(s: Session, number: nat, outcome: Outcome): Session
    requires number in s.pendingCalls
  {
    var call := s.pendingCalls[number];
    var s := Log(s, Ending(outcome, call.aborted), Live(call.id));
    var s := s.(inFlight := s.inFlight - {call.id}, pendingCalls := s.pendingCalls - {number});
    if call.id in s.cancelled then s else Respond(s, call.id)
  }

  function Aborted(calls: map<nat, LiveCall>, numbers: set<nat>): map<nat, LiveCall> {
    map n | n in calls :: if n in numbers then calls[n].(aborted := true) else calls[n]
  }

  /** The teardown: the socket goes, controllers are aborted, cancellations forgotten. Dispatches that have not
      settled go on. */
  function TearDown(s: Session): Session {
    s.(inFlight := map[], cancelled := {}, open := false, pendingCalls := Aborted(s.pendingCalls, s.inFlight.Values))
  }

  /** `connect` tears the old session down and starts its refs anew. */
  function Abandon(s: Session): Session {
    TearDown(s).(executed := {}, events := [])
  }

  function Next(s: Session, step: Step): Session {
    match step
    case Accept(id, isTool, valid) => AcceptIntent(s, id, isTool, valid)
    case SettleIntent(id, outcome) =>
      if id !in s.pendingIntents then s
      else Log(s.(pendingIntents := s.pendingIntents - {id}), Ending(outcome, false), Intent(id))
    case Call(id, supported) => StartCall(s, id, supported)
    case SettleCall(number, outcome) => if number !in s.pendingCalls then s else EndCall(s, number, outcome)
    case Cancel(ids) => CancelAll(s, ids)
    case Socket(open) => s.(open := open)
    case Teardown => TearDown(s)
    case Reconnect => Abandon(s)
  }

  const CONNECTED := Session({}, {}, 0, map[], map[], {}, true, [], [])

  function Run(s: Session, steps: seq<Step>): Session
    decreases |steps|
  {
    if steps == [] then s else Run(Next(s, steps[0]), steps[1..])
  }

  // ---- the hook's refs

  class VoiceSession {
    var executed: set<string>
    var pendingIntents: set<string>
    var calls: nat
    var pendingCalls: map<nat, LiveCall>
    var inFlight: map<string, nat>
    var cancelled: set<string>
    var open: bool
    var events: seq<ToolEvent>
    var responses: seq<string>

    ghost function View(): Session
      reads this
    {
      Session(executed, pendingIntents, calls, pendingCalls, inFlight, cancelled, open, events, responses)
    }

    constructor ()
      ensures View() == CONNECTED
    {
      executed, pendingIntents, calls, pendingCalls := {}, {}, 0, map[];
      inFlight, cancelled, open, events, responses := map[], {}, true, [], [];
    }

    method Send(id: string)
      modifies this`responses
      ensures View() == Respond(old(View()), id)
    {
      if open { responses := responses + [id]; }
    }

    /** `executeAcceptedToolIntent` up to its wait. */
    method AcceptToolIntent(id: string, isTool: bool, valid: bool)
      modifies this
      ensures View() == Next(old(View()), Accept(id, isTool, valid))
    {
      if !isTool || id in executed { return; }
      executed := executed + {id};
      if !valid {
        events := events + [ToolEvent(Refused, Intent(id))];
        return;
      }
      events := events + [ToolEvent(Dispatching, Intent(id))];
      pendingIntents := pendingIntents + {id};
    }

    /** The rest of `executeAcceptedToolIntent`. */
    method SettleToolIntent(id: string, outcome: Outcome)
      requires id in pendingIntents
      modifies this
      ensures View() == Next(old(View()), SettleIntent(id, outcome))
    {
      pendingIntents := pendingIntents - {id};
      events := events + [ToolEvent(Ending(outcome, false), Intent(id))];
    }

    /** `executeNativeFunctionCall` up to its wait. */
    method StartNativeCall(id: string, supported: bool)
      modifies this
      ensures View() == Next(old(View()), Call(id, supported))
    {
      if !supported {
        Send(id);
        return;
      }
      cancelled := cancelled - {id};
      inFlight := inFlight[id := calls];
      pendingCalls := pendingCalls[calls := LiveCall(id, false)];
      calls := calls + 1;
      events := events + [ToolEvent(Dispatching, Live(id))];
    }

    /** The rest of `executeNativeFunctionCall`. */
    method SettleNativeCall(number: nat, outcome: Outcome)
      requires number in pendingCalls
      modifies this
      ensures View() == Next(old(View()), SettleCall(number, outcome))
    {
      var call := pendingCalls[number];
      events := events + [ToolEvent(Ending(outcome, call.aborted), Live(call.id))];
      inFlight := inFlight - {call.id};
      pendingCalls := pendingCalls - {number};
      if call.id in cancelled { return; }
      Send(call.id);
    }

    method CancelToolCalls(ids: seq<string>)
      modifies this
      ensures View() == Next(old(View()), Cancel(ids))
    {
      for i := 0 to |ids|
        invariant CancelAll(View(), ids[i..]) == CancelAll(old(View()), ids)
      {
        var id := ids[i];
        assert ids[i..][0] == id && ids[i..][1..] == ids[i + 1..];
        cancelled := cancelled + {id};
        if id in inFlight {
          var n := inFlight[id];
          if n in pendingCalls { pendingCalls := pendingCalls[n := pendingCalls[n].(aborted := true)]; }
          inFlight := inFlight - {id};
        }
      }
    }

    /** `teardownSessionResources`. */
    method TeardownSession()
      modifies this
      ensures View() == Next(old(View()), Teardown)
    {
      open := false;
      var todo := inFlight.Values;
      while todo != {}
        invariant todo <= old(inFlight).Values
        invariant View() == old(View()).(
                    open := false, pendingCalls := Aborted(old(pendingCalls), old(inFlight).Values - todo))
        decreases todo
      {
        var n :| n in todo;
        if n in pendingCalls { pendingCalls := pendingCalls[n := pendingCalls[n].(aborted := true)]; }
        todo := todo - {n};
      }
      inFlight, cancelled := map[], {};
    }

    /** The start of `connect`. */
    method Connect()
      modifies this
      ensures View() == Next(old(View()), Reconnect)
    {
      TeardownSession();
      executed, events := {}, [];
    }
  }

  // ---- accepted intents

  function Dispatches(events: seq<ToolEvent>, source: Source): nat {
    if events == [] then 0
    else
      var last := events[|events| - 1];
      Dispatches(events[..|events| - 1], source) + if last.source == source && last.kind == Dispatching then 1 else 0
  }

  function Endings(events: seq<ToolEvent>, source: Source): nat {
    if events == [] then 0
    else
      var last := events[|events| - 1];
      Endings(events[..|events| - 1], source) + if last.source == source && last.kind != Dispatching then 1 else 0
  }

  lemma LogCounts(events: seq<ToolEvent>, e: ToolEvent, source: Source)
    ensures Dispatches(events + [e], source)
            == Dispatches(events, source) + if e.source == source && e.kind == Dispatching then 1 else 0
    ensures Endings(events + [e], source)
            == Endings(events, source) + if e.source == source && e.kind != Dispatching then 1 else 0
  {
    assert (events + [e])[..|events|] == events;
  }

  /** An intent that was never accepted has no event; one that waits was dispatched once;
      one that settled has exactly one terminal event. */
  ghost predicate IntentOnce(s: Session, id: string) {
    var d, t := Dispatches(s.events, Intent(id)), Endings(s.events, Intent(id));
    if id in s.pendingIntents then id in s.executed && d == 1 && t == 0
    else if id in s.executed then d <= 1 && t == 1
    else d == 0 && t == 0
  }

  lemma {:induction false} CancelKeeps(s: Session, ids: seq<string>)
    ensures var r := CancelAll(s, ids);
            && r.events == s.events && r.executed == s.executed && r.pendingIntents == s.pendingIntents
            && r.responses == s.responses && r.open == s.open && r.calls == s.calls
    decreases |ids|
  {
    if ids != [] { CancelKeeps(CancelOne(s, ids[0]), ids[1..]); }
  }

  lemma {:induction false} StepIntentOnce(s: Session, step: Step, id: string)
    requires IntentOnce(s, id) && !step.Reconnect?
    ensures IntentOnce(Next(s, step), id)
  {
    StepLogs(s, step);
    var e := NewEvent(s, step);
    if e == [] {
      assert s.events + e == s.events;
    } else {
      assert e == [e[0]];
      LogCounts(s.events, e[0], Intent(id));
    }
  }

  /** The event that a step logs, if any. */
  function NewEvent(s: Session, step: Step): seq<ToolEvent> {
    match step
    case Accept(id, isTool, valid) =>
      if !isTool || id in s.executed then [] else [ToolEvent(if valid then Dispatching else Refused, Intent(id))]
    case SettleIntent(id, outcome) =>
      if id in s.pendingIntents then [ToolEvent(Ending(outcome, false), Intent(id))] else []
    case Call(id, supported) => if supported then [ToolEvent(Dispatching, Live(id))] else []
    case SettleCall(n, outcome) =>
      if n in s.pendingCalls
      then [ToolEvent(Ending(outcome, s.pendingCalls[n].aborted), Live(s.pendingCalls[n].id))]
      else []
    case _ => []
  }

  lemma StepLogs(s: Session, step: Step)
    requires !step.Reconnect?
    ensures var r := Next(s, step);
            && r.events == s.events + NewEvent(s, step)
            && r.executed == s.executed + (if step.Accept? && step.isTool then {step.id} else {})
            && r.pendingIntents ==
               (if step.SettleIntent? then s.pendingIntents - {step.id}
                else if step.Accept? && step.isTool && step.valid && step.id !in s.executed
                  then s.pendingIntents + {step.id}
                else s.pendingIntents)
  {
    if step.Cancel? { CancelKeeps(s, step.ids); }
  }

  /** In every run of one session, each intent id is dispatched at most once and settles with exactly one terminal
      event. */
  lemma {:induction false} IntentsOnce(s: Session, steps: seq<Step>, id: string)
    requires IntentOnce(s, id) && Reconnect !in steps
    ensures IntentOnce(Run(s, steps), id)
    decreases |steps|
  {
    if steps != [] {
      assert steps[0] in steps;
      StepIntentOnce(s, steps[0], id);
      IntentsOnce(Next(s, steps[0]), steps[1..], id);
    }
  }

  // ---- native calls

  /** What should become of the call with one id, told from the steps alone. */
  datatype Phase =
    | Absent
    | Waiting(number: nat, cancelled: bool)
    | Answered(supported: bool)
    | Unanswered(supported: bool)

  /** `calls` numbers the supported calls, `open` is the socket. A cancellation counts while the call waits;
      a teardown forgets it, and a reconnect also starts the event log anew: `dispatches` and `endings` are the call's
      events in it. */
  datatype Expected = Expected(phase: Phase, calls: nat, open: bool, dispatches: nat, endings: nat)

  function Forget(x: Expected): Expected {
    x.(phase := if x.phase.Waiting? then x.phase.(cancelled := false) else x.phase, open := false)
  }

  function Expect(x: Expected, step: Step, id: string): Expected {
    match step
    case Call(i, supported) =>
      var phase :=
        if i != id then x.phase
        else if supported then Waiting(x.calls, false)
        else if x.open then Answered(false) else Unanswered(false);
      Expected(phase, if supported then x.calls + 1 else x.calls, x.open,
               if i == id && supported then x.dispatches + 1 else x.dispatches, x.endings)
    case SettleCall(n, _) =>
      if x.phase.Waiting? && x.phase.number == n
      then x.(phase := if x.open && !x.phase.cancelled then Answered(true) else Unanswered(true),
              endings := x.endings + 1)
      else x
    case Cancel(ids) => if x.phase.Waiting? && id in ids then x.(phase := x.phase.(cancelled := true)) else x
    case Socket(open) => x.(open := open)
    case Teardown => Forget(x)
    case Reconnect => Forget(x).(dispatches := 0, endings := 0)
    case _ => x
  }

  function ExpectAll(x: Expected, steps: seq<Step>, id: string): Expected
    decreases |steps|
  {
    if steps == [] then x else ExpectAll(Expect(x, steps[0], id), steps[1..], id)
  }

  function Answers(responses: seq<string>, id: string): nat {
    if responses == [] then 0
    else Answers(responses[..|responses| - 1], id) + if responses[|responses| - 1] == id then 1 else 0
  }

  lemma AnswersAppend(responses: seq<string>, r: string, id: string)
    ensures Answers(responses + [r], id) == Answers(responses, id) + if r == id then 1 else 0
  {
    assert (responses + [r])[..|responses|] == responses;
  }

  ghost predicate NoCallWaits(s: Session, id: string) {
    (forall n :: n in s.pendingCalls ==> s.pendingCalls[n].id != id) && id !in s.inFlight
  }

  ghost predicate OnlyCallWaits(s: Session, id: string, number: nat) {
    && number in s.pendingCalls && s.pendingCalls[number].id == id
    && (forall n :: n in s.pendingCalls && s.pendingCalls[n].id == id ==> n == number)
    && (id in s.inFlight ==> s.inFlight[id] == number)
  }

  /** Calls are numbered in order, and a controller belongs to a call with its id. */
  ghost predicate Numbered(s: Session) {
    && (forall n :: n in s.pendingCalls ==> n < s.calls)
    && (forall i :: i in s.inFlight ==> s.inFlight[i] < s.calls)
    && (forall i :: i in s.inFlight && s.inFlight[i] in s.pendingCalls ==> s.pendingCalls[s.inFlight[i]].id == i)
  }

  /** The session answers the call as told. */
  ghost predicate Follows(s: Session, x: Expected, id: string) {
    && s.calls == x.calls && s.open == x.open && Numbered(s)
    && Counts(s, id, x.dispatches, x.endings)
    && (match x.phase
        case Absent => NoCallWaits(s, id) && Answers(s.responses, id) == 0
        case Waiting(number, cancelled) =>
          OnlyCallWaits(s, id, number) && (cancelled <==> id in s.cancelled) && Answers(s.responses, id) == 0
        case Answered(_) => NoCallWaits(s, id) && Answers(s.responses, id) == 1
        case Unanswered(_) => NoCallWaits(s, id) && Answers(s.responses, id) == 0)
  }

  ghost predicate Counts(s: Session, id: string, dispatches: nat, endings: nat) {
    Dispatches(s.events, Live(id)) == dispatches && Endings(s.events, Live(id)) == endings
  }

  lemma {:induction false} CancelMarks(s: Session, ids: seq<string>)
    ensures var r := CancelAll(s, ids);
            && (forall id :: id in r.cancelled <==> id in s.cancelled || id in ids)
            && r.pendingCalls.Keys == s.pendingCalls.Keys
            && (forall n :: n in s.pendingCalls ==> r.pendingCalls[n].id == s.pendingCalls[n].id)
            && r.inFlight.Keys <= s.inFlight.Keys
            && (forall i :: i in r.inFlight ==> r.inFlight[i] == s.inFlight[i])
    decreases |ids|
  {
    if ids != [] {
      CancelMarks(CancelOne(s, ids[0]), ids[1..]);
    }
  }

  lemma StepCounts(s: Session, step: Step, id: string)
    requires !step.Reconnect?
    ensures var r, e := Next(s, step), NewEvent(s, step);
            && Dispatches(r.events, Live(id)) ==
               Dispatches(s.events, Live(id))
                   + (if e != [] && e[0].source == Live(id) && e[0].kind == Dispatching then 1 else 0)
            && Endings(r.events, Live(id)) ==
               Endings(s.events, Live(id))
                   + (if e != [] && e[0].source == Live(id) && e[0].kind != Dispatching then 1 else 0)
  {
    StepLogs(s, step);
    var e := NewEvent(s, step);
    if e == [] {
      assert s.events + e == s.events;
    } else {
      assert e == [e[0]];
      LogCounts(s.events, e[0], Live(id));
    }
  }

  lemma StepCall(s: Session, i: string, supported: bool, x: Expected, id: string)
    requires Follows(s, x, id) && (i == id ==> x.phase.Absent?)
    ensures Follows(Next(s, Call(i, supported)), Expect(x, Call(i, supported), id), id)
  {
    StepCounts(s, Call(i, supported), id);
    AnswersAppend(s.responses, i, id);
  }

  lemma SettleNumbered(s: Session, n: nat, outcome: Outcome)
    requires Numbered(s)
    ensures Numbered(Next(s, SettleCall(n, outcome)))
  {}

  lemma SettleOther(s: Session, n: nat, outcome: Outcome, x: Expected, id: string)
    requires Follows(s, x, id) && n in s.pendingCalls && s.pendingCalls[n].id != id
    ensures Follows(Next(s, SettleCall(n, outcome)), x, id)
  {
    SettleNumbered(s, n, outcome);
    StepCounts(s, SettleCall(n, outcome), id);
    AnswersAppend(s.responses, s.pendingCalls[n].id, id);
  }

  lemma StepSettle(s: Session, n: nat, outcome: Outcome, x: Expected, id: string)
    requires Follows(s, x, id)
    ensures Follows(Next(s, SettleCall(n, outcome)), Expect(x, SettleCall(n, outcome), id), id)
  {
    if n in s.pendingCalls {
      if s.pendingCalls[n].id != id {
        SettleOther(s, n, outcome, x, id);
      } else {
        SettleNumbered(s, n, outcome);
        StepCounts(s, SettleCall(n, outcome), id);
        AnswersAppend(s.responses, id, id);
      }
    }
  }

  lemma StepCancel(s: Session, ids: seq<string>, x: Expected, id: string)
    requires Follows(s, x, id)
    ensures Follows(Next(s, Cancel(ids)), Expect(x, Cancel(ids), id), id)
  {
    CancelKeeps(s, ids);
    CancelMarks(s, ids);
  }

  lemma StepAbandon(s: Session, x: Expected, id: string)
    requires Follows(s, x, id)
    ensures Follows(Next(s, Teardown), Expect(x, Teardown, id), id)
    ensures Follows(Next(s, Reconnect), Expect(x, Reconnect, id), id)
  {}

  lemma StepLive(s: Session, step: Step, x: Expected, id: string)
    requires Follows(s, x, id)
    requires step.Call? && step.id == id ==> x.phase.Absent?
    ensures Follows(Next(s, step), Expect(x, step, id), id)
  {
    match step
    case Call(i, supported) => StepCall(s, i, supported, x, id);
    case SettleCall(n, outcome) => StepSettle(s, n, outcome, x, id);
    case Cancel(ids) => StepCancel(s, ids, x, id);
    case Teardown => StepAbandon(s, x, id);
    case Reconnect => StepAbandon(s, x, id);
    case _ => StepCounts(s, step, id);
  }

  function CallsOf(steps: seq<Step>, id: string): nat {
    if steps == [] then 0 else (if steps[0].Call? && steps[0].id == id then 1 else 0) + CallsOf(steps[1..], id)
  }

  /** In every run in which an id is called once, teardowns included, the call is answered exactly as its own steps
      tell: once, if at its end the socket is open and no cancellation came since its start or the last teardown,
      and never otherwise. */
  lemma {:induction false} CallAnsweredAsExpected(s: Session, steps: seq<Step>, x: Expected, id: string)
    requires Follows(s, x, id)
    requires CallsOf(steps, id) <= if x.phase.Absent? then 1 else 0
    ensures Follows(Run(s, steps), ExpectAll(x, steps, id), id)
    decreases |steps|
  {
    if steps != [] {
      StepLive(s, steps[0], x, id);
      CallAnsweredAsExpected(Next(s, steps[0]), steps[1..], Expect(x, steps[0], id), id);
    }
  }

  lemma ConnectedFollows(id: string)
    ensures Follows(CONNECTED, Expected(Absent, 0, true, 0, 0), id) && IntentOnce(CONNECTED, id)
  {}

  /** A supported call that waits was dispatched once, and one that ended has one terminal event as well. */
  predicate LoggedOnce(x: Expected) {
    match x.phase
    case Absent => x.dispatches == 0 && x.endings == 0
    case Waiting(_, _) => x.dispatches == 1 && x.endings == 0
    case Answered(supported) => x.dispatches == x.endings == if supported then 1 else 0
    case Unanswered(supported) => x.dispatches == x.endings == if supported then 1 else 0
  }

  /** In every run of one session. */
  lemma {:induction false} CallLoggedOnce(x: Expected, steps: seq<Step>, id: string)
    requires LoggedOnce(x) && Reconnect !in steps
    requires CallsOf(steps, id) <= if x.phase.Absent? then 1 else 0
    ensures LoggedOnce(ExpectAll(x, steps, id))
    decreases |steps|
  {
    if steps != [] {
      assert steps[0] in steps;
      CallLoggedOnce(Expect(x, steps[0], id), steps[1..], id);
    }
  }

  /** Once cancelled while it waits, a call is never answered, whatever follows in the session. */
  lemma {:induction false} CancelledStaysSilent(x: Expected, steps: seq<Step>, id: string)
    requires CallsOf(steps, id) == 0 && Teardown !in steps && Reconnect !in steps
    requires (x.phase.Waiting? && x.phase.cancelled) || x.phase.Unanswered?
    ensures !ExpectAll(x, steps, id).phase.Answered?
    decreases |steps|
  {
    if steps != [] {
      assert steps[0] in steps;
      CancelledStaysSilent(Expect(x, steps[0], id), steps[1..], id);
    }
  }

  // ---- what a session sends and logs for one call

  const START := Expected(Absent, 0, true, 0, 0)

  /** In every run of the session in which an id is called once, it is answered at most once, and that exactly when
      its own steps say so. */
  lemma AnsweredOnce(steps: seq<Step>, id: string)
    requires CallsOf(steps, id) <= 1
    ensures Answers(Run(CONNECTED, steps).responses, id) == if ExpectAll(START, steps, id).phase.Answered? then 1 else 0
  {
    ConnectedFollows(id);
    CallAnsweredAsExpected(CONNECTED, steps, START, id);
  }

  /** In every run between connect and the next: a supported call has one dispatch in the log as soon as it was made,
      and one terminal event as soon as it no longer waits. */
  lemma SessionLogsOnce(steps: seq<Step>, id: string)
    requires CallsOf(steps, id) <= 1 && Reconnect !in steps
    ensures var s, made := Run(CONNECTED, steps), SupportedCallsOf(steps, id);
            && Dispatches(s.events, Live(id)) == made
            && Endings(s.events, Live(id)) == if NoCallWaits(s, id) then made else 0
  {
    ConnectedFollows(id);
    CallAnsweredAsExpected(CONNECTED, steps, START, id);
    CallLoggedOnce(START, steps, id);
    SupportedMade(START, steps, id);
  }

  function SupportedCallsOf(steps: seq<Step>, id: string): nat {
    if steps == [] then 0
    else (if steps[0].Call? && steps[0].id == id && steps[0].supported then 1 else 0) + SupportedCallsOf(steps[1..], id)
  }

  lemma {:induction false} SupportedMade(x: Expected, steps: seq<Step>, id: string)
    requires Reconnect !in steps
    ensures ExpectAll(x, steps, id).dispatches == x.dispatches + SupportedCallsOf(steps, id)
    decreases |steps|
  {
    if steps != [] {
      assert steps[0] in steps;
      SupportedMade(Expect(x, steps[0], id), steps[1..], id);
    }
  }

  /** A call that waits when it is cancelled is never answered, whatever else follows before a teardown. */
  lemma CancelledNeverAnswered(before: seq<Step>, ids: seq<string>, after: seq<Step>, id: string)
    requires CallsOf(before, id) == 1 && CallsOf(after, id) == 0 && id in ids
    requires !NoCallWaits(Run(CONNECTED, before), id)
    requires Teardown !in after && Reconnect !in after
    ensures Answers(Run(CONNECTED, before + ([Cancel(ids)] + after)).responses, id) == 0
  {
    var steps := before + ([Cancel(ids)] + after);
    ConnectedFollows(id);
    CallAnsweredAsExpected(CONNECTED, before, START, id);
    var x := ExpectAll(START, before, id);
    assert x.phase.Waiting?;
    CallsOfAppend(before, [Cancel(ids)] + after, id);
    assert ([Cancel(ids)] + after)[1..] == after;
    AnsweredOnce(steps, id);
    ExpectAppend(START, before, [Cancel(ids)] + after, id);
    CancelledStaysSilent(Expect(x, Cancel(ids), id), after, id);
  }

  lemma {:induction false} CallsOfAppend(a: seq<Step>, b: seq<Step>, id: string)
    ensures CallsOf(a + b, id) == CallsOf(a, id) + CallsOf(b, id)
  {
    if a == [] {
      assert a + b == b;
    } else {
      assert (a + b)[0] == a[0] && (a + b)[1..] == a[1..] + b;
      CallsOfAppend(a[1..], b, id);
    }
  }

  lemma {:induction false} ExpectAppend(x: Expected, a: seq<Step>, b: seq<Step>, id: string)
    ensures ExpectAll(x, a + b, id) == ExpectAll(ExpectAll(x, a, id), b, id)
    decreases |a|
  {
    if a == [] {
      assert a + b == b;
    } else {
      assert (a + b)[0] == a[0] && (a + b)[1..] == a[1..] + b;
      ExpectAppend(Expect(x, a[0], id), a[1..], b, id);
    }
  }

  // ---- repeated ids

  /** Whether answers for an id are held back, told from the steps alone: a cancellation of the id holds them back
      until a supported call repeats the id, or the session is torn down. */
  function Muted(was: bool, steps: seq<Step>, id: string): bool
    decreases |steps|
  {
    if steps == [] then was
    else
      var now :=
        match steps[0]
        case Cancel(ids) => was || id in ids
        case Call(i, supported) => was && !(i == id && supported)
        case Teardown => false
        case Reconnect => false
        case _ => was;
      Muted(now, steps[1..], id)
  }

  lemma {:induction false} CancelledIsMuted(s: Session, steps: seq<Step>, id: string)
    ensures id in Run(s, steps).cancelled <==> Muted(id in s.cancelled, steps, id)
    decreases |steps|
  {
    if steps != [] {
      if steps[0].Cancel? { CancelMarks(s, steps[0].ids); }
      CancelledIsMuted(Next(s, steps[0]), steps[1..], id);
    }
  }

  /** In every run, repeated ids and teardowns included: a call that ends is answered, and then once, exactly when the
      socket is open and its id is not muted. So a call that was cancelled while it waited is answered exactly when
      its id was called again, or the session torn down, after the last cancellation. */
  lemma EndAnsweredExactly(steps: seq<Step>, number: nat, outcome: Outcome)
    requires number in Run(CONNECTED, steps).pendingCalls
    ensures var s := Run(CONNECTED, steps);
            var id := s.pendingCalls[number].id;
            Next(s, SettleCall(number, outcome)).responses ==
              s.responses + if s.open && !Muted(false, steps, id) then [id] else []
  {
    var s := Run(CONNECTED, steps);
    CancelledIsMuted(CONNECTED, steps, s.pendingCalls[number].id);
    assert s.responses + [] == s.responses;
  }

  // ---- what a call is logged as

  function Cut(was: bool, step: Step, id: string): bool {
    match step
    case Cancel(ids) => was || id in ids
    case Call(i, supported) => was && !(i == id && supported)
    case Teardown => true
    case Reconnect => true
    case _ => was
  }

  /** Whether the controller of a waiting call is aborted, told from the steps alone. */
  function CutOff(was: bool, steps: seq<Step>, id: string): bool
    decreases |steps|
  {
    if steps == [] then was else CutOff(Cut(was, steps[0], id), steps[1..], id)
  }

  /** The call with the id that waits, if any, is as far as told, and has its controller unless it is aborted. */
  ghost predicate Controlled(s: Session, id: string, cut: bool) {
    && Numbered(s) && AtMostOne(s, id)
    && (forall n :: n in s.pendingCalls && s.pendingCalls[n].id == id ==>
          s.pendingCalls[n].aborted == cut && (!cut ==> id in s.inFlight && s.inFlight[id] == n))
  }

  ghost predicate AtMostOne(s: Session, id: string) {
    forall n, m :: n in s.pendingCalls && m in s.pendingCalls ==>
      s.pendingCalls[n].id == id && s.pendingCalls[m].id == id ==> n == m
  }

  lemma {:induction false} CancelControls(s: Session, ids: seq<string>, id: string, cut: bool)
    requires Controlled(s, id, cut)
    ensures Controlled(CancelAll(s, ids), id, cut || id in ids)
    decreases |ids|
  {
    if ids != [] { CancelControls(CancelOne(s, ids[0]), ids[1..], id, cut || ids[0] == id); }
  }

  lemma SettleControls(s: Session, n: nat, outcome: Outcome, id: string, cut: bool)
    requires Controlled(s, id, cut)
    ensures Controlled(Next(s, SettleCall(n, outcome)), id, cut)
  {}

  lemma CallControls(s: Session, i: string, supported: bool, id: string, cut: bool)
    requires Controlled(s, id, cut) && (i == id && supported ==> NoCallWaits(s, id))
    ensures Controlled(Next(s, Call(i, supported)), id, Cut(cut, Call(i, supported), id))
  {}

  lemma TeardownControls(s: Session, id: string, cut: bool)
    requires Controlled(s, id, cut)
    ensures Controlled(TearDown(s), id, true) && Controlled(Abandon(s), id, true)
  {}

  lemma StepControls(s: Session, step: Step, id: string, cut: bool)
    requires Controlled(s, id, cut) && (step.Call? && step.id == id && step.supported ==> NoCallWaits(s, id))
    ensures Controlled(Next(s, step), id, Cut(cut, step, id))
  {
    match step
    case Cancel(ids) => CancelControls(s, ids, id, cut);
    case SettleCall(n, outcome) => SettleControls(s, n, outcome, id, cut);
    case Call(i, supported) => CallControls(s, i, supported, id, cut);
    case Teardown => TeardownControls(s, id, cut);
    case Reconnect => TeardownControls(s, id, cut);
    case _ =>
  }

  /** No supported call with the id is made while one waits. */
  ghost predicate OneAtATime(s: Session, steps: seq<Step>, id: string)
    decreases |steps|
  {
    steps != [] ==>
      && (steps[0].Call? && steps[0].id == id && steps[0].supported ==> NoCallWaits(s, id))
      && OneAtATime(Next(s, steps[0]), steps[1..], id)
  }

  lemma {:induction false} RunControls(s: Session, steps: seq<Step>, id: string, cut: bool)
    requires Controlled(s, id, cut) && OneAtATime(s, steps, id)
    ensures Controlled(Run(s, steps), id, CutOff(cut, steps, id))
    decreases |steps|
  {
    if steps != [] {
      StepControls(s, steps[0], id, cut);
      RunControls(Next(s, steps[0]), steps[1..], id, Cut(cut, steps[0], id));
    }
  }

  /** What the end of a call is logged as, in every run that makes no supported call with its id while one waits: a
      success as completed, a failure as an error, a refusal as a rejection; and a throw as a rejection if and only if
      a cancellation or a teardown came since the call was made, else as an error. */
  lemma EndLoggedExactly(steps: seq<Step>, number: nat, outcome: Outcome)
    requires number in Run(CONNECTED, steps).pendingCalls
    requires OneAtATime(CONNECTED, steps, Run(CONNECTED, steps).pendingCalls[number].id)
    ensures var s := Run(CONNECTED, steps);
            var id := s.pendingCalls[number].id;
            Next(s, SettleCall(number, outcome)).events ==
              s.events + [ToolEvent(
                match outcome
                case Resolved(Success) => Completed
                case Resolved(Failed) => Errored
                case Resolved(Rejected) => Refused
                case Thrown => if CutOff(false, steps, id) then Refused else Errored, Live(id))]
  {
    RunControls(CONNECTED, steps, Run(CONNECTED, steps).pendingCalls[number].id, false);
  }

  /** And of an accepted intent, which nothing aborts, in every run. */
  lemma IntentLoggedExactly(steps: seq<Step>, id: string, outcome: Outcome)
    requires id in Run(CONNECTED, steps).pendingIntents
    ensures Next(Run(CONNECTED, steps), SettleIntent(id, outcome)).events ==
              Run(CONNECTED, steps).events + [ToolEvent(
                if outcome == Resolved(Success) then Completed
                else if outcome == Resolved(Rejected) then Refused
                else Errored, Intent(id))]
  {}

  /** With a repeated id the second call clears the cancellation of the first, whose answer is then sent. */
  lemma RepeatedIdAnswersCancelled(id: string)
    ensures var s := Run(CONNECTED, [Call(id, true), Cancel([id]), Call(id, true), SettleCall(0, Thrown)]);
            s.responses == [id] && 0 !in s.pendingCalls
  {
    var s1 := StartCall(CONNECTED, id, true);
    var s2 := CancelOne(s1, id);
    assert CancelAll(s1, [id]) == s2;
    var s3 := StartCall(s2, id, true);
    var s4 := EndCall(s3, 0, Thrown);
    assert s4.responses == [id];
    assert Run(s3, [SettleCall(0, Thrown)]) == s4;
    assert Run(s2, [Call(id, true), SettleCall(0, Thrown)]) == s4;
    assert Run(s1, [Cancel([id]), Call(id, true), SettleCall(0, Thrown)]) == s4;
  }

  /** A call that still waits when the session reconnects is answered on the new socket, even if it was cancelled. */
  lemma ReconnectForgetsCancellation(id: string)
    ensures Run(CONNECTED, [Call(id, true), Cancel([id]), Reconnect, Socket(true), SettleCall(0, Thrown)]).responses
            == [id]
  {
    var s1 := StartCall(CONNECTED, id, true);
    var s2 := CancelOne(s1, id);
    assert CancelAll(s1, [id]) == s2;
    var s3 := Abandon(s2);
    var s4 := s3.(open := true);
    var s5 := EndCall(s4, 0, Thrown);
    assert s5.responses == [id];
    assert Run(s4, [SettleCall(0, Thrown)]) == s5;
    assert Run(s3, [Socket(true), SettleCall(0, Thrown)]) == s5;
    assert Run(s2, [Reconnect, Socket(true), SettleCall(0, Thrown)]) == s5;
    assert Run(s1, [Cancel([id]), Reconnect, Socket(true), SettleCall(0, Thrown)]) == s5;
  }
}
