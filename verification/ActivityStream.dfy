/** The in-memory activity stream: bounded history per task, live subscribers, expiry of idle tasks. */
module ActivityStream {
  import opened Text

  const MAX_EVENTS := 200
  const EXPIRY_MS := 30 * 60 * 1000
  const BURST := 50

  datatype Event = Event(taskId: string, id: string)

  /** The controller of one open event stream. */
  type Controller = nat

  function LastN<T>(s: seq<T>, n: nat): seq<T> {
    if |s| <= n then s else s[|s| - n..]
  }

  /** `sent` is what each controller accepted so far. */
  datatype State = State(
    streams: map<string, seq<Event>>, listeners: map<string, set<Controller>>, lastActivity: map<string, int>,
    sent: map<Controller, seq<Event>>)
  {
    function Stored(task: string): seq<Event> { if task in streams then streams[task] else [] }
    function Listening(task: string): set<Controller> { if task in listeners then listeners[task] else {} }
    function Sent(c: Controller): seq<Event> { if c in sent then sent[c] else [] }
    predicate Expired(task: string, now: int) { task in lastActivity && !(now - lastActivity[task] < EXPIRY_MS) }
    function Gone(now: int): set<string> { set task | task in lastActivity && Expired(task, now) }
  }

  const START := State(map[], map[], map[], map[])

  /** `broken` are the controllers whose `enqueue` throws during the push. `Connect` is the stream endpoint:
      a burst of stored events, then a subscription. */
  datatype Op =
    | Push(event: Event, now: int, broken: set<Controller>)
    | Subscribe(task: string, c: Controller)
    | Connect(task: string, c: Controller)
    | Unsubscribe(task: string, c: Controller)
    | Sweep(now: int)

  function Deliver(sent: map<Controller, seq<Event>>, to: set<Controller>, event: Event): map<Controller, seq<Event>> {
    map c | c in sent.Keys + to ::
      if c !in to then sent[c] else if c in sent then sent[c] + [event] else [event]
  }

  function Step(s: State, op: Op): State {
    match op
    case Push(e, now, broken) =>
      var task, subs := e.taskId, s.Listening(e.taskId);
      State(
        s.streams[task := LastN(s.Stored(task) + [e], MAX_EVENTS)],
        if task in s.listeners then s.listeners[task := subs - broken] else s.listeners,
        s.lastActivity[task := now],
        Deliver(s.sent, subs - broken, e))
    case Subscribe(task, c) => s.(listeners := s.listeners[task := s.Listening(task) + {c}])
    case Connect(task, c) =>
      s.(listeners := s.listeners[task := s.Listening(task) + {c}],
         sent := s.sent[c := s.Sent(c) + LastN(s.Stored(task), BURST)])
    case Unsubscribe(task, c) =>
      var left := s.Listening(task) - {c};
      s.(listeners := if left == {} then s.listeners - {task} else s.listeners[task := left])
    case Sweep(now) =>
      var gone := s.Gone(now);
      s.(streams := s.streams - gone, listeners := s.listeners - gone, lastActivity := s.lastActivity - gone)
  }

  class Stream {
    var streams: map<string, seq<Event>>
    var listeners: map<string, set<Controller>>
    var lastActivity: map<string, int>
    var sent: map<Controller, seq<Event>>

    ghost function View(): State
      reads this
    {
      State(streams, listeners, lastActivity, sent)
    }

    constructor ()
      ensures View() == START
    {
      streams, listeners, lastActivity, sent := map[], map[], map[], map[];
    }

    /** A full list has one event too many after the push and loses its first. */
    method PushEvent(event: Event, now: int, broken: set<Controller>)
      requires forall task :: task in streams ==> |streams[task]| <= MAX_EVENTS
      modifies this
      ensures View() == Step(old(View()), Push(event, now, broken))
    {
      var task := event.taskId;
      if task !in streams { streams := streams[task := []]; }
      var list := streams[task] + [event];
      if |list| > MAX_EVENTS { list := list[1..]; }
      streams := streams[task := list];
      lastActivity := lastActivity[task := now];
      if task in listeners {
        Notify(task, event, broken);
      } else {
        assert Deliver(sent, {}, event) == sent;
      }
    }

    /** Enqueues to every subscriber; one that throws is dropped while the loop goes on. */
    method Notify(task: string, event: Event, broken: set<Controller>)
      requires task in listeners
      modifies this`listeners, this`sent
      ensures listeners == old(listeners)[task := old(listeners)[task] - broken]
      ensures sent == Deliver(old(sent), old(listeners)[task] - broken, event)
    {
      var subs := listeners[task];
      var todo := subs;
      while todo != {}
        invariant todo <= subs
        invariant task in listeners && listeners == old(listeners)[task := listeners[task]]
        invariant forall c :: c in listeners[task] <==> c in subs && (c in broken ==> c in todo)
        invariant sent == Deliver(old(sent), (subs - todo) - broken, event)
        decreases todo
      {
        var c :| c in todo;
        todo := todo - {c};
        if c in broken {
          listeners := listeners[task := listeners[task] - {c}];
        } else {
          sent := sent[c := if c in sent then sent[c] + [event] else [event]];
        }
      }
      assert listeners[task] == subs - broken;
    }

    method SubscribeTo(task: string, c: Controller)
      modifies this
      ensures View() == Step(old(View()), Subscribe(task, c))
    {
      if task !in listeners { listeners := listeners[task := {}]; }
      listeners := listeners[task := listeners[task] + {c}];
    }

    method ConnectTo(task: string, c: Controller)
      modifies this
      ensures View() == Step(old(View()), Connect(task, c))
    {
      var existing := LastN(if task in streams then streams[task] else [], BURST);
      sent := sent[c := (if c in sent then sent[c] else []) + existing];
      SubscribeTo(task, c);
    }

    method UnsubscribeFrom(task: string, c: Controller)
      modifies this
      ensures View() == Step(old(View()), Unsubscribe(task, c))
    {
      if task in listeners {
        listeners := listeners[task := listeners[task] - {c}];
        if listeners[task] == {} { listeners := listeners - {task}; }
      } else {
        assert listeners - {task} == listeners;
      }
    }

    /** `getActiveTaskIds`. */
    method ActiveTaskIds(now: int) returns (active: set<string>)
      modifies this
      ensures View() == Step(old(View()), Sweep(now))
      ensures active == lastActivity.Keys
    {
      active := {};
      var todo := lastActivity.Keys;
      ghost var gone: set<string> := {};
      while todo != {}
        invariant todo <= old(lastActivity).Keys && gone <= old(lastActivity).Keys - todo
        invariant forall t :: t in gone <==> t !in todo && old(View()).Expired(t, now)
        invariant active == old(lastActivity).Keys - todo - gone
        invariant streams == old(streams) - gone && listeners == old(listeners) - gone && sent == old(sent)
        invariant lastActivity == old(lastActivity) - gone
        decreases todo
      {
        var task :| task in todo;
        todo := todo - {task};
        if now - lastActivity[task] < EXPIRY_MS {
          active := active + {task};
        } else {
          streams, lastActivity, listeners := streams - {task}, lastActivity - {task}, listeners - {task};
          gone := gone + {task};
        }
      }
      assert gone == old(View()).Gone(now);
    }
  }

  // ---- every run

  function Run(s: State, ops: seq<Op>): State
    decreases |ops|
  {
    if ops == [] then s else Run(Step(s, ops[0]), ops[1..])
  }

  /** One task told without bounds: everything pushed since it last expired, and when it was last active. */
  datatype Told = Told(pushed: seq<Event>, last: Option<int>)

  function Tell(t: Told, op: Op, task: string): Told {
    match op
    case Push(e, now, _) => if e.taskId == task then Told(t.pushed + [e], Some(now)) else t
    case Sweep(now) => if t.last.Some? && !(now - t.last.value < 1800000) then Told([], None) else t
    case _ => t
  }

  function TellAll(t: Told, ops: seq<Op>, task: string): Told
    decreases |ops|
  {
    if ops == [] then t else TellAll(Tell(t, ops[0], task), ops[1..], task)
  }

  ghost predicate HistoryKept(s: State, t: Told, task: string) {
    && s.Stored(task) == LastN(t.pushed, 200)
    && (task in s.streams <==> t.last.Some?)
    && (task in s.lastActivity <==> t.last.Some?)
    && (t.last.Some? ==> s.lastActivity[task] == t.last.value)
    && (t.last.None? ==> t.pushed == [])
  }

  lemma LastNAppend<T>(s: seq<T>, x: T, n: nat)
    requires n > 0
    ensures LastN(LastN(s, n) + [x], n) == LastN(s + [x], n)
  {}

  lemma {:induction false} StoredIsLastPushed(s: State, ops: seq<Op>, t: Told, task: string)
    requires HistoryKept(s, t, task)
    ensures HistoryKept(Run(s, ops), TellAll(t, ops, task), task)
    decreases |ops|
  {
    if ops != [] {
      StepHistory(s, ops[0], t, task);
      StoredIsLastPushed(Step(s, ops[0]), ops[1..], Tell(t, ops[0], task), task);
    }
  }

  /** In every run a task's stored events are exactly the last 200 pushed since it last expired,
      and history and activity times are kept for the same tasks. */
  lemma HistoryExact(ops: seq<Op>, task: string)
    ensures HistoryKept(Run(START, ops), TellAll(Told([], None), ops, task), task)
  {
    StoredIsLastPushed(START, ops, Told([], None), task);
  }

  // ---- one subscriber

  function Of(events: seq<Event>, task: string): seq<Event> {
    if events == [] then []
    else
      var last := events[|events| - 1];
      Of(events[..|events| - 1], task) + if last.taskId == task then [last] else []
  }

  lemma {:induction false} OfAppend(a: seq<Event>, b: seq<Event>, task: string)
    ensures Of(a + b, task) == Of(a, task) + Of(b, task)
    decreases |b|
  {
    if b == [] {
      assert a + b == a;
    } else {
      assert (a + b)[..|a + b| - 1] == a + b[..|b| - 1];
      OfAppend(a, b[..|b| - 1], task);
    }
  }

  lemma {:induction false} OfAll(events: seq<Event>, task: string)
    requires forall e :: e in events ==> e.taskId == task
    ensures Of(events, task) == events
  {
    if events != [] {
      OfAll(events[..|events| - 1], task);
      assert events[..|events| - 1] + [events[|events| - 1]] == events;
    }
  }

  /** One subscription told from the operations: whether it is on, and what it should have received. It ends with
      its unsubscribe, the expiry of the task, or the first push during which its controller throws. */
  datatype Subscription = Subscription(on: bool, got: seq<Event>)

  function Follow(x: Subscription, t: Told, op: Op, task: string, c: Controller): Subscription {
    match op
    case Push(e, _, broken) =>
      if e.taskId != task || !x.on then x
      else if c in broken then x.(on := false)
      else x.(got := x.got + [e])
    case Subscribe(k, d) => if k == task && d == c then x.(on := true) else x
    case Connect(k, d) =>
      if d != c then x
      else if k != task then x
      else Subscription(true, x.got + LastN(LastN(t.pushed, 200), 50))
    case Unsubscribe(k, d) => if k == task && d == c then x.(on := false) else x
    case Sweep(now) => if t.last.Some? && !(now - t.last.value < 1800000) then x.(on := false) else x
  }

  function FollowAll(x: Subscription, t: Told, ops: seq<Op>, task: string, c: Controller): Subscription
    decreases |ops|
  {
    if ops == [] then x else FollowAll(Follow(x, t, ops[0], task, c), Tell(t, ops[0], task), ops[1..], task, c)
  }

  ghost predicate Received(s: State, x: Subscription, t: Told, task: string, c: Controller) {
    && HistoryKept(s, t, task)
    && (c in s.Listening(task) <==> x.on)
    && Of(s.Sent(c), task) == x.got
    && Sorted(s)
  }

  lemma StepHistory(s: State, op: Op, t: Told, task: string)
    requires HistoryKept(s, t, task)
    ensures HistoryKept(Step(s, op), Tell(t, op, task), task)
  {
    if op.Push? { LastNAppend(t.pushed, op.event, MAX_EVENTS); }
  }

  /** Stored events belong to their task. */
  ghost predicate Sorted(s: State) {
    forall k, e :: k in s.streams && e in s.streams[k] ==> e.taskId == k
  }

  lemma StepSorted(s: State, op: Op)
    requires Sorted(s)
    ensures Sorted(Step(s, op))
  {}

  lemma StepListening(s: State, op: Op, x: Subscription, t: Told, task: string, c: Controller)
    requires HistoryKept(s, t, task) && (c in s.Listening(task) <==> x.on)
    ensures c in Step(s, op).Listening(task) <==> Follow(x, t, op, task, c).on
  {}

  lemma StepSent(s: State, op: Op, x: Subscription, t: Told, task: string, c: Controller)
    requires HistoryKept(s, t, task) && Sorted(s) && (c in s.Listening(task) <==> x.on) && Of(s.Sent(c), task) == x.got
    ensures Of(Step(s, op).Sent(c), task) == Follow(x, t, op, task, c).got
  {
    match op
    case Push(e, _, _) => OfAppend(s.Sent(c), [e], task); OfAll([], task);
      if e.taskId == task { OfAll([e], task); } else { OfOthers([e], task); }
    case Connect(k, d) =>
      var burst := LastN(s.Stored(k), BURST);
      OfAppend(s.Sent(c), burst, task);
      if k == task { OfAll(burst, task); } else { OfOthers(burst, task); }
    case _ =>
  }

  lemma StepReceived(s: State, op: Op, x: Subscription, t: Told, task: string, c: Controller)
    requires Received(s, x, t, task, c)
    ensures Received(Step(s, op), Follow(x, t, op, task, c), Tell(t, op, task), task, c)
  {
    StepHistory(s, op, t, task);
    StepSorted(s, op);
    StepListening(s, op, x, t, task, c);
    StepSent(s, op, x, t, task, c);
  }

  lemma {:induction false} OfOthers(events: seq<Event>, task: string)
    requires forall e :: e in events ==> e.taskId != task
    ensures Of(events, task) == []
  {
    if events != [] { OfOthers(events[..|events| - 1], task); }
  }

  /** In every run each subscriber receives, of its task, exactly the events pushed while its subscription is on,
      each once and in order. */
  lemma {:induction false} SubscribersExact(
    s: State, ops: seq<Op>, x: Subscription, t: Told, task: string, c: Controller
  )
    requires Received(s, x, t, task, c)
    ensures Received(Run(s, ops), FollowAll(x, t, ops, task, c), TellAll(t, ops, task), task, c)
    decreases |ops|
  {
    if ops != [] {
      StepReceived(s, ops[0], x, t, task, c);
      SubscribersExact(Step(s, ops[0]), ops[1..], Follow(x, t, ops[0], task, c), Tell(t, ops[0], task), task, c);
    }
  }

  // ---- one connection

  /** The last events of everything pushed, as many as the burst holds or more. */
  predicate HoldsTail(got: seq<Event>, pushed: seq<Event>) {
    && |got| <= |pushed| && got == pushed[|pushed| - |got|..]
    && |got| >= if |pushed| < 50 then |pushed| else 50
  }

  /** While the subscription is on, the client holds such a tail: no gap between the burst of stored events and the
      live ones. */
  predicate Contiguous(x: Subscription, t: Told) {
    x.on ==> HoldsTail(x.got, t.pushed)
  }

  predicate Joins(op: Op, task: string, c: Controller) {
    (op.Subscribe? || op.Connect?) && op.task == task && op.c == c
  }

  lemma ConnectContiguous(t: Told, task: string, c: Controller)
    ensures Contiguous(Follow(Subscription(false, []), t, Connect(task, c), task, c), t)
  {
    assert LastN(LastN(t.pushed, MAX_EVENTS), BURST) == LastN(t.pushed, BURST);
  }

  lemma TailGrows(got: seq<Event>, pushed: seq<Event>, e: Event)
    requires HoldsTail(got, pushed)
    ensures HoldsTail(got + [e], pushed + [e])
  {}

  /** What one operation does to a subscription that it leaves on. */
  lemma StaysOn(x: Subscription, t: Told, op: Op, task: string, c: Controller)
    requires !Joins(op, task, c)
    ensures var y, u := Follow(x, t, op, task, c), Tell(t, op, task);
            y.on ==>
              && x.on
              && (if op.Push? && op.event.taskId == task
                  then y.got == x.got + [op.event] && u.pushed == t.pushed + [op.event]
                  else y.got == x.got && u.pushed == t.pushed)
  {}

  lemma StepContiguous(x: Subscription, t: Told, op: Op, task: string, c: Controller)
    requires Contiguous(x, t) && !Joins(op, task, c)
    ensures Contiguous(Follow(x, t, op, task, c), Tell(t, op, task))
  {
    StaysOn(x, t, op, task, c);
    if op.Push? && x.on { TailGrows(x.got, t.pushed, op.event); }
  }

  lemma {:induction false} NoGap(x: Subscription, t: Told, ops: seq<Op>, task: string, c: Controller)
    requires Contiguous(x, t) && forall op :: op in ops ==> !Joins(op, task, c)
    ensures Contiguous(FollowAll(x, t, ops, task, c), TellAll(t, ops, task))
    decreases |ops|
  {
    if ops != [] {
      assert ops[0] in ops;
      StepContiguous(x, t, ops[0], task, c);
      NoGap(Follow(x, t, ops[0], task, c), Tell(t, ops[0], task), ops[1..], task, c);
    }
  }

  /** From its connect on, a client holds the last events pushed to its task, at least the burst, without a gap. */
  lemma ConnectedSeesTail(before: seq<Op>, after: seq<Op>, task: string, c: Controller)
    requires forall op :: op in before ==> !Joins(op, task, c)
    requires forall op :: op in after ==> !Joins(op, task, c)
    ensures var ops := before + [Connect(task, c)] + after;
            var t := TellAll(Told([], None), ops, task);
            c in Run(START, ops).Listening(task) ==> HoldsTail(Of(Run(START, ops).Sent(c), task), t.pushed)
  {
    var ops := before + [Connect(task, c)] + after;
    var x0, t0 := Subscription(false, []), Told([], None);
    SubscribersExact(START, ops, x0, t0, task, c);
    var t1 := TellAll(t0, before, task);
    NeverJoined(t0, before, task, c);
    FollowSplit(x0, t0, before, [Connect(task, c)] + after, task, c);
    assert before + ([Connect(task, c)] + after) == ops;
    assert ([Connect(task, c)] + after)[1..] == after;
    ConnectContiguous(t1, task, c);
    NoGap(Follow(x0, t1, Connect(task, c), task, c), t1, after, task, c);
  }

  lemma {:induction false} NeverJoined(t: Told, ops: seq<Op>, task: string, c: Controller)
    requires forall op :: op in ops ==> !Joins(op, task, c)
    ensures FollowAll(Subscription(false, []), t, ops, task, c) == Subscription(false, [])
    decreases |ops|
  {
    if ops != [] {
      assert ops[0] in ops;
      NeverJoined(Tell(t, ops[0], task), ops[1..], task, c);
    }
  }

  lemma {:induction false} FollowSplit(x: Subscription, t: Told, a: seq<Op>, b: seq<Op>, task: string, c: Controller)
    ensures FollowAll(x, t, a + b, task, c) == FollowAll(FollowAll(x, t, a, task, c), TellAll(t, a, task), b, task, c)
    ensures TellAll(t, a + b, task) == TellAll(TellAll(t, a, task), b, task)
    decreases |a|
  {
    if a == [] {
      assert a + b == b;
    } else {
      assert (a + b)[0] == a[0] && (a + b)[1..] == a[1..] + b;
      FollowSplit(Follow(x, t, a[0], task, c), Tell(t, a[0], task), a[1..], b, task, c);
    }
  }
}
