/** Merging transcript lines and tool events into one conversation, ordered by time. */
module ConversationFlow {
  import opened Text

  datatype Role = User | Assistant

  datatype Line = Line(role: Role, text: string, timestamp: int)

  /** `executedAt` is the time in the event's result, when it has one. */
  datatype ToolEvent = ToolEvent(dispatching: bool, intentId: string, executedAt: Option<int>)

  datatype Entry =
    | LineEntry(index: nat, line: Line)
    | ToolEntry(intentId: string, event: ToolEvent, inflight: bool, at: int)
  {
    function Time(): int { if LineEntry? then line.timestamp else at }
  }

  datatype Group = Group(dispatching: Option<ToolEvent>, terminal: Option<ToolEvent>)

  // ---- the groups, told from the events

  function LastOf(events: seq<ToolEvent>, id: string, dispatching: bool): Option<ToolEvent> {
    if events == [] then None
    else
      var last := events[|events| - 1];
      if last.intentId == id && last.dispatching == dispatching then Some(last)
      else LastOf(events[..|events| - 1], id, dispatching)
  }

  function GroupOf(events: seq<ToolEvent>, id: string): Group {
    Group(LastOf(events, id, true), LastOf(events, id, false))
  }

  /** Intent ids in the order of their first event. */
  function Ids(events: seq<ToolEvent>): seq<string> {
    if events == [] then []
    else
      var before, id := Ids(events[..|events| - 1]), events[|events| - 1].intentId;
      if id in before then before else before + [id]
  }

  function LastAssistant(lines: seq<Line>): Option<nat> {
    if lines == [] then None
    else if lines[|lines| - 1].role == Assistant then Some(|lines| - 1)
    else LastAssistant(lines[..|lines| - 1])
  }

  lemma {:induction false} LastAssistantIndex(lines: seq<Line>)
    ensures LastAssistant(lines).Some? ==>
              LastAssistant(lines).value < |lines| && lines[LastAssistant(lines).value].role == Assistant
    ensures forall i: nat :: i < |lines| && lines[i].role == Assistant ==>
              LastAssistant(lines).Some? && i <= LastAssistant(lines).value
  {
    if lines != [] { LastAssistantIndex(lines[..|lines| - 1]); }
  }

  /** `getTranscriptFallbackTimestamp`. */
  function Fallback(lines: seq<Line>): int {
    LastAssistantIndex(lines);
    var k := LastAssistant(lines);
    if k.Some? then lines[k.value].timestamp + 1
    else if lines != [] then lines[|lines| - 1].timestamp + 1
    else 0
  }

  /** Where a tool in flight is put in time: just after the last assistant line; without one, just after the last line;
      without any, at zero. */
  lemma FallbackExactly(lines: seq<Line>, i: nat)
    requires i < |lines| && lines[i].role == Assistant && forall j :: i < j < |lines| ==> lines[j].role != Assistant
    ensures Fallback(lines) == lines[i].timestamp + 1
  {
    LastAssistantIndex(lines);
  }

  lemma FallbackWithout(lines: seq<Line>)
    requires forall j :: 0 <= j < |lines| ==> lines[j].role != Assistant
    ensures Fallback(lines) == if lines == [] then 0 else lines[|lines| - 1].timestamp + 1
  {
    LastAssistantIndex(lines);
  }

  /** The entry of one intent: its last terminal event, or else its last dispatch, still in flight. */
  function ToolEntryOf(id: string, g: Group, fallback: int): Entry
    requires g.dispatching.Some? || g.terminal.Some?
  {
    if g.terminal.Some? then
      ToolEntry(id, g.terminal.value, false,
                if g.terminal.value.executedAt.Some? then g.terminal.value.executedAt.value else fallback)
    else ToolEntry(id, g.dispatching.value, true, fallback)
  }

  lemma {:induction false} IdsExact(events: seq<ToolEvent>)
    ensures forall id :: id in Ids(events) <==> GroupOf(events, id) != Group(None, None)
    ensures forall i, j :: 0 <= i < j < |Ids(events)| ==> Ids(events)[i] != Ids(events)[j]
  {
    if events != [] { IdsExact(events[..|events| - 1]); }
  }

  lemma {:induction false} LastOfMeaning(events: seq<ToolEvent>, id: string, dispatching: bool)
    ensures LastOf(events, id, dispatching).Some? <==>
              exists e :: e in events && e.intentId == id && e.dispatching == dispatching
  {
    if events != [] {
      assert events == events[..|events| - 1] + [events[|events| - 1]];
      LastOfMeaning(events[..|events| - 1], id, dispatching);
    }
  }

  function LineEntries(lines: seq<Line>): (r: seq<Entry>)
    ensures |r| == |lines| && forall i :: 0 <= i < |r| ==> r[i] == LineEntry(i, lines[i])
  {
    seq(|lines|, i requires 0 <= i < |lines| => LineEntry(i, lines[i]))
  }

  function ToolEntries(events: seq<ToolEvent>, fallback: int): (r: seq<Entry>)
    ensures |r| == |Ids(events)|
    ensures forall i :: 0 <= i < |r| ==>
              GroupOf(events, Ids(events)[i]) != Group(None, None)
              && r[i] == ToolEntryOf(Ids(events)[i], GroupOf(events, Ids(events)[i]), fallback)
  {
    IdsExact(events);
    var ids := Ids(events);
    seq(|ids|, i requires 0 <= i < |ids| => ToolEntryOf(ids[i], GroupOf(events, ids[i]), fallback))
  }

  /** The conversation of these lines and events. */
  function Flow(lines: seq<Line>, events: seq<ToolEvent>): seq<Entry> {
    SortByTime(LineEntries(lines) + ToolEntries(events, Fallback(lines)))
  }

  // ---- sorting by time, ties in place

  function Insert(e: Entry, es: seq<Entry>): seq<Entry> {
    if es == [] || e.Time() <= es[0].Time() then [e] + es else [es[0]] + Insert(e, es[1..])
  }

  function SortByTime(es: seq<Entry>): seq<Entry> {
    if es == [] then [] else Insert(es[0], SortByTime(es[1..]))
  }

  predicate Ordered(es: seq<Entry>) {
    |es| >= 2 ==> es[0].Time() <= es[1].Time() && Ordered(es[1..])
  }

  lemma {:induction false} OrderedPairs(es: seq<Entry>, i: nat, j: nat)
    requires Ordered(es) && i <= j < |es|
    ensures es[i].Time() <= es[j].Time()
    decreases |es|
  {
    if i > 0 { OrderedPairs(es[1..], i - 1, j - 1); } else if j > 0 { OrderedPairs(es[1..], 0, j - 1); }
  }

  function At(es: seq<Entry>, time: int): seq<Entry> {
    if es == [] then [] else (if es[0].Time() == time then [es[0]] else []) + At(es[1..], time)
  }

  lemma {:induction false} InsertKeeps(e: Entry, es: seq<Entry>)
    ensures multiset(Insert(e, es)) == multiset(es) + multiset{e}
  {
    if es != [] && e.Time() > es[0].Time() {
      assert es == [es[0]] + es[1..];
      InsertKeeps(e, es[1..]);
    }
  }

  lemma {:induction false} InsertOrdered(e: Entry, es: seq<Entry>)
    requires Ordered(es)
    ensures Ordered(Insert(e, es))
  {
    if es != [] && e.Time() > es[0].Time() {
      InsertOrdered(e, es[1..]);
      assert Insert(e, es)[1..] == Insert(e, es[1..]);
    } else {
      assert Insert(e, es)[1..] == es;
    }
  }

  lemma {:induction false} InsertStable(e: Entry, es: seq<Entry>, time: int)
    ensures At(Insert(e, es), time) == (if e.Time() == time then [e] else []) + At(es, time)
  {
    var out := Insert(e, es);
    if es != [] && e.Time() > es[0].Time() {
      InsertStable(e, es[1..], time);
      assert out[0] == es[0] && out[1..] == Insert(e, es[1..]);
    } else {
      assert out[0] == e && out[1..] == es;
    }
  }

  /** Sorting keeps every entry and orders by time. */
  lemma {:induction false} SortKeeps(es: seq<Entry>)
    ensures multiset(SortByTime(es)) == multiset(es) && Ordered(SortByTime(es))
  {
    if es != [] {
      assert es == [es[0]] + es[1..];
      SortKeeps(es[1..]);
      InsertKeeps(es[0], SortByTime(es[1..]));
      InsertOrdered(es[0], SortByTime(es[1..]));
    }
  }

  /** Entries of one time keep their order. */
  lemma {:induction false} SortStable(es: seq<Entry>, time: int)
    ensures At(SortByTime(es), time) == At(es, time)
  {
    if es != [] {
      SortStable(es[1..], time);
      InsertStable(es[0], SortByTime(es[1..]), time);
    }
  }

  // ---- building

  method GroupEvents(events: seq<ToolEvent>) returns (order: seq<string>, groups: map<string, Group>)
    ensures order == Ids(events)
    ensures forall id :: id in groups <==> id in order
    ensures forall id :: id in groups ==> groups[id] == GroupOf(events, id)
  {
    order, groups := [], map[];
    for i := 0 to |events|
      invariant order == Ids(events[..i])
      invariant forall id :: id in groups <==> id in order
      invariant forall id :: (if id in groups then groups[id] else Group(None, None)) == GroupOf(events[..i], id)
    {
      var evt := events[i];
      assert events[..i + 1][..i] == events[..i] && events[..i + 1][i] == evt;
      var existing := if evt.intentId in groups then groups[evt.intentId] else Group(None, None);
      if evt.intentId !in groups { order := order + [evt.intentId]; }
      existing := if evt.dispatching then existing.(dispatching := Some(evt)) else existing.(terminal := Some(evt));
      groups := groups[evt.intentId := existing];
    }
    assert events[..|events|] == events;
  }

  /** `buildConversationFlowEntries`. */
  method BuildEntries(lines: seq<Line>, events: seq<ToolEvent>) returns (entries: seq<Entry>)
    ensures entries == Flow(lines, events)
  {
    entries := LineEntries(lines);
    var order, groups := GroupEvents(events);
    IdsExact(events);
    ghost var all := ToolEntries(events, Fallback(lines));
    for i := 0 to |order|
      invariant entries == LineEntries(lines) + all[..i]
    {
      assert order[i] in order;
      var entry := ToolEntryOf(order[i], groups[order[i]], Fallback(lines));
      assert all[..i + 1] == all[..i] + [entry];
      entries := entries + [entry];
    }
    assert all[..|order|] == all;
    entries := SortByTime(entries);
  }

  // ---- what the conversation shows

  predicate ShowsLine(x: Entry, lines: seq<Line>) {
    x.LineEntry? && x.index < |lines| && x.line == lines[x.index]
  }

  /** The entry of an intent that has an event. */
  predicate ShowsIntent(x: Entry, events: seq<ToolEvent>, fallback: int) {
    && x.ToolEntry? && GroupOf(events, x.intentId) != Group(None, None)
    && x == ToolEntryOf(x.intentId, GroupOf(events, x.intentId), fallback)
  }

  lemma ToolsShow(events: seq<ToolEvent>, fallback: int)
    ensures forall x :: x in ToolEntries(events, fallback) <==> ShowsIntent(x, events, fallback)
    ensures AllDifferent(ToolEntries(events, fallback))
  {
    var tools := ToolEntries(events, fallback);
    IdsExact(events);
    forall x | ShowsIntent(x, events, fallback) ensures x in tools {
      assert x.intentId in Ids(events);
      var k :| 0 <= k < |Ids(events)| && Ids(events)[k] == x.intentId;
      assert tools[k] == x;
    }
    forall i, j | 0 <= i < j < |tools| ensures tools[i] != tools[j] {
      assert tools[i].intentId == Ids(events)[i] && tools[j].intentId == Ids(events)[j];
    }
  }

  predicate AllDifferent(es: seq<Entry>) {
    forall i, j :: 0 <= i < j < |es| ==> es[i] != es[j]
  }

  lemma {:induction false} OnceInDifferent(es: seq<Entry>, x: Entry)
    requires AllDifferent(es)
    ensures multiset(es)[x] == if x in es then 1 else 0
  {
    if es != [] {
      assert es == [es[0]] + es[1..];
      OnceInDifferent(es[1..], x);
    }
  }

  /** Exactly one entry per transcript line and one per distinct intent, and nothing else. */
  lemma OneEntryEach(lines: seq<Line>, events: seq<ToolEvent>)
    ensures |Flow(lines, events)| == |lines| + |Ids(events)|
    ensures forall x :: multiset(Flow(lines, events))[x] ==
                        if ShowsLine(x, lines) || ShowsIntent(x, events, Fallback(lines)) then 1 else 0
  {
    var ls, tools := LineEntries(lines), ToolEntries(events, Fallback(lines));
    var entries := Flow(lines, events);
    SortKeeps(ls + tools);
    ToolsShow(events, Fallback(lines));
    assert |entries| == |multiset(entries)| == |ls + tools|;
    assert multiset(ls + tools) == multiset(ls) + multiset(tools);
    forall x
      ensures multiset(entries)[x] == if ShowsLine(x, lines) || ShowsIntent(x, events, Fallback(lines)) then 1 else 0
    {
      OnceInDifferent(ls, x);
      OnceInDifferent(tools, x);
      if ShowsLine(x, lines) { assert ls[x.index] == x; }
    }
  }

  /** A tool is shown in flight exactly when its intent has no terminal event. */
  lemma InFlightExactly(lines: seq<Line>, events: seq<ToolEvent>, x: Entry)
    requires x.ToolEntry? && x in Flow(lines, events)
    ensures ShowsIntent(x, events, Fallback(lines))
    ensures x.inflight <==> !exists e :: e in events && e.intentId == x.intentId && !e.dispatching
  {
    assert x in multiset(Flow(lines, events));
    OneEntryEach(lines, events);
    LastOfMeaning(events, x.intentId, false);
  }

  /** A tool in flight stands after the last assistant line, wherever the sort puts either. */
  lemma InFlightAfterAssistant(lines: seq<Line>, events: seq<ToolEvent>, i: nat, j: nat)
    requires var entries, k := Flow(lines, events), LastAssistant(lines);
             && i < |entries| && j < |entries| && k.Some?
             && entries[i].ToolEntry? && entries[i].inflight
             && ShowsLine(entries[j], lines) && entries[j].index == k.value
    ensures j < i
  {
    var entries := Flow(lines, events);
    assert entries[i] in entries;
    InFlightExactly(lines, events, entries[i]);
    SortKeeps(LineEntries(lines) + ToolEntries(events, Fallback(lines)));
    assert entries[j].Time() < entries[i].Time();
    if i <= j { OrderedPairs(entries, i, j); }
  }

  /** Entries of one time stand in their order of arrival: the lines, then the tools by their first event. */
  lemma FlowStable(lines: seq<Line>, events: seq<ToolEvent>, time: int)
    ensures Ordered(Flow(lines, events))
    ensures At(Flow(lines, events), time)
            == At(LineEntries(lines), time) + At(ToolEntries(events, Fallback(lines)), time)
  {
    var ls, tools := LineEntries(lines), ToolEntries(events, Fallback(lines));
    SortKeeps(ls + tools);
    SortStable(ls + tools, time);
    AtAppend(ls, tools, time);
  }

  lemma {:induction false} AtAppend(a: seq<Entry>, b: seq<Entry>, time: int)
    ensures At(a + b, time) == At(a, time) + At(b, time)
  {
    if a == [] {
      assert a + b == b;
    } else {
      assert (a + b)[0] == a[0] && (a + b)[1..] == a[1..] + b;
      AtAppend(a[1..], b, time);
      AppendAssoc(if a[0].Time() == time then [a[0]] else [], At(a[1..], time), At(b, time));
    }
  }
}
