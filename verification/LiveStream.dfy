/** The live run stream: per-agent state built from stream events, and the actions announced on the way. */
module LiveStream {
  import opened Text
  import opened ActionBlocks
  import opened WrittenBlocks

  const MAX_EVENTS := 20
  const STALE_AFTER := 3 * 60 * 1000

  /** What an action block is announced as; how its JSON is read is left open. */
  type Announce = string -> string

  datatype Kind =
    | Ignored         // the connection notice, and any type without an applier
    | AssistantDelta
    | AssistantFinal
    | LifecycleStart
    | Working     // tool, command, chunk and progress events: the run stays active
    | Finished    // lifecycle end, lifecycle error, error, process exit: the run becomes inactive

  datatype StreamEvent = StreamEvent(
    kind: Kind, agentId: string, runId: Option<string>, text: Option<string>, delta: string, message: string, ts: int)

  datatype Entry = StreamEntry(kind: Kind, runId: Option<string>, message: string, ts: int)
                 | ActionEntry(runId: Option<string>, message: string, ts: int)

  datatype AgentState = AgentState(
    streamingText: string, runId: Option<string>, isActive: bool, isStreaming: bool, events: seq<Entry>,
    lastEventTs: int)

  const EMPTY_STATE := AgentState("", None, false, false, [], 0)

  function LastN<T>(s: seq<T>, n: nat): seq<T> {
    if |s| <= n then s else s[|s| - n..]
  }

  function Announced(blocks: seq<string>, announce: Announce): (r: seq<string>)
    ensures |r| == |blocks| && forall i :: 0 <= i < |r| ==> r[i] == announce(blocks[i])
  {
    if blocks == [] then [] else [announce(blocks[0])] + Announced(blocks[1..], announce)
  }

  /** The blocks a scan reports when `seen` were reported before. */
  function NewBlocks(text: string, seen: nat): seq<string> {
    if |Blocks(text)| <= seen then [] else Blocks(text)[seen..]
  }

  /** `detectMcActions`: scans the whole text again and skips the blocks already counted. */
  method DetectActions(text: string, seen: nat, announce: Announce) returns (actions: seq<string>, total: nat)
    ensures actions == Announced(NewBlocks(text, seen), announce)
    ensures total == |Blocks(text)|
  {
    actions, total := [], 0;
    ghost var found: seq<string> := [];
    var at := 0;
    var m := NextMatch(text, at);
    while m.Some?
      invariant at <= |text| && m == NextMatch(text, at)
      invariant Blocks(text) == found + Blocks(text, at)
      invariant total == |found|
      invariant actions == Reported(found, seen, announce)
      decreases |text| - at
    {
      total := total + 1;
      AppendAssoc(found, [m.value.body], Blocks(text, m.value.end));
      ReportNext(found, m.value.body, seen, announce);
      found := found + [m.value.body];
      if total > seen { actions := actions + [announce(m.value.body)]; }
      at := m.value.end;
      m := NextMatch(text, at);
    }
    assert found == Blocks(text);
  }

  /** What is announced of the blocks found so far. */
  function Reported(found: seq<string>, seen: nat, announce: Announce): seq<string> {
    Announced(if |found| <= seen then [] else found[seen..], announce)
  }

  lemma ReportNext(found: seq<string>, body: string, seen: nat, announce: Announce)
    ensures Reported(found + [body], seen, announce)
            == Reported(found, seen, announce) + if |found| >= seen then [announce(body)] else []
  {
    if |found| >= seen { assert (found + [body])[seen..] == found[seen..] + [body]; }
  }

  function NextText(e: StreamEvent, current: string): string {
    match e.kind
    case AssistantDelta => if e.text.Some? then e.text.value else current + e.delta
    case AssistantFinal => if e.text.Some? then e.text.value else current
    case LifecycleStart => ""
    case _ => current
  }

  function Or<T>(a: Option<T>, b: Option<T>): Option<T> { if a.Some? then a else b }

  datatype Normalized = Normalized(state: AgentState, count: nat, actions: seq<string>)

  /** `normalizeLiveRunStreamEvent`. */
  function Normalize(e: StreamEvent, current: Option<AgentState>, count: nat, announce: Announce): Option<Normalized> {
    if e.kind == Ignored || e.agentId == "" then None
    else
      var was := if current.Some? then current.value else EMPTY_STATE;
      var text := NextText(e, was.streamingText);
      if e.kind == AssistantDelta then
        var actions := Announced(NewBlocks(text, count), announce);
        var entries := seq(|actions|, i requires 0 <= i < |actions| => ActionEntry(e.runId, actions[i], e.ts));
        var events := if actions == [] then was.events else LastN(was.events + entries, MAX_EVENTS);
        Some(Normalized(
          AgentState(text, Or(e.runId, was.runId), true, true, events, e.ts),
          if actions == [] then count else |Blocks(text)|, actions))
      else
        var runId := if e.kind == LifecycleStart then e.runId else Or(e.runId, was.runId);
        var events := LastN(was.events + [StreamEntry(e.kind, e.runId, e.message, e.ts)], MAX_EVENTS);
        Some(Normalized(
          AgentState(text, runId, e.kind != Finished, false, events, e.ts),
          if e.kind == LifecycleStart then 0 else count, []))
  }

  // ---- the hook: one state and one block counter per agent

  datatype Hook = Hook(states: map<string, AgentState>, counts: map<string, nat>)
  {
    function State(a: string): Option<AgentState> { if a in states then Some(states[a]) else None }
    function Count(a: string): nat { if a in counts then counts[a] else 0 }
    function TextOf(a: string): string { if a in states then states[a].streamingText else "" }
    function EventsOf(a: string): seq<Entry> { if a in states then states[a].events else [] }
  }

  datatype Input = Event(e: StreamEvent) | Sweep(now: int)

  predicate Swept(h: Hook, a: string, now: int) {
    a in h.states && now - h.states[a].lastEventTs > 180000
  }

  function Step(h: Hook, input: Input, announce: Announce): Hook {
    match input
    case Event(e) =>
      var n := Normalize(e, h.State(e.agentId), h.Count(e.agentId), announce);
      if n.None? then h
      else Hook(h.states[e.agentId := n.value.state], h.counts[e.agentId := n.value.count])
    case Sweep(now) =>
      Hook(map a | a in h.states && !Swept(h, a, now) :: h.states[a], h.counts)
  }

  /** What an event makes of its agent's state, column by column. */
  lemma EventColumns(h: Hook, e: StreamEvent, announce: Announce)
    requires e.kind != Ignored && e.agentId != ""
    ensures var was, now := h.State(e.agentId), Step(h, Event(e), announce).State(e.agentId);
            && now.Some? && now.value.lastEventTs == e.ts
            && now.value.isActive == (e.kind != Finished) && now.value.isStreaming == (e.kind == AssistantDelta)
            && now.value.runId == (if e.runId.Some? || e.kind == LifecycleStart || was.None? then e.runId
                                   else was.value.runId)
            && now.value.streamingText == (
                 if e.kind == LifecycleStart then ""
                 else if (e.kind == AssistantDelta || e.kind == AssistantFinal) && e.text.Some? then e.text.value
                 else if e.kind == AssistantDelta then h.TextOf(e.agentId) + e.delta
                 else h.TextOf(e.agentId))
  {}

  /** The actions announced for agent `a` by one input. */
  function Emitted(h: Hook, input: Input, a: string, announce: Announce): seq<string> {
    if input.Event? && input.e.agentId == a then
      var n := Normalize(input.e, h.State(a), h.Count(a), announce);
      if n.Some? then n.value.actions else []
    else []
  }

  class LiveRunStream {
    var states: map<string, AgentState>
    var counts: map<string, nat>
    const announce: Announce

    ghost function View(): Hook
      reads this
    {
      Hook(states, counts)
    }

    constructor (announce: Announce)
      ensures View() == Hook(map[], map[]) && this.announce == announce
    {
      states, counts, this.announce := map[], map[], announce;
    }

    method HandleEvent(e: StreamEvent) returns (actions: seq<string>)
      modifies this
      ensures View() == Step(old(View()), Event(e), announce)
      ensures actions == Emitted(old(View()), Event(e), e.agentId, announce)
    {
      actions := [];
      if e.kind == Ignored || e.agentId == "" { return; }
      var agent := e.agentId;
      var was := if agent in states then states[agent] else EMPTY_STATE;
      var count := if agent in counts then counts[agent] else 0;
      var text := NextText(e, was.streamingText);
      var next := was.(streamingText := text, runId := Or(e.runId, was.runId), isActive := true, lastEventTs := e.ts);
      if e.kind == AssistantDelta {
        var total;
        actions, total := DetectActions(text, count, announce);
        next := next.(isStreaming := true);
        if actions != [] {
          var entries := seq(|actions|, i requires 0 <= i < |actions| => ActionEntry(e.runId, actions[i], e.ts));
          next := next.(events := LastN(was.events + entries, MAX_EVENTS));
          count := total;
        }
      } else {
        if e.kind == LifecycleStart {
          next := next.(runId := e.runId);
          count := 0;
        }
        next := next.(
          isActive := e.kind != Finished, isStreaming := false,
          events := LastN(was.events + [StreamEntry(e.kind, e.runId, e.message, e.ts)], MAX_EVENTS));
      }
      states := states[agent := next];
      counts := counts[agent := count];
    }

    /** The sweep of agents without events for three minutes. It drops their states, not their counters. */
    method SweepStale(now: int)
      modifies this
      ensures View() == Step(old(View()), Sweep(now), announce)
    {
      states := map a | a in states && !(now - states[a].lastEventTs > STALE_AFTER) :: states[a];
    }
  }

  // ---- runs

  function Run(h: Hook, inputs: seq<Input>, announce: Announce): Hook
    decreases |inputs|
  {
    if inputs == [] then h else Run(Step(h, inputs[0], announce), inputs[1..], announce)
  }

  function RunEmitted(h: Hook, inputs: seq<Input>, a: string, announce: Announce): seq<string>
    decreases |inputs|
  {
    if inputs == [] then []
    else Emitted(h, inputs[0], a, announce) + RunEmitted(Step(h, inputs[0], announce), inputs[1..], a, announce)
  }

  /** The input only lengthens the text of `a`: no restart, no shorter snapshot, no final text that
      replaces what was streamed, no sweep of `a`. Inputs for other agents are free. */
  predicate Lengthens(h: Hook, input: Input, a: string) {
    match input
    case Sweep(now) => !Swept(h, a, now)
    case Event(e) =>
      e.agentId != a || e.kind == Ignored ||
      (match e.kind
       case LifecycleStart => false
       case AssistantDelta => h.TextOf(a) <= NextText(e, h.TextOf(a))
       case _ => NextText(e, h.TextOf(a)) == h.TextOf(a))
  }

  predicate RunLengthens(h: Hook, inputs: seq<Input>, a: string, announce: Announce)
    decreases |inputs|
  {
    inputs != [] ==>
      Lengthens(h, inputs[0], a) && RunLengthens(Step(h, inputs[0], announce), inputs[1..], a, announce)
  }

  /** The counter of `a` is the number of complete blocks in its text. */
  predicate InStep(h: Hook, a: string) {
    h.Count(a) == |Blocks(h.TextOf(a))|
  }

  /** The announcements of one scan over the whole text of `a`. */
  function Scanned(h: Hook, a: string, announce: Announce): seq<string> {
    Announced(Blocks(h.TextOf(a)), announce)
  }

  lemma AnnouncedAppend(a: seq<string>, b: seq<string>, announce: Announce)
    ensures Announced(a + b, announce) == Announced(a, announce) + Announced(b, announce)
  {}

  /** What a scan of a longer text reports beyond a count is what it reports beyond the count so far,
      followed by the rest. */
  lemma NewBlocksSplit(text: string, end: string, count: nat, announce: Announce)
    requires text <= end
    ensures var reached := if |Blocks(text)| > count then |Blocks(text)| else count;
            Announced(NewBlocks(end, count), announce)
            == Announced(NewBlocks(text, count), announce) + Announced(NewBlocks(end, reached), announce)
  {
    BlocksStable(text, end, 0);
    var now, all := Blocks(text), Blocks(end);
    if |now| > count {
      AppendSlices(now, all, count);
      assert NewBlocks(end, |now|) == all[|now|..];
      AnnouncedAppend(now[count..], all[|now|..], announce);
    }
  }

  lemma {:induction false} StepAnnouncesRest(h: Hook, input: Input, a: string, announce: Announce)
    requires a != "" && InStep(h, a) && Lengthens(h, input, a)
    ensures var h' := Step(h, input, announce);
            && InStep(h', a)
            && Scanned(h', a, announce) == Scanned(h, a, announce) + Emitted(h, input, a, announce)
  {
    var h' := Step(h, input, announce);
    if input.Event? && input.e.agentId == a && input.e.kind == AssistantDelta {
      NewBlocksSplit(h.TextOf(a), h'.TextOf(a), 0, announce);
      BlocksStable(h.TextOf(a), h'.TextOf(a), 0);
    }
  }

  /** However a text is cut into deltas, and whatever else arrives in between, the actions announced for an
      agent are those of one scan over its whole text, each once and in order. */
  lemma {:induction false} EachActionOnce(h: Hook, inputs: seq<Input>, a: string, announce: Announce)
    requires a != "" && InStep(h, a) && RunLengthens(h, inputs, a, announce)
    ensures var h' := Run(h, inputs, announce);
            && InStep(h', a)
            && Scanned(h', a, announce) == Scanned(h, a, announce) + RunEmitted(h, inputs, a, announce)
    decreases |inputs|
  {
    if inputs != [] {
      var next := Step(h, inputs[0], announce);
      StepAnnouncesRest(h, inputs[0], a, announce);
      EachActionOnce(next, inputs[1..], a, announce);
      AppendAssoc(Scanned(h, a, announce), Emitted(h, inputs[0], a, announce),
          RunEmitted(next, inputs[1..], a, announce));
    }
  }

  /** A `lifecycle_start` always brings the counter in step. */
  lemma StartInStep(h: Hook, e: StreamEvent, announce: Announce)
    requires e.kind == LifecycleStart && e.agentId != ""
    ensures var h' := Step(h, Event(e), announce);
            InStep(h', e.agentId) && h'.TextOf(e.agentId) == "" && Blocks("") == []
  {}

  function Concat(parts: seq<string>): string {
    if parts == [] then "" else parts[0] + Concat(parts[1..])
  }

  function Deltas(a: string, parts: seq<string>, ts: int): seq<Input> {
    if parts == [] then []
    else [Event(StreamEvent(AssistantDelta, a, None, None, parts[0], "", ts))] + Deltas(a, parts[1..], ts)
  }

  lemma {:induction false} DeltasConcat(h: Hook, a: string, parts: seq<string>, ts: int, announce: Announce)
    requires a != ""
    ensures RunLengthens(h, Deltas(a, parts, ts), a, announce)
    ensures Run(h, Deltas(a, parts, ts), announce).TextOf(a) == h.TextOf(a) + Concat(parts)
    decreases |parts|
  {
    if parts != [] {
      var all := Deltas(a, parts, ts);
      assert all[1..] == Deltas(a, parts[1..], ts);
      var next := Step(h, all[0], announce);
      assert next.TextOf(a) == h.TextOf(a) + parts[0] && Lengthens(h, all[0], a);
      DeltasConcat(next, a, parts[1..], ts, announce);
      AppendAssoc(h.TextOf(a), parts[0], Concat(parts[1..]));
    } else {
      assert h.TextOf(a) + "" == h.TextOf(a);
    }
  }

  /** After a start, any split of a text into deltas announces exactly the actions of the whole text. */
  lemma {:induction false} AnySplit(h: Hook, start: StreamEvent, parts: seq<string>, ts: int, announce: Announce)
    requires start.kind == LifecycleStart && start.agentId != ""
    ensures RunEmitted(Step(h, Event(start), announce), Deltas(start.agentId, parts, ts), start.agentId, announce)
            == Announced(Blocks(Concat(parts)), announce)
  {
    var a := start.agentId;
    var h0 := Step(h, Event(start), announce);
    StartInStep(h, start, announce);
    DeltasConcat(h0, a, parts, ts, announce);
    EachActionOnce(h0, Deltas(a, parts, ts), a, announce);
    assert "" + Concat(parts) == Concat(parts);
    assert Announced([], announce) == [];
  }

  /** After a start, a message written with blocks of these bodies announces exactly them, each once and in order,
      however the message is split into deltas. */
  lemma WrittenActionsAnnounced(
    h: Hook, start: StreamEvent, parts: seq<string>, ts: int, bodies: seq<string>, announce: Announce
  )
    requires start.kind == LifecycleStart && start.agentId != "" && WrittenAs(Concat(parts), bodies)
    ensures var said := RunEmitted(Step(h, Event(start), announce), Deltas(start.agentId, parts, ts), start.agentId,
                                   announce);
            |said| == |bodies| && forall i :: 0 <= i < |said| ==> said[i] == announce(bodies[i])
  {
    AnySplit(h, start, parts, ts, announce);
    BlocksExactly(Concat(parts), bodies);
  }

  lemma {:induction false} RunTextGrows(h: Hook, inputs: seq<Input>, a: string, announce: Announce)
    requires a != "" && RunLengthens(h, inputs, a, announce)
    ensures h.TextOf(a) <= Run(h, inputs, announce).TextOf(a)
    decreases |inputs|
  {
    if inputs != [] { RunTextGrows(Step(h, inputs[0], announce), inputs[1..], a, announce); }
  }

  /** Some input scans the text of `a`. */
  predicate Scans(inputs: seq<Input>, a: string) {
    exists input :: input in inputs && ScansNow(input, a)
  }

  predicate ScansNow(input: Input, a: string) {
    input.Event? && input.e.agentId == a && input.e.kind == AssistantDelta
  }

  /** What a step announces, and where it leaves the counter, from any state. */
  lemma StepFromAny(h: Hook, input: Input, a: string, announce: Announce)
    requires a != ""
    ensures var h', count := Step(h, input, announce), h.Count(a);
            if ScansNow(input, a)
            then
              && Emitted(h, input, a, announce) == Announced(NewBlocks(h'.TextOf(a), count), announce)
              && h'.Count(a) == (if |Blocks(h'.TextOf(a))| > count then |Blocks(h'.TextOf(a))| else count)
            else
              && Emitted(h, input, a, announce) == []
              && (!(input.Event? && input.e.agentId == a && input.e.kind == LifecycleStart) ==> h'.Count(a) == count)
  {}

  lemma {:induction false} QuietKeepsText(h: Hook, inputs: seq<Input>, a: string, announce: Announce)
    requires a != "" && RunLengthens(h, inputs, a, announce) && !Scans(inputs, a)
    ensures Run(h, inputs, announce).TextOf(a) == h.TextOf(a)
    decreases |inputs|
  {
    if inputs != [] {
      assert inputs[0] in inputs && forall input :: input in inputs[1..] ==> input in inputs;
      QuietKeepsText(Step(h, inputs[0], announce), inputs[1..], a, announce);
    }
  }

  /** From any state, a run that lengthens the text announces the blocks beyond the counter it began with, if it scans
      at all. */
  lemma {:induction false} RunFromAny(h: Hook, inputs: seq<Input>, a: string, announce: Announce)
    requires a != "" && RunLengthens(h, inputs, a, announce)
    ensures RunEmitted(h, inputs, a, announce) ==
              if Scans(inputs, a)
              then Announced(NewBlocks(Run(h, inputs, announce).TextOf(a), h.Count(a)), announce)
              else []
    decreases |inputs|
  {
    if inputs != [] {
      var next, rest := Step(h, inputs[0], announce), inputs[1..];
      assert inputs[0] in inputs && forall input :: input in inputs <==> input == inputs[0] || input in rest;
      RunFromAny(next, rest, a, announce);
      RunSplit(h, inputs[0], rest, a, announce);
    }
  }

  lemma RunSplit(h: Hook, input: Input, rest: seq<Input>, a: string, announce: Announce)
    requires a != "" && !(input.Event? && input.e.agentId == a && input.e.kind == LifecycleStart)
    requires var next := Step(h, input, announce);
             && RunLengthens(next, rest, a, announce)
             && RunEmitted(next, rest, a, announce) ==
                  (if Scans(rest, a)
                   then Announced(NewBlocks(Run(next, rest, announce).TextOf(a), next.Count(a)), announce)
                   else [])
    ensures var next := Step(h, input, announce);
            Emitted(h, input, a, announce) + RunEmitted(next, rest, a, announce) ==
              if ScansNow(input, a) || Scans(rest, a)
              then Announced(NewBlocks(Run(next, rest, announce).TextOf(a), h.Count(a)), announce) else []
  {
    var next := Step(h, input, announce);
    StepFromAny(h, input, a, announce);
    if ScansNow(input, a) {
      RunTextGrows(next, rest, a, announce);
      NewBlocksSplit(next.TextOf(a), Run(next, rest, announce).TextOf(a), h.Count(a), announce);
      if !Scans(rest, a) { QuietKeepsText(next, rest, a, announce); }
    }
  }

  /** When the counter is ahead of the text, a run announces only the blocks beyond the counter. */
  lemma {:induction false} AheadSkips(h: Hook, inputs: seq<Input>, a: string, announce: Announce)
    requires a != "" && h.Count(a) >= |Blocks(h.TextOf(a))| && RunLengthens(h, inputs, a, announce)
    ensures var h' := Run(h, inputs, announce);
            RunEmitted(h, inputs, a, announce) == Announced(NewBlocks(h'.TextOf(a), h.Count(a)), announce)
  {
    RunFromAny(h, inputs, a, announce);
    if !Scans(inputs, a) { QuietKeepsText(h, inputs, a, announce); }
  }

  /** An event that may replace the text of `a` by any other: a snapshot, or the final text, which is not scanned. */
  predicate Replaces(e: StreamEvent, a: string) {
    e.agentId == a && (e.kind == AssistantDelta || e.kind == AssistantFinal)
  }

  /** If and only if: after the text was replaced, whatever by, everything announced for an agent is again one scan of
      its whole text exactly when the new text's announcements begin with the old ones, and either some delta scanned
      since or there is nothing more to announce. */
  lemma ReplacedExactly(h: Hook, e: StreamEvent, inputs: seq<Input>, a: string, announce: Announce)
    requires a != "" && InStep(h, a) && Replaces(e, a)
    requires RunLengthens(Step(h, Event(e), announce), inputs, a, announce)
    ensures var h1 := Step(h, Event(e), announce);
            var emitted := Emitted(h, Event(e), a, announce) + RunEmitted(h1, inputs, a, announce);
            var end := Run(h1, inputs, announce);
            Scanned(h, a, announce) + emitted == Scanned(end, a, announce) <==>
              && Scanned(h, a, announce) <= Scanned(end, a, announce)
              && (ScansNow(Event(e), a) || Scans(inputs, a)
                  || |Scanned(end, a, announce)| == |Scanned(h, a, announce)|)
  {
    var h1 := Step(h, Event(e), announce);
    RunFromAny(h1, inputs, a, announce);
    RunSplit(h, Event(e), inputs, a, announce);
    BeyondIsRest(Blocks(Run(h1, inputs, announce).TextOf(a)), Scanned(h, a, announce), announce);
  }

  lemma BeyondIsRest(blocks: seq<string>, heard: seq<string>, announce: Announce)
    ensures var all := Announced(blocks, announce);
            var beyond := Announced(if |blocks| <= |heard| then [] else blocks[|heard|..], announce);
            && (heard + beyond == all <==> heard <= all)
            && (heard + [] == all <==> heard <= all && |all| == |heard|)
  {
    var all := Announced(blocks, announce);
    if |blocks| > |heard| {
      var beyond := Announced(blocks[|heard|..], announce);
      assert beyond == all[|heard|..];
      RestAppended(heard, all, beyond);
    } else {
      RestAppended(heard, all, []);
    }
    assert heard + [] == heard;
  }

  lemma RestAppended(heard: seq<string>, all: seq<string>, beyond: seq<string>)
    requires beyond == if |all| <= |heard| then [] else all[|heard|..]
    ensures heard + beyond == all <==> heard <= all
  {
    if heard <= all { assert all == all[..|heard|] + all[|heard|..]; }
  }

  /** After a sweep dropped an agent, its next text starts empty but its counter does not: the run that follows
      announces all of its blocks exactly when nothing was counted before, or no block completes. */
  lemma {:induction false} SweepLosesActions(h: Hook, now: int, inputs: seq<Input>, a: string, announce: Announce)
    requires a != "" && Swept(h, a, now)
    requires RunLengthens(Step(h, Sweep(now), announce), inputs, a, announce)
    ensures var h0 := Step(h, Sweep(now), announce);
            var blocks := Blocks(Run(h0, inputs, announce).TextOf(a));
            && RunEmitted(h0, inputs, a, announce)
                == Announced(NewBlocks(Run(h0, inputs, announce).TextOf(a), h.Count(a)), announce)
            && (RunEmitted(h0, inputs, a, announce) == Announced(blocks, announce) <==> h.Count(a) == 0 || blocks == [])
  {
    var h0 := Step(h, Sweep(now), announce);
    assert h0.TextOf(a) == "" && Blocks("") == [];
    AheadSkips(h0, inputs, a, announce);
    var t := Run(h0, inputs, announce).TextOf(a);
    assert |Announced(NewBlocks(t, h.Count(a)), announce)| == |NewBlocks(t, h.Count(a))|;
  }

  // ---- the event list

  /** The entries that one input adds for agent `a`: one per announced action, or one for the event itself. */
  function Entries(h: Hook, input: Input, a: string, announce: Announce): seq<Entry> {
    if !input.Event? || input.e.agentId != a || input.e.kind == Ignored then []
    else if input.e.kind == AssistantDelta then ActionEntries(input.e, Emitted(h, input, a, announce))
    else [StreamEntry(input.e.kind, input.e.runId, input.e.message, input.e.ts)]
  }

  function ActionEntries(e: StreamEvent, actions: seq<string>): seq<Entry> {
    seq(|actions|, i requires 0 <= i < |actions| => ActionEntry(e.runId, actions[i], e.ts))
  }

  function RunEntries(h: Hook, inputs: seq<Input>, a: string, announce: Announce): seq<Entry>
    decreases |inputs|
  {
    if inputs == [] then []
    else Entries(h, inputs[0], a, announce) + RunEntries(Step(h, inputs[0], announce), inputs[1..], a, announce)
  }

  predicate Unswept(h: Hook, inputs: seq<Input>, a: string, announce: Announce)
    decreases |inputs|
  {
    inputs != [] ==>
      && !(inputs[0].Sweep? && Swept(h, a, inputs[0].now))
      && Unswept(Step(h, inputs[0], announce), inputs[1..], a, announce)
  }

  lemma StepEntries(h: Hook, input: Input, a: string, announce: Announce)
    requires a != "" && |h.EventsOf(a)| <= MAX_EVENTS && !(input.Sweep? && Swept(h, a, input.now))
    ensures Step(h, input, announce).EventsOf(a) == LastN(h.EventsOf(a) + Entries(h, input, a, announce), MAX_EVENTS)
  {
    var added := Entries(h, input, a, announce);
    if added == [] {
      assert h.EventsOf(a) + added == h.EventsOf(a);
    }
  }

  lemma LastNAppend<T>(a: seq<T>, b: seq<T>, n: nat)
    ensures LastN(LastN(a, n) + b, n) == LastN(a + b, n)
  {}

  /** Over every run in which an agent is not swept, its event list is the last twenty of everything that happened:
      each announced action and each other event, once and in order. */
  lemma {:induction false} EventsExact(h: Hook, inputs: seq<Input>, a: string, announce: Announce)
    requires a != "" && |h.EventsOf(a)| <= 20 && Unswept(h, inputs, a, announce)
    ensures Run(h, inputs, announce).EventsOf(a)
            == LastN(h.EventsOf(a) + RunEntries(h, inputs, a, announce), 20)
    decreases |inputs|
  {
    if inputs == [] {
      assert h.EventsOf(a) + [] == h.EventsOf(a);
    } else {
      var next, added := Step(h, inputs[0], announce), Entries(h, inputs[0], a, announce);
      var rest := RunEntries(next, inputs[1..], a, announce);
      StepEntries(h, inputs[0], a, announce);
      EventsExact(next, inputs[1..], a, announce);
      LastNAppend(h.EventsOf(a) + added, rest, MAX_EVENTS);
      AppendAssoc(h.EventsOf(a), added, rest);
    }
  }
}
