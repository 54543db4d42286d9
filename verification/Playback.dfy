/** The playback ring buffer of the voice session: ten seconds at 24 kHz. */
module Playback {
  import opened Text

  const SIZE := 24000 * 10

  /** What the buffer stands for: everything written since the positions were last reset, and how much was read. */
  datatype Ring = Ring(written: seq<real>, read: nat)
  {
    predicate Ok() { read <= |written| }

    function Unread(): seq<real>
      requires Ok()
    {
      written[read..]
    }
  }

  const EMPTY := Ring([], 0)

  /** The last position below `w` that shares a slot with position `r`. */
  function Latest(r: nat, w: nat): (j: nat)
    requires r < w
    ensures r <= j < w && w <= j + SIZE && j % SIZE == r % SIZE
    ensures w <= r + SIZE ==> j == r
    decreases w - r
  {
    if w <= r + SIZE then r else Latest(r + SIZE, w)
  }

  /** The sample at output position `i` of a `process` call. */
  function Sample(ring: Ring, i: nat): real {
    var at := ring.read + i;
    if at < |ring.written| then ring.written[Latest(at, |ring.written|)] else 0.0
  }

  function Played(ring: Ring, n: nat): seq<real> {
    seq(n, i requires 0 <= i < n => Sample(ring, i))
  }

  function Advance(ring: Ring, n: nat): Ring {
    var read := if ring.read + n <= |ring.written| then ring.read + n else |ring.written|;
    if read >= |ring.written| && ring.written != [] then EMPTY else ring.(read := read)
  }

  /** The last ten seconds lie in slots of their own. */
  lemma SlotsApart(w: nat)
    ensures forall j: nat :: j < w < j + SIZE ==> j % SIZE != w % SIZE
  {}

  class PlaybackProcessor {
    const buffer: array<real>
    var readPos: nat
    var writePos: nat
    ghost var written: seq<real>

    ghost predicate Valid()
      reads this, buffer
    {
      && buffer.Length == SIZE && |written| == writePos && readPos <= writePos
      && forall j: nat :: writePos <= j + SIZE && j < writePos ==> buffer[j % SIZE] == written[j]
    }

    ghost function View(): Ring
      reads this
    {
      Ring(written, readPos)
    }

    constructor ()
      ensures Valid() && View() == EMPTY && fresh(buffer)
    {
      buffer := new real[SIZE];
      readPos, writePos, written := 0, 0, [];
    }

    method Clear()
      requires Valid()
      modifies this
      ensures Valid() && View() == RingStep(old(View()), Op.Clear)
    {
      readPos, writePos, written := 0, 0, [];
    }

    /** A message with samples. */
    method Write(samples: seq<real>)
      requires Valid()
      modifies this, buffer
      ensures Valid() && View() == RingStep(old(View()), Op.Write(samples))
    {
      for i := 0 to |samples|
        invariant Valid() && readPos == old(readPos)
        invariant written == old(written) + samples[..i]
      {
        SlotsApart(writePos);
        buffer[writePos % SIZE] := samples[i];
        writePos := writePos + 1;
        written := written + [samples[i]];
        assert samples[..i + 1] == samples[..i] + [samples[i]];
      }
      assert samples[..|samples|] == samples;
    }

    /** One render quantum, written into `channel`. */
    method Process(channel: array<real>)
      requires Valid() && channel != buffer
      modifies this, channel
      ensures Valid()
      ensures channel[..] == RingOutput(old(View()), Op.Process(channel.Length))
      ensures View() == RingStep(old(View()), Op.Process(channel.Length))
    {
      ghost var ring := View();
      for i := 0 to channel.Length
        invariant Valid() && written == ring.written
        invariant readPos == if ring.read + i <= |ring.written| then ring.read + i else |ring.written|
        invariant forall k :: 0 <= k < i ==> channel[k] == Sample(ring, k)
      {
        if readPos < writePos {
          assert Sample(ring, i) == written[Latest(readPos, writePos)];
          channel[i] := buffer[readPos % SIZE];
          readPos := readPos + 1;
        } else {
          channel[i] := 0.0;
        }
      }
      if readPos >= writePos && writePos > 0 {
        readPos, writePos, written := 0, 0, [];
      }
    }
  }

  // ---- the queue it stands for

  datatype Op = Write(samples: seq<real>) | Clear | Process(n: nat)

  function RingStep(ring: Ring, op: Op): Ring {
    match op
    case Write(samples) => Ring(ring.written + samples, ring.read)
    case Clear => EMPTY
    case Process(n) => Advance(ring, n)
  }

  function RingOutput(ring: Ring, op: Op): seq<real> {
    if op.Process? then Played(ring, op.n) else []
  }

  /** An unbounded first-in first-out queue, padded with silence. */
  function QueueStep(queue: seq<real>, op: Op): seq<real> {
    match op
    case Write(samples) => queue + samples
    case Clear => []
    case Process(n) => if n <= |queue| then queue[n..] else []
  }

  function QueueOutput(queue: seq<real>, op: Op): seq<real> {
    match op
    case Process(n) => if n <= |queue| then queue[..n] else queue + seq(n - |queue|, _ => 0.0)
    case _ => []
  }

  function RunRing(ring: Ring, ops: seq<Op>): (Ring, seq<real>)
    decreases |ops|
  {
    if ops == [] then (ring, [])
    else
      var rest := RunRing(RingStep(ring, ops[0]), ops[1..]);
      (rest.0, RingOutput(ring, ops[0]) + rest.1)
  }

  function RunQueue(queue: seq<real>, ops: seq<Op>): (seq<real>, seq<real>)
    decreases |ops|
  {
    if ops == [] then (queue, [])
    else
      var rest := RunQueue(QueueStep(queue, ops[0]), ops[1..]);
      (rest.0, QueueOutput(queue, ops[0]) + rest.1)
  }

  /** Never more than ten seconds waiting when a quantum is played. What overflows and is cleared unheard does not
      count. */
  predicate Bounded(queue: seq<real>, ops: seq<Op>)
    decreases |ops|
  {
    ops != [] ==> BoundedStep(queue, ops[0]) && Bounded(QueueStep(queue, ops[0]), ops[1..])
  }

  predicate BoundedStep(queue: seq<real>, op: Op) {
    op.Process? && op.n > 0 ==> |queue| <= 240000
  }

  lemma StepRefines(ring: Ring, op: Op)
    requires ring.Ok() && BoundedStep(ring.Unread(), op)
    ensures RingStep(ring, op).Ok()
    ensures RingStep(ring, op).Unread() == QueueStep(ring.Unread(), op)
    ensures RingOutput(ring, op) == QueueOutput(ring.Unread(), op)
  {
    if op.Process? {
      forall i: nat | i < op.n
        ensures Sample(ring, i) == if i < |ring.Unread()| then ring.Unread()[i] else 0.0 {}
    }
  }

  /** Over every run that never holds more than ten seconds when it plays, the buffer plays what an unbounded queue
      padded with silence would play, and the reset of a drained buffer is not heard. */
  lemma {:induction false} RingRefinesQueue(ring: Ring, ops: seq<Op>)
    requires ring.Ok() && Bounded(ring.Unread(), ops)
    ensures RunRing(ring, ops).1 == RunQueue(ring.Unread(), ops).1
    ensures RunRing(ring, ops).0.Ok() && RunRing(ring, ops).0.Unread() == RunQueue(ring.Unread(), ops).0
    decreases |ops|
  {
    if ops != [] {
      StepRefines(ring, ops[0]);
      RingRefinesQueue(RingStep(ring, ops[0]), ops[1..]);
    }
  }

  /** Beyond ten seconds it does not: the next sample played is one of the last ten seconds, not the oldest waiting. */
  lemma OverflowSkips(ring: Ring)
    requires ring.Ok() && |ring.Unread()| > 240000
    ensures exists j :: && ring.read < j < |ring.written| && |ring.written| <= j + SIZE
                        && Sample(ring, 0) == ring.written[j]
  {
    var j := Latest(ring.read, |ring.written|);
    assert ring.read < j && Sample(ring, 0) == ring.written[j];
  }

  predicate AllDifferent(s: seq<real>) {
    forall i, j :: 0 <= i < j < |s| ==> s[i] != s[j]
  }

  lemma OverflowHeard(ring: Ring, n: nat)
    requires ring.Ok() && |ring.Unread()| > 240000 && n > 0 && AllDifferent(ring.Unread())
    ensures Played(ring, n)[0] != QueueOutput(ring.Unread(), Op.Process(n))[0]
  {
    OverflowSkips(ring);
    var j :| ring.read < j < |ring.written| && Sample(ring, 0) == ring.written[j];
    assert ring.Unread()[j - ring.read] == ring.written[j] && ring.Unread()[0] == ring.written[ring.read];
  }

  lemma DifferentTail(a: seq<real>, b: seq<real>, queue: seq<real>, op: Op)
    requires AllDifferent(queue + (a + b)) && a == Written(op)
    ensures AllDifferent(QueueStep(queue, op) + b)
  {
    var all, next := queue + (a + b), QueueStep(queue, op) + b;
    var shift := |all| - |next|;
    assert forall i :: 0 <= i < |next| && !op.Write? ==> next[i] == all[shift + i];
    if op.Write? { AppendAssoc(queue, a, b); }
  }

  lemma HeadsDiffer<T>(a: seq<T>, b: seq<T>, x: seq<T>, y: seq<T>)
    requires |a| > 0 && |b| > 0 && a[0] != b[0]
    ensures a + x != b + y
  {
    assert (a + x)[0] == a[0] && (b + y)[0] == b[0];
  }

  lemma SameHead<T>(a: seq<T>, x: seq<T>, y: seq<T>)
    ensures a + x == a + y <==> x == y
  {
    if a + x == a + y { assert x == (a + x)[|a|..] && y == (a + y)[|a|..]; }
  }

  /** If and only if: with no sample repeated, so that a difference can be heard, a run plays what the unbounded queue
      would play exactly when no more than ten seconds wait whenever it plays. */
  lemma {:induction false} HeardExactly(ring: Ring, ops: seq<Op>)
    requires ring.Ok() && AllDifferent(ring.Unread() + AllWritten(ops))
    ensures RunRing(ring, ops).1 == RunQueue(ring.Unread(), ops).1 <==> Bounded(ring.Unread(), ops)
    decreases |ops|
  {
    if ops != [] {
      var op, queue, rest := ops[0], ring.Unread(), ops[1..];
      if BoundedStep(queue, op) {
        StepRefines(ring, op);
        DifferentTail(Written(op), AllWritten(rest), queue, op);
        HeardExactly(RingStep(ring, op), rest);
        SameHead(RingOutput(ring, op), RunRing(RingStep(ring, op), rest).1, RunQueue(QueueStep(queue, op), rest).1);
      } else {
        assert AllDifferent(queue) by { DifferentFront(queue, AllWritten(ops)); }
        OverflowHeard(ring, op.n);
        HeadsDiffer(RingOutput(ring, op), QueueOutput(queue, op),
                    RunRing(RingStep(ring, op), rest).1, RunQueue(QueueStep(queue, op), rest).1);
      }
    }
  }

  lemma DifferentFront(a: seq<real>, b: seq<real>)
    requires AllDifferent(a + b)
    ensures AllDifferent(a)
  {
    assert forall i :: 0 <= i < |a| ==> (a + b)[i] == a[i];
  }

  function Written(op: Op): seq<real> {
    if op.Write? then op.samples else []
  }

  function AllWritten(ops: seq<Op>): seq<real> {
    if ops == [] then [] else Written(ops[0]) + AllWritten(ops[1..])
  }

  /** A run of the queue that is never starved and never cleared. */
  predicate Fed(queue: seq<real>, ops: seq<Op>)
    decreases |ops|
  {
    ops == [] || (FedStep(queue, ops[0]) && Fed(QueueStep(queue, ops[0]), ops[1..]))
  }

  predicate FedStep(queue: seq<real>, op: Op) {
    !op.Clear? && (op.Process? ==> op.n <= |queue|)
  }

  lemma StepInOrder(queue: seq<real>, op: Op)
    requires FedStep(queue, op)
    ensures QueueOutput(queue, op) + QueueStep(queue, op) == queue + Written(op)
  {}

  /** Nothing is lost, repeated or reordered: what was played followed by what still waits is what was written. */
  lemma {:induction false} PlayedInOrder(queue: seq<real>, ops: seq<Op>)
    requires Fed(queue, ops)
    ensures RunQueue(queue, ops).1 + RunQueue(queue, ops).0 == queue + AllWritten(ops)
    decreases |ops|
  {
    if ops != [] {
      var next := QueueStep(queue, ops[0]);
      PlayedInOrder(next, ops[1..]);
      StepInOrder(queue, ops[0]);
      var rest := RunQueue(next, ops[1..]);
      AppendAssoc(QueueOutput(queue, ops[0]), rest.1, rest.0);
      AppendAssoc(QueueOutput(queue, ops[0]), next, AllWritten(ops[1..]));
      AppendAssoc(queue, Written(ops[0]), AllWritten(ops[1..]));
    }
  }
}

/** The echo guard: the microphone stays closed while assistant audio is still playing. */
module EchoGuard {

  const SAMPLE_RATE := 24000.0
  const PADDING_MS := 180.0
  const BARGE_IN_LEVEL := 0.24

  function Max(a: real, b: real): real { if a >= b then a else b }

  function DurationMs(samples: nat): real {
    Max(0.0, samples as real / SAMPLE_RATE * 1000.0)
  }

  /** `getGeminiAssistantPlaybackUntil`. */
  function PlaybackUntil(now: real, current: real, samples: nat): real {
    Max(now, current) + DurationMs(samples) + PADDING_MS
  }

  /** `shouldSendGeminiMicFrame`. */
  predicate SendsMicFrame(now: real, level: real, playbackUntil: real) {
    now >= playbackUntil || level >= BARGE_IN_LEVEL
  }

  datatype Event = Audio(now: real, samples: nat) | Interrupted(now: real)

  /** The guard time, next to a player of 24 samples a millisecond that holds `backlog` milliseconds of audio at time
      `at`; `chunks` counts the audio chunks since the last interrupt. */
  datatype Session = Session(guardUntil: real, at: real, backlog: real, chunks: nat)

  /** What is left of the backlog at a later time: the player plays one millisecond of audio per millisecond. */
  function Left(s: Session, now: real): real {
    Max(0.0, s.backlog - (now - s.at))
  }

  function Step(s: Session, e: Event): Session {
    match e
    case Audio(now, samples) =>
      var guard := PlaybackUntil(now, s.guardUntil, samples);
      Session(guard, now, Left(s, now) + samples as real / 24.0, s.chunks + 1)
    case Interrupted(now) => Session(0.0, now, 0.0, 0)
  }

  function Run(s: Session, events: seq<Event>): Session
    decreases |events|
  {
    if events == [] then s else Run(Step(s, events[0]), events[1..])
  }

  predicate Ordered(at: real, events: seq<Event>)
    decreases |events|
  {
    events == [] || (at <= events[0].now && Ordered(events[0].now, events[1..]))
  }

  /** The guard never ends before the player runs dry, and at most the padding of each chunk later. */
  predicate Guarded(s: Session) {
    && s.at >= 0.0 && s.backlog >= 0.0
    && (s.chunks == 0 ==> s.backlog == 0.0 && s.guardUntil == 0.0)
    && (s.chunks > 0 ==> s.at + s.backlog <= s.guardUntil <= s.at + s.backlog + s.chunks as real * 180.0)
  }

  lemma StepGuarded(s: Session, e: Event)
    requires Guarded(s) && s.at <= e.now
    ensures Guarded(Step(s, e))
  {}

  /** Over every sequence of chunks and interrupts since the session began. */
  lemma {:induction false} AlwaysGuarded(s: Session, events: seq<Event>)
    requires Guarded(s) && Ordered(s.at, events)
    ensures Guarded(Run(s, events))
    decreases |events|
  {
    if events != [] {
      StepGuarded(s, events[0]);
      AlwaysGuarded(Step(s, events[0]), events[1..]);
    }
  }

  /** A microphone frame below the barge-in level is never sent while assistant audio is still queued. */
  lemma QuietFrameHeldBack(start: real, events: seq<Event>, now: real, level: real)
    requires start >= 0.0 && Ordered(start, events)
    requires var s := Run(Session(0.0, start, 0.0, 0), events); now >= s.at && Left(s, now) > 0.0
    requires level < 0.24
    ensures !SendsMicFrame(now, level, Run(Session(0.0, start, 0.0, 0), events).guardUntil)
  {
    AlwaysGuarded(Session(0.0, start, 0.0, 0), events);
  }

  /** And a frame is sent as soon as it reaches that level, or the player has been dry for 180 ms per chunk. */
  lemma FrameSent(start: real, events: seq<Event>, now: real, level: real)
    requires start >= 0.0 && Ordered(start, events)
    requires var s := Run(Session(0.0, start, 0.0, 0), events);
             level >= 0.24 || now >= s.at + s.backlog + s.chunks as real * 180.0
    ensures SendsMicFrame(now, level, Run(Session(0.0, start, 0.0, 0), events).guardUntil)
  {
    AlwaysGuarded(Session(0.0, start, 0.0, 0), events);
  }
}
