/** What the scanner finds in a text, told by how the text is written. */
module WrittenBlocks {
  import opened Text
  import opened ActionBlocks

  /** A block as it is written: the opening with the rest of its line, the body, the closing fence. */
  function Rendered(info: string, body: string): string {
    "```mc-action" + info + "\n" + body + "```"
  }

  /** The first closing fence after the body is the block's own. */
  predicate Closes(body: string) {
    forall j: nat :: j < |body| ==> !OccursAt(body + "```", "```", j)
  }

  predicate Unopened(text: string) {
    forall j: nat :: j < |text| ==> !OccursAt(text, "```mc-action", j)
  }

  /** What precedes a block, the rest of its opening line, and its body. */
  datatype Piece = Piece(before: string, info: string, body: string)
  {
    predicate Proper() { Unopened(before) && '\n' !in info && Closes(body) }

    function Text(): string { before + Rendered(info, body) }
  }

  function RenderAll(pieces: seq<Piece>): string {
    if pieces == [] then "" else pieces[0].Text() + RenderAll(pieces[1..])
  }

  function Bodies(pieces: seq<Piece>): seq<string> {
    if pieces == [] then [] else [pieces[0].body] + Bodies(pieces[1..])
  }

  // Scanning a text from a position is scanning what remains from there.

  predicate Remains(t: string, b: string, far: nat) { far + |b| == |t| && t[far..] == b }

  lemma SliceShifted(t: string, b: string, far: nat, i: nat, j: nat)
    requires Remains(t, b, far) && i <= j <= |b|
    ensures t[far + i..far + j] == b[i..j]
  {
    forall k | i <= k < j ensures t[far + k] == b[k] { assert t[far..][k] == t[far + k]; }
  }

  lemma OccursShifted(t: string, b: string, far: nat, part: string, i: nat)
    requires Remains(t, b, far)
    ensures OccursAt(t, part, far + i) <==> OccursAt(b, part, i)
  {
    if i + |part| <= |b| { SliceShifted(t, b, far, i, i + |part|); }
  }

  lemma {:induction false} IndexShifted(t: string, b: string, far: nat, part: string, from: nat)
    requires Remains(t, b, far)
    ensures var r := IndexOf(b, part, from);
            IndexOf(t, part, far + from) == if r.None? then None else Some(far + r.value)
    decreases |b| - from
  {
    OccursShifted(t, b, far, part, from);
    if from + |part| <= |b| && !OccursAt(b, part, from) { IndexShifted(t, b, far, part, from + 1); }
  }

  function Shifted(m: Option<Match>, far: nat): Option<Match> {
    if m.None? then None else Some(Match(m.value.body, far + m.value.end))
  }

  lemma BodyShifted(t: string, b: string, far: nat, from: nat)
    requires Remains(t, b, far) && from <= |b|
    ensures BodyAt(t, far + from) == Shifted(BodyAt(b, from), far)
  {
    IndexShifted(t, b, far, CLOSE, from);
    var close := IndexOf(b, CLOSE, from);
    if close.Some? { SliceShifted(t, b, far, from, close.value); }
  }

  lemma MatchIs(text: string, i: nat, from: nat)
    requires OccursAt(text, OPEN, i) && 0 < from <= |text| && IndexOf(text, "\n", i + |OPEN|) == Some(from - 1)
    ensures MatchAt(text, i) == BodyAt(text, from)
  {}

  lemma LineShifted(t: string, b: string, far: nat, at: nat, line: nat, from: nat)
    requires Remains(t, b, far) && 0 < from <= |b| && line == far + from && OccursAt(t, OPEN, at)
    requires IndexOf(t, "\n", at + |OPEN|) == Some(line - 1)
    ensures MatchAt(t, at) == Shifted(BodyAt(b, from), far)
  {
    MatchIs(t, at, line);
    BodyShifted(t, b, far, from);
  }

  lemma NoLine(text: string, i: nat)
    requires IndexOf(text, "\n", i + |OPEN|).None?
    ensures MatchAt(text, i).None?
  {}

  lemma BothLines(t: string, b: string, far: nat, i: nat, at: nat, from: nat)
    requires Remains(t, b, far) && at == far + i && OccursAt(b, OPEN, i) && OccursAt(t, OPEN, at)
    requires 0 < from <= |b| && IndexOf(b, "\n", i + |OPEN|) == Some(from - 1)
    requires IndexOf(t, "\n", at + |OPEN|) == Some(far + from - 1)
    ensures MatchAt(t, at) == Shifted(MatchAt(b, i), far)
  {
    MatchIs(b, i, from);
    LineShifted(t, b, far, at, far + from, from);
  }

  lemma OpenShifted(t: string, b: string, far: nat, i: nat, at: nat)
    requires Remains(t, b, far) && at == far + i && OccursAt(b, OPEN, i) && OccursAt(t, OPEN, at)
    ensures MatchAt(t, at) == Shifted(MatchAt(b, i), far)
  {
    var line := i + |OPEN|;
    IndexShifted(t, b, far, "\n", line);
    assert at + |OPEN| == far + line;
    var eol := IndexOf(b, "\n", line);
    if eol.Some? {
      BothLines(t, b, far, i, at, eol.value + 1);
    } else {
      NoLine(b, i);
      NoLine(t, at);
    }
  }

  lemma MatchShifted(t: string, b: string, far: nat, i: nat)
    requires Remains(t, b, far)
    ensures MatchAt(t, far + i) == Shifted(MatchAt(b, i), far)
  {
    OccursShifted(t, b, far, OPEN, i);
    if OccursAt(b, OPEN, i) { OpenShifted(t, b, far, i, far + i); }
  }

  lemma {:induction false} NextShifted(t: string, b: string, far: nat, from: nat)
    requires Remains(t, b, far)
    ensures NextMatch(t, far + from) == Shifted(NextMatch(b, from), far)
    decreases |b| - from
  {
    if from < |b| {
      MatchShifted(t, b, far, from);
      if MatchAt(b, from).None? { NextShifted(t, b, far, from + 1); }
    }
  }

  lemma {:induction false} BlocksShifted(t: string, b: string, far: nat, from: nat)
    requires Remains(t, b, far)
    ensures Blocks(t, far + from) == Blocks(b, from)
    decreases |b| - from
  {
    NextShifted(t, b, far, from);
    var m := NextMatch(b, from);
    if m.Some? { BlocksShifted(t, b, far, m.value.end); }
  }

  /** A written block stands in the text at `i`: its line ends at `eol`, and its closing fence begins at `close`. */
  predicate StandsAt(t: string, i: nat, eol: nat, close: nat) {
    && i + |OPEN| <= eol < close && OccursAt(t, OPEN, i) && OccursAt(t, "\n", eol) && OccursAt(t, CLOSE, close)
    && (forall k :: i + |OPEN| <= k < eol ==> !OccursAt(t, "\n", k))
    && (forall k :: eol < k < close ==> !OccursAt(t, CLOSE, k))
  }

  lemma {:induction false} FirstAt(text: string, part: string, from: nat, i: nat)
    requires from <= i && OccursAt(text, part, i) && forall j: nat :: from <= j < i ==> !OccursAt(text, part, j)
    ensures IndexOf(text, part, from) == Some(i)
  {}

  lemma StandingMatches(t: string, i: nat, eol: nat, close: nat)
    requires StandsAt(t, i, eol, close)
    ensures MatchAt(t, i) == Some(Match(t[eol + 1..close], close + |CLOSE|))
  {
    FirstAt(t, "\n", i + |OPEN|, eol);
    MatchIs(t, i, eol + 1);
    BodyIs(t, eol + 1, close);
  }

  lemma BodyIs(t: string, from: nat, close: nat)
    requires from <= close && OccursAt(t, CLOSE, close) && forall k: nat :: from <= k < close ==> !OccursAt(t, CLOSE, k)
    ensures BodyAt(t, from) == Some(Match(t[from..close], close + |CLOSE|))
  {
    FirstAt(t, CLOSE, from, close);
  }

  lemma MatchStands(t: string, i: nat) returns (eol: nat, close: nat)
    requires MatchAt(t, i).Some?
    ensures StandsAt(t, i, eol, close)
  {
    eol := IndexOf(t, "\n", i + |OPEN|).value;
    close := IndexOf(t, CLOSE, eol + 1).value;
  }

  lemma NoBorder(k: nat)
    requires 0 < k < |OPEN|
    ensures OPEN[k..] != OPEN[..|OPEN| - k]
  {
    assert OPEN[k..][|OPEN| - k - 1] == 'n';
  }

  /** An opening does not overlap with one that begins before it ends. */
  lemma OpenApart(text: string, i: nat, j: nat)
    requires OccursAt(text, OPEN, i) && OccursAt(text, OPEN, j) && i < j
    ensures i + |OPEN| <= j
  {
    if j < i + |OPEN| {
      var end := i + |OPEN|;
      assert text[j..end] == text[i..end][j - i..];
      assert text[j..end] == text[j..j + |OPEN|][..end - j];
      NoBorder(j - i);
    }
  }

  lemma {:induction false} SkipUnopened(t: string, from: nat, i: nat)
    requires from <= i < |t| && MatchAt(t, i).Some? && forall k: nat :: from <= k < i ==> !OccursAt(t, OPEN, k)
    ensures NextMatch(t, from) == MatchAt(t, i)
    decreases i - from
  {
    if from < i { SkipUnopened(t, from + 1, i); }
  }

  lemma BlocksNext(t: string, m: Match)
    requires NextMatch(t, 0) == Some(m)
    ensures Blocks(t) == [m.body] + Blocks(t[m.end..])
  {
    BlocksShifted(t, t[m.end..], m.end, 0);
  }

  lemma BlocksFrom(t: string, i: nat, m: Match)
    requires MatchAt(t, i) == Some(m) && forall k: nat :: k < i ==> !OccursAt(t, OPEN, k)
    ensures Blocks(t) == [m.body] + Blocks(t[m.end..])
  {
    SkipUnopened(t, 0, i);
    BlocksNext(t, m);
  }

  /** The parts of a written piece are where they should be. */
  predicate Shaped(t: string, p: Piece, rest: string) {
    var i := |p.before|;
    var eol := i + |OPEN| + |p.info|;
    var close := eol + 1 + |p.body|;
    && close + |CLOSE| + |rest| == |t| && t[..i] == p.before && t[i..i + |OPEN|] == OPEN
    && t[i + |OPEN|..eol] == p.info && t[eol..eol + 1] == "\n" && t[eol + 1..close] == p.body
    && t[close..close + |CLOSE|] == CLOSE && t[close + |CLOSE|..] == rest
  }

  lemma PieceShape(p: Piece, rest: string)
    ensures Shaped(p.Text() + rest, p, rest)
  {}

  lemma NoBreakIn(t: string, a: nat, b: nat)
    requires a <= b <= |t|
    ensures '\n' !in t[a..b] <==> forall k :: a <= k < b ==> !OccursAt(t, "\n", k)
  {
    forall k | a <= k < b ensures OccursAt(t, "\n", k) <==> t[k] == '\n' { assert t[k..k + 1] == [t[k]]; }
    if '\n' in t[a..b] {
      var k :| 0 <= k < b - a && t[a..b][k] == '\n';
      assert t[a + k] == '\n';
    }
    forall k | a <= k < b ensures t[k] in t[a..b] { assert t[a..b][k - a] == t[k]; }
  }

  lemma ClosesIn(t: string, a: nat, b: nat)
    requires a <= b && OccursAt(t, CLOSE, b)
    ensures Closes(t[a..b]) <==> forall k :: a <= k < b ==> !OccursAt(t, CLOSE, k)
  {
    var text, whole := t[a..b] + CLOSE, t[..b + |CLOSE|];
    assert whole[a..] == text;
    forall k: nat | k < b - a ensures OccursAt(text, CLOSE, k) <==> OccursAt(t, CLOSE, a + k) {
      OccursShifted(whole, text, a, CLOSE, k);
      OccursInExtension(whole, t, CLOSE, a + k);
    }
    if Closes(t[a..b]) {
      forall k | a <= k < b ensures !OccursAt(t, CLOSE, k) { assert !OccursAt(text, CLOSE, k - a); }
    }
  }

  lemma UnopenedCut(t: string, i: nat)
    requires OccursAt(t, OPEN, i)
    ensures Unopened(t[..i]) <==> forall k: nat :: k < i ==> !OccursAt(t, OPEN, k)
  {
    forall k: nat | k < i ensures OccursAt(t[..i], OPEN, k) <==> OccursAt(t, OPEN, k) {
      if OccursAt(t, OPEN, k) { OpenApart(t, k, i); }
      if k + |OPEN| <= i { OccursInExtension(t[..i], t, OPEN, k); }
    }
  }

  /** A written block stands in its text, and nothing opens one before. */
  lemma PieceStands(t: string, p: Piece, rest: string)
    requires p.Proper() && Shaped(t, p, rest)
    ensures var i := |p.before|;
            var eol := i + |OPEN| + |p.info|;
            StandsAt(t, i, eol, eol + 1 + |p.body|) && forall k: nat :: k < i ==> !OccursAt(t, OPEN, k)
  {
    var i := |p.before|;
    var eol := i + |OPEN| + |p.info|;
    NoBreakIn(t, i + |OPEN|, eol);
    ClosesIn(t, eol + 1, eol + 1 + |p.body|);
    UnopenedCut(t, i);
  }

  lemma ShapedMatch(t: string, p: Piece, rest: string)
    requires p.Proper() && Shaped(t, p, rest)
    ensures MatchAt(t, |p.before|) == Some(Match(p.body, |t| - |rest|))
  {
    PieceStands(t, p, rest);
    var eol := |p.before| + |OPEN| + |p.info|;
    StandingMatches(t, |p.before|, eol, eol + 1 + |p.body|);
  }

  lemma ShapedBlock(t: string, p: Piece, rest: string)
    requires p.Proper() && Shaped(t, p, rest)
    ensures Blocks(t) == [p.body] + Blocks(rest)
  {
    ShapedMatch(t, p, rest);
    UnopenedCut(t, |p.before|);
    BlocksFrom(t, |p.before|, Match(p.body, |t| - |rest|));
  }

  /** A block, whatever text without an opening precedes it and whatever follows, is found with its body. */
  lemma FirstBlock(p: Piece, rest: string)
    requires p.Proper()
    ensures Blocks(p.Text() + rest) == [p.body] + Blocks(rest)
  {
    PieceShape(p, rest);
    ShapedBlock(p.Text() + rest, p, rest);
  }

  lemma BlocksJoined(first: string, others: string, rest: string, body: string, bodies: seq<string>)
    requires Blocks(first + (others + rest)) == [body] + Blocks(others + rest)
    requires Blocks(others + rest) == bodies + Blocks(rest)
    ensures Blocks((first + others) + rest) == ([body] + bodies) + Blocks(rest)
  {
    AppendAssoc(first, others, rest);
    AppendAssoc([body], bodies, Blocks(rest));
  }

  /** Blocks that are written are found, each with its body, in order. */
  lemma {:induction false} WrittenBlocksFound(pieces: seq<Piece>, rest: string)
    requires forall p :: p in pieces ==> p.Proper()
    ensures Blocks(RenderAll(pieces) + rest) == Bodies(pieces) + Blocks(rest)
  {
    if pieces == [] {
      assert "" + rest == rest;
    } else {
      assert pieces[0] in pieces && forall p :: p in pieces[1..] ==> p in pieces;
      FirstBlock(pieces[0], RenderAll(pieces[1..]) + rest);
      WrittenBlocksFound(pieces[1..], rest);
      BlocksJoined(pieces[0].Text(), RenderAll(pieces[1..]), rest, pieces[0].body, Bodies(pieces[1..]));
    }
  }

  /** No complete block begins anywhere: the text is none with a block in it and something after. */
  ghost predicate Incomplete(rest: string) {
    forall p: Piece, tail: string :: p.Proper() ==> rest != p.Text() + tail
  }

  /** The text is written as blocks with these bodies, text in between that opens no block, and an incomplete rest. */
  ghost predicate WrittenAs(text: string, bodies: seq<string>) {
    exists pieces: seq<Piece>, rest: string ::
      && (forall p :: p in pieces ==> p.Proper()) && Incomplete(rest)
      && text == RenderAll(pieces) + rest && Bodies(pieces) == bodies
  }

  /** Where an opening does not match before a match, there is no opening. */
  lemma NoOpenBefore(text: string, i: nat, j: nat)
    requires i < j && MatchAt(text, i).None? && MatchAt(text, j).Some?
    ensures !OccursAt(text, OPEN, i)
  {
    assert i + |OPEN| <= |text|;
  }

  predicate FirstOpen(text: string, from: nat, j: nat) {
    from <= j && forall i: nat :: from <= i < j ==> !OccursAt(text, OPEN, i)
  }

  lemma NextStep(text: string, from: nat, j: nat)
    requires MatchAt(text, from).None? && MatchAt(text, j).Some? && FirstOpen(text, from + 1, j)
    ensures FirstOpen(text, from, j)
  {
    NoOpenBefore(text, from, j);
  }

  lemma {:induction false} NextIsFirst(text: string, from: nat) returns (j: nat)
    requires NextMatch(text, from).Some?
    ensures NextMatch(text, from) == MatchAt(text, j) && FirstOpen(text, from, j)
    decreases |text| - from
  {
    j := from;
    if MatchAt(text, from).None? {
      j := NextIsFirst(text, from + 1);
      NextStep(text, from, j);
    }
  }

  lemma Cut(t: string, i: nat, j: nat, k: nat)
    requires i <= j <= k <= |t|
    ensures t[i..j] + t[j..k] == t[i..k]
  {}

  lemma StandingBlock(t: string, i: nat, eol: nat, close: nat)
    requires i + |OPEN| <= eol < close
    requires OccursAt(t, OPEN, i) && OccursAt(t, "\n", eol) && OccursAt(t, CLOSE, close)
    ensures t[i..close + |CLOSE|] == Rendered(t[i + |OPEN|..eol], t[eol + 1..close])
  {
    Cut(t, i, i + |OPEN|, eol);
    Cut(t, i, eol, eol + 1);
    Cut(t, i, eol + 1, close);
    Cut(t, i, close, close + |CLOSE|);
  }

  lemma StandingShape(t: string, i: nat, eol: nat, close: nat)
    requires StandsAt(t, i, eol, close)
    ensures t == Piece(t[..i], t[i + |OPEN|..eol], t[eol + 1..close]).Text() + t[close + |CLOSE|..]
  {
    StandingBlock(t, i, eol, close);
    CutTwice(t, i, close + |CLOSE|);
  }

  lemma CutTwice(t: string, i: nat, end: nat)
    requires i <= end <= |t|
    ensures t == (t[..i] + t[i..end]) + t[end..]
  {}

  lemma StandingProper(t: string, i: nat, eol: nat, close: nat)
    requires StandsAt(t, i, eol, close) && forall k: nat :: k < i ==> !OccursAt(t, OPEN, k)
    ensures Piece(t[..i], t[i + |OPEN|..eol], t[eol + 1..close]).Proper()
  {
    UnopenedCut(t, i);
    NoBreakIn(t, i + |OPEN|, eol);
    ClosesIn(t, eol + 1, close);
  }

  /** A match is a written block. */
  lemma NextIsPiece(t: string) returns (p: Piece, rest: string)
    requires NextMatch(t, 0).Some?
    ensures p.Proper() && t == p.Text() + rest && |rest| < |t|
  {
    var i := NextIsFirst(t, 0);
    var eol, close := MatchStands(t, i);
    p, rest := Piece(t[..i], t[i + |OPEN|..eol], t[eol + 1..close]), t[close + |CLOSE|..];
    StandingShape(t, i, eol, close);
    StandingProper(t, i, eol, close);
  }

  lemma NoneIncomplete(rest: string)
    requires Blocks(rest) == []
    ensures Incomplete(rest)
  {
    forall p: Piece, tail: string | p.Proper() ensures rest != p.Text() + tail {
      if rest == p.Text() + tail { FirstBlock(p, tail); }
    }
  }

  lemma IncompleteNone(rest: string)
    requires Incomplete(rest)
    ensures Blocks(rest) == []
  {
    if NextMatch(rest, 0).Some? {
      var p, tail := NextIsPiece(rest);
    }
  }

  lemma {:induction false} BlocksWritten(text: string) returns (pieces: seq<Piece>, rest: string)
    ensures (forall p :: p in pieces ==> p.Proper()) && Incomplete(rest)
    ensures text == RenderAll(pieces) + rest && Bodies(pieces) == Blocks(text)
    decreases |text|
  {
    if NextMatch(text, 0).None? {
      pieces, rest := [], text;
      NoneIncomplete(text);
      assert "" + text == text;
    } else {
      var p, tail := NextIsPiece(text);
      FirstBlock(p, tail);
      pieces, rest := BlocksWritten(tail);
      AppendAssoc(p.Text(), RenderAll(pieces), rest);
      pieces := [p] + pieces;
    }
  }

  /** If and only if: the scan of a text answers these bodies exactly when the text is written as blocks with these
      bodies. */
  lemma BlocksExactly(text: string, bodies: seq<string>)
    ensures Blocks(text) == bodies <==> WrittenAs(text, bodies)
  {
    if Blocks(text) == bodies {
      var pieces, rest := BlocksWritten(text);
    }
    if WrittenAs(text, bodies) {
      var pieces: seq<Piece>, rest: string :| && (forall p :: p in pieces ==> p.Proper()) && Incomplete(rest)
                          && text == RenderAll(pieces) + rest && Bodies(pieces) == bodies;
      WrittenBlocksFound(pieces, rest);
      IncompleteNone(rest);
      assert Bodies(pieces) + [] == Bodies(pieces);
    }
  }
}
