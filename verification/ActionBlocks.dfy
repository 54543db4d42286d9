/** The scanner for fenced action blocks:
    three back-quotes and `mc-action`, the rest of that line, a body, three back-quotes. */
module ActionBlocks {
  import opened Text

  const OPEN := "```mc-action"
  const CLOSE := "```"

  predicate OccursAt(text: string, part: string, i: nat) {
    i + |part| <= |text| && text[i..i + |part|] == part
  }

  function IndexOf(text: string, part: string, from: nat): (r: Option<nat>)
    ensures r.Some? ==> from <= r.value && OccursAt(text, part, r.value)
    ensures forall j: nat :: from <= j && (r.None? || j < r.value) ==> !OccursAt(text, part, j)
    decreases |text| - from
  {
    if from + |part| > |text| then None
    else if OccursAt(text, part, from) then Some(from)
    else IndexOf(text, part, from + 1)
  }

  /** A match of the pattern: its body and the position just after it. */
  datatype Match = Match(body: string, end: nat)

  /** The body that begins at `from` ends at the first closing fence. */
  function BodyAt(text: string, from: nat): (m: Option<Match>)
    requires from <= |text|
    ensures m.Some? ==> from < m.value.end <= |text|
  {
    var close := IndexOf(text, CLOSE, from);
    if close.None? then None else Some(Match(text[from..close.value], close.value + |CLOSE|))
  }

  /** The match that begins exactly at `i`: the opening ends at the first line break after it. */
  function MatchAt(text: string, i: nat): (m: Option<Match>)
    ensures m.Some? ==> i < m.value.end <= |text|
  {
    if !OccursAt(text, OPEN, i) then None
    else
      var eol := IndexOf(text, "\n", i + |OPEN|);
      if eol.None? then None else BodyAt(text, eol.value + 1)
  }

  /** The leftmost match at or after `from`: one `exec` of the global pattern. */
  function NextMatch(text: string, from: nat): (m: Option<Match>)
    ensures m.Some? ==> from < m.value.end <= |text|
    decreases |text| - from
  {
    if from >= |text| then None
    else if MatchAt(text, from).Some? then MatchAt(text, from)
    else NextMatch(text, from + 1)
  }

  /** The bodies of all complete blocks, in order. */
  function Blocks(text: string, from: nat := 0): seq<string>
    decreases |text| - from
  {
    var m := NextMatch(text, from);
    if m.None? then [] else [m.value.body] + Blocks(text, m.value.end)
  }

  lemma OccursInExtension(p: string, t: string, part: string, i: nat)
    requires p <= t && i + |part| <= |p|
    ensures OccursAt(p, part, i) <==> OccursAt(t, part, i)
  {
    assert p[i..i + |part|] == t[i..i + |part|];
  }

  lemma IndexOfInExtension(p: string, t: string, part: string, from: nat)
    requires p <= t && IndexOf(p, part, from).Some?
    ensures IndexOf(t, part, from) == IndexOf(p, part, from)
  {
    var i := IndexOf(p, part, from).value;
    OccursInExtension(p, t, part, i);
    forall j: nat | from <= j < i ensures !OccursAt(t, part, j) { OccursInExtension(p, t, part, j); }
  }

  lemma BodyInExtension(p: string, t: string, from: nat)
    requires p <= t && from <= |p| && BodyAt(p, from).Some?
    ensures BodyAt(t, from) == BodyAt(p, from)
  {
    IndexOfInExtension(p, t, CLOSE, from);
    var close := IndexOf(p, CLOSE, from).value;
    assert p[from..close] == t[from..close];
  }

  /** A match stays the same match when the text grows. */
  lemma MatchInExtension(p: string, t: string, i: nat)
    requires p <= t && MatchAt(p, i).Some?
    ensures MatchAt(t, i) == MatchAt(p, i)
  {
    OccursInExtension(p, t, OPEN, i);
    IndexOfInExtension(p, t, "\n", i + |OPEN|);
    BodyInExtension(p, t, IndexOf(p, "\n", i + |OPEN|).value + 1);
  }

  /** Before a match, an earlier opening would have matched already: whatever line break and
      closing fence end the later match also end the earlier one. */
  lemma NoMatchBefore(p: string, t: string, i: nat, j: nat)
    requires p <= t && i < j && MatchAt(p, i).None? && MatchAt(p, j).Some?
    ensures MatchAt(t, i).None?
  {
    assert i + |OPEN| <= |p|;
    OccursInExtension(p, t, OPEN, i);
  }

  lemma {:induction false} NextMatchInExtension(p: string, t: string, from: nat)
    requires p <= t && NextMatch(p, from).Some?
    ensures NextMatch(t, from) == NextMatch(p, from)
    decreases |p| - from
  {
    if MatchAt(p, from).Some? {
      MatchInExtension(p, t, from);
    } else {
      NextMatchStart(p, from + 1);
      var j: nat :| from + 1 <= j < |p| && MatchAt(p, j).Some?;
      NoMatchBefore(p, t, from, j);
      NextMatchInExtension(p, t, from + 1);
    }
  }

  lemma {:induction false} NextMatchStart(p: string, from: nat)
    requires NextMatch(p, from).Some?
    ensures exists j: nat :: from <= j < |p| && MatchAt(p, j).Some?
    decreases |p| - from
  {
    if MatchAt(p, from).None? { NextMatchStart(p, from + 1); }
  }

  /** The complete blocks of a prefix are a prefix of the complete blocks of every extension. */
  lemma {:induction false} BlocksStable(p: string, t: string, from: nat)
    requires p <= t
    ensures Blocks(p, from) <= Blocks(t, from)
    decreases |p| - from
  {
    var m := NextMatch(p, from);
    if m.Some? {
      NextMatchInExtension(p, t, from);
      BlocksStable(p, t, m.value.end);
    }
  }
}
