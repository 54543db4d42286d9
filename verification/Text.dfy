/** Strings as the scripts handle them: splitting and joining at a separator,
    and the words of a text. */
module Text {

  datatype Option<+T> = None | Some(value: T)

  predicate StartsWith(s: string, prefix: string) {
    |prefix| <= |s| && s[..|prefix|] == prefix
  }

  predicate Contains(s: string, part: string) {
    exists i :: 0 <= i <= |s| && StartsWith(s[i..], part)
  }

  /** `s.split(c)` for a single character. */
  function Split(s: string, c: char): (parts: seq<string>)
    ensures |parts| >= 1
  {
    if s == "" then [""]
    else
      var rest := Split(s[1..], c);
      if s[0] == c then [""] + rest else [[s[0]] + rest[0]] + rest[1..]
  }

  /** `parts.join(c)`. */
  function Join(parts: seq<string>, c: char): string {
    if parts == [] then ""
    else if |parts| == 1 then parts[0]
    else parts[0] + [c] + Join(parts[1..], c)
  }

  lemma {:induction false} SplitPart(p: string, c: char)
    requires c !in p
    ensures Split(p, c) == [p]
  {
    if p != "" {
      SplitPart(p[1..], c);
      assert p[0] in p && [p[0]] + p[1..] == p;
    }
  }

  lemma {:induction false} SplitHead(p: string, tail: string, c: char)
    requires c !in p
    ensures Split(p + [c] + tail, c) == [p] + Split(tail, c)
  {
    var s := p + [c] + tail;
    if p == "" {
      assert s[1..] == tail;
    } else {
      assert s[1..] == p[1..] + [c] + tail;
      SplitHead(p[1..], tail, c);
      assert p[0] in p && s[0] == p[0] && [p[0]] + p[1..] == p;
    }
  }

  lemma {:induction false} SplitAt(a: string, b: string, c: char)
    ensures Split(a + [c] + b, c) == Split(a, c) + Split(b, c)
  {
    var s := a + [c] + b;
    if a == "" {
      assert s[1..] == b;
    } else {
      assert s[0] == a[0] && s[1..] == a[1..] + [c] + b;
      SplitAt(a[1..], b, c);
    }
  }

  /** Joining parts that do not hold the separator loses nothing. */
  lemma {:induction false} SplitJoin(parts: seq<string>, c: char)
    requires parts != []
    requires forall p :: p in parts ==> c !in p
    ensures Split(Join(parts, c), c) == parts
  {
    if |parts| == 1 {
      SplitPart(parts[0], c);
    } else {
      SplitJoin(parts[1..], c);
      SplitHead(parts[0], Join(parts[1..], c), c);
    }
  }

  lemma {:induction false} SplitPartsClean(s: string, c: char)
    ensures forall p :: p in Split(s, c) ==> c !in p
  {
    if s != "" {
      SplitPartsClean(s[1..], c);
    }
  }

  /** White space as `\s` and `trim` know it. */
  predicate IsSpace(c: char) {
    || '\t' <= c <= '\r' || c == ' ' || c == '\U{00A0}' || c == '\U{1680}'
    || '\U{2000}' <= c <= '\U{200A}' || c == '\U{2028}' || c == '\U{2029}'
    || c == '\U{202F}' || c == '\U{205F}' || c == '\U{3000}' || c == '\U{FEFF}'
  }

  predicate NoSpace(s: string) {
    forall c :: c in s ==> !IsSpace(c)
  }

  /** The maximal runs of non-space characters: `s.trim().split(/\s+/)`, and none for a blank string. */
  function Words(s: string, current: string := ""): seq<string> {
    if s == "" then Flushed(current)
    else if IsSpace(s[0]) then Flushed(current) + Words(s[1..])
    else Words(s[1..], current + [s[0]])
  }

  function Flushed(current: string): seq<string> {
    if current == "" then [] else [current]
  }

  lemma {:induction false} WordsClean(s: string, current: string)
    requires NoSpace(current)
    ensures forall w :: w in Words(s, current) ==> w != "" && NoSpace(w)
  {
    if s != "" {
      if IsSpace(s[0]) { WordsClean(s[1..], ""); } else { WordsClean(s[1..], current + [s[0]]); }
    }
  }

  lemma {:induction false} WordsOfWord(w: string, tail: string, current: string)
    requires NoSpace(w)
    ensures Words(w + tail, current) == Words(tail, current + w)
  {
    if w == "" {
      assert w + tail == tail && current + w == current;
    } else {
      assert (w + tail)[0] == w[0] && (w + tail)[1..] == w[1..] + tail;
      assert !IsSpace(w[0]) by { assert w[0] in w; }
      WordsOfWord(w[1..], tail, current + [w[0]]);
      assert current + [w[0]] + w[1..] == current + w;
    }
  }

  /** Words joined by single spaces split back into the same words. */
  lemma {:induction false} WordsJoin(words: seq<string>)
    requires forall w :: w in words ==> w != "" && NoSpace(w)
    ensures Words(Join(words, ' ')) == words
  {
    if |words| == 1 {
      WordsOfWord(words[0], "", "");
      assert words[0] + "" == words[0] && "" + words[0] == words[0];
    } else if |words| > 1 {
      var tail := [' '] + Join(words[1..], ' ');
      assert Join(words, ' ') == words[0] + tail;
      WordsOfWord(words[0], tail, "");
      assert "" + words[0] == words[0];
      assert tail[1..] == Join(words[1..], ' ');
      forall w | w in words[1..] ensures w != "" && NoSpace(w) { assert w in words; }
      WordsJoin(words[1..]);
    }
  }

  /** Lower case, for ASCII letters. */
  function Lower(s: string): (r: string)
    ensures |r| == |s|
  {
    if s == "" then ""
    else [if 'A' <= s[0] <= 'Z' then s[0] - 'A' + 'a' else s[0]] + Lower(s[1..])
  }

  lemma {:induction false} LowerStays(s: string)
    requires forall c :: c in s ==> !('A' <= c <= 'Z')
    ensures Lower(s) == s
  {
    if s != "" {
      assert s[0] in s && forall c :: c in s[1..] ==> c in s;
      LowerStays(s[1..]);
    }
  }

  function TrimLeft(s: string): string {
    if s != "" && IsSpace(s[0]) then TrimLeft(s[1..]) else s
  }

  function TrimRight(s: string): string {
    if s != "" && IsSpace(s[|s| - 1]) then TrimRight(s[..|s| - 1]) else s
  }

  function Trim(s: string): string { TrimRight(TrimLeft(s)) }

  lemma AppendAssoc<T>(a: seq<T>, b: seq<T>, c: seq<T>)
    ensures (a + b) + c == a + (b + c)
  {}

  lemma AppendSlices<T>(a: seq<T>, b: seq<T>, k: nat)
    requires a <= b && k <= |a|
    ensures b[k..] == a[k..] + b[|a|..]
  {}

  lemma {:induction false} TrimLeftTwice(s: string)
    ensures TrimLeft(TrimLeft(s)) == TrimLeft(s)
  {
    if s != "" && IsSpace(s[0]) { TrimLeftTwice(s[1..]); }
  }

  lemma {:induction false} TrimRightTwice(s: string)
    ensures TrimRight(TrimRight(s)) == TrimRight(s)
    ensures TrimRight(s) <= s
  {
    if s != "" && IsSpace(s[|s| - 1]) { TrimRightTwice(s[..|s| - 1]); }
  }

  lemma TrimTwice(s: string)
    ensures Trim(Trim(s)) == Trim(s)
  {
    var t := TrimLeft(s);
    TrimLeftTwice(s);
    TrimRightTwice(t);
    LeftTrimmed(s);
    if Trim(s) != "" { assert Trim(s)[0] == t[0]; }
  }

  lemma {:induction false} LeftTrimmed(s: string)
    ensures TrimLeft(s) != "" ==> !IsSpace(TrimLeft(s)[0])
  {
    if s != "" && IsSpace(s[0]) { LeftTrimmed(s[1..]); }
  }

  lemma TrimmedEnds(raw: string)
    requires raw != "" && Trim(raw) == raw
    ensures !IsSpace(raw[0]) && !IsSpace(raw[|raw| - 1])
  {
    LeftShorter(raw);
    RightShorter(TrimLeft(raw));
  }

  lemma {:induction false} LeftShorter(s: string)
    ensures |TrimLeft(s)| <= |s|
    ensures s != "" && IsSpace(s[0]) ==> |TrimLeft(s)| < |s|
  {
    if s != "" && IsSpace(s[0]) { LeftShorter(s[1..]); }
  }

  lemma {:induction false} RightShorter(s: string)
    ensures |TrimRight(s)| <= |s|
    ensures s != "" && IsSpace(s[|s| - 1]) ==> |TrimRight(s)| < |s|
  {
    if s != "" && IsSpace(s[|s| - 1]) { RightShorter(s[..|s| - 1]); }
  }
}
