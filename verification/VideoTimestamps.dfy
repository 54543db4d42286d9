/** Video timestamps: parsing, printing, and the time parameter of a video URL. */
module VideoTimestamps {
  import opened Text

  predicate IsDigit(c: char) { '0' <= c <= '9' }

  predicate AllDigits(s: string) { forall c :: c in s ==> IsDigit(c) }

  predicate Numeral(s: string) { s != "" && AllDigits(s) }

  function DigitValue(c: char): nat
    requires IsDigit(c)
  {
    c as int - '0' as int
  }

  function Value(s: string): nat
    requires AllDigits(s)
  {
    if s == "" then 0
    else
      assert s[|s| - 1] in s;
      10 * Value(s[..|s| - 1]) + DigitValue(s[|s| - 1])
  }

  function Decimal(n: nat): (s: string)
    ensures Numeral(s) && Value(s) == n
    ensures |s| == 1 <==> n < 10
    ensures |s| <= 2 <==> n < 100
  {
    var digit := [(n % 10 + '0' as int) as char];
    if n < 10 then digit
    else
      var s := Decimal(n / 10) + digit;
      assert s[..|s| - 1] == Decimal(n / 10);
      s
  }

  // ---- parsing

  function Squeeze(s: string): string {
    if s == "" then "" else (if IsSpace(s[0]) then "" else [s[0]]) + Squeeze(s[1..])
  }

  /** One or two digits. */
  predicate ShortNumeral(s: string) { Numeral(s) && |s| <= 2 }

  /** `(\d{1,2}:)?\d{1,2}:\d{1,2}`, as its parts. */
  predicate ColonForm(parts: seq<string>) {
    2 <= |parts| <= 3 && forall i :: 0 <= i < |parts| ==> ShortNumeral(parts[i])
  }

  function Total(parts: seq<string>): nat
    requires 2 <= |parts| <= 3 && forall i :: 0 <= i < |parts| ==> AllDigits(parts[i])
  {
    if |parts| == 2 then Value(parts[0]) * 60 + Value(parts[1])
    else Value(parts[0]) * 3600 + Value(parts[1]) * 60 + Value(parts[2])
  }

  /** The length of the leading run of digits. */
  function DigitRun(s: string): (k: nat)
    ensures k <= |s| && AllDigits(s[..k])
  {
    if s == "" || !IsDigit(s[0]) then 0
    else
      var k := 1 + DigitRun(s[1..]);
      assert s[..k] == [s[0]] + s[1..][..k - 1];
      k
  }

  /** `(?:(\d+)u)?` in either case: the number, 0 when absent, and the rest. */
  function Unit(s: string, lower: char, upper: char): (nat, string) {
    var k := DigitRun(s);
    if 0 < k < |s| && (s[k] == lower || s[k] == upper) then (Value(s[..k]), s[k + 1..]) else (0, s)
  }

  function ParseCompact(s: string): Option<nat> {
    var (hours, afterHours) := Unit(s, 'h', 'H');
    var (minutes, afterMinutes) := Unit(afterHours, 'm', 'M');
    var (seconds, rest) := Unit(afterMinutes, 's', 'S');
    var total := hours * 3600 + minutes * 60 + seconds;
    if rest == "" && total > 0 then Some(total) else None
  }

  /** `parseVideoTimestampSeconds`. */
  function Parse(value: string): Option<nat> {
    var raw := Trim(value);
    if raw == "" then None
    else if AllDigits(raw) then Some(Value(raw))
    else
      var parts := Split(raw, ':');
      if ColonForm(parts) then Some(Total(parts))
      else ParseCompact(Squeeze(raw))
  }

  // ---- printing

  function Pad2(n: nat): string {
    if n < 10 then "0" + Decimal(n) else Decimal(n)
  }

  /** The printed parts: minutes and seconds, with hours in front when there are any. */
  function Parts(seconds: nat): seq<string> {
    var hours, minutes, secs := seconds / 3600, seconds % 3600 / 60, seconds % 60;
    if hours > 0 then [Decimal(hours), Pad2(minutes), Pad2(secs)] else [Decimal(minutes), Pad2(secs)]
  }

  /** `formatVideoTimestampFromSeconds`, for whole seconds. */
  function Print(seconds: nat): string {
    Join(Parts(seconds), ':')
  }

  const LIMIT := 100 * 3600

  lemma PadValue(n: nat)
    requires n < 100
    ensures ShortNumeral(Pad2(n)) && Value(Pad2(n)) == n
  {
    if n < 10 {
      var d := Decimal(n);
      assert Pad2(n) == ['0', d[0]];
      assert d[0] in d && d == [d[0]];
      assert Pad2(n)[..1] == "0" && "0"[..0] == "";
      assert Value("0") == 0;
      assert d[..0] == "";
    }
  }

  lemma DigitsClean(s: string)
    requires AllDigits(s)
    ensures ':' !in s && NoSpace(s)
  {
    forall c | c in s ensures c != ':' && !IsSpace(c) {}
  }

  lemma PartsClean(seconds: nat)
    ensures forall p :: p in Parts(seconds) ==> Numeral(p) && ':' !in p && NoSpace(p)
    ensures forall i :: 0 < i < |Parts(seconds)| ==> ShortNumeral(Parts(seconds)[i])
    ensures ColonForm(Parts(seconds)) <==> seconds < LIMIT
  {
    var parts := Parts(seconds);
    PadValue(seconds % 3600 / 60);
    PadValue(seconds % 60);
    forall p | p in parts ensures ':' !in p && NoSpace(p) { DigitsClean(p); }
    assert parts[0] in parts;
  }

  lemma {:induction false} NoSpaceTrim(s: string)
    requires NoSpace(s)
    ensures Trim(s) == s
  {
    if s != "" { assert s[0] in s && s[|s| - 1] in s; }
  }

  lemma {:induction false} NoSpaceSqueeze(s: string)
    requires NoSpace(s)
    ensures Squeeze(s) == s
  {
    if s != "" {
      assert s[0] in s && forall c :: c in s[1..] ==> c in s;
      NoSpaceSqueeze(s[1..]);
    }
  }

  /** White space inside a compact form is passed over. */
  lemma {:induction false} SqueezeSkips(a: string, space: string, b: string)
    requires forall c :: c in space ==> IsSpace(c)
    ensures Squeeze(a + (space + b)) == Squeeze(a + b)
    decreases |a|, |space|
  {
    if a != "" {
      assert (a + (space + b))[1..] == a[1..] + (space + b) && (a + b)[1..] == a[1..] + b;
      SqueezeSkips(a[1..], space, b);
    } else if space != "" {
      assert space[0] in space && forall c :: c in space[1..] ==> c in space;
      assert a + (space + b) == space + b && (space + b)[1..] == space[1..] + b;
      assert a + (space[1..] + b) == space[1..] + b;
      SqueezeSkips(a, space[1..], b);
    } else {
      assert space + b == b;
    }
  }

  lemma {:induction false} JoinPrinted(parts: seq<string>)
    requires forall p :: p in parts ==> NoSpace(p)
    ensures NoSpace(Join(parts, ':'))
  {
    if parts != [] {
      assert parts[0] in parts;
      if |parts| > 1 {
        assert forall p :: p in parts[1..] ==> p in parts;
        JoinPrinted(parts[1..]);
      }
    }
  }

  lemma {:induction false} DigitRunOf(d: string, rest: string)
    requires AllDigits(d) && (rest == "" || !IsDigit(rest[0]))
    ensures DigitRun(d + rest) == |d|
  {
    if d == "" {
      assert d + rest == rest;
    } else {
      assert d[0] in d && (d + rest)[0] == d[0] && (d + rest)[1..] == d[1..] + rest;
      assert forall c :: c in d[1..] ==> c in d;
      DigitRunOf(d[1..], rest);
    }
  }

  /** Digits followed by a colon are no compact form. */
  lemma ColonNotCompact(d: string, rest: string)
    requires Numeral(d) && rest != "" && rest[0] == ':'
    ensures ParseCompact(d + rest) == None
  {
    DigitRunOf(d, rest);
    assert (d + rest)[|d|] == ':';
  }

  lemma PrintedRaw(seconds: nat)
    ensures var s := Print(seconds);
            Trim(s) == s && Squeeze(s) == s && s != "" && !AllDigits(s) && Split(s, ':') == Parts(seconds)
  {
    var parts, s := Parts(seconds), Print(seconds);
    PartsClean(seconds);
    JoinPrinted(parts);
    NoSpaceTrim(s);
    NoSpaceSqueeze(s);
    SplitJoin(parts, ':');
    assert s == parts[0] + [':'] + Join(parts[1..], ':');
    assert s[|parts[0]|] == ':' && ':' in s;
  }

  lemma ClockSplit(seconds: nat)
    ensures seconds / 3600 * 3600 + seconds % 3600 / 60 * 60 + seconds % 60 == seconds
  {
    assert seconds % 3600 % 60 == seconds % 60;
  }

  lemma PartsTotal(seconds: nat)
    ensures 2 <= |Parts(seconds)| <= 3 && forall i :: 0 <= i < |Parts(seconds)| ==> AllDigits(Parts(seconds)[i])
    ensures Total(Parts(seconds)) == seconds
  {
    ClockSplit(seconds);
    PadValue(seconds % 3600 / 60);
    PadValue(seconds % 60);
  }

  /** Below 100 hours the parser inverts the printer; from 100 hours on it rejects what was printed. */
  lemma ParsePrint(seconds: nat)
    ensures Parse(Print(seconds)) == if seconds < LIMIT then Some(seconds) else None
  {
    PrintedRaw(seconds);
    PartsClean(seconds);
    PartsTotal(seconds);
    if seconds >= LIMIT { PrintedNotCompact(seconds); }
  }

  lemma PrintedNotCompact(seconds: nat)
    ensures ParseCompact(Print(seconds)) == None
  {
    var parts := Parts(seconds);
    PartsClean(seconds);
    var rest := [':'] + Join(parts[1..], ':');
    assert parts[0] in parts;
    assert Print(seconds) == parts[0] + rest;
    ColonNotCompact(parts[0], rest);
  }

  lemma DecimalParses(n: nat)
    ensures Parse(Decimal(n)) == Some(n)
  {
    DigitsClean(Decimal(n));
    NoSpaceTrim(Decimal(n));
  }

  /** `d` followed by a unit letter. */
  lemma UnitReads(d: string, c: char, rest: string, lower: char, upper: char)
    requires Numeral(d) && !IsDigit(c) && (c == lower || c == upper)
    ensures Unit(d + [c] + rest, lower, upper) == (Value(d), rest)
  {
    var s := d + [c] + rest;
    assert s == d + ([c] + rest);
    DigitRunOf(d, [c] + rest);
    assert s[..|d|] == d && s[|d|] == c && s[|d| + 1..] == rest;
  }

  /** A compact form from three numerals. */
  function Compact(h: string, m: string, s: string): string {
    h + "h" + (m + "m" + (s + "s"))
  }

  lemma CompactParts(h: string, m: string, s: string)
    requires Numeral(h) && Numeral(m) && Numeral(s)
    ensures var total := Value(h) * 3600 + Value(m) * 60 + Value(s);
            ParseCompact(Compact(h, m, s)) == if total > 0 then Some(total) else None
  {
    UnitReads(h, 'h', m + "m" + (s + "s"), 'h', 'H');
    UnitReads(m, 'm', s + "s", 'm', 'M');
    assert s + "s" + "" == s + "s";
    UnitReads(s, 's', "", 's', 'S');
  }

  lemma CompactRaw(h: string, m: string, s: string)
    requires Numeral(h) && Numeral(m) && Numeral(s)
    ensures var text := Compact(h, m, s);
            Trim(text) == text && Squeeze(text) == text && !AllDigits(text) && Split(text, ':') == [text] && text != ""
  {
    var text := Compact(h, m, s);
    DigitsClean(h);
    DigitsClean(m);
    DigitsClean(s);
    assert forall c :: c in text ==> c in h || c in m || c in s || c in "hms";
    assert NoSpace(text) && ':' !in text;
    NoSpaceTrim(text);
    NoSpaceSqueeze(text);
    SplitPart(text, ':');
    assert text[|h|] == 'h' && 'h' in text;
  }

  lemma CompactOnly(text: string)
    requires Trim(text) == text && Squeeze(text) == text && !AllDigits(text) && Split(text, ':') == [text]
    ensures Parse(text) == ParseCompact(text)
  {}

  /** The compact form of any hours, minutes and seconds is read as their sum, unless it is zero. */
  lemma CompactReads(h: string, m: string, s: string)
    requires Numeral(h) && Numeral(m) && Numeral(s)
    ensures var total := Value(h) * 3600 + Value(m) * 60 + Value(s);
            Parse(Compact(h, m, s)) == if total > 0 then Some(total) else None
  {
    CompactParts(h, m, s);
    CompactRaw(h, m, s);
    CompactOnly(Compact(h, m, s));
  }

  lemma PrintInjective(a: nat, b: nat)
    requires Print(a) == Print(b)
    ensures a == b
  {
    PrintedRaw(a);
    PrintedRaw(b);
    PartsTotal(a);
    PartsTotal(b);
  }

  // ---- labels and time parameters

  /** `normalizeVideoTimestampLabel`, given the seconds that the URL names. */
  function Label(timestamp: string, fromUrl: Option<nat>): string {
    if Parse(timestamp).Some? then Print(Parse(timestamp).value)
    else if fromUrl.Some? then Print(fromUrl.value)
    else ""
  }

  /** A timestamp of 100 hours or more, which the URL does not repeat. */
  predicate Unrepeatable(timestamp: string, fromUrl: Option<nat>) {
    Parse(timestamp).Some? && Parse(timestamp).value >= LIMIT && fromUrl != Parse(timestamp)
  }

  /** Normalising a label again changes nothing, unless it is of 100 hours or more and only the label knew it. */
  lemma {:induction false} LabelStableExactly(timestamp: string, fromUrl: Option<nat>)
    ensures Label(Label(timestamp, fromUrl), fromUrl) == Label(timestamp, fromUrl)
            <==> !Unrepeatable(timestamp, fromUrl)
  {
    var named := if Parse(timestamp).Some? then Parse(timestamp) else fromUrl;
    if named.Some? {
      ParsePrint(named.value);
      PrintedRaw(named.value);
      if Unrepeatable(timestamp, fromUrl) && fromUrl.Some? && Print(fromUrl.value) == Print(named.value) {
        PrintInjective(fromUrl.value, named.value);
      }
    } else {
      assert Trim("") == "";
    }
  }

  /** A well-formed URL: what its library keeps of it besides the query parameters, and the query parameters. */
  datatype Url = Url(base: string, params: seq<(string, string)>)

  function Get(params: seq<(string, string)>, key: string): Option<string> {
    if params == [] then None
    else if params[0].0 == key then Some(params[0].1)
    else Get(params[1..], key)
  }

  function TimeParam(url: Url): Option<string> {
    if Get(url.params, "t").Some? then Get(url.params, "t")
    else if Get(url.params, "start").Some? then Get(url.params, "start")
    else Get(url.params, "time_continue")
  }

  /** `extractTimestampFromUrl`; no URL names no time. */
  function UrlSeconds(url: Option<Url>): Option<nat> {
    if url.None? || TimeParam(url.value).None? || TimeParam(url.value).value == "" then None
    else Parse(TimeParam(url.value).value)
  }

  /** `buildTimestampedVideoUrl`. */
  function Timestamped(url: Option<Url>, timestamp: string): Option<Url> {
    var seconds := Parse(timestamp);
    if url.None? || seconds.None? || seconds.value == 0 || TimeParam(url.value).Some? then url
    else Some(url.value.(params := url.value.params + [("t", Decimal(seconds.value))]))
  }

  lemma {:induction false} GetAppended(params: seq<(string, string)>, key: string, value: string)
    ensures Get(params, key).None? ==> Get(params + [(key, value)], key) == Some(value)
  {
    if params == [] {
      assert params + [(key, value)] == [(key, value)];
    } else {
      assert (params + [(key, value)])[1..] == params[1..] + [(key, value)];
      GetAppended(params[1..], key, value);
    }
  }

  predicate IsTimeKey(key: string) { key == "t" || key == "start" || key == "time_continue" }

  lemma {:induction false} GetSkips(before: seq<(string, string)>, after: seq<(string, string)>, key: string)
    requires forall p :: p in before ==> p.0 != key
    ensures Get(before + after, key) == Get(after, key)
  {
    if before == [] {
      assert before + after == after;
    } else {
      assert before[0] in before && forall p :: p in before[1..] ==> p in before;
      assert (before + after)[0] == before[0] && (before + after)[1..] == before[1..] + after;
      GetSkips(before[1..], after, key);
    }
  }

  lemma {:induction false} GetNone(params: seq<(string, string)>, key: string)
    requires forall p :: p in params ==> p.0 != key
    ensures Get(params, key) == None
  {
    if params != [] {
      assert params[0] in params && forall p :: p in params[1..] ==> p in params;
      GetNone(params[1..], key);
    }
  }

  /** The time of a URL with one time parameter, under any of the three names and wherever it stands, is what its value
      is read as. */
  lemma TimeKeyRead(
    base: string, before: seq<(string, string)>, key: string, value: string, after: seq<(string, string)>
  )
    requires IsTimeKey(key) && forall p :: p in before || p in after ==> !IsTimeKey(p.0)
    ensures UrlSeconds(Some(Url(base, before + ([(key, value)] + after)))) == Parse(value)
  {
    var params := before + ([(key, value)] + after);
    GetSkips(before, [(key, value)] + after, key);
    forall k | IsTimeKey(k) && k != key ensures Get(params, k) == None { GetNone(params, k); }
    assert Trim("") == "";
  }

  /** Of several, `t` is read before `start`, and `start` before `time_continue`. */
  lemma TimeKeysInOrder(base: string, params: seq<(string, string)>)
    ensures var time, start := Get(params, "t"), Get(params, "start");
            var seconds := UrlSeconds(Some(Url(base, params)));
            && (time.Some? ==> seconds == Parse(time.value))
            && (time.None? && start.Some? ==> seconds == Parse(start.value))
  {
    assert Trim("") == "";
  }

  /** What a write stores for a takeaway's URL and label. */
  function Stored(url: Option<Url>, timestamp: string): (Option<Url>, string) {
    var linked := Timestamped(url, timestamp);
    (linked, Label(timestamp, UrlSeconds(linked)))
  }

  lemma TimestampedSeconds(url: Option<Url>, timestamp: string)
    ensures Timestamped(url, timestamp) != url ==>
              UrlSeconds(Timestamped(url, timestamp)) == Parse(timestamp)
              && TimeParam(Timestamped(url, timestamp).value).Some?
  {
    if Timestamped(url, timestamp) != url {
      var n := Parse(timestamp).value;
      GetAppended(url.value.params, "t", Decimal(n));
      DecimalParses(n);
    }
  }

  /** Storing what was stored changes nothing, with the same one exception; and a URL without a time parameter is
      never that exception, because the write adds the parameter. */
  lemma StoredStableExactly(url: Option<Url>, timestamp: string)
    ensures var once := Stored(url, timestamp);
            Stored(once.0, once.1) == once <==> !Unrepeatable(timestamp, UrlSeconds(once.0))
    ensures url.Some? && TimeParam(url.value).None? ==> !Unrepeatable(timestamp, UrlSeconds(Stored(url, timestamp).0))
  {
    var (linked, shown) := Stored(url, timestamp);
    TimestampedSeconds(url, timestamp);
    LabelStableExactly(timestamp, UrlSeconds(linked));
    RelinkKeeps(url, timestamp);
  }

  lemma RelinkKeeps(url: Option<Url>, timestamp: string)
    ensures var once := Stored(url, timestamp); Timestamped(once.0, once.1) == once.0
  {
    var (linked, shown) := Stored(url, timestamp);
    TimestampedSeconds(url, timestamp);
    if linked.Some? && TimeParam(linked.value).None? {
      assert Trim("") == "";
      if Parse(timestamp).Some? { ParsePrint(0); }
    }
  }

  // ---- URLs as texts

  function WithTime(url: Url, seconds: nat): Url {
    url.(params := url.params + [("t", Decimal(seconds))])
  }

  /** What is appended to a malformed text. */
  function WithSuffix(raw: string, seconds: nat): string {
    raw + (if '?' in raw then "&" else "?") + "t=" + Decimal(seconds)
  }

  /** `new URL(text)`, when it does not throw, and `toString`. */
  datatype Web = Web(parse: string -> Option<Url>, serialize: Url -> string)

  /** `buildTimestampedVideoUrl`, malformed texts included. */
  function BuildUrl(web: Web, videoUrl: string, timestamp: string): string {
    var raw, seconds := Trim(videoUrl), Parse(timestamp);
    if raw == "" then ""
    else if seconds.None? || seconds.value == 0 then raw
    else
      var url := web.parse(raw);
      if url.None? then WithSuffix(raw, seconds.value)
      else web.serialize(Timestamped(url, timestamp).value)
  }

  /** What a write stores for the texts of a takeaway's URL and label. */
  function StoredText(web: Web, videoUrl: string, timestamp: string): (string, string) {
    var linked := BuildUrl(web, videoUrl, timestamp);
    (linked, Label(timestamp, UrlSeconds(web.parse(Trim(linked)))))
  }

  /** The printed text of a URL is read back as a URL with its parameters and its text. */
  predicate ReadsBack(web: Web, url: Url) {
    var text := web.serialize(url);
    && text != "" && Trim(text) == text && web.parse(text).Some?
    && web.parse(text).value.params == url.params && web.serialize(web.parse(text).value) == text
  }

  predicate Named(timestamp: string) {
    Parse(timestamp).Some? && Parse(timestamp).value > 0
  }

  /** What is known of the URL library about a text: a well-formed URL reads back, also with a time parameter added, and
      a malformed text stays malformed when one is appended. */
  ghost predicate Readable(web: Web, raw: string) {
    && web.parse("").None?
    && match web.parse(raw)
       case None => raw != "" ==> forall n: nat :: web.parse(WithSuffix(raw, n)).None?
       case Some(u) =>
         raw != "" && ReadsBack(web, u) && (TimeParam(u).None? ==> forall n: nat :: ReadsBack(web, WithTime(u, n)))
  }

  /** A malformed text to which a time is appended. */
  predicate Grows(web: Web, raw: string, timestamp: string) {
    raw != "" && web.parse(raw).None? && Named(timestamp)
  }

  /** A text that the library spells otherwise, kept by a write without a label, whose URL names the time that the next
      write then finds in the label. */
  predicate Respelled(web: Web, raw: string, timestamp: string) {
    var url := web.parse(raw);
    && url.Some? && Parse(timestamp).None? && raw != web.serialize(url.value)
    && UrlSeconds(url).Some? && 0 < UrlSeconds(url).value < LIMIT
  }

  /** The second write changes what the first one stored. */
  predicate Drifts(web: Web, text: string, timestamp: string) {
    var raw := Trim(text);
    || Unrepeatable(timestamp, UrlSeconds(Timestamped(web.parse(raw), timestamp)))
    || Grows(web, raw, timestamp)
    || Respelled(web, raw, timestamp)
  }

  lemma NoLabel()
    ensures Parse("").None? && Trim("") == ""
  {}

  /** A write without a time keeps the text. */
  lemma UntimedAgain(web: Web, text: string, timestamp: string)
    requires Readable(web, Trim(text)) && !Named(timestamp)
    ensures var once := StoredText(web, text, timestamp);
            StoredText(web, once.0, once.1) == once <==> !Respelled(web, Trim(text), timestamp)
  {
    var raw := Trim(text);
    var url := web.parse(raw);
    var seconds := UrlSeconds(url);
    TrimTwice(text);
    NoLabel();
    ParsePrint(0);
    if Parse(timestamp).None? && seconds.Some? { ParsePrint(seconds.value); }
  }

  lemma SuffixTrimmed(raw: string, seconds: nat)
    requires raw != "" && Trim(raw) == raw
    ensures var t := WithSuffix(raw, seconds); Trim(t) == t && |t| > |raw|
  {
    var t := WithSuffix(raw, seconds);
    DigitsClean(Decimal(seconds));
    assert t[|t| - 1] == Decimal(seconds)[|Decimal(seconds)| - 1];
    TrimmedEnds(raw);
    assert t[0] == raw[0];
  }

  /** A malformed text grows again, or the time that only the label knew is lost. */
  lemma MalformedAgain(web: Web, text: string, timestamp: string)
    requires Readable(web, Trim(text)) && Grows(web, Trim(text), timestamp)
    ensures var once := StoredText(web, text, timestamp); StoredText(web, once.0, once.1) != once
  {
    var raw, n := Trim(text), Parse(timestamp).value;
    var linked := WithSuffix(raw, n);
    TrimTwice(text);
    SuffixTrimmed(raw, n);
    SuffixTrimmed(linked, n);
    ParsePrint(n);
    assert StoredText(web, text, timestamp) == (linked, Print(n));
    if n >= LIMIT { PrintedRaw(n); }
  }

  /** Without a URL the label alone decides. */
  lemma EmptyAgain(web: Web, text: string, timestamp: string)
    requires Readable(web, Trim(text)) && Trim(text) == "" && Named(timestamp)
    ensures var once := StoredText(web, text, timestamp);
            StoredText(web, once.0, once.1) == once <==> !Unrepeatable(timestamp, None)
  {
    NoLabel();
    LabelStableExactly(timestamp, None);
  }

  /** A URL to which the label was added, if it named no time, is found again with its text. */
  lemma TimedAgain(web: Web, text: string, timestamp: string)
    requires Readable(web, Trim(text)) && web.parse(Trim(text)).Some? && Named(timestamp)
    ensures var once := StoredText(web, text, timestamp);
            StoredText(web, once.0, once.1) == once
            <==> !Unrepeatable(timestamp, UrlSeconds(Timestamped(web.parse(Trim(text)), timestamp)))
  {
    var raw, n := Trim(text), Parse(timestamp).value;
    var url := web.parse(raw);
    var linked := Timestamped(url, timestamp);
    TimestampedSeconds(url, timestamp);
    assert linked == url || linked == Some(WithTime(url.value, n));
    assert ReadsBack(web, linked.value) && TimeParam(linked.value).Some?;
    var found := web.parse(web.serialize(linked.value)).value;
    assert TimeParam(found) == TimeParam(linked.value);
    LabelStableExactly(timestamp, UrlSeconds(linked));
    ParsePrint(n);
  }

  /** If and only if, on the texts themselves: storing what was stored changes nothing exactly unless the label is of
      100 hours or more and the URL does not repeat it, a malformed text is given a time, or the first write kept a text
      that the second spells otherwise. */
  lemma StoredTextStableExactly(web: Web, text: string, timestamp: string)
    requires Readable(web, Trim(text))
    ensures var once := StoredText(web, text, timestamp);
            StoredText(web, once.0, once.1) == once <==> !Drifts(web, text, timestamp)
  {
    if !Named(timestamp) {
      UntimedAgain(web, text, timestamp);
    } else if Trim(text) == "" {
      EmptyAgain(web, text, timestamp);
    } else if web.parse(Trim(text)).None? {
      MalformedAgain(web, text, timestamp);
    } else {
      TimedAgain(web, text, timestamp);
    }
  }

  /** What a timed write makes of a malformed text. */
  lemma MalformedGrown(web: Web, text: string, timestamp: string)
    requires text != "" && Trim(text) == text && web.parse(text).None?
    requires Parse(timestamp).Some? && Parse(timestamp).value > 0
    ensures StoredText(web, text, timestamp).0
            == text + (if '?' in text then "&t=" else "?t=") + Decimal(Parse(timestamp).value)
  {
    var digits := Decimal(Parse(timestamp).value);
    assert (text + "&") + "t=" == text + "&t=" && (text + "?") + "t=" == text + "?t=";
  }

  /** Of a respelled text, as `HTTPS://youtu.be/x?t=90` without a label: the first write keeps it and stores the label
      of its URL, and the second one writes the URL as the library spells it. */
  lemma RespelledBySecond(web: Web, raw: string, timestamp: string)
    requires raw != "" && Trim(raw) == raw && Respelled(web, raw, timestamp)
    ensures var url := web.parse(raw);
            var shown := Print(UrlSeconds(url).value);
            && StoredText(web, raw, timestamp) == (raw, shown)
            && StoredText(web, raw, shown).0 == web.serialize(url.value) != raw
  {
    ParsePrint(UrlSeconds(web.parse(raw)).value);
  }

  /** If and only if: a malformed URL is stored unchanged exactly when the label names no time after zero; else the
      write appends to it. */
  lemma MalformedKeptExactly(web: Web, text: string, timestamp: string)
    requires text != "" && Trim(text) == text && web.parse(text).None?
    ensures StoredText(web, text, timestamp).0 == text <==> Parse(timestamp).None? || Parse(timestamp).value == 0
    ensures text <= StoredText(web, text, timestamp).0
  {
    if Parse(timestamp).Some? && Parse(timestamp).value > 0 {
      assert |StoredText(web, text, timestamp).0| > |text|;
    }
  }
}
