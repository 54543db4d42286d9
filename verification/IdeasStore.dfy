/** The ideas store: reviews with ordered takeaways, written to tables and read back, with running id counters. */
module IdeasStore {
  import opened Text
  import opened VideoTimestamps
  import opened IdeasRecords

  // ---- running numbers

  /** `Number.parseInt(s, 10)`: leading white space, a sign, then digits. */
  function ParseInt(s: string): Option<int> {
    var t := TrimLeft(s);
    var signed := t != "" && (t[0] == '-' || t[0] == '+');
    var digits := if signed then t[1..] else t;
    var k := DigitRun(digits);
    if k == 0 then None
    else Some(if signed && t[0] == '-' then -(Value(digits[..k]) as int) else Value(digits[..k]))
  }

  lemma {:induction false} SpaceTrimmed(space: string, text: string)
    requires (forall c :: c in space ==> IsSpace(c)) && (text == "" || !IsSpace(text[0]))
    ensures TrimLeft(space + text) == text
  {
    if space == "" {
      assert space + text == text;
    } else {
      assert space[0] in space && forall c :: c in space[1..] ==> c in space;
      assert (space + text)[0] == space[0] && (space + text)[1..] == space[1..] + text;
      SpaceTrimmed(space[1..], text);
    }
  }

  /** White space before a number, a sign, and what follows its digits, do not keep it from being read. */
  lemma ParseIntReads(space: string, sign: string, digits: string, rest: string)
    requires (forall c :: c in space ==> IsSpace(c)) && (sign == "" || sign == "-" || sign == "+")
    requires Numeral(digits) && (rest == "" || !IsDigit(rest[0]))
    ensures ParseInt(space + (sign + (digits + rest)))
            == Some(if sign == "-" then -(Value(digits) as int) else Value(digits))
  {
    var number := digits + rest;
    assert digits[0] in digits && number[0] == digits[0];
    SpaceTrimmed(space, sign + number);
    if sign == "" { assert sign + number == number; }
    DigitsRead(digits, rest);
    SignRead(sign, number);
  }

  lemma DigitsRead(digits: string, rest: string)
    requires Numeral(digits) && (rest == "" || !IsDigit(rest[0]))
    ensures var number := digits + rest; DigitRun(number) == |digits| && number[..|digits|] == digits
  {
    DigitRunOf(digits, rest);
  }

  lemma SignRead(sign: string, number: string)
    requires sign == "" || sign == "-" || sign == "+"
    ensures sign != "" ==> (sign + number)[0] == sign[0] && (sign + number)[1..] == number
  {}

  /** The number of an id with this prefix, in either case. */
  function Suffix(id: string, prefix: string): Option<int> {
    var normalized := Trim(id);
    if StartsWith(Lower(normalized), Lower(prefix)) then ParseInt(normalized[|prefix|..]) else None
  }

  predicate Exceeds(next: int, ids: seq<string>, prefix: string) {
    forall id :: id in ids && Suffix(id, prefix).Some? ==> Suffix(id, prefix).value < next
  }

  predicate Reached(n: int, ids: seq<string>, prefix: string) {
    exists id :: id in ids && Suffix(id, prefix) == Some(n)
  }

  /** The least positive number above every suffix. */
  predicate IsNext(next: int, ids: seq<string>, prefix: string) {
    next >= 1 && Exceeds(next, ids, prefix) && (next == 1 || Reached(next - 1, ids, prefix))
  }

  lemma IsNextExtends(max: int, ids: seq<string>, id: string, n: Option<int>, prefix: string)
    requires IsNext(max + 1, ids, prefix) && n == Suffix(id, prefix)
    ensures IsNext((if n.Some? && n.value > max then n.value else max) + 1, ids + [id], prefix)
  {
    assert id in ids + [id] && forall x :: x in ids + [id] <==> x in ids || x == id;
  }

  /** `computeNextSequenceFromIds`. */
  method ComputeNextSequence(ids: seq<string>, prefix: string) returns (next: int)
    ensures IsNext(next, ids, prefix)
    ensures next == NextSequence(ids, prefix)
  {
    var max := 0;
    for i := 0 to |ids|
      invariant IsNext(max + 1, ids[..i], prefix)
    {
      var n := Suffix(ids[i], prefix);
      IsNextExtends(max, ids[..i], ids[i], n, prefix);
      assert ids[..i + 1] == ids[..i] + [ids[i]];
      if n.Some? && n.value > max { max := n.value; }
    }
    assert ids[..|ids|] == ids;
    next := max + 1;
    NextSequenceLeast(ids, ids, prefix, next);
  }

  function NextSequence(ids: seq<string>, prefix: string): int {
    if ids == [] then 1
    else
      var next, n := NextSequence(ids[..|ids| - 1], prefix), Suffix(ids[|ids| - 1], prefix);
      if n.Some? && n.value >= next then n.value + 1 else next
  }

  lemma {:induction false} NextSequenceIsNext(ids: seq<string>, prefix: string)
    ensures IsNext(NextSequence(ids, prefix), ids, prefix)
  {
    if ids != [] {
      var init, last := ids[..|ids| - 1], ids[|ids| - 1];
      assert ids == init + [last];
      NextSequenceIsNext(init, prefix);
      IsNextExtends(NextSequence(init, prefix) - 1, init, last, Suffix(last, prefix), prefix);
    }
  }

  /** Only the set of ids matters. */
  lemma NextSequenceLeast(a: seq<string>, b: seq<string>, prefix: string, next: int)
    requires forall id :: id in a <==> id in b
    requires IsNext(next, b, prefix)
    ensures next == NextSequence(a, prefix)
  {
    NextSequenceIsNext(a, prefix);
  }

  // ---- rows

  /** `reviews` may hold anything; what is no record is skipped. */
  datatype Store = Store(reviews: seq<JsValue>, meta: Meta)

  datatype Meta = Meta(lastUpdated: string, total: nat, nextReview: int, nextTakeaway: int, extra: Fields)

  datatype TakeawayRow = TakeawayRow(id: string, reviewId: string, sortOrder: nat, columns: Fields, extra: Fields)

  datatype ReviewRow = ReviewRow(id: string, columns: Fields, extra: Fields, updatedAt: string)

  datatype Tables = Tables(reviews: seq<ReviewRow>, takeaways: seq<TakeawayRow>, meta: Option<Meta>)

  /** What an absent meta row is read as: no counter at all. */
  const NO_META := Meta("", 0, 0, 0, map[])

  const NO_TABLES := Tables([], [], None)

  /** How SQLite sorts a date text (an absent or unreadable date comes lowest). */
  type Clock = Option<string> -> int

  /** What the store works with: coercions, URLs and dates as their libraries read them, and the two layouts. */
  datatype Env = Env(coercion: Coercion, web: Web, clock: Clock, reviews: Layout, takeaways: Layout)

  const ID := "id"
  const TAKEAWAYS := "takeaways"
  const VIDEO_URL := "video_url"
  const VIDEO_TIMESTAMP := "video_timestamp"
  const STATUS := "status"
  const REVIEWED_AT := "reviewed_at"

  predicate TextColumn(layout: Layout, key: string) {
    key in layout.columns && layout.columns[key].Text?
  }

  /** Known keys and overwritten keys agree, and the keys that the code names are where it expects them. */
  predicate ConsistentReviews(layout: Layout) {
    && layout.Aligned() && layout.own == {ID, TAKEAWAYS}
    && REVIEWED_AT in layout.columns && layout.columns[REVIEWED_AT] == Date
  }

  predicate ConsistentTakeaways(layout: Layout) {
    && layout.Aligned() && layout.own == {ID}
    && TextColumn(layout, VIDEO_URL) && TextColumn(layout, VIDEO_TIMESTAMP) && TextColumn(layout, STATUS)
  }

  predicate Consistent(env: Env) {
    ConsistentReviews(env.reviews) && ConsistentTakeaways(env.takeaways)
  }

  /** The program's own layouts. */
  function ProgramEnv(coercion: Coercion, web: Web, clock: Clock): Env {
    Env(coercion, web, clock, ReviewLayout(), TakeawayLayout())
  }

  lemma ReviewsConsistent()
    ensures ConsistentReviews(ReviewLayout())
  {
    ReviewListAligned();
  }

  lemma TakeawaysConsistent()
    ensures ConsistentTakeaways(TakeawayLayout())
  {
    TakeawayListAligned();
  }

  lemma ProgramConsistent(coercion: Coercion, web: Web, clock: Clock)
    ensures Consistent(ProgramEnv(coercion, web, clock))
  {
    ReviewsConsistent();
    TakeawaysConsistent();
  }

  // ---- sorting

  predicate TextLe(a: string, b: string) {
    a == "" || (b != "" && (a[0] < b[0] || (a[0] == b[0] && TextLe(a[1..], b[1..]))))
  }

  lemma {:induction false} TextTotal(a: string, b: string)
    ensures TextLe(a, b) || TextLe(b, a)
  {
    if a != "" && b != "" && a[0] == b[0] { TextTotal(a[1..], b[1..]); }
  }

  function ReviewedAt(row: ReviewRow): Option<string> {
    var v := At(row.columns, REVIEWED_AT);
    if v.Str? then Some(v.text) else None
  }

  /** `datetime(reviewed_at) DESC, datetime(updated_at) DESC, id ASC`. */
  predicate ReviewLe(a: ReviewRow, b: ReviewRow, clock: Clock) {
    var (ra, rb) := (clock(ReviewedAt(a)), clock(ReviewedAt(b)));
    var (ua, ub) := (clock(Some(a.updatedAt)), clock(Some(b.updatedAt)));
    ra > rb || (ra == rb && (ua > ub || (ua == ub && TextLe(a.id, b.id))))
  }

  function InsertReview(r: ReviewRow, rows: seq<ReviewRow>, clock: Clock): seq<ReviewRow> {
    if rows == [] || ReviewLe(r, rows[0], clock) then [r] + rows else [rows[0]] + InsertReview(r, rows[1..], clock)
  }

  function SortReviews(rows: seq<ReviewRow>, clock: Clock): seq<ReviewRow> {
    if rows == [] then [] else InsertReview(rows[0], SortReviews(rows[1..], clock), clock)
  }

  predicate ReviewsSorted(rows: seq<ReviewRow>, clock: Clock) {
    |rows| >= 2 ==> ReviewLe(rows[0], rows[1], clock) && ReviewsSorted(rows[1..], clock)
  }

  function InsertTakeaway(r: TakeawayRow, rows: seq<TakeawayRow>): seq<TakeawayRow> {
    if rows == [] || r.sortOrder <= rows[0].sortOrder then [r] + rows else [rows[0]] + InsertTakeaway(r, rows[1..])
  }

  function SortTakeaways(rows: seq<TakeawayRow>): seq<TakeawayRow> {
    if rows == [] then [] else InsertTakeaway(rows[0], SortTakeaways(rows[1..]))
  }

  // ---- reading

  function ToTakeaway(row: TakeawayRow, env: Env): JsValue {
    Record(Merged(env.takeaways, row.extra, row.columns, map[ID := Str(row.id)]))
  }

  function ToTakeaways(rows: seq<TakeawayRow>, env: Env): (r: seq<JsValue>)
    ensures |r| == |rows| && forall i :: 0 <= i < |r| ==> r[i] == ToTakeaway(rows[i], env)
  {
    if rows == [] then [] else [ToTakeaway(rows[0], env)] + ToTakeaways(rows[1..], env)
  }

  function RowsOf(rows: seq<TakeawayRow>, reviewId: string): seq<TakeawayRow> {
    if rows == [] then [] else (if rows[0].reviewId == reviewId then [rows[0]] else []) + RowsOf(rows[1..], reviewId)
  }

  function TakeawaysRead(row: ReviewRow, takeaways: seq<TakeawayRow>, env: Env): seq<JsValue> {
    ToTakeaways(SortTakeaways(RowsOf(takeaways, row.id)), env)
  }

  function ToReview(row: ReviewRow, takeaways: seq<TakeawayRow>, env: Env): JsValue {
    Record(Merged(env.reviews, row.extra, row.columns,
                  map[ID := Str(row.id), TAKEAWAYS := List(TakeawaysRead(row, takeaways, env))]))
  }

  function ToReviews(rows: seq<ReviewRow>, takeaways: seq<TakeawayRow>, env: Env): (r: seq<JsValue>)
    ensures |r| == |rows| && forall i :: 0 <= i < |r| ==> r[i] == ToReview(rows[i], takeaways, env)
  {
    if rows == [] then [] else [ToReview(rows[0], takeaways, env)] + ToReviews(rows[1..], takeaways, env)
  }

  function ReviewIds(rows: seq<ReviewRow>): (r: seq<string>)
    ensures |r| == |rows| && forall i :: 0 <= i < |r| ==> r[i] == rows[i].id
  {
    if rows == [] then [] else [rows[0].id] + ReviewIds(rows[1..])
  }

  function TakeawayIds(rows: seq<TakeawayRow>): (r: seq<string>)
    ensures |r| == |rows| && forall i :: 0 <= i < |r| ==> r[i] == rows[i].id
  {
    if rows == [] then [] else [rows[0].id] + TakeawayIds(rows[1..])
  }

  function Max(a: int, b: int): int { if a >= b then a else b }

  const REVIEW_PREFIX := "review-"
  const TAKEAWAY_PREFIX := "tw-"

  /** `buildStoreFromDb`. */
  function Read(db: Tables, env: Env, now: string): Store {
    var rows := SortReviews(db.reviews, env.clock);
    var was := if db.meta.Some? then db.meta.value else NO_META.(lastUpdated := now);
    Store(
      ToReviews(rows, db.takeaways, env),
      was.(total := |rows|,
           nextReview := Max(was.nextReview, NextSequence(ReviewIds(rows), REVIEW_PREFIX)),
           nextTakeaway := Max(was.nextTakeaway, NextSequence(TakeawayIds(db.takeaways), TAKEAWAY_PREFIX))))
  }

  // ---- writing

  function IdOf(v: JsValue, env: Env): string {
    if v.Record? then Trim(ToText(At(v.fields, ID), "", env.coercion)) else ""
  }

  function TextAt(columns: Fields, key: string): string {
    if At(columns, key).Str? then columns[key].text else ""
  }

  /** URL and label are stored together. */
  function WithVideo(columns: Fields, env: Env): Fields {
    var (url, shown) := StoredText(env.web, TextAt(columns, VIDEO_URL), TextAt(columns, VIDEO_TIMESTAMP));
    columns[VIDEO_URL := Str(url)][VIDEO_TIMESTAMP := Str(shown)]
  }

  function ToTakeawayRow(v: JsValue, reviewId: string, order: nat, env: Env): TakeawayRow
    requires v.Record?
  {
    TakeawayRow(IdOf(v, env), reviewId, order,
                WithVideo(SavedColumns(env.takeaways.columns, v.fields, env.coercion), env),
                ExtraOf(env.takeaways, v.fields))
  }

  /** What is no record with an id is skipped and takes no place in the order. */
  function ToTakeawayRows(ts: seq<JsValue>, reviewId: string, order: nat, env: Env): seq<TakeawayRow>
    decreases |ts|
  {
    if ts == [] then []
    else if IdOf(ts[0], env) == "" then ToTakeawayRows(ts[1..], reviewId, order, env)
    else [ToTakeawayRow(ts[0], reviewId, order, env)] + ToTakeawayRows(ts[1..], reviewId, order + 1, env)
  }

  function ToReviewRow(v: JsValue, now: string, env: Env): ReviewRow
    requires v.Record?
  {
    ReviewRow(IdOf(v, env), SavedColumns(env.reviews.columns, v.fields, env.coercion),
              ExtraOf(env.reviews, v.fields), now)
  }

  function TakeawaysIn(v: JsValue): seq<JsValue> {
    if v.Record? && At(v.fields, TAKEAWAYS).List? then v.fields[TAKEAWAYS].items else []
  }

  /** A review with a blank id is skipped with its takeaways. */
  function RowsOfReview(v: JsValue, now: string, env: Env): seq<ReviewRow> {
    if IdOf(v, env) == "" then [] else [ToReviewRow(v, now, env)]
  }

  function TakeawaysOfReview(v: JsValue, env: Env): seq<TakeawayRow> {
    if IdOf(v, env) == "" then [] else ToTakeawayRows(TakeawaysIn(v), IdOf(v, env), 0, env)
  }

  function ReviewRows(reviews: seq<JsValue>, now: string, env: Env): seq<ReviewRow> {
    if reviews == [] then []
    else RowsOfReview(reviews[0], now, env) + ReviewRows(reviews[1..], now, env)
  }

  function TakeawayRows(reviews: seq<JsValue>, env: Env): seq<TakeawayRow> {
    if reviews == [] then []
    else TakeawaysOfReview(reviews[0], env) + TakeawayRows(reviews[1..], env)
  }

  predicate Distinct(ids: seq<string>) {
    forall id :: id in ids ==> multiset(ids)[id] == 1
  }

  /** Both primary keys accept the rows. */
  predicate RowsDistinct(reviews: seq<ReviewRow>, takeaways: seq<TakeawayRow>) {
    Distinct(ReviewIds(reviews)) && Distinct(TakeawayIds(takeaways))
  }

  predicate Insertable(store: Store, env: Env) {
    RowsDistinct(ReviewRows(store.reviews, "", env), TakeawayRows(store.reviews, env))
  }

  function MetaAfter(meta: Meta, reviews: seq<ReviewRow>, takeaways: seq<TakeawayRow>, now: string): Meta {
    meta.(
      lastUpdated := now, total := |reviews|,
      nextReview := Max(meta.nextReview, NextSequence(ReviewIds(reviews), REVIEW_PREFIX)),
      nextTakeaway := Max(meta.nextTakeaway, NextSequence(TakeawayIds(takeaways), TAKEAWAY_PREFIX)))
  }

  function Written(store: Store, now: string, env: Env): Tables {
    var reviews, takeaways := ReviewRows(store.reviews, now, env), TakeawayRows(store.reviews, env);
    Tables(reviews, takeaways, Some(MetaAfter(store.meta, reviews, takeaways, now)))
  }

  // ---- the status sync

  function Underscored(s: string): string {
    if s == "" then "" else [if s[0] == '-' then '_' else s[0]] + Underscored(s[1..])
  }

  /** The takeaway status that a task status stands for. */
  function MappedStatus(taskStatus: string): Option<string> {
    var status := Underscored(Lower(Trim(taskStatus)));
    if status == "in_progress" then Some("building")
    else if status == "done" then Some("shipped")
    else if status == "cancelled" || status == "canceled" then Some("rejected")
    else None
  }

  predicate HasId(rows: seq<TakeawayRow>, id: string) {
    exists t :: t in rows && t.id == id
  }

  function WithStatus(t: TakeawayRow, id: string, status: string): TakeawayRow {
    if t.id == id then t.(columns := t.columns[STATUS := Str(status)]) else t
  }

  function WithStatuses(rows: seq<TakeawayRow>, id: string, status: string): (r: seq<TakeawayRow>)
    ensures |r| == |rows| && forall i :: 0 <= i < |r| ==> r[i] == WithStatus(rows[i], id, status)
  {
    seq(|rows|, i requires 0 <= i < |rows| => WithStatus(rows[i], id, status))
  }

  /** The takeaway already has the status. Ids are primary keys, so one row decides. */
  predicate AlreadySynced(rows: seq<TakeawayRow>, id: string, status: string) {
    exists t :: t in rows && t.id == id && Lower(Trim(TextAt(t.columns, STATUS))) == status
  }

  /** `syncTakeawayStatusInDb`: reviews are not touched. */
  function Synced(db: Tables, takeawayId: string, taskStatus: string, now: string): Tables {
    var id, status := Trim(takeawayId), MappedStatus(taskStatus);
    if id == "" || status.None? || !HasId(db.takeaways, id) || AlreadySynced(db.takeaways, id, status.value) then db
    else
      var meta := if db.meta.Some? then db.meta.value else NO_META;
      db.(takeaways := WithStatuses(db.takeaways, id, status.value), meta := Some(meta.(lastUpdated := now)))
  }
}
