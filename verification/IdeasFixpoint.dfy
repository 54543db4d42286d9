/** Writing the ideas store, and what a write-back of a read leaves unchanged. */
module IdeasFixpoint {
  import opened Text
  import opened VideoTimestamps
  import opened IdeasRecords
  import opened IdeasStore
  import opened IdeasIds

  class IdeasDatabase {
    var reviews: seq<ReviewRow>
    var takeaways: seq<TakeawayRow>
    var meta: Option<Meta>
    const env: Env

    ghost function View(): Tables
      reads this
    {
      Tables(reviews, takeaways, meta)
    }

    constructor (db: Tables, env: Env)
      ensures View() == db && this.env == env
    {
      reviews, takeaways, meta, this.env := db.reviews, db.takeaways, db.meta, env;
    }

    /** `syncTakeawayStatusInDb`. */
    method SyncTakeawayStatus(takeawayId: string, taskStatus: string, now: string) returns (updated: bool)
      modifies this
      ensures View() == Synced(old(View()), takeawayId, taskStatus, now)
      ensures !updated ==> View() == old(View())
    {
      var id, status := Trim(takeawayId), MappedStatus(taskStatus);
      if id == "" || status.None? { return false; }
      if !HasId(takeaways, id) || AlreadySynced(takeaways, id, status.value) { return false; }
      takeaways := WithStatuses(takeaways, id, status.value);
      var next := if meta.Some? then meta.value else NO_META;
      meta := Some(next.(lastUpdated := now));
      updated := true;
    }

    /** `persistStoreToDb`: delete everything, insert in order. A repeated key aborts the transaction. */
    method Persist(store: Store, now: string) returns (ok: bool)
      modifies this
      ensures ok <==> Insertable(store, env)
      ensures View() == if ok then Written(store, now, env) else old(View())
    {
      var reviewRows, takeawayRows := InsertReviews(store.reviews, now);
      InsertableAnytime(store, now, env);
      ok := RowsDistinct(reviewRows, takeawayRows);
      if !ok { return; }
      var next := CountIds(store.meta, reviewRows, takeawayRows, now);
      reviews, takeaways, meta := reviewRows, takeawayRows, Some(next);
    }

    method CountIds(was: Meta, reviewRows: seq<ReviewRow>, takeawayRows: seq<TakeawayRow>, now: string)
      returns (next: Meta)
      ensures next == MetaAfter(was, reviewRows, takeawayRows, now)
    {
      var nextReview := ComputeNextSequence(ReviewIds(reviewRows), REVIEW_PREFIX);
      var nextTakeaway := ComputeNextSequence(TakeawayIds(takeawayRows), TAKEAWAY_PREFIX);
      next := was.(
        lastUpdated := now, total := |reviewRows|,
        nextReview := Max(was.nextReview, nextReview), nextTakeaway := Max(was.nextTakeaway, nextTakeaway));
    }

    method InsertReviews(list: seq<JsValue>, now: string)
      returns (reviewRows: seq<ReviewRow>, takeawayRows: seq<TakeawayRow>)
      ensures reviewRows == ReviewRows(list, now, env) && takeawayRows == TakeawayRows(list, env)
    {
      reviewRows, takeawayRows := [], [];
      for i := 0 to |list|
        invariant ReviewRows(list, now, env) == reviewRows + ReviewRows(list[i..], now, env)
        invariant TakeawayRows(list, env) == takeawayRows + TakeawayRows(list[i..], env)
      {
        RowsStep(list, i, now, reviewRows, takeawayRows, env);
        var id := IdOf(list[i], env);
        if id != "" {
          var extra := ToExtraFields(list[i].fields, env.reviews);
          var columns := SavedColumns(env.reviews.columns, list[i].fields, env.coercion);
          var rows := InsertTakeaways(TakeawaysIn(list[i]), id);
          reviewRows := reviewRows + [ReviewRow(id, columns, extra, now)];
          takeawayRows := takeawayRows + rows;
        } else {
          assert reviewRows + [] == reviewRows && takeawayRows + [] == takeawayRows;
        }
      }
    }

    method InsertTakeaways(list: seq<JsValue>, reviewId: string) returns (rows: seq<TakeawayRow>)
      ensures rows == ToTakeawayRows(list, reviewId, 0, env)
    {
      rows := [];
      var sortOrder := 0;
      for j := 0 to |list|
        invariant ToTakeawayRows(list, reviewId, 0, env) == rows + ToTakeawayRows(list[j..], reviewId, sortOrder, env)
      {
        assert list[j..][0] == list[j] && list[j..][1..] == list[j + 1..];
        var id := IdOf(list[j], env);
        if id == "" { continue; }
        var extra := ToExtraFields(list[j].fields, env.takeaways);
        var columns := WithVideo(SavedColumns(env.takeaways.columns, list[j].fields, env.coercion), env);
        var row := TakeawayRow(id, reviewId, sortOrder, columns, extra);
        AppendAssoc(rows, [row], ToTakeawayRows(list[j + 1..], reviewId, sortOrder + 1, env));
        rows := rows + [row];
        sortOrder := sortOrder + 1;
      }
    }
  }

  lemma RowsStep(
    list: seq<JsValue>, i: nat, now: string, reviews: seq<ReviewRow>, takeaways: seq<TakeawayRow>, env: Env
  )
    requires i < |list|
    ensures reviews + ReviewRows(list[i..], now, env)
            == (reviews + RowsOfReview(list[i], now, env)) + ReviewRows(list[i + 1..], now, env)
    ensures takeaways + TakeawayRows(list[i..], env)
            == (takeaways + TakeawaysOfReview(list[i], env)) + TakeawayRows(list[i + 1..], env)
  {
    assert list[i..][0] == list[i] && list[i..][1..] == list[i + 1..];
    AppendAssoc(reviews, RowsOfReview(list[i], now, env), ReviewRows(list[i + 1..], now, env));
    AppendAssoc(takeaways, TakeawaysOfReview(list[i], env), TakeawayRows(list[i + 1..], env));
  }

  // ---- sorted rows stay

  lemma {:induction false} SortSortedReviews(rows: seq<ReviewRow>, clock: Clock)
    requires ReviewsSorted(rows, clock)
    ensures SortReviews(rows, clock) == rows
  {
    if rows != [] {
      SortSortedReviews(rows[1..], clock);
    }
  }

  /** Rows numbered from `order` on. */
  predicate Numbered(rows: seq<TakeawayRow>, order: nat) {
    forall i :: 0 <= i < |rows| ==> rows[i].sortOrder == order + i
  }

  lemma {:induction false} SortNumbered(rows: seq<TakeawayRow>, order: nat)
    requires Numbered(rows, order)
    ensures SortTakeaways(rows) == rows
  {
    if rows != [] {
      assert forall i :: 0 <= i < |rows[1..]| ==> rows[1..][i] == rows[i + 1];
      SortNumbered(rows[1..], order + 1);
    }
  }

  // ---- the order of a read

  lemma ReviewIdRead(row: ReviewRow, takeaways: seq<TakeawayRow>, env: Env)
    ensures At(ToReview(row, takeaways, env).fields, ID) == Str(row.id)
  {}

  lemma {:induction false} TextTransitive(a: string, b: string, c: string)
    requires TextLe(a, b) && TextLe(b, c)
    ensures TextLe(a, c)
  {
    if a != "" && a[0] == b[0] && b[0] == c[0] { TextTransitive(a[1..], b[1..], c[1..]); }
  }

  lemma ReviewTransitive(a: ReviewRow, b: ReviewRow, c: ReviewRow, clock: Clock)
    requires ReviewLe(a, b, clock) && ReviewLe(b, c, clock)
    ensures ReviewLe(a, c, clock)
  {
    if TextLe(a.id, b.id) && TextLe(b.id, c.id) { TextTransitive(a.id, b.id, c.id); }
  }

  lemma {:induction false} SortedAt(rows: seq<ReviewRow>, clock: Clock, i: nat, j: nat)
    requires ReviewsSorted(rows, clock) && i < j < |rows|
    ensures ReviewLe(rows[i], rows[j], clock)
    decreases j
  {
    if i > 0 {
      SortedAt(rows[1..], clock, i - 1, j - 1);
    } else if j > 1 {
      SortedAt(rows[1..], clock, 0, j - 1);
      ReviewTransitive(rows[0], rows[1], rows[j], clock);
    }
  }

  /** The latest review date first; of one date, the latest update; of one update too, by id. */
  predicate NotLater(a: ReviewRow, b: ReviewRow, clock: Clock) {
    var (dated, later) := (clock(ReviewedAt(a)), clock(ReviewedAt(b)));
    var (stamp, other) := (clock(Some(a.updatedAt)), clock(Some(b.updatedAt)));
    dated >= later && (dated == later ==> stamp >= other && (stamp == other ==> TextLe(a.id, b.id)))
  }

  lemma SortedNewestFirst(db: Tables, clock: Clock)
    ensures var rows := SortReviews(db.reviews, clock);
            multiset(rows) == multiset(db.reviews)
            && forall i, j :: 0 <= i < j < |rows| ==> NotLater(rows[i], rows[j], clock)
  {
    var rows := SortReviews(db.reviews, clock);
    SortReviewsSorts(db.reviews, clock);
    forall i, j | 0 <= i < j < |rows| ensures NotLater(rows[i], rows[j], clock) { SortedAt(rows, clock, i, j); }
  }

  /** The review that a read shows at a place. */
  predicate Shows(v: JsValue, row: ReviewRow) { v.Record? && At(v.fields, "id") == Str(row.id) }

  /** A read shows every stored review once, the newest first. */
  lemma NewestFirst(db: Tables, env: Env, read: string) returns (rows: seq<ReviewRow>)
    ensures multiset(rows) == multiset(db.reviews) && |Read(db, env, read).reviews| == |rows|
    ensures forall i :: 0 <= i < |rows| ==> Shows(Read(db, env, read).reviews[i], rows[i])
    ensures forall i, j :: 0 <= i < j < |rows| ==> NotLater(rows[i], rows[j], env.clock)
  {
    rows := SortReviews(db.reviews, env.clock);
    SortedNewestFirst(db, env.clock);
    ShownInPlace(rows, db.takeaways, env);
  }

  lemma ShownInPlace(rows: seq<ReviewRow>, takeaways: seq<TakeawayRow>, env: Env)
    ensures forall i :: 0 <= i < |rows| ==> Shows(ToReviews(rows, takeaways, env)[i], rows[i])
  {
    forall i | 0 <= i < |rows| ensures Shows(ToReviews(rows, takeaways, env)[i], rows[i]) {
      ReviewIdRead(rows[i], takeaways, env);
    }
  }

  predicate InOrder(rows: seq<TakeawayRow>) {
    forall i, j :: 0 <= i < j < |rows| ==> rows[i].sortOrder <= rows[j].sortOrder
  }

  lemma {:induction false} InsertInOrder(r: TakeawayRow, rows: seq<TakeawayRow>)
    requires InOrder(rows)
    ensures InOrder(InsertTakeaway(r, rows))
  {
    InsertTakeawayKeeps(r, rows);
    if rows != [] && r.sortOrder > rows[0].sortOrder {
      var rest, out := rows[1..], InsertTakeaway(r, rows);
      InsertInOrder(r, rest);
      InsertTakeawayKeeps(r, rest);
      forall x | x in out[1..] ensures rows[0].sortOrder <= x.sortOrder {
        assert out[1..] == InsertTakeaway(r, rest);
        assert x in multiset(out[1..]);
        assert x in multiset(rest) + multiset{r};
      }
    }
  }

  /** And the takeaways of each review by their position, each once. */
  lemma {:induction false} TakeawaysInOrder(rows: seq<TakeawayRow>)
    ensures InOrder(SortTakeaways(rows)) && multiset(SortTakeaways(rows)) == multiset(rows)
  {
    SortTakeawaysKeeps(rows);
    if rows != [] {
      TakeawaysInOrder(rows[1..]);
      InsertInOrder(rows[0], SortTakeaways(rows[1..]));
    }
  }

  // ---- the status sync

  lemma UnderscoredStays(s: string)
    requires '-' !in s
    ensures Underscored(s) == s
  {
    if s != "" { UnderscoredStays(s[1..]); }
  }

  lemma StatusRead(status: string)
    requires NoSpace(status) && '-' !in status && forall c :: c in status ==> !('A' <= c <= 'Z')
    ensures Underscored(Lower(Trim(status))) == status
  {
    NoSpaceTrim(status);
    LowerStays(status);
    UnderscoredStays(status);
  }

  /** What a task status stands for: of the others, no takeaway status. */
  lemma StatusesMapped(status: string)
    requires NoSpace(status) && '-' !in status && forall c :: c in status ==> !('A' <= c <= 'Z')
    ensures MappedStatus(status) ==
              if status == "in_progress" then Some("building")
              else if status == "done" then Some("shipped")
              else if status == "cancelled" || status == "canceled" then Some("rejected")
              else None
  {
    StatusRead(status);
  }

  /** Every takeaway after a sync: the one named gets the status that the task's stands for, all others stay. */
  lemma SyncedTakeaway(db: Tables, id: string, taskStatus: string, now: string, i: nat)
    requires i < |db.takeaways| && MappedStatus(taskStatus).Some?
    ensures var was, after := db.takeaways[i], Synced(db, id, taskStatus, now);
            && after.reviews == db.reviews && |after.takeaways| == |db.takeaways|
            && (if was.id == Trim(id) != "" && !AlreadySynced(db.takeaways, Trim(id), MappedStatus(taskStatus).value)
                then after.takeaways[i] == was.(columns := was.columns["status" := Str(MappedStatus(taskStatus).value)])
                     && after.meta.Some? && after.meta.value.lastUpdated == now
                else after.takeaways[i] == was)
  {
    assert db.takeaways[i] in db.takeaways;
  }

  // ---- a settled database

  predicate CleanTakeaway(t: TakeawayRow, env: Env) {
    GoodId(t.id) && FitsAll(env.takeaways.columns, t.columns) && t.extra.Keys !! env.takeaways.Dropped()
  }

  predicate CleanReview(r: ReviewRow, env: Env) {
    GoodId(r.id) && FitsAll(env.reviews.columns, r.columns) && r.extra.Keys !! env.reviews.Dropped()
  }

  /** Trimmed unique ids, columns of their kinds, extra keys that a write keeps, no takeaway without its review. */
  ghost predicate Clean(db: Tables, env: Env) {
    && Distinct(ReviewIds(db.reviews)) && Distinct(TakeawayIds(db.takeaways))
    && (forall r :: r in db.reviews ==> CleanReview(r, env))
    && (forall t :: t in db.takeaways ==> CleanTakeaway(t, env) && t.reviewId in ReviewIds(db.reviews))
  }

  predicate Stamped(rows: seq<ReviewRow>, stamp: string) {
    forall r :: r in rows ==> r.updatedAt == stamp
  }

  /** What a write leaves behind: clean tables with one update stamp. */
  ghost predicate Settled(db: Tables, env: Env, stamp: string) {
    Clean(db, env) && Stamped(db.reviews, stamp)
  }

  /** Storing its URL and label again changes neither. */
  predicate StillTakeaway(t: TakeawayRow, env: Env) {
    WithVideo(t.columns, env) == t.columns
  }

  ghost predicate Still(takeaways: seq<TakeawayRow>, env: Env) {
    forall t :: t in takeaways ==> StillTakeaway(t, env)
  }

  predicate StillOf(takeaways: seq<TakeawayRow>, reviewId: string, env: Env) {
    forall t :: t in takeaways && t.reviewId == reviewId ==> StillTakeaway(t, env)
  }

  lemma KeysApart()
    ensures VIDEO_URL != VIDEO_TIMESTAMP && STATUS != VIDEO_URL && STATUS != VIDEO_TIMESTAMP
  {
    assert VIDEO_URL[6] != VIDEO_TIMESTAMP[6];
  }

  lemma VideoSet(columns: Fields, env: Env)
    requires Consistent(env) && FitsAll(env.takeaways.columns, columns)
    ensures var stored := StoredText(env.web, TextAt(columns, VIDEO_URL), TextAt(columns, VIDEO_TIMESTAMP));
            var once := WithVideo(columns, env);
            && FitsAll(env.takeaways.columns, once)
            && TextAt(once, VIDEO_URL) == stored.0 && TextAt(once, VIDEO_TIMESTAMP) == stored.1
  {
    KeysApart();
    assert WithVideo(columns, env).Keys == columns.Keys;
  }

  // ---- rows written back

  function Restamp(rows: seq<ReviewRow>, now: string): (r: seq<ReviewRow>)
    ensures |r| == |rows| && forall i :: 0 <= i < |r| ==> r[i] == rows[i].(updatedAt := now)
  {
    if rows == [] then [] else [rows[0].(updatedAt := now)] + Restamp(rows[1..], now)
  }

  /** One review, written back as it was read. */
  lemma ReviewWrittenBack(row: ReviewRow, takeaways: seq<TakeawayRow>, now: string, env: Env)
    requires Consistent(env) && CleanReview(row, env)
    ensures var v := ToReview(row, takeaways, env);
            && RowsOfReview(v, now, env) == [row.(updatedAt := now)]
            && IdOf(v, env) == row.id && TakeawaysIn(v) == TakeawaysRead(row, takeaways, env)
  {
    var own: Fields := map[ID := Str(row.id), TAKEAWAYS := List(TakeawaysRead(row, takeaways, env))];
    assert own.Keys == env.reviews.own;
    RowKept(env.reviews, row.extra, row.columns, own, env.coercion);
    var v := ToReview(row, takeaways, env);
    assert At(v.fields, ID) == Str(row.id) && At(v.fields, TAKEAWAYS) == own[TAKEAWAYS];
  }

  /** One takeaway, written back as it was read: URL and label are stored again. */
  lemma TakeawayWrittenBack(t: TakeawayRow, reviewId: string, order: nat, env: Env)
    requires Consistent(env) && CleanTakeaway(t, env)
    ensures IdOf(ToTakeaway(t, env), env) == t.id
    ensures ToTakeawayRow(ToTakeaway(t, env), reviewId, order, env) == Renumbered(t, reviewId, order, env)
  {
    var own: Fields := map[ID := Str(t.id)];
    assert own.Keys == env.takeaways.own;
    RowKept(env.takeaways, t.extra, t.columns, own, env.coercion);
    assert At(ToTakeaway(t, env).fields, ID) == Str(t.id);
  }

  /** The takeaway with its URL and label stored again. */
  function Relinked(t: TakeawayRow, env: Env): TakeawayRow {
    t.(columns := WithVideo(t.columns, env))
  }

  function Renumbered(t: TakeawayRow, reviewId: string, order: nat, env: Env): TakeawayRow {
    Relinked(t, env).(reviewId := reviewId, sortOrder := order)
  }

  /** Rows that read the same have the same columns. */
  lemma SameColumns(t: TakeawayRow, reviewId: string, order: nat, env: Env)
    requires Consistent(env) && CleanTakeaway(t, env)
    ensures CleanTakeaway(Renumbered(t, reviewId, order, env), env)
    ensures ToTakeaway(Renumbered(t, reviewId, order, env), env) == ToTakeaway(t, env) <==> StillTakeaway(t, env)
  {
    var after := Renumbered(t, reviewId, order, env);
    var own: Fields := map[ID := Str(t.id)];
    VideoSet(t.columns, env);
    assert own.Keys == env.takeaways.own;
    RowKept(env.takeaways, t.extra, t.columns, own, env.coercion);
    RowKept(env.takeaways, t.extra, after.columns, own, env.coercion);
  }

  lemma {:induction false} ReviewsWrittenBack(rows: seq<ReviewRow>, takeaways: seq<TakeawayRow>, now: string, env: Env)
    requires Consistent(env) && forall r :: r in rows ==> CleanReview(r, env)
    ensures ReviewRows(ToReviews(rows, takeaways, env), now, env) == Restamp(rows, now)
  {
    if rows != [] {
      assert rows[0] in rows && forall r :: r in rows[1..] ==> r in rows;
      ReviewWrittenBack(rows[0], takeaways, now, env);
      ReviewsWrittenBack(rows[1..], takeaways, now, env);
      assert ToReviews(rows, takeaways, env)[1..] == ToReviews(rows[1..], takeaways, env);
    }
  }

  lemma RestampedIds(rows: seq<ReviewRow>, now: string)
    ensures ReviewIds(Restamp(rows, now)) == ReviewIds(rows)
  {}

  lemma {:induction false} RestampedSorted(rows: seq<ReviewRow>, clock: Clock, stamp: string, now: string)
    requires ReviewsSorted(rows, clock) && Stamped(rows, stamp)
    ensures ReviewsSorted(Restamp(rows, now), clock)
  {
    if |rows| >= 2 {
      assert rows[0] in rows && rows[1] in rows && forall r :: r in rows[1..] ==> r in rows;
      RestampedSorted(rows[1..], clock, stamp, now);
    }
  }

  function Renumber(list: seq<TakeawayRow>, reviewId: string, order: nat, env: Env): seq<TakeawayRow>
    decreases |list|
  {
    if list == [] then []
    else [Renumbered(list[0], reviewId, order, env)] + Renumber(list[1..], reviewId, order + 1, env)
  }

  /** The takeaways of one review, written back in the order they were read. */
  lemma {:induction false} TakeawaysWrittenBack(list: seq<TakeawayRow>, reviewId: string, order: nat, env: Env)
    requires Consistent(env) && forall t :: t in list ==> CleanTakeaway(t, env)
    ensures ToTakeawayRows(ToTakeaways(list, env), reviewId, order, env) == Renumber(list, reviewId, order, env)
    decreases |list|
  {
    if list != [] {
      assert list[0] in list && forall t :: t in list[1..] ==> t in list;
      TakeawayWrittenBack(list[0], reviewId, order, env);
      FirstWritten(list, reviewId, order, env);
      TakeawaysWrittenBack(list[1..], reviewId, order + 1, env);
    }
  }

  lemma FirstWritten(list: seq<TakeawayRow>, reviewId: string, order: nat, env: Env)
    requires list != [] && GoodId(list[0].id)
    ensures ToTakeawayRows(ToTakeaways(list, env), reviewId, order, env)
            == [ToTakeawayRow(ToTakeaway(list[0], env), reviewId, order, env)]
               + ToTakeawayRows(ToTakeaways(list[1..], env), reviewId, order + 1, env)
  {
    TakeawayFound(list[0], env);
    assert ToTakeaways(list, env)[1..] == ToTakeaways(list[1..], env);
  }

  lemma {:induction false} RenumberFacts(list: seq<TakeawayRow>, reviewId: string, order: nat, env: Env)
    ensures var rows := Renumber(list, reviewId, order, env);
            && |rows| == |list| && Numbered(rows, order) && TakeawayIds(rows) == TakeawayIds(list)
            && (forall t :: t in rows ==> t.reviewId == reviewId)
    decreases |list|
  {
    if list != [] { RenumberFacts(list[1..], reviewId, order + 1, env); }
  }

  lemma {:induction false} RenumberStill(list: seq<TakeawayRow>, reviewId: string, order: nat, env: Env)
    requires Consistent(env) && forall t :: t in list ==> CleanTakeaway(t, env)
    ensures ToTakeaways(Renumber(list, reviewId, order, env), env) == ToTakeaways(list, env) <==> Still(list, env)
    decreases |list|
  {
    if list != [] {
      var rows, rest := Renumber(list, reviewId, order, env), Renumber(list[1..], reviewId, order + 1, env);
      assert list[0] in list && forall t :: t in list[1..] ==> t in list;
      assert rows[1..] == rest;
      RenumberStill(list[1..], reviewId, order + 1, env);
      SameColumns(list[0], reviewId, order, env);
      FirstStill(list, env);
      FirstTakeaway(rows, list, env);
    }
  }

  lemma FirstStill(list: seq<TakeawayRow>, env: Env)
    requires list != []
    ensures Still(list, env) <==> StillTakeaway(list[0], env) && Still(list[1..], env)
  {
    forall t ensures t in list <==> t == list[0] || t in list[1..] {}
  }

  lemma FirstTakeaway(a: seq<TakeawayRow>, b: seq<TakeawayRow>, env: Env)
    requires a != [] && b != []
    ensures ToTakeaways(a, env) == ToTakeaways(b, env)
            <==> ToTakeaway(a[0], env) == ToTakeaway(b[0], env) && ToTakeaways(a[1..], env) == ToTakeaways(b[1..], env)
  {
    var x, y := ToTakeaways(a, env), ToTakeaways(b, env);
    assert x[0] == ToTakeaway(a[0], env) && x[1..] == ToTakeaways(a[1..], env);
    assert y[0] == ToTakeaway(b[0], env) && y[1..] == ToTakeaways(b[1..], env);
  }

  lemma {:induction false} RowsOfAppend(a: seq<TakeawayRow>, b: seq<TakeawayRow>, id: string)
    ensures RowsOf(a + b, id) == RowsOf(a, id) + RowsOf(b, id)
  {
    if a == [] {
      assert a + b == b && [] + RowsOf(b, id) == RowsOf(b, id);
    } else {
      assert (a + b)[0] == a[0] && (a + b)[1..] == a[1..] + b;
      RowsOfAppend(a[1..], b, id);
      AppendAssoc(if a[0].reviewId == id then [a[0]] else [], RowsOf(a[1..], id), RowsOf(b, id));
    }
  }

  lemma {:induction false} RowsOfBlock(rows: seq<TakeawayRow>, owner: string, id: string)
    requires forall t :: t in rows ==> t.reviewId == owner
    ensures RowsOf(rows, id) == if owner == id then rows else []
  {
    if rows != [] {
      assert rows[0] in rows && forall t :: t in rows[1..] ==> t in rows;
      RowsOfBlock(rows[1..], owner, id);
    }
  }

  /** The takeaways of a review are read back in their order, and unchanged exactly when they are still. */
  lemma BlockFacts(row: ReviewRow, takeaways: seq<TakeawayRow>, env: Env)
    requires Consistent(env) && forall t :: t in takeaways ==> CleanTakeaway(t, env)
    ensures var b := Block(row, takeaways, env);
            && ((ToTakeaways(SortTakeaways(b), env) == TakeawaysRead(row, takeaways, env))
                == StillOf(takeaways, row.id, env))
            && (forall t :: t in b ==> t.reviewId == row.id)
            && (forall id :: id in TakeawayIds(b) <==> exists t :: t in takeaways && t.reviewId == row.id && t.id == id)
  {
    var list := SortTakeaways(RowsOf(takeaways, row.id));
    SortedMembers(takeaways, row.id);
    TakeawaysWrittenBack(list, row.id, 0, env);
    RenumberFacts(list, row.id, 0, env);
    RenumberStill(list, row.id, 0, env);
    SortNumbered(Block(row, takeaways, env), 0);
    IdsOf(list);
  }

  lemma IdsOf(rows: seq<TakeawayRow>)
    ensures forall id :: id in TakeawayIds(rows) <==> exists t :: t in rows && t.id == id
  {
    forall id ensures id in TakeawayIds(rows) <==> exists t :: t in rows && t.id == id {
      if id in TakeawayIds(rows) {
        var i :| 0 <= i < |rows| && TakeawayIds(rows)[i] == id;
        assert rows[i] in rows;
      }
      if t :| t in rows && t.id == id {
        var i :| 0 <= i < |rows| && rows[i] == t;
        assert TakeawayIds(rows)[i] == id;
      }
    }
  }

  function BlocksOf(rows: seq<ReviewRow>, takeaways: seq<TakeawayRow>, env: Env): (blocks: seq<seq<TakeawayRow>>)
    ensures |blocks| == |rows| && forall i :: 0 <= i < |rows| ==> blocks[i] == Block(rows[i], takeaways, env)
  {
    if rows == [] then [] else [Block(rows[0], takeaways, env)] + BlocksOf(rows[1..], takeaways, env)
  }

  function Concat(blocks: seq<seq<TakeawayRow>>): seq<TakeawayRow> {
    if blocks == [] then [] else blocks[0] + Concat(blocks[1..])
  }

  lemma {:induction false} WrittenInBlocks(rows: seq<ReviewRow>, takeaways: seq<TakeawayRow>, env: Env)
    requires forall r :: r in rows ==> GoodId(r.id)
    ensures TakeawayRows(ToReviews(rows, takeaways, env), env) == Concat(BlocksOf(rows, takeaways, env))
  {
    if rows != [] {
      assert rows[0] in rows && forall r :: r in rows[1..] ==> r in rows;
      BlocksSplit(rows, takeaways, env);
      WrittenInBlocks(rows[1..], takeaways, env);
    }
  }

  predicate OwnedBy(block: seq<TakeawayRow>, owner: string) {
    forall t :: t in block ==> t.reviewId == owner
  }

  predicate Owns(ids: seq<string>, blocks: seq<seq<TakeawayRow>>) {
    |ids| == |blocks| && forall i :: 0 <= i < |ids| ==> OwnedBy(blocks[i], ids[i])
  }

  lemma {:induction false} ConcatMisses(blocks: seq<seq<TakeawayRow>>, ids: seq<string>, id: string)
    requires Owns(ids, blocks) && id !in ids
    ensures RowsOf(Concat(blocks), id) == []
    decreases |blocks|
  {
    if blocks != [] {
      assert ids[0] in ids && forall x :: x in ids[1..] ==> x in ids;
      ConcatMisses(blocks[1..], ids[1..], id);
      RowsOfAppend(blocks[0], Concat(blocks[1..]), id);
      RowsOfBlock(blocks[0], ids[0], id);
    }
  }

  lemma {:induction false} ConcatFinds(blocks: seq<seq<TakeawayRow>>, ids: seq<string>, i: nat)
    requires Owns(ids, blocks) && i < |ids| && Distinct(ids)
    ensures RowsOf(Concat(blocks), ids[i]) == blocks[i]
    decreases |blocks|
  {
    var rest := Concat(blocks[1..]);
    assert ids == [ids[0]] + ids[1..];
    DistinctCons(ids[0], ids[1..]);
    RowsOfAppend(blocks[0], rest, ids[i]);
    RowsOfBlock(blocks[0], ids[0], ids[i]);
    if i == 0 {
      ConcatMisses(blocks[1..], ids[1..], ids[0]);
      assert blocks[0] + [] == blocks[0];
    } else {
      assert ids[i] == ids[1..][i - 1] && ids[i] in ids[1..];
      ConcatFinds(blocks[1..], ids[1..], i - 1);
      assert [] + RowsOf(rest, ids[i]) == RowsOf(rest, ids[i]);
    }
  }

  lemma BlocksFind(rows: seq<ReviewRow>, takeaways: seq<TakeawayRow>, env: Env, i: nat)
    requires i < |rows| && Distinct(ReviewIds(rows))
    requires Consistent(env) && forall r :: r in rows ==> CleanReview(r, env)
    requires forall t :: t in takeaways ==> CleanTakeaway(t, env)
    ensures RowsOf(TakeawayRows(ToReviews(rows, takeaways, env), env), rows[i].id) == Block(rows[i], takeaways, env)
  {
    var blocks := BlocksOf(rows, takeaways, env);
    WrittenInBlocks(rows, takeaways, env);
    forall k: nat | k < |rows| ensures OwnedBy(blocks[k], rows[k].id) { BlockFacts(rows[k], takeaways, env); }
    ConcatFinds(blocks, ReviewIds(rows), i);
  }

  lemma {:induction false} BlocksIds(rows: seq<ReviewRow>, takeaways: seq<TakeawayRow>, env: Env, id: string)
    requires Consistent(env) && forall r :: r in rows ==> CleanReview(r, env)
    requires forall t :: t in takeaways ==> CleanTakeaway(t, env)
    ensures id in TakeawayIds(TakeawayRows(ToReviews(rows, takeaways, env), env))
            <==> exists t :: t in takeaways && t.id == id && t.reviewId in ReviewIds(rows)
  {
    if rows != [] {
      assert rows[0] in rows && forall r :: r in rows[1..] ==> r in rows;
      BlocksSplit(rows, takeaways, env);
      BlockFacts(rows[0], takeaways, env);
      BlocksIds(rows[1..], takeaways, env, id);
      IdsAppend(Block(rows[0], takeaways, env), TakeawayRows(ToReviews(rows[1..], takeaways, env), env));
    }
  }

  // ---- the fixpoint

  lemma SortKeepsClean(db: Tables, env: Env)
    requires Clean(db, env)
    ensures Keyed(db)
    ensures forall r :: r in SortReviews(db.reviews, env.clock) ==> CleanReview(r, env)
  {
    SortKeepsKeyed(db, env);
  }

  /** The reviews that a write-back of a read leaves to be read, in the order of the new stamps. */
  lemma {:induction false} WrittenBackReviews(db: Tables, env: Env, read: string, now: string)
    requires Consistent(env) && Clean(db, env)
    ensures var rows := SortReviews(db.reviews, env.clock);
            var back := Written(Read(db, env, read), now, env);
            && back.reviews == Restamp(rows, now)
            && back.takeaways == TakeawayRows(ToReviews(rows, db.takeaways, env), env)
            && ((ToReviews(Restamp(rows, now), back.takeaways, env) == Read(db, env, read).reviews)
                == Still(db.takeaways, env))
  {
    var rows := SortReviews(db.reviews, env.clock);
    SortKeepsClean(db, env);
    SortKeepsKeyed(db, env);
    ReviewsWrittenBack(rows, db.takeaways, now, env);
    ListReadBack(rows, db.takeaways, env, now);
  }

  lemma ReviewRead(row: ReviewRow, was: ReviewRow, a: seq<TakeawayRow>, b: seq<TakeawayRow>, env: Env)
    requires row == was.(updatedAt := row.updatedAt)
    ensures ToReview(row, a, env) == ToReview(was, b, env) <==> TakeawaysRead(row, a, env) == TakeawaysRead(was, b, env)
  {
    ReviewFound(row, a, env);
    ReviewFound(was, b, env);
  }

  lemma RowReadBack(rows: seq<ReviewRow>, takeaways: seq<TakeawayRow>, env: Env, now: string, i: nat)
    requires i < |rows| && Consistent(env) && Distinct(ReviewIds(rows))
    requires forall r :: r in rows ==> CleanReview(r, env)
    requires forall t :: t in takeaways ==> CleanTakeaway(t, env)
    ensures ToReview(Restamp(rows, now)[i], TakeawayRows(ToReviews(rows, takeaways, env), env), env)
            == ToReview(rows[i], takeaways, env)
            <==> StillOf(takeaways, rows[i].id, env)
  {
    BlocksFind(rows, takeaways, env, i);
    BlockFacts(rows[i], takeaways, env);
    ReviewRead(Restamp(rows, now)[i], rows[i], TakeawayRows(ToReviews(rows, takeaways, env), env), takeaways, env);
  }

  lemma ListReadBack(rows: seq<ReviewRow>, takeaways: seq<TakeawayRow>, env: Env, now: string)
    requires Consistent(env) && Distinct(ReviewIds(rows))
    requires forall r :: r in rows ==> CleanReview(r, env)
    requires forall t :: t in takeaways ==> CleanTakeaway(t, env) && t.reviewId in ReviewIds(rows)
    ensures ToReviews(Restamp(rows, now), TakeawayRows(ToReviews(rows, takeaways, env), env), env)
            == ToReviews(rows, takeaways, env)
            <==> Still(takeaways, env)
  {
    var written := TakeawayRows(ToReviews(rows, takeaways, env), env);
    var after, before := ToReviews(Restamp(rows, now), written, env), ToReviews(rows, takeaways, env);
    forall i: nat | i < |rows|
      ensures after[i] == before[i] <==> StillOf(takeaways, rows[i].id, env)
    {
      RowReadBack(rows, takeaways, env, now, i);
    }
    StillByOwner(rows, takeaways, env);
    assert after == before <==> forall i: nat :: i < |rows| ==> after[i] == before[i];
  }

  lemma StillByOwner(rows: seq<ReviewRow>, takeaways: seq<TakeawayRow>, env: Env)
    requires forall t :: t in takeaways ==> t.reviewId in ReviewIds(rows)
    ensures Still(takeaways, env) <==> forall i: nat :: i < |rows| ==> StillOf(takeaways, rows[i].id, env)
  {
    if forall i: nat :: i < |rows| ==> StillOf(takeaways, rows[i].id, env) {
      forall t | t in takeaways ensures StillTakeaway(t, env) {
        var i :| 0 <= i < |rows| && ReviewIds(rows)[i] == t.reviewId;
        assert StillOf(takeaways, rows[i].id, env);
      }
    }
  }

  /** If and only if: on settled tables, a write-back of a read leaves what is read of the reviews unchanged exactly
      when storing every takeaway's URL and label again changes neither. */
  lemma {:induction false} ReviewsReadBack(db: Tables, env: Env, stamp: string, read: string, now: string)
    requires Consistent(env) && Settled(db, env, stamp)
    ensures Read(Written(Read(db, env, read), now, env), env, now).reviews == Read(db, env, read).reviews
            <==> Still(db.takeaways, env)
  {
    var rows := SortReviews(db.reviews, env.clock);
    SortKeepsClean(db, env);
    SortKeepsKeyed(db, env);
    WrittenBackReviews(db, env, read, now);
    RestampedSorted(rows, env.clock, stamp, now);
    SortSortedReviews(Restamp(rows, now), env.clock);
  }

  lemma {:induction false} CountersReadBack(db: Tables, env: Env, read: string, now: string)
    requires Consistent(env) && Clean(db, env)
    ensures var store := Read(db, env, read);
            Read(Written(store, now, env), env, now).meta == store.meta.(lastUpdated := now)
  {
    var rows := SortReviews(db.reviews, env.clock);
    var store := Read(db, env, read);
    var back := Written(store, now, env);
    SortKeepsClean(db, env);
    SortKeepsKeyed(db, env);
    WrittenBackReviews(db, env, read, now);
    RestampedIds(rows, now);
    forall id ensures id in TakeawayIds(back.takeaways) <==> id in TakeawayIds(db.takeaways) {
      BlocksIds(rows, db.takeaways, env, id);
      IdsOf(db.takeaways);
    }
    NextSequenceIsNext(TakeawayIds(back.takeaways), TAKEAWAY_PREFIX);
    NextSequenceLeast(TakeawayIds(db.takeaways), TakeawayIds(back.takeaways), TAKEAWAY_PREFIX,
                      NextSequence(TakeawayIds(back.takeaways), TAKEAWAY_PREFIX));
    CountersReadAsWritten(store, env, now, now);
    LengthsRead(back, env);
  }

  lemma LengthsRead(db: Tables, env: Env)
    ensures |SortReviews(db.reviews, env.clock)| == |db.reviews|
  {
    SortReviewsSorts(db.reviews, env.clock);
    assert |multiset(SortReviews(db.reviews, env.clock))| == |multiset(db.reviews)|;
  }

  /** If and only if: on settled tables, writing back what a read returned changes nothing that a read returns but
      `last_updated` exactly when storing every takeaway's URL and label again changes neither. Columns, extra keys,
      order and counters always survive. */
  lemma {:induction false} WriteBackIsFixpoint(db: Tables, env: Env, stamp: string, read: string, now: string)
    requires Consistent(env) && Settled(db, env, stamp)
    ensures var store := Read(db, env, read);
            Read(Written(store, now, env), env, now) == store.(meta := store.meta.(lastUpdated := now))
            <==> Still(db.takeaways, env)
  {
    ReviewsReadBack(db, env, stamp, read, now);
    CountersReadBack(db, env, read, now);
  }

  // ---- what a write-back changes

  function AllRelinked(rows: seq<TakeawayRow>, env: Env): (r: seq<TakeawayRow>)
    ensures |r| == |rows| && forall i :: 0 <= i < |r| ==> r[i] == Relinked(rows[i], env)
  {
    if rows == [] then [] else [Relinked(rows[0], env)] + AllRelinked(rows[1..], env)
  }

  lemma {:induction false} InsertRelinked(r: TakeawayRow, rows: seq<TakeawayRow>, env: Env)
    ensures InsertTakeaway(Relinked(r, env), AllRelinked(rows, env)) == AllRelinked(InsertTakeaway(r, rows), env)
  {
    if rows != [] {
      assert AllRelinked(rows, env)[1..] == AllRelinked(rows[1..], env);
      if r.sortOrder > rows[0].sortOrder { InsertRelinked(r, rows[1..], env); }
    }
  }

  lemma {:induction false} SortRelinked(rows: seq<TakeawayRow>, env: Env)
    ensures SortTakeaways(AllRelinked(rows, env)) == AllRelinked(SortTakeaways(rows), env)
  {
    if rows != [] {
      SortRelinked(rows[1..], env);
      InsertRelinked(rows[0], SortTakeaways(rows[1..]), env);
      assert AllRelinked(rows, env)[1..] == AllRelinked(rows[1..], env);
    }
  }

  lemma {:induction false} RowsOfRelinked(rows: seq<TakeawayRow>, id: string, env: Env)
    ensures RowsOf(AllRelinked(rows, env), id) == AllRelinked(RowsOf(rows, id), env)
  {
    if rows != [] {
      RowsOfRelinked(rows[1..], id, env);
      assert AllRelinked(rows, env)[1..] == AllRelinked(rows[1..], env);
    }
  }

  lemma {:induction false} RenumberReads(list: seq<TakeawayRow>, reviewId: string, order: nat, env: Env)
    ensures ToTakeaways(Renumber(list, reviewId, order, env), env) == ToTakeaways(AllRelinked(list, env), env)
    decreases |list|
  {
    if list != [] {
      var rows := Renumber(list, reviewId, order, env);
      RenumberReads(list[1..], reviewId, order + 1, env);
      assert rows[1..] == Renumber(list[1..], reviewId, order + 1, env);
      assert AllRelinked(list, env)[1..] == AllRelinked(list[1..], env);
      FirstTakeaway(rows, AllRelinked(list, env), env);
    }
  }

  lemma BlockReads(row: ReviewRow, takeaways: seq<TakeawayRow>, env: Env)
    requires Consistent(env) && forall t :: t in takeaways ==> CleanTakeaway(t, env)
    ensures ToTakeaways(SortTakeaways(Block(row, takeaways, env)), env)
            == TakeawaysRead(row, AllRelinked(takeaways, env), env)
  {
    var list := SortTakeaways(RowsOf(takeaways, row.id));
    SortedMembers(takeaways, row.id);
    TakeawaysWrittenBack(list, row.id, 0, env);
    RenumberFacts(list, row.id, 0, env);
    SortNumbered(Block(row, takeaways, env), 0);
    RenumberReads(list, row.id, 0, env);
    RowsOfRelinked(takeaways, row.id, env);
    SortRelinked(RowsOf(takeaways, row.id), env);
  }

  lemma ListReads(rows: seq<ReviewRow>, takeaways: seq<TakeawayRow>, env: Env, now: string)
    requires Consistent(env) && Distinct(ReviewIds(rows))
    requires forall r :: r in rows ==> CleanReview(r, env)
    requires forall t :: t in takeaways ==> CleanTakeaway(t, env)
    ensures ToReviews(Restamp(rows, now), TakeawayRows(ToReviews(rows, takeaways, env), env), env)
            == ToReviews(rows, AllRelinked(takeaways, env), env)
  {
    var written, relinked := TakeawayRows(ToReviews(rows, takeaways, env), env), AllRelinked(takeaways, env);
    var after := Restamp(rows, now);
    forall i: nat | i < |rows| ensures ToReview(after[i], written, env) == ToReview(rows[i], relinked, env) {
      BlocksFind(rows, takeaways, env, i);
      BlockReads(rows[i], takeaways, env);
      ReviewRead(after[i], rows[i], written, relinked, env);
    }
  }

  /** What a write-back of a read changes on settled tables, whatever they hold: `last_updated`, and each takeaway's URL
      and label to what storing them again makes of them. */
  lemma WriteBackExactly(db: Tables, env: Env, stamp: string, read: string, now: string)
    requires Consistent(env) && Settled(db, env, stamp)
    ensures var store := Read(db, env, read);
            Read(Written(store, now, env), env, now)
            == Store(Read(db.(takeaways := AllRelinked(db.takeaways, env)), env, read).reviews,
                     store.meta.(lastUpdated := now))
  {
    var rows := SortReviews(db.reviews, env.clock);
    SortKeepsClean(db, env);
    SortKeepsKeyed(db, env);
    WrittenBackReviews(db, env, read, now);
    RestampedSorted(rows, env.clock, stamp, now);
    SortSortedReviews(Restamp(rows, now), env.clock);
    ListReads(rows, db.takeaways, env, now);
    CountersReadBack(db, env, read, now);
  }

  // ---- clean tables with any stamps

  lemma TwiceCounted(ids: seq<string>, i: nat, j: nat)
    requires i < j < |ids| && ids[i] == ids[j]
    ensures multiset(ids)[ids[i]] >= 2
  {
    var a, b := ids[..j], ids[j..];
    assert ids == a + b;
    assert a[i] in multiset(a) && b[0] in multiset(b);
  }

  lemma DistinctAt(ids: seq<string>, i: nat, j: nat)
    requires Distinct(ids) && i < |ids| && j < |ids| && ids[i] == ids[j]
    ensures i == j
  {
    if i < j { TwiceCounted(ids, i, j); }
    if j < i { TwiceCounted(ids, j, i); }
  }

  /** Rows that are the same but for their order, and have the same ids in the same places, are the same. */
  lemma OrderedByIds(rows: seq<ReviewRow>, other: seq<ReviewRow>)
    requires Distinct(ReviewIds(rows)) && multiset(rows) == multiset(other)
    requires |rows| == |other| && forall i: nat :: i < |rows| ==> rows[i].id == other[i].id
    ensures rows == other
  {
    forall i: nat | i < |rows| ensures rows[i] == other[i] {
      SameAt(rows, other, i);
    }
  }

  lemma SameAt(rows: seq<ReviewRow>, other: seq<ReviewRow>, i: nat)
    requires i < |rows| == |other| && rows[i].id == other[i].id
    requires Distinct(ReviewIds(rows)) && multiset(rows) == multiset(other)
    ensures rows[i] == other[i]
  {
    assert other[i] in multiset(other);
    assert other[i] in multiset(rows);
    var j: nat :| j < |rows| && rows[j] == other[i];
    DistinctAt(ReviewIds(rows), i, j);
  }

  /** A reading shows the ids, so equal readings, whatever the takeaways, are of rows with the same ids. */
  lemma SameReading(rows: seq<ReviewRow>, other: seq<ReviewRow>, a: seq<TakeawayRow>, b: seq<TakeawayRow>, env: Env)
    requires ToReviews(rows, a, env) == ToReviews(other, b, env)
    ensures |rows| == |other| && forall i: nat :: i < |rows| ==> rows[i].id == other[i].id
  {
    assert |rows| == |ToReviews(rows, a, env)| == |other|;
    forall i: nat | i < |rows| ensures rows[i].id == other[i].id {
      assert ToReviews(rows, a, env)[i] == ToReviews(other, b, env)[i];
      ReviewIdRead(rows[i], a, env);
      ReviewIdRead(other[i], b, env);
    }
  }

  lemma SortedReading(
    rows: seq<ReviewRow>, was: seq<ReviewRow>, a: seq<TakeawayRow>, b: seq<TakeawayRow>, env: Env
  )
    requires Distinct(ReviewIds(rows)) && ReviewIds(rows) == ReviewIds(was)
    ensures ToReviews(SortReviews(rows, env.clock), a, env) == ToReviews(was, b, env)
            <==> ReviewsSorted(rows, env.clock) && ToReviews(rows, a, env) == ToReviews(was, b, env)
  {
    var sorted := SortReviews(rows, env.clock);
    SortReviewsSorts(rows, env.clock);
    if ReviewsSorted(rows, env.clock) { SortSortedReviews(rows, env.clock); }
    if ToReviews(sorted, a, env) == ToReviews(was, b, env) {
      SameReading(sorted, was, a, b, env);
      forall i: nat | i < |rows| ensures rows[i].id == sorted[i].id {
        assert ReviewIds(rows)[i] == ReviewIds(was)[i];
      }
      OrderedByIds(rows, sorted);
    }
  }

  /** If and only if, whatever update stamps clean tables carry: a write-back keeps what is read of the reviews exactly
      when they are in order by date and id alone, once all carry one stamp, and every takeaway is still. */
  lemma {:induction false} OrderKeptExactly(db: Tables, env: Env, read: string, now: string)
    requires Consistent(env) && Clean(db, env)
    ensures Read(Written(Read(db, env, read), now, env), env, now).reviews == Read(db, env, read).reviews
            <==> ReviewsSorted(Restamp(SortReviews(db.reviews, env.clock), now), env.clock) && Still(db.takeaways, env)
  {
    var rows := SortReviews(db.reviews, env.clock);
    var takeaways := Written(Read(db, env, read), now, env).takeaways;
    SortKeepsClean(db, env);
    SortKeepsKeyed(db, env);
    WrittenBackReviews(db, env, read, now);
    RestampedIds(rows, now);
    SortedReading(Restamp(rows, now), rows, takeaways, db.takeaways, env);
  }

  // ---- every write settles

  lemma {:induction false} WrittenReviewsClean(reviews: seq<JsValue>, now: string, env: Env)
    ensures forall r :: r in ReviewRows(reviews, now, env) ==> CleanReview(r, env)
  {
    ReviewRowsGood(reviews, now, env);
    if reviews != [] {
      WrittenReviewsClean(reviews[1..], now, env);
      if IdOf(reviews[0], env) != "" { SavedColumnsFit(env.reviews.columns, reviews[0].fields, env.coercion); }
    }
  }

  /** A takeaway's columns before its URL and label are stored. */
  function RawColumns(v: JsValue, env: Env): Fields
    requires v.Record?
  {
    SavedColumns(env.takeaways.columns, v.fields, env.coercion)
  }

  lemma {:induction false} WrittenTakeawaysClean(ts: seq<JsValue>, reviewId: string, order: nat, env: Env)
    requires Consistent(env)
    ensures forall t :: t in ToTakeawayRows(ts, reviewId, order, env) ==> CleanTakeaway(t, env)
    decreases |ts|
  {
    TakeawaysGood(ts, reviewId, order, env);
    if ts != [] {
      WrittenTakeawaysClean(ts[1..], reviewId, order, env);
      WrittenTakeawaysClean(ts[1..], reviewId, order + 1, env);
      if IdOf(ts[0], env) != "" {
        SavedColumnsFit(env.takeaways.columns, ts[0].fields, env.coercion);
        VideoSet(RawColumns(ts[0], env), env);
      }
    }
  }

  lemma {:induction false} WrittenRowsClean(reviews: seq<JsValue>, now: string, env: Env)
    requires Consistent(env)
    ensures forall t :: t in TakeawayRows(reviews, env) ==>
              CleanTakeaway(t, env) && t.reviewId in ReviewIds(ReviewRows(reviews, now, env))
  {
    if reviews != [] {
      var first := reviews[0];
      WrittenRowsClean(reviews[1..], now, env);
      WrittenTakeawaysClean(TakeawaysIn(first), IdOf(first, env), 0, env);
      TakeawaysGood(TakeawaysIn(first), IdOf(first, env), 0, env);
      FirstIdsFirst(reviews, now, env);
    }
  }

  lemma FirstIdsFirst(reviews: seq<JsValue>, now: string, env: Env)
    requires reviews != []
    ensures var ids := ReviewIds(ReviewRows(reviews, now, env));
            && (IdOf(reviews[0], env) != "" ==> IdOf(reviews[0], env) in ids)
            && forall id :: id in ReviewIds(ReviewRows(reviews[1..], now, env)) ==> id in ids
  {
    var ids := ReviewIds(ReviewRows(reviews, now, env));
    if IdOf(reviews[0], env) != "" {
      assert ids == [IdOf(reviews[0], env)] + ReviewIds(ReviewRows(reviews[1..], now, env));
    } else {
      assert ids == ReviewIds(ReviewRows(reviews[1..], now, env));
    }
  }

  /** Whatever is written, malformed URLs and unrepeatable labels included, an accepted write settles the tables. */
  lemma WriteSettles(store: Store, env: Env, now: string)
    requires Consistent(env) && Insertable(store, env)
    ensures Settled(Written(store, now, env), env, now)
  {
    WrittenReviewsClean(store.reviews, now, env);
    WrittenRowsClean(store.reviews, now, env);
    ReviewRowsGood(store.reviews, now, env);
    IdsIgnoreStamp(store.reviews, "", now, env);
  }

  // ---- which writes leave still takeaways

  /** A takeaway that a write stores, with its review. */
  predicate Stores(store: Store, r: JsValue, v: JsValue, env: Env) {
    r in store.reviews && IdOf(r, env) != "" && v in TakeawaysIn(r) && IdOf(v, env) != ""
  }

  ghost predicate ReadableUrl(v: JsValue, env: Env) {
    v.Record? ==> Readable(env.web, Trim(TextAt(RawColumns(v, env), VIDEO_URL)))
  }

  /** What is known of the URL library about the URLs that are written. */
  ghost predicate AllReadable(store: Store, env: Env) {
    forall r, v :: Stores(store, r, v, env) ==> ReadableUrl(v, env)
  }

  predicate Repeatable(v: JsValue, env: Env) {
    v.Record? ==>
      !Drifts(env.web, TextAt(RawColumns(v, env), VIDEO_URL), TextAt(RawColumns(v, env), VIDEO_TIMESTAMP))
  }

  /** No second write changes a URL or label. */
  ghost predicate AllRepeatable(store: Store, env: Env) {
    forall r, v :: Stores(store, r, v, env) ==> Repeatable(v, env)
  }

  lemma VideoStillExactly(v: JsValue, reviewId: string, order: nat, env: Env)
    requires Consistent(env) && v.Record? && ReadableUrl(v, env)
    ensures StillTakeaway(ToTakeawayRow(v, reviewId, order, env), env) <==> Repeatable(v, env)
  {
    var raw := RawColumns(v, env);
    var once := WithVideo(raw, env);
    SavedColumnsFit(env.takeaways.columns, v.fields, env.coercion);
    StoredTextStableExactly(env.web, TextAt(raw, VIDEO_URL), TextAt(raw, VIDEO_TIMESTAMP));
    VideoSet(raw, env);
    VideoSet(once, env);
    KeysApart();
  }

  lemma {:induction false} TakeawaysStillExactly(ts: seq<JsValue>, reviewId: string, order: nat, env: Env)
    requires Consistent(env)
    requires forall v :: v in ts && IdOf(v, env) != "" ==> ReadableUrl(v, env)
    ensures Still(ToTakeawayRows(ts, reviewId, order, env), env)
            <==> forall v :: v in ts && IdOf(v, env) != "" ==> Repeatable(v, env)
    decreases |ts|
  {
    if ts != [] {
      forall v ensures v in ts <==> v == ts[0] || v in ts[1..] {}
      var next := if IdOf(ts[0], env) == "" then order else order + 1;
      TakeawaysStillExactly(ts[1..], reviewId, next, env);
      if IdOf(ts[0], env) != "" {
        VideoStillExactly(ts[0], reviewId, order, env);
        FirstStill(ToTakeawayRows(ts, reviewId, order, env), env);
      }
    }
  }

  lemma StillAppend(a: seq<TakeawayRow>, b: seq<TakeawayRow>, env: Env)
    ensures Still(a + b, env) <==> Still(a, env) && Still(b, env)
  {
    forall t ensures t in a + b <==> t in a || t in b {}
  }

  lemma {:induction false} ReviewsStillExactly(reviews: seq<JsValue>, meta: Meta, env: Env)
    requires Consistent(env) && AllReadable(Store(reviews, meta), env)
    ensures Still(TakeawayRows(reviews, env), env) <==> AllRepeatable(Store(reviews, meta), env)
  {
    if reviews != [] {
      var first, rest := reviews[0], Store(reviews[1..], meta);
      var store := Store(reviews, meta);
      forall r, v
        ensures Stores(store, r, v, env) <==> Stores(rest, r, v, env) || (r == first && Stores(store, r, v, env))
      {}
      ReviewsStillExactly(reviews[1..], meta, env);
      StillAppend(TakeawaysOfReview(first, env), TakeawayRows(reviews[1..], env), env);
      if IdOf(first, env) != "" {
        forall v | v in TakeawaysIn(first) && IdOf(v, env) != "" ensures Stores(store, first, v, env) {}
        TakeawaysStillExactly(TakeawaysIn(first), IdOf(first, env), 0, env);
      }
    }
  }

  /** If and only if, for any accepted write of any values: reading, writing back and reading again is the identity on
      all but `last_updated` exactly when no second write changes a URL or label that was written. */
  lemma {:induction false} ReadAfterWriteIsFixpoint(store: Store, env: Env, first: string, read: string, now: string)
    requires Consistent(env) && Insertable(store, env) && AllReadable(store, env)
    ensures var once := Read(Written(store, first, env), env, read);
            Read(Written(once, now, env), env, now) == once.(meta := once.meta.(lastUpdated := now))
            <==> AllRepeatable(store, env)
  {
    WriteSettles(store, env, first);
    ReviewsStillExactly(store.reviews, store.meta, env);
    WriteBackIsFixpoint(Written(store, first, env), env, first, read, now);
  }
}
