/** Ids of the ideas store: whatever a write holds, they stay trimmed and distinct, so that writing back a read is never
    refused; and the running counters. */
module IdeasIds {
  import opened Text
  import opened VideoTimestamps
  import opened IdeasRecords
  import opened IdeasStore

  lemma {:induction false} IdsIgnoreStamp(reviews: seq<JsValue>, a: string, b: string, env: Env)
    ensures ReviewIds(ReviewRows(reviews, a, env)) == ReviewIds(ReviewRows(reviews, b, env))
  {
    if reviews != [] {
      IdsIgnoreStamp(reviews[1..], a, b, env);
    }
  }

  lemma InsertableAnytime(store: Store, now: string, env: Env)
    ensures Insertable(store, env)
            <==> RowsDistinct(ReviewRows(store.reviews, now, env), TakeawayRows(store.reviews, env))
  {
    IdsIgnoreStamp(store.reviews, "", now, env);
  }

  predicate GoodId(id: string) { id != "" && Trim(id) == id }

  /** Ids are trimmed, not blank, and distinct; nothing is said of columns, extra keys or owners. */
  ghost predicate Keyed(db: Tables) {
    && Distinct(ReviewIds(db.reviews)) && Distinct(TakeawayIds(db.takeaways))
    && (forall r :: r in db.reviews ==> GoodId(r.id)) && (forall t :: t in db.takeaways ==> GoodId(t.id))
  }

  // ---- every write leaves good ids

  lemma {:induction false} ReviewRowsGood(reviews: seq<JsValue>, now: string, env: Env)
    ensures forall r :: r in ReviewRows(reviews, now, env) ==> GoodId(r.id) && r.updatedAt == now
  {
    if reviews != [] {
      ReviewRowsGood(reviews[1..], now, env);
      if IdOf(reviews[0], env) != "" { TrimTwice(ToText(At(reviews[0].fields, ID), "", env.coercion)); }
    }
  }

  lemma {:induction false} TakeawaysGood(ts: seq<JsValue>, reviewId: string, order: nat, env: Env)
    ensures forall t :: t in ToTakeawayRows(ts, reviewId, order, env) ==> GoodId(t.id) && t.reviewId == reviewId
    decreases |ts|
  {
    if ts != [] {
      TakeawaysGood(ts[1..], reviewId, order, env);
      TakeawaysGood(ts[1..], reviewId, order + 1, env);
      if IdOf(ts[0], env) != "" { TrimTwice(ToText(At(ts[0].fields, ID), "", env.coercion)); }
    }
  }

  lemma {:induction false} TakeawayRowsGood(reviews: seq<JsValue>, env: Env)
    ensures forall t :: t in TakeawayRows(reviews, env) ==> GoodId(t.id)
  {
    if reviews != [] {
      TakeawayRowsGood(reviews[1..], env);
      TakeawaysGood(TakeawaysIn(reviews[0]), IdOf(reviews[0], env), 0, env);
    }
  }

  lemma WrittenKeyed(store: Store, now: string, env: Env)
    requires Insertable(store, env)
    ensures Keyed(Written(store, now, env))
  {
    ReviewRowsGood(store.reviews, now, env);
    TakeawayRowsGood(store.reviews, env);
    IdsIgnoreStamp(store.reviews, "", now, env);
  }

  lemma SyncedKeyed(db: Tables, id: string, taskStatus: string, now: string)
    requires Keyed(db)
    ensures Keyed(Synced(db, id, taskStatus, now))
  {
    if MappedStatus(taskStatus).Some? {
      var after := WithStatuses(db.takeaways, Trim(id), MappedStatus(taskStatus).value);
      assert TakeawayIds(after) == TakeawayIds(db.takeaways);
      forall i: nat | i < |after| ensures GoodId(after[i].id) { assert db.takeaways[i] in db.takeaways; }
    }
  }

  // ---- sorting keeps ids

  lemma {:induction false} InsertKeepsIds(r: ReviewRow, rows: seq<ReviewRow>, clock: Clock)
    ensures multiset(ReviewIds(InsertReview(r, rows, clock))) == multiset(ReviewIds(rows)) + multiset{r.id}
  {
    if rows != [] && !ReviewLe(r, rows[0], clock) {
      InsertKeepsIds(r, rows[1..], clock);
      assert ReviewIds(InsertReview(r, rows, clock)) == [rows[0].id] + ReviewIds(InsertReview(r, rows[1..], clock));
      assert ReviewIds(rows) == [rows[0].id] + ReviewIds(rows[1..]);
    } else {
      assert ReviewIds([r] + rows) == [r.id] + ReviewIds(rows);
    }
  }

  lemma {:induction false} SortKeepsIds(rows: seq<ReviewRow>, clock: Clock)
    ensures multiset(ReviewIds(SortReviews(rows, clock))) == multiset(ReviewIds(rows))
  {
    if rows != [] {
      SortKeepsIds(rows[1..], clock);
      InsertKeepsIds(rows[0], SortReviews(rows[1..], clock), clock);
      assert ReviewIds(rows) == [rows[0].id] + ReviewIds(rows[1..]);
    }
  }

  lemma {:induction false} InsertReviewKeeps(r: ReviewRow, rows: seq<ReviewRow>, clock: Clock)
    ensures multiset(InsertReview(r, rows, clock)) == multiset(rows) + multiset{r}
  {
    if rows != [] {
      assert rows == [rows[0]] + rows[1..];
      if !ReviewLe(r, rows[0], clock) { InsertReviewKeeps(r, rows[1..], clock); }
    }
  }

  lemma {:induction false} InsertReviewSorts(r: ReviewRow, rows: seq<ReviewRow>, clock: Clock)
    requires ReviewsSorted(rows, clock)
    ensures ReviewsSorted(InsertReview(r, rows, clock), clock)
  {
    var out := InsertReview(r, rows, clock);
    if rows != [] && !ReviewLe(r, rows[0], clock) {
      InsertReviewSorts(r, rows[1..], clock);
      TextTotal(r.id, rows[0].id);
      assert out[1..] == InsertReview(r, rows[1..], clock);
    } else {
      assert out[1..] == rows;
    }
  }

  lemma {:induction false} SortReviewsSorts(rows: seq<ReviewRow>, clock: Clock)
    ensures multiset(SortReviews(rows, clock)) == multiset(rows)
    ensures ReviewsSorted(SortReviews(rows, clock), clock)
  {
    if rows != [] {
      assert rows == [rows[0]] + rows[1..];
      SortReviewsSorts(rows[1..], clock);
      InsertReviewKeeps(rows[0], SortReviews(rows[1..], clock), clock);
      InsertReviewSorts(rows[0], SortReviews(rows[1..], clock), clock);
    }
  }

  lemma {:induction false} InsertTakeawayKeeps(r: TakeawayRow, rows: seq<TakeawayRow>)
    ensures multiset(InsertTakeaway(r, rows)) == multiset(rows) + multiset{r}
  {
    if rows != [] {
      assert rows == [rows[0]] + rows[1..];
      if r.sortOrder > rows[0].sortOrder { InsertTakeawayKeeps(r, rows[1..]); }
    }
  }

  lemma {:induction false} SortTakeawaysKeeps(rows: seq<TakeawayRow>)
    ensures multiset(SortTakeaways(rows)) == multiset(rows)
  {
    if rows != [] {
      assert rows == [rows[0]] + rows[1..];
      SortTakeawaysKeeps(rows[1..]);
      InsertTakeawayKeeps(rows[0], SortTakeaways(rows[1..]));
    }
  }

  lemma SortKeepsKeyed(db: Tables, env: Env)
    requires Keyed(db)
    ensures var rows := SortReviews(db.reviews, env.clock);
            && (forall r :: r in rows <==> r in db.reviews) && |rows| == |db.reviews|
            && (forall r :: r in rows ==> GoodId(r.id))
            && (forall id :: id in ReviewIds(rows) <==> id in ReviewIds(db.reviews))
            && Distinct(ReviewIds(rows)) && ReviewsSorted(rows, env.clock)
  {
    var rows := SortReviews(db.reviews, env.clock);
    SortReviewsSorts(db.reviews, env.clock);
    assert |multiset(rows)| == |rows| && |multiset(db.reviews)| == |db.reviews|;
    forall r ensures r in rows <==> r in db.reviews { assert r in multiset(rows) <==> r in multiset(db.reviews); }
    SortKeepsIds(db.reviews, env.clock);
    forall id ensures id in ReviewIds(rows) <==> id in ReviewIds(db.reviews) {
      assert id in ReviewIds(rows) <==> id in multiset(ReviewIds(rows));
      assert id in ReviewIds(db.reviews) <==> id in multiset(ReviewIds(db.reviews));
    }
  }

  lemma DistinctCons(head: string, rest: seq<string>)
    requires Distinct([head] + rest)
    ensures Distinct(rest) && head !in rest
  {
    var ids := [head] + rest;
    assert multiset(ids) == multiset{head} + multiset(rest);
    assert head in ids;
    forall id | id in rest ensures multiset(rest)[id] == 1 { assert id in ids; }
  }

  lemma DistinctTail(rows: seq<ReviewRow>)
    requires rows != [] && Distinct(ReviewIds(rows))
    ensures Distinct(ReviewIds(rows[1..]))
    ensures forall r :: r in rows[1..] ==> r.id != rows[0].id
  {
    DistinctCons(rows[0].id, ReviewIds(rows[1..]));
    ReviewIdsOf(rows[1..]);
  }

  lemma ReviewIdsOf(rows: seq<ReviewRow>)
    ensures forall id :: id in ReviewIds(rows) <==> exists r :: r in rows && r.id == id
  {
    forall id ensures id in ReviewIds(rows) <==> exists r :: r in rows && r.id == id {
      if id in ReviewIds(rows) {
        var i :| 0 <= i < |rows| && ReviewIds(rows)[i] == id;
        assert rows[i] in rows;
      }
      if r :| r in rows && r.id == id {
        var i :| 0 <= i < |rows| && rows[i] == r;
        assert ReviewIds(rows)[i] == id;
      }
    }
  }

  // ---- the ids of what was read

  /** A read puts the id over everything else. */
  lemma ReviewFound(row: ReviewRow, takeaways: seq<TakeawayRow>, env: Env)
    ensures var v := ToReview(row, takeaways, env);
            IdOf(v, env) == Trim(row.id) && TakeawaysIn(v) == TakeawaysRead(row, takeaways, env)
  {
    var own: Fields := map[ID := Str(row.id), TAKEAWAYS := List(TakeawaysRead(row, takeaways, env))];
    assert ID != TAKEAWAYS && forall k :: k in own ==> At(ToReview(row, takeaways, env).fields, k) == own[k];
  }

  lemma TakeawayFound(t: TakeawayRow, env: Env)
    ensures IdOf(ToTakeaway(t, env), env) == Trim(t.id)
  {
    assert At(ToTakeaway(t, env).fields, ID) == Str(t.id);
  }

  lemma {:induction false} ReviewIdsBack(rows: seq<ReviewRow>, takeaways: seq<TakeawayRow>, now: string, env: Env)
    requires forall r :: r in rows ==> GoodId(r.id)
    ensures ReviewIds(ReviewRows(ToReviews(rows, takeaways, env), now, env)) == ReviewIds(rows)
  {
    if rows != [] {
      assert rows[0] in rows && forall r :: r in rows[1..] ==> r in rows;
      ReviewFound(rows[0], takeaways, env);
      ReviewIdsBack(rows[1..], takeaways, now, env);
      assert ToReviews(rows, takeaways, env)[1..] == ToReviews(rows[1..], takeaways, env);
    }
  }

  lemma {:induction false} TakeawayIdsBack(list: seq<TakeawayRow>, reviewId: string, order: nat, env: Env)
    requires forall t :: t in list ==> GoodId(t.id)
    ensures TakeawayIds(ToTakeawayRows(ToTakeaways(list, env), reviewId, order, env)) == TakeawayIds(list)
    decreases |list|
  {
    if list != [] {
      assert list[0] in list && forall t :: t in list[1..] ==> t in list;
      TakeawayFound(list[0], env);
      TakeawayIdsBack(list[1..], reviewId, order + 1, env);
      assert ToTakeaways(list, env)[1..] == ToTakeaways(list[1..], env);
    }
  }

  // ---- the written takeaways, block by block

  function Block(row: ReviewRow, takeaways: seq<TakeawayRow>, env: Env): seq<TakeawayRow> {
    ToTakeawayRows(TakeawaysRead(row, takeaways, env), row.id, 0, env)
  }

  lemma {:induction false} BlocksSplit(rows: seq<ReviewRow>, takeaways: seq<TakeawayRow>, env: Env)
    requires rows != [] && GoodId(rows[0].id)
    ensures TakeawayRows(ToReviews(rows, takeaways, env), env)
            == Block(rows[0], takeaways, env) + TakeawayRows(ToReviews(rows[1..], takeaways, env), env)
  {
    ReviewFound(rows[0], takeaways, env);
    assert ToReviews(rows, takeaways, env)[1..] == ToReviews(rows[1..], takeaways, env);
  }

  lemma {:induction false} RowsOfMembers(rows: seq<TakeawayRow>, id: string)
    ensures forall t :: t in RowsOf(rows, id) <==> t in rows && t.reviewId == id
  {
    if rows != [] { RowsOfMembers(rows[1..], id); }
  }

  lemma SortedMembers(takeaways: seq<TakeawayRow>, id: string)
    ensures forall t :: t in SortTakeaways(RowsOf(takeaways, id)) <==> t in takeaways && t.reviewId == id
  {
    var list := SortTakeaways(RowsOf(takeaways, id));
    SortTakeawaysKeeps(RowsOf(takeaways, id));
    RowsOfMembers(takeaways, id);
    forall t ensures t in list <==> t in takeaways && t.reviewId == id {
      assert t in list <==> t in multiset(list);
      assert t in RowsOf(takeaways, id) <==> t in multiset(RowsOf(takeaways, id));
    }
  }

  // ---- every takeaway is written back once

  /** How many rows with this id belong to one of these reviews. */
  function Owned(rows: seq<TakeawayRow>, owners: set<string>, id: string): nat {
    if rows == [] then 0
    else (if rows[0].id == id && rows[0].reviewId in owners then 1 else 0) + Owned(rows[1..], owners, id)
  }

  lemma {:induction false} OwnedApart(rows: seq<TakeawayRow>, a: set<string>, b: set<string>, id: string)
    requires a !! b
    ensures Owned(rows, a + b, id) == Owned(rows, a, id) + Owned(rows, b, id)
  {
    if rows != [] { OwnedApart(rows[1..], a, b, id); }
  }

  lemma CountFirst(row: TakeawayRow, rest: seq<TakeawayRow>, id: string)
    ensures multiset(TakeawayIds([row] + rest))[id] == (if row.id == id then 1 else 0) + multiset(TakeawayIds(rest))[id]
  {
    assert TakeawayIds([row] + rest) == [row.id] + TakeawayIds(rest);
  }

  lemma FirstOwned(row: TakeawayRow, rest: seq<TakeawayRow>, owner: string, id: string)
    ensures multiset(TakeawayIds((if row.reviewId == owner then [row] else []) + rest))[id]
            == (if row.id == id && row.reviewId in {owner} then 1 else 0) + multiset(TakeawayIds(rest))[id]
  {
    CountFirst(row, rest, id);
    assert [] + rest == rest;
  }

  lemma {:induction false} OwnedByOne(rows: seq<TakeawayRow>, owner: string, id: string)
    ensures multiset(TakeawayIds(RowsOf(rows, owner)))[id] == Owned(rows, {owner}, id)
  {
    if rows != [] {
      OwnedByOne(rows[1..], owner, id);
      FirstOwned(rows[0], RowsOf(rows[1..], owner), owner, id);
    }
  }

  lemma {:induction false} OwnedAtMost(rows: seq<TakeawayRow>, owners: set<string>, id: string)
    ensures Owned(rows, owners, id) <= multiset(TakeawayIds(rows))[id]
  {
    if rows != [] {
      OwnedAtMost(rows[1..], owners, id);
      assert TakeawayIds(rows) == [rows[0].id] + TakeawayIds(rows[1..]);
    }
  }

  lemma {:induction false} InsertTakeawayCounts(r: TakeawayRow, rows: seq<TakeawayRow>, id: string)
    ensures multiset(TakeawayIds(InsertTakeaway(r, rows)))[id]
            == (if r.id == id then 1 else 0) + multiset(TakeawayIds(rows))[id]
  {
    if rows != [] && r.sortOrder > rows[0].sortOrder {
      var rest := rows[1..];
      InsertTakeawayCounts(r, rest, id);
      CountFirst(rows[0], InsertTakeaway(r, rest), id);
      CountFirst(rows[0], rest, id);
      assert [rows[0]] + rest == rows;
    } else {
      CountFirst(r, rows, id);
    }
  }

  lemma {:induction false} SortTakeawaysCounts(rows: seq<TakeawayRow>, id: string)
    ensures multiset(TakeawayIds(SortTakeaways(rows)))[id] == multiset(TakeawayIds(rows))[id]
  {
    if rows != [] {
      SortTakeawaysCounts(rows[1..], id);
      InsertTakeawayCounts(rows[0], SortTakeaways(rows[1..]), id);
      CountFirst(rows[0], rows[1..], id);
      assert rows == [rows[0]] + rows[1..];
    }
  }

  lemma BlockCount(row: ReviewRow, takeaways: seq<TakeawayRow>, env: Env, id: string)
    requires forall t :: t in takeaways ==> GoodId(t.id)
    ensures multiset(TakeawayIds(Block(row, takeaways, env)))[id] == Owned(takeaways, {row.id}, id)
  {
    SortedMembers(takeaways, row.id);
    TakeawayIdsBack(SortTakeaways(RowsOf(takeaways, row.id)), row.id, 0, env);
    SortTakeawaysCounts(RowsOf(takeaways, row.id), id);
    OwnedByOne(takeaways, row.id, id);
  }

  function Owners(rows: seq<ReviewRow>): set<string> {
    set id | id in ReviewIds(rows)
  }

  lemma {:induction false} IdsAppend(a: seq<TakeawayRow>, b: seq<TakeawayRow>)
    ensures TakeawayIds(a + b) == TakeawayIds(a) + TakeawayIds(b)
  {}

  lemma CountAppend(a: seq<TakeawayRow>, b: seq<TakeawayRow>, id: string)
    ensures multiset(TakeawayIds(a + b))[id] == multiset(TakeawayIds(a))[id] + multiset(TakeawayIds(b))[id]
  {
    IdsAppend(a, b);
  }

  lemma OwnersApart(rows: seq<ReviewRow>, takeaways: seq<TakeawayRow>, id: string)
    requires rows != [] && Distinct(ReviewIds(rows))
    ensures Owned(takeaways, Owners(rows), id)
            == Owned(takeaways, {rows[0].id}, id) + Owned(takeaways, Owners(rows[1..]), id)
  {
    DistinctCons(rows[0].id, ReviewIds(rows[1..]));
    assert Owners(rows) == {rows[0].id} + Owners(rows[1..]);
    OwnedApart(takeaways, {rows[0].id}, Owners(rows[1..]), id);
  }

  lemma {:induction false} NoOwners(rows: seq<TakeawayRow>, id: string)
    ensures Owned(rows, {}, id) == 0
  {
    if rows != [] { NoOwners(rows[1..], id); }
  }

  lemma {:induction false} BlocksCount(rows: seq<ReviewRow>, takeaways: seq<TakeawayRow>, env: Env, id: string)
    requires Distinct(ReviewIds(rows)) && forall r :: r in rows ==> GoodId(r.id)
    requires forall t :: t in takeaways ==> GoodId(t.id)
    ensures multiset(TakeawayIds(TakeawayRows(ToReviews(rows, takeaways, env), env)))[id]
            == Owned(takeaways, Owners(rows), id)
  {
    if rows == [] {
      NoOwners(takeaways, id);
      assert Owners(rows) == {};
    } else {
      assert forall r :: r in rows[1..] ==> r in rows;
      DistinctTail(rows);
      BlocksSplit(rows, takeaways, env);
      BlockCount(rows[0], takeaways, env, id);
      BlocksCount(rows[1..], takeaways, env, id);
      CountAppend(Block(rows[0], takeaways, env), TakeawayRows(ToReviews(rows[1..], takeaways, env), env), id);
      OwnersApart(rows, takeaways, id);
    }
  }

  /** Writing back a read is never refused for a repeated key, whatever else the rows hold. */
  lemma WriteBackAccepted(db: Tables, env: Env, read: string)
    requires Keyed(db)
    ensures Insertable(Read(db, env, read), env)
  {
    var rows := SortReviews(db.reviews, env.clock);
    SortKeepsKeyed(db, env);
    ReviewIdsBack(rows, db.takeaways, "", env);
    var ids := TakeawayIds(TakeawayRows(ToReviews(rows, db.takeaways, env), env));
    forall id | id in ids ensures multiset(ids)[id] == 1 {
      BlocksCount(rows, db.takeaways, env, id);
      OwnedAtMost(db.takeaways, Owners(rows), id);
      assert id in multiset(ids);
      assert multiset(TakeawayIds(db.takeaways))[id] >= 1;
      assert id in TakeawayIds(db.takeaways);
    }
  }

  // ---- counters

  /** After a write the next ids exceed every stored number, and are not below the ones handed in. */
  lemma {:induction false} CountersGrow(store: Store, now: string, env: Env)
    ensures var db := Written(store, now, env);
            && db.meta.Some?
            && Exceeds(db.meta.value.nextReview, ReviewIds(db.reviews), "review-")
            && Exceeds(db.meta.value.nextTakeaway, TakeawayIds(db.takeaways), "tw-")
            && db.meta.value.nextReview >= store.meta.nextReview
            && db.meta.value.nextTakeaway >= store.meta.nextTakeaway
            && db.meta.value.nextReview >= 1 && db.meta.value.nextTakeaway >= 1
  {
    NextSequenceIsNext(ReviewIds(ReviewRows(store.reviews, now, env)), REVIEW_PREFIX);
    NextSequenceIsNext(TakeawayIds(TakeawayRows(store.reviews, env)), TAKEAWAY_PREFIX);
  }

  lemma NextBelow(ids: seq<string>, prefix: string, before: int)
    requires before >= 1
    ensures NextSequence(ids, prefix) < before <==> before > 1 && Exceeds(before - 1, ids, prefix)
  {
    var next := NextSequence(ids, prefix);
    NextSequenceIsNext(ids, prefix);
    if next >= before && next > 1 {
      var id :| id in ids && Suffix(id, prefix) == Some(next - 1);
      assert !Exceeds(before - 1, ids, prefix);
    }
  }

  /** A write lowers a next id from `before` exactly when the counter handed in is lower and no stored id has the
      number before it: counters that come from a read never decrease. */
  lemma WriteLowersExactly(store: Store, now: string, env: Env, before: int)
    requires before >= 1
    ensures var db := Written(store, now, env);
            && (db.meta.value.nextReview < before <==>
                  store.meta.nextReview < before && before > 1
                      && Exceeds(before - 1, ReviewIds(db.reviews), REVIEW_PREFIX))
            && (db.meta.value.nextTakeaway < before <==>
                  store.meta.nextTakeaway < before && before > 1
                      && Exceeds(before - 1, TakeawayIds(db.takeaways), TAKEAWAY_PREFIX))
  {
    NextBelow(ReviewIds(ReviewRows(store.reviews, now, env)), REVIEW_PREFIX, before);
    NextBelow(TakeawayIds(TakeawayRows(store.reviews, env)), TAKEAWAY_PREFIX, before);
  }

  /** A read after a write answers the counters that were written. */
  lemma {:induction false} CountersReadAsWritten(store: Store, env: Env, now: string, read: string)
    ensures var db := Written(store, now, env);
            && Read(db, env, read).meta.nextReview == db.meta.value.nextReview
            && Read(db, env, read).meta.nextTakeaway == db.meta.value.nextTakeaway
  {
    var db := Written(store, now, env);
    var ids, sorted := ReviewIds(db.reviews), ReviewIds(SortReviews(db.reviews, env.clock));
    SortKeepsIds(db.reviews, env.clock);
    forall id ensures id in sorted <==> id in ids { assert id in multiset(sorted) <==> id in multiset(ids); }
    NextSequenceIsNext(ids, REVIEW_PREFIX);
    NextSequenceLeast(sorted, ids, REVIEW_PREFIX, NextSequence(ids, REVIEW_PREFIX));
  }
}
