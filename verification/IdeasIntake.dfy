/** Submitting a new review: the id it gets from the running counter. */
module IdeasIntake {
  import opened Text
  import opened VideoTimestamps
  import opened IdeasRecords
  import opened IdeasStore
  import opened IdeasIds

  function PadZeros(s: string, width: nat): string
    decreases width - |s|
  {
    if |s| >= width then s else PadZeros("0" + s, width)
  }

  /** The id of a new review: at least three digits. */
  function NewId(n: nat): string {
    REVIEW_PREFIX + PadZeros(Decimal(n), 3)
  }

  /** The new review: the draft's fields with this id and no takeaways. */
  function NewReview(draft: Fields, n: nat): JsValue {
    Record(draft[ID := Str(NewId(n))][TAKEAWAYS := List([])])
  }

  /** The store that a submission writes: one more review, and the counter moved on. */
  function Submitted(store: Store, draft: Fields): Store
    requires store.meta.nextReview >= 0
  {
    Store(
      store.reviews + [NewReview(draft, store.meta.nextReview)],
      store.meta.(total := |store.reviews| + 1, nextReview := store.meta.nextReview + 1))
  }

  // ---- the number of a new id

  lemma {:induction false} ZeroValue(s: string)
    requires AllDigits(s)
    ensures AllDigits("0" + s) && Value("0" + s) == Value(s)
    decreases |s|
  {
    var t := "0" + s;
    if s == "" {
      assert t == "0" && t[..0] == "";
    } else {
      var init := s[..|s| - 1];
      ZeroValue(init);
      assert t[..|t| - 1] == "0" + init && t[|t| - 1] == s[|s| - 1];
    }
  }

  lemma {:induction false} PadValue(s: string, width: nat)
    requires Numeral(s)
    ensures Numeral(PadZeros(s, width)) && Value(PadZeros(s, width)) == Value(s)
    decreases width - |s|
  {
    if |s| < width {
      ZeroValue(s);
      PadValue("0" + s, width);
    }
  }

  lemma {:induction false} AllDigitRun(s: string)
    requires AllDigits(s)
    ensures DigitRun(s) == |s|
  {
    if s != "" {
      assert s[0] in s && forall c :: c in s[1..] ==> c in s;
      AllDigitRun(s[1..]);
    }
  }

  lemma ParseNumeral(s: string)
    requires Numeral(s)
    ensures ParseInt(s) == Some(Value(s))
  {
    assert s[0] in s;
    AllDigitRun(s);
    assert s[..|s|] == s;
  }

  lemma {:induction false} LowerAppend(a: string, b: string)
    ensures Lower(a + b) == Lower(a) + Lower(b)
  {
    if a == "" {
      assert a + b == b;
    } else {
      assert (a + b)[0] == a[0] && (a + b)[1..] == a[1..] + b;
      LowerAppend(a[1..], b);
    }
  }

  /** Whatever the number, the counter reads it back from the id. */
  lemma NewIdSuffix(n: nat)
    ensures Trim(NewId(n)) == NewId(n) && Suffix(NewId(n), REVIEW_PREFIX) == Some(n)
  {
    var digits := PadZeros(Decimal(n), 3);
    PadValue(Decimal(n), 3);
    DigitsClean(digits);
    assert NoSpace(REVIEW_PREFIX);
    NoSpaceTrim(NewId(n));
    LowerAppend(REVIEW_PREFIX, digits);
    ParseNumeral(digits);
    assert NewId(n)[|REVIEW_PREFIX|..] == digits;
  }

  lemma {:induction false} PadLength(s: string, width: nat)
    ensures |PadZeros(s, width)| == if |s| >= width then |s| else width
    decreases width - |s|
  {
    if |s| < width { PadLength("0" + s, width); }
  }

  /** A new id is `review-` and its number, padded with zeros to three digits. */
  lemma NewIdShape(n: nat)
    ensures var id := NewId(n);
            && |id| >= 10 && id[..7] == "review-" && Numeral(id[7..]) && Value(id[7..]) == n
            && |id[7..]| == if n < 1000 then 3 else |Decimal(n)|
  {
    PadValue(Decimal(n), 3);
    PadLength(Decimal(n), 3);
    assert NewId(n)[..7] == REVIEW_PREFIX && NewId(n)[7..] == PadZeros(Decimal(n), 3);
  }

  /** An id above every stored number is new. */
  lemma NewIdFresh(ids: seq<string>, n: nat)
    requires Exceeds(n, ids, REVIEW_PREFIX)
    ensures NewId(n) !in ids
  {
    NewIdSuffix(n);
  }

  // ---- the write of a submission

  lemma {:induction false} ReviewRowsAppend(a: seq<JsValue>, v: JsValue, now: string, env: Env)
    ensures ReviewRows(a + [v], now, env) == ReviewRows(a, now, env) + RowsOfReview(v, now, env)
    ensures TakeawayRows(a + [v], env) == TakeawayRows(a, env) + TakeawaysOfReview(v, env)
  {
    if a == [] {
      assert a + [v] == [v] && [v][1..] == [];
    } else {
      assert (a + [v])[0] == a[0] && (a + [v])[1..] == a[1..] + [v];
      ReviewRowsAppend(a[1..], v, now, env);
      AppendAssoc(RowsOfReview(a[0], now, env), ReviewRows(a[1..], now, env), RowsOfReview(v, now, env));
      AppendAssoc(TakeawaysOfReview(a[0], env), TakeawayRows(a[1..], env), TakeawaysOfReview(v, env));
    }
  }

  lemma DistinctSnoc(ids: seq<string>, id: string)
    requires Distinct(ids) && id !in ids
    ensures Distinct(ids + [id])
  {
    forall x | x in ids + [id] ensures multiset(ids + [id])[x] == 1 {
      assert x in ids || x == id;
      assert x in ids <==> x in multiset(ids);
    }
  }

  lemma NewReviewFields(draft: Fields, n: nat, env: Env)
    ensures IdOf(NewReview(draft, n), env) == NewId(n) != "" && TakeawaysIn(NewReview(draft, n)) == []
  {
    NewIdSuffix(n);
    NewIdNotEmpty(n);
    assert ID != TAKEAWAYS;
    assert At(NewReview(draft, n).fields, ID) == Str(NewId(n));
  }

  lemma NewIdNotEmpty(n: nat)
    ensures NewId(n) != ""
  {
    assert |NewId(n)| >= |REVIEW_PREFIX|;
  }

  lemma SubmittedIds(store: Store, draft: Fields, now: string, env: Env)
    requires store.meta.nextReview >= 0
    ensures var next := Submitted(store, draft);
            && ReviewIds(ReviewRows(next.reviews, now, env))
               == ReviewIds(ReviewRows(store.reviews, now, env)) + [NewId(store.meta.nextReview)]
            && TakeawayRows(next.reviews, env) == TakeawayRows(store.reviews, env)
  {
    var v := NewReview(draft, store.meta.nextReview);
    NewReviewFields(draft, store.meta.nextReview, env);
    ReviewRowsAppend(store.reviews, v, now, env);
    assert RowsOfReview(v, now, env) == [ToReviewRow(v, now, env)];
    assert TakeawayRows(store.reviews, env) + [] == TakeawayRows(store.reviews, env);
  }

  /** A submission on top of a read is never refused, gets an id that no stored review has, and moves the counter by
      exactly one, whatever the rows hold besides their ids. */
  lemma {:induction false} SubmissionAccepted(db: Tables, env: Env, read: string, draft: Fields, now: string)
    requires Keyed(db)
    ensures var store := Read(db, env, read);
            && store.meta.nextReview >= 1 && NewId(store.meta.nextReview) !in ReviewIds(db.reviews)
            && Insertable(Submitted(store, draft), env)
            && Written(Submitted(store, draft), now, env).meta.value.nextReview == store.meta.nextReview + 1
  {
    var store := Read(db, env, read);
    var rows := SortReviews(db.reviews, env.clock);
    var next := store.meta.nextReview;
    NextSequenceIsNext(ReviewIds(rows), REVIEW_PREFIX);
    SortKeepsKeyed(db, env);
    NewIdFresh(ReviewIds(rows), next);
    WriteBackAccepted(db, env, read);
    ReviewIdsBack(rows, db.takeaways, "", env);
    ReviewIdsBack(rows, db.takeaways, now, env);
    SubmittedIds(store, draft, "", env);
    SubmittedIds(store, draft, now, env);
    DistinctSnoc(ReviewIds(rows), NewId(next));
    NextAfterSubmit(ReviewIds(rows), next);
  }

  lemma NextAfterSubmit(ids: seq<string>, next: nat)
    requires Exceeds(next, ids, REVIEW_PREFIX)
    ensures NextSequence(ids + [NewId(next)], REVIEW_PREFIX) == next + 1
  {
    var all := ids + [NewId(next)];
    NewIdSuffix(next);
    assert NewId(next) in all;
    assert IsNext(next + 1, all, REVIEW_PREFIX);
    NextSequenceLeast(all, all, REVIEW_PREFIX, next + 1);
  }
}
