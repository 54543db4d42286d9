/** Every state of the ideas store that writes, submissions and status syncs reach: what a write-back changes there, and
    what id a submission gets. */
module IdeasRuns {
  import opened Text
  import opened VideoTimestamps
  import opened IdeasRecords
  import opened IdeasStore
  import opened IdeasIds
  import opened IdeasFixpoint
  import opened IdeasIntake

  // ---- runs

  /** A write of any store, which a repeated key refuses; a status sync; a write-back of what a read returns; or a new
      review submitted on top of a read. */
  datatype Op =
    | Write(store: Store, now: string)
    | Sync(takeawayId: string, taskStatus: string, now: string)
    | WriteBack(read: string, now: string)
    | Submit(draft: Fields, read: string, now: string)

  function Persisted(db: Tables, store: Store, now: string, env: Env): Tables {
    if Insertable(store, env) then Written(store, now, env) else db
  }

  lemma NextIdPositive(db: Tables, env: Env, read: string)
    ensures Read(db, env, read).meta.nextReview >= 1
  {
    NextSequenceIsNext(ReviewIds(SortReviews(db.reviews, env.clock)), REVIEW_PREFIX);
  }

  /** The id that a submission gets. */
  function GivenId(db: Tables, env: Env, read: string): string {
    NextIdPositive(db, env, read);
    NewId(Read(db, env, read).meta.nextReview)
  }

  function Next(db: Tables, op: Op, env: Env): Tables {
    match op
    case Write(store, now) => Persisted(db, store, now, env)
    case Sync(id, status, now) => Synced(db, id, status, now)
    case WriteBack(read, now) => Persisted(db, Read(db, env, read), now, env)
    case Submit(draft, read, now) =>
      NextIdPositive(db, env, read);
      Persisted(db, Submitted(Read(db, env, read), draft), now, env)
  }

  function Run(db: Tables, ops: seq<Op>, env: Env): Tables
    decreases |ops|
  {
    if ops == [] then db else Run(Next(db, ops[0], env), ops[1..], env)
  }

  // ---- ids, in any run

  lemma NextKeyed(db: Tables, op: Op, env: Env)
    requires Keyed(db)
    ensures Keyed(Next(db, op, env))
  {
    match op
    case Write(store, now) => PersistedKeyed(db, store, now, env);
    case Sync(id, status, now) => SyncedKeyed(db, id, status, now);
    case WriteBack(read, now) => PersistedKeyed(db, Read(db, env, read), now, env);
    case Submit(draft, read, now) =>
      NextIdPositive(db, env, read);
      PersistedKeyed(db, Submitted(Read(db, env, read), draft), now, env);
  }

  lemma PersistedKeyed(db: Tables, store: Store, now: string, env: Env)
    requires Keyed(db)
    ensures Keyed(Persisted(db, store, now, env))
  {
    if Insertable(store, env) { WrittenKeyed(store, now, env); }
  }

  /** Every state that writes of any stores, write-backs, submissions and syncs reach has trimmed, distinct ids. */
  lemma {:induction false} RunKeyed(db: Tables, ops: seq<Op>, env: Env)
    requires Keyed(db)
    ensures Keyed(Run(db, ops, env))
    decreases |ops|
  {
    if ops != [] {
      NextKeyed(db, ops[0], env);
      RunKeyed(Next(db, ops[0], env), ops[1..], env);
    }
  }

  /** In every run from empty tables a submission is never refused, gets an id that no stored review has, and moves the
      counter by exactly one; and so a write-back of a read is never refused. */
  lemma EverySubmissionAccepted(ops: seq<Op>, env: Env, draft: Fields, read: string, now: string)
    ensures var db := Run(NO_TABLES, ops, env);
            var store := Read(db, env, read);
            && store.meta.nextReview >= 1 && NewId(store.meta.nextReview) !in ReviewIds(db.reviews)
            && Insertable(store, env) && Insertable(Submitted(store, draft), env)
            && Written(Submitted(store, draft), now, env).meta.value.nextReview == store.meta.nextReview + 1
  {
    RunKeyed(NO_TABLES, ops, env);
    WriteBackAccepted(Run(NO_TABLES, ops, env), env, read);
    SubmissionAccepted(Run(NO_TABLES, ops, env), env, read, draft, now);
  }

  // ---- no id is given twice

  /** The write does not hand in a lower counter than a read answers. */
  predicate Counting(db: Tables, op: Op, env: Env) {
    op.Write? ==> op.store.meta.nextReview >= Read(db, env, "").meta.nextReview
  }

  predicate CountingRun(db: Tables, ops: seq<Op>, env: Env)
    decreases |ops|
  {
    ops != [] ==> Counting(db, ops[0], env) && CountingRun(Next(db, ops[0], env), ops[1..], env)
  }

  lemma PersistedCounts(db: Tables, store: Store, now: string, env: Env)
    requires store.meta.nextReview >= Read(db, env, "").meta.nextReview
    ensures Read(Persisted(db, store, now, env), env, "").meta.nextReview >= Read(db, env, "").meta.nextReview
  {
    CountersGrow(store, now, env);
    CountersReadAsWritten(store, env, now, "");
  }

  lemma NextCounts(db: Tables, op: Op, env: Env)
    requires Counting(db, op, env)
    ensures Read(Next(db, op, env), env, "").meta.nextReview >= Read(db, env, "").meta.nextReview
  {
    match op
    case Write(store, now) => PersistedCounts(db, store, now, env);
    case Sync(_, _, _) =>
    case WriteBack(read, now) => PersistedCounts(db, Read(db, env, read), now, env);
    case Submit(draft, read, now) =>
      NextIdPositive(db, env, read);
      PersistedCounts(db, Submitted(Read(db, env, read), draft), now, env);
  }

  lemma {:induction false} RunCounts(db: Tables, ops: seq<Op>, env: Env)
    requires CountingRun(db, ops, env)
    ensures Read(Run(db, ops, env), env, "").meta.nextReview >= Read(db, env, "").meta.nextReview
    decreases |ops|
  {
    if ops != [] {
      NextCounts(db, ops[0], env);
      RunCounts(Next(db, ops[0], env), ops[1..], env);
    }
  }

  /** An id that a review had in any state is given to no submission that comes later, whether the review was deleted
      in between or not, as long as no write hands in a lower counter than a read answers. */
  lemma IdsNeverReused(db: Tables, ops: seq<Op>, env: Env, read: string)
    requires CountingRun(db, ops, env)
    ensures GivenId(Run(db, ops, env), env, read) !in ReviewIds(db.reviews)
  {
    var rows := SortReviews(db.reviews, env.clock);
    var next := Read(Run(db, ops, env), env, read).meta.nextReview;
    SortKeepsIds(db.reviews, env.clock);
    RunCounts(db, ops, env);
    NextSequenceIsNext(ReviewIds(rows), REVIEW_PREFIX);
    NewIdFresh(ReviewIds(rows), next);
    assert forall id :: id in ReviewIds(db.reviews) ==> id in multiset(ReviewIds(rows));
  }

  // ---- what a write-back changes, in any run

  lemma StatusKeepsClean(t: TakeawayRow, id: string, status: string, env: Env)
    requires Consistent(env) && CleanTakeaway(t, env)
    ensures CleanTakeaway(WithStatus(t, id, status), env)
    ensures StillTakeaway(WithStatus(t, id, status), env) <==> StillTakeaway(t, env)
  {
    if t.id == id {
      KeysApart();
      var columns := t.columns[STATUS := Str(status)];
      assert columns.Keys == t.columns.Keys;
      SameVideo(t.columns, columns, env);
    }
  }

  lemma SameVideo(a: Fields, b: Fields, env: Env)
    requires a.Keys == b.Keys && VIDEO_URL in b && VIDEO_TIMESTAMP in b
    requires b[VIDEO_URL] == a[VIDEO_URL] && b[VIDEO_TIMESTAMP] == a[VIDEO_TIMESTAMP]
    ensures WithVideo(b, env) == b <==> WithVideo(a, env) == a
  {
    KeysApart();
    var x, y := WithVideo(a, env), WithVideo(b, env);
    assert x[VIDEO_URL] == y[VIDEO_URL] && x[VIDEO_TIMESTAMP] == y[VIDEO_TIMESTAMP];
  }

  lemma StatusesClean(rows: seq<TakeawayRow>, id: string, status: string, ids: seq<string>, env: Env)
    requires Consistent(env) && forall t :: t in rows ==> CleanTakeaway(t, env) && t.reviewId in ids
    ensures forall t :: t in WithStatuses(rows, id, status) ==> CleanTakeaway(t, env) && t.reviewId in ids
    ensures TakeawayIds(WithStatuses(rows, id, status)) == TakeawayIds(rows)
    ensures Still(rows, env) ==> Still(WithStatuses(rows, id, status), env)
  {
    var after := WithStatuses(rows, id, status);
    forall i: nat | i < |after|
      ensures CleanTakeaway(after[i], env) && after[i].reviewId in ids
      ensures StillTakeaway(after[i], env) <==> StillTakeaway(rows[i], env)
    {
      assert rows[i] in rows;
      StatusKeepsClean(rows[i], id, status, env);
    }
  }

  lemma SyncKeepsSettled(db: Tables, id: string, taskStatus: string, now: string, env: Env, stamp: string)
    requires Consistent(env) && Settled(db, env, stamp)
    ensures Settled(Synced(db, id, taskStatus, now), env, stamp)
    ensures Still(db.takeaways, env) ==> Still(Synced(db, id, taskStatus, now).takeaways, env)
  {
    if MappedStatus(taskStatus).Some? {
      StatusesClean(db.takeaways, Trim(id), MappedStatus(taskStatus).value, ReviewIds(db.reviews), env);
    }
  }

  lemma PersistedSettled(db: Tables, store: Store, now: string, env: Env, stamp: string) returns (next: string)
    requires Consistent(env) && Settled(db, env, stamp)
    ensures Settled(Persisted(db, store, now, env), env, next)
  {
    next := stamp;
    if Insertable(store, env) { WriteSettles(store, env, now); next := now; }
  }

  lemma NextSettled(db: Tables, op: Op, env: Env, stamp: string) returns (next: string)
    requires Consistent(env) && Settled(db, env, stamp)
    ensures Settled(Next(db, op, env), env, next)
  {
    match op
    case Write(store, now) => next := PersistedSettled(db, store, now, env, stamp);
    case Sync(id, status, now) => SyncKeepsSettled(db, id, status, now, env, stamp); next := stamp;
    case WriteBack(read, now) => next := PersistedSettled(db, Read(db, env, read), now, env, stamp);
    case Submit(draft, read, now) =>
      NextIdPositive(db, env, read);
      next := PersistedSettled(db, Submitted(Read(db, env, read), draft), now, env, stamp);
  }

  /** Every state that writes of any stores, write-backs, submissions and syncs reach is settled: columns of their
      kinds, extra keys that a write keeps, one update stamp on all reviews. */
  lemma {:induction false} RunSettled(db: Tables, ops: seq<Op>, env: Env, stamp: string) returns (last: string)
    requires Consistent(env) && Settled(db, env, stamp)
    ensures Settled(Run(db, ops, env), env, last)
    decreases |ops|
  {
    last := stamp;
    if ops != [] {
      var next := NextSettled(db, ops[0], env, stamp);
      last := RunSettled(Next(db, ops[0], env), ops[1..], env, next);
    }
  }

  /** In every run of the program's store from empty tables, writing back what a read returns is not refused. It
      changes what a read returns in `last_updated` and in each takeaway's URL and label, which are stored again, and in
      nothing else. If and only if storing each URL and label again changes neither, it changes `last_updated` alone. */
  lemma EveryRunReadsBack(ops: seq<Op>, coercion: Coercion, web: Web, clock: Clock, read: string, now: string)
    ensures var env := ProgramEnv(coercion, web, clock);
            var db := Run(NO_TABLES, ops, env);
            var store := Read(db, env, read);
            && Insertable(store, env)
            && Read(Written(store, now, env), env, now)
               == Store(Read(db.(takeaways := AllRelinked(db.takeaways, env)), env, read).reviews,
                        store.meta.(lastUpdated := now))
            && ((Read(Written(store, now, env), env, now) == store.(meta := store.meta.(lastUpdated := now)))
                == Still(db.takeaways, env))
  {
    var env := ProgramEnv(coercion, web, clock);
    ProgramConsistent(coercion, web, clock);
    var stamp := RunSettled(NO_TABLES, ops, env, "");
    RunKeyed(NO_TABLES, ops, env);
    WriteBackAccepted(Run(NO_TABLES, ops, env), env, read);
    WriteBackExactly(Run(NO_TABLES, ops, env), env, stamp, read, now);
    WriteBackIsFixpoint(Run(NO_TABLES, ops, env), env, stamp, read, now);
  }

  // ---- runs that keep every takeaway still

  /** A write of URLs and labels that no second write changes. */
  ghost predicate Writable(op: Op, env: Env) {
    op.Write? ==> AllReadable(op.store, env) && AllRepeatable(op.store, env)
  }

  lemma {:induction false} BlocksStill(rows: seq<ReviewRow>, takeaways: seq<TakeawayRow>, env: Env)
    requires Consistent(env) && Still(takeaways, env)
    requires forall r :: r in rows ==> GoodId(r.id)
    requires forall t :: t in takeaways ==> CleanTakeaway(t, env)
    ensures Still(TakeawayRows(ToReviews(rows, takeaways, env), env), env)
  {
    if rows != [] {
      assert rows[0] in rows && forall r :: r in rows[1..] ==> r in rows;
      var list := SortTakeaways(RowsOf(takeaways, rows[0].id));
      BlocksSplit(rows, takeaways, env);
      SortedMembers(takeaways, rows[0].id);
      TakeawaysWrittenBack(list, rows[0].id, 0, env);
      RenumberKeepsStill(list, rows[0].id, 0, env);
      BlocksStill(rows[1..], takeaways, env);
      StillAppend(Block(rows[0], takeaways, env), TakeawayRows(ToReviews(rows[1..], takeaways, env), env), env);
    }
  }

  lemma {:induction false} RenumberKeepsStill(list: seq<TakeawayRow>, reviewId: string, order: nat, env: Env)
    requires Still(list, env)
    ensures Still(Renumber(list, reviewId, order, env), env)
    decreases |list|
  {
    if list != [] {
      FirstStill(list, env);
      RenumberKeepsStill(list[1..], reviewId, order + 1, env);
      FirstStill(Renumber(list, reviewId, order, env), env);
    }
  }

  lemma WriteBackStill(db: Tables, env: Env, read: string)
    requires Consistent(env) && Clean(db, env) && Still(db.takeaways, env)
    ensures Still(TakeawayRows(Read(db, env, read).reviews, env), env)
  {
    SortKeepsClean(db, env);
    SortKeepsKeyed(db, env);
    BlocksStill(SortReviews(db.reviews, env.clock), db.takeaways, env);
  }

  lemma NextStill(db: Tables, op: Op, env: Env, stamp: string)
    requires Consistent(env) && Settled(db, env, stamp) && Still(db.takeaways, env) && Writable(op, env)
    ensures Still(Next(db, op, env).takeaways, env)
  {
    match op
    case Write(store, now) => ReviewsStillExactly(store.reviews, store.meta, env);
    case Sync(id, status, now) => SyncKeepsSettled(db, id, status, now, env, stamp);
    case WriteBack(read, now) => WriteBackStill(db, env, read);
    case Submit(draft, read, now) =>
      NextIdPositive(db, env, read);
      WriteBackStill(db, env, read);
      SubmittedIds(Read(db, env, read), draft, now, env);
  }

  lemma {:induction false} RunStill(db: Tables, ops: seq<Op>, env: Env, stamp: string)
    requires Consistent(env) && Settled(db, env, stamp) && Still(db.takeaways, env)
    requires forall op :: op in ops ==> Writable(op, env)
    ensures Still(Run(db, ops, env).takeaways, env)
    decreases |ops|
  {
    if ops != [] {
      assert ops[0] in ops && forall op :: op in ops[1..] ==> op in ops;
      var next := NextSettled(db, ops[0], env, stamp);
      NextStill(db, ops[0], env, stamp);
      RunStill(Next(db, ops[0], env), ops[1..], env, next);
    }
  }

  /** When no write of the run holds a URL or label that a second write would change, writing back what a read returns
      changes nothing but `last_updated`. */
  lemma WritableRunReadsBack(
    ops: seq<Op>, coercion: Coercion, web: Web, clock: Clock, read: string, now: string
  )
    requires forall op :: op in ops ==> Writable(op, ProgramEnv(coercion, web, clock))
    ensures var env := ProgramEnv(coercion, web, clock);
            var store := Read(Run(NO_TABLES, ops, env), env, read);
            Read(Written(store, now, env), env, now) == store.(meta := store.meta.(lastUpdated := now))
  {
    var env := ProgramEnv(coercion, web, clock);
    ProgramConsistent(coercion, web, clock);
    RunStill(NO_TABLES, ops, env, "");
    EveryRunReadsBack(ops, coercion, web, clock, read, now);
  }
}
