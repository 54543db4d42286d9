/** The polling loop that delivers task events and comments to connected clients. */
module EventPolling {
  import opened Text

  const LIMIT := 50

  /** A task event or a comment, with the slug and code of the company it joins to, if any, and its creation time. */
  datatype Row = Row(id: string, at: int, slug: Option<string>, code: Option<string>)

  datatype Payload = Activity(id: string, at: int) | Comment(id: string, at: int)

  /** `c.slug = ? OR UPPER(c.company_code) = UPPER(?) OR ? = ''`. */
  predicate ForCompany(row: Row, company: string) {
    row.slug == Some(company) || (row.code.Some? && Lower(row.code.value) == Lower(company)) || company == ""
  }

  predicate Due(row: Row, since: int, company: string) {
    row.at > since && ForCompany(row, company)
  }

  function DueRows(rows: seq<Row>, since: int, company: string): seq<Row> {
    if rows == [] then []
    else (if Due(rows[0], since, company) then [rows[0]] else []) + DueRows(rows[1..], since, company)
  }

  function Insert(r: Row, rows: seq<Row>): seq<Row> {
    if rows == [] || r.at <= rows[0].at then [r] + rows else [rows[0]] + Insert(r, rows[1..])
  }

  function Ascending(rows: seq<Row>): seq<Row> {
    if rows == [] then [] else Insert(rows[0], Ascending(rows[1..]))
  }

  /** The query: due rows, oldest first, at most 50. */
  function Query(rows: seq<Row>, since: int, company: string): seq<Row> {
    var all := Ascending(DueRows(rows, since, company));
    if |all| <= LIMIT then all else all[..LIMIT]
  }

  function InsertPayload(p: Payload, ps: seq<Payload>): seq<Payload> {
    if ps == [] || p.at <= ps[0].at then [p] + ps else [ps[0]] + InsertPayload(p, ps[1..])
  }

  function SortPayloads(ps: seq<Payload>): seq<Payload> {
    if ps == [] then [] else InsertPayload(ps[0], SortPayloads(ps[1..]))
  }

  function Activities(rows: seq<Row>): (r: seq<Payload>)
    ensures |r| == |rows| && forall i :: 0 <= i < |r| ==> r[i] == Activity(rows[i].id, rows[i].at)
  {
    if rows == [] then [] else [Activity(rows[0].id, rows[0].at)] + Activities(rows[1..])
  }

  function Comments(rows: seq<Row>): (r: seq<Payload>)
    ensures |r| == |rows| && forall i :: 0 <= i < |r| ==> r[i] == Comment(rows[i].id, rows[i].at)
  {
    if rows == [] then [] else [Comment(rows[0].id, rows[0].at)] + Comments(rows[1..])
  }

  /** What the tables hold when a poll reads them. */
  datatype Tables = Tables(events: seq<Row>, comments: seq<Row>)

  function Batch(db: Tables, since: int, company: string): seq<Payload> {
    SortPayloads(Activities(Query(db.events, since, company)) + Comments(Query(db.comments, since, company)))
  }

  function Latest(rows: seq<Row>, since: int): int {
    if rows == [] then since
    else
      var rest := Latest(rows[..|rows| - 1], since);
      if rows[|rows| - 1].at > rest then rows[|rows| - 1].at else rest
  }

  function Cursor(db: Tables, since: int, company: string): int {
    Latest(Query(db.comments, since, company), Latest(Query(db.events, since, company), since))
  }

  class Client {
    const companySlug: string
    var lastEventTime: int
    var sent: seq<Payload>

    constructor (companySlug: string, since: int)
      ensures this.companySlug == companySlug && lastEventTime == since && sent == []
    {
      this.companySlug, lastEventTime, sent := companySlug, since, [];
    }

    /** One tick for one open client. */
    method Poll(db: Tables)
      modifies this
      ensures sent == old(sent) + Batch(db, old(lastEventTime), companySlug)
      ensures lastEventTime == Cursor(db, old(lastEventTime), companySlug)
    {
      var events := Query(db.events, lastEventTime, companySlug);
      var comments := Query(db.comments, lastEventTime, companySlug);
      var activities, eventTime := PushEvents(events, lastEventTime);
      var payloads, latestTime := PushComments(comments, activities, eventTime);
      sent := sent + SortPayloads(payloads);
      lastEventTime := latestTime;
    }
  }

  method PushEvents(events: seq<Row>, since: int) returns (payloads: seq<Payload>, latestTime: int)
    ensures payloads == Activities(events) && latestTime == Latest(events, since)
  {
    payloads, latestTime := [], since;
    for i := 0 to |events|
      invariant payloads == Activities(events[..i]) && latestTime == Latest(events[..i], since)
    {
      assert events[..i + 1][..i] == events[..i] && events[..i + 1][i] == events[i];
      payloads := payloads + [Activity(events[i].id, events[i].at)];
      if events[i].at > latestTime { latestTime := events[i].at; }
    }
    assert events[..|events|] == events;
  }

  lemma CommentsStep(comments: seq<Row>, i: nat, before: seq<Payload>)
    requires i < |comments|
    ensures before + Comments(comments[..i + 1])
            == (before + Comments(comments[..i])) + [Comment(comments[i].id, comments[i].at)]
  {
    assert Comments(comments[..i + 1]) == Comments(comments[..i]) + [Comment(comments[i].id, comments[i].at)];
    AppendAssoc(before, Comments(comments[..i]), [Comment(comments[i].id, comments[i].at)]);
  }

  method PushComments(comments: seq<Row>, before: seq<Payload>, since: int)
    returns (payloads: seq<Payload>, latestTime: int)
    ensures payloads == before + Comments(comments) && latestTime == Latest(comments, since)
  {
    payloads, latestTime := before, since;
    for i := 0 to |comments|
      invariant payloads == before + Comments(comments[..i]) && latestTime == Latest(comments[..i], since)
    {
      CommentsStep(comments, i, before);
      assert comments[..i + 1][..i] == comments[..i] && comments[..i + 1][i] == comments[i];
      payloads := payloads + [Comment(comments[i].id, comments[i].at)];
      if comments[i].at > latestTime { latestTime := comments[i].at; }
    }
    assert comments[..|comments|] == comments;
  }

  // ---- one poll

  predicate RowsOrdered(rs: seq<Row>) {
    |rs| >= 2 ==> rs[0].at <= rs[1].at && RowsOrdered(rs[1..])
  }

  lemma {:induction false} RowsOrderedPairs(rs: seq<Row>, i: nat, j: nat)
    requires RowsOrdered(rs) && i <= j < |rs|
    ensures rs[i].at <= rs[j].at
    decreases |rs|
  {
    if i > 0 { RowsOrderedPairs(rs[1..], i - 1, j - 1); } else if j > 0 { RowsOrderedPairs(rs[1..], 0, j - 1); }
  }

  lemma {:induction false} InsertKeeps(x: Row, rs: seq<Row>)
    ensures multiset(Insert(x, rs)) == multiset(rs) + multiset{x}
  {
    if rs != [] && x.at > rs[0].at {
      assert rs == [rs[0]] + rs[1..];
      InsertKeeps(x, rs[1..]);
    }
  }

  lemma {:induction false} InsertOrdered(x: Row, rs: seq<Row>)
    requires RowsOrdered(rs)
    ensures RowsOrdered(Insert(x, rs))
  {
    if rs != [] && x.at > rs[0].at {
      InsertOrdered(x, rs[1..]);
      assert Insert(x, rs)[1..] == Insert(x, rs[1..]);
    } else {
      assert Insert(x, rs)[1..] == rs;
    }
  }

  lemma {:induction false} AscendingKeeps(rs: seq<Row>)
    ensures multiset(Ascending(rs)) == multiset(rs) && RowsOrdered(Ascending(rs))
  {
    if rs != [] {
      assert rs == [rs[0]] + rs[1..];
      AscendingKeeps(rs[1..]);
      InsertKeeps(rs[0], Ascending(rs[1..]));
      InsertOrdered(rs[0], Ascending(rs[1..]));
    }
  }

  predicate Ordered(ps: seq<Payload>) {
    |ps| >= 2 ==> ps[0].at <= ps[1].at && Ordered(ps[1..])
  }

  lemma {:induction false} OrderedPairs(ps: seq<Payload>, i: nat, j: nat)
    requires Ordered(ps) && i <= j < |ps|
    ensures ps[i].at <= ps[j].at
    decreases |ps|
  {
    if i > 0 { OrderedPairs(ps[1..], i - 1, j - 1); } else if j > 0 { OrderedPairs(ps[1..], 0, j - 1); }
  }

  lemma {:induction false} InsertPayloadKeeps(x: Payload, ps: seq<Payload>)
    ensures multiset(InsertPayload(x, ps)) == multiset(ps) + multiset{x}
  {
    if ps != [] && x.at > ps[0].at {
      assert ps == [ps[0]] + ps[1..];
      InsertPayloadKeeps(x, ps[1..]);
    }
  }

  lemma {:induction false} InsertPayloadOrdered(x: Payload, ps: seq<Payload>)
    requires Ordered(ps)
    ensures Ordered(InsertPayload(x, ps))
  {
    if ps != [] && x.at > ps[0].at {
      InsertPayloadOrdered(x, ps[1..]);
      assert InsertPayload(x, ps)[1..] == InsertPayload(x, ps[1..]);
    } else {
      assert InsertPayload(x, ps)[1..] == ps;
    }
  }

  lemma {:induction false} SortPayloadsKeeps(ps: seq<Payload>)
    ensures multiset(SortPayloads(ps)) == multiset(ps) && Ordered(SortPayloads(ps))
  {
    if ps != [] {
      assert ps == [ps[0]] + ps[1..];
      SortPayloadsKeeps(ps[1..]);
      InsertPayloadKeeps(ps[0], SortPayloads(ps[1..]));
      InsertPayloadOrdered(ps[0], SortPayloads(ps[1..]));
    }
  }

  lemma {:induction false} DueRowsExact(rows: seq<Row>, since: int, company: string)
    ensures forall r :: r in DueRows(rows, since, company) <==> r in rows && Due(r, since, company)
  {
    if rows != [] { DueRowsExact(rows[1..], since, company); }
  }

  /** A query answers due rows only; below its limit it answers all of them, and at its limit
      every due row it leaves out is at least as late as every row it answers. */
  ghost predicate Answers(q: seq<Row>, rows: seq<Row>, since: int, company: string) {
    && |q| <= 50
    && (forall r :: r in q ==> r in rows && Due(r, since, company))
    && (|q| < 50 ==> forall r :: r in rows && Due(r, since, company) ==> r in q)
    && (forall r, x :: r in rows && Due(r, since, company) && r !in q && x in q ==> x.at <= r.at)
  }

  lemma TakeEarliest(all: seq<Row>, n: nat, r: Row, x: Row)
    requires RowsOrdered(all) && n <= |all| && r in all && r !in all[..n] && x in all[..n]
    ensures x.at <= r.at
  {
    assert all == all[..n] + all[n..];
    var i :| 0 <= i < |all[n..]| && all[n..][i] == r;
    var j :| 0 <= j < n && all[..n][j] == x;
    assert all[n + i] == r && all[j] == x;
    RowsOrderedPairs(all, j, n + i);
  }

  lemma QueryExact(rows: seq<Row>, since: int, company: string)
    ensures Answers(Query(rows, since, company), rows, since, company)
  {
    var due := DueRows(rows, since, company);
    var all := Ascending(due);
    DueRowsExact(rows, since, company);
    AscendingKeeps(due);
    forall r ensures r in all <==> r in rows && Due(r, since, company) {
      assert r in multiset(all) <==> r in multiset(due);
    }
    if |all| > LIMIT {
      forall r, x | r in all && r !in all[..LIMIT] && x in all[..LIMIT]
        ensures x.at <= r.at
      {
        TakeEarliest(all, LIMIT, r, x);
      }
      forall r | r in all[..LIMIT] ensures r in all {}
    }
  }

  lemma {:induction false} LatestExact(rows: seq<Row>, since: int)
    ensures Latest(rows, since) >= since
    ensures forall r :: r in rows ==> r.at <= Latest(rows, since)
    ensures Latest(rows, since) == since || exists r :: r in rows && r.at == Latest(rows, since)
  {
    if rows != [] {
      var init, last := rows[..|rows| - 1], rows[|rows| - 1];
      assert rows == init + [last];
      LatestExact(init, since);
      assert last in rows && forall r :: r in init ==> r in rows;
    }
  }

  /** The payload of a due row. */
  predicate Sent(p: Payload, db: Tables, since: int, company: string) {
    match p
    case Activity(id, at) => exists r :: r in Query(db.events, since, company) && r.id == id && r.at == at
    case Comment(id, at) => exists r :: r in Query(db.comments, since, company) && r.id == id && r.at == at
  }

  lemma {:induction false} ActivitiesMembers(rows: seq<Row>, p: Payload)
    ensures p in Activities(rows) <==> p.Activity? && exists r :: r in rows && r.id == p.id && r.at == p.at
  {
    if rows != [] { ActivitiesMembers(rows[1..], p); }
  }

  lemma {:induction false} CommentsMembers(rows: seq<Row>, p: Payload)
    ensures p in Comments(rows) <==> p.Comment? && exists r :: r in rows && r.id == p.id && r.at == p.at
  {
    if rows != [] { CommentsMembers(rows[1..], p); }
  }

  /** A batch holds the payloads of the two answers, oldest first. */
  lemma BatchMembers(db: Tables, since: int, company: string)
    ensures forall p :: p in Batch(db, since, company) <==> Sent(p, db, since, company)
    ensures Ordered(Batch(db, since, company))
  {
    var as_, cs := Activities(Query(db.events, since, company)), Comments(Query(db.comments, since, company));
    SortPayloadsKeeps(as_ + cs);
    forall p ensures p in Batch(db, since, company) <==> Sent(p, db, since, company) {
      assert p in multiset(SortPayloads(as_ + cs)) <==> p in multiset(as_ + cs);
      ActivitiesMembers(Query(db.events, since, company), p);
      CommentsMembers(Query(db.comments, since, company), p);
    }
  }

  // ---- no payload twice

  function Copies(ps: seq<Payload>, p: Payload): nat {
    if ps == [] then 0 else (if ps[0] == p then 1 else 0) + Copies(ps[1..], p)
  }

  function WithId(rows: seq<Row>, id: string): nat {
    if rows == [] then 0 else (if rows[0].id == id then 1 else 0) + WithId(rows[1..], id)
  }

  /** Ids are primary keys. */
  ghost predicate Keyed(rows: seq<Row>) {
    forall id :: WithId(rows, id) <= 1
  }

  lemma {:induction false} CopiesAppend(a: seq<Payload>, b: seq<Payload>, p: Payload)
    ensures Copies(a + b, p) == Copies(a, p) + Copies(b, p)
  {
    if a == [] { assert a + b == b; } else { assert (a + b)[1..] == a[1..] + b; CopiesAppend(a[1..], b, p); }
  }

  lemma {:induction false} InsertCopies(q: Payload, ps: seq<Payload>, p: Payload)
    ensures Copies(InsertPayload(q, ps), p) == Copies(ps, p) + if q == p then 1 else 0
  {
    if ps != [] && q.at > ps[0].at { InsertCopies(q, ps[1..], p); }
  }

  lemma {:induction false} SortCopies(ps: seq<Payload>, p: Payload)
    ensures Copies(SortPayloads(ps), p) == Copies(ps, p)
  {
    if ps != [] { SortCopies(ps[1..], p); InsertCopies(ps[0], SortPayloads(ps[1..]), p); }
  }

  lemma {:induction false} InsertWithId(r: Row, rows: seq<Row>, id: string)
    ensures WithId(Insert(r, rows), id) == WithId(rows, id) + if r.id == id then 1 else 0
  {
    if rows != [] && r.at > rows[0].at { InsertWithId(r, rows[1..], id); }
  }

  lemma {:induction false} AscendingWithId(rows: seq<Row>, id: string)
    ensures WithId(Ascending(rows), id) == WithId(rows, id)
  {
    if rows != [] { AscendingWithId(rows[1..], id); InsertWithId(rows[0], Ascending(rows[1..]), id); }
  }

  lemma {:induction false} DueWithId(rows: seq<Row>, since: int, company: string, id: string)
    ensures WithId(DueRows(rows, since, company), id) <= WithId(rows, id)
  {
    if rows != [] {
      DueWithId(rows[1..], since, company, id);
      var rest := DueRows(rows[1..], since, company);
      assert ([rows[0]] + rest)[1..] == rest && [] + rest == rest;
    }
  }

  lemma {:induction false} TakeWithId(rows: seq<Row>, n: nat, id: string)
    requires n <= |rows|
    ensures WithId(rows[..n], id) <= WithId(rows, id)
  {
    if n > 0 { assert rows[..n][1..] == rows[1..][..n - 1]; TakeWithId(rows[1..], n - 1, id); }
  }

  lemma QueryWithId(rows: seq<Row>, since: int, company: string, id: string)
    ensures WithId(Query(rows, since, company), id) <= WithId(rows, id)
  {
    var due := DueRows(rows, since, company);
    DueWithId(rows, since, company, id);
    AscendingWithId(due, id);
    if |Ascending(due)| > LIMIT { TakeWithId(Ascending(due), LIMIT, id); }
  }

  lemma {:induction false} ActivityCopies(rows: seq<Row>, p: Payload)
    ensures Copies(Activities(rows), p) <= if p.Activity? then WithId(rows, p.id) else 0
  {
    if rows != [] { ActivityCopies(rows[1..], p); }
  }

  lemma {:induction false} CommentCopies(rows: seq<Row>, p: Payload)
    ensures Copies(Comments(rows), p) <= if p.Comment? then WithId(rows, p.id) else 0
  {
    if rows != [] { CommentCopies(rows[1..], p); }
  }

  lemma BatchOnce(db: Tables, since: int, company: string, p: Payload)
    requires Keyed(db.events) && Keyed(db.comments)
    ensures Copies(Batch(db, since, company), p) <= 1
  {
    var es, cs := Query(db.events, since, company), Query(db.comments, since, company);
    SortCopies(Activities(es) + Comments(cs), p);
    CopiesAppend(Activities(es), Comments(cs), p);
    ActivityCopies(es, p);
    CommentCopies(cs, p);
    QueryWithId(db.events, since, company, p.id);
    QueryWithId(db.comments, since, company, p.id);
    assert WithId(db.events, p.id) <= 1 && WithId(db.comments, p.id) <= 1;
  }

  lemma {:induction false} NoCopies(ps: seq<Payload>, p: Payload)
    ensures Copies(ps, p) == 0 <==> p !in ps
  {
    if ps != [] { NoCopies(ps[1..], p); }
  }

  // ---- every run of polls

  /** Everything sent over a run of polls, and the cursor at its end; rows may appear between polls. */
  function RunPolls(polls: seq<Tables>, since: int, company: string): (seq<Payload>, int)
    decreases |polls|
  {
    if polls == [] then ([], since)
    else
      var rest := RunPolls(polls[1..], Cursor(polls[0], since, company), company);
      (Batch(polls[0], since, company) + rest.0, rest.1)
  }

  /** What a poll sends lies above the old cursor and not above the new one. */
  lemma BatchBetween(db: Tables, since: int, company: string)
    ensures Cursor(db, since, company) >= since
    ensures forall p :: p in Batch(db, since, company) ==> since < p.at <= Cursor(db, since, company)
  {
    var es, cs := Query(db.events, since, company), Query(db.comments, since, company);
    QueryExact(db.events, since, company);
    QueryExact(db.comments, since, company);
    LatestExact(es, since);
    LatestExact(cs, Latest(es, since));
    BatchMembers(db, since, company);
  }

  ghost predicate DeliveredOnce(polls: seq<Tables>, since: int, company: string) {
    var (sent, cursor) := RunPolls(polls, since, company);
    && cursor >= since
    && Ordered(sent) && (forall p :: p in sent ==> since < p.at <= cursor)
    && (forall p :: Copies(sent, p) <= 1)
  }

  /** Over any run of polls the cursor never decreases, nothing is sent twice, and everything is sent in timestamp
      order across polls too. */
  lemma {:induction false} PollsDeliverOnce(polls: seq<Tables>, since: int, company: string)
    requires forall db :: db in polls ==> Keyed(db.events) && Keyed(db.comments)
    ensures DeliveredOnce(polls, since, company)
    decreases |polls|
  {
    if polls != [] {
      var db, next := polls[0], Cursor(polls[0], since, company);
      assert db in polls && forall d :: d in polls[1..] ==> d in polls;
      var batch, rest := Batch(db, since, company), RunPolls(polls[1..], next, company).0;
      PollsDeliverOnce(polls[1..], next, company);
      BatchBetween(db, since, company);
      BatchMembers(db, since, company);
      JoinOrdered(batch, rest, next);
      forall p ensures Copies(batch + rest, p) <= 1 {
        CopiesAppend(batch, rest, p);
        BatchOnce(db, since, company, p);
        NoCopies(batch, p);
        NoCopies(rest, p);
        assert Copies(rest, p) <= 1;
      }
    }
  }

  lemma {:induction false} JoinOrdered(a: seq<Payload>, b: seq<Payload>, at: int)
    requires Ordered(a) && Ordered(b) && (forall p :: p in a ==> p.at <= at) && forall p :: p in b ==> at < p.at
    ensures Ordered(a + b)
  {
    if a == [] {
      assert a + b == b;
    } else {
      assert (a + b)[1..] == a[1..] + b && a[0] in a && (b != [] ==> b[0] in b);
      assert forall p :: p in a[1..] ==> p in a;
      JoinOrdered(a[1..], b, at);
    }
  }

  /** A poll in which neither query reaches its limit sends every due row. */
  lemma UnlimitedPollComplete(db: Tables, since: int, company: string)
    requires |Query(db.events, since, company)| < 50 && |Query(db.comments, since, company)| < 50
    ensures forall r :: r in db.events && Due(r, since, company) ==> Activity(r.id, r.at) in Batch(db, since, company)
    ensures forall r :: r in db.comments && Due(r, since, company) ==> Comment(r.id, r.at) in Batch(db, since, company)
  {
    QueryExact(db.events, since, company);
    QueryExact(db.comments, since, company);
    BatchMembers(db, since, company);
    forall r | r in db.events && Due(r, since, company) ensures Activity(r.id, r.at) in Batch(db, since, company) {
      assert Sent(Activity(r.id, r.at), db, since, company);
    }
    forall r | r in db.comments && Due(r, since, company) ensures Comment(r.id, r.at) in Batch(db, since, company) {
      assert Sent(Comment(r.id, r.at), db, since, company);
    }
  }

  // ---- whose rows a client gets

  /** Told by its slug or, in either case, its code; the empty company stands for all. */
  predicate BelongsTo(r: Row, company: string) {
    company == "" || r.slug == Some(company) || (r.code.Some? && Lower(r.code.value) == Lower(company))
  }

  /** What is sent over a run comes from rows of the client's company only. */
  lemma {:induction false} OnlyItsCompany(polls: seq<Tables>, since: int, company: string)
    ensures forall p :: p in RunPolls(polls, since, company).0 ==>
              exists db, r :: db in polls && RowSent(db, r, p) && BelongsTo(r, company)
    decreases |polls|
  {
    if polls != [] {
      var db, rest := polls[0], RunPolls(polls[1..], Cursor(polls[0], since, company), company).0;
      OnlyItsCompany(polls[1..], Cursor(db, since, company), company);
      forall p | p in Batch(db, since, company) + rest
        ensures exists d, r :: d in polls && RowSent(d, r, p) && BelongsTo(r, company)
      {
        if p in Batch(db, since, company) {
          var r := SentRow(p, db, since, company);
          assert db in polls;
        } else {
          var d, r :| d in polls[1..] && RowSent(d, r, p) && BelongsTo(r, company);
          assert d in polls;
        }
      }
    }
  }

  /** The payload is made of a row of the table it belongs to. */
  predicate RowSent(db: Tables, r: Row, p: Payload) {
    match p
    case Activity(id, at) => r in db.events && r.id == id && r.at == at
    case Comment(id, at) => r in db.comments && r.id == id && r.at == at
  }

  lemma SentRow(p: Payload, db: Tables, since: int, company: string) returns (r: Row)
    requires p in Batch(db, since, company)
    ensures RowSent(db, r, p) && BelongsTo(r, company)
  {
    BatchMembers(db, since, company);
    match p
    case Activity(id, at) =>
      QueryExact(db.events, since, company);
      r :| r in Query(db.events, since, company) && r.id == id && r.at == at;
    case Comment(id, at) =>
      QueryExact(db.comments, since, company);
      r :| r in Query(db.comments, since, company) && r.id == id && r.at == at;
  }

  /** And in a poll below the limits every newer row of its company is sent, found by slug, by code in either case, or
      for the client of all companies. */
  lemma ItsCompanySent(db: Tables, since: int, company: string, r: Row)
    requires |Query(db.events, since, company)| < 50 && |Query(db.comments, since, company)| < 50
    requires since < r.at && BelongsTo(r, company)
    ensures r in db.events ==> Activity(r.id, r.at) in Batch(db, since, company)
    ensures r in db.comments ==> Comment(r.id, r.at) in Batch(db, since, company)
  {
    UnlimitedPollComplete(db, since, company);
  }

  /** When one poll loses an event that it leaves out: the cursor passes the event exactly when an event of the answer
      has its time or a comment of the answer is not older, and then no later poll sends it. */
  lemma LeftOutEventLost(db: Tables, since: int, company: string, r: Row)
    requires r in db.events && Due(r, since, company) && r !in Query(db.events, since, company)
    ensures r.at <= Cursor(db, since, company) <==>
              || (exists x :: x in Query(db.events, since, company) && x.at == r.at)
              || (exists x :: x in Query(db.comments, since, company) && r.at <= x.at)
    ensures forall later :: r.at <= Cursor(db, since, company) ==>
              Activity(r.id, r.at) !in RunPolls(later, Cursor(db, since, company), company).0
  {
    var es, cs := Query(db.events, since, company), Query(db.comments, since, company);
    QueryExact(db.events, since, company);
    LatestExact(es, since);
    LatestExact(cs, Latest(es, since));
    forall later | r.at <= Cursor(db, since, company)
      ensures Activity(r.id, r.at) !in RunPolls(later, Cursor(db, since, company), company).0
    {
      SentAbove(later, Cursor(db, since, company), company);
    }
  }

  /** The same for comments, with the parts of the two answers exchanged. */
  lemma LeftOutCommentLost(db: Tables, since: int, company: string, r: Row)
    requires r in db.comments && Due(r, since, company) && r !in Query(db.comments, since, company)
    ensures r.at <= Cursor(db, since, company) <==>
              || (exists x :: x in Query(db.comments, since, company) && x.at == r.at)
              || (exists x :: x in Query(db.events, since, company) && r.at <= x.at)
    ensures forall later :: r.at <= Cursor(db, since, company) ==>
              Comment(r.id, r.at) !in RunPolls(later, Cursor(db, since, company), company).0
  {
    var es, cs := Query(db.events, since, company), Query(db.comments, since, company);
    QueryExact(db.comments, since, company);
    LatestExact(es, since);
    LatestExact(cs, Latest(es, since));
    forall later | r.at <= Cursor(db, since, company)
      ensures Comment(r.id, r.at) !in RunPolls(later, Cursor(db, since, company), company).0
    {
      SentAbove(later, Cursor(db, since, company), company);
    }
  }

  lemma {:induction false} SentAbove(polls: seq<Tables>, since: int, company: string)
    ensures forall p :: p in RunPolls(polls, since, company).0 ==> since < p.at
    decreases |polls|
  {
    if polls != [] {
      BatchBetween(polls[0], since, company);
      SentAbove(polls[1..], Cursor(polls[0], since, company), company);
    }
  }

  // ---- one row, over a run

  datatype Source = Events | CommentRows

  function RowsFrom(db: Tables, source: Source): seq<Row> {
    if source.Events? then db.events else db.comments
  }

  function PayloadOf(r: Row, source: Source): Payload {
    if source.Events? then Activity(r.id, r.at) else Comment(r.id, r.at)
  }

  /** The row is in the answer of the first poll that takes the cursor to its time or beyond. */
  predicate AnsweredWhenReached(polls: seq<Tables>, since: int, company: string, source: Source, r: Row)
    decreases |polls|
  {
    polls != [] &&
    var next := Cursor(polls[0], since, company);
    if r.at <= next then r in Query(RowsFrom(polls[0], source), since, company)
    else AnsweredWhenReached(polls[1..], next, company, source, r)
  }

  /** No other row of the table has the row's id; the row itself may be there or not. */
  ghost predicate IdOnlyOf(rows: seq<Row>, r: Row) {
    forall x :: x in rows && x.id == r.id ==> x == r
  }

  /** A poll sends a row exactly when the row is in its answer. */
  lemma PollSends(db: Tables, since: int, company: string, source: Source, r: Row)
    requires IdOnlyOf(RowsFrom(db, source), r)
    ensures PayloadOf(r, source) in Batch(db, since, company) <==> r in Query(RowsFrom(db, source), since, company)
  {
    BatchMembers(db, since, company);
    QueryExact(RowsFrom(db, source), since, company);
    assert PayloadOf(r, source) in Batch(db, since, company) <==> Sent(PayloadOf(r, source), db, since, company);
  }

  /** If and only if, over every run, in which the row may appear, change or go at any time: it is sent exactly when it
      is in the answer of the first poll that takes the cursor to its time. A row that this answer leaves out, or that
      appears only afterwards, is lost; one that the cursor has not reached is not sent yet. */
  lemma {:induction false} DeliveredExactly(polls: seq<Tables>, since: int, company: string, source: Source, r: Row)
    requires forall db :: db in polls ==> IdOnlyOf(RowsFrom(db, source), r)
    ensures PayloadOf(r, source) in RunPolls(polls, since, company).0
            <==> AnsweredWhenReached(polls, since, company, source, r)
    ensures AnsweredWhenReached(polls, since, company, source, r) ==> since < r.at <= RunPolls(polls, since, company).1
    decreases |polls|
  {
    if polls != [] {
      var db, next := polls[0], Cursor(polls[0], since, company);
      var batch, rest := Batch(db, since, company), RunPolls(polls[1..], next, company).0;
      assert db in polls && forall d :: d in polls[1..] ==> d in polls;
      PollSends(db, since, company, source, r);
      QueryExact(RowsFrom(db, source), since, company);
      BatchBetween(db, since, company);
      assert RunPolls(polls, since, company).0 == batch + rest;
      if r.at <= next {
        SentAbove(polls[1..], next, company);
        CursorGrows(polls[1..], next, company);
      } else {
        DeliveredExactly(polls[1..], next, company, source, r);
      }
    }
  }

  lemma {:induction false} CursorGrows(polls: seq<Tables>, since: int, company: string)
    ensures RunPolls(polls, since, company).1 >= since
    decreases |polls|
  {
    if polls != [] {
      BatchBetween(polls[0], since, company);
      CursorGrows(polls[1..], Cursor(polls[0], since, company), company);
    }
  }

  // ---- a table that loses a row

  /** Events of one instant, told apart by the lengths of their ids. */
  function Crowd(n: nat, company: string): (rows: seq<Row>)
    ensures |rows| == n
  {
    seq(n, i requires 0 <= i < n => Row(seq(i, _ => 'e'), 1, Some(company), None))
  }

  lemma {:induction false} AscendingOrdered(rows: seq<Row>)
    requires RowsOrdered(rows)
    ensures Ascending(rows) == rows
  {
    if rows != [] { AscendingOrdered(rows[1..]); }
  }

  lemma {:induction false} AllDue(rows: seq<Row>, since: int, company: string)
    requires forall r :: r in rows ==> Due(r, since, company)
    ensures DueRows(rows, since, company) == rows
  {
    if rows != [] {
      assert rows[0] in rows && forall r :: r in rows[1..] ==> r in rows;
      AllDue(rows[1..], since, company);
    }
  }

  lemma {:induction false} OneInstant(rows: seq<Row>)
    requires forall r :: r in rows ==> r.at == 1
    ensures RowsOrdered(rows)
  {
    if |rows| >= 2 {
      assert rows[0] in rows && rows[1] in rows && forall r :: r in rows[1..] ==> r in rows;
      OneInstant(rows[1..]);
    }
  }

  lemma CrowdAnswer(company: string)
    ensures var q := Query(Crowd(51, company), 0, company);
            |q| == 50 && forall r :: r in q ==> |r.id| < 50 && r.at == 1
  {
    var rows := Crowd(51, company);
    AllDue(rows, 0, company);
    OneInstant(rows);
    AscendingOrdered(rows);
    assert Query(rows, 0, company) == rows[..50];
  }

  lemma NotInFirst(db: Tables, company: string, id: string)
    requires forall r :: r in Query(db.events, 0, company) ==> r.id != id
    ensures Activity(id, 1) !in Batch(db, 0, company)
  {
    BatchMembers(db, 0, company);
    assert !Sent(Activity(id, 1), db, 0, company);
  }

  lemma ReachesInstant(db: Tables, company: string)
    requires var q := Query(db.events, 0, company); q != [] && forall r :: r in q ==> r.at == 1
    ensures Cursor(db, 0, company) >= 1
  {
    var q := Query(db.events, 0, company);
    LatestExact(q, 0);
    assert q[0] in q;
    LatestExact(Query(db.comments, 0, company), Latest(q, 0));
  }

  /** Fifty-one events of one instant: the last of them is never sent, however often the client polls. */
  lemma CrowdLosesOne(company: string, later: seq<Tables>)
    ensures var rows := Crowd(51, company);
            Activity(rows[50].id, 1) !in RunPolls([Tables(rows, [])] + later, 0, company).0
  {
    var rows := Crowd(51, company);
    var db, id := Tables(rows, []), rows[50].id;
    CrowdAnswer(company);
    NotInFirst(db, company, id);
    ReachesInstant(db, company);
    SentAbove(later, Cursor(db, 0, company), company);
    assert ([db] + later)[1..] == later;
  }

  // ---- a row that comes too late

  lemma OneAnswer(r: Row, company: string)
    requires Due(r, 0, company)
    ensures Query([r], 0, company) == [r]
  {
    AllDue([r], 0, company);
    AscendingOrdered([r]);
  }

  /** With two events in all: one that appears after a poll has answered another of its instant is never sent. */
  lemma LateRowLost(company: string, later: seq<Tables>)
    ensures var first := Row("first", 1, Some(company), None);
            var late := Row("late", 1, Some(company), None);
            Activity(late.id, 1) !in RunPolls([Tables([first], []), Tables([first, late], [])] + later, 0, company).0
  {
    var first := Row("first", 1, Some(company), None);
    var late := Row("late", 1, Some(company), None);
    var db, rest := Tables([first], []), [Tables([first, late], [])] + later;
    OneAnswer(first, company);
    assert first.id[0] != late.id[0];
    NotInFirst(db, company, late.id);
    ReachesInstant(db, company);
    SentAbove(rest, Cursor(db, 0, company), company);
    assert ([db] + rest)[1..] == rest;
    assert [db] + rest == [db, Tables([first, late], [])] + later;
  }
}
