/** Putting the selected benchmark tasks back to "to-do" and clearing what earlier runs left behind. */
module TaskReset {
  import opened Text

  const NOTE := "benchmark replay reset"

  datatype Task = Task(
    taskKey: Option<string>, sprintId: string, status: string, assignee: Option<string>, eligible: seq<string>,
    assignedAt: Option<string>, startedAt: Option<string>, completedAt: Option<string>, sessionId: Option<string>,
    noopWakes: int, blockedReason: Option<string>, updatedAt: string)

  datatype Approval = Approval(
    taskId: Option<string>, status: string, note: Option<string>, decidedAt: Option<string>, updatedAt: string)

  /** `payloadTask` is the task id named in the JSON payload, if any. */
  datatype Wakeup = Wakeup(
    agentId: string, payloadTask: Option<string>, status: string, finishedAt: Option<string>,
    idempotencyKey: Option<string>, updatedAt: string)

  datatype Heartbeat = Heartbeat(
    agentId: string, contextTask: Option<string>, status: string, finishedAt: Option<string>,
    error: Option<string>, updatedAt: string)

  datatype Execution = Execution(
    taskId: Option<string>, status: string, completedAt: Option<string>, idempotencyKey: Option<string>,
    pid: Option<int>, updatedAt: string)

  datatype Session = Session(
    taskKey: string, params: string, displayId: Option<string>, lastRunId: Option<string>, lastError: Option<string>,
    updatedAt: string)

  datatype Worker = Worker(currentTask: Option<string>, updatedAt: string)

  /** Every table maps primary keys to rows. */
  datatype Tables = Tables(
    tasks: map<string, Task>, approvals: map<string, Approval>, wakeups: map<string, Wakeup>,
    heartbeats: map<string, Heartbeat>, executions: map<string, Execution>, sessions: map<string, Session>,
    workers: map<string, Worker>)

  /** What the reset works on: the selected tasks, their keys, and the agents they may run on. */
  datatype Scope = Scope(taskIds: set<string>, keys: set<string>, agents: set<string>)

  predicate Selected(t: Task, keys: set<string>) {
    t.taskKey.Some? && t.taskKey.value in keys
  }

  function AgentsOf(t: Task): set<string> {
    (if t.assignee.Some? && t.assignee.value != "" then {t.assignee.value} else {}) + set a | a in t.eligible
  }

  function ScopeOf(tasks: map<string, Task>, keys: set<string>): Scope {
    Scope(
      set id | id in tasks && Selected(tasks[id], keys),
      set id | id in tasks && Selected(tasks[id], keys) :: tasks[id].taskKey.value,
      set id, a | id in tasks && Selected(tasks[id], keys) && a in AgentsOf(tasks[id]) :: a)
  }

  function Coalesce(value: Option<string>, fallback: string): Option<string> {
    if value.Some? then value else Some(fallback)
  }

  predicate InScope(id: Option<string>, ids: set<string>) {
    id.Some? && id.value in ids
  }

  // ---- SQL LIKE: `%` stands for any run, `_` for any character, ASCII letters match in either case

  function Fold(c: char): char {
    if 'A' <= c <= 'Z' then c - 'A' + 'a' else c
  }

  lemma FoldLetters(c: char)
    ensures Fold('A') == 'a' && Fold('Z') == 'z' && (Fold(c) != c ==> 'A' <= c <= 'Z' && 'a' <= Fold(c) <= 'z')
  {}

  predicate Like(s: string, pattern: string)
    decreases |pattern|, |s|
  {
    if pattern == "" then s == ""
    else if pattern[0] == '%' then Like(s, pattern[1..]) || (s != "" && Like(s[1..], pattern))
    else s != "" && (pattern[0] == '_' || Fold(pattern[0]) == Fold(s[0])) && Like(s[1..], pattern[1..])
  }

  function FoldAll(s: string): (r: string)
    ensures |r| == |s| && forall i :: 0 <= i < |s| ==> r[i] == Fold(s[i])
  {
    seq(|s|, i requires 0 <= i < |s| => Fold(s[i]))
  }

  /** The text holds the part, ASCII letters in either case. */
  predicate Holds(s: string, part: string) {
    exists i :: 0 <= i <= |s| && HoldsAt(s, part, i)
  }

  predicate HoldsAt(s: string, part: string, i: nat) {
    i + |part| <= |s| && FoldAll(s[i..i + |part|]) == FoldAll(part)
  }

  lemma {:induction false} LikeRest(s: string)
    ensures Like(s, "%")
  {
    assert "%"[1..] == "";
    if s != "" { LikeRest(s[1..]); }
  }

  predicate NoWildcard(part: string) { '%' !in part && '_' !in part }

  lemma {:induction false} LikeStart(s: string, part: string)
    requires NoWildcard(part)
    ensures Like(s, part + "%") <==> |part| <= |s| && FoldAll(s[..|part|]) == FoldAll(part)
    decreases |part|
  {
    if part == "" {
      assert part + "%" == "%" && s[..0] == "";
      LikeRest(s);
    } else {
      var pattern := part + "%";
      assert pattern[0] == part[0] && part[0] in part && pattern[1..] == part[1..] + "%";
      if s != "" {
        LikeStart(s[1..], part[1..]);
        if |part| <= |s| { FoldFirst(s, part); }
      }
    }
  }

  lemma FoldFirst(s: string, part: string)
    requires 0 < |part| <= |s|
    ensures FoldAll(s[..|part|]) == FoldAll(part)
            <==> Fold(s[0]) == Fold(part[0]) && FoldAll(s[1..][..|part| - 1]) == FoldAll(part[1..])
  {
    var a, b := FoldAll(s[..|part|]), FoldAll(part);
    assert a == [Fold(s[0])] + FoldAll(s[1..][..|part| - 1]);
    assert b == [Fold(part[0])] + FoldAll(part[1..]);
  }

  /** `LIKE '%part%'` finds the part anywhere, if it has no wildcard of its own. */
  lemma {:induction false} LikeHolds(s: string, part: string)
    requires NoWildcard(part)
    ensures Like(s, "%" + part + "%") <==> Holds(s, part)
  {
    var pattern := "%" + part + "%";
    assert pattern[0] == '%' && pattern[1..] == part + "%";
    LikeStart(s, part);
    if |part| <= |s| { assert s[0..|part|] == s[..|part|]; }
    assert HoldsAt(s, part, 0) <==> Like(s, part + "%");
    if s != "" {
      LikeHolds(s[1..], part);
      HoldsLater(s, part);
    }
  }

  lemma HoldsLater(s: string, part: string)
    requires s != ""
    ensures Holds(s, part) <==> HoldsAt(s, part, 0) || Holds(s[1..], part)
  {
    forall i: nat | i < |s| ensures HoldsAt(s[1..], part, i) <==> HoldsAt(s, part, i + 1) {
      if i + 1 + |part| <= |s| { assert s[1..][i..i + |part|] == s[i + 1..i + 1 + |part|]; }
    }
    if Holds(s, part) {
      var i :| 0 <= i <= |s| && HoldsAt(s, part, i);
      if i > 0 { assert HoldsAt(s[1..], part, i - 1); }
    }
    if Holds(s[1..], part) {
      var i :| 0 <= i <= |s[1..]| && HoldsAt(s[1..], part, i);
      assert HoldsAt(s, part, i + 1);
    }
  }

  // ---- one row at a time

  function Restarted(t: Task, now: string): Task {
    t.(status := "to-do", startedAt := None, completedAt := None, sessionId := None, noopWakes := 0,
       blockedReason := None, updatedAt := now)
  }

  /** The first eligible agent becomes the assignee. */
  function Reassigned(t: Task, now: string): Task {
    if t.eligible == [] || t.eligible[0] == "" || t.assignee == Some(t.eligible[0]) then t
    else t.(assignee := Some(t.eligible[0]), assignedAt := Coalesce(t.assignedAt, now), updatedAt := now)
  }

  function ResetTask(t: Task, keys: set<string>, now: string): Task {
    if Selected(t, keys) then Reassigned(Restarted(t, now), now) else t
  }

  predicate Undecided(a: Approval) { a.status == "pending" || a.status == "revision_requested" }

  function ResetApproval(a: Approval, s: Scope, now: string): Approval {
    if InScope(a.taskId, s.taskIds) && Undecided(a)
    then a.(status := "cancelled", note := Coalesce(a.note, NOTE), decidedAt := Coalesce(a.decidedAt, now),
           updatedAt := now)
    else a
  }

  predicate Waiting(w: Wakeup) { w.status == "queued" || w.status == "claimed" }

  /** The payload names a selected task, or the idempotency key mentions one. */
  predicate NamesTask(w: Wakeup, ids: set<string>) {
    || InScope(w.payloadTask, ids)
    || (w.idempotencyKey.Some? && exists id :: id in ids && Like(w.idempotencyKey.value, "%" + id + "%"))
  }

  function FailByTask(w: Wakeup, s: Scope, now: string): Wakeup {
    if !NamesTask(w, s.taskIds) then w
    else w.(status := if Waiting(w) then "failed" else w.status,
            finishedAt := if Waiting(w) then Coalesce(w.finishedAt, now) else w.finishedAt,
            idempotencyKey := None, updatedAt := now)
  }

  function FailByAgent(w: Wakeup, s: Scope, now: string): Wakeup {
    if w.agentId in s.agents && Waiting(w)
    then w.(status := "failed", finishedAt := Coalesce(w.finishedAt, now), idempotencyKey := None, updatedAt := now)
    else w
  }

  function ResetWakeup(w: Wakeup, s: Scope, now: string): Wakeup {
    FailByAgent(FailByTask(w, s, now), s, now)
  }

  predicate Retryable(h: Heartbeat) { h.status == "queued" || h.status == "running" || h.status == "failed" }

  predicate Beats(h: Heartbeat, s: Scope) {
    h.agentId in s.agents || InScope(h.contextTask, s.taskIds)
  }

  function ResetHeartbeat(h: Heartbeat, s: Scope, now: string): Heartbeat {
    if Retryable(h) && Beats(h, s)
    then h.(status := "cancelled", finishedAt := Coalesce(h.finishedAt, now), error := Coalesce(h.error, NOTE),
           updatedAt := now)
    else h
  }

  predicate Unfinished(e: Execution) { e.status == "pending" || e.status == "running" }

  function ResetExecution(e: Execution, s: Scope, now: string): Execution {
    if !InScope(e.taskId, s.taskIds) then e
    else e.(status := if Unfinished(e) then "cancelled" else e.status,
            completedAt := if Unfinished(e) then Coalesce(e.completedAt, now) else e.completedAt,
            idempotencyKey := None, pid := None, updatedAt := now)
  }

  function ResetSession(x: Session, s: Scope, now: string): Session {
    if x.taskKey in s.keys then Session(x.taskKey, "{}", None, None, None, now) else x
  }

  function ResetWorker(w: Worker, s: Scope, now: string): Worker {
    if InScope(w.currentTask, s.taskIds) then Worker(None, now) else w
  }

  function ResetApprovals(rows: map<string, Approval>, s: Scope, now: string): map<string, Approval> {
    map id | id in rows :: ResetApproval(rows[id], s, now)
  }

  function ResetWakeups(rows: map<string, Wakeup>, s: Scope, now: string): map<string, Wakeup> {
    map id | id in rows :: ResetWakeup(rows[id], s, now)
  }

  function ResetHeartbeats(rows: map<string, Heartbeat>, s: Scope, now: string): map<string, Heartbeat> {
    map id | id in rows :: ResetHeartbeat(rows[id], s, now)
  }

  function ResetExecutions(rows: map<string, Execution>, s: Scope, now: string): map<string, Execution> {
    map id | id in rows :: ResetExecution(rows[id], s, now)
  }

  function ResetSessions(rows: map<string, Session>, s: Scope, now: string): map<string, Session> {
    map id | id in rows :: ResetSession(rows[id], s, now)
  }

  function ResetWorkers(rows: map<string, Worker>, s: Scope, now: string): map<string, Worker> {
    map id | id in rows :: ResetWorker(rows[id], s, now)
  }

  function ResetTasks(rows: map<string, Task>, keys: set<string>, now: string): map<string, Task> {
    map id | id in rows :: ResetTask(rows[id], keys, now)
  }

  /** The whole reset. The scope is read before tasks are reassigned. */
  function Reset(db: Tables, keys: set<string>, now: string): Tables {
    if keys == {} then db
    else
      var s := ScopeOf(db.tasks, keys);
      Tables(
        ResetTasks(db.tasks, keys, now),
        ResetApprovals(db.approvals, s, now),
        ResetWakeups(db.wakeups, s, now),
        ResetHeartbeats(db.heartbeats, s, now),
        ResetExecutions(db.executions, s, now),
        ResetSessions(db.sessions, s, now),
        ResetWorkers(db.workers, s, now))
  }

  // ---- the statements, run one after the other on one database

  class Database {
    var tasks: map<string, Task>
    var approvals: map<string, Approval>
    var wakeups: map<string, Wakeup>
    var heartbeats: map<string, Heartbeat>
    var executions: map<string, Execution>
    var sessions: map<string, Session>
    var workers: map<string, Worker>

    ghost function View(): Tables
      reads this
    {
      Tables(tasks, approvals, wakeups, heartbeats, executions, sessions, workers)
    }

    constructor (db: Tables)
      ensures View() == db
    {
      tasks, approvals, wakeups, heartbeats := db.tasks, db.approvals, db.wakeups, db.heartbeats;
      executions, sessions, workers := db.executions, db.sessions, db.workers;
    }

    /** `resetSelectedTasks`. */
    method ResetSelectedTasks(keys: set<string>, now: string)
      modifies this
      ensures View() == Reset(old(View()), keys, now)
    {
      if keys == {} { return; }
      ghost var before := tasks;
      tasks := map id | id in tasks :: if Selected(tasks[id], keys) then Restarted(tasks[id], now) else tasks[id];
      var selected := set id | id in tasks && Selected(tasks[id], keys);
      var scope := ScopeOf(tasks, keys);
      assert scope == ScopeOf(before, keys) by { RestartKeepsScope(before, tasks, keys, now); }
      ResetArtifacts(scope, now);
      ReassignSelected(selected, now);
    }

    method ResetArtifacts(s: Scope, now: string)
      modifies this
      ensures tasks == old(tasks)
      ensures approvals == ResetApprovals(old(approvals), s, now)
      ensures wakeups == ResetWakeups(old(wakeups), s, now)
      ensures heartbeats == ResetHeartbeats(old(heartbeats), s, now)
      ensures executions == ResetExecutions(old(executions), s, now)
      ensures sessions == ResetSessions(old(sessions), s, now)
      ensures workers == ResetWorkers(old(workers), s, now)
    {
      approvals := ResetApprovals(approvals, s, now);
      wakeups := map id | id in wakeups :: FailByTask(wakeups[id], s, now);
      wakeups := map id | id in wakeups :: FailByAgent(wakeups[id], s, now);
      heartbeats := ResetHeartbeats(heartbeats, s, now);
      executions := ResetExecutions(executions, s, now);
      sessions := ResetSessions(sessions, s, now);
      workers := ResetWorkers(workers, s, now);
    }

    method ReassignSelected(selected: set<string>, now: string)
      requires selected <= tasks.Keys
      modifies this`tasks
      ensures tasks == map id | id in old(tasks) ::
                if id in selected then Reassigned(old(tasks)[id], now) else old(tasks)[id]
    {
      ghost var before := tasks;
      var todo := selected;
      while todo != {}
        invariant todo <= selected && tasks.Keys == before.Keys
        invariant forall id :: id in before ==>
                    tasks[id] == if id in selected - todo then Reassigned(before[id], now) else before[id]
        decreases todo
      {
        var id :| id in todo;
        tasks := tasks[id := Reassigned(tasks[id], now)];
        todo := todo - {id};
      }
    }
  }

  lemma RestartKeepsScope(before: map<string, Task>, after: map<string, Task>, keys: set<string>, now: string)
    requires after == map id | id in before ::
                        if Selected(before[id], keys) then Restarted(before[id], now) else before[id]
    ensures ScopeOf(after, keys) == ScopeOf(before, keys)
  {
    var a, b := ScopeOf(after, keys), ScopeOf(before, keys);
    assert a.taskIds == b.taskIds;
    assert forall id :: id in before ==> Selected(after[id], keys) == Selected(before[id], keys)
                                         && AgentsOf(after[id]) == AgentsOf(before[id]);
    forall x ensures x in a.keys <==> x in b.keys {
      if x in a.keys {
        var id :| id in after && Selected(after[id], keys) && after[id].taskKey.value == x;
        assert id in before;
      }
      if x in b.keys {
        var id :| id in before && Selected(before[id], keys) && before[id].taskKey.value == x;
        assert id in after;
      }
    }
    forall x ensures x in a.agents <==> x in b.agents {
      if x in a.agents {
        var id :| id in after && Selected(after[id], keys) && x in AgentsOf(after[id]);
        assert id in before;
      }
      if x in b.agents {
        var id :| id in before && Selected(before[id], keys) && x in AgentsOf(before[id]);
        assert id in after;
      }
    }
  }

  // ---- what the reset promises

  /** Nothing live is left for the selected tasks; wakeups and heartbeats also not for their agents,
      neither the old assignee nor the new one. */
  ghost predicate Quiet(db: Tables, s: Scope) {
    && (forall id :: id in db.approvals ==>
        !(InScope(db.approvals[id].taskId, s.taskIds) && Undecided(db.approvals[id])))
    && QuietWakeups(db.wakeups, s)
    && (forall id :: id in db.heartbeats ==> !(Retryable(db.heartbeats[id]) && Beats(db.heartbeats[id], s)))
    && (forall id :: id in db.executions ==>
        !(InScope(db.executions[id].taskId, s.taskIds) && Unfinished(db.executions[id])))
    && (forall id :: id in db.workers ==> !InScope(db.workers[id].currentTask, s.taskIds))
  }

  ghost predicate QuietWakeups(rows: map<string, Wakeup>, s: Scope) {
    forall id :: id in rows ==> !(Waiting(rows[id]) && (rows[id].agentId in s.agents || NamesTask(rows[id], s.taskIds)))
  }

  lemma WakeupsQuiet(rows: map<string, Wakeup>, s: Scope, now: string)
    ensures QuietWakeups(ResetWakeups(rows, s, now), s)
  {
    forall id | id in rows
      ensures var r := ResetWakeup(rows[id], s, now);
              !(Waiting(r) && (r.agentId in s.agents || NamesTask(r, s.taskIds)))
    {}
  }

  lemma ResetQuiets(db: Tables, keys: set<string>, now: string)
    requires keys != {}
    ensures Quiet(Reset(db, keys, now), ScopeOf(db.tasks, keys))
  {
    WakeupsQuiet(db.wakeups, ScopeOf(db.tasks, keys), now);
  }

  lemma AgentsShrink(t: Task, keys: set<string>, now: string)
    ensures var r := ResetTask(t, keys, now); Selected(r, keys) == Selected(t, keys) && AgentsOf(r) <= AgentsOf(t)
  {
    if t.eligible != [] { assert t.eligible[0] in t.eligible; }
  }

  /** The reset selects the same tasks again, and no agent that it did not cover. */
  lemma ScopeAgain(rows: map<string, Task>, keys: set<string>, now: string)
    ensures ScopeOf(ResetTasks(rows, keys, now), keys).taskIds == ScopeOf(rows, keys).taskIds
    ensures ScopeOf(ResetTasks(rows, keys, now), keys).agents <= ScopeOf(rows, keys).agents
  {
    var after := ResetTasks(rows, keys, now);
    forall id | id in rows
      ensures Selected(after[id], keys) == Selected(rows[id], keys) && AgentsOf(after[id]) <= AgentsOf(rows[id])
    {
      AgentsShrink(rows[id], keys, now);
    }
    assert ScopeOf(after, keys).taskIds == ScopeOf(rows, keys).taskIds;
    forall a | a in ScopeOf(after, keys).agents ensures a in ScopeOf(rows, keys).agents {
      var id :| id in after && Selected(after[id], keys) && a in AgentsOf(after[id]);
      assert id in rows && a in AgentsOf(rows[id]);
    }
  }

  ghost predicate SameTasks(a: map<string, Task>, b: map<string, Task>) {
    a.Keys == b.Keys && forall id :: id in a ==> b[id] == a[id].(updatedAt := b[id].updatedAt)
  }

  ghost predicate SameWakeups(a: map<string, Wakeup>, b: map<string, Wakeup>) {
    a.Keys == b.Keys && forall id :: id in a ==> b[id] == a[id].(updatedAt := b[id].updatedAt)
  }

  ghost predicate SameExecutions(a: map<string, Execution>, b: map<string, Execution>) {
    a.Keys == b.Keys && forall id :: id in a ==> b[id] == a[id].(updatedAt := b[id].updatedAt)
  }

  ghost predicate SameSessions(a: map<string, Session>, b: map<string, Session>) {
    a.Keys == b.Keys && forall id :: id in a ==> b[id] == a[id].(updatedAt := b[id].updatedAt)
  }

  /** The tables differ in `updated_at` at most. */
  ghost predicate SameButStamps(a: Tables, b: Tables) {
    && SameTasks(a.tasks, b.tasks) && a.approvals == b.approvals && SameWakeups(a.wakeups, b.wakeups)
    && a.heartbeats == b.heartbeats && SameExecutions(a.executions, b.executions)
    && SameSessions(a.sessions, b.sessions) && a.workers == b.workers
  }

  lemma TasksTwice(rows: map<string, Task>, keys: set<string>, first: string, second: string)
    ensures var once := ResetTasks(rows, keys, first); SameTasks(once, ResetTasks(once, keys, second))
  {}

  lemma WakeupsTwice(rows: map<string, Wakeup>, s: Scope, t: Scope, first: string, second: string)
    requires t.taskIds == s.taskIds && t.agents <= s.agents
    ensures var once := ResetWakeups(rows, s, first); SameWakeups(once, ResetWakeups(once, t, second))
  {
    var once := ResetWakeups(rows, s, first);
    forall id | id in rows
      ensures var again := ResetWakeup(once[id], t, second); again == once[id].(updatedAt := again.updatedAt) {}
  }

  lemma SettledTwice(db: Tables, s: Scope, t: Scope, first: string, second: string)
    requires t.taskIds == s.taskIds && t.agents <= s.agents
    ensures var once := ResetApprovals(db.approvals, s, first); ResetApprovals(once, t, second) == once
    ensures var once := ResetHeartbeats(db.heartbeats, s, first); ResetHeartbeats(once, t, second) == once
    ensures var once := ResetWorkers(db.workers, s, first); ResetWorkers(once, t, second) == once
  {}

  /** A second reset, at any later time, changes nothing but `updated_at`. */
  lemma {:induction false} SecondResetOnlyStamps(db: Tables, keys: set<string>, first: string, second: string)
    ensures var once := Reset(db, keys, first); SameButStamps(once, Reset(once, keys, second))
  {
    if keys != {} {
      var s, t := ScopeOf(db.tasks, keys), ScopeOf(ResetTasks(db.tasks, keys, first), keys);
      ScopeAgain(db.tasks, keys, first);
      TasksTwice(db.tasks, keys, first, second);
      WakeupsTwice(db.wakeups, s, t, first, second);
      SettledTwice(db, s, t, first, second);
    }
  }

  /** Rows that have nothing to do with the selection are unchanged, and a run that had already ended
      keeps its status and completion time. */
  lemma UnrelatedKept(db: Tables, keys: set<string>, now: string)
    ensures var after, s := Reset(db, keys, now), ScopeOf(db.tasks, keys);
            && (forall id :: id in db.tasks && !Selected(db.tasks[id], keys) ==> after.tasks[id] == db.tasks[id])
            && (forall id :: id in db.approvals && !InScope(db.approvals[id].taskId, s.taskIds) ==>
                after.approvals[id] == db.approvals[id])
            && (forall id ::
                  (id in db.wakeups && !NamesTask(db.wakeups[id], s.taskIds) && db.wakeups[id].agentId !in s.agents) ==>
                  after.wakeups[id] == db.wakeups[id])
            && (forall id :: id in db.heartbeats && !Beats(db.heartbeats[id], s) ==>
                after.heartbeats[id] == db.heartbeats[id])
            && (forall id :: id in db.executions && !InScope(db.executions[id].taskId, s.taskIds) ==>
                after.executions[id] == db.executions[id])
            && (forall id :: id in db.executions && !Unfinished(db.executions[id]) ==>
                  after.executions[id].status == db.executions[id].status
                  && after.executions[id].completedAt == db.executions[id].completedAt)
            && (forall id :: id in db.sessions && db.sessions[id].taskKey !in s.keys ==>
                after.sessions[id] == db.sessions[id])
            && (forall id :: id in db.workers && !InScope(db.workers[id].currentTask, s.taskIds) ==>
                after.workers[id] == db.workers[id])
  {
    if keys != {} {
      var s := ScopeOf(db.tasks, keys);
      forall id | id in db.wakeups && !NamesTask(db.wakeups[id], s.taskIds) && db.wakeups[id].agentId !in s.agents
        ensures ResetWakeup(db.wakeups[id], s, now) == db.wakeups[id] {}
    }
  }

  // ---- what the rows of the selection become, column by column

  lemma ApprovalColumns(db: Tables, keys: set<string>, now: string, id: string)
    requires keys != {} && id in db.approvals
    ensures var was, row := db.approvals[id], Reset(db, keys, now).approvals[id];
            row.taskId == was.taskId
            && (if was.taskId.Some? && was.taskId.value in ScopeOf(db.tasks, keys).taskIds
                   && (was.status == "pending" || was.status == "revision_requested")
                then row.status == "cancelled" && row.updatedAt == now
                     && row.note == (if was.note.Some? then was.note else Some("benchmark replay reset"))
                     && row.decidedAt == (if was.decidedAt.Some? then was.decidedAt else Some(now))
                else row == was)
  {}

  /** Which wakeups name a selected task: by payload, or by an idempotency key that holds its id. */
  lemma NamesTaskExactly(w: Wakeup, ids: set<string>)
    requires forall id :: id in ids ==> NoWildcard(id)
    ensures NamesTask(w, ids) <==>
              exists id :: id in ids
                && (w.payloadTask == Some(id) || (w.idempotencyKey.Some? && Holds(w.idempotencyKey.value, id)))
  {
    if w.idempotencyKey.Some? {
      forall id | id in ids
        ensures Like(w.idempotencyKey.value, "%" + id + "%") <==> Holds(w.idempotencyKey.value, id)
      {
        LikeHolds(w.idempotencyKey.value, id);
      }
    }
  }

  /** A wakeup is of the selection when its payload names a selected task or its key holds the id of one, and, while it
      waits, also when it is of an agent of the selection. */
  lemma WakeupColumns(db: Tables, keys: set<string>, now: string, id: string)
    requires keys != {} && id in db.wakeups
    ensures var was, row, s := db.wakeups[id], Reset(db, keys, now).wakeups[id], ScopeOf(db.tasks, keys);
            var waits := was.status == "queued" || was.status == "claimed";
            && row.agentId == was.agentId && row.payloadTask == was.payloadTask
            && (if waits && (NamesTask(was, s.taskIds) || was.agentId in s.agents)
                then row.status == "failed" && row.idempotencyKey == None && row.updatedAt == now
                     && row.finishedAt == (if was.finishedAt.Some? then was.finishedAt else Some(now))
                else if NamesTask(was, s.taskIds)
                then row.status == was.status && row.finishedAt == was.finishedAt && row.idempotencyKey == None
                     && row.updatedAt == now
                else row == was)
  {}

  lemma HeartbeatColumns(db: Tables, keys: set<string>, now: string, id: string)
    requires keys != {} && id in db.heartbeats
    ensures var was, row, s := db.heartbeats[id], Reset(db, keys, now).heartbeats[id], ScopeOf(db.tasks, keys);
            && row.agentId == was.agentId && row.contextTask == was.contextTask
            && (if (was.status == "queued" || was.status == "running" || was.status == "failed")
                   && (was.agentId in s.agents || (was.contextTask.Some? && was.contextTask.value in s.taskIds))
                then row.status == "cancelled" && row.updatedAt == now
                     && row.finishedAt == (if was.finishedAt.Some? then was.finishedAt else Some(now))
                     && row.error == (if was.error.Some? then was.error else Some("benchmark replay reset"))
                else row == was)
  {}

  lemma ExecutionColumns(db: Tables, keys: set<string>, now: string, id: string)
    requires keys != {} && id in db.executions
    ensures var was, row := db.executions[id], Reset(db, keys, now).executions[id];
            var unfinished := was.status == "pending" || was.status == "running";
            row.taskId == was.taskId
            && (if was.taskId.Some? && was.taskId.value in ScopeOf(db.tasks, keys).taskIds
                then row.idempotencyKey == None && row.pid == None && row.updatedAt == now
                     && (if unfinished
                         then row.status == "cancelled"
                              && row.completedAt == (if was.completedAt.Some? then was.completedAt else Some(now))
                         else row.status == was.status && row.completedAt == was.completedAt)
                else row == was)
  {}

  lemma SessionColumns(db: Tables, keys: set<string>, now: string, id: string)
    requires keys != {} && id in db.sessions
    ensures var was, row := db.sessions[id], Reset(db, keys, now).sessions[id];
            row.taskKey == was.taskKey
            && (if was.taskKey in ScopeOf(db.tasks, keys).keys
                then row.params == "{}" && row.displayId == None && row.lastRunId == None && row.lastError == None
                     && row.updatedAt == now
                else row == was)
  {}

  lemma WorkerColumns(db: Tables, keys: set<string>, now: string, id: string)
    requires keys != {} && id in db.workers
    ensures var was, row := db.workers[id], Reset(db, keys, now).workers[id];
            if was.currentTask.Some? && was.currentTask.value in ScopeOf(db.tasks, keys).taskIds
            then row.currentTask == None && row.updatedAt == now
            else row == was
  {}

  lemma TaskColumns(db: Tables, keys: set<string>, now: string, id: string)
    requires id in db.tasks
    ensures var was, row := db.tasks[id], Reset(db, keys, now).tasks[id];
            var handed := was.eligible != [] && was.eligible[0] != "" && was.assignee != Some(was.eligible[0]);
            if was.taskKey.Some? && was.taskKey.value in keys
            then
              && row.status == "to-do" && row.startedAt == None && row.completedAt == None && row.sessionId == None
              && row.noopWakes == 0 && row.blockedReason == None && row.updatedAt == now
              && row.taskKey == was.taskKey && row.sprintId == was.sprintId && row.eligible == was.eligible
              && row.assignee == (if handed then Some(was.eligible[0]) else was.assignee)
              && row.assignedAt == (if handed && was.assignedAt.None? then Some(now) else was.assignedAt)
            else row == was
  {}

  predicate MayRun(t: Task, agent: string) { (t.assignee == Some(agent) && agent != "") || agent in t.eligible }

  /** The selection: the tasks whose key is asked for, their keys, and the agents they are assigned to or may be. */
  lemma ScopeHolds(tasks: map<string, Task>, keys: set<string>, x: string)
    ensures var s := ScopeOf(tasks, keys);
            && (x in s.taskIds <==> x in tasks && tasks[x].taskKey.Some? && tasks[x].taskKey.value in keys)
            && (x in s.keys <==> x in keys && exists id :: id in tasks && tasks[id].taskKey == Some(x))
            && (x in s.agents <==> exists id :: id in s.taskIds && MayRun(tasks[id], x))
  {
    var s := ScopeOf(tasks, keys);
    if x in keys && exists id :: id in tasks && tasks[id].taskKey == Some(x) {
      var id :| id in tasks && tasks[id].taskKey == Some(x);
      assert Selected(tasks[id], keys);
    }
    if x in s.agents {
      var id :| id in tasks && Selected(tasks[id], keys) && x in AgentsOf(tasks[id]);
      assert id in s.taskIds;
    }
    if id :| id in s.taskIds && MayRun(tasks[id], x) {
      assert x in AgentsOf(tasks[id]);
    }
  }

  // ---- from the goal to the reset

  /** `fixtureTaskKeys`: a task without a key is listed under its id. */
  function FixtureKeys(tasks: map<string, Task>, sprints: set<string>): set<string> {
    set id | id in tasks && tasks[id].sprintId in sprints ::
      if tasks[id].taskKey.Some? then tasks[id].taskKey.value else id
  }

  /** Selecting a whole goal resets a task of it exactly when the task has a key: the id that stands in for
      a missing key never matches the `task_key` column. */
  lemma GoalResetExactly(db: Tables, sprints: set<string>, id: string, now: string)
    requires id in db.tasks && db.tasks[id].sprintId in sprints
    requires db.tasks[id].status != "to-do"
    ensures var after := Reset(db, FixtureKeys(db.tasks, sprints), now);
            after.tasks[id].status == "to-do" <==> db.tasks[id].taskKey.Some?
  {
    var keys := FixtureKeys(db.tasks, sprints);
    assert (if db.tasks[id].taskKey.Some? then db.tasks[id].taskKey.value else id) in keys;
  }
}
