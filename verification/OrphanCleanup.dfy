/** The execution-run cleanup: cancels taskless and leaked runs and writes the statements that undo it. */
module OrphanCleanup {
  import opened Text

  const ANCHOR_PROJECT := "system-execution-run-cleanup-project"
  const ANCHOR_TASK := "system-execution-run-cleanup-task"

  predicate Inactive(status: string) {
    status == "done" || status == "cancelled" || status == "blocked" || status == "backlog" || status == "to-do"
  }

  datatype Execution = Execution(
    taskId: Option<string>, status: string, completedAt: Option<string>, error: Option<string>,
    failureClass: Option<string>, pid: Option<int>, updatedAt: string, createdAt: string)

  datatype Task = Task(projectId: string, status: string, companyId: Option<string>, createdAt: string)

  datatype Project = Project(status: string, companyId: Option<string>, createdAt: string)

  datatype Tables = Tables(
    executions: map<string, Execution>, tasks: map<string, Task>, projects: map<string, Project>)

  /** The statements of the reverse script; `RestoreRun` also sets `task_id = NULL` for a taskless run. */
  datatype Statement =
    | DeleteProject(id: string)
    | DeleteTask(id: string)
    | RestoreRun(id: string, taskless: bool, saved: Execution)

  /** One statement, with foreign keys not enforced. An update of a missing row does nothing. */
  function Execute(db: Tables, st: Statement): Tables {
    match st
    case DeleteProject(id) => db.(projects := db.projects - {id})
    case DeleteTask(id) => db.(tasks := db.tasks - {id})
    case RestoreRun(id, taskless, saved) =>
      if id !in db.executions then db
      else
        var e := db.executions[id];
        db.(executions := db.executions[id := e.(
          taskId := if taskless then None else e.taskId, status := saved.status, completedAt := saved.completedAt,
          error := saved.error, failureClass := saved.failureClass, pid := saved.pid, updatedAt := saved.updatedAt)])
  }

  function Replay(db: Tables, script: seq<Statement>): Tables
    decreases |script|
  {
    if script == [] then db else Replay(Execute(db, script[0]), script[1..])
  }

  function Coalesce(value: Option<string>, fallback: string): Option<string> {
    if value.Some? then value else Some(fallback)
  }

  function Cancelled(e: Execution, why: string, now: string): Execution {
    e.(status := "cancelled", completedAt := Coalesce(e.completedAt, now), error := Coalesce(e.error, why),
       failureClass := Coalesce(e.failureClass, "cancelled"), pid := None, updatedAt := now)
  }

  const NO_TASK := "Cancelled: cleanup-orphan missing task_id"
  const IDLE_TASK := "Cancelled: cleanup-stale-leak inactive task"

  /** What both loops do to a row; a taskless run also gets the anchor task. */
  function Cancel(e: Execution, taskless: bool, now: string): Execution {
    if taskless then Cancelled(e, NO_TASK, now).(taskId := Some(ANCHOR_TASK)) else Cancelled(e, IDLE_TASK, now)
  }

  function CancelIn(
    rows: map<string, Execution>, ids: set<string>, taskless: bool, now: string
  ): map<string, Execution> {
    map id | id in rows :: if id in ids then Cancel(rows[id], taskless, now) else rows[id]
  }

  predicate Orphan(e: Execution) { e.taskId.None? }

  /** Running on a task that exists and is inactive: the inner join. */
  predicate Leaked(e: Execution, tasks: map<string, Task>) {
    e.status == "running" && e.taskId.Some? && e.taskId.value in tasks && Inactive(tasks[e.taskId.value].status)
  }

  predicate HasOrphans(db: Tables) {
    exists id :: id in db.executions && Orphan(db.executions[id])
  }

  function Cleaned(e: Execution, tasks: map<string, Task>, now: string): Execution {
    if Orphan(e) then Cancel(e, true, now) else if Leaked(e, tasks) then Cancel(e, false, now) else e
  }

  function Anchored(db: Tables, company: Option<string>, now: string): Tables {
    var projects := if ANCHOR_PROJECT in db.projects then db.projects
                    else db.projects[ANCHOR_PROJECT := Project("archived", company, now)];
    var tasks := if ANCHOR_TASK in db.tasks then db.tasks
                 else db.tasks[ANCHOR_TASK := Task(ANCHOR_PROJECT, "backlog", projects[ANCHOR_PROJECT].companyId, now)];
    Tables(db.executions, tasks, projects)
  }

  /** The tables after an apply. Both kinds of run are picked before the anchor is made. */
  function Applied(db: Tables, company: Option<string>, now: string): Tables {
    var anchored := if HasOrphans(db) then Anchored(db, company, now) else db;
    anchored.(executions := map id | id in db.executions :: Cleaned(db.executions[id], db.tasks, now))
  }

  class Cleanup {
    var executions: map<string, Execution>
    var tasks: map<string, Task>
    var projects: map<string, Project>
    var reverse: seq<Statement>

    ghost function View(): Tables
      reads this
    {
      Tables(executions, tasks, projects)
    }

    constructor (db: Tables)
      ensures View() == db && reverse == []
    {
      executions, tasks, projects, reverse := db.executions, db.tasks, db.projects, [];
    }

    method EnsureAnchorTask(company: Option<string>, now: string)
      requires reverse == []
      modifies this
      ensures View() == Anchored(old(View()), company, now)
      ensures Replay(View(), reverse) == old(View())
      ensures forall st :: st in reverse ==> !st.RestoreRun?
    {
      if ANCHOR_PROJECT !in projects {
        reverse := reverse + [DeleteProject(ANCHOR_PROJECT)];
        projects := projects[ANCHOR_PROJECT := Project("archived", company, now)];
      }
      ghost var mid := View();
      if ANCHOR_TASK !in tasks {
        reverse := reverse + [DeleteTask(ANCHOR_TASK)];
        tasks := tasks[ANCHOR_TASK := Task(ANCHOR_PROJECT, "backlog", projects[ANCHOR_PROJECT].companyId, now)];
      }
      AnchorUndone(old(View()), View(), reverse);
    }

    /** One row of either loop: save the old values, then cancel. */
    method CancelRun(id: string, taskless: bool, now: string)
      requires id in executions && !Touches(reverse, id) && taskless == executions[id].taskId.None?
      modifies this`executions, this`reverse
      ensures executions == old(executions)[id := Cancel(old(executions)[id], taskless, now)]
      ensures reverse == old(reverse) + [RestoreRun(id, taskless, old(executions)[id])]
      ensures Replay(View(), reverse) == Replay(old(View()), old(reverse))
    {
      ghost var before, script := View(), reverse;
      var e := executions[id];
      reverse := reverse + [RestoreRun(id, taskless, e)];
      executions := executions[id := Cancel(e, taskless, now)];
      RestoreUndoes(before, script, id, taskless, executions[id]);
    }

    method CancelAll(ids: set<string>, taskless: bool, now: string)
      requires ids <= executions.Keys && forall id :: id in ids ==> !Touches(reverse, id)
      requires forall id :: id in ids ==> taskless == executions[id].taskId.None?
      modifies this`executions, this`reverse
      ensures executions == CancelIn(old(executions), ids, taskless, now)
      ensures Replay(View(), reverse) == Replay(old(View()), old(reverse))
      ensures forall id :: Touches(reverse, id) ==> Touches(old(reverse), id) || id in ids
    {
      var todo := ids;
      while todo != {}
        invariant todo <= ids
        invariant executions == CancelIn(old(executions), ids - todo, taskless, now)
        invariant Replay(View(), reverse) == Replay(old(View()), old(reverse))
        invariant forall id :: Touches(reverse, id) ==> Touches(old(reverse), id) || id in ids - todo
        decreases todo
      {
        var id :| id in todo;
        CancelRun(id, taskless, now);
        todo := todo - {id};
      }
    }

    /** The transaction of an apply: replaying what it wrote restores the tables exactly. */
    method Apply(company: Option<string>, now: string)
      requires reverse == []
      modifies this
      ensures View() == Applied(old(View()), company, now)
      ensures Replay(View(), reverse) == old(View())
    {
      ghost var before := View();
      var orphans := set id | id in executions && Orphan(executions[id]);
      var leaked := set id | id in executions && Leaked(executions[id], tasks);
      if orphans != {} {
        EnsureAnchorTask(company, now);
      }
      CancelAll(orphans, true, now);
      CancelAll(leaked, false, now);
      assert HasOrphans(before) <==> orphans != {};
      CleanedInTwo(before, orphans, leaked, now);
    }
  }

  predicate Touches(script: seq<Statement>, id: string) {
    exists st :: st in script && st.RestoreRun? && st.id == id
  }

  lemma AnchorUndone(before: Tables, after: Tables, script: seq<Statement>)
    requires script == (if after.projects == before.projects then [] else [DeleteProject(ANCHOR_PROJECT)])
                       + (if after.tasks == before.tasks then [] else [DeleteTask(ANCHOR_TASK)])
    requires after.executions == before.executions
    requires after.projects != before.projects ==>
        ANCHOR_PROJECT !in before.projects && after.projects - {ANCHOR_PROJECT} == before.projects
    requires after.tasks != before.tasks ==> ANCHOR_TASK !in before.tasks && after.tasks - {ANCHOR_TASK} == before.tasks
    ensures Replay(after, script) == before
  {
    var tail := if after.tasks == before.tasks then [] else [DeleteTask(ANCHOR_TASK)];
    assert [DeleteTask(ANCHOR_TASK)][1..] == [];
    if after.projects == before.projects {
      assert script == tail;
    } else {
      assert script == [DeleteProject(ANCHOR_PROJECT)] + tail;
      assert script[1..] == tail;
      assert Replay(after, script) == Replay(after.(projects := before.projects), tail);
    }
  }

  lemma CleanedInTwo(db: Tables, orphans: set<string>, leaked: set<string>, now: string)
    requires orphans == set id | id in db.executions && Orphan(db.executions[id])
    requires leaked == set id | id in db.executions && Leaked(db.executions[id], db.tasks)
    ensures CancelIn(CancelIn(db.executions, orphans, true, now), leaked, false, now)
            == map id | id in db.executions :: Cleaned(db.executions[id], db.tasks, now)
  {}

  lemma {:induction false} ReplayAppend(db: Tables, script: seq<Statement>, st: Statement)
    ensures Replay(db, script + [st]) == Execute(Replay(db, script), st)
    decreases |script|
  {
    if script == [] {
      assert script + [st] == [st] && [st][1..] == [];
    } else {
      assert (script + [st])[1..] == script[1..] + [st];
      ReplayAppend(Execute(db, script[0]), script[1..], st);
    }
  }

  /** A script that does not touch a run replays the same around any value of that run. */
  lemma {:induction false} ReplayAround(db: Tables, script: seq<Statement>, id: string, e: Execution)
    requires id in db.executions && !Touches(script, id)
    ensures var end := Replay(db, script);
            && id in end.executions && end.executions[id] == db.executions[id]
            && Replay(db.(executions := db.executions[id := e]), script) == end.(executions := end.executions[id := e])
    decreases |script|
  {
    if script != [] {
      var st := script[0];
      assert st in script && forall t :: t in script[1..] ==> t in script;
      assert !Touches(script[1..], id);
      var next := Execute(db, st);
      var changed := db.(executions := db.executions[id := e]);
      assert Execute(changed, st).executions == next.executions[id := e];
      ReplayAround(next, script[1..], id, e);
    }
  }

  /** Cancelling a run and appending its restore statement leaves the replayed tables as they were. */
  lemma RestoreUndoes(db: Tables, script: seq<Statement>, id: string, taskless: bool, now: Execution)
    requires id in db.executions && !Touches(script, id)
    requires var was := db.executions[id];
             && taskless == was.taskId.None? && now.createdAt == was.createdAt
             && (!taskless ==> now.taskId == was.taskId)
    ensures Replay(db.(executions := db.executions[id := now]), script + [RestoreRun(id, taskless, db.executions[id])])
            == Replay(db, script)
  {
    var was := db.executions[id];
    var st := RestoreRun(id, taskless, was);
    var changed := db.(executions := db.executions[id := now]);
    ReplayAround(db, script, id, now);
    ReplayAppend(changed, script, st);
    var end := Replay(db, script);
    assert end.executions[id := now][id := was] == end.executions;
  }

  // ---- what an apply achieves

  ghost predicate HasLeaked(db: Tables) {
    exists id :: id in db.executions && Leaked(db.executions[id], db.tasks)
  }

  /** A running run already names the anchor task while that task does not exist. */
  ghost predicate DanglingOnAnchor(db: Tables) {
    && ANCHOR_TASK !in db.tasks
    && exists id :: id in db.executions && db.executions[id].status == "running"
        && db.executions[id].taskId == Some(ANCHOR_TASK)
  }

  /** An apply touches taskless and leaked runs only: each of them ends cancelled and dated, without a process, keeping
      the completion time, error and failure class it had; existing tasks and projects stay. */
  lemma OthersKept(db: Tables, company: Option<string>, now: string, id: string)
    requires id in db.executions
    ensures var e, x, after := db.executions[id], Applied(db, company, now).executions, Applied(db, company, now);
            && x.Keys == db.executions.Keys && db.tasks.Keys <= after.tasks.Keys
            && db.projects.Keys <= after.projects.Keys
            && (forall t :: t in db.tasks ==> after.tasks[t] == db.tasks[t])
            && (forall p :: p in db.projects ==> after.projects[p] == db.projects[p])
            && (if Orphan(e) || Leaked(e, db.tasks)
                then x[id].status == "cancelled" && x[id].completedAt.Some? && x[id].pid == None
                     && (e.completedAt.Some? ==> x[id].completedAt == e.completedAt)
                     && (e.error.Some? ==> x[id].error == e.error)
                     && (e.failureClass.Some? ==> x[id].failureClass == e.failureClass)
                     && x[id].taskId == (if Orphan(e) then Some(ANCHOR_TASK) else e.taskId)
                else x[id] == e)
  {}

  /** What an apply does to every run, told from the row alone. A run without a task is cancelled and given the anchor
      task. A run with a task is changed if and only if it is running and its task exists with one of five statuses;
      it is then cancelled and keeps its task. */
  lemma RunColumns(db: Tables, company: Option<string>, now: string, id: string)
    requires id in db.executions
    ensures var was, row := db.executions[id], Applied(db, company, now).executions[id];
            match was.taskId
            case None =>
              && StoppedAs(was, row, "Cancelled: cleanup-orphan missing task_id", now)
              && row.taskId == Some("system-execution-run-cleanup-task")
            case Some(t) =>
              && (row != was <==>
                    was.status == "running" && t in db.tasks
                    && (db.tasks[t].status == "done" || db.tasks[t].status == "cancelled"
                        || db.tasks[t].status == "blocked" || db.tasks[t].status == "backlog"
                        || db.tasks[t].status == "to-do"))
              && (row == was || StoppedAs(was, row, "Cancelled: cleanup-stale-leak inactive task", now))
              && row.taskId == Some(t)
  {}

  /** Cancelled, without a process, and dated, explained and classed where it was not yet. */
  predicate StoppedAs(was: Execution, row: Execution, why: string, now: string) {
    && row.status == "cancelled" && row.pid == None && row.updatedAt == now && row.createdAt == was.createdAt
    && (if was.completedAt.Some? then row.completedAt == was.completedAt else row.completedAt == Some(now))
    && (if was.error.Some? then row.error == was.error else row.error == Some(why))
    && (if was.failureClass.Some? then row.failureClass == was.failureClass else row.failureClass == Some("cancelled"))
  }

  /** The anchor rows that an apply adds, and that it adds no others. */
  lemma AnchorRows(db: Tables, company: Option<string>, now: string)
    ensures var after := Applied(db, company, now);
            var project, task := "system-execution-run-cleanup-project", "system-execution-run-cleanup-task";
            var taskless := exists id :: id in db.executions && db.executions[id].taskId == None;
            && after.projects.Keys == db.projects.Keys + (if taskless then {project} else {})
            && after.tasks.Keys == db.tasks.Keys + (if taskless then {task} else {})
            && (taskless && project !in db.projects ==> after.projects[project] == Project("archived", company, now))
            && (taskless && task !in db.tasks ==>
                  && after.tasks[task].projectId == project && after.tasks[task].status == "backlog"
                  && after.tasks[task].companyId == after.projects[project].companyId)
  {
    assert HasOrphans(db) <==> exists id :: id in db.executions && db.executions[id].taskId == None;
  }

  lemma OrphansGone(db: Tables, company: Option<string>, now: string)
    ensures !HasOrphans(Applied(db, company, now))
  {}

  /** A running run on an inactive task is left exactly when the anchor was created under a run that named it. */
  lemma LeakedLeftExactly(db: Tables, company: Option<string>, now: string)
    ensures HasLeaked(Applied(db, company, now)) <==> HasOrphans(db) && DanglingOnAnchor(db)
  {
    var after := Applied(db, company, now);
    if HasLeaked(after) {
      var id :| id in after.executions && Leaked(after.executions[id], after.tasks);
      assert db.executions[id] == after.executions[id];
    }
    if HasOrphans(db) && DanglingOnAnchor(db) {
      var id :| id in db.executions && db.executions[id].status == "running"
          && db.executions[id].taskId == Some(ANCHOR_TASK);
      assert Leaked(after.executions[id], after.tasks);
    }
  }

  /** Every task id of a run names a task: what the foreign keys enforce. */
  ghost predicate References(db: Tables) {
    forall id :: id in db.executions && db.executions[id].taskId.Some? ==> db.executions[id].taskId.value in db.tasks
  }

  /** With foreign keys intact, one apply leaves no taskless and no leaked run. */
  lemma CleanAfterApply(db: Tables, company: Option<string>, now: string)
    requires References(db)
    ensures var after := Applied(db, company, now); !HasOrphans(after) && !HasLeaked(after) && References(after)
  {
    LeakedLeftExactly(db, company, now);
  }

  /** A second apply changes nothing exactly when the first left no leaked run. */
  lemma SecondApplyExactly(db: Tables, company: Option<string>, first: string, second: string)
    ensures var once := Applied(db, company, first);
            Applied(once, company, second) == once <==> !HasLeaked(once)
  {
    var once := Applied(db, company, first);
    var twice := Applied(once, company, second);
    OrphansGone(db, company, first);
    if HasLeaked(once) {
      var id :| id in once.executions && Leaked(once.executions[id], once.tasks);
      assert twice.executions[id].status == "cancelled";
    } else {
      forall id | id in once.executions ensures twice.executions[id] == once.executions[id] {}
      assert twice.executions == once.executions;
    }
  }

  // ---- the text of a saved value

  /** `sqlString`: quotes are doubled. */
  function Escape(v: string): string {
    if v == "" then "" else (if v[0] == '\'' then "\'\'" else [v[0]]) + Escape(v[1..])
  }

  function SqlString(v: Option<string>): string {
    if v.None? then "NULL" else "\'" + Escape(v.value) + "\'"
  }

  /** How SQL reads a quoted text after its opening quote: its value and what follows. */
  function ReadQuoted(s: string): Option<(string, string)> {
    if s == "" then None
    else if s[0] != '\'' then Prepend(s[0], ReadQuoted(s[1..]))
    else if |s| > 1 && s[1] == '\'' then Prepend('\'', ReadQuoted(s[2..]))
    else Some(("", s[1..]))
  }

  function Prepend(c: char, r: Option<(string, string)>): Option<(string, string)> {
    if r.None? then None else Some(([c] + r.value.0, r.value.1))
  }

  function ReadLiteral(s: string): Option<(Option<string>, string)> {
    if StartsWith(s, "NULL") then Some((None, s[4..]))
    else if s == "" || s[0] != '\'' then None
    else
      var r := ReadQuoted(s[1..]);
      if r.None? then None else Some((Some(r.value.0), r.value.1))
  }

  lemma {:induction false} ReadEscaped(v: string, rest: string)
    requires !StartsWith(rest, "\'")
    ensures ReadQuoted(Escape(v) + "\'" + rest) == Some((v, rest))
  {
    var s := Escape(v) + "\'" + rest;
    if v == "" {
      assert s[1..] == rest;
      assert rest != "" ==> rest[..1] == [rest[0]];
    } else {
      var tail := Escape(v[1..]) + "\'" + rest;
      ReadEscaped(v[1..], rest);
      if v[0] == '\'' {
        assert s == "\'\'" + tail && s[2..] == tail;
      } else {
        assert s == [v[0]] + tail && s[1..] == tail;
      }
      assert [v[0]] + v[1..] == v;
    }
  }

  /** Whatever a saved column holds, quotes included, the reverse script reads back that value and stops there. */
  lemma LiteralReadsBack(v: Option<string>, rest: string)
    requires !StartsWith(rest, "\'")
    ensures ReadLiteral(SqlString(v) + rest) == Some((v, rest))
  {
    if v.Some? {
      var s := SqlString(v) + rest;
      assert s == "\'" + (Escape(v.value) + "\'" + rest);
      assert s[1..] == Escape(v.value) + "\'" + rest;
      ReadEscaped(v.value, rest);
      assert !StartsWith(s, "NULL") by { if |s| >= 4 { assert s[..4][0] == s[0]; } }
    } else {
      assert (SqlString(v) + rest)[..4] == "NULL" && (SqlString(v) + rest)[4..] == rest;
    }
  }
}
