/**
 The task scheduler: the `scheduled_tasks` rows and the dispatches that are alive in the
 process.

 Timer polls, wake polls, precise sleeps, handler runs, completions, crashes and start-up
 recovery interleave. Handlers, the cron library and the database answer as they like;
 a dispatch may also disappear (a panicking handler never reaches `mark_done`).
 One control plane is assumed, and no one else edits the rows.
 */
module Scheduler {
  import opened Options

  type Id = nat

  const I32_MAX: int := 0x7fff_ffff
  type I32 = n: int | -0x8000_0000 <= n <= 0x7fff_ffff

  /** `Once` stands for every trigger type other than cron and startup. */
  datatype Trigger = Once | Cron | Startup

  datatype Status = Pending | Running | Completed | Failed

  datatype Row = Row(
    trigger: Trigger,
    enabled: bool,
    seeded: bool,                  // the `protected` column
    cronExpr: Option<string>,
    expiresAt: Option<int>,
    maxAttempts: I32,
    status: Status,
    executeAt: Option<int>,
    attemptCount: I32,
    lockedAt: Option<int>)

  /** What the cron library says about an expression at a moment. */
  datatype CronAnswer = BadExpression | NoTick | NextTick(t: int)

  /** A spawned dispatch: the row as it was returned by the query, and how far it has come. */
  datatype Dispatch = Dispatch(task: Row, executing: bool)

  /** Dispatches are told apart by their row and by the poll that spawned them. */
  datatype Ticket = Ticket(id: Id, poll: nat)

  datatype State = State(
    now: int,
    up: bool,
    rows: map<Id, Row>,
    live: map<Ticket, Dispatch>,
    polls: nat)

  const LOOKAHEAD: int := 5
  const BATCH: nat := 20
  const BACKOFF: int := 30

  datatype Action =
    | Tick(seconds: nat)
    | Claim(ids: set<Id>, locked: set<Id>)                            // `fetch_and_run`, timer or wake
    | Start(t: Ticket)                                                // the sleep is over, the handler starts
    | Skip(t: Ticket, cron: CronAnswer, dbOk: bool)                   // the sleep is over, the deadline has passed
    | Finish(t: Ticket, ok: bool, cron: CronAnswer, dbOk: bool)       // the handler returned or timed out
    | Vanish(t: Ticket)                                               // the handler panicked
    | Crash
    | Recover(answers: map<Id, CronAnswer>)                           // `init_and_recover`

  // ---------------------------------------------------------------- completion

  function MaxAttempts(task: Row): I32 {
    if task.maxAttempts < 1 then 1 else task.maxAttempts
  }

  /** `is_expired`. */
  predicate Expired(task: Row, now: int) {
    task.expiresAt.Some? && task.expiresAt.value < now
  }

  /** The columns `mark_done` sets; `None` leaves the column alone. */
  datatype Patch = Patch(status: Option<Status>, executeAt: Option<int>, attemptCount: I32)

  function Failure(task: Row, now: int): Patch {
    var attempts := if task.attemptCount < I32_MAX then task.attemptCount + 1 else I32_MAX;
    if attempts < MaxAttempts(task) then Patch(Some(Pending), Some(now + BACKOFF * attempts), attempts)
    else Patch(Some(Failed), None, attempts)
  }

  function Success(task: Row, cron: CronAnswer): Patch {
    match task.trigger
    case Cron =>
      if task.cronExpr == None then Patch(None, None, 0)
      else (match cron
            case BadExpression => Patch(Some(Failed), None, 0)
            case NoTick => Patch(Some(Completed), None, 0)
            case NextTick(t) =>
              if task.expiresAt.Some? && task.expiresAt.value < t then Patch(Some(Completed), None, 0)
              else Patch(Some(Pending), Some(t), 0))
    case _ => Patch(Some(Completed), None, 0)
  }

  function Apply(row: Row, p: Patch): Row {
    row.(status := if p.status.Some? then p.status.value else row.status,
         executeAt := if p.executeAt.Some? then p.executeAt else row.executeAt,
         attemptCount := p.attemptCount,
         lockedAt := None)
  }

  function Done(row: Row, task: Row, ok: bool, cron: CronAnswer, now: int): Row {
    Apply(row, if ok then Success(task, cron) else Failure(task, now))
  }

  // ---------------------------------------------------------------- recovery

  function Unlocked(row: Row): Row {
    if row.status == Running then row.(status := Pending) else row
  }

  predicate Revivable(row: Row) {
    row.status == Failed && row.trigger == Cron && row.seeded && row.enabled
  }

  /** `recover_recurring_task`. */
  function Revived(row: Row, cron: CronAnswer): Row {
    if row.cronExpr.Some? && cron.NextTick? then
      row.(status := Pending, executeAt := Some(cron.t), attemptCount := 0, lockedAt := None)
    else row
  }

  function RecoveredRow(row: Row, cron: CronAnswer): Row {
    var unlocked := Unlocked(row);
    if Revivable(unlocked) then Revived(unlocked, cron) else unlocked
  }

  function AnswerFor(cron: map<Id, CronAnswer>, id: Id): CronAnswer {
    if id in cron then cron[id] else NoTick
  }

  function RecoveredRows(rows: map<Id, Row>, cron: map<Id, CronAnswer>): map<Id, Row> {
    map id | id in rows :: RecoveredRow(rows[id], AnswerFor(cron, id))
  }

  /** The recovery in progress: the rows in `todo` are unlocked and still wait to be revived. */
  function Recovering(rows: map<Id, Row>, cron: map<Id, CronAnswer>, todo: set<Id>): map<Id, Row> {
    map id | id in rows :: if id in todo then Unlocked(rows[id]) else RecoveredRow(rows[id], AnswerFor(cron, id))
  }

  lemma ReviveOne(rows: map<Id, Row>, cron: map<Id, CronAnswer>, todo: set<Id>, id: Id)
    requires id in todo && id in rows && Revivable(Unlocked(rows[id]))
    ensures Recovering(rows, cron, todo - {id}) ==
            Recovering(rows, cron, todo)[id := Revived(Unlocked(rows[id]), AnswerFor(cron, id))]
  {
  }

  // ---------------------------------------------------------------- steps

  predicate Due(row: Row, now: int) {
    row.status == Pending && row.enabled && row.executeAt.Some? && row.executeAt.value <= now + LOOKAHEAD
  }

  /**
   What the sub-query of a poll picks: the oldest due rows, up to the batch size, passing over the
   rows that another transaction has locked.
   */
  predicate Picked(rows: map<Id, Row>, now: int, locked: set<Id>, ids: set<Id>) {
    && |ids| <= BATCH && ids !! locked
    && (forall id :: id in ids ==> id in rows && Due(rows[id], now))
    && (forall id, x :: id in rows && id !in ids && id !in locked && Due(rows[id], now) && x in ids ==>
          rows[x].executeAt.value <= rows[id].executeAt.value)
    && (|ids| < BATCH ==> forall id :: id in rows && id !in ids && id !in locked ==> !Due(rows[id], now))
  }

  predicate Awake(d: Dispatch, now: int) {
    !d.executing && (d.task.executeAt.Some? ==> d.task.executeAt.value <= now)
  }

  /** The next tick of a cron expression lies in the future. */
  predicate Future(cron: CronAnswer, now: int) {
    cron.NextTick? ==> now < cron.t
  }

  predicate Ready(s: State, a: Action) {
    match a
    case Tick(_) => true
    case Claim(ids, locked) => s.up && Picked(s.rows, s.now, locked, ids)
    case Start(t) => t in s.live && Awake(s.live[t], s.now) && !Expired(s.live[t].task, s.now)
    case Skip(t, cron, _) => t in s.live && Awake(s.live[t], s.now) && Expired(s.live[t].task, s.now) && Future(cron, s.now) && t.id in s.rows
    case Finish(t, _, cron, _) => t in s.live && s.live[t].executing && Future(cron, s.now) && t.id in s.rows
    case Vanish(t) => t in s.live
    case Crash => s.up
    case Recover(cron) => !s.up && forall id :: id in cron ==> Future(cron[id], s.now)
  }

  function Claimed(row: Row, now: int): Row {
    row.(status := Running, lockedAt := Some(now))
  }

  function Next(s: State, a: Action): State
    requires Ready(s, a)
  {
    match a
    case Tick(d) => s.(now := s.now + d)
    case Claim(ids, _) =>
      var rows := ClaimedRows(s.rows, ids, s.now);
      s.(rows := rows, live := s.live + Spawned(rows, ids, s.polls), polls := s.polls + 1)
    case Start(t) => s.(live := s.live[t := Dispatch(s.live[t].task, true)])
    case Skip(t, cron, dbOk) => Settle(s, t, true, cron, dbOk)
    case Finish(t, ok, cron, dbOk) => Settle(s, t, ok, cron, dbOk)
    case Vanish(t) => s.(live := s.live - {t})
    case Crash => s.(up := false, live := map[])
    case Recover(cron) =>
      var rows := RecoveredRows(s.rows, cron);
      s.(up := true, rows := rows, live := Spawned(rows, StartupTasks(rows), s.polls), polls := s.polls + 1)
  }

  function ClaimedRows(rows: map<Id, Row>, ids: set<Id>, now: int): map<Id, Row> {
    map id | id in rows :: if id in ids then Claimed(rows[id], now) else rows[id]
  }

  /** The enabled start-up tasks; a disabled one is spawned too, but returns at once. */
  function StartupTasks(rows: map<Id, Row>): set<Id> {
    set id | id in rows && rows[id].trigger == Startup && rows[id].enabled
  }

  /** One dispatch per row, each holding its own copy of the row. */
  function Spawned(rows: map<Id, Row>, ids: set<Id>, poll: nat): (live: map<Ticket, Dispatch>)
    requires ids <= rows.Keys
    ensures forall t :: t in live <==> t.id in ids && t.poll == poll
    ensures forall t :: t in live ==> live[t] == Dispatch(rows[t.id], false)
  {
    var tickets := set id | id in ids :: Ticket(id, poll);
    map t | t in tickets :: Dispatch(rows[t.id], false)
  }

  /** `mark_done` and the end of the dispatch; if the update fails the row stays as it is. */
  function Settle(s: State, t: Ticket, ok: bool, cron: CronAnswer, dbOk: bool): State
    requires t in s.live && t.id in s.rows
  {
    var row := s.rows[t.id];
    s.(live := s.live - {t},
       rows := if dbOk then s.rows[t.id := Done(row, s.live[t].task, ok, cron, s.now)] else s.rows)
  }

  // ---------------------------------------------------------------- the program

  /** The row table and the dispatches of the process, updated in place. */
  class TaskScheduler {
    var now: int
    var up: bool
    var rows: map<Id, Row>
    var live: map<Ticket, Dispatch>
    var polls: nat

    function View(): State
      reads this
    {
      State(now, up, rows, live, polls)
    }

    /** The spawning loop of `fetch_and_run`. */
    static method SpawnAll(tasks: map<Id, Row>, ids: set<Id>, poll: nat) returns (spawned: map<Ticket, Dispatch>)
      requires ids <= tasks.Keys
      ensures spawned == Spawned(tasks, ids, poll)
    {
      spawned := map[];
      var done, todo := {}, ids;
      while todo != {}
        invariant done + todo == ids
        invariant spawned == Spawned(tasks, done, poll)
        decreases |todo|
      {
        var id :| id in todo;
        spawned := spawned[Ticket(id, poll) := Dispatch(tasks[id], false)];
        done, todo := done + {id}, todo - {id};
        assert spawned == Spawned(tasks, done, poll);
      }
      assert done == ids;
    }

    /** `fetch_and_run`: `ids` is what the locking sub-query picked; one dispatch is spawned per row. */
    method FetchAndRun(ids: set<Id>, ghost locked: set<Id>)
      requires Ready(View(), Claim(ids, locked))
      modifies this`rows, this`live, this`polls
      ensures View() == Next(old(View()), Claim(ids, locked))
    {
      rows := ClaimedRows(rows, ids, now);
      var spawned := SpawnAll(rows, ids, polls);
      live := live + spawned;
      polls := polls + 1;
    }

    /** `mark_done`: set the columns one after another on the snapshot, then try to update the row. */
    method MarkDone(t: Ticket, ok: bool, cron: CronAnswer, dbOk: bool)
      requires t in live && t.id in rows
      modifies this`rows, this`live
      ensures View() == Settle(old(View()), t, ok, cron, dbOk)
    {
      var task := live[t].task;
      var status: Option<Status> := None;
      var executeAt: Option<int> := None;
      var attempts: I32 := 0;
      if !ok {
        attempts := if task.attemptCount < I32_MAX then task.attemptCount + 1 else I32_MAX;
        if attempts < MaxAttempts(task) {
          status := Some(Pending);
          executeAt := Some(now + BACKOFF * attempts);
        } else {
          status := Some(Failed);
        }
      } else if task.trigger == Cron {
        if task.cronExpr.Some? {
          match cron
          case BadExpression => status := Some(Failed);
          case NoTick => status := Some(Completed);
          case NextTick(next) =>
            if task.expiresAt.Some? && next > task.expiresAt.value {
              status := Some(Completed);
            } else {
              executeAt := Some(next);
              status := Some(Pending);
            }
        }
      } else {
        status := Some(Completed);
      }
      if dbOk {
        rows := rows[t.id := Apply(rows[t.id], Patch(status, executeAt, attempts))];
      }
      live := live - {t};
    }

    /** `dispatch_with_precision` after its sleep: the deadline check, then the handler. */
    method EndOfSleep(t: Ticket, cron: CronAnswer, dbOk: bool)
      requires t in live && t.id in rows && Awake(live[t], now) && Future(cron, now)
      modifies this`rows, this`live
      ensures View() == Next(old(View()), if Expired(old(live)[t].task, now) then Skip(t, cron, dbOk) else Start(t))
    {
      if Expired(live[t].task, now) {
        MarkDone(t, true, cron, dbOk);
      } else {
        live := live[t := live[t].(executing := true)];
      }
    }

    /** The recovery of the rows: unlock, then revive the failed seeded cron tasks one by one. */
    static method RecoverRows(before: map<Id, Row>, answers: map<Id, CronAnswer>) returns (rows: map<Id, Row>)
      ensures rows == RecoveredRows(before, answers)
    {
      rows := map id | id in before :: Unlocked(before[id]);
      var todo := set id | id in rows && Revivable(rows[id]);
      while todo != {}
        invariant forall id :: id in todo ==> id in before && Revivable(Unlocked(before[id]))
        invariant rows == Recovering(before, answers, todo)
        decreases |todo|
      {
        var id :| id in todo;
        ReviveOne(before, answers, todo, id);
        rows := rows[id := Revived(rows[id], AnswerFor(answers, id))];
        todo := todo - {id};
      }
    }

    /** The recovery of `init_and_recover`: recover the rows, then spawn the start-up tasks. */
    method RecoverTasks(answers: map<Id, CronAnswer>)
      requires Ready(View(), Recover(answers))
      modifies this`rows, this`live, this`polls, this`up
      ensures View() == Next(old(View()), Recover(answers))
    {
      rows := RecoverRows(rows, answers);
      live := Spawned(rows, StartupTasks(rows), polls);
      polls := polls + 1;
      up := true;
    }

    /** `init_and_recover`: the recovery and a first poll, in which the database picks `ids`. */
    method InitAndRecover(answers: map<Id, CronAnswer>, ids: set<Id>, ghost locked: set<Id>)
      requires Ready(View(), Recover(answers)) && Ready(Next(View(), Recover(answers)), Claim(ids, locked))
      modifies this`rows, this`live, this`polls, this`up
      ensures View() == Next(Next(old(View()), Recover(answers)), Claim(ids, locked))
    {
      RecoverTasks(answers);
      FetchAndRun(ids, locked);
    }
  }

  // ---------------------------------------------------------------- runs

  /** The process starts down, on any table content. */
  predicate Initial(s: State) {
    !s.up && s.live == map[]
  }

  ghost predicate Step(ss: seq<State>, acts: seq<Action>, i: nat) {
    |ss| == |acts| + 1 && i < |acts| && Ready(ss[i], acts[i]) && ss[i + 1] == Next(ss[i], acts[i])
  }

  ghost predicate Run(ss: seq<State>, acts: seq<Action>) {
    && |ss| == |acts| + 1
    && Initial(ss[0])
    && forall i :: 0 <= i < |acts| ==> Step(ss, acts, i)
  }

  /** The columns no step ever writes. */
  predicate SameTask(a: Row, b: Row) {
    && a.trigger == b.trigger && a.enabled == b.enabled && a.seeded == b.seeded
    && a.cronExpr == b.cronExpr && a.expiresAt == b.expiresAt && a.maxAttempts == b.maxAttempts
  }

  /** A live dispatch and its row. Start-up dispatches are spawned without claiming their row. */
  ghost predicate Backed(s: State, t: Ticket) {
    t in s.live &&
    var d := s.live[t];
    && t.poll < s.polls && t.id in s.rows && SameTask(d.task, s.rows[t.id])
    && (d.executing && d.task.executeAt.Some? ==> d.task.executeAt.value <= s.now)
    && (d.task.trigger != Startup ==>
          && s.rows[t.id].status == Running
          && d.task.executeAt == s.rows[t.id].executeAt
          && d.task.attemptCount == s.rows[t.id].attemptCount)
  }

  ghost predicate Inv(s: State) {
    && (!s.up ==> s.live == map[])
    && (forall t :: t in s.live ==> Backed(s, t))
    && forall t, u :: t in s.live && u in s.live && t.id == u.id && s.live[t].task.trigger != Startup ==> t == u
  }

  lemma RowsStay(s: State, a: Action, id: Id)
    requires Ready(s, a)
    ensures id in Next(s, a).rows <==> id in s.rows
    ensures id in s.rows ==> SameTask(s.rows[id], Next(s, a).rows[id])
  {
  }

  lemma InvStep(s: State, a: Action)
    requires Inv(s) && Ready(s, a)
    ensures Inv(Next(s, a))
  {
    var s' := Next(s, a);
    forall t | t in s'.live ensures Backed(s', t) {
      if t in s.live {
        assert Backed(s, t);
        RowsStay(s, a, t.id);
      }
    }
  }

  lemma {:induction false} InvRun(ss: seq<State>, acts: seq<Action>, i: nat)
    requires Run(ss, acts) && i < |ss|
    ensures Inv(ss[i])
  {
    if i > 0 {
      InvRun(ss, acts, i - 1);
      assert Step(ss, acts, i - 1);
      InvStep(ss[i - 1], acts[i - 1]);
    }
  }

  lemma {:induction false} TaskStays(ss: seq<State>, acts: seq<Action>, id: Id, j: nat)
    requires Run(ss, acts) && j < |ss|
    ensures id in ss[0].rows <==> id in ss[j].rows
    ensures id in ss[0].rows ==> SameTask(ss[0].rows[id], ss[j].rows[id])
  {
    if j > 0 {
      TaskStays(ss, acts, id, j - 1);
      assert Step(ss, acts, j - 1);
      RowsStay(ss[j - 1], acts[j - 1], id);
    }
  }

  // ---------------------------------------------------------------- exclusive execution

  /** At any moment a once or cron task has at most one live dispatch. */
  lemma OneDispatchPerTask(ss: seq<State>, acts: seq<Action>, i: nat, t: Ticket, u: Ticket)
    requires Run(ss, acts) && i < |ss|
    requires t in ss[i].live && u in ss[i].live && t.id == u.id
    requires t.id in ss[0].rows && ss[0].rows[t.id].trigger != Startup
    ensures t == u && t.id in ss[i].rows && ss[i].rows[t.id].status == Running
  {
    InvRun(ss, acts, i);
    TaskStays(ss, acts, t.id, i);
    assert Backed(ss[i], t);
  }

  predicate Settles(a: Action, id: Id) {
    (a.Skip? || a.Finish?) && a.t.id == id && a.dbOk
  }

  /** From its claim on, a task is `running` until it is settled or the process crashes. */
  lemma {:induction false} RunningUntilSettled(ss: seq<State>, acts: seq<Action>, id: Id, i: nat, j: nat)
    requires Run(ss, acts) && i < j < |ss|
    requires acts[i].Claim? && id in acts[i].ids
    requires forall k :: i < k < j ==> acts[k] != Crash && !Settles(acts[k], id)
    ensures ss[j].up && id in ss[j].rows && ss[j].rows[id].status == Running
    decreases j
  {
    assert Step(ss, acts, j - 1);
    if i + 1 < j {
      RunningUntilSettled(ss, acts, id, i, j - 1);
    }
  }

  /**
   A task is claimed again within one process lifetime only after the `mark_done` of its
   previous claim: between two claims without a crash some step settled that very claim.
   */
  lemma ClaimedAgainOnlyAfterDone(ss: seq<State>, acts: seq<Action>, id: Id, i: nat, j: nat) returns (k: nat)
    requires Run(ss, acts) && i < j < |acts|
    requires acts[i].Claim? && id in acts[i].ids && acts[j].Claim? && id in acts[j].ids
    requires id in ss[0].rows && ss[0].rows[id].trigger != Startup
    requires forall k :: i < k < j ==> acts[k] != Crash
    ensures i < k < j && Settles(acts[k], id) && acts[k].t == Ticket(id, ss[i].polls)
  {
    assert Step(ss, acts, j);
    if forall k :: i < k < j ==> !Settles(acts[k], id) {
      RunningUntilSettled(ss, acts, id, i, j);
    }
    k := FirstSettle(ss, acts, id, i, j);
    assert Step(ss, acts, k);
    TicketStays(ss, acts, id, i, k, acts[k].t);
  }

  lemma FirstSettle(ss: seq<State>, acts: seq<Action>, id: Id, i: nat, j: nat) returns (k: nat)
    requires i < j < |acts| && exists k :: i < k < j && Settles(acts[k], id)
    ensures i < k < j && Settles(acts[k], id)
    ensures forall x :: i < x < k ==> !Settles(acts[x], id)
  {
    k := i + 1;
    while !Settles(acts[k], id)
      invariant i < k < j
      invariant forall x :: i < x < k ==> !Settles(acts[x], id)
      decreases j - k
    {
      k := k + 1;
    }
  }

  /** Until it is settled, only the claim's own dispatch works on the task. */
  lemma {:induction false} TicketStays(ss: seq<State>, acts: seq<Action>, id: Id, i: nat, j: nat, t: Ticket)
    requires Run(ss, acts) && i < j < |ss|
    requires acts[i].Claim? && id in acts[i].ids && id in ss[0].rows && ss[0].rows[id].trigger != Startup
    requires forall k :: i < k < j ==> acts[k] != Crash && !Settles(acts[k], id)
    requires t in ss[j].live && t.id == id
    ensures t == Ticket(id, ss[i].polls)
    decreases j
  {
    InvRun(ss, acts, j);
    assert Step(ss, acts, j - 1);
    if i + 1 < j {
      RunningUntilSettled(ss, acts, id, i, j - 1);
      TaskStays(ss, acts, id, j - 1);
      assert t in ss[j - 1].live;
      TicketStays(ss, acts, id, i, j - 1, t);
    } else {
      var own := Ticket(id, ss[i].polls);
      assert own in ss[j].live;
      OneDispatchPerTask(ss, acts, j, t, own);
    }
  }

  /**
   A completion. The dispatch is over, no other row is touched, and the row changes only if the
   update succeeds. Then the task is no longer `running`, except for a successful cron task without
   a cron expression, and every column is as the completion promises.
   */
  lemma SettledStatus(ss: seq<State>, acts: seq<Action>, k: nat)
    requires Run(ss, acts) && k < |acts| && (acts[k].Skip? || acts[k].Finish?)
    ensures acts[k].t in ss[k].live && acts[k].t !in ss[k + 1].live && acts[k].t.id in ss[k].rows && acts[k].t.id in ss[k + 1].rows
    ensures forall id :: id in ss[k].rows && id != acts[k].t.id ==> id in ss[k + 1].rows && ss[k + 1].rows[id] == ss[k].rows[id]
    ensures var before, after, task := ss[k].rows[acts[k].t.id], ss[k + 1].rows[acts[k].t.id], ss[k].live[acts[k].t].task;
            && (task.trigger != Startup ==> before.status == Running && task.attemptCount == before.attemptCount)
            && (!acts[k].dbOk ==> after == before)
            && (acts[k].dbOk ==> Settled(before, after, task, acts[k].Finish? && !acts[k].ok, acts[k].cron, ss[k].now))
  {
    InvRun(ss, acts, k);
    assert Step(ss, acts, k);
    assert Backed(ss[k], acts[k].t);
  }

  /** What a completion at `now` promises of the row. */
  predicate Settled(before: Row, after: Row, task: Row, failed: bool, cron: CronAnswer, now: int) {
    && SameTask(before, after) && after.lockedAt == None
    && (before.status == Running ==> (after.status == Running <==> !failed && after.trigger == Cron && after.cronExpr == None))
    && (after.status != Pending ==> after.executeAt == before.executeAt)
    && (failed ==>
          && after.attemptCount == (if task.attemptCount < 0x7fff_ffff then task.attemptCount + 1 else 0x7fff_ffff)
          && (if after.attemptCount < 1 || after.attemptCount < after.maxAttempts
              then after.status == Pending && after.executeAt == Some(now + 30 * after.attemptCount)
              else after.status == Failed))
    && (!failed ==> after.attemptCount == 0 && (after.trigger != Cron ==> after.status == Completed))
    && (!failed && after.trigger == Cron && after.cronExpr.Some? ==>
          match cron
          case BadExpression => after.status == Failed
          case NoTick => after.status == Completed
          case NextTick(t) =>
            if after.expiresAt.Some? && after.expiresAt.value < t then after.status == Completed
            else after.status == Pending && after.executeAt == Some(t))
  }

  /**
   A poll takes at most 20 enabled pending rows that are due within five seconds, marks them and
   spawns one dispatch for each; it leaves their other columns and all other rows alone.
   */
  lemma ClaimTakes(ss: seq<State>, acts: seq<Action>, k: nat, id: Id)
    requires Run(ss, acts) && k < |acts| && acts[k].Claim? && id in ss[k].rows
    ensures |acts[k].ids| <= 20 && id in ss[k + 1].rows
    ensures var before, after, t := ss[k].rows[id], ss[k + 1].rows[id], Ticket(id, ss[k].polls);
            if id in acts[k].ids then
              && before.status == Pending && before.enabled && before.executeAt.Some? && before.executeAt.value <= ss[k].now + 5
              && after == before.(status := Running, lockedAt := Some(ss[k].now))
              && t !in ss[k].live && t in ss[k + 1].live && ss[k + 1].live[t] == Dispatch(after, false)
            else after == before && t !in ss[k + 1].live
  {
    InvRun(ss, acts, k);
    assert Step(ss, acts, k);
    assert Ticket(id, ss[k].polls) in ss[k].live ==> Backed(ss[k], Ticket(id, ss[k].polls));
  }

  /** A dispatch whose row is due can go on: its handler starts, or the task is settled if the deadline has passed. */
  lemma DueDispatchGoesOn(ss: seq<State>, acts: seq<Action>, i: nat, t: Ticket, cron: CronAnswer, dbOk: bool)
    requires Run(ss, acts) && i < |ss| && t in ss[i].live && !ss[i].live[t].executing && Future(cron, ss[i].now)
    requires ss[i].live[t].task.executeAt.Some? ==> ss[i].live[t].task.executeAt.value <= ss[i].now
    ensures var deadline := ss[i].live[t].task.expiresAt;
            if deadline.Some? && deadline.value < ss[i].now then Ready(ss[i], Skip(t, cron, dbOk)) else Ready(ss[i], Start(t))
  {
    InvRun(ss, acts, i);
    assert Backed(ss[i], t);
  }

  /** What a start-up finds repaired: nothing is running, work in progress is due again, seeded cron tasks are revived. */
  lemma RecoveryRepairs(ss: seq<State>, acts: seq<Action>, k: nat, id: Id)
    requires Run(ss, acts) && k < |acts| && acts[k].Recover? && id in ss[k].rows
    ensures id in ss[k + 1].rows
    ensures var before, after := ss[k].rows[id], ss[k + 1].rows[id];
            && SameTask(before, after) && after.status != Running
            && (before.status == Running ==> after == before.(status := Pending))
            && (before.status in {Pending, Completed} ==> after == before)
            && (before.status == Failed ==>
                  if before.trigger == Cron && before.seeded && before.enabled && before.cronExpr.Some? &&
                     id in acts[k].answers && acts[k].answers[id].NextTick?
                  then
                    && after.status == Pending && after.executeAt == Some(acts[k].answers[id].t) && ss[k].now < after.executeAt.value
                    && after.attemptCount == 0 && after.lockedAt == None
                  else after == before)
    ensures forall t :: t in ss[k + 1].live <==>
              t.poll == ss[k].polls && t.id in ss[k].rows && ss[k].rows[t.id].trigger == Startup && ss[k].rows[t.id].enabled
  {
    assert Step(ss, acts, k);
    RowsStay(ss[k], acts[k], id);
    forall x | x in ss[k].rows ensures SameTask(ss[k].rows[x], RecoveredRow(ss[k].rows[x], AnswerFor(acts[k].answers, x))) {
    }
  }

  /** No handler of a once or cron task ever starts before its row is due. */
  lemma NeverEarly(ss: seq<State>, acts: seq<Action>, j: nat)
    requires Run(ss, acts) && j < |acts| && acts[j].Start?
    requires acts[j].t.id in ss[0].rows && ss[0].rows[acts[j].t.id].trigger != Startup
    ensures acts[j].t.id in ss[j].rows
    ensures var due := ss[j].rows[acts[j].t.id].executeAt; due.Some? ==> due.value <= ss[j].now
  {
    InvRun(ss, acts, j);
    assert Step(ss, acts, j);
    assert Backed(ss[j], acts[j].t);
    TaskStays(ss, acts, acts[j].t.id, j);
  }

  // ---------------------------------------------------------------- deadlines

  /** No handler ever starts after the deadline of its task, through any retries, crashes and recoveries. */
  lemma NoStartAfterDeadline(ss: seq<State>, acts: seq<Action>, j: nat)
    requires Run(ss, acts) && j < |acts| && acts[j].Start?
    ensures acts[j].t.id in ss[0].rows
    ensures var deadline := ss[0].rows[acts[j].t.id].expiresAt; deadline.Some? ==> ss[j].now <= deadline.value
  {
    InvRun(ss, acts, j);
    assert Step(ss, acts, j);
    assert Backed(ss[j], acts[j].t);
    TaskStays(ss, acts, acts[j].t.id, j);
  }

  /** A dispatch is skipped only after its deadline, and then ends its task, except a cron task without an expression. */
  lemma SkipEndsTask(ss: seq<State>, acts: seq<Action>, j: nat)
    requires Run(ss, acts) && j < |acts| && acts[j].Skip? && acts[j].dbOk
    ensures acts[j].t.id in ss[j + 1].rows
    ensures var row := ss[j + 1].rows[acts[j].t.id];
            row.expiresAt.Some? && row.expiresAt.value < ss[j].now
    ensures var row := ss[j + 1].rows[acts[j].t.id];
            row.status in {Completed, Failed} || (row.trigger == Cron && row.cronExpr == None)
  {
    InvRun(ss, acts, j);
    assert Step(ss, acts, j);
    assert Backed(ss[j], acts[j].t);
  }

  // ---------------------------------------------------------------- retries

  datatype Kind = HandlerStart | HandlerFailure | Settlement | ProcessCrash

  predicate Is(a: Action, kind: Kind, id: Id) {
    match kind
    case HandlerStart => a.Start? && a.t.id == id
    case HandlerFailure => a.Finish? && a.t.id == id && a.dbOk && !a.ok
    case Settlement => Settles(a, id)
    case ProcessCrash => a == Crash
  }

  /** How many of the first `n` steps are of a kind. */
  function Count(acts: seq<Action>, n: nat, kind: Kind, id: Id): nat
    requires n <= |acts|
  {
    if n == 0 then 0 else Count(acts, n - 1, kind, id) + if Is(acts[n - 1], kind, id) then 1 else 0
  }

  predicate Open(row: Row) {
    row.status == Pending || row.status == Running
  }

  /** A dispatch of the task is alive and has not started its handler. */
  ghost predicate Sleeping(s: State, id: Id) {
    exists t :: t in s.live && t.id == id && !s.live[t].executing
  }

  /** A handler run of the task is under way, or ended without a trace, in this lifetime. */
  ghost function Unaccounted(s: State, id: Id): nat
    requires id in s.rows
  {
    if s.up && s.rows[id].status == Running && !Sleeping(s, id) then 1 else 0
  }

  /** How many of the steps from `b` up to `n` are of a kind. */
  function Between(acts: seq<Action>, b: nat, n: nat, kind: Kind, id: Id): int
    requires b <= |acts| && n <= |acts|
  {
    Count(acts, n, kind, id) - Count(acts, b, kind, id)
  }

  /** How often a task that has been tried `attemptCount` times may still be settled. */
  function Budget(first: Row): int {
    if MaxAttempts(first) - first.attemptCount < 1 then 1 else MaxAttempts(first) - first.attemptCount
  }

  /** The attempts of a row since its first state are its failures, and each failure is a settlement. */
  ghost predicate Charged(s: State, acts: seq<Action>, n: nat, id: Id, first: Row) {
    n <= |acts| && id in s.rows && SameTask(first, s.rows[id]) &&
    var fails, settled := Count(acts, n, HandlerFailure, id), Count(acts, n, Settlement, id);
    if Open(s.rows[id]) then s.rows[id].attemptCount == first.attemptCount + fails && fails == settled < Budget(first)
    else settled <= Budget(first)
  }

  /** Handler starts since `b` are covered by failures, crashes, and the run under way. */
  ghost predicate Accounted(s: State, acts: seq<Action>, b: nat, n: nat, id: Id, first: Row) {
    b <= n && Charged(s, acts, n, id, first) &&
    var starts, crashes := Between(acts, b, n, HandlerStart, id), Between(acts, b, n, ProcessCrash, id);
    if Open(s.rows[id]) then starts <= Between(acts, b, n, HandlerFailure, id) + crashes + Unaccounted(s, id)
    else starts <= Budget(first) + crashes
  }

  predicate Individual(a: Action) {
    a.Start? || a.Skip? || a.Finish? || a.Vanish?
  }

  lemma {:induction false} CountGrows(acts: seq<Action>, b: nat, n: nat, kind: Kind, id: Id)
    requires b <= n <= |acts|
    ensures Between(acts, b, n, kind, id) >= 0
    ensures (forall x :: b <= x < n ==> !Is(acts[x], kind, id)) ==> Between(acts, b, n, kind, id) == 0
  {
    if b < n {
      CountGrows(acts, b, n - 1, kind, id);
    }
  }

  lemma ChargedElsewhere(s: State, acts: seq<Action>, n: nat, id: Id, first: Row)
    requires n < |acts| && Ready(s, acts[n]) && first.trigger == Once && Charged(s, acts, n, id, first)
    requires !(Individual(acts[n]) && acts[n].t.id == id)
    ensures Charged(Next(s, acts[n]), acts, n + 1, id, first)
  {
    var a := acts[n];
    RowsStay(s, a, id);
    if Individual(a) {
      assert Next(s, a).rows[id] == s.rows[id];
    }
  }

  lemma ChargedStep(s: State, acts: seq<Action>, n: nat, id: Id, first: Row)
    requires Inv(s) && n < |acts| && Ready(s, acts[n]) && first.trigger == Once && Charged(s, acts, n, id, first)
    ensures Charged(Next(s, acts[n]), acts, n + 1, id, first)
  {
    if Individual(acts[n]) && acts[n].t.id == id {
      RowsStay(s, acts[n], id);
      assert Backed(s, acts[n].t);
    } else {
      ChargedElsewhere(s, acts, n, id, first);
    }
  }

  lemma AccountedGlobal(s: State, acts: seq<Action>, b: nat, n: nat, id: Id, first: Row)
    requires Inv(s) && b <= n < |acts| && Ready(s, acts[n]) && !Individual(acts[n]) && first.trigger == Once
    requires Accounted(s, acts, b, n, id, first) && Charged(Next(s, acts[n]), acts, n + 1, id, first)
    ensures Accounted(Next(s, acts[n]), acts, b, n + 1, id, first)
  {
    var a, s' := acts[n], Next(s, acts[n]);
    if a.Claim? && id in a.ids {
      assert Ticket(id, s.polls) in s'.live;
    }
  }

  lemma AccountedOther(s: State, acts: seq<Action>, b: nat, n: nat, id: Id, first: Row)
    requires Inv(s) && b <= n < |acts| && Ready(s, acts[n]) && Individual(acts[n]) && acts[n].t.id != id
    requires Accounted(s, acts, b, n, id, first) && Charged(Next(s, acts[n]), acts, n + 1, id, first)
    ensures Accounted(Next(s, acts[n]), acts, b, n + 1, id, first)
  {
    var s' := Next(s, acts[n]);
    assert s'.rows[id] == s.rows[id];
    assert Sleeping(s, id) ==> Sleeping(s', id);
  }

  lemma AccountedStartOrEnd(s: State, acts: seq<Action>, b: nat, n: nat, id: Id, first: Row)
    requires Inv(s) && b <= n < |acts| && Ready(s, acts[n]) && (acts[n].Start? || acts[n].Vanish?) && acts[n].t.id == id
    requires first.trigger == Once && Accounted(s, acts, b, n, id, first) && Charged(Next(s, acts[n]), acts, n + 1, id, first)
    ensures Accounted(Next(s, acts[n]), acts, b, n + 1, id, first)
  {
    assert Backed(s, acts[n].t);
  }

  lemma AccountedSettle(s: State, acts: seq<Action>, b: nat, n: nat, id: Id, first: Row)
    requires Inv(s) && b <= n < |acts| && Ready(s, acts[n]) && (acts[n].Skip? || acts[n].Finish?) && acts[n].t.id == id
    requires first.trigger == Once && Accounted(s, acts, b, n, id, first) && Charged(Next(s, acts[n]), acts, n + 1, id, first)
    ensures Accounted(Next(s, acts[n]), acts, b, n + 1, id, first)
  {
    assert Backed(s, acts[n].t);
    CountGrows(acts, 0, b, HandlerFailure, id);
  }

  lemma ChargedAt(ss: seq<State>, acts: seq<Action>, id: Id, n: nat, first: Row)
    requires Run(ss, acts) && n < |acts| && first.trigger == Once && Charged(ss[n], acts, n, id, first)
    ensures Charged(ss[n + 1], acts, n + 1, id, first)
  {
    assert Step(ss, acts, n);
    InvRun(ss, acts, n);
    ChargedStep(ss[n], acts, n, id, first);
  }

  lemma {:induction false} ChargedRun(ss: seq<State>, acts: seq<Action>, id: Id, n: nat, first: Row)
    requires Run(ss, acts) && n < |ss| && id in ss[0].rows && ss[0].rows[id] == first && first.trigger == Once
    ensures Charged(ss[n], acts, n, id, first)
  {
    if n > 0 {
      ChargedRun(ss, acts, id, n - 1, first);
      ChargedAt(ss, acts, id, n - 1, first);
    }
  }

  lemma AccountedAt(ss: seq<State>, acts: seq<Action>, id: Id, b: nat, n: nat, first: Row)
    requires Run(ss, acts) && b <= n < |acts| && first.trigger == Once && Accounted(ss[n], acts, b, n, id, first)
    requires Charged(ss[n + 1], acts, n + 1, id, first)
    ensures Accounted(ss[n + 1], acts, b, n + 1, id, first)
  {
    var s, a := ss[n], acts[n];
    assert Step(ss, acts, n);
    InvRun(ss, acts, n);
    if !Individual(a) {
      AccountedGlobal(s, acts, b, n, id, first);
    } else if a.t.id != id {
      AccountedOther(s, acts, b, n, id, first);
    } else if a.Start? || a.Vanish? {
      AccountedStartOrEnd(s, acts, b, n, id, first);
    } else {
      AccountedSettle(s, acts, b, n, id, first);
    }
  }

  /** From any moment `b` of any run, whatever the row's attempt count was at the beginning. */
  lemma {:induction false} AccountedRun(ss: seq<State>, acts: seq<Action>, id: Id, b: nat, n: nat, first: Row)
    requires Run(ss, acts) && b <= n < |ss| && id in ss[0].rows && ss[0].rows[id] == first && first.trigger == Once
    ensures Accounted(ss[n], acts, b, n, id, first)
    decreases n
  {
    ChargedRun(ss, acts, id, n, first);
    if b < n {
      AccountedRun(ss, acts, id, b, n - 1, first);
      AccountedAt(ss, acts, id, b, n - 1, first);
    }
  }

  /**
   Bounded retries: from any moment `b` on, a once task starts its handler at most
   `max(1, max_attempts - a)` times plus once per crash since then, where `a` is its attempt count
   at the beginning. It is settled at most that many times in all, and the last of those
   settlements leaves it completed or failed.
   */
  lemma RetriesBounded(ss: seq<State>, acts: seq<Action>, id: Id, b: nat, n: nat)
    requires Run(ss, acts) && b <= n < |ss| && id in ss[0].rows && ss[0].rows[id].trigger == Once
    ensures id in ss[n].rows
    ensures var m := Budget(ss[0].rows[id]);
            && Between(acts, b, n, HandlerStart, id) <= m + Between(acts, b, n, ProcessCrash, id)
            && Count(acts, n, Settlement, id) <= m
            && (Count(acts, n, Settlement, id) == m ==> ss[n].rows[id].status in {Completed, Failed})
  {
    AccountedRun(ss, acts, id, b, n, ss[0].rows[id]);
    CountGrows(acts, 0, b, HandlerFailure, id);
  }

  /** Within one process lifetime a once task starts its handler at most `max(1, max_attempts - a)` times. */
  lemma RetriesPerLifetime(ss: seq<State>, acts: seq<Action>, id: Id, k: nat, n: nat)
    requires Run(ss, acts) && k < n < |ss| && id in ss[0].rows && ss[0].rows[id].trigger == Once
    requires acts[k].Recover? && forall x :: k <= x < n ==> acts[x] != Crash
    ensures Between(acts, k, n, HandlerStart, id) <= Budget(ss[0].rows[id])
  {
    RetriesBounded(ss, acts, id, k, n);
    CountGrows(acts, k, n, ProcessCrash, id);
  }

  /** Completed and failed are final for a once task. */
  lemma {:induction false} EndedStaysEnded(ss: seq<State>, acts: seq<Action>, id: Id, i: nat, j: nat)
    requires Run(ss, acts) && i <= j < |ss|
    requires id in ss[0].rows && ss[0].rows[id].trigger == Once
    requires id in ss[i].rows && ss[i].rows[id].status in {Completed, Failed}
    ensures id in ss[j].rows && ss[j].rows[id] == ss[i].rows[id]
    decreases j
  {
    if i < j {
      EndedStaysEnded(ss, acts, id, i, j - 1);
      assert Step(ss, acts, j - 1);
      InvRun(ss, acts, j - 1);
      TaskStays(ss, acts, id, j - 1);
      if Individual(acts[j - 1]) {
        assert Backed(ss[j - 1], acts[j - 1].t);
      }
    }
  }

  // ---------------------------------------------------------------- spacing

  ghost predicate FirstFailure(acts: seq<Action>, id: Id, f: nat) {
    f < |acts| && Is(acts[f], HandlerFailure, id) && forall x :: 0 <= x < f ==> !Is(acts[x], HandlerFailure, id)
  }

  lemma {:induction false} NoFailureBefore(acts: seq<Action>, id: Id, f: nat, n: nat)
    requires FirstFailure(acts, id, f) && n <= |acts|
    ensures Count(acts, n, HandlerFailure, id) == 0 <==> n <= f
  {
    if n > 0 {
      NoFailureBefore(acts, id, f, n - 1);
    }
  }

  /** The pauses after `k` failures of a task that started with `a` attempts: 30 (a + 1) + ... + 30 (a + k). */
  function Spacing(a: int, k: nat): int {
    if k == 0 then 0 else Spacing(a, k - 1) + 30 * (a + k)
  }

  lemma {:induction false} SpacingSums(a: int, q: nat, k: nat)
    requires q <= k
    ensures Spacing(a, k) == 15 * k * (k + 1) + 30 * a * k
    ensures a >= 0 ==> Spacing(a, q) <= Spacing(a, k)
  {
    if k > 0 {
      SpacingSums(a, if q < k then q else k - 1, k - 1);
    }
  }

  /** A step that leaves a once task open keeps its due time, or is a failure that pushes it out. */
  ghost predicate KeepsDue(s: State, a: Action, id: Id)
    requires Ready(s, a) && id in s.rows && id in Next(s, a).rows
  {
    var row, row' := s.rows[id], Next(s, a).rows[id];
    && Open(row)
    && (!Is(a, HandlerFailure, id) ==> row'.executeAt == row.executeAt)
    && (Is(a, HandlerFailure, id) ==>
          && row'.executeAt == Some(s.now + 30 * (row.attemptCount + 1))
          && (row.executeAt.Some? ==> row.executeAt.value <= s.now))
  }

  lemma OpenSettle(s: State, a: Action, id: Id)
    requires Inv(s) && Ready(s, a) && Settles(a, id)
    requires id in s.rows && s.rows[id].trigger == Once && id in Next(s, a).rows && Open(Next(s, a).rows[id])
    ensures KeepsDue(s, a, id)
  {
    assert Backed(s, a.t);
  }

  lemma OpenStep(s: State, a: Action, id: Id)
    requires Inv(s) && Ready(s, a)
    requires id in s.rows && s.rows[id].trigger == Once && id in Next(s, a).rows && Open(Next(s, a).rows[id])
    ensures KeepsDue(s, a, id)
  {
    if Settles(a, id) {
      OpenSettle(s, a, id);
    } else if Individual(a) {
      assert Next(s, a).rows[id] == s.rows[id];
    }
  }

  /** While the task is open after `k` failures, it is due no earlier than the pauses add up to. */
  lemma {:induction false} DueAfterBackoffs(ss: seq<State>, acts: seq<Action>, id: Id, f: nat, n: nat)
    requires Run(ss, acts) && FirstFailure(acts, id, f) && f < n < |ss|
    requires id in ss[0].rows && ss[0].rows[id].trigger == Once
    requires id in ss[n].rows && Open(ss[n].rows[id])
    ensures ss[n].rows[id].executeAt.Some?
    ensures ss[n].rows[id].executeAt.value >= ss[f].now + Spacing(ss[0].rows[id].attemptCount, Count(acts, n, HandlerFailure, id))
    decreases n
  {
    var p := n - 1;
    assert Step(ss, acts, p);
    InvRun(ss, acts, p);
    TaskStays(ss, acts, id, p);
    OpenStep(ss[p], acts[p], id);
    var k := Count(acts, p, HandlerFailure, id);
    NoFailureBefore(acts, id, f, p);
    if f < p {
      DueAfterBackoffs(ss, acts, id, f, p);
    }
    if Is(acts[p], HandlerFailure, id) {
      ChargedRun(ss, acts, id, p, ss[0].rows[id]);
    }
  }

  /**
   Spaced retries: a handler that starts after `q` earlier starts, not counting one per crash, has
   at least `q` failures behind it and starts no earlier than their pauses after the first one,
   although the row was claimed up to five seconds early. From an attempt count of 0 the `q`
   pauses are 15 q (q + 1) seconds.
   */
  lemma RetriesSpaced(ss: seq<State>, acts: seq<Action>, id: Id, f: nat, j: nat, q: nat)
    requires Run(ss, acts) && FirstFailure(acts, id, f) && f < j < |acts|
    requires id in ss[0].rows && ss[0].rows[id].trigger == Once
    requires acts[j].Start? && acts[j].t.id == id
    requires q + Count(acts, j, ProcessCrash, id) <= Count(acts, j, HandlerStart, id)
    ensures var a, k := ss[0].rows[id].attemptCount, Count(acts, j, HandlerFailure, id);
            && q <= k && ss[j].now >= ss[f].now + Spacing(a, k)
            && (a >= 0 ==> ss[j].now >= ss[f].now + 15 * q * (q + 1) + 30 * a * q)
  {
    assert Step(ss, acts, j);
    InvRun(ss, acts, j);
    TaskStays(ss, acts, id, j);
    assert Backed(ss[j], acts[j].t);
    AccountedRun(ss, acts, id, 0, j, ss[0].rows[id]);
    assert Sleeping(ss[j], id);
    DueAfterBackoffs(ss, acts, id, f, j);
    SpacingSums(ss[0].rows[id].attemptCount, q, q);
    SpacingSums(ss[0].rows[id].attemptCount, q, Count(acts, j, HandlerFailure, id));
  }

  // ---------------------------------------------------------------- no starvation

  /** The other rows that wait to be claimed and are no younger than `id`. */
  ghost function Older(s: State, id: Id): set<Id>
    requires id in s.rows && s.rows[id].executeAt.Some?
  {
    set x | x in s.rows && x != id && s.rows[x].status == Pending && s.rows[x].enabled && s.rows[x].executeAt.Some? &&
            s.rows[x].executeAt.value <= s.rows[id].executeAt.value
  }

  /** Attempt counts are counts; the column starts at 0 and only completions write it. */
  ghost predicate Counts(s: State) {
    (forall id :: id in s.rows ==> s.rows[id].attemptCount >= 0) &&
    (forall t :: t in s.live ==> s.live[t].task.attemptCount >= 0)
  }

  lemma CountsStep(s: State, a: Action)
    requires Counts(s) && Ready(s, a)
    ensures Counts(Next(s, a))
  {
  }

  lemma {:induction false} CountsRun(ss: seq<State>, acts: seq<Action>, i: nat)
    requires Run(ss, acts) && Counts(ss[0]) && i < |ss|
    ensures Counts(ss[i])
  {
    if i > 0 {
      CountsRun(ss, acts, i - 1);
      assert Step(ss, acts, i - 1);
      CountsStep(ss[i - 1], acts[i - 1]);
    }
  }

  /** A row that waits, overdue, to be claimed. */
  ghost predicate Waits(s: State, id: Id) {
    s.up && id in s.rows && s.rows[id].trigger != Startup && Due(s.rows[id], s.now) && s.rows[id].executeAt.value <= s.now
  }

  lemma WaitsStep(s: State, a: Action, id: Id)
    requires Inv(s) && Ready(s, a) && Waits(s, id) && a != Crash && !(a.Claim? && id in a.ids)
    ensures Waits(Next(s, a), id) && Next(s, a).rows[id] == s.rows[id]
  {
    if Individual(a) {
      assert Backed(s, a.t);
      assert a.t.id != id;
    }
  }

  /** A settled row that is pending again is due in the future. */
  lemma SettledIsYounger(row: Row, task: Row, ok: bool, cron: CronAnswer, now: int)
    requires task.attemptCount >= 0 && Future(cron, now) && !(ok && task.trigger == Cron && task.cronExpr == None)
    ensures var after := Done(row, task, ok, cron, now);
            after.status == Pending ==> after.executeAt.Some? && after.executeAt.value > now
  {
  }

  /** No step makes another row overtake one that is overdue. */
  lemma OlderShrinks(s: State, a: Action, id: Id)
    requires Inv(s) && Counts(s) && Ready(s, a) && Waits(s, id) && a != Crash && !(a.Claim? && id in a.ids)
    requires id in Next(s, a).rows && Next(s, a).rows[id] == s.rows[id]
    ensures Older(Next(s, a), id) <= Older(s, id)
  {
    forall x | x in Older(Next(s, a), id) ensures x in Older(s, id) {
      if Settles(a, x) {
        var d := s.live[a.t];
        assert Backed(s, a.t);
        if !(d.task.trigger == Cron && d.task.cronExpr == None) {
          SettledIsYounger(s.rows[x], d.task, a.Skip? || a.ok, a.cron, s.now);
        }
      }
    }
  }

  /** A poll that no lock hinders takes a full batch of older rows before it passes `id` over. */
  lemma PollTakesOlder(s: State, a: Action, id: Id)
    requires Ready(s, a) && Waits(s, id) && a.Claim? && a.locked == {} && id !in a.ids
    ensures |a.ids| == BATCH && a.ids <= Older(s, id) && Older(Next(s, a), id) <= Older(s, id) - a.ids
  {
  }

  predicate FreePoll(a: Action) { a.Claim? && a.locked == {} }

  /** The polls from `i` up to `j` that no lock hinders. */
  function FreePolls(acts: seq<Action>, i: nat, j: nat): nat
    requires i <= j <= |acts|
  {
    if i == j then 0 else FreePolls(acts, i, j - 1) + if FreePoll(acts[j - 1]) then 1 else 0
  }

  /** While `id` is passed over, every unhindered poll takes a batch off the rows before it, and none join them. */
  lemma {:induction false} QueueShrinks(ss: seq<State>, acts: seq<Action>, id: Id, i: nat, j: nat)
    requires Run(ss, acts) && Counts(ss[0]) && i <= j < |ss| && Waits(ss[i], id)
    requires forall k :: i <= k < j ==> acts[k] != Crash && !(acts[k].Claim? && id in acts[k].ids)
    ensures Waits(ss[j], id) && ss[j].rows[id] == ss[i].rows[id]
    ensures |Older(ss[j], id)| + BATCH * FreePolls(acts, i, j) <= |Older(ss[i], id)|
    decreases j
  {
    if i < j {
      var p := j - 1;
      QueueShrinks(ss, acts, id, i, p);
      assert Step(ss, acts, p);
      InvRun(ss, acts, p);
      CountsRun(ss, acts, p);
      WaitsStep(ss[p], acts[p], id);
      OlderShrinks(ss[p], acts[p], id);
      if FreePoll(acts[p]) {
        PollTakesOlder(ss[p], acts[p], id);
        SmallerBy(Older(ss[j], id), Older(ss[p], id), acts[p].ids);
      } else {
        SmallerBy(Older(ss[j], id), Older(ss[p], id), {});
      }
    }
  }

  lemma SmallerBy(a: set<Id>, b: set<Id>, c: set<Id>)
    requires a <= b - c && c <= b
    ensures |a| + |c| <= |b|
  {
    assert b == (b - c) + c;
    assert b - c == a + (b - c - a);
  }

  /**
   No starvation: in any interleaving without a crash, a row that is overdue behind `n` older ones
   is claimed by one of the next `n / 20 + 1` unhindered polls.
   */
  lemma ClaimedWithinPolls(ss: seq<State>, acts: seq<Action>, id: Id, i: nat, j: nat) returns (k: nat)
    requires Run(ss, acts) && Counts(ss[0]) && i <= j < |ss| && Waits(ss[i], id)
    requires forall x :: i <= x < j ==> acts[x] != Crash
    requires FreePolls(acts, i, j) > |Older(ss[i], id)| / BATCH
    ensures i <= k < j && acts[k].Claim? && id in acts[k].ids
  {
    if forall x :: i <= x < j ==> !(acts[x].Claim? && id in acts[x].ids) {
      QueueShrinks(ss, acts, id, i, j);
      assert false;
    }
    k :| i <= k < j && acts[k].Claim? && id in acts[k].ids;
  }
}
