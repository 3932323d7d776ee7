/**
 The AWD judge worker: permits, leases, heartbeats and result delivery.

 The poll loop, every task and every heartbeat loop run concurrently; each of their steps is
 one action of a state machine, and the platform answers as it likes.
 */
module AwdWorker {
  import opened Options
  import opened Truncation

  datatype Task = Task(id: nat, attempt: int, lease: string)

  datatype Outcome = Up | Down | WorkerError | TargetTimeout

  /** How the child process ended. */
  datatype Ending = Exited(code: Option<int>, stdout: seq<Byte>, stderr: seq<Byte>) | WaitFailed | TimedOut

  datatype Beat = BeatOk | BeatStale | BeatNotFound | BeatError

  datatype Reply = Accepted | Idempotent | Stale | NotFound | HttpError | NetworkError

  /** What is posted: the worker and the output of the child go with it unchanged. */
  datatype Body = Body(attempt: int, lease: string, resultId: string, outcome: Outcome)

  const MAX_ATTEMPTS: nat := 4

  /** A child without an exit code counts as -1. */
  function OutcomeOf(e: Ending): (o: Outcome)
    ensures o == Up <==> e.Exited? && e.code == Some(0)
    ensures o == Down <==> e.Exited? && e.code == Some(1)
    ensures o == TargetTimeout <==> e == TimedOut
  {
    match e
    case Exited(code, _, _) => if code.GetOr(-1) == 0 then Up else if code.GetOr(-1) == 1 then Down else WorkerError
    case WaitFailed => WorkerError
    case TimedOut => TargetTimeout
  }

  /** The outputs of a child that exited are truncated before anything is posted. */
  predicate Panics(e: Ending) { e.Exited? && (Cuts(e.stdout) || Cuts(e.stderr)) }

  // ---------------------------------------------------------------- delivery

  /** The platform as the worker sees it: arbitrary replies, and a record of what was posted. */
  class Platform {
    const replies: nat -> Reply
    var posted: seq<Body>

    constructor (replies: nat -> Reply)
      ensures this.replies == replies && posted == []
    {
      this.replies := replies;
      posted := [];
    }

    method Submit(body: Body) returns (r: Reply)
      modifies this
      ensures posted == old(posted) + [body] && r == replies(old(|posted|))
    {
      r := replies(|posted|);
      posted := posted + [body];
    }
  }

  datatype Delivery = Delivered | Failed(last: Reply)

  function Copies(b: Body, n: nat): (r: seq<Body>)
    ensures |r| == n && forall i :: 0 <= i < n ==> r[i] == b
  {
    if n == 0 then [] else Copies(b, n - 1) + [b]
  }

  /** The reply settles the matter: accepted, already known, lease lost, or task gone. */
  predicate Final(r: Reply) { r == Accepted || r == Idempotent || r == Stale || r == NotFound }

  /** `n` tries are made from reply number `first`: all but the last failed over, the last final or the fourth. */
  predicate Tries(replies: nat -> Reply, first: nat, n: nat) {
    1 <= n <= 4 && (forall i :: first <= i < first + n - 1 ==> replies(i) == HttpError || replies(i) == NetworkError) &&
    (n < 4 ==> Final(replies(first + n - 1)))
  }

  /** `RESULT_RETRY_DELAYS_SECS` */
  const DELAYS: seq<nat> := [1, 2, 4]

  /** The seconds slept by the time of each try. */
  const SLEPT: seq<nat> := [0, 1, 3, 7]

  /** `deliver_result`: one body, at most four times, until the first decisive reply. */
  method DeliverResult(p: Platform, task: Task, outcome: Outcome, resultId: string)
    returns (r: Delivery, tries: nat, slept: nat)
    modifies p
    ensures Tries(p.replies, old(|p.posted|), tries)
    ensures p.posted == old(p.posted) + Copies(Body(task.attempt, task.lease, resultId, outcome), tries)
    ensures var last := p.replies(old(|p.posted|) + tries - 1);
            r == if last.Accepted? || last.Idempotent? then Delivered else Failed(last)
    ensures slept == SLEPT[tries - 1]
  {
    tries, slept := 0, 0;
    var last := NetworkError;
    while tries < MAX_ATTEMPTS
      invariant tries <= MAX_ATTEMPTS
      invariant p.posted == old(p.posted) + Copies(Body(task.attempt, task.lease, resultId, outcome), tries)
      invariant forall i :: old(|p.posted|) <= i < old(|p.posted|) + tries ==> !Final(p.replies(i))
      invariant tries > 0 ==> last == p.replies(old(|p.posted|) + tries - 1)
      invariant slept == if tries == 0 then 0 else SLEPT[tries - 1]
    {
      if tries > 0 {
        slept := slept + DELAYS[tries - 1];
      }
      last := p.Submit(Body(task.attempt, task.lease, resultId, outcome));
      tries := tries + 1;
      match last {
        case Accepted | Idempotent =>
          return Delivered, tries, slept;
        case Stale | NotFound =>
          return Failed(last), tries, slept;
        case HttpError | NetworkError =>
      }
    }
    return Failed(last), tries, slept;
  }

  /** The ownership flag shared by a task and its heartbeat loop. */
  class Flag {
    var stale: bool

    constructor ()
      ensures !stale
    {
      stale := false;
    }
  }

  /** Among the first `n` beats one says stale before any says not found. */
  predicate LostWithin(beats: nat -> Beat, n: nat) {
    exists i :: 0 <= i < n && beats(i).BeatStale? && forall j :: 0 <= j < i ==> beats(j).BeatOk? || beats(j).BeatError?
  }

  /** `heartbeat_loop`, aborted after `n` answers unless it ends by itself. */
  method HeartbeatLoop(beats: nat -> Beat, n: nat, flag: Flag) returns (sent: nat)
    requires !flag.stale
    modifies flag
    ensures flag.stale <==> LostWithin(beats, n)
    ensures sent <= n && forall i :: 0 <= i < sent - 1 ==> beats(i).BeatOk? || beats(i).BeatError?
    ensures sent < n ==> sent > 0 && (beats(sent - 1).BeatStale? || beats(sent - 1).BeatNotFound?)
  {
    sent := 0;
    while sent < n
      invariant sent <= n && !flag.stale
      invariant forall i :: 0 <= i < sent ==> beats(i).BeatOk? || beats(i).BeatError?
    {
      var beat := beats(sent);
      sent := sent + 1;
      match beat {
        case BeatOk | BeatError =>
        case BeatStale =>
          assert beats(sent - 1).BeatStale?;
          flag.stale := true;
          return;
        case BeatNotFound =>
          assert beats(sent - 1).BeatNotFound?;
          return;
      }
    }
  }

  /** What happens around a task: whether its script is written, how its child starts and ends. */
  datatype World = World(writes: bool, spawns: bool, ending: Ending, beats: nat -> Beat, handled: nat)

  /** The child runs, and its output can be handled. */
  predicate Handled(w: World) { w.writes && w.spawns && !Panics(w.ending) }

  /** The child ran, and a stale heartbeat was handled before the ownership check. */
  predicate Dropped(w: World) { Handled(w) && LostWithin(w.beats, w.handled) }

  /** The task dies while it truncates the output of its child. */
  predicate Dies(w: World) { w.writes && w.spawns && Panics(w.ending) }

  function Verdict(w: World): Outcome {
    if w.writes && w.spawns then OutcomeOf(w.ending) else WorkerError
  }

  /**
   `execute_single_task`: nothing is posted exactly when the lease was lost or the task died over
   the output, else one body in at most four copies. `aborted` says that the heartbeats were ended.
   */
  method ExecuteSingleTask(p: Platform, task: Task, resultId: string, w: World) returns (ghost tries: nat, aborted: bool)
    modifies p
    ensures tries == 0 <==> Dropped(w) || Dies(w)
    ensures tries > 0 ==> Tries(p.replies, old(|p.posted|), tries)
    ensures p.posted == old(p.posted) + Copies(Body(task.attempt, task.lease, resultId, Verdict(w)), tries)
    ensures aborted <==> w.writes && !Dies(w)
  {
    var r, n, slept;
    var flag := new Flag();
    if !w.writes {
      r, n, slept := DeliverResult(p, task, WorkerError, resultId);
      return n, false;
    }
    if !w.spawns {
      r, n, slept := DeliverResult(p, task, WorkerError, resultId);
      return n, true;
    }
    ghost var none := Copies(Body(task.attempt, task.lease, resultId, Verdict(w)), 0);
    assert none == [];
    if w.ending.Exited? && (Cuts(w.ending.stdout) || Cuts(w.ending.stderr)) {
      return 0, false;
    }
    var sent := HeartbeatLoop(w.beats, w.handled, flag);
    if flag.stale {
      return 0, true;
    }
    r, n, slept := DeliverResult(p, task, OutcomeOf(w.ending), resultId);
    return n, true;
  }

  // ---------------------------------------------------------------- all tasks together

  datatype Phase =
    | Preparing                                  // the script is being written
    | Written                                    // heartbeats run, the child is about to start
    | Spawned                                    // the child runs
    | Ended(outcome: Outcome)                    // the child ended, the heartbeats are not yet aborted nor the flag read
    | Delivering(outcome: Outcome, tried: nat)
    | Done
    | Dead                                       // the task died over the output of its child

  datatype Job = Job(task: Task, resultId: string, phase: Phase, stale: bool, beating: bool, sent: seq<Body>)

  datatype Poll = Idle | Asked(limit: nat) | Starting(queue: seq<Task>)

  datatype State = State(free: nat, poll: Poll, jobs: seq<Job>)

  datatype Action =
    | Ask
    | Answer(tasks: seq<Task>)
    | Refuse
    | Acquire(resultId: string)
    | Write(job: nat, ok: bool)
    | Spawn(job: nat, ok: bool)
    | Pulse(job: nat, beat: Beat)
    | End(job: nat, ending: Ending)
    | Check(job: nat)
    | Post(job: nat, reply: Reply)

  predicate Over(job: Job) { job.phase.Done? || job.phase.Dead? }

  predicate Has(s: State, j: nat) { j < |s.jobs| }

  predicate Ready(s: State, a: Action) {
    match a
    case Ask => s.poll.Idle? && s.free > 0
    case Answer(_) => s.poll.Asked?
    case Refuse => s.poll.Asked?
    case Acquire(_) => s.poll.Starting? && s.poll.queue != [] && s.free > 0
    case Write(j, _) => Has(s, j) && s.jobs[j].phase.Preparing?
    case Spawn(j, _) => Has(s, j) && s.jobs[j].phase.Written?
    case Pulse(j, _) => Has(s, j) && s.jobs[j].beating
    case End(j, _) => Has(s, j) && s.jobs[j].phase.Spawned?
    case Check(j) => Has(s, j) && s.jobs[j].phase.Ended?
    case Post(j, _) => Has(s, j) && s.jobs[j].phase.Delivering?
  }

  function NextPoll(queue: seq<Task>): Poll {
    if queue == [] then Idle else Starting(queue)
  }

  function BodyOf(job: Job, outcome: Outcome): Body {
    Body(job.task.attempt, job.task.lease, job.resultId, outcome)
  }

  /** The step of one job. */
  function Moved(job: Job, a: Action): Job {
    match a
    case Write(_, ok) => if ok then job.(phase := Written, beating := true) else job.(phase := Delivering(WorkerError, 0))
    case Spawn(_, ok) => if ok then job.(phase := Spawned) else job.(phase := Delivering(WorkerError, 0), beating := false)
    case Pulse(_, beat) => job.(stale := job.stale || beat.BeatStale?, beating := beat.BeatOk? || beat.BeatError?)
    case End(_, ending) => job.(phase := if Panics(ending) then Dead else Ended(OutcomeOf(ending)))
    case Check(_) =>
      if !job.phase.Ended? then job
      else if job.stale then job.(phase := Done, beating := false)
      else job.(phase := Delivering(job.phase.outcome, 0), beating := false)
    case Post(_, reply) =>
      if !job.phase.Delivering? then job
      else
        var o, n := job.phase.outcome, job.phase.tried + 1;
        job.(sent := job.sent + [BodyOf(job, o)],
             phase := if Final(reply) || n == MAX_ATTEMPTS then Done else Delivering(o, n))
    case _ => job
  }

  predicate OfJob(a: Action) { a.Write? || a.Spawn? || a.Pulse? || a.End? || a.Check? || a.Post? }

  function Next(s: State, a: Action): State
    requires Ready(s, a)
  {
    match a
    case Ask => s.(poll := Asked(s.free))
    case Answer(tasks) => s.(poll := NextPoll(tasks))
    case Refuse => s.(poll := Idle)
    case Acquire(id) =>
      s.(free := s.free - 1, poll := NextPoll(s.poll.queue[1..]),
         jobs := s.jobs + [Job(s.poll.queue[0], id, Preparing, false, false, [])])
    case _ =>
      var job := Moved(s.jobs[a.job], a);
      s.(jobs := s.jobs[a.job := job],
         free := if Over(job) && !Over(s.jobs[a.job]) then s.free + 1 else s.free)
  }

  ghost predicate Step(ss: seq<State>, acts: seq<Action>, i: nat) {
    i < |acts| && |ss| == |acts| + 1 && Ready(ss[i], acts[i]) && ss[i + 1] == Next(ss[i], acts[i])
  }

  /** Any interleaving from a fresh worker with `max` permits. */
  ghost predicate Run(max: nat, ss: seq<State>, acts: seq<Action>) {
    |ss| == |acts| + 1 && ss[0] == State(max, Idle, []) && forall i :: 0 <= i < |acts| ==> Step(ss, acts, i)
  }

  // ---------------------------------------------------------------- permits

  function Weight(job: Job): nat { if Over(job) then 0 else 1 }

  /** The tasks that are running. */
  function Active(jobs: seq<Job>): nat {
    if jobs == [] then 0 else Active(jobs[..|jobs| - 1]) + Weight(jobs[|jobs| - 1])
  }

  lemma {:induction false} ActiveUpdate(jobs: seq<Job>, j: nat, job: Job)
    requires j < |jobs|
    ensures Active(jobs[j := job]) == Active(jobs) - Weight(jobs[j]) + Weight(job)
  {
    var k := |jobs| - 1;
    var after := jobs[j := job];
    if j == k {
      assert after[..k] == jobs[..k];
    } else {
      ActiveUpdate(jobs[..k], j, job);
      assert after[..k] == jobs[..k][j := job];
    }
  }

  lemma PermitStep(s: State, a: Action)
    requires Ready(s, a)
    ensures Next(s, a).free + Active(Next(s, a).jobs) == s.free + Active(s.jobs)
  {
    if a.Acquire? {
      var jobs := Next(s, a).jobs;
      assert jobs[..|jobs| - 1] == s.jobs;
    } else if OfJob(a) {
      ActiveUpdate(s.jobs, a.job, Moved(s.jobs[a.job], a));
    }
  }

  /** Free permits and running tasks always add up to the maximum. */
  lemma {:induction false} PermitsConserved(max: nat, ss: seq<State>, acts: seq<Action>, i: nat)
    requires Run(max, ss, acts) && i < |ss|
    ensures ss[i].free + Active(ss[i].jobs) == max
  {
    if i > 0 {
      PermitsConserved(max, ss, acts, i - 1);
      assert Step(ss, acts, i - 1);
      PermitStep(ss[i - 1], acts[i - 1]);
    }
  }

  /** The platform never returns more tasks than it was asked for. */
  ghost predicate Honest(ss: seq<State>, acts: seq<Action>) {
    |ss| == |acts| + 1 &&
    forall i :: 0 <= i < |acts| && acts[i].Answer? && ss[i].poll.Asked? ==> |acts[i].tasks| <= ss[i].poll.limit
  }

  predicate Covered(s: State) {
    match s.poll
    case Idle => true
    case Asked(limit) => limit <= s.free
    case Starting(queue) => queue != [] && |queue| <= s.free
  }

  /** With an honest platform there is a permit for every claimed task: acquisition never waits. */
  lemma {:induction false} AcquireNeverWaits(max: nat, ss: seq<State>, acts: seq<Action>, i: nat, id: string)
    requires Run(max, ss, acts) && Honest(ss, acts) && i < |ss|
    ensures Covered(ss[i])
    ensures ss[i].poll.Starting? ==> Ready(ss[i], Acquire(id))
    ensures i > 0 && acts[i - 1].Ask? ==> ss[i].poll == Asked(ss[i].free) && ss[i].free > 0
  {
    if i > 0 {
      AcquireNeverWaits(max, ss, acts, i - 1, id);
      assert Step(ss, acts, i - 1);
    }
  }

  /** Whatever the platform returns, a wait for a permit has a running task to wait for. */
  lemma WaitHasRunningTask(max: nat, ss: seq<State>, acts: seq<Action>, i: nat)
    requires Run(max, ss, acts) && i < |ss| && max > 0
    requires ss[i].poll.Starting? && ss[i].free == 0
    ensures exists j :: 0 <= j < |ss[i].jobs| && !Over(ss[i].jobs[j])
  {
    PermitsConserved(max, ss, acts, i);
    SomeActive(ss[i].jobs);
  }

  lemma {:induction false} SomeActive(jobs: seq<Job>)
    requires Active(jobs) > 0
    ensures exists j :: 0 <= j < |jobs| && !Over(jobs[j])
  {
    var k := |jobs| - 1;
    if Over(jobs[k]) {
      SomeActive(jobs[..k]);
      var j :| 0 <= j < k && !Over(jobs[..k][j]);
      assert !Over(jobs[j]);
    }
  }

  // ---------------------------------------------------------------- claimed tasks

  /** Everything the platform handed out in the first `n` actions. */
  function Claimed(acts: seq<Action>, n: nat): seq<Task>
    requires n <= |acts|
  {
    if n == 0 then [] else Claimed(acts, n - 1) + (if acts[n - 1].Answer? then acts[n - 1].tasks else [])
  }

  function Started(jobs: seq<Job>): seq<Task> {
    seq(|jobs|, i requires 0 <= i < |jobs| => jobs[i].task)
  }

  function Waiting(p: Poll): seq<Task> {
    if p.Starting? then p.queue else []
  }

  lemma ClaimStep(s: State, a: Action)
    requires Ready(s, a)
    ensures Started(Next(s, a).jobs) + Waiting(Next(s, a).poll) ==
            Started(s.jobs) + Waiting(s.poll) + (if a.Answer? then a.tasks else [])
  {
  }

  /** Every claimed task is started exactly once, in the order of the claims. */
  lemma {:induction false} ClaimedAreStarted(max: nat, ss: seq<State>, acts: seq<Action>, i: nat)
    requires Run(max, ss, acts) && i < |ss|
    ensures Claimed(acts, i) == Started(ss[i].jobs) + Waiting(ss[i].poll)
  {
    if i > 0 {
      ClaimedAreStarted(max, ss, acts, i - 1);
      assert Step(ss, acts, i - 1);
      ClaimStep(ss[i - 1], acts[i - 1]);
    }
  }

  // ---------------------------------------------------------------- deliveries

  predicate AllSame(sent: seq<Body>, b: Body) {
    forall i :: 0 <= i < |sent| ==> sent[i] == b
  }

  /** What has been posted for a job fits the place it has reached. */
  ghost predicate Consistent(job: Job) {
    match job.phase
    case Delivering(o, n) => |job.sent| == n < MAX_ATTEMPTS && AllSame(job.sent, BodyOf(job, o))
    case Done => |job.sent| <= MAX_ATTEMPTS && exists o :: AllSame(job.sent, BodyOf(job, o))
    case _ => job.sent == []
  }

  lemma ConsistentStep(s: State, a: Action)
    requires Ready(s, a) && OfJob(a) && Consistent(s.jobs[a.job])
    ensures Consistent(Moved(s.jobs[a.job], a))
  {
    var job := s.jobs[a.job];
    var after := Moved(job, a);
    if a.Post? {
      assert AllSame(after.sent, BodyOf(after, job.phase.outcome));
    } else if a.Pulse? && job.phase.Done? {
      var o :| AllSame(job.sent, BodyOf(job, o));
      assert AllSame(after.sent, BodyOf(after, o));
    } else if a.Check? && job.stale {
      assert AllSame(after.sent, BodyOf(after, job.phase.outcome));
    } else if a.End? {
      assert AllSame(after.sent, BodyOf(after, WorkerError));
    }
  }

  lemma {:induction false} ConsistentRun(max: nat, ss: seq<State>, acts: seq<Action>, i: nat, j: nat)
    requires Run(max, ss, acts) && i < |ss| && j < |ss[i].jobs|
    ensures Consistent(ss[i].jobs[j])
  {
    if i > 0 {
      assert Step(ss, acts, i - 1);
      if j < |ss[i - 1].jobs| {
        ConsistentRun(max, ss, acts, i - 1, j);
        if OfJob(acts[i - 1]) && acts[i - 1].job == j {
          ConsistentStep(ss[i - 1], acts[i - 1]);
        }
      }
    }
  }

  /** In every run a task is posted at most four times, each time with its own lease, result id and one outcome. */
  lemma AtMostFourIdenticalPosts(max: nat, ss: seq<State>, acts: seq<Action>, i: nat, j: nat)
    requires Run(max, ss, acts) && i < |ss| && j < |ss[i].jobs|
    ensures |ss[i].jobs[j].sent| <= 4
    ensures exists o :: AllSame(ss[i].jobs[j].sent, BodyOf(ss[i].jobs[j], o))
  {
    ConsistentRun(max, ss, acts, i, j);
    var job := ss[i].jobs[j];
    if job.phase.Delivering? {
      assert AllSame(job.sent, BodyOf(job, job.phase.outcome));
    } else if !job.phase.Done? {
      assert AllSame(job.sent, BodyOf(job, WorkerError));
    }
  }

  /** Before step `i` the child of job `j` ended with outcome `o`, or the worker could not run it at all. */
  ghost predicate Traced(acts: seq<Action>, i: nat, j: nat, o: Outcome) {
    i <= |acts| && exists k :: 0 <= k < i && Gives(acts[k], j, o)
  }

  predicate Gives(a: Action, j: nat, o: Outcome) {
    (a.End? && a.job == j && OutcomeOf(a.ending) == o) ||
    (o == WorkerError && ((a.Write? && a.job == j && !a.ok) || (a.Spawn? && a.job == j && !a.ok)))
  }

  ghost predicate JobTraced(acts: seq<Action>, i: nat, j: nat, job: Job) {
    (job.phase.Ended? || job.phase.Delivering? ==> Traced(acts, i, j, job.phase.outcome)) &&
    forall x :: 0 <= x < |job.sent| ==> Traced(acts, i, j, job.sent[x].outcome)
  }

  lemma TracedStep(s: State, acts: seq<Action>, i: nat, j: nat)
    requires i < |acts| && Ready(s, acts[i]) && Has(s, j) && JobTraced(acts, i, j, s.jobs[j])
    ensures Has(Next(s, acts[i]), j) && JobTraced(acts, i + 1, j, Next(s, acts[i]).jobs[j])
  {
    forall o | Traced(acts, i, j, o) ensures Traced(acts, i + 1, j, o) {
    }
    forall o | Gives(acts[i], j, o) ensures Traced(acts, i + 1, j, o) {
    }
    assert acts[i].End? && acts[i].job == j ==> Gives(acts[i], j, OutcomeOf(acts[i].ending));
    assert (acts[i].Write? || acts[i].Spawn?) && acts[i].job == j && !acts[i].ok ==> Gives(acts[i], j, WorkerError);
  }

  /** What is reported is how the child ended, or a worker error where the worker could not run it. */
  lemma {:induction false} OutcomeProvenance(max: nat, ss: seq<State>, acts: seq<Action>, i: nat, j: nat)
    requires Run(max, ss, acts) && i < |ss| && j < |ss[i].jobs|
    ensures JobTraced(acts, i, j, ss[i].jobs[j])
  {
    if i > 0 {
      assert Step(ss, acts, i - 1);
      if j < |ss[i - 1].jobs| {
        OutcomeProvenance(max, ss, acts, i - 1, j);
        TracedStep(ss[i - 1], acts, i - 1, j);
      }
    }
  }

  /** A post adds one body with the outcome, and is the last one exactly if the reply is final or it was the fourth. */
  lemma PostsUntilFinal(max: nat, ss: seq<State>, acts: seq<Action>, i: nat)
    requires Run(max, ss, acts) && i < |acts| && acts[i].Post?
    ensures acts[i].job < |ss[i].jobs| && acts[i].job < |ss[i + 1].jobs|
    ensures var before, after, r := ss[i].jobs[acts[i].job], ss[i + 1].jobs[acts[i].job], acts[i].reply;
            && before.phase.Delivering? && after.sent == before.sent + [BodyOf(before, before.phase.outcome)]
            && (if r == Accepted || r == Idempotent || r == Stale || r == NotFound || |after.sent| == 4 then after.phase == Done
                else after.phase.Delivering? && after.phase.outcome == before.phase.outcome)
  {
    assert Step(ss, acts, i);
    ConsistentRun(max, ss, acts, i, acts[i].job);
  }

  /** Nothing is posted for a task that is done or dead. */
  lemma {:induction false} OverIsFinal(max: nat, ss: seq<State>, acts: seq<Action>, i: nat, j: nat, k: nat)
    requires Run(max, ss, acts) && i <= k < |ss| && j < |ss[i].jobs| && Over(ss[i].jobs[j])
    ensures j < |ss[k].jobs| && ss[k].jobs[j].sent == ss[i].jobs[j].sent && ss[k].jobs[j].phase == ss[i].jobs[j].phase
    decreases k
  {
    if i < k {
      OverIsFinal(max, ss, acts, i, j, k - 1);
      assert Step(ss, acts, k - 1);
    }
  }

  /** The lease was seen to be lost while the child ran, or after it ended and before the check. */
  predicate Lost(job: Job) {
    job.stale && job.sent == [] && (job.phase.Spawned? || job.phase.Ended? || Over(job))
  }

  /** A stale heartbeat handled before the ownership check means that nothing is ever posted. */
  lemma {:induction false} StaleMeansSilence(max: nat, ss: seq<State>, acts: seq<Action>, i: nat, j: nat, k: nat)
    requires Run(max, ss, acts) && i <= k < |ss| && j < |ss[i].jobs|
    requires ss[i].jobs[j].stale && (ss[i].jobs[j].phase.Spawned? || ss[i].jobs[j].phase.Ended?)
    ensures j < |ss[k].jobs| && ss[k].jobs[j].sent == [] && Lost(ss[k].jobs[j])
    decreases k
  {
    if k == i {
      ConsistentRun(max, ss, acts, i, j);
    } else {
      StaleMeansSilence(max, ss, acts, i, j, k - 1);
      assert Step(ss, acts, k - 1);
    }
  }

  /** The child of job `j` ended, before step `i`, with output that cannot be truncated. */
  ghost predicate Died(acts: seq<Action>, i: nat, j: nat) {
    i <= |acts| && exists k :: 0 <= k < i && acts[k].End? && acts[k].job == j && Panics(acts[k].ending)
  }

  /** No heartbeat of job `j` was told before step `i` that the lease or the task is gone. */
  ghost predicate Undisturbed(acts: seq<Action>, i: nat, j: nat) {
    i <= |acts| && forall k :: 0 <= k < i && acts[k].Pulse? && acts[k].job == j ==> acts[k].beat.BeatOk? || acts[k].beat.BeatError?
  }

  /**
   Heartbeats outlive the work on a task only if the task died over the output of its child, and
   then they do, unless the platform ends them.
   */
  lemma {:induction false} BeatsOnIffDead(max: nat, ss: seq<State>, acts: seq<Action>, i: nat, j: nat)
    requires Run(max, ss, acts) && i < |ss| && j < |ss[i].jobs|
    ensures var job := ss[i].jobs[j];
            (job.phase.Dead? ==> Died(acts, i, j)) &&
            (job.phase.Preparing? || job.phase.Delivering? || job.phase.Done? ==> !job.beating) &&
            (Undisturbed(acts, i, j) && (job.phase.Written? || job.phase.Spawned? || job.phase.Ended? || job.phase.Dead?) ==> job.beating)
  {
    if i > 0 {
      var s, a := ss[i - 1], acts[i - 1];
      assert Step(ss, acts, i - 1);
      if j < |s.jobs| {
        BeatsOnIffDead(max, ss, acts, i - 1, j);
        if OfJob(a) && a.job == j && a.End? && Panics(a.ending) {
          assert Died(acts, i, j);
        }
      }
    }
  }

  /** Dead without a word: nothing was posted, no lost lease was seen, and the heartbeats go on. */
  predicate Orphaned(job: Job) { job.phase.Dead? && job.beating && !job.stale && job.sent == [] }

  /**
   A task whose output cannot be truncated is never reported, while its heartbeats keep the
   lease: from then on nothing is posted, and it beats until a stale or not-found reply.
   */
  lemma {:induction false} UncutOutputOrphans(max: nat, ss: seq<State>, acts: seq<Action>, i: nat, k: nat)
    requires Run(max, ss, acts) && i < k < |ss| && acts[i].End? && Panics(acts[i].ending)
    requires acts[i].job < |ss[i].jobs| && ss[i].jobs[acts[i].job].beating && !ss[i].jobs[acts[i].job].stale
    requires forall n :: i < n < k && acts[n].Pulse? && acts[n].job == acts[i].job ==> acts[n].beat.BeatOk? || acts[n].beat.BeatError?
    ensures acts[i].job < |ss[k].jobs| && Orphaned(ss[k].jobs[acts[i].job])
    ensures Ready(ss[k], Pulse(acts[i].job, BeatOk))
    decreases k
  {
    assert Step(ss, acts, i);
    if k == i + 1 {
      ConsistentRun(max, ss, acts, i, acts[i].job);
    } else {
      UncutOutputOrphans(max, ss, acts, i, k - 1);
      assert Step(ss, acts, k - 1);
    }
  }

  /** A healthy service whose check prints an accented letter across byte 4096 is never reported. */
  lemma AccentedOutputDies(stderr: seq<Byte>)
    ensures var e := Exited(Some(0), Accented(), stderr); OutcomeOf(e) == Up && Panics(e)
    ensures forall beats, n :: Dies(World(true, true, Exited(Some(0), Accented(), stderr), beats, n))
  {
  }
}
