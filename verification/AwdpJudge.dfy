/**
 The AWDP judge: how the output of its scripts becomes a verdict, how results are posted, and
 how permits and the in-flight counter bound the jobs it runs.
 */
module AwdpJudge {
  import opened Options
  import opened Documents
  import opened Truncation

  // ---------------------------------------------------------------- script output

  datatype Row = Row(ip: string, success: bool, error: Option<string>)

  /** The standard output of a script, trimmed, with what the JSON parser makes of it. */
  datatype Output = Blank | Malformed | Document(json: Json)

  datatype ParseError = EmptyOutput | InvalidJson | NotRows | NoRows

  datatype Rows = Rows(rows: seq<Row>) | Unreadable(error: ParseError)

  /** `gamebox_ip` hides `ip` even when it is not a string. */
  function RowOf(m: map<string, Json>): Row {
    var ip := if "gamebox_ip" in m then Get(m, "gamebox_ip") else Get(m, "ip");
    Row(TextOf(ip).GetOr(""), Get(m, "success") == Some(Bool(true)), TextOf(Get(m, "error")))
  }

  /** The rows of the objects in a list; everything else is passed over. */
  function RowsOf(items: seq<Json>): seq<Row> {
    if items == [] then []
    else
      var before, last := RowsOf(items[..|items| - 1]), items[|items| - 1];
      if last.Obj? then before + [RowOf(last.fields)] else before
  }

  function ItemsOf(j: Json): seq<Json> {
    if j.Arr? then j.items else if j.Obj? then [j] else []
  }

  /** The objects of a list, in order. */
  function Objects(items: seq<Json>): seq<map<string, Json>> {
    if items == [] then []
    else
      var k := |items| - 1;
      Objects(items[..k]) + if items[k].Obj? then [items[k].fields] else []
  }

  /** Output is readable exactly when it holds an object, alone or in the top-level array. */
  predicate Readable(o: Output) {
    o.Document? && Objects(ItemsOf(o.json)) != []
  }

  /** An object with its fields in place; `None` leaves a field out. */
  function RowObject(gameboxIp: Option<Json>, ip: Option<Json>, success: Option<Json>, error: Option<Json>): map<string, Json> {
    (if gameboxIp.Some? then map["gamebox_ip" := gameboxIp.value] else map[]) + (if ip.Some? then map["ip" := ip.value] else map[]) +
    (if success.Some? then map["success" := success.value] else map[]) + (if error.Some? then map["error" := error.value] else map[])
  }

  /**
   What is read from any object: the target's address is the text of `gamebox_ip` where that key
   is present, else of `ip`; only a true `success` succeeds; an `error` counts if it is text.
   */
  lemma RowRoundTrip(gameboxIp: Option<Json>, ip: Option<Json>, success: Option<Json>, error: Option<Json>)
    ensures var r := RowOf(RowObject(gameboxIp, ip, success, error));
            var address := if gameboxIp.Some? then gameboxIp else ip;
            && r.ip == (match address case Some(Str(text)) => text case _ => "")
            && (r.success <==> success == Some(Bool(true)))
            && r.error == (match error case Some(Str(text)) => Some(text) case _ => None)
  {
  }

  /** Row n is read from the n-th object of the output. */
  lemma {:induction false} RowsByPosition(items: seq<Json>)
    ensures |RowsOf(items)| == |Objects(items)|
    ensures forall n :: 0 <= n < |RowsOf(items)| ==> RowsOf(items)[n] == RowOf(Objects(items)[n])
  {
    if items != [] {
      RowsByPosition(items[..|items| - 1]);
    }
  }

  /** `parse_batch_results` */
  method ParseBatchResults(o: Output) returns (r: Rows)
    ensures r.Rows? <==> Readable(o)
    ensures r.Rows? ==> r.rows == RowsOf(ItemsOf(o.json)) && r.rows != []
  {
    if o.Blank? {
      return Unreadable(EmptyOutput);
    }
    if o.Malformed? {
      return Unreadable(InvalidJson);
    }
    if !o.json.Arr? && !o.json.Obj? {
      return Unreadable(NotRows);
    }
    var items := ItemsOf(o.json);
    var out: seq<Row> := [];
    for i := 0 to |items|
      invariant out == RowsOf(items[..i])
    {
      assert items[..i + 1][..i] == items[..i];
      if items[i].Obj? {
        out := out + [RowOf(items[i].fields)];
      }
    }
    assert items[..|items|] == items;
    RowsByPosition(items);
    if out == [] {
      return Unreadable(NoRows);
    }
    return Rows(out);
  }

  predicate Fits(r: Row, ip: string) { r.ip == ip || r.ip == "" }

  /** The position of the first fitting row; the number of rows when none fits. */
  function FirstFit(rows: seq<Row>, ip: string): (i: nat)
    ensures i <= |rows| && (i < |rows| ==> Fits(rows[i], ip))
    ensures forall j :: 0 <= j < i ==> !Fits(rows[j], ip)
  {
    if rows == [] || Fits(rows[0], ip) then 0 else 1 + FirstFit(rows[1..], ip)
  }

  /** `hit_row`: the first fitting row, else the first row; none only where there are no rows. */
  function HitRow(rows: seq<Row>, ip: string): (r: Option<Row>)
    ensures r.None? <==> rows == []
    ensures forall i :: 0 <= i < |rows| && Decides(rows, ip, i) ==> r == Some(rows[i])
  {
    var i := FirstFit(rows, ip);
    if i < |rows| then Some(rows[i]) else if rows != [] then Some(rows[0]) else None
  }

  /** Row `i` decides: it fits and none before it does, or it is the first and none fits at all. */
  predicate Decides(rows: seq<Row>, ip: string, i: nat) {
    i < |rows| &&
    (((rows[i].ip == ip || rows[i].ip == "") && forall j :: 0 <= j < i ==> rows[j].ip != ip && rows[j].ip != "") ||
     (i == 0 && forall j :: 0 <= j < |rows| ==> rows[j].ip != ip && rows[j].ip != ""))
  }

  // ---------------------------------------------------------------- the pipeline

  datatype Kind = Manual | Official | OtherKind

  /** `checks` says of each health check whether it is an object with a port. */
  datatype Job = Job(kind: Kind, target: Option<string>, checks: seq<bool>, judge: bool, exploit: bool)

  datatype Status = ServiceDown | FunctionalBroken | Vulnerable | Patched | PlatformError

  /** A script did not start, did not end in time, or printed something. */
  datatype Script = SpawnFailed | TimedOut | Printed(stdout: Stream, stderr: Stream, json: Option<Json>)

  /** What a script wrote: the bytes of the decoded text, and whether it is all white space. */
  datatype Stream = Stream(bytes: seq<Byte>, blank: bool)

  /** What is parsed: the standard output, with what the JSON parser makes of it. */
  function OutputOf(s: Script): Output {
    if !s.Printed? || s.stdout.blank then Blank else if s.json.None? then Malformed else Document(s.json.value)
  }

  /** `truncated`: both streams are truncated as soon as the script has ended, unless they are blank. */
  predicate Dies(s: Script) {
    s.Printed? && ((!s.stdout.blank && Cuts(s.stdout.bytes)) || (!s.stderr.blank && Cuts(s.stderr.bytes)))
  }

  /** What the outside world answers to one job: to each try of each probe, and to the two scripts. */
  datatype World = World(probes: (nat, nat) -> bool, judge: Script, exploit: Script)

  datatype Outcome = Business(status: Status, judgeRow: Option<Row>, exploitRow: Option<Row>) | Infrastructure | Panicked

  /** How a job ends: a status is reported, or the job dies over the output of a script. */
  datatype Fate = Reported(status: Status) | Died

  function FateOf(o: Outcome): Fate {
    match o
    case Business(status, _, _) => Reported(status)
    case Infrastructure => Reported(PlatformError)
    case Panicked => Died
  }

  predicate ProbePasses(probes: (nat, nat) -> bool, i: nat) {
    probes(i, 0) || probes(i, 1) || probes(i, 2)
  }

  /** There is a health check, and each usable one is answered in one of three tries. */
  predicate Healthy(checks: seq<bool>, probes: (nat, nat) -> bool) {
    checks != [] && forall i :: 0 <= i < |checks| && checks[i] ==> ProbePasses(probes, i)
  }

  /** `probe_tcp` and `probe_http`: three tries, and no way to fail but to answer no. */
  method Probe(probes: (nat, nat) -> bool, i: nat) returns (ok: bool)
    ensures ok <==> ProbePasses(probes, i)
  {
    for k := 0 to 3
      invariant forall j :: 0 <= j < k ==> !probes(i, j)
    {
      var answer := probes(i, k);
      if answer {
        return true;
      }
    }
    assert !probes(i, 0) && !probes(i, 1) && !probes(i, 2);
    return false;
  }

  /** `healthcheck_all`: an entry that is no object or has no port is passed over. */
  method HealthcheckAll(checks: seq<bool>, probes: (nat, nat) -> bool) returns (ok: bool)
    ensures ok <==> Healthy(checks, probes)
  {
    if checks == [] {
      return false;
    }
    for i := 0 to |checks|
      invariant forall j :: 0 <= j < i && checks[j] ==> ProbePasses(probes, j)
    {
      if checks[i] {
        var passed := Probe(probes, i);
        if !passed {
          return false;
        }
      }
    }
    return true;
  }

  /** The rows that a script gave, if it started, ended and was readable. */
  function RowsFrom(s: Script): Option<seq<Row>> {
    if s.Printed? && Readable(OutputOf(s)) then Some(RowsOf(ItemsOf(OutputOf(s).json))) else None
  }

  predicate Faulty(s: Script) { RowsFrom(s).None? }

  /** Whether the exploit is run after a passed judge. */
  predicate ExploitDue(job: Job) {
    job.kind.Official? || (job.kind.Manual? && job.exploit)
  }

  method RunScript(s: Script) returns (r: Option<seq<Row>>)
    ensures r == RowsFrom(s) && (r.Some? ==> r.value != [])
  {
    match s {
      case SpawnFailed => return None;
      case TimedOut => return None;
      case Printed(_, _, _) =>
        var parsed := ParseBatchResults(OutputOf(s));
        return if parsed.Rows? then Some(parsed.rows) else None;
    }
  }

  /** The target runs and is healthy: the judge is reached. */
  predicate Alive(job: Job, w: World) {
    job.target.Some? && Healthy(job.checks, w.probes)
  }

  /** A script gave rows, and the deciding one says `success`. */
  predicate Succeeds(s: Script, ip: string, success: bool) {
    var rows := RowsFrom(s);
    rows.Some? && exists i :: 0 <= i < |rows.value| && Decides(rows.value, ip, i) && rows.value[i].success == success
  }

  /** The judge ran and survived its own output. */
  predicate Judged(job: Job, w: World) {
    Alive(job, w) && job.judge && !Dies(w.judge)
  }

  predicate JudgePassed(job: Job, w: World) {
    Judged(job, w) && Succeeds(w.judge, job.target.value, true)
  }

  /** The exploit ran after a passed judge. */
  predicate Exploited(job: Job, w: World) {
    JudgePassed(job, w) && ExploitDue(job) && job.exploit
  }

  /**
   The six fates, each by what the outside world answered. No clause refers to another, and none
   says in which order the program looks.
   */
  predicate Justified(job: Job, w: World, fate: Fate) {
    match fate
    case Reported(ServiceDown) => !Alive(job, w)
    case Reported(FunctionalBroken) => Judged(job, w) && Succeeds(w.judge, job.target.value, false)
    case Reported(PlatformError) =>
      (Alive(job, w) && !job.judge) || (Judged(job, w) && Faulty(w.judge)) ||
      (JudgePassed(job, w) && ExploitDue(job) && !job.exploit) || (Exploited(job, w) && !Dies(w.exploit) && Faulty(w.exploit))
    case Reported(Vulnerable) => Exploited(job, w) && !Dies(w.exploit) && Succeeds(w.exploit, job.target.value, true)
    case Reported(Patched) =>
      JudgePassed(job, w) && (ExploitDue(job) ==> job.exploit && !Dies(w.exploit) && Succeeds(w.exploit, job.target.value, false))
    case Died => (Alive(job, w) && job.judge && Dies(w.judge)) || (Exploited(job, w) && Dies(w.exploit))
  }

  /** A readable script either succeeds or fails, by the row that is hit. */
  lemma ScriptDecides(s: Script, ip: string)
    requires !Faulty(s)
    ensures HitRow(RowsFrom(s).value, ip).Some?
    ensures var r := HitRow(RowsFrom(s).value, ip).value;
            Succeeds(s, ip, r.success) && !Succeeds(s, ip, !r.success)
  {
    RowsByPosition(ItemsOf(OutputOf(s).json));
    var rows := RowsFrom(s).value;
    var i := if FirstFit(rows, ip) < |rows| then FirstFit(rows, ip) else 0;
    assert Decides(rows, ip, i) && HitRow(rows, ip) == Some(rows[i]);
  }

  /**
   `run_job`: its fate is justified by the answers, and its rows are those of the scripts it reached.
   An official job is patched or vulnerable only by a row of its exploit.
   */
  method RunJob(job: Job, w: World) returns (o: Outcome)
    ensures Justified(job, w, FateOf(o))
    ensures o.Business? ==> (o.judgeRow.Some? <==> Alive(job, w))
    ensures o.Business? ==> (o.exploitRow.Some? <==> JudgePassed(job, w) && ExploitDue(job))
    ensures o.Business? && o.judgeRow.Some? ==> !Faulty(w.judge) && o.judgeRow == HitRow(RowsFrom(w.judge).value, job.target.value)
    ensures o.Business? && o.exploitRow.Some? ==>
            !Faulty(w.exploit) && o.exploitRow == HitRow(RowsFrom(w.exploit).value, job.target.value)
    ensures o.Business? && job.kind.Official? && (o.status == Patched || o.status == Vulnerable) ==>
            JudgePassed(job, w) && o.exploitRow.Some? && (o.status == Vulnerable <==> o.exploitRow.value.success)
  {
    if job.target.None? {
      return Business(ServiceDown, None, None);
    }
    var ip := job.target.value;
    var healthy := HealthcheckAll(job.checks, w.probes);
    if !healthy {
      return Business(ServiceDown, None, None);
    }
    if !job.judge {
      return Infrastructure;
    }
    var judged := RunScript(w.judge);
    if Dies(w.judge) {
      return Panicked;
    }
    if judged.None? {
      return Infrastructure;
    }
    ScriptDecides(w.judge, ip);
    var judgeRow := HitRow(judged.value, ip);
    if !judgeRow.value.success {
      return Business(FunctionalBroken, judgeRow, None);
    }
    if job.kind.Official? || (job.kind.Manual? && job.exploit) {
      if !job.exploit {
        return Infrastructure;
      }
      var exploited := RunScript(w.exploit);
      if Dies(w.exploit) {
        return Panicked;
      }
      if exploited.None? {
        return Infrastructure;
      }
      ScriptDecides(w.exploit, ip);
      var exploitRow := HitRow(exploited.value, ip);
      if exploitRow.value.success {
        return Business(Vulnerable, judgeRow, exploitRow);
      }
      return Business(Patched, judgeRow, exploitRow);
    }
    return Business(Patched, judgeRow, None);
  }

  lemma ScriptsDecide(job: Job, w: World)
    requires job.target.Some?
    ensures var ip := job.target.value;
            (Faulty(w.judge) || Succeeds(w.judge, ip, true) || Succeeds(w.judge, ip, false)) &&
            !(Succeeds(w.judge, ip, true) && Succeeds(w.judge, ip, false)) &&
            (Faulty(w.exploit) || Succeeds(w.exploit, ip, true) || Succeeds(w.exploit, ip, false)) &&
            !(Succeeds(w.exploit, ip, true) && Succeeds(w.exploit, ip, false))
  {
    if !Faulty(w.judge) {
      ScriptDecides(w.judge, job.target.value);
    }
    if !Faulty(w.exploit) {
      ScriptDecides(w.exploit, job.target.value);
    }
  }

  /** The answers justify exactly one fate, so the justification is what `run_job` computes. */
  lemma OneVerdict(job: Job, w: World) returns (fate: Fate)
    ensures forall other :: Justified(job, w, other) <==> other == fate
  {
    if !Alive(job, w) {
      return Reported(ServiceDown);
    }
    var ip := job.target.value;
    ScriptsDecide(job, w);
    if !job.judge {
      return Reported(PlatformError);
    } else if Dies(w.judge) {
      return Died;
    } else if Faulty(w.judge) {
      return Reported(PlatformError);
    } else if Succeeds(w.judge, ip, false) {
      return Reported(FunctionalBroken);
    } else if !ExploitDue(job) {
      return Reported(Patched);
    } else if !job.exploit {
      return Reported(PlatformError);
    } else if Dies(w.exploit) {
      return Died;
    } else if Faulty(w.exploit) {
      return Reported(PlatformError);
    } else if Succeeds(w.exploit, ip, true) {
      return Reported(Vulnerable);
    } else {
      return Reported(Patched);
    }
  }

  /** Until the judge has passed, another exploit would change nothing. */
  lemma ExploitOnlyAfterJudge(job: Job, w: World, exploit: Script, fate: Fate)
    requires !JudgePassed(job, w)
    ensures Justified(job, w, fate) <==> Justified(job, w.(exploit := exploit), fate)
  {
  }

  /** The script did not start, did not end in time, or printed nothing that can be read. */
  predicate Unusable(s: Script) {
    s.SpawnFailed? || s.TimedOut? || !Readable(OutputOf(s))
  }

  /**
   A reached script that did not start, timed out or was unreadable never counts against the
   player: the job is a platform error, or dies without a status if the output is cut in a character.
   */
  lemma ScriptFaultsSpareThePlayer(job: Job, w: World, fate: Fate)
    requires Justified(job, w, fate)
    ensures Alive(job, w) && job.judge && Unusable(w.judge) ==> fate == if Dies(w.judge) then Died else Reported(PlatformError)
    ensures Exploited(job, w) && Unusable(w.exploit) ==> fate == if Dies(w.exploit) then Died else Reported(PlatformError)
  {
    var only := OneVerdict(job, w);
  }

  /** A check that prints an accented letter across byte 4096 leaves its job without a status, whatever it says. */
  lemma AccentedOutputDies(job: Job, w: World, json: Option<Json>, stderr: Stream)
    requires Alive(job, w) && job.judge
    ensures Justified(job, w.(judge := Printed(Stream(Accented(), false), stderr, json)), Died)
  {
  }

  // ---------------------------------------------------------------- posting the result

  datatype Reply = Success | HttpFailure | NetworkError

  class Server {
    const replies: nat -> Reply
    var posted: seq<Status>

    constructor (replies: nat -> Reply)
      ensures this.replies == replies && posted == []
    {
      this.replies := replies;
      posted := [];
    }

    method Post(status: Status) returns (r: Reply)
      modifies this
      ensures posted == old(posted) + [status] && r == replies(old(|posted|))
    {
      r := replies(|posted|);
      posted := posted + [status];
    }
  }

  predicate AllAre(s: seq<Status>, x: Status) { forall i :: 0 <= i < |s| ==> s[i] == x }

  /**
   The posting loop of `execute_job`. Only network errors are tried again; any HTTP answer, a
   server error included, ends the loop. The error of a failed try is not cleared by a later
   success, so the alarm is raised unless the first try succeeds.
   */
  method PostResult(p: Server, status: Status) returns (tries: nat, alarm: bool)
    modifies p
    ensures 1 <= tries <= 4
    ensures |p.posted| == old(|p.posted|) + tries && old(p.posted) <= p.posted
    ensures AllAre(p.posted[old(|p.posted|)..], status)
    ensures forall i :: old(|p.posted|) <= i < old(|p.posted|) + tries - 1 ==> p.replies(i).NetworkError?
    ensures tries < 4 ==> !p.replies(old(|p.posted|) + tries - 1).NetworkError?
    ensures alarm <==> !p.replies(old(|p.posted|)).Success?
  {
    tries, alarm := 0, false;
    while tries < 4
      invariant tries <= 4
      invariant |p.posted| == old(|p.posted|) + tries && old(p.posted) <= p.posted
      invariant AllAre(p.posted[old(|p.posted|)..], status)
      invariant forall i :: old(|p.posted|) <= i < old(|p.posted|) + tries ==> p.replies(i).NetworkError?
      invariant alarm <==> tries > 0
    {
      var r := p.Post(status);
      tries := tries + 1;
      match r {
        case Success => return;
        case HttpFailure => return tries, true;
        case NetworkError => alarm := true;
      }
    }
  }

  /**
   `execute_job` after the permit: a job that dies posts nothing, is not counted out and leaves its
   heartbeats on; any other job posts its status.
   */
  method ExecuteJob(p: Server, job: Job, w: World) returns (fate: Fate, aborted: bool, countedOut: bool)
    modifies p
    ensures Justified(job, w, fate)
    ensures fate == Died ==> p.posted == old(p.posted) && !aborted && !countedOut
    ensures fate.Reported? ==>
            aborted && countedOut && old(p.posted) < p.posted && |p.posted| <= old(|p.posted|) + 4 &&
            AllAre(p.posted[old(|p.posted|)..], fate.status)
  {
    var o := RunJob(job, w);
    if o.Panicked? {
      return Died, false, false;
    }
    var status := if o.Business? then o.status else PlatformError;
    var tries, alarm := PostResult(p, status);
    return Reported(status), true, true;
  }

  // ---------------------------------------------------------------- permits

  datatype Poll = Idle | Asked(capacity: nat)

  /**
   A claimed job is spawned; once it runs it takes a permit or queues for one, holds the permit
   before it is counted in flight, runs, and holds it still after it is counted out. A job that
   dies gives its permit back and stays counted. The semaphore is fair: a permit that is given
   back goes to the queue first.
   */
  datatype State = State(
    free: nat, inflight: nat, spawned: nat, queued: nat, entering: nat, running: nat, leaving: nat, dead: nat, poll: Poll)

  datatype Action = Read | Answer(jobs: nat) | Refuse | Arrive | Enter | Finish | Release | Die

  function Capacity(s: State, batch: nat): nat {
    var available := if s.free > s.inflight then s.free - s.inflight else 0;
    if available < batch then available else batch
  }

  predicate Ready(s: State, a: Action) {
    match a
    case Read => s.poll.Idle? && s.free > s.inflight
    case Answer(_) => s.poll.Asked?
    case Refuse => s.poll.Asked?
    case Arrive => s.spawned > 0
    case Enter => s.entering > 0
    case Finish => s.running > 0 && s.inflight > 0
    case Release => s.leaving > 0
    case Die => s.running > 0
  }

  /** A permit is given back: to the first job in the queue, or to the free ones. */
  function Returned(s: State): State {
    if s.queued > 0 then s.(queued := s.queued - 1, entering := s.entering + 1) else s.(free := s.free + 1)
  }

  function Next(s: State, a: Action, batch: nat): State
    requires Ready(s, a)
  {
    match a
    case Read => s.(poll := Asked(Capacity(s, batch)))
    case Answer(n) => s.(spawned := s.spawned + n, poll := Idle)
    case Refuse => s.(poll := Idle)
    case Arrive =>
      if s.free > 0 then s.(spawned := s.spawned - 1, free := s.free - 1, entering := s.entering + 1)
      else s.(spawned := s.spawned - 1, queued := s.queued + 1)
    case Enter => s.(entering := s.entering - 1, inflight := s.inflight + 1, running := s.running + 1)
    case Finish => s.(running := s.running - 1, inflight := s.inflight - 1, leaving := s.leaving + 1)
    case Release => Returned(s.(leaving := s.leaving - 1))
    case Die => Returned(s.(running := s.running - 1, dead := s.dead + 1))
  }

  function Start(max: nat): State {
    State(max, 0, 0, 0, 0, 0, 0, 0, Idle)
  }

  ghost predicate Step(ss: seq<State>, acts: seq<Action>, batch: nat, i: nat) {
    i < |acts| && |ss| == |acts| + 1 && Ready(ss[i], acts[i]) && ss[i + 1] == Next(ss[i], acts[i], batch)
  }

  /** Any sequence of steps. */
  ghost predicate Path(batch: nat, ss: seq<State>, acts: seq<Action>) {
    |ss| == |acts| + 1 && forall i :: 0 <= i < |acts| ==> Step(ss, acts, batch, i)
  }

  ghost predicate Run(max: nat, batch: nat, ss: seq<State>, acts: seq<Action>) {
    Path(batch, ss, acts) && ss[0] == Start(max)
  }

  function Held(s: State): nat { s.entering + s.running + s.leaving }

  /** Jobs that were claimed and are not done. */
  function Outstanding(s: State): nat { s.spawned + s.queued + Held(s) }

  ghost predicate Sound(s: State, max: nat) {
    s.free + Held(s) == max && s.inflight == s.running + s.dead && (s.queued > 0 ==> s.free == 0)
  }

  lemma SoundStep(s: State, a: Action, max: nat, batch: nat)
    requires Sound(s, max) && Ready(s, a)
    ensures Sound(Next(s, a, batch), max)
  {
  }

  /**
   Permits are conserved, and the counter counts the running jobs, which all hold one, and the dead
   ones, which do not. So the jobs counted in flight stay within the held permits exactly as long as
   the dead are no more than the jobs on their way in or out.
   */
  lemma {:induction false} InflightCountsTheDead(max: nat, batch: nat, ss: seq<State>, acts: seq<Action>, i: nat)
    requires Run(max, batch, ss, acts) && i < |ss|
    ensures Sound(ss[i], max)
    ensures ss[i].inflight <= Held(ss[i]) <==> ss[i].dead <= ss[i].entering + ss[i].leaving
  {
    if i > 0 {
      InflightCountsTheDead(max, batch, ss, acts, i - 1);
      assert Step(ss, acts, batch, i - 1);
      SoundStep(ss[i - 1], acts[i - 1], max, batch);
    }
  }

  /**
   A claim asks for no more than the free permits less the jobs counted in flight. The running ones
   hold permits already and are subtracted a second time: a worker asks only while its running jobs,
   twice, and its dead ones are fewer than its permits.
   */
  lemma ClaimCapacity(max: nat, batch: nat, ss: seq<State>, acts: seq<Action>, i: nat)
    requires Run(max, batch, ss, acts) && i < |acts| && acts[i].Read?
    ensures ss[i].inflight < ss[i].free
    ensures ss[i + 1].poll == Asked(if ss[i].free - ss[i].inflight < batch then ss[i].free - ss[i].inflight else batch)
    ensures 2 * ss[i].running + ss[i].dead < max
  {
    assert Step(ss, acts, batch, i);
    InflightCountsTheDead(max, batch, ss, acts, i);
  }

  /** With nothing outstanding a worker can claim exactly if fewer jobs have died than it has permits. */
  lemma IdleClaimsIffFewDied(max: nat, batch: nat, ss: seq<State>, acts: seq<Action>, i: nat)
    requires Run(max, batch, ss, acts) && i < |ss| && ss[i].poll.Idle? && Outstanding(ss[i]) == 0
    ensures Ready(ss[i], Read) <==> ss[i].dead < max
  {
    InflightCountsTheDead(max, batch, ss, acts, i);
  }

  /** Once as many jobs have died as there are permits, the worker never claims again. */
  lemma {:induction false} NoClaimAfterDeaths(max: nat, batch: nat, ss: seq<State>, acts: seq<Action>, i: nat, j: nat)
    requires Run(max, batch, ss, acts) && i <= j < |ss| && ss[i].dead >= max
    ensures ss[j].dead >= max && (j < |acts| ==> !acts[j].Read?)
    decreases j
  {
    InflightCountsTheDead(max, batch, ss, acts, j);
    if i < j {
      NoClaimAfterDeaths(max, batch, ss, acts, i, j - 1);
      assert Step(ss, acts, batch, j - 1);
    }
    if j < |acts| {
      assert Step(ss, acts, batch, j);
    }
  }

  /** Every worker can come to that: a run in which its jobs die one by one until it stops with all permits free. */
  lemma WorkerStops(max: nat, batch: nat) returns (ss: seq<State>, acts: seq<Action>)
    requires max > 0 && batch > 0
    ensures Run(max, batch, ss, acts) && Honest(ss, acts)
    ensures var s := ss[|ss| - 1];
            s.free == max && s.inflight == max && Outstanding(s) == 0 && s.poll.Idle? && !Ready(s, Read)
  {
    ss, acts := [Start(max)], [];
    for k := 0 to max
      invariant Run(max, batch, ss, acts) && Honest(ss, acts)
      invariant ss[|ss| - 1] == State(max, k, 0, 0, 0, 0, 0, k, Idle)
    {
      ss, acts := Extend(max, batch, ss, acts, Read);
      ss, acts := Extend(max, batch, ss, acts, Answer(1));
      ss, acts := Extend(max, batch, ss, acts, Arrive);
      ss, acts := Extend(max, batch, ss, acts, Enter);
      ss, acts := Extend(max, batch, ss, acts, Die);
    }
  }

  // ---------------------------------------------------------------- does every claimed job find a permit?

  /** There is a free permit for every claimed job that has none yet. */
  predicate Enough(s: State) { s.spawned + s.queued <= s.free }

  /** What is asked for, and the jobs that are already spawned, fit the free permits. */
  predicate Guarded(s: State, batch: nat) {
    Capacity(s, batch) + s.spawned + s.queued <= s.free
  }

  /** The platform never returns more than it was asked for. */
  ghost predicate Honest(ss: seq<State>, acts: seq<Action>) {
    |ss| == |acts| + 1 &&
    forall i :: 0 <= i < |acts| && acts[i].Answer? && ss[i].poll.Asked? ==> acts[i].jobs <= ss[i].poll.capacity
  }

  ghost predicate AllGuarded(batch: nat, ss: seq<State>, acts: seq<Action>) {
    |ss| == |acts| + 1 && forall i :: 0 <= i < |acts| && acts[i].Read? ==> Guarded(ss[i], batch)
  }

  /** What is asked for is covered as well. */
  predicate Provided(s: State) {
    Enough(s) && (s.poll.Asked? ==> s.poll.capacity + s.spawned + s.queued <= s.free)
  }

  lemma {:induction false} GuardedPathEnough(batch: nat, ss: seq<State>, acts: seq<Action>, i: nat)
    requires Path(batch, ss, acts) && Honest(ss, acts) && AllGuarded(batch, ss, acts) && i < |ss| && Provided(ss[0])
    ensures Provided(ss[i])
  {
    if i > 0 {
      GuardedPathEnough(batch, ss, acts, i - 1);
      assert Step(ss, acts, batch, i - 1);
    }
  }

  /** An honest continuation from `s` that starts with a claim and makes no other that is not guarded. */
  ghost predicate Continues(s: State, batch: nat, ss: seq<State>, acts: seq<Action>) {
    Path(batch, ss, acts) && Honest(ss, acts) && ss[0] == s && acts != [] && acts[0] == Read &&
    forall i :: 0 < i < |acts| && acts[i].Read? ==> Guarded(ss[i], batch)
  }

  ghost predicate AllEnough(ss: seq<State>) {
    forall i :: 0 <= i < |ss| ==> Enough(ss[i])
  }

  /**
   The exact guard of a claim: every honest continuation finds a permit for every claimed job
   if and only if what is asked for and what is already spawned fit the free permits.
   */
  lemma ClaimSafeIffGuarded(s: State, batch: nat)
    requires Ready(s, Read) && Enough(s)
    ensures Guarded(s, batch) <==> forall ss, acts :: Continues(s, batch, ss, acts) ==> AllEnough(ss)
  {
    if Guarded(s, batch) {
      forall ss: seq<State>, acts: seq<Action> | Continues(s, batch, ss, acts) ensures AllEnough(ss) {
        forall i | 0 <= i < |ss| ensures Enough(ss[i]) {
          GuardedPathEnough(batch, ss, acts, i);
        }
      }
    } else {
      var acts := [Read, Answer(Capacity(s, batch))];
      var s1 := Next(s, Read, batch);
      var ss := [s, s1, Next(s1, acts[1], batch)];
      assert Step(ss, acts, batch, 0) && Step(ss, acts, batch, 1);
      assert Continues(s, batch, ss, acts) && !Enough(ss[2]);
    }
  }

  /** Over whole runs: if every claim is guarded, every claimed job finds a permit at every moment. */
  lemma GuardedNeverWaits(max: nat, batch: nat, ss: seq<State>, acts: seq<Action>)
    requires Run(max, batch, ss, acts) && Honest(ss, acts) && AllGuarded(batch, ss, acts)
    ensures AllEnough(ss)
  {
    forall i | 0 <= i < |ss| ensures Enough(ss[i]) {
      GuardedPathEnough(batch, ss, acts, i);
    }
  }

  /** And a single unguarded claim in a run can be answered so that a job is left without a permit. */
  lemma UnguardedOverclaims(max: nat, batch: nat, ss: seq<State>, acts: seq<Action>) returns (tt: seq<State>, more: seq<Action>)
    requires Run(max, batch, ss, acts) && Honest(ss, acts)
    requires var s := ss[|ss| - 1]; Ready(s, Read) && !Guarded(s, batch)
    ensures Run(max, batch, tt, more) && Honest(tt, more) && |more| == |acts| + 2 && more[..|acts|] == acts
    ensures !Enough(tt[|tt| - 1])
  {
    var s := ss[|ss| - 1];
    tt, more := Extend(max, batch, ss, acts, Read);
    tt, more := Extend(max, batch, tt, more, Answer(Capacity(s, batch)));
  }

  lemma Extend(max: nat, batch: nat, ss: seq<State>, acts: seq<Action>, a: Action) returns (tt: seq<State>, more: seq<Action>)
    requires Run(max, batch, ss, acts) && Honest(ss, acts) && Ready(ss[|ss| - 1], a)
    requires a.Answer? ==> a.jobs <= ss[|ss| - 1].poll.capacity
    ensures Run(max, batch, tt, more) && Honest(tt, more) && more == acts + [a]
    ensures tt == ss + [Next(ss[|ss| - 1], a, batch)]
  {
    tt, more := ss + [Next(ss[|ss| - 1], a, batch)], acts + [a];
    forall i | 0 <= i < |more| ensures Step(tt, more, batch, i) {
      if i < |acts| {
        assert Step(ss, acts, batch, i);
      }
    }
  }

  // ---------------------------------------------------------------- how much can be overclaimed

  /** If no spawned job gets to run between claims, any multiple of the permits is claimed. */
  lemma {:induction false} OverclaimUnbounded(max: nat, k: nat) returns (ss: seq<State>, acts: seq<Action>)
    requires max > 0
    ensures Run(max, max, ss, acts) && Honest(ss, acts)
    ensures ss[|ss| - 1] == Start(max).(spawned := k * max)
  {
    if k == 0 {
      ss, acts := [Start(max)], [];
    } else {
      ss, acts := OverclaimUnbounded(max, k - 1);
      ss, acts := Extend(max, max, ss, acts, Read);
      ss, acts := Extend(max, max, ss, acts, Answer(max));
      assert (k - 1) * max + max == k * max;
    }
  }

  /** Spawned jobs reach the semaphore while the next claim is awaited: none is left when it is answered. */
  ghost predicate Prompt(ss: seq<State>, acts: seq<Action>) {
    |ss| == |acts| + 1 && forall i :: 0 <= i < |acts| && acts[i].Answer? ==> ss[i].spawned == 0
  }

  ghost predicate Bounded(s: State, max: nat) {
    s.spawned <= max && Outstanding(s) <= 2 * max &&
    (s.poll.Asked? ==> s.poll.capacity <= max && s.poll.capacity + Outstanding(s) <= 2 * max)
  }

  lemma BoundedStep(s: State, a: Action, max: nat, batch: nat)
    requires Sound(s, max) && Bounded(s, max) && Ready(s, a)
    requires a.Answer? ==> a.jobs <= s.poll.capacity && s.spawned == 0
    ensures Bounded(Next(s, a, batch), max)
  {
  }

  /** In prompt runs at most twice as many jobs are outstanding as there are permits. */
  lemma {:induction false} OverclaimBounded(max: nat, batch: nat, ss: seq<State>, acts: seq<Action>, i: nat)
    requires Run(max, batch, ss, acts) && Honest(ss, acts) && Prompt(ss, acts) && i < |ss|
    ensures Bounded(ss[i], max)
  {
    if i > 0 {
      OverclaimBounded(max, batch, ss, acts, i - 1);
      InflightCountsTheDead(max, batch, ss, acts, i - 1);
      assert Step(ss, acts, batch, i - 1);
      BoundedStep(ss[i - 1], acts[i - 1], max, batch);
    }
  }

  /** Twice the permits are reached by a prompt run: two claims in a row, the second before any job runs. */
  lemma OverclaimReached(max: nat) returns (ss: seq<State>, acts: seq<Action>)
    requires max > 0
    ensures Run(max, max, ss, acts) && Honest(ss, acts) && Prompt(ss, acts)
    ensures Outstanding(ss[|ss| - 1]) == 2 * max && ss[|ss| - 1].free == 0
  {
    ss, acts := [Start(max)], [];
    ss, acts := Extend(max, max, ss, acts, Read);
    ss, acts := Extend(max, max, ss, acts, Answer(max));
    ss, acts := Extend(max, max, ss, acts, Read);
    for k := 0 to max
      invariant Run(max, max, ss, acts) && Honest(ss, acts) && Prompt(ss, acts)
      invariant ss[|ss| - 1] == State(max - k, 0, max - k, 0, k, 0, 0, 0, Asked(max))
    {
      ss, acts := Extend(max, max, ss, acts, Arrive);
    }
    ss, acts := Extend(max, max, ss, acts, Answer(max));
  }
}
