/** Persisted capture jobs: every function below is one `BEGIN IMMEDIATE`
    transaction of the source on the job table.  A transaction that raises is
    rolled back, so it returns the table it was given. */
module CaptureJobs {
  import opened Wrappers

  /** Job identifiers come from a fresh supply, so their order is creation order. */
  type JobId = nat

  datatype Status =
    | Queued | Running | CancelRequested | BlockRequested
    | Completed | Failed | Cancelled | Blocked

  datatype Counts = Counts(archived: int, partial: int, failed: int, needsUserInput: int, rejected: int)

  datatype Job = Job(
    session: string, status: Status, idempotencyKey: string,
    targetCount: int, batchSize: int, maxRounds: int,
    roundNo: int, currentQuery: string, counts: Counts,
    stopReason: string, errorCode: string, retryable: bool, payload: string)

  type Table = map<JobId, Job>

  datatype Error =
    | SessionNotFound
    | JobNotFound
    | ActiveTaskExists(existing: JobId)
    | InvalidTransition(current: Status, requested: Status)
    | NotRetryable(status: Status)

  datatype Result<+T> = Ok(value: T) | Raised(error: Error)

  predicate Active(s: Status) {
    s in {Queued, Running, CancelRequested, BlockRequested}
  }

  predicate Controlled(s: Status) {
    s in {CancelRequested, BlockRequested, Cancelled, Blocked}
  }

  /** The terminal state that acknowledges a control request. */
  function ControlTerminal(s: Status): Option<Status> {
    match s
    case CancelRequested => Some(Cancelled)
    case BlockRequested => Some(Blocked)
    case _ => None
  }

  // ------------------------------------------------------------------ create

  datatype Created = Created(id: JobId, replay: bool)

  datatype Spec = Spec(targetCount: int, batchSize: int, maxRounds: int, counts: Counts, payload: string)

  function AtLeastOne(x: int, ifZero: int): int {
    if x == 0 then ifZero else if x < 1 then 1 else x
  }

  function NewJob(session: string, key: string, spec: Spec): Job {
    Job(session, Queued, key,
        AtLeastOne(spec.targetCount, 1), AtLeastOne(spec.batchSize, 8), AtLeastOne(spec.maxRounds, 6),
        0, "", spec.counts.(rejected := 0), "", "", false, spec.payload)
  }

  function KeyJobs(t: Table, session: string, key: string): set<JobId> {
    set id | id in t && t[id].session == session && t[id].idempotencyKey == key
  }

  function ActiveJobs(t: Table, session: string): set<JobId> {
    set id | id in t && t[id].session == session && Active(t[id].status)
  }

  predicate IsFirst(s: set<JobId>, x: JobId) {
    x in s && forall y :: y in s ==> x <= y
  }

  lemma {:induction false} FirstExists(s: set<JobId>)
    requires s != {}
    ensures exists x :: IsFirst(s, x)
  {
    var y :| y in s;
    if s - {y} == {} {
      assert s == {y};
      assert IsFirst(s, y);
    } else {
      FirstExists(s - {y});
      var z :| IsFirst(s - {y}, z);
      assert forall w :: w in s ==> w == y || w in s - {y};
      assert IsFirst(s, if z < y then z else y);
    }
  }

  /** The row an `ORDER BY created_at LIMIT 1` finds. */
  ghost function First(s: set<JobId>): (x: JobId)
    requires s != {}
    ensures IsFirst(s, x)
  {
    FirstExists(s);
    var x :| IsFirst(s, x);
    x
  }

  ghost function Create(t: Table, sessions: set<string>, newId: JobId, session: string, key: string, spec: Spec)
    : (Table, Result<Created>)
  {
    if session !in sessions then (t, Raised(SessionNotFound))
    else if key != "" && KeyJobs(t, session, key) != {} then (t, Ok(Created(First(KeyJobs(t, session, key)), true)))
    else if ActiveJobs(t, session) != {} then (t, Raised(ActiveTaskExists(First(ActiveJobs(t, session)))))
    else (t[newId := NewJob(session, key, spec)], Ok(Created(newId, false)))
  }

  // ------------------------------------------------------------------ update

  datatype CountUpdate = CountUpdate(
    archived: Option<int>, partial: Option<int>, failed: Option<int>,
    needsUserInput: Option<int>, rejected: Option<int>)

  datatype Update = Update(
    status: Option<Status>, roundNo: Option<int>, currentQuery: Option<string>, counts: CountUpdate,
    stopReason: Option<string>, errorCode: Option<string>, retryable: Option<bool>, payload: Option<string>)

  function Or<T>(o: Option<T>, d: T): T {
    if o.Some? then o.value else d
  }

  predicate AllowedTransition(current: Status, requested: Status) {
    match current
    case Queued => requested == Running || requested == Failed
    case Running => requested == Completed || requested == Failed
    case CancelRequested => requested == Cancelled
    case BlockRequested => requested == Blocked
    case _ => false
  }

  /** The safe target of a status write, and whether a worker's terminal write
      was superseded by a pending control request. */
  function TransitionTarget(current: Status, requested: Status): Result<(Status, bool)> {
    if requested == current then Ok((current, false))
    else if ControlTerminal(current).Some? && (requested == Completed || requested == Failed)
      then Ok((ControlTerminal(current).value, true))
    else if AllowedTransition(current, requested) then Ok((requested, false))
    else Raised(InvalidTransition(current, requested))
  }

  const FALLBACK_REASON := "抓取失败，原因待复核"

  const PUBLIC_REASONS := {
    "", "target_reached", "max_rounds_reached", "no_queries",
    "链接失效或页面不存在", "站点拒绝访问或需要授权", "需要登录、验证码或用户授权",
    "站点响应慢或连接超时", "文件过大，已跳过自动归档", "当前解析器不支持该文件",
    "页面或文档正文不足", FALLBACK_REASON }

  function NormalizeReason(reason: string): string {
    if reason in PUBLIC_REASONS then reason else FALLBACK_REASON
  }

  function Recounted(c: Counts, u: CountUpdate): Counts {
    Counts(Or(u.archived, c.archived), Or(u.partial, c.partial), Or(u.failed, c.failed),
           Or(u.needsUserInput, c.needsUserInput), Or(u.rejected, c.rejected))
  }

  function Updated(j: Job, status: Status, superseded: bool, u: Update): Job {
    j.(status := status,
       roundNo := Or(u.roundNo, j.roundNo),
       currentQuery := Or(u.currentQuery, j.currentQuery),
       counts := Recounted(j.counts, u.counts),
       stopReason := if u.stopReason.Some? && !superseded then NormalizeReason(u.stopReason.value) else j.stopReason,
       errorCode := if superseded then "" else Or(u.errorCode, j.errorCode),
       retryable := if superseded then false else Or(u.retryable, j.retryable),
       payload := Or(u.payload, j.payload))
  }

  function UpdateJob(t: Table, id: JobId, u: Update): (Table, Result<()>) {
    if id !in t then (t, Raised(JobNotFound))
    else
      var j := t[id];
      match (if u.status.Some? then TransitionTarget(j.status, u.status.value) else Ok((j.status, false)))
      case Raised(e) => (t, Raised(e))
      case Ok((status, superseded)) => (t[id := Updated(j, status, superseded, u)], Ok(()))
  }

  // ------------------------------------------- claim, control, checkpoint ...

  predicate Present(t: Table, session: string, id: JobId) {
    id in t && t[id].session == session
  }

  function Claim(t: Table, session: string, id: JobId): (Table, Result<()>) {
    if !Present(t, session, id) then (t, Raised(JobNotFound))
    else if t[id].status != Queued then (t, Raised(InvalidTransition(t[id].status, Running)))
    else (t[id := t[id].(status := Running)], Ok(()))
  }

  datatype Control = Cancel | Block

  function Requested(c: Control): Status { if c.Cancel? then CancelRequested else BlockRequested }

  function Terminal(c: Control): Status { if c.Cancel? then Cancelled else Blocked }

  function ReasonOr(c: Control, reason: string): string {
    if reason != "" then reason else if c.Cancel? then "用户取消任务" else "用户人工阻断任务"
  }

  function Halt(t: Table, id: JobId, target: Status, reason: string): Table
    requires id in t
  {
    t[id := t[id].(status := target, stopReason := reason, errorCode := "", retryable := false)]
  }

  /** `reason` is the cleaned and sanitised text of the request. */
  function RequestControl(t: Table, session: string, id: JobId, c: Control, reason: string): (Table, Result<Status>) {
    if !Present(t, session, id) then (t, Raised(JobNotFound))
    else
      var current := t[id].status;
      if current == Requested(c) || current == Terminal(c) then (t, Ok(current))
      else if current == Queued then (Halt(t, id, Terminal(c), ReasonOr(c, reason)), Ok(Terminal(c)))
      else if current == Running then (Halt(t, id, Requested(c), ReasonOr(c, reason)), Ok(Requested(c)))
      else (t, Raised(InvalidTransition(current, Requested(c))))
  }

  /** Read the status for the worker, acknowledging a pending control request. */
  function Checkpoint(t: Table, session: string, id: JobId): (Table, Result<Status>) {
    if !Present(t, session, id) then (t, Raised(JobNotFound))
    else match ControlTerminal(t[id].status)
    case None => (t, Ok(t[id].status))
    case Some(target) => (t[id := t[id].(status := target, errorCode := "", retryable := false)], Ok(target))
  }

  ghost function Retry(t: Table, session: string, id: JobId): (Table, Result<()>) {
    if !Present(t, session, id) then (t, Raised(JobNotFound))
    else if t[id].status != Failed || !t[id].retryable then (t, Raised(NotRetryable(t[id].status)))
    else if ActiveJobs(t, session) - {id} != {} then (t, Raised(ActiveTaskExists(First(ActiveJobs(t, session) - {id}))))
    else
      (t[id := t[id].(status := Queued, roundNo := 0, currentQuery := "", stopReason := "", errorCode := "",
                      retryable := false)],
       Ok(()))
  }

  // ------------------------------------------------- initialisation, recovery

  /** Every call of the store first puts unknown stop reasons right, in a
      transaction of its own; jobs under control keep whatever the user gave. */
  function NormalJob(j: Job): Job {
    if Controlled(j.status) then j else j.(stopReason := NormalizeReason(j.stopReason))
  }

  function Normalized(t: Table): Table {
    map id | id in t :: NormalJob(t[id])
  }

  /** What the start-up scrub makes of a text and of a payload: it redacts whatever
      looks like a credential, in rows of any status. */
  datatype Redactor = Redactor(text: string -> string, payload: string -> string)

  function ScrubbedJob(j: Job, r: Redactor): Job {
    j.(stopReason := r.text(j.stopReason), payload := r.payload(j.payload))
  }

  function Scrubbed(t: Table, r: Redactor): Table {
    map id | id in t :: ScrubbedJob(t[id], r)
  }

  const RESTART_REASON := "进程已重启，原任务未完成，可安全重试"

  /** The reason a restart writes when it acknowledges a control request. */
  function RecoveryReason(s: Status): string {
    match s
    case CancelRequested => "用户取消已在进程恢复时确认"
    case BlockRequested => "人工阻断已在进程恢复时确认"
    case _ => RESTART_REASON
  }

  function RecoverJob(j: Job): Job {
    if !Active(j.status) then j
    else
      var fails := j.status == Queued || j.status == Running;
      j.(status := if fails then Failed else ControlTerminal(j.status).value, stopReason := RecoveryReason(j.status),
         errorCode := if fails then "PROCESS_RESTARTED" else "", retryable := fails)
  }

  function Recovered(t: Table): Table {
    map id | id in t :: RecoverJob(t[id])
  }

  /** The first initialisation of a process: reasons, scrub, then recovery. */
  function Restarted(t: Table, r: Redactor): Table {
    Recovered(Scrubbed(Normalized(t), r))
  }

  // -------------------------------------------------------------------- runs

  datatype Op =
    | CreateOp(session: string, key: string, spec: Spec)
    | UpdateOp(id: JobId, u: Update)
    | ClaimOp(session: string, id: JobId)
    | ControlOp(session: string, id: JobId, control: Control, reason: string)
    | CheckpointOp(session: string, id: JobId)
    | RetryOp(session: string, id: JobId)
    | InitializeOp
    | RestartOp(redactor: Redactor)

  datatype Store = Store(sessions: set<string>, jobs: Table, nextId: JobId)

  ghost function Apply(s: Store, op: Op): Store {
    match op
    case CreateOp(session, key, spec) =>
      s.(jobs := Create(s.jobs, s.sessions, s.nextId, session, key, spec).0, nextId := s.nextId + 1)
    case UpdateOp(id, u) => s.(jobs := UpdateJob(s.jobs, id, u).0)
    case ClaimOp(session, id) => s.(jobs := Claim(s.jobs, session, id).0)
    case ControlOp(session, id, c, reason) => s.(jobs := RequestControl(s.jobs, session, id, c, reason).0)
    case CheckpointOp(session, id) => s.(jobs := Checkpoint(s.jobs, session, id).0)
    case RetryOp(session, id) => s.(jobs := Retry(s.jobs, session, id).0)
    case InitializeOp => s.(jobs := Normalized(s.jobs))
    case RestartOp(r) => s.(jobs := Restarted(s.jobs, r))
  }

  ghost function Run(s0: Store, ops: seq<Op>): Store {
    if ops == [] then s0 else Apply(Run(s0, ops[..|ops| - 1]), ops[|ops| - 1])
  }

  ghost predicate FreshIds(s: Store) {
    forall id :: id in s.jobs ==> id < s.nextId
  }
}
