/** What each transaction on a capture job answers and writes, status by status and
    field by field. */
module CaptureJobAnswers {
  import opened Wrappers
  import opened CaptureJobs

  // ------------------------------------------------------------------ update

  /** Main result.  An update is accepted exactly when it names no status, the status
      the job has, one of the four steps of a job without a control request, or, with
      one pending, its terminal or a worker's terminal status. */
  lemma UpdateAcceptedIff(t: Table, id: JobId, u: Update)
    requires id in t
    ensures var now := t[id].status;
            UpdateJob(t, id, u).1.Ok? <==>
            || u.status == None
            || u.status == Some(now)
            || (now == Queued && (u.status == Some(Running) || u.status == Some(Failed)))
            || (now == Running && (u.status == Some(Completed) || u.status == Some(Failed)))
            || (now == CancelRequested &&
                  (u.status == Some(Cancelled) || u.status == Some(Completed) || u.status == Some(Failed)))
            || (now == BlockRequested &&
                  (u.status == Some(Blocked) || u.status == Some(Completed) || u.status == Some(Failed)))
  {
  }

  /** An update that is not accepted says why and changes nothing. */
  lemma UpdateRefused(t: Table, id: JobId, u: Update)
    ensures id !in t ==> UpdateJob(t, id, u) == (t, Raised(JobNotFound))
    ensures id in t && !UpdateJob(t, id, u).1.Ok? ==>
              u.status.Some? && UpdateJob(t, id, u) == (t, Raised(InvalidTransition(t[id].status, u.status.value)))
  {
  }

  /** Main result.  What an accepted update stores.  The status is the one asked for,
      or the terminal of a pending control request; each given field lands, each
      absent one stays; and a worker's terminal status that comes too late clears the
      error and leaves the reason alone. */
  lemma UpdateStores(t: Table, id: JobId, u: Update)
    requires id in t && UpdateJob(t, id, u).1.Ok?
    ensures id in UpdateJob(t, id, u).0
    ensures forall x :: x in t && x != id ==> x in UpdateJob(t, id, u).0 && UpdateJob(t, id, u).0[x] == t[x]
    ensures UpdateJob(t, id, u).0.Keys == t.Keys
    ensures var j, j' := t[id], UpdateJob(t, id, u).0[id];
            && (u.status == None ==> j'.status == j.status)
            && (u.status.Some? && j.status == CancelRequested ==>
                  j'.status == if u.status.value == CancelRequested then CancelRequested else Cancelled)
            && (u.status.Some? && j.status == BlockRequested ==>
                  j'.status == if u.status.value == BlockRequested then BlockRequested else Blocked)
            && (u.status.Some? && j.status != CancelRequested && j.status != BlockRequested ==>
                  j'.status == u.status.value)
    ensures var j, j' := t[id], UpdateJob(t, id, u).0[id];
            var late := (j.status == CancelRequested || j.status == BlockRequested) &&
                        (u.status == Some(Completed) || u.status == Some(Failed));
            && j'.stopReason ==
               (if u.stopReason.Some? && !late then NormalizeReason(u.stopReason.value) else j.stopReason)
            && j'.errorCode == (if late then "" else if u.errorCode.Some? then u.errorCode.value else j.errorCode)
            && j'.retryable == (if late then false else if u.retryable.Some? then u.retryable.value else j.retryable)
    ensures var j, j' := t[id], UpdateJob(t, id, u).0[id];
            && j'.roundNo == (if u.roundNo.Some? then u.roundNo.value else j.roundNo)
            && j'.currentQuery == (if u.currentQuery.Some? then u.currentQuery.value else j.currentQuery)
            && j'.payload == (if u.payload.Some? then u.payload.value else j.payload)
    ensures var c, c' := t[id].counts, UpdateJob(t, id, u).0[id].counts;
            && c'.archived == (if u.counts.archived.Some? then u.counts.archived.value else c.archived)
            && c'.partial == (if u.counts.partial.Some? then u.counts.partial.value else c.partial)
            && c'.failed == (if u.counts.failed.Some? then u.counts.failed.value else c.failed)
            && c'.needsUserInput ==
               (if u.counts.needsUserInput.Some? then u.counts.needsUserInput.value else c.needsUserInput)
            && c'.rejected == (if u.counts.rejected.Some? then u.counts.rejected.value else c.rejected)
    ensures var j, j' := t[id], UpdateJob(t, id, u).0[id];
            && j'.session == j.session && j'.idempotencyKey == j.idempotencyKey
            && j'.targetCount == j.targetCount && j'.batchSize == j.batchSize && j'.maxRounds == j.maxRounds
  {
    hide NormalizeReason;
  }

  /** The reasons the program knows, and what becomes of any other. */
  lemma ReasonsKnown(reason: string)
    ensures var known :=
              || reason == "" || reason == "target_reached" || reason == "max_rounds_reached" || reason == "no_queries"
              || reason == "链接失效或页面不存在" || reason == "站点拒绝访问或需要授权"
              || reason == "需要登录、验证码或用户授权" || reason == "站点响应慢或连接超时"
              || reason == "文件过大，已跳过自动归档" || reason == "当前解析器不支持该文件"
              || reason == "页面或文档正文不足" || reason == "抓取失败，原因待复核";
            NormalizeReason(reason) == if known then reason else "抓取失败，原因待复核"
  {
  }

  // ------------------------------------------------- create, claim, checkpoint

  predicate Busy(j: Job) {
    j.status == Queued || j.status == Running || j.status == CancelRequested || j.status == BlockRequested
  }

  /** What a create answers: an unknown session; the first job with the key; the first
      job of the session that is not over; or a new job. */
  lemma CreateAnswer(t: Table, sessions: set<string>, id: JobId, session: string, key: string, spec: Spec)
    ensures var (t', r) := Create(t, sessions, id, session, key, spec);
            && (session !in sessions ==> r == Raised(SessionNotFound))
            && (forall x :: r == Ok(Created(x, true)) ==>
                  x in t && t[x].session == session && t[x].idempotencyKey == key && key != "")
            && (forall x :: r == Raised(ActiveTaskExists(x)) ==>
                  && x in t && t[x].session == session && Busy(t[x])
                  && forall y :: y in t && t[y].session == session && Busy(t[y]) ==> x <= y)
            && (r.Ok? && !r.value.replay ==> t' == t[id := t'[id]] && id in t' && r.value.id == id)
            && (!(r.Ok? && !r.value.replay) ==> t' == t)
    ensures var r := Create(t, sessions, id, session, key, spec).1;
            && ((r.Ok? && r.value.replay) <==>
                  session in sessions && key != "" &&
                  exists x :: x in t && t[x].session == session && t[x].idempotencyKey == key)
            && ((r.Ok? && !r.value.replay) <==>
                  && session in sessions
                  && (key != "" ==> forall x :: x in t ==> t[x].session != session || t[x].idempotencyKey != key)
                  && forall x :: x in t ==> t[x].session != session || !Busy(t[x]))
  {
    hide NewJob;
    assert forall y :: y in ActiveJobs(t, session) <==> y in t && t[y].session == session && Busy(t[y]);
    if x :| x in t && t[x].session == session && t[x].idempotencyKey == key {
      assert x in KeyJobs(t, session, key);
    }
    if x :| x in t && t[x].session == session && Busy(t[x]) {
      assert x in ActiveJobs(t, session);
    }
  }

  /** A new job, field by field. */
  lemma NewJobFields(session: string, key: string, spec: Spec)
    ensures var j := NewJob(session, key, spec);
            && j.session == session && j.idempotencyKey == key && j.status == Queued && j.payload == spec.payload
            && j.targetCount == (if spec.targetCount <= 1 then 1 else spec.targetCount)
            && j.batchSize == (if spec.batchSize == 0 then 8 else if spec.batchSize < 0 then 1 else spec.batchSize)
            && j.maxRounds == (if spec.maxRounds == 0 then 6 else if spec.maxRounds < 0 then 1 else spec.maxRounds)
            && j.roundNo == 0 && j.currentQuery == "" && j.stopReason == "" && j.errorCode == "" && !j.retryable
            && j.counts == Counts(spec.counts.archived, spec.counts.partial, spec.counts.failed,
                                  spec.counts.needsUserInput, 0)
  {
  }

  lemma ClaimIff(t: Table, session: string, id: JobId)
    ensures var (t', r) := Claim(t, session, id);
            var there := id in t && t[id].session == session;
            && (r == Ok(()) <==> there && t[id].status == Queued)
            && (r == Raised(JobNotFound) <==> !there)
            && (there && t[id].status != Queued ==> r == Raised(InvalidTransition(t[id].status, Running)))
            && t' == (if r == Ok(()) then t[id := t[id].(status := Running)] else t)
  {
  }

  lemma CheckpointAnswer(t: Table, session: string, id: JobId)
    ensures var (t', r) := Checkpoint(t, session, id);
            var there := id in t && t[id].session == session;
            && (!there ==> r == Raised(JobNotFound) && t' == t)
            && (there && t[id].status == CancelRequested ==>
                  r == Ok(Cancelled) && t' == t[id := t[id].(status := Cancelled, errorCode := "", retryable := false)])
            && (there && t[id].status == BlockRequested ==>
                  r == Ok(Blocked) && t' == t[id := t[id].(status := Blocked, errorCode := "", retryable := false)])
            && (there && t[id].status != CancelRequested && t[id].status != BlockRequested ==>
                  r == Ok(t[id].status) && t' == t)
  {
  }

  // ---------------------------------------------------------- control, retry

  /** What a cancel request answers and writes, for each status the job may have. */
  lemma CancelAnswer(t: Table, session: string, id: JobId, reason: string)
    requires id in t && t[id].session == session
    ensures var (t', r) := RequestControl(t, session, id, Cancel, reason);
            var text := if |reason| > 0 then reason else "用户取消任务";
            match t[id].status
            case Queued =>
              r == Ok(Cancelled) &&
              t' == t[id := t[id].(status := Cancelled, stopReason := text, errorCode := "", retryable := false)]
            case Running =>
              r == Ok(CancelRequested) &&
              t' == t[id := t[id].(status := CancelRequested, stopReason := text, errorCode := "", retryable := false)]
            case CancelRequested => r == Ok(CancelRequested) && t' == t
            case Cancelled => r == Ok(Cancelled) && t' == t
            case other => r == Raised(InvalidTransition(other, CancelRequested)) && t' == t
  {
  }

  lemma BlockAnswer(t: Table, session: string, id: JobId, reason: string)
    requires id in t && t[id].session == session
    ensures var (t', r) := RequestControl(t, session, id, Block, reason);
            var text := if |reason| > 0 then reason else "用户人工阻断任务";
            match t[id].status
            case Queued =>
              r == Ok(Blocked) &&
              t' == t[id := t[id].(status := Blocked, stopReason := text, errorCode := "", retryable := false)]
            case Running =>
              r == Ok(BlockRequested) &&
              t' == t[id := t[id].(status := BlockRequested, stopReason := text, errorCode := "", retryable := false)]
            case BlockRequested => r == Ok(BlockRequested) && t' == t
            case Blocked => r == Ok(Blocked) && t' == t
            case other => r == Raised(InvalidTransition(other, BlockRequested)) && t' == t
  {
  }

  lemma ControlNotFound(t: Table, session: string, id: JobId, c: Control, reason: string)
    requires id !in t || t[id].session != session
    ensures RequestControl(t, session, id, c, reason) == (t, Raised(JobNotFound))
  {
  }

  /** A retry succeeds exactly for a failed job marked retryable whose session has no
      other job that is not over; it resets the job and keeps its counts. */
  lemma RetryIff(t: Table, session: string, id: JobId)
    ensures var (t', r) := Retry(t, session, id);
            var there := id in t && t[id].session == session;
            var free := forall x :: x in t && x != id ==> t[x].session != session || !Busy(t[x]);
            && (r == Ok(()) <==> there && t[id].status == Failed && t[id].retryable && free)
            && (!there <==> r == Raised(JobNotFound))
            && (there && !(t[id].status == Failed && t[id].retryable) ==> r == Raised(NotRetryable(t[id].status)))
            && (there && t[id].status == Failed && t[id].retryable && !free ==>
                  r.Raised? && r.error.ActiveTaskExists? && r.error.existing in t && r.error.existing != id
                  && t[r.error.existing].session == session && Busy(t[r.error.existing]))
            && (r != Ok(()) ==> t' == t)
            && (r == Ok(()) ==>
                  t' == t[id := t[id].(status := Queued, roundNo := 0, currentQuery := "", stopReason := "",
                                       errorCode := "", retryable := false)])
  {
    if x :| x in t && x != id && t[x].session == session && Busy(t[x]) {
      assert x in ActiveJobs(t, session) - {id};
    }
  }

  // ----------------------------------------------------------------- restart

  /** What the first initialisation of a process makes of one row. */
  lemma RestartAnswer(t: Table, r: Redactor, id: JobId)
    requires id in t
    ensures id in Restarted(t, r)
    ensures var j, j' := t[id], Restarted(t, r)[id];
            match j.status
            case Queued =>
              j' == j.(status := Failed, stopReason := "进程已重启，原任务未完成，可安全重试",
                       errorCode := "PROCESS_RESTARTED", retryable := true, payload := r.payload(j.payload))
            case Running =>
              j' == j.(status := Failed, stopReason := "进程已重启，原任务未完成，可安全重试",
                       errorCode := "PROCESS_RESTARTED", retryable := true, payload := r.payload(j.payload))
            case CancelRequested =>
              j' == j.(status := Cancelled, stopReason := "用户取消已在进程恢复时确认",
                       errorCode := "", retryable := false, payload := r.payload(j.payload))
            case BlockRequested =>
              j' == j.(status := Blocked, stopReason := "人工阻断已在进程恢复时确认",
                       errorCode := "", retryable := false, payload := r.payload(j.payload))
            case Cancelled => j' == j.(stopReason := r.text(j.stopReason), payload := r.payload(j.payload))
            case Blocked => j' == j.(stopReason := r.text(j.stopReason), payload := r.payload(j.payload))
            case Completed =>
              j' == j.(stopReason := r.text(NormalizeReason(j.stopReason)), payload := r.payload(j.payload))
            case Failed =>
              j' == j.(stopReason := r.text(NormalizeReason(j.stopReason)), payload := r.payload(j.payload))
  {
    hide NormalizeReason;
  }

  /** What every later initialisation makes of it. */
  lemma InitializeAnswer(t: Table, id: JobId)
    requires id in t
    ensures id in Normalized(t)
    ensures var j, j' := t[id], Normalized(t)[id];
            j' == if j.status == CancelRequested || j.status == BlockRequested ||
                     j.status == Cancelled || j.status == Blocked
                  then j else j.(stopReason := NormalizeReason(j.stopReason))
  {
    hide NormalizeReason;
  }

  // -------------------------------------------------------------------- runs

  /** Every operation of a run is its transaction on the table, and nothing else. */
  lemma OperationsAre(s: Store, op: Op)
    ensures var s' := Apply(s, op);
            && s'.sessions == s.sessions
            && (if op.CreateOp? then s'.nextId == s.nextId + 1 else s'.nextId == s.nextId)
            && s'.jobs == match op
                          case CreateOp(session, key, spec) =>
                            Create(s.jobs, s.sessions, s.nextId, session, key, spec).0
                          case UpdateOp(id, u) => UpdateJob(s.jobs, id, u).0
                          case ClaimOp(session, id) => Claim(s.jobs, session, id).0
                          case ControlOp(session, id, c, reason) => RequestControl(s.jobs, session, id, c, reason).0
                          case CheckpointOp(session, id) => Checkpoint(s.jobs, session, id).0
                          case RetryOp(session, id) => Retry(s.jobs, session, id).0
                          case InitializeOp => Normalized(s.jobs)
                          case RestartOp(r) => Restarted(s.jobs, r)
  {
    hide Create, UpdateJob, Claim, RequestControl, Checkpoint, Retry, Normalized, Restarted;
  }
}
