/** What every run of the job store keeps. */
module CaptureJobProofs {
  import opened Wrappers
  import opened CaptureJobs

  // --------------------------------------------------------- one step, one job

  /** The status changes the whole set of operations can make to an old job. */
  predicate StatusStep(from: Status, to: Status) {
    from == to || match from
    case Queued => to in {Running, Failed, Cancelled, Blocked}
    case Running => to in {Completed, Failed, CancelRequested, BlockRequested}
    case CancelRequested => to == Cancelled
    case BlockRequested => to == Blocked
    case Failed => to == Queued
    case _ => false
  }

  /** `j'` is a later version of the same job. */
  predicate Succeeds(j: Job, j': Job) {
    j'.session == j.session && j'.idempotencyKey == j.idempotencyKey && StatusStep(j.status, j'.status)
  }

  lemma UpdateSucceeds(t: Table, id: JobId, u: Update)
    requires id in t
    ensures id in UpdateJob(t, id, u).0 && Succeeds(t[id], UpdateJob(t, id, u).0[id])
  {
  }

  /** No operation deletes a job or moves it to another session or key, and none
      makes a status change outside the table of transitions. */
  lemma JobStep(s: Store, op: Op, id: JobId)
    requires FreshIds(s)
    ensures id in s.jobs ==> id in Apply(s, op).jobs && Succeeds(s.jobs[id], Apply(s, op).jobs[id])
    ensures id !in s.jobs && id in Apply(s, op).jobs ==>
              op.CreateOp? && id == s.nextId && Apply(s, op).jobs[id] == NewJob(op.session, op.key, op.spec)
    ensures FreshIds(Apply(s, op))
  {
    hide UpdateJob, Restarted, Normalized, Succeeds;
    match op
    case UpdateOp(_, _) =>
      UpdateShape(s.jobs, op.id, op.u);
      if op.id in s.jobs {
        UpdateSucceeds(s.jobs, op.id, op.u);
      }
      SameSucceeds(s, id);
    case InitializeOp => InitializeSucceeds(s.jobs, id);
    case RestartOp(r) => RestartSucceeds(s.jobs, r, id);
    case _ => WriteSucceeds(s, op, id);
  }

  lemma SameSucceeds(s: Store, id: JobId)
    ensures id in s.jobs ==> Succeeds(s.jobs[id], s.jobs[id])
  {
  }

  lemma InitializeSucceeds(t: Table, id: JobId)
    ensures Normalized(t).Keys == t.Keys
    ensures id in t ==> Succeeds(t[id], Normalized(t)[id])
  {
  }

  lemma RestartSucceeds(t: Table, r: Redactor, id: JobId)
    ensures Restarted(t, r).Keys == t.Keys
    ensures id in t ==> Succeeds(t[id], Restarted(t, r)[id])
  {
  }

  lemma WriteSucceeds(s: Store, op: Op, id: JobId)
    requires FreshIds(s) && (op.CreateOp? || op.ClaimOp? || op.ControlOp? || op.CheckpointOp? || op.RetryOp?)
    ensures id in s.jobs ==> id in Apply(s, op).jobs && Succeeds(s.jobs[id], Apply(s, op).jobs[id])
    ensures id !in s.jobs && id in Apply(s, op).jobs ==>
              op.CreateOp? && id == s.nextId && Apply(s, op).jobs[id] == NewJob(op.session, op.key, op.spec)
    ensures FreshIds(Apply(s, op))
  {
    hide NewJob;
  }

  lemma UpdateShape(t: Table, id: JobId, u: Update)
    ensures var t' := UpdateJob(t, id, u).0;
            t'.Keys == t.Keys && forall x :: x in t && x != id ==> t'[x] == t[x]
  {
  }

  lemma RunStep(s0: Store, ops: seq<Op>, k: nat)
    requires k < |ops|
    ensures Run(s0, ops[..k + 1]) == Apply(Run(s0, ops[..k]), ops[k])
  {
    assert ops[..k + 1][..|ops[..k + 1]| - 1] == ops[..k];
  }

  lemma {:induction false} FreshAlways(s0: Store, ops: seq<Op>)
    requires FreshIds(s0)
    ensures FreshIds(Run(s0, ops))
  {
    hide Apply, FreshIds;
    if ops != [] {
      FreshAlways(s0, ops[..|ops| - 1]);
      JobStep(Run(s0, ops[..|ops| - 1]), ops[|ops| - 1], 0);
    }
  }

  // ---------------------------------------------------- control is irrevocable

  predicate SettledBy(s: Status, later: Status) {
    later == s || ControlTerminal(s) == Some(later)
  }

  /** Main result.  A job that has a pending or acknowledged control request
      keeps it: in every later state it is in that status or in its own terminal,
      across worker writes, opposite requests, retries and restarts. */
  lemma {:induction false} ControlIsIrrevocable(s0: Store, ops: seq<Op>, i: nat, k: nat, id: JobId)
    requires FreshIds(s0) && i <= k <= |ops|
    requires id in Run(s0, ops[..i]).jobs && Controlled(Run(s0, ops[..i]).jobs[id].status)
    ensures id in Run(s0, ops[..k]).jobs
    ensures SettledBy(Run(s0, ops[..i]).jobs[id].status, Run(s0, ops[..k]).jobs[id].status)
    decreases k
  {
    hide Apply, Run, FreshIds;
    if i < k {
      ControlIsIrrevocable(s0, ops, i, k - 1, id);
      RunStep(s0, ops, k - 1);
      FreshAlways(s0, ops[..k - 1]);
      JobStep(Run(s0, ops[..k - 1]), ops[k - 1], id);
    }
  }

  // --------------------------------------------------------- the user's reason

  /** Exactly when a status write or progress write touches the stop reason of a
      controlled job: never for a worker's terminal write that is accepted. */
  lemma UpdateTouchesReasonIff(t: Table, id: JobId, u: Update)
    requires id in t && Controlled(t[id].status) && UpdateJob(t, id, u).1.Ok?
    ensures var j' := UpdateJob(t, id, u).0[id];
            j'.stopReason != t[id].stopReason <==>
              && u.stopReason.Some? && NormalizeReason(u.stopReason.value) != t[id].stopReason
              && !(u.status == Some(Completed) || u.status == Some(Failed))
    ensures u.status == Some(Completed) || u.status == Some(Failed) ==>
              var j' := UpdateJob(t, id, u).0[id];
              Some(j'.status) == ControlTerminal(t[id].status) && j'.errorCode == "" && !j'.retryable
  {
  }

  /** The updates the worker and the submitters issue: a reason only ever comes
      with a terminal status. */
  predicate WorkerUpdate(u: Update) {
    u.stopReason.Some? ==> u.status == Some(Completed) || u.status == Some(Failed)
  }

  /** A restart keeps the reason of this controlled job: an acknowledged one loses it
      only to the scrub, a pending one only to the recovery's own text. */
  predicate RestartKeepsReason(j: Job, r: Redactor) {
    if ControlTerminal(j.status).None? then r.text(j.stopReason) == j.stopReason
    else j.stopReason == RecoveryReason(j.status)
  }

  predicate UpdateKeepsReason(j: Job, u: Update) {
    || (u.status.Some? && TransitionTarget(j.status, u.status.value).Raised?)
    || u.stopReason.None? || NormalizeReason(u.stopReason.value) == j.stopReason
    || u.status == Some(Completed) || u.status == Some(Failed)
  }

  /** What an operation must be like for a controlled job to keep its reason. */
  predicate KeepsReason(j: Job, op: Op, id: JobId) {
    match op
    case RestartOp(r) => RestartKeepsReason(j, r)
    case UpdateOp(x, u) => x == id ==> UpdateKeepsReason(j, u)
    case _ => true
  }

  /** Main result for a restart: exactly when the reason of a controlled job is still
      there after the process has started again. */
  lemma RestartReasonIff(t: Table, r: Redactor, id: JobId)
    requires id in t && Controlled(t[id].status)
    ensures id in Restarted(t, r)
    ensures Restarted(t, r)[id].stopReason == t[id].stopReason <==> RestartKeepsReason(t[id], r)
    ensures Restarted(t, r)[id].stopReason ==
            if ControlTerminal(t[id].status).Some? then RecoveryReason(t[id].status) else r.text(t[id].stopReason)
  {
  }

  lemma ReasonStepIff(s: Store, op: Op, id: JobId)
    requires id in s.jobs && FreshIds(s) && Controlled(s.jobs[id].status)
    ensures id in Apply(s, op).jobs
    ensures Apply(s, op).jobs[id].stopReason == s.jobs[id].stopReason <==> KeepsReason(s.jobs[id], op, id)
  {
    hide UpdateJob, Restarted, RestartKeepsReason, UpdateKeepsReason, Retry, Create;
    JobStep(s, op, id);
    if op.RestartOp? {
      RestartReasonIff(s.jobs, op.redactor, id);
    } else if op.UpdateOp? {
      UpdateShape(s.jobs, op.id, op.u);
      if op.id == id {
        UpdateReasonIff(s.jobs, id, op.u);
      }
    } else {
      OtherOpsKeepReason(s, op, id);
    }
  }

  lemma UpdateReasonIff(t: Table, id: JobId, u: Update)
    requires id in t && Controlled(t[id].status)
    ensures id in UpdateJob(t, id, u).0
    ensures UpdateJob(t, id, u).0[id].stopReason == t[id].stopReason <==> UpdateKeepsReason(t[id], u)
  {
    if UpdateJob(t, id, u).1.Ok? {
      UpdateTouchesReasonIff(t, id, u);
    }
  }

  lemma OtherOpsKeepReason(s: Store, op: Op, id: JobId)
    requires id in s.jobs && FreshIds(s) && Controlled(s.jobs[id].status) && !op.RestartOp? && !op.UpdateOp?
    ensures id in Apply(s, op).jobs && Apply(s, op).jobs[id].stopReason == s.jobs[id].stopReason
  {
  }

  /** The job is there, and under control, at every step from `i` to `k`. */
  ghost predicate ControlledFrom(s0: Store, ops: seq<Op>, i: nat, k: nat, id: JobId)
    requires k <= |ops|
  {
    forall x :: i <= x <= k ==> id in At(s0, ops, x).jobs && Controlled(At(s0, ops, x).jobs[id].status)
  }

  ghost function At(s0: Store, ops: seq<Op>, x: nat): Store
    requires x <= |ops|
  {
    Run(s0, ops[..x])
  }

  lemma {:induction false} ControlLasts(s0: Store, ops: seq<Op>, i: nat, k: nat, id: JobId)
    requires FreshIds(s0) && i <= k <= |ops|
    requires id in At(s0, ops, i).jobs && Controlled(At(s0, ops, i).jobs[id].status)
    ensures ControlledFrom(s0, ops, i, k, id)
  {
    hide Run, FreshIds;
    forall x | i <= x <= k
      ensures id in At(s0, ops, x).jobs && Controlled(At(s0, ops, x).jobs[id].status)
    {
      ControlIsIrrevocable(s0, ops, i, x, id);
    }
  }

  /** Main result.  From the moment a job is under control, its reason is never
      touched exactly when every operation keeps it: so only a restart that finds the
      request pending, a scrub that redacts part of the reason, or an update that no
      caller issues can touch it. */
  lemma ReasonSurvivesIff(s0: Store, ops: seq<Op>, i: nat, k: nat, id: JobId)
    requires FreshIds(s0) && i <= k <= |ops|
    requires id in At(s0, ops, i).jobs && Controlled(At(s0, ops, i).jobs[id].status)
    ensures ControlledFrom(s0, ops, i, k, id)
    ensures (forall x :: i <= x <= k ==> At(s0, ops, x).jobs[id].stopReason == At(s0, ops, i).jobs[id].stopReason) <==>
            (forall x :: i <= x < k ==> KeepsReason(At(s0, ops, x).jobs[id], ops[x], id))
  {
    hide Apply, Run, FreshIds, KeepsReason, At;
    ControlLasts(s0, ops, i, k, id);
    if forall x :: i <= x < k ==> KeepsReason(At(s0, ops, x).jobs[id], ops[x], id) {
      forall x | i <= x <= k
        ensures At(s0, ops, x).jobs[id].stopReason == At(s0, ops, i).jobs[id].stopReason
      {
        ReasonSurvives(s0, ops, i, x, id);
      }
    } else {
      var x :| i <= x < k && !KeepsReason(At(s0, ops, x).jobs[id], ops[x], id);
      ReasonAcross(s0, ops, x, id);
      assert At(s0, ops, x + 1).jobs[id].stopReason != At(s0, ops, x).jobs[id].stopReason;
    }
  }

  lemma ReasonAcross(s0: Store, ops: seq<Op>, x: nat, id: JobId)
    requires FreshIds(s0) && x < |ops|
    requires id in At(s0, ops, x).jobs && Controlled(At(s0, ops, x).jobs[id].status)
    ensures id in At(s0, ops, x + 1).jobs
    ensures At(s0, ops, x + 1).jobs[id].stopReason == At(s0, ops, x).jobs[id].stopReason <==>
            KeepsReason(At(s0, ops, x).jobs[id], ops[x], id)
  {
    hide Apply, Run, FreshIds, KeepsReason;
    RunStep(s0, ops, x);
    FreshAlways(s0, ops[..x]);
    ReasonStepIff(At(s0, ops, x), ops[x], id);
  }

  lemma {:induction false} ReasonSurvives(s0: Store, ops: seq<Op>, i: nat, k: nat, id: JobId)
    requires FreshIds(s0) && i <= k <= |ops|
    requires id in At(s0, ops, i).jobs && Controlled(At(s0, ops, i).jobs[id].status)
    requires ControlledFrom(s0, ops, i, k, id)
    requires forall x :: i <= x < k ==> KeepsReason(At(s0, ops, x).jobs[id], ops[x], id)
    ensures id in At(s0, ops, k).jobs && At(s0, ops, k).jobs[id].stopReason == At(s0, ops, i).jobs[id].stopReason
    decreases k
  {
    hide FreshIds, KeepsReason, At;
    if i < k {
      ReasonSurvives(s0, ops, i, k - 1, id);
      ReasonAcross(s0, ops, k - 1, id);
    }
  }

  /** For the updates the program issues, only restarts matter: whatever workers,
      users and retries do between two starts, the reason stays. */
  lemma ReasonSurvivesWithoutRestart(s0: Store, ops: seq<Op>, i: nat, k: nat, id: JobId)
    requires FreshIds(s0) && i <= k <= |ops|
    requires id in At(s0, ops, i).jobs && Controlled(At(s0, ops, i).jobs[id].status)
    requires forall x :: i <= x < k ==> !ops[x].RestartOp? && (ops[x].UpdateOp? ==> WorkerUpdate(ops[x].u))
    ensures id in At(s0, ops, k).jobs && At(s0, ops, k).jobs[id].stopReason == At(s0, ops, i).jobs[id].stopReason
  {
    hide FreshIds, At;
    ControlLasts(s0, ops, i, k, id);
    ReasonSurvives(s0, ops, i, k, id);
  }

  // -------------------------------------------- two runs that lose the reason

  const EMPTY := Store({"s"}, map[], 0)

  const SPEC := Spec(5, 8, 6, Counts(0, 0, 0, 0, 0), "{}")

  /** A running job that the user cancels with the given reason. */
  function CancelRun(reason: string): seq<Op> {
    [CreateOp("s", "", SPEC), ClaimOp("s", 0), ControlOp("s", 0, Cancel, reason)]
  }

  lemma AfterCancel(reason: string)
    requires reason != ""
    ensures var t := Run(EMPTY, CancelRun(reason)).jobs;
            0 in t && t[0].status == CancelRequested && t[0].stopReason == reason && t[0].session == "s"
  {
    var ops := CancelRun(reason);
    hide Normalized, Restarted, UpdateJob, Checkpoint, Retry;
    assert ops[..2] == [ops[0], ops[1]] && ops[..2][..1] == [ops[0]] && [ops[0]][..0] == [];
    assert Run(EMPTY, [ops[0]]) == Apply(EMPTY, ops[0]);
    assert ActiveJobs(map[], "s") == {};
    assert Run(EMPTY, ops[..2]) == Apply(Run(EMPTY, [ops[0]]), ops[1]);
  }

  /** The process stops before the worker sees the request: the next start writes its
      own text over the user's. */
  lemma PendingReasonIsReplaced(r: Redactor)
    ensures var t := Run(EMPTY, CancelRun("wrong topic") + [RestartOp(r)]).jobs;
            0 in t && t[0].status == Cancelled && t[0].stopReason == RecoveryReason(CancelRequested) != "wrong topic"
  {
    var ops := CancelRun("wrong topic");
    hide Restarted, Run;
    AfterCancel("wrong topic");
    RunOneMore(ops, RestartOp(r));
    RestartReasonIff(Run(EMPTY, ops).jobs, r, 0);
    RestartStatus(Run(EMPTY, ops).jobs, r, 0);
  }

  /** The worker acknowledged the request, and a reason that looks like a credential
      is redacted by the next start. */
  lemma AcknowledgedReasonIsRedacted(r: Redactor)
    requires r.text("password: abc") == "password: [REDACTED]"
    ensures var t := Run(EMPTY, CancelRun("password: abc") + [CheckpointOp("s", 0)] + [RestartOp(r)]).jobs;
            0 in t && t[0].status == Cancelled && t[0].stopReason == "password: [REDACTED]"
  {
    var ops := CancelRun("password: abc");
    hide Restarted, Run;
    AfterCancel("password: abc");
    RunOneMore(ops, CheckpointOp("s", 0));
    RunOneMore(ops + [CheckpointOp("s", 0)], RestartOp(r));
    var t := Run(EMPTY, ops + [CheckpointOp("s", 0)]).jobs;
    RestartReasonIff(t, r, 0);
    RestartStatus(t, r, 0);
  }

  lemma RunOneMore(ops: seq<Op>, op: Op)
    ensures Run(EMPTY, ops + [op]) == Apply(Run(EMPTY, ops), op)
  {
    assert (ops + [op])[..|ops|] == ops;
  }

  lemma RestartStatus(t: Table, r: Redactor, id: JobId)
    requires id in t
    ensures id in Restarted(t, r)
    ensures Restarted(t, r)[id].status ==
            if t[id].status in {Queued, Running} then Failed
            else if ControlTerminal(t[id].status).Some? then ControlTerminal(t[id].status).value
            else t[id].status
  {
  }

  // ------------------------------------------------------------ unique indexes

  /** `idx_capture_jobs_one_active`. */
  ghost predicate OneActivePerSession(t: Table) {
    forall a, b ::
      a in t && b in t && Active(t[a].status) && Active(t[b].status) && t[a].session == t[b].session ==> a == b
  }

  /** `idx_capture_jobs_idempotency`. */
  ghost predicate OneJobPerKey(t: Table) {
    forall a, b :: a in t && b in t && SameKey(t[a], t[b]) ==> a == b
  }

  predicate SameKey(x: Job, y: Job) {
    x.idempotencyKey != "" && x.session == y.session && x.idempotencyKey == y.idempotencyKey
  }

  /** The one way a job becomes active again needs a session without active jobs. */
  lemma NewlyActive(s: Store, op: Op, id: JobId)
    requires FreshIds(s) && id in Apply(s, op).jobs && Active(Apply(s, op).jobs[id].status)
    requires id !in s.jobs || !Active(s.jobs[id].status)
    ensures ActiveJobs(s.jobs, Apply(s, op).jobs[id].session) == {}
    ensures (op.CreateOp? && id == s.nextId) || (op.RetryOp? && id == op.id)
  {
    hide UpdateJob;
    JobStep(s, op, id);
    if op.UpdateOp? {
      if op.id in s.jobs && !Active(s.jobs[op.id].status) {
        UpdateNeverActivates(s.jobs, op.id, op.u);
      }
      UpdateShape(s.jobs, op.id, op.u);
    }
  }

  lemma UpdateNeverActivates(t: Table, id: JobId, u: Update)
    requires id in t && !Active(t[id].status)
    ensures UpdateJob(t, id, u).0[id].status == t[id].status
  {
  }

  lemma ActiveStep(s: Store, op: Op)
    requires FreshIds(s) && OneActivePerSession(s.jobs)
    ensures OneActivePerSession(Apply(s, op).jobs)
  {
    hide Apply, FreshIds;
    var t, t' := s.jobs, Apply(s, op).jobs;
    forall a, b | a in t' && b in t' && Active(t'[a].status) && Active(t'[b].status) && t'[a].session == t'[b].session
      ensures a == b
    {
      JobStep(s, op, a);
      JobStep(s, op, b);
      if a !in t || !Active(t[a].status) {
        NewlyActive(s, op, a);
        assert b !in ActiveJobs(t, t'[a].session);
      }
      if b !in t || !Active(t[b].status) {
        NewlyActive(s, op, b);
        assert a !in ActiveJobs(t, t'[b].session);
      }
    }
  }

  lemma KeyStep(s: Store, op: Op)
    requires FreshIds(s) && OneJobPerKey(s.jobs)
    ensures OneJobPerKey(Apply(s, op).jobs)
  {
    hide Apply;
    var t, t' := s.jobs, Apply(s, op).jobs;
    forall a, b | a in t' && b in t' && SameKey(t'[a], t'[b])
      ensures a == b
    {
      JobStep(s, op, a);
      JobStep(s, op, b);
      NewKeyIsNew(s, op, a);
      NewKeyIsNew(s, op, b);
      assert b in t ==> b in KeyJobs(t, t'[a].session, t'[a].idempotencyKey);
      assert a in t ==> a in KeyJobs(t, t'[a].session, t'[a].idempotencyKey);
    }
  }

  lemma NewKeyIsNew(s: Store, op: Op, id: JobId)
    requires id in Apply(s, op).jobs
    ensures var j := Apply(s, op).jobs[id];
            id !in s.jobs && j.idempotencyKey != "" ==> KeyJobs(s.jobs, j.session, j.idempotencyKey) == {}
  {
    hide UpdateJob;
    if op.UpdateOp? {
      UpdateShape(s.jobs, op.id, op.u);
    }
  }

  /** Main result.  Both unique indexes hold in every reachable table, so neither
      can ever reject a write. */
  lemma {:induction false} IndexesAlwaysHold(s0: Store, ops: seq<Op>)
    requires FreshIds(s0) && OneActivePerSession(s0.jobs) && OneJobPerKey(s0.jobs)
    ensures OneActivePerSession(Run(s0, ops).jobs) && OneJobPerKey(Run(s0, ops).jobs)
  {
    hide Apply, FreshIds, OneActivePerSession, OneJobPerKey;
    if ops != [] {
      var before, op := ops[..|ops| - 1], ops[|ops| - 1];
      IndexesAlwaysHold(s0, before);
      FreshAlways(s0, before);
      ActiveStep(Run(s0, before), op);
      KeyStep(Run(s0, before), op);
    }
  }

  /** Start-up recovery leaves no active row in any table whatsoever, so the
      active index that is rebuilt afterwards can always be created.  Of a job that
      was not active it can change the reason and the payload only. */
  lemma RecoveryEnablesTheIndex(t: Table, r: Redactor)
    ensures var t' := Restarted(t, r);
            && t'.Keys == t.Keys
            && OneActivePerSession(t')
            && forall id :: id in t ==> RestartedRow(t[id], t'[id])
  {
    hide OneActivePerSession;
    forall id | id in t
      ensures RestartedRow(t[id], Restarted(t, r)[id])
    {
      RestartOneRow(t, r, id);
    }
    NoneActive(Restarted(t, r));
  }

  lemma NoneActive(t: Table)
    requires forall id :: id in t ==> !Active(t[id].status)
    ensures OneActivePerSession(t)
  {
  }

  predicate IsInterrupted(j: Job) {
    j.status == Failed && j.retryable && j.errorCode == "PROCESS_RESTARTED" && j.stopReason == RESTART_REASON
  }

  predicate RestartedRow(j: Job, j': Job) {
    && !Active(j'.status)
    && j'.session == j.session && j'.idempotencyKey == j.idempotencyKey
    && j'.roundNo == j.roundNo && j'.currentQuery == j.currentQuery && j'.counts == j.counts
    && match j.status
       case Queued => IsInterrupted(j')
       case Running => IsInterrupted(j')
       case CancelRequested => j'.status == Cancelled && !j'.retryable && j'.errorCode == ""
       case BlockRequested => j'.status == Blocked && !j'.retryable && j'.errorCode == ""
       case _ => j' == j.(stopReason := j'.stopReason, payload := j'.payload)
  }

  lemma RestartOneRow(t: Table, r: Redactor, id: JobId)
    requires id in t
    ensures id in Restarted(t, r) && RestartedRow(t[id], Restarted(t, r)[id])
  {
  }

  /** Replaying a create with the key of an earlier one finds the same job at any
      later time, whatever became of it. */
  lemma CreateReplays(s0: Store, ops: seq<Op>, i: nat, k: nat, spec: Spec)
    requires FreshIds(s0) && OneActivePerSession(s0.jobs) && OneJobPerKey(s0.jobs)
    requires i < k <= |ops| && ops[i].CreateOp? && ops[i].key != "" && ops[i].session in s0.sessions
    requires var s := Run(s0, ops[..i]);
             Create(s.jobs, s.sessions, s.nextId, ops[i].session, ops[i].key, ops[i].spec).1.Ok?
    ensures var s, s' := Run(s0, ops[..i]), Run(s0, ops[..k]);
            var first := Create(s.jobs, s.sessions, s.nextId, ops[i].session, ops[i].key, ops[i].spec).1.value.id;
            Create(s'.jobs, s'.sessions, s'.nextId, ops[i].session, ops[i].key, spec) ==
              (s'.jobs, Ok(Created(first, true)))
  {
    var s := Run(s0, ops[..i]);
    var first := Create(s.jobs, s.sessions, s.nextId, ops[i].session, ops[i].key, ops[i].spec).1.value.id;
    RunStep(s0, ops, i);
    hide Apply, Run, FreshIds, OneActivePerSession;
    JobPersists(s0, ops, i + 1, k, first);
    IndexesAlwaysHold(s0, ops[..k]);
    SessionsConstant(s0, ops[..k]);
    var t := Run(s0, ops[..k]).jobs;
    assert first in KeyJobs(t, ops[i].session, ops[i].key);
  }

  lemma {:induction false} JobPersists(s0: Store, ops: seq<Op>, i: nat, k: nat, id: JobId)
    requires FreshIds(s0) && i <= k <= |ops| && id in Run(s0, ops[..i]).jobs
    ensures var t, t' := Run(s0, ops[..i]).jobs, Run(s0, ops[..k]).jobs;
            id in t' && t'[id].session == t[id].session && t'[id].idempotencyKey == t[id].idempotencyKey
    decreases k
  {
    hide Apply, Run, FreshIds;
    if i < k {
      JobPersists(s0, ops, i, k - 1, id);
      RunStep(s0, ops, k - 1);
      FreshAlways(s0, ops[..k - 1]);
      JobStep(Run(s0, ops[..k - 1]), ops[k - 1], id);
    }
  }

  lemma {:induction false} SessionsConstant(s0: Store, ops: seq<Op>)
    ensures Run(s0, ops).sessions == s0.sessions
  {
    if ops != [] {
      SessionsConstant(s0, ops[..|ops| - 1]);
    }
  }

  // --------------------------------------------------------- claims and retries

  predicate Claims(s: Store, op: Op, id: JobId) {
    op.ClaimOp? && op.id == id && Claim(s.jobs, op.session, id).1.Ok?
  }

  ghost predicate Retries(s: Store, op: Op, id: JobId) {
    op.RetryOp? && op.id == id && Retry(s.jobs, op.session, id).1.Ok?
  }

  ghost function ClaimCount(s0: Store, ops: seq<Op>, id: JobId): nat {
    if ops == [] then 0
    else ClaimCount(s0, ops[..|ops| - 1], id) + if Claims(Run(s0, ops[..|ops| - 1]), ops[|ops| - 1], id) then 1 else 0
  }

  ghost function RetryCount(s0: Store, ops: seq<Op>, id: JobId): nat {
    if ops == [] then 0
    else RetryCount(s0, ops[..|ops| - 1], id) + if Retries(Run(s0, ops[..|ops| - 1]), ops[|ops| - 1], id) then 1 else 0
  }

  lemma QueuedStep(s: Store, op: Op, id: JobId)
    requires FreshIds(s) && id in Apply(s, op).jobs && Apply(s, op).jobs[id].status == Queued
    ensures !Claims(s, op, id)
    ensures id in s.jobs && s.jobs[id].status != Queued ==> Retries(s, op, id)
  {
    hide UpdateJob;
    JobStep(s, op, id);
    if op.UpdateOp? && id in s.jobs && !Active(s.jobs[id].status) && op.id == id {
      UpdateNeverActivates(s.jobs, id, op.u);
    }
    if op.UpdateOp? {
      UpdateShape(s.jobs, op.id, op.u);
    }
  }

  lemma ClaimStep(s: Store, op: Op, id: JobId)
    requires Claims(s, op, id)
    ensures id in s.jobs && s.jobs[id].status == Queued && !Retries(s, op, id)
  {
  }

  /** Main result.  A job is claimed at most once per time it was queued: claims
      never exceed one plus the successful retries. */
  lemma {:induction false} ClaimsBoundedByRetries(s0: Store, ops: seq<Op>, id: JobId)
    requires FreshIds(s0) && id !in s0.jobs
    ensures var t := Run(s0, ops).jobs;
            && ClaimCount(s0, ops, id) + (if id in t && t[id].status == Queued then 1 else 0)
               <= 1 + RetryCount(s0, ops, id)
            && (id !in t ==> ClaimCount(s0, ops, id) == 0)
  {
    hide Apply, FreshIds, Claims, Retries;
    if ops != [] {
      var before, op := ops[..|ops| - 1], ops[|ops| - 1];
      var s := Run(s0, before);
      ClaimsBoundedByRetries(s0, before, id);
      FreshAlways(s0, before);
      JobStep(s, op, id);
      if Claims(s, op, id) {
        ClaimStep(s, op, id);
      }
      if id in Apply(s, op).jobs && Apply(s, op).jobs[id].status == Queued {
        QueuedStep(s, op, id);
      }
    }
  }
}
