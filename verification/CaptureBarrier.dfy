/** The cancellation barrier: workers, submitters and control requests of any
    number of capture jobs, interleaved step by step over the job table and a
    striped lock.

    A control response is sent only after its handler has taken and released the
    stripe of the job.  Stripes are given by an arbitrary function of the job, so
    collisions between jobs are covered. */
module CaptureBarrier {
  import opened Wrappers
  import opened CaptureJobs

  datatype Phase = Search | Archive

  /** Where a worker is in `_run_consult_capture_job`. */
  datatype Pc =
    | Waiting            // submitted to the executor
    | Top                // loop head, before the first checkpoint of a round
    | AtLock(p: Phase)   // about to take the stripe
    | Locked(p: Phase)   // holds the stripe, about to checkpoint
    | InPhase(p: Phase)  // authorised: external calls and their writes
    | After(p: Phase)    // stripe released, about to checkpoint
    | Finishing          // about to write `completed`
    | Failing            // about to write `failed`
    | Over

  datatype Worker = Worker(session: string, job: JobId, pc: Pc)

  /** A request that has queued a job and has yet to hand it to the executor. */
  datatype Submitter = Submitting(job: JobId) | MarkingFailed(job: JobId)

  /** A cancel or block request whose transaction has committed. */
  datatype Controller = Published(job: JobId) | Holding(job: JobId)

  datatype Thread = W(id: nat) | C(id: nat)

  /** One query, evidence, asset or attempt row written on behalf of a job. */
  datatype Effect = Effect(job: JobId, phase: Phase)

  datatype Sys = Sys(
    store: Store,
    locks: map<nat, Thread>,
    workers: map<nat, Worker>,
    submitters: map<nat, Submitter>,
    controllers: map<nat, Controller>,
    returned: set<JobId>,   // jobs with a control response that has been sent
    effects: seq<Effect>)

  datatype WorkerAct =
    | Start
    | CheckTop(reached: bool)
    | LeaveLoop
    | Progress(u: Update)
    | TakeLock
    | CheckLocked
    | Write
    | EndPhase
    | CheckAfter(reached: bool)
    | Finish(u: Update)
    | Fault
    | Fail(u: Update)

  datatype Action =
    | WorkerStep(w: nat, act: WorkerAct)
    | CreateJob(sub: nat, session: string, key: string, spec: Spec)
    | RetryJob(sub: nat, session: string, job: JobId)
    | SubmitOk(sub: nat, w: nat)
    | QueueFull(sub: nat)
    | MarkFailed(sub: nat, u: Update)
    | RequestStop(c: nat, session: string, job: JobId, control: Control, reason: string)
    | TakeStripe(c: nat)
    | Respond(c: nat)
    | Initialize
    | Restart(redactor: Redactor)

  // ------------------------------------------------------------- worker steps

  predicate HoldsStripe(pc: Pc) {
    pc.Locked? || pc.InPhase?
  }

  predicate ProgressOnly(u: Update) {
    u.status.None? && u.stopReason.None? && u.errorCode.None? && u.retryable.None?
  }

  predicate Ready(s: Sys, stripe: JobId -> nat, wk: Worker, act: WorkerAct) {
    match act
    case Start => wk.pc.Waiting?
    case CheckTop(_) => wk.pc.Top?
    case LeaveLoop => wk.pc.Top?
    case Progress(u) => ProgressOnly(u) && (wk.pc.Top? || wk.pc == AtLock(Search) || wk.pc == InPhase(Archive))
    case TakeLock => wk.pc.AtLock? && stripe(wk.job) !in s.locks
    case CheckLocked => wk.pc.Locked?
    case Write => wk.pc.InPhase?
    case EndPhase => wk.pc.InPhase?
    case CheckAfter(_) => wk.pc.After?
    case Finish(u) => wk.pc.Finishing? && u.status == Some(Completed)
    case Fault => !wk.pc.Waiting? && !wk.pc.Failing? && !wk.pc.Over?
    case Fail(u) => wk.pc.Failing? && u.status == Some(Failed)
  }

  /** The job table after the database part of a worker step. */
  function JobsAfter(t: Table, wk: Worker, act: WorkerAct): Table {
    match act
    case Start => Claim(t, wk.session, wk.job).0
    case CheckTop(_) => Checkpoint(t, wk.session, wk.job).0
    case CheckLocked => Checkpoint(t, wk.session, wk.job).0
    case CheckAfter(_) => Checkpoint(t, wk.session, wk.job).0
    case Progress(u) => UpdateJob(t, wk.job, u).0
    case Finish(u) => UpdateJob(t, wk.job, u).0
    case Fail(u) => UpdateJob(t, wk.job, u).0
    case _ => t
  }

  predicate SeesRunning(t: Table, wk: Worker) {
    Checkpoint(t, wk.session, wk.job).1 == Ok(Running)
  }

  function PcAfter(t: Table, wk: Worker, act: WorkerAct): Pc {
    match act
    case Start => if Claim(t, wk.session, wk.job).1.Ok? then Top else Over
    case CheckTop(reached) =>
      if !SeesRunning(t, wk) then Over else if reached then Finishing else AtLock(Search)
    case LeaveLoop => Finishing
    case Progress(_) => wk.pc
    case TakeLock => if wk.pc.AtLock? then Locked(wk.pc.p) else wk.pc
    case CheckLocked => if SeesRunning(t, wk) && wk.pc.Locked? then InPhase(wk.pc.p) else Over
    case Write => wk.pc
    case EndPhase => if wk.pc.InPhase? then After(wk.pc.p) else wk.pc
    case CheckAfter(reached) =>
      if !SeesRunning(t, wk) then Over
      else if wk.pc == After(Search) then AtLock(Archive)
      else if reached then Finishing else Top
    case Finish(_) => Over
    case Fault => Failing
    case Fail(_) => Over
  }

  function WorkerDo(s: Sys, stripe: JobId -> nat, w: nat, act: WorkerAct): Sys
    requires w in s.workers
  {
    var wk := s.workers[w];
    var wk' := wk.(pc := PcAfter(s.store.jobs, wk, act));
    s.(store := s.store.(jobs := JobsAfter(s.store.jobs, wk, act)),
       locks := if act.TakeLock? then s.locks[stripe(wk.job) := W(w)]
                else if HoldsStripe(wk.pc) && !HoldsStripe(wk'.pc) then s.locks - {stripe(wk.job)}
                else s.locks,
       workers := s.workers[w := wk'],
       effects := if act.Write? && wk.pc.InPhase? then s.effects + [Effect(wk.job, wk.pc.p)] else s.effects)
  }

  // -------------------------------------------------------------- other steps

  predicate Enabled(s: Sys, stripe: JobId -> nat, a: Action) {
    match a
    case WorkerStep(w, act) => w in s.workers && Ready(s, stripe, s.workers[w], act)
    case CreateJob(sub, _, _, _) => sub !in s.submitters
    case RetryJob(sub, _, _) => sub !in s.submitters
    case SubmitOk(sub, w) => sub in s.submitters && s.submitters[sub].Submitting? && w !in s.workers
                             && s.submitters[sub].job in s.store.jobs
    case QueueFull(sub) => sub in s.submitters && s.submitters[sub].Submitting?
    case MarkFailed(sub, u) => sub in s.submitters && s.submitters[sub].MarkingFailed? && u.status == Some(Failed)
    case RequestStop(c, _, _, _, _) => c !in s.controllers
    case TakeStripe(c) => c in s.controllers && s.controllers[c].Published? && stripe(s.controllers[c].job) !in s.locks
    case Respond(c) => c in s.controllers && s.controllers[c].Holding?
    case Initialize => true
    case Restart(_) => true
  }

  ghost function Step(s: Sys, stripe: JobId -> nat, a: Action): Sys
    requires Enabled(s, stripe, a)
  {
    match a
    case WorkerStep(w, act) => WorkerDo(s, stripe, w, act)
    case CreateJob(sub, session, key, spec) =>
      var r := Create(s.store.jobs, s.store.sessions, s.store.nextId, session, key, spec).1;
      var s' := s.(store := Apply(s.store, CreateOp(session, key, spec)));
      if r.Ok? && !r.value.replay then s'.(submitters := s.submitters[sub := Submitting(r.value.id)]) else s'
    case RetryJob(sub, session, job) =>
      var s' := s.(store := Apply(s.store, RetryOp(session, job)));
      if Retry(s.store.jobs, session, job).1.Ok? then s'.(submitters := s.submitters[sub := Submitting(job)]) else s'
    case SubmitOk(sub, w) =>
      var job := s.submitters[sub].job;
      s.(submitters := s.submitters - {sub}, workers := s.workers[w := Worker(s.store.jobs[job].session, job, Waiting)])
    case QueueFull(sub) => s.(submitters := s.submitters[sub := MarkingFailed(s.submitters[sub].job)])
    case MarkFailed(sub, u) =>
      s.(store := Apply(s.store, UpdateOp(s.submitters[sub].job, u)), submitters := s.submitters - {sub})
    case RequestStop(c, session, job, control, reason) =>
      var s' := s.(store := Apply(s.store, ControlOp(session, job, control, reason)));
      if RequestControl(s.store.jobs, session, job, control, reason).1.Ok?
      then s'.(controllers := s.controllers[c := Published(job)]) else s'
    case TakeStripe(c) =>
      s.(locks := s.locks[stripe(s.controllers[c].job) := C(c)],
         controllers := s.controllers[c := Holding(s.controllers[c].job)])
    case Respond(c) =>
      var job := s.controllers[c].job;
      s.(locks := s.locks - {stripe(job)}, controllers := s.controllers - {c}, returned := s.returned + {job})
    case Initialize => s.(store := Apply(s.store, InitializeOp))
    case Restart(r) =>
      Sys(Apply(s.store, RestartOp(r)), map[], map[], map[], map[], s.returned, s.effects)
  }

  /** An impossible action leaves the state alone, so every sequence of actions
      is an interleaving. */
  ghost function Exec(s: Sys, stripe: JobId -> nat, a: Action): Sys {
    if Enabled(s, stripe, a) then Step(s, stripe, a) else s
  }

  ghost function Reach(s0: Sys, stripe: JobId -> nat, acts: seq<Action>): Sys {
    if acts == [] then s0 else Exec(Reach(s0, stripe, acts[..|acts| - 1]), stripe, acts[|acts| - 1])
  }

  /** A process that has just started: recovery has run, no thread exists. */
  ghost predicate Initial(s: Sys) {
    && FreshIds(s.store)
    && s.locks == map[] && s.workers == map[] && s.submitters == map[] && s.controllers == map[]
    && s.returned == {}
    && forall id :: id in s.store.jobs ==> !Active(s.store.jobs[id].status)
  }

  /** The rows written for one job. */
  function EffectsOf(effects: seq<Effect>, job: JobId): seq<Effect> {
    if effects == [] then []
    else EffectsOf(effects[..|effects| - 1], job)
         + if effects[|effects| - 1].job == job then [effects[|effects| - 1]] else []
  }
}
