/** Proofs about the cancellation barrier. */
module CaptureBarrierProofs {
  import opened Wrappers
  import opened CaptureJobs
  import J = CaptureJobProofs
  import opened CaptureBarrier

  // ------------------------------------------------------ steps on the table

  /** Whatever the step, the table changes by at most one store operation. */
  ghost function OpOf(s: Sys, a: Action): Option<Op> {
    match a
    case WorkerStep(w, act) =>
      if w !in s.workers then None
      else
        var wk := s.workers[w];
        (match act
         case Start => Some(ClaimOp(wk.session, wk.job))
         case CheckTop(_) => Some(CheckpointOp(wk.session, wk.job))
         case CheckLocked => Some(CheckpointOp(wk.session, wk.job))
         case CheckAfter(_) => Some(CheckpointOp(wk.session, wk.job))
         case Progress(u) => Some(UpdateOp(wk.job, u))
         case Finish(u) => Some(UpdateOp(wk.job, u))
         case Fail(u) => Some(UpdateOp(wk.job, u))
         case _ => None)
    case CreateJob(_, session, key, spec) => Some(CreateOp(session, key, spec))
    case RetryJob(_, session, job) => Some(RetryOp(session, job))
    case MarkFailed(sub, u) => if sub in s.submitters then Some(UpdateOp(s.submitters[sub].job, u)) else None
    case RequestStop(_, session, job, control, reason) => Some(ControlOp(session, job, control, reason))
    case Initialize => Some(InitializeOp)
    case Restart(r) => Some(RestartOp(r))
    case _ => None
  }

  lemma StoreStep(s: Sys, stripe: JobId -> nat, a: Action)
    ensures var s' := Exec(s, stripe, a);
            s'.store == if Enabled(s, stripe, a) && OpOf(s, a).Some? then Apply(s.store, OpOf(s, a).value) else s.store
  {
    hide Create, UpdateJob, Claim, Checkpoint, RequestControl, Retry, Normalized, Restarted;
  }

  ghost predicate JobControlled(s: Sys, job: JobId) {
    job in s.store.jobs && Controlled(s.store.jobs[job].status)
  }

  lemma ControlledStays(s: Sys, stripe: JobId -> nat, a: Action, job: JobId)
    requires FreshIds(s.store)
    ensures FreshIds(Exec(s, stripe, a).store)
    ensures JobControlled(s, job) ==> JobControlled(Exec(s, stripe, a), job)
    ensures job in s.store.jobs ==> job in Exec(s, stripe, a).store.jobs
  {
    hide Exec, OpOf, FreshIds, Apply;
    StoreStep(s, stripe, a);
    if Enabled(s, stripe, a) && OpOf(s, a).Some? {
      J.JobStep(s.store, OpOf(s, a).value, job);
    }
  }

  // ------------------------------------------------------- the barrier itself

  predicate Authorised(s: Sys, w: nat, job: JobId) {
    w in s.workers && s.workers[w].job == job && s.workers[w].pc.InPhase?
  }

  /** Stripes are held by exactly the threads that are inside. */
  ghost predicate LocksOk(s: Sys, stripe: JobId -> nat) {
    && (forall w :: w in s.workers && HoldsStripe(s.workers[w].pc) ==>
          stripe(s.workers[w].job) in s.locks && s.locks[stripe(s.workers[w].job)] == W(w))
    && (forall c :: c in s.controllers && s.controllers[c].Holding? ==>
          stripe(s.controllers[c].job) in s.locks && s.locks[stripe(s.controllers[c].job)] == C(c))
  }

  /** The job's control request has committed. */
  ghost predicate Stopped(s: Sys, job: JobId) {
    job in s.returned || exists c :: c in s.controllers && s.controllers[c].job == job
  }

  /** Its handler has been inside the stripe since. */
  ghost predicate Fenced(s: Sys, job: JobId) {
    job in s.returned || exists c :: c in s.controllers && s.controllers[c] == Holding(job)
  }

  ghost predicate Inv(s: Sys, stripe: JobId -> nat) {
    && FreshIds(s.store)
    && LocksOk(s, stripe)
    && (forall job :: Stopped(s, job) ==> JobControlled(s, job))
    && (forall w, job :: Fenced(s, job) ==> !Authorised(s, w, job))
  }

  lemma WorkerLocksStep(s: Sys, stripe: JobId -> nat, w: nat, act: WorkerAct)
    requires LocksOk(s, stripe) && w in s.workers && Ready(s, stripe, s.workers[w], act)
    ensures LocksOk(WorkerDo(s, stripe, w, act), stripe)
  {
    hide JobsAfter, SeesRunning, Claim;
    var pc, pc' := s.workers[w].pc, PcAfter(s.store.jobs, s.workers[w], act);
    assert HoldsStripe(pc') ==> HoldsStripe(pc) || act.TakeLock?;
  }

  lemma LocksStep(s: Sys, stripe: JobId -> nat, a: Action)
    requires LocksOk(s, stripe) && Enabled(s, stripe, a)
    ensures LocksOk(Step(s, stripe, a), stripe)
  {
    hide Create, Retry, RequestControl, Apply, WorkerDo, LocksOk;
    match a
    case WorkerStep(w, act) => WorkerLocksStep(s, stripe, w, act);
    case TakeStripe(_) => TakeStripeLocks(s, stripe, a);
    case Respond(_) => RespondLocks(s, stripe, a);
    case _ => IdleLocks(s, stripe, a);
  }

  lemma TakeStripeLocks(s: Sys, stripe: JobId -> nat, a: Action)
    requires LocksOk(s, stripe) && Enabled(s, stripe, a) && a.TakeStripe?
    ensures LocksOk(Step(s, stripe, a), stripe)
  {
  }

  lemma RespondLocks(s: Sys, stripe: JobId -> nat, a: Action)
    requires LocksOk(s, stripe) && Enabled(s, stripe, a) && a.Respond?
    ensures LocksOk(Step(s, stripe, a), stripe)
  {
  }

  /** No thread has moved into or out of a stripe. */
  predicate SameHolders(s: Sys, s': Sys) {
    && s'.locks == s.locks
    && (forall w :: w in s'.workers && HoldsStripe(s'.workers[w].pc) ==>
          w in s.workers && s'.workers[w] == s.workers[w])
    && (forall c :: c in s'.controllers && s'.controllers[c].Holding? ==>
          c in s.controllers && s'.controllers[c] == s.controllers[c])
  }

  lemma SameHoldersKeepLocks(s: Sys, s': Sys, stripe: JobId -> nat)
    requires LocksOk(s, stripe) && SameHolders(s, s')
    ensures LocksOk(s', stripe)
  {
  }

  lemma IdleHolders(s: Sys, stripe: JobId -> nat, a: Action)
    requires Enabled(s, stripe, a)
    requires !a.WorkerStep? && !a.TakeStripe? && !a.Respond? && !a.Restart?
    ensures SameHolders(s, Step(s, stripe, a))
  {
    hide Create, Retry, RequestControl, Apply, SameHolders;
    var s' := Step(s, stripe, a);
    if a.SubmitOk? {
      SubmitHolders(s, stripe, a);
    } else if a.RequestStop? {
      RequestHolders(s, stripe, a);
    } else {
      assert s'.locks == s.locks && s'.workers == s.workers && s'.controllers == s.controllers;
      UnmovedHolders(s, s');
    }
  }

  lemma UnmovedHolders(s: Sys, s': Sys)
    requires s'.locks == s.locks && s'.workers == s.workers && s'.controllers == s.controllers
    ensures SameHolders(s, s')
  {
  }

  lemma SubmitHolders(s: Sys, stripe: JobId -> nat, a: Action)
    requires Enabled(s, stripe, a) && a.SubmitOk?
    ensures SameHolders(s, Step(s, stripe, a))
  {
  }

  lemma RequestHolders(s: Sys, stripe: JobId -> nat, a: Action)
    requires Enabled(s, stripe, a) && a.RequestStop?
    ensures SameHolders(s, Step(s, stripe, a))
  {
    hide RequestControl, Apply;
  }

  /** Steps that take or give back no stripe, and a restart, which drops them all. */
  lemma IdleLocks(s: Sys, stripe: JobId -> nat, a: Action)
    requires LocksOk(s, stripe) && Enabled(s, stripe, a) && !a.WorkerStep? && !a.TakeStripe? && !a.Respond?
    ensures LocksOk(Step(s, stripe, a), stripe)
  {
    hide Create, Retry, RequestControl, Apply, Enabled;
    if !a.Restart? {
      IdleHolders(s, stripe, a);
      SameHoldersKeepLocks(s, Step(s, stripe, a), stripe);
    }
  }

  lemma ControlOutcome(t: Table, session: string, id: JobId, c: Control, reason: string)
    ensures var (t', r) := RequestControl(t, session, id, c, reason);
            && (r.Ok? <==> Present(t, session, id) && t[id].status in {Queued, Running, Requested(c), Terminal(c)})
            && (r.Ok? ==> Present(t', session, id) && t'[id].status == r.value && Controlled(r.value)
                          && r.value in {Requested(c), Terminal(c)})
            && (!r.Ok? ==> t' == t)
  {
  }

  lemma StoppedStep(s: Sys, stripe: JobId -> nat, a: Action, job: JobId)
    requires Inv(s, stripe) && Enabled(s, stripe, a)
    requires Stopped(Step(s, stripe, a), job)
    ensures JobControlled(Step(s, stripe, a), job)
  {
    hide Create, UpdateJob, Claim, Checkpoint, RequestControl, Retry, Normalized, Restarted, Apply, Controlled,
         FreshIds;
    ControlledStays(s, stripe, a, job);
    if a.RequestStop? && !Stopped(s, job) {
      ControlOutcome(s.store.jobs, a.session, a.job, a.control, a.reason);
      StoreStep(s, stripe, a);
      ApplyControl(s.store, a.session, a.job, a.control, a.reason);
    }
  }

  lemma ApplyControl(st: Store, session: string, id: JobId, c: Control, reason: string)
    ensures Apply(st, ControlOp(session, id, c, reason)).jobs == RequestControl(st.jobs, session, id, c, reason).0
  {
  }

  /** A checkpoint that lets the worker go on has seen an uncontrolled job. */
  lemma RunningIsNotControlled(t: Table, wk: Worker)
    requires SeesRunning(t, wk)
    ensures wk.job in t && t[wk.job].status == Running
  {
  }

  lemma FencedStep(s: Sys, stripe: JobId -> nat, a: Action, w: nat, job: JobId)
    requires Inv(s, stripe) && Enabled(s, stripe, a)
    requires Fenced(Step(s, stripe, a), job)
    ensures !Authorised(Step(s, stripe, a), w, job)
  {
    hide Create, UpdateJob, Claim, Checkpoint, RequestControl, Retry, Normalized, Restarted, Apply, FreshIds;
    if a.WorkerStep? {
      assert Fenced(s, job) && Stopped(s, job) && !Authorised(s, w, job);
      if a.w == w && a.act.CheckLocked? && SeesRunning(s.store.jobs, s.workers[w]) {
        RunningIsNotControlled(s.store.jobs, s.workers[w]);
      }
    } else if a.TakeStripe? && s.controllers[a.c].job == job {
      assert stripe(job) !in s.locks;
    } else if !a.Restart? {
      assert Fenced(s, job) && !Authorised(s, w, job);
    }
  }

  lemma {:induction false} InvAlways(s0: Sys, stripe: JobId -> nat, acts: seq<Action>)
    requires Initial(s0)
    ensures Inv(Reach(s0, stripe, acts), stripe)
  {
    hide Step, Enabled, LocksOk, Stopped, Fenced, JobControlled, FreshIds;
    if acts == [] {
      InitialInv(s0, stripe);
    } else {
      var s, a := Reach(s0, stripe, acts[..|acts| - 1]), acts[|acts| - 1];
      InvAlways(s0, stripe, acts[..|acts| - 1]);
      if Enabled(s, stripe, a) {
        var s' := Step(s, stripe, a);
        LocksStep(s, stripe, a);
        ControlledStays(s, stripe, a, 0);
        forall job | Stopped(s', job)
          ensures JobControlled(s', job)
        {
          StoppedStep(s, stripe, a, job);
        }
        forall w, job | Fenced(s', job)
          ensures !Authorised(s', w, job)
        {
          FencedStep(s, stripe, a, w, job);
        }
      }
    }
  }

  lemma InitialInv(s0: Sys, stripe: JobId -> nat)
    requires Initial(s0)
    ensures Inv(s0, stripe)
  {
  }

  // ----------------------------------------------------- after the response

  lemma RunStep(s0: Sys, stripe: JobId -> nat, acts: seq<Action>, k: nat)
    requires k < |acts|
    ensures Reach(s0, stripe, acts[..k + 1]) == Exec(Reach(s0, stripe, acts[..k]), stripe, acts[k])
  {
    assert acts[..k + 1][..|acts[..k + 1]| - 1] == acts[..k];
  }

  /** One step writes a row for a job only from a worker authorised for it. */
  lemma EffectStep(s: Sys, stripe: JobId -> nat, a: Action, job: JobId)
    requires forall w :: !Authorised(s, w, job)
    ensures EffectsOf(Exec(s, stripe, a).effects, job) == EffectsOf(s.effects, job)
    ensures job in s.returned ==> job in Exec(s, stripe, a).returned
  {
    hide Create, UpdateJob, Claim, Checkpoint, RequestControl, Retry, Normalized, Restarted, Apply;
    var s' := Exec(s, stripe, a);
    if s'.effects != s.effects {
      assert a.WorkerStep? && a.act.Write? && s'.effects[..|s'.effects| - 1] == s.effects;
      assert !Authorised(s, a.w, job);
    }
  }

  /** Main result.  Once a cancel or block response has been sent, in every later
      state of every interleaving no external phase of that job is running, its
      control request still stands, and no row has been written for it since. */
  lemma {:induction false} ResponseIsABarrier(
    s0: Sys, stripe: JobId -> nat, acts: seq<Action>, i: nat, k: nat, job: JobId)
    requires Initial(s0) && i <= k <= |acts|
    requires job in Reach(s0, stripe, acts[..i]).returned
    ensures var s, s' := Reach(s0, stripe, acts[..i]), Reach(s0, stripe, acts[..k]);
            && job in s'.returned && JobControlled(s', job)
            && (forall w :: !Authorised(s', w, job))
            && EffectsOf(s'.effects, job) == EffectsOf(s.effects, job)
    decreases k
  {
    hide Exec, Reach, EffectsOf, LocksOk, JobControlled, FreshIds, Authorised;
    if i < k {
      ResponseIsABarrier(s0, stripe, acts, i, k - 1, job);
      RunStep(s0, stripe, acts, k - 1);
      EffectStep(Reach(s0, stripe, acts[..k - 1]), stripe, acts[k - 1], job);
    }
    InvAlways(s0, stripe, acts[..k]);
    var s' := Reach(s0, stripe, acts[..k]);
    assert job in s'.returned;
    assert Stopped(s', job) && Fenced(s', job);
  }

  // ------------------------------------------------------- one live worker

  datatype Ticket = FromSubmitter(sub: nat) | FromWorker(w: nat)

  /** Who may still act for a job: a request about to submit it, or a worker that
      is not over. */
  predicate HasTicket(s: Sys, t: Ticket, job: JobId) {
    match t
    case FromSubmitter(sub) => sub in s.submitters && s.submitters[sub].job == job
    case FromWorker(w) => w in s.workers && s.workers[w].job == job && !s.workers[w].pc.Over?
  }

  /** At most one ticket a job, and none for a job that could be retried. */
  ghost predicate TicketsOk(s: Sys) {
    && FreshIds(s.store)
    && (forall t, job :: HasTicket(s, t, job) ==>
          job in s.store.jobs && s.store.jobs[job].status !in {Completed, Failed})
    && (forall t, u, job :: HasTicket(s, t, job) && HasTicket(s, u, job) ==> t == u)
  }

  /** The step queues `job`, which had no ticket before. */
  ghost predicate NewlyQueued(s: Sys, a: Action, job: JobId) {
    || (a.CreateJob? &&
        Create(s.store.jobs, s.store.sessions, s.store.nextId, a.session, a.key, a.spec).1 == Ok(Created(job, false)))
    || (a.RetryJob? && job == a.job && Retry(s.store.jobs, a.session, job).1.Ok?)
  }

  /** A new ticket appears with a created or retried job, or when a submission
      turns into a worker. */
  lemma TicketStep(s: Sys, stripe: JobId -> nat, a: Action, t: Ticket, job: JobId)
    requires Enabled(s, stripe, a) && HasTicket(Step(s, stripe, a), t, job)
    ensures || HasTicket(s, t, job)
            || (NewlyQueued(s, a, job) && t == FromSubmitter(a.sub))
            || (a.SubmitOk? && t == FromWorker(a.w) && HasTicket(s, FromSubmitter(a.sub), job))
    ensures a.SubmitOk? ==> t != FromSubmitter(a.sub)
  {
    hide UpdateJob, Claim, Checkpoint, RequestControl, Retry, Normalized, Restarted, Apply;
  }

  /** A job gets a final status only in a step that uses up a ticket for it. */
  lemma FinalStatusStep(s: Sys, stripe: JobId -> nat, a: Action, job: JobId)
    requires FreshIds(s.store) && Enabled(s, stripe, a)
    requires job in s.store.jobs && s.store.jobs[job].status !in {Completed, Failed}
    requires job in Step(s, stripe, a).store.jobs && Step(s, stripe, a).store.jobs[job].status in {Completed, Failed}
    ensures a.Restart? || exists t :: HasTicket(s, t, job) && !HasTicket(Step(s, stripe, a), t, job)
  {
    hide Create, Claim, Checkpoint, RequestControl, Retry, Normalized, Restarted, Apply, UpdateJob;
    StoreStep(s, stripe, a);
    if OpOf(s, a).Some? && !a.Restart? {
      FinalNeedsUpdate(s.store, OpOf(s, a).value, job);
      if a.MarkFailed? {
        assert HasTicket(s, FromSubmitter(a.sub), job) && !HasTicket(Step(s, stripe, a), FromSubmitter(a.sub), job);
      } else {
        assert HasTicket(s, FromWorker(a.w), job) && !HasTicket(Step(s, stripe, a), FromWorker(a.w), job);
      }
    }
  }

  lemma FinalNeedsUpdate(st: Store, op: Op, job: JobId)
    requires FreshIds(st) && !op.RestartOp?
    requires job in st.jobs && st.jobs[job].status !in {Completed, Failed}
    requires job in Apply(st, op).jobs && Apply(st, op).jobs[job].status in {Completed, Failed}
    ensures op.UpdateOp? && op.id == job && op.u.status.Some?
  {
  }

  lemma NewTicketStatus(s: Sys, stripe: JobId -> nat, a: Action, job: JobId)
    requires Enabled(s, stripe, a)
    requires NewlyQueued(s, a, job)
    ensures job in Step(s, stripe, a).store.jobs && Step(s, stripe, a).store.jobs[job].status == Queued
    ensures a.RetryJob? ==> job in s.store.jobs && s.store.jobs[job].status == Failed
    ensures a.CreateJob? ==> job == s.store.nextId
  {
  }

  lemma TicketKeepsStatus(s: Sys, stripe: JobId -> nat, a: Action, t: Ticket, job: JobId)
    requires TicketsOk(s) && Enabled(s, stripe, a) && HasTicket(Step(s, stripe, a), t, job)
    ensures var s' := Step(s, stripe, a);
            job in s'.store.jobs && s'.store.jobs[job].status !in {Completed, Failed}
  {
    hide Step, Enabled, FreshIds, HasTicket;
    var s' := Step(s, stripe, a);
    TicketStep(s, stripe, a, t, job);
    if NewlyQueued(s, a, job) {
      NewTicketStatus(s, stripe, a, job);
    } else {
      ControlledStays(s, stripe, a, job);
      if s'.store.jobs[job].status in {Completed, Failed} {
        NoThreadAfterRestart(s, stripe, a, t, job);
        FinalStatusStep(s, stripe, a, job);
        var used :| HasTicket(s, used, job) && !HasTicket(s', used, job);
        if a.SubmitOk? {
          SubmitKeepsStore(s, stripe, a);
        }
      }
    }
  }

  lemma NoThreadAfterRestart(s: Sys, stripe: JobId -> nat, a: Action, t: Ticket, job: JobId)
    requires Enabled(s, stripe, a) && HasTicket(Step(s, stripe, a), t, job)
    ensures !a.Restart?
  {
  }

  lemma SubmitKeepsStore(s: Sys, stripe: JobId -> nat, a: Action)
    requires Enabled(s, stripe, a) && a.SubmitOk?
    ensures Step(s, stripe, a).store == s.store
  {
  }

  lemma TicketsStayUnique(s: Sys, stripe: JobId -> nat, a: Action, t: Ticket, u: Ticket, job: JobId)
    requires TicketsOk(s) && Enabled(s, stripe, a)
    requires HasTicket(Step(s, stripe, a), t, job) && HasTicket(Step(s, stripe, a), u, job)
    ensures t == u
  {
    hide Step, Enabled, HasTicket;
    TicketStep(s, stripe, a, t, job);
    TicketStep(s, stripe, a, u, job);
    if NewlyQueued(s, a, job) {
      NewTicketStatus(s, stripe, a, job);
    }
  }

  lemma {:induction false} TicketsAlwaysOk(s0: Sys, stripe: JobId -> nat, acts: seq<Action>)
    requires Initial(s0)
    ensures TicketsOk(Reach(s0, stripe, acts))
  {
    hide Step, Enabled, FreshIds, HasTicket;
    if acts == [] {
      NoTicketsAtStart(s0);
    } else {
      var s, a := Reach(s0, stripe, acts[..|acts| - 1]), acts[|acts| - 1];
      TicketsAlwaysOk(s0, stripe, acts[..|acts| - 1]);
      if Enabled(s, stripe, a) {
        var s' := Step(s, stripe, a);
        ControlledStays(s, stripe, a, 0);
        forall t, job | HasTicket(s', t, job)
          ensures job in s'.store.jobs && s'.store.jobs[job].status !in {Completed, Failed}
        {
          TicketKeepsStatus(s, stripe, a, t, job);
        }
        forall t, u, job | HasTicket(s', t, job) && HasTicket(s', u, job)
          ensures t == u
        {
          TicketsStayUnique(s, stripe, a, t, u, job);
        }
      }
    }
  }

  lemma NoTicketsAtStart(s0: Sys)
    requires Initial(s0)
    ensures TicketsOk(s0)
  {
  }

  /** Main result.  No interleaving of creates, submissions, full queues, retries
      and restarts ever has two unfinished workers for one job, and a job that is
      completed or waiting for a retry has none. */
  lemma OneLiveWorkerPerJob(s0: Sys, stripe: JobId -> nat, acts: seq<Action>, v: nat, w: nat)
    requires Initial(s0)
    requires var s := Reach(s0, stripe, acts);
             && v in s.workers && w in s.workers && s.workers[v].job == s.workers[w].job
             && !s.workers[v].pc.Over? && !s.workers[w].pc.Over?
    ensures v == w
    ensures var s := Reach(s0, stripe, acts);
            s.workers[v].job in s.store.jobs && s.store.jobs[s.workers[v].job].status !in {Completed, Failed}
  {
    hide Reach, FreshIds;
    TicketsAlwaysOk(s0, stripe, acts);
    var s := Reach(s0, stripe, acts);
    assert HasTicket(s, FromWorker(v), s.workers[v].job) && HasTicket(s, FromWorker(w), s.workers[v].job);
  }
}
