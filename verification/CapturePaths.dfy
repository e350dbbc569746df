/** The paths of capture jobs through submission, worker and control request, each
    followed through when nobody interferes: the machine does get where it should. */
module CapturePaths {
  import opened Wrappers
  import opened CaptureJobs
  import opened CaptureJobAnswers
  import opened CaptureBarrier

  const NO_COUNTS := CountUpdate(None, None, None, None, None)

  function StatusOnly(status: Status): Update {
    Update(Some(status), None, None, NO_COUNTS, None, None, None, None)
  }

  /** A worker of this job is at this place, and the job has this status. */
  predicate At(s: Sys, w: nat, id: JobId, session: string, pc: Pc, status: Status) {
    && w in s.workers && s.workers[w] == Worker(session, id, pc)
    && id in s.store.jobs && s.store.jobs[id].session == session && s.store.jobs[id].status == status
  }

  ghost function Do(s: Sys, stripe: JobId -> nat, w: nat, act: WorkerAct): Sys {
    Exec(s, stripe, WorkerStep(w, act))
  }

  // ------------------------------------------------------------------ submission

  /** A created job is handed to the executor and has a worker waiting, or, with the
      queue full, is failed. */
  lemma SubmissionPath(s: Sys, stripe: JobId -> nat, sub: nat, w: nat, session: string, spec: Spec)
    requires session in s.store.sessions && sub !in s.submitters && w !in s.workers
    requires forall x :: x in s.store.jobs ==> s.store.jobs[x].session != session || !Busy(s.store.jobs[x])
    ensures var id := s.store.nextId;
            var s1 := Exec(s, stripe, CreateJob(sub, session, "", spec));
            At(Exec(s1, stripe, SubmitOk(sub, w)), w, id, session, Waiting, Queued)
    ensures var id := s.store.nextId;
            var s1 := Exec(s, stripe, CreateJob(sub, session, "", spec));
            var s2 := Exec(Exec(s1, stripe, QueueFull(sub)), stripe, MarkFailed(sub, StatusOnly(Status.Failed)));
            id in s2.store.jobs && s2.store.jobs[id].status == Status.Failed && sub !in s2.submitters
  {
    hide Exec, NewJob;
    var id := s.store.nextId;
    Creates(s, stripe, sub, session, spec);
    NewJobFields(session, "", spec);
    var s1 := Exec(s, stripe, CreateJob(sub, session, "", spec));
    Submits(s1, stripe, sub, w, id, session);
    TurnedAway(s1, stripe, sub, id);
  }

  lemma Creates(s: Sys, stripe: JobId -> nat, sub: nat, session: string, spec: Spec)
    requires session in s.store.sessions && sub !in s.submitters
    requires forall x :: x in s.store.jobs ==> s.store.jobs[x].session != session || !Busy(s.store.jobs[x])
    ensures var id := s.store.nextId;
            Exec(s, stripe, CreateJob(sub, session, "", spec)) ==
            s.(store := s.store.(jobs := s.store.jobs[id := NewJob(session, "", spec)], nextId := id + 1),
               submitters := s.submitters[sub := Submitting(id)])
  {
    hide Create, NewJob;
    CreatedRow(s.store.jobs, s.store.sessions, s.store.nextId, session, spec);
  }

  lemma Submits(s: Sys, stripe: JobId -> nat, sub: nat, w: nat, id: JobId, session: string)
    requires sub in s.submitters && s.submitters[sub] == Submitting(id) && w !in s.workers
    requires id in s.store.jobs && s.store.jobs[id].session == session && s.store.jobs[id].status == Queued
    ensures At(Exec(s, stripe, SubmitOk(sub, w)), w, id, session, Waiting, Queued)
  {
  }

  lemma TurnedAway(s: Sys, stripe: JobId -> nat, sub: nat, id: JobId)
    requires sub in s.submitters && s.submitters[sub] == Submitting(id)
    requires id in s.store.jobs && s.store.jobs[id].status == Queued
    ensures var s' := Exec(Exec(s, stripe, QueueFull(sub)), stripe, MarkFailed(sub, StatusOnly(Status.Failed)));
            id in s'.store.jobs && s'.store.jobs[id].status == Status.Failed && sub !in s'.submitters
  {
    hide UpdateJob;
    UpdateAcceptedIff(s.store.jobs, id, StatusOnly(Status.Failed));
    UpdateStores(s.store.jobs, id, StatusOnly(Status.Failed));
    var s1 := Exec(s, stripe, QueueFull(sub));
    assert s1 == s.(submitters := s.submitters[sub := MarkingFailed(id)]);
  }

  lemma CreatedRow(t: Table, sessions: set<string>, id: JobId, session: string, spec: Spec)
    requires session in sessions
    requires forall x :: x in t ==> t[x].session != session || !Busy(t[x])
    ensures Create(t, sessions, id, session, "", spec) == (t[id := NewJob(session, "", spec)], Ok(Created(id, false)))
  {
    assert ActiveJobs(t, session) == {};
  }

  // ------------------------------------------------------------------ the worker

  /** One round of a worker on an undisturbed job: search, then archive, each under
      the stripe and each leaving its row, back to the loop head or on to the end. */
  lemma RoundPath(s: Sys, stripe: JobId -> nat, w: nat, id: JobId, session: string, reached: bool)
    requires At(s, w, id, session, Top, Running) && stripe(id) !in s.locks
    ensures var s1 := Do(s, stripe, w, CheckTop(false));
            var s2 := Phase(s1, stripe, w);
            var s3 := Do(s2, stripe, w, CheckAfter(false));
            var s4 := Phase(s3, stripe, w);
            var s5 := Do(s4, stripe, w, CheckAfter(reached));
            && At(s5, w, id, session, if reached then Finishing else Top, Running)
            && s5.effects == s.effects + [Effect(id, Search), Effect(id, Archive)]
            && s5.locks == s.locks && s5.store == s.store
  {
    hide Exec;
    var s1 := Do(s, stripe, w, CheckTop(false));
    Look(s, stripe, w, id, session, CheckTop(false));
    var s2 := Phase(s1, stripe, w);
    PhasePath(s1, stripe, w, id, session, Search);
    var s3 := Do(s2, stripe, w, CheckAfter(false));
    Look(s2, stripe, w, id, session, CheckAfter(false));
    PhasePath(s3, stripe, w, id, session, Archive);
    Look(Phase(s3, stripe, w), stripe, w, id, session, CheckAfter(reached));
  }

  ghost function Phase(s: Sys, stripe: JobId -> nat, w: nat): Sys {
    Do(Do(Do(Do(s, stripe, w, TakeLock), stripe, w, CheckLocked), stripe, w, Write), stripe, w, EndPhase)
  }

  /** A checkpoint outside the stripe that finds the job running. */
  lemma Look(s: Sys, stripe: JobId -> nat, w: nat, id: JobId, session: string, act: WorkerAct)
    requires w in s.workers && At(s, w, id, session, s.workers[w].pc, Running)
    requires (act.CheckTop? && s.workers[w].pc == Top) || (act.CheckAfter? && s.workers[w].pc.After?)
    ensures Do(s, stripe, w, act) ==
            s.(workers := s.workers[w := Worker(session, id,
                 if act.CheckTop? then (if act.reached then Finishing else AtLock(Search))
                 else if s.workers[w].pc == After(Search) then AtLock(Archive)
                 else if act.reached then Finishing else Top)])
  {
    hide Checkpoint;
    CheckpointAnswer(s.store.jobs, session, id);
  }

  lemma PhasePath(s: Sys, stripe: JobId -> nat, w: nat, id: JobId, session: string, p: CaptureBarrier.Phase)
    requires At(s, w, id, session, AtLock(p), Running) && stripe(id) !in s.locks
    ensures Phase(s, stripe, w) ==
            s.(workers := s.workers[w := Worker(session, id, After(p))], effects := s.effects + [Effect(id, p)])
  {
    hide Do;
    TakesLock(s, stripe, w, id, session, p);
    var s1 := Do(s, stripe, w, TakeLock);
    EntersPhase(s1, stripe, w, id, session, p);
    var s2 := Do(s1, stripe, w, CheckLocked);
    WritesAndLeaves(s2, stripe, w, id, session, p);
    assert s.locks[stripe(id) := W(w)] - {stripe(id)} == s.locks;
  }

  lemma TakesLock(s: Sys, stripe: JobId -> nat, w: nat, id: JobId, session: string, p: CaptureBarrier.Phase)
    requires w in s.workers && s.workers[w] == Worker(session, id, AtLock(p)) && stripe(id) !in s.locks
    ensures Do(s, stripe, w, TakeLock) ==
            s.(locks := s.locks[stripe(id) := W(w)], workers := s.workers[w := Worker(session, id, Locked(p))])
  {
  }

  lemma EntersPhase(s: Sys, stripe: JobId -> nat, w: nat, id: JobId, session: string, p: CaptureBarrier.Phase)
    requires At(s, w, id, session, Locked(p), Running)
    ensures Do(s, stripe, w, CheckLocked) == s.(workers := s.workers[w := Worker(session, id, InPhase(p))])
  {
    hide Checkpoint;
    CheckpointAnswer(s.store.jobs, session, id);
  }

  lemma WritesAndLeaves(s: Sys, stripe: JobId -> nat, w: nat, id: JobId, session: string, p: CaptureBarrier.Phase)
    requires w in s.workers && s.workers[w] == Worker(session, id, InPhase(p)) && stripe(id) in s.locks
    ensures Do(Do(s, stripe, w, Write), stripe, w, EndPhase) ==
            s.(locks := s.locks - {stripe(id)}, workers := s.workers[w := Worker(session, id, After(p))],
               effects := s.effects + [Effect(id, p)])
  {
    var s1 := Do(s, stripe, w, Write);
    assert s1 == s.(effects := s.effects + [Effect(id, p)]);
  }

  /** A worker that claims a queued job and leaves its loop completes it. */
  lemma CompletionPath(s: Sys, stripe: JobId -> nat, w: nat, id: JobId, session: string)
    requires At(s, w, id, session, Waiting, Queued)
    ensures var s1 := Do(s, stripe, w, Start);
            var s2 := Do(s1, stripe, w, LeaveLoop);
            var s3 := Do(s2, stripe, w, Finish(StatusOnly(Completed)));
            At(s1, w, id, session, Top, Running) && At(s3, w, id, session, Pc.Over, Completed)
  {
    hide Do;
    Claims(s, stripe, w, id, session);
    var s1 := Do(s, stripe, w, Start);
    Leaves(s1, stripe, w, id, session);
    Finishes(Do(s1, stripe, w, LeaveLoop), stripe, w, id, session);
  }

  /** One that meets an exception fails it. */
  lemma FaultPath(s: Sys, stripe: JobId -> nat, w: nat, id: JobId, session: string, pc: Pc)
    requires At(s, w, id, session, pc, Running) && !pc.Waiting? && !pc.Failing? && !pc.Over?
    ensures var s1 := Do(s, stripe, w, Fault);
            var s2 := Do(s1, stripe, w, Fail(StatusOnly(Status.Failed)));
            At(s1, w, id, session, Failing, Running) && At(s2, w, id, session, Pc.Over, Status.Failed)
  {
    hide Do;
    Faults(s, stripe, w, id, session, pc);
    Fails(Do(s, stripe, w, Fault), stripe, w, id, session);
  }

  lemma Claims(s: Sys, stripe: JobId -> nat, w: nat, id: JobId, session: string)
    requires At(s, w, id, session, Waiting, Queued)
    ensures At(Do(s, stripe, w, Start), w, id, session, Top, Running)
  {
    hide Claim;
    ClaimIff(s.store.jobs, session, id);
  }

  lemma Leaves(s: Sys, stripe: JobId -> nat, w: nat, id: JobId, session: string)
    requires At(s, w, id, session, Top, Running)
    ensures At(Do(s, stripe, w, LeaveLoop), w, id, session, Finishing, Running)
  {
  }

  lemma Faults(s: Sys, stripe: JobId -> nat, w: nat, id: JobId, session: string, pc: Pc)
    requires At(s, w, id, session, pc, Running) && !pc.Waiting? && !pc.Failing? && !pc.Over?
    ensures At(Do(s, stripe, w, Fault), w, id, session, Failing, Running)
  {
  }

  lemma StatusLands(t: Table, id: JobId, session: string, status: Status)
    requires id in t && t[id].session == session && t[id].status == Running
    requires status == Completed || status == Status.Failed
    ensures var t' := UpdateJob(t, id, StatusOnly(status)).0;
            id in t' && t'[id].session == session && t'[id].status == status
  {
    hide UpdateJob;
    UpdateAcceptedIff(t, id, StatusOnly(status));
    UpdateStores(t, id, StatusOnly(status));
  }

  lemma Finishes(s: Sys, stripe: JobId -> nat, w: nat, id: JobId, session: string)
    requires At(s, w, id, session, Finishing, Running)
    ensures At(Do(s, stripe, w, Finish(StatusOnly(Completed))), w, id, session, Pc.Over, Completed)
  {
    hide UpdateJob;
    StatusLands(s.store.jobs, id, session, Completed);
  }

  lemma Fails(s: Sys, stripe: JobId -> nat, w: nat, id: JobId, session: string)
    requires At(s, w, id, session, Failing, Running)
    ensures At(Do(s, stripe, w, Fail(StatusOnly(Status.Failed))), w, id, session, Pc.Over, Status.Failed)
  {
    hide UpdateJob;
    StatusLands(s.store.jobs, id, session, Status.Failed);
  }

  // ----------------------------------------------------------- a control request

  /** A cancel of a running job is answered once its stripe is free, and a worker that
      then takes the stripe finds it, acknowledges it and stops without writing. */
  lemma CancelPath(s: Sys, stripe: JobId -> nat, c: nat, w: nat, id: JobId, session: string, p: CaptureBarrier.Phase)
    requires At(s, w, id, session, AtLock(p), Running) && stripe(id) !in s.locks && c !in s.controllers
    ensures var s1 := Exec(s, stripe, RequestStop(c, session, id, Cancel, ""));
            var s2 := Exec(s1, stripe, TakeStripe(c));
            var s3 := Exec(s2, stripe, Respond(c));
            var s4 := Do(s3, stripe, w, TakeLock);
            var s5 := Do(s4, stripe, w, CheckLocked);
            && At(s3, w, id, session, AtLock(p), CancelRequested) && id in s3.returned && s3.locks == s.locks
            && At(s5, w, id, session, Pc.Over, Cancelled) && s5.effects == s.effects && s5.locks == s.locks
  {
    hide Exec, Do;
    Requests(s, stripe, c, w, id, session, p);
    var s1 := Exec(s, stripe, RequestStop(c, session, id, Cancel, ""));
    Responds(s1, stripe, c, id);
    assert s.locks[stripe(id) := C(c)] - {stripe(id)} == s.locks;
    var s3 := Exec(Exec(s1, stripe, TakeStripe(c)), stripe, Respond(c));
    TakesLock(s3, stripe, w, id, session, p);
    StopsInside(Do(s3, stripe, w, TakeLock), stripe, w, id, session, p);
    assert s.locks[stripe(id) := W(w)] - {stripe(id)} == s.locks;
  }

  lemma Requests(s: Sys, stripe: JobId -> nat, c: nat, w: nat, id: JobId, session: string, p: CaptureBarrier.Phase)
    requires At(s, w, id, session, AtLock(p), Running) && c !in s.controllers
    ensures var s' := Exec(s, stripe, RequestStop(c, session, id, Cancel, ""));
            && s' == s.(store := s'.store, controllers := s.controllers[c := Published(id)])
            && At(s', w, id, session, AtLock(p), CancelRequested)
  {
    hide RequestControl;
    CancelAnswer(s.store.jobs, session, id, "");
  }

  lemma Responds(s: Sys, stripe: JobId -> nat, c: nat, id: JobId)
    requires c in s.controllers && s.controllers[c] == Published(id) && stripe(id) !in s.locks
    ensures Exec(Exec(s, stripe, TakeStripe(c)), stripe, Respond(c)) ==
            s.(locks := s.locks[stripe(id) := C(c)] - {stripe(id)}, controllers := s.controllers - {c},
               returned := s.returned + {id})
  {
    var s1 := Exec(s, stripe, TakeStripe(c));
    assert s1 == s.(locks := s.locks[stripe(id) := C(c)], controllers := s.controllers[c := Holding(id)]);
    assert s1.controllers - {c} == s.controllers - {c};
  }

  lemma StopsInside(s: Sys, stripe: JobId -> nat, w: nat, id: JobId, session: string, p: CaptureBarrier.Phase)
    requires At(s, w, id, session, Locked(p), CancelRequested)
    ensures var s' := Do(s, stripe, w, CheckLocked);
            && At(s', w, id, session, Pc.Over, Cancelled)
            && s'.effects == s.effects && s'.locks == s.locks - {stripe(id)}
  {
    hide Checkpoint;
    CheckpointAnswer(s.store.jobs, session, id);
  }

  // -------------------------------------------------------- retry and restart

  /** A retryable failed job of an idle session is queued again and submitted. */
  lemma RetryPath(s: Sys, stripe: JobId -> nat, sub: nat, w: nat, id: JobId, session: string)
    requires sub !in s.submitters && w !in s.workers
    requires id in s.store.jobs && s.store.jobs[id].session == session
    requires s.store.jobs[id].status == Status.Failed && s.store.jobs[id].retryable
    requires forall x :: x in s.store.jobs && x != id ==> s.store.jobs[x].session != session || !Busy(s.store.jobs[x])
    ensures var s1 := Exec(s, stripe, RetryJob(sub, session, id));
            At(Exec(s1, stripe, SubmitOk(sub, w)), w, id, session, Waiting, Queued)
  {
    hide Exec;
    Requeues(s, stripe, sub, id, session);
    Submits(Exec(s, stripe, RetryJob(sub, session, id)), stripe, sub, w, id, session);
  }

  lemma Requeues(s: Sys, stripe: JobId -> nat, sub: nat, id: JobId, session: string)
    requires sub !in s.submitters && id in s.store.jobs && s.store.jobs[id].session == session
    requires s.store.jobs[id].status == Status.Failed && s.store.jobs[id].retryable
    requires forall x :: x in s.store.jobs && x != id ==> s.store.jobs[x].session != session || !Busy(s.store.jobs[x])
    ensures var s' := Exec(s, stripe, RetryJob(sub, session, id));
            && sub in s'.submitters && s'.submitters[sub] == Submitting(id) && s'.workers == s.workers
            && id in s'.store.jobs && s'.store.jobs[id].session == session && s'.store.jobs[id].status == Queued
  {
    hide Retry;
    RetryIff(s.store.jobs, session, id);
  }

  /** A restart drops every thread and lock and recovers the table, which is a state
      a process may start from; a later initialisation touches the table only. */
  lemma RestartPath(s: Sys, stripe: JobId -> nat, r: Redactor)
    ensures Exec(s, stripe, Restart(r)) ==
            Sys(s.store.(jobs := Restarted(s.store.jobs, r)), map[], map[], map[], map[], s.returned, s.effects)
    ensures Exec(s, stripe, Initialize) == s.(store := s.store.(jobs := Normalized(s.store.jobs)))
    ensures FreshIds(s.store) ==>
              Initial(Sys(s.store.(jobs := Restarted(s.store.jobs, r)), map[], map[], map[], map[], {}, s.effects))
  {
    hide Restarted, Normalized;
    forall id | id in Restarted(s.store.jobs, r)
      ensures id in s.store.jobs && !Active(Restarted(s.store.jobs, r)[id].status)
    {
      RestartedKeys(s.store.jobs, r);
      RestartAnswer(s.store.jobs, r, id);
    }
  }

  lemma RestartedKeys(t: Table, r: Redactor)
    ensures Restarted(t, r).Keys == t.Keys
  {
  }
}
