/** The job store of the consulting agent as an object whose methods update the
    rows in place; every method initialises the database and is then its transaction
    of CaptureJobs. */
module CaptureJobStore {
  import opened Wrappers
  import opened CaptureJobs
  import opened CaptureJobProofs

  lemma RestartedIsValid(s: Store, r: Redactor)
    requires FreshIds(s) && OneJobPerKey(s.jobs)
    ensures var t := Restarted(s.jobs, r);
            FreshIds(s.(jobs := t)) && OneActivePerSession(t) && OneJobPerKey(t)
  {
    hide Restarted;
    RecoveryEnablesTheIndex(s.jobs, r);
    KeyStep(s, RestartOp(r));
  }

  class JobStore {
    var sessions: set<string>
    var jobs: Table
    var nextId: JobId

    ghost function Abstract(): Store
      reads this
    {
      Store(sessions, jobs, nextId)
    }

    /** Both unique indexes hold and identifiers are fresh. */
    ghost predicate Valid()
      reads this
    {
      FreshIds(Abstract()) && OneActivePerSession(jobs) && OneJobPerKey(jobs)
    }

    /** Start the process on an existing database: recovery runs before the index
        on active jobs is built, so any table is good enough. */
    constructor (known: set<string>, rows: Table, unused: JobId, r: Redactor)
      requires FreshIds(Store(known, rows, unused)) && OneJobPerKey(rows)
      ensures Valid() && Abstract() == Store(known, Restarted(rows, r), unused)
    {
      hide FreshIds, OneActivePerSession, OneJobPerKey, Normalized, Scrubbed, Recovered;
      sessions, nextId := known, unused;
      jobs := rows;
      new;
      NormalizeReasons();
      ScrubSensitiveValues(r);
      RecoverInterrupted();
      RestartedIsValid(Store(known, rows, unused), r);
    }

    /** The statement every initialisation runs: unknown reasons are replaced, except
        for jobs under control. */
    method NormalizeReasons()
      modifies this`jobs
      ensures jobs == Normalized(old(jobs))
    {
      var todo := set id | id in jobs && !Controlled(jobs[id].status);
      while todo != {}
        invariant todo <= jobs.Keys == old(jobs).Keys
        invariant forall id :: id in todo ==> !Controlled(old(jobs)[id].status)
        invariant forall id :: id in jobs ==>
                    jobs[id] == if id in todo then old(jobs)[id] else NormalJob(old(jobs)[id])
        decreases |todo|
      {
        var id :| id in todo;
        jobs := jobs[id := jobs[id].(stopReason := NormalizeReason(jobs[id].stopReason))];
        todo := todo - {id};
      }
    }

    /** Redact the reason and payload of every row. */
    method ScrubSensitiveValues(r: Redactor)
      modifies this`jobs
      ensures jobs == Scrubbed(old(jobs), r)
    {
      var todo := jobs.Keys;
      while todo != {}
        invariant todo <= jobs.Keys == old(jobs).Keys
        invariant forall id :: id in jobs ==>
                    jobs[id] == if id in todo then old(jobs)[id] else ScrubbedJob(old(jobs)[id], r)
        decreases |todo|
      {
        var id :| id in todo;
        jobs := jobs[id := ScrubbedJob(jobs[id], r)];
        todo := todo - {id};
      }
    }

    /** Fail or acknowledge every job the previous process left behind. */
    method RecoverInterrupted()
      modifies this`jobs
      ensures jobs == Recovered(old(jobs))
    {
      var todo := set id | id in jobs && Active(jobs[id].status);
      while todo != {}
        invariant todo <= jobs.Keys == old(jobs).Keys
        invariant forall id :: id in jobs ==>
                    jobs[id] == if id in todo then old(jobs)[id] else RecoverJob(old(jobs)[id])
        decreases |todo|
      {
        var id :| id in todo;
        jobs := jobs[id := RecoverJob(jobs[id])];
        todo := todo - {id};
      }
    }

    /** A later initialisation of the same process. */
    method Initialize()
      requires Valid()
      modifies this`jobs
      ensures Valid() && jobs == Normalized(old(jobs))
    {
      StepKeepsValid(InitializeOp);
      NormalizeReasons();
    }

    /** `ORDER BY created_at LIMIT 1` over a set of row identifiers. */
    method FirstOf(ids: set<JobId>) returns (first: JobId)
      requires ids != {}
      ensures first == First(ids)
    {
      first :| first in ids;
      var todo := ids - {first};
      while todo != {}
        invariant todo <= ids && first in ids
        invariant forall x :: x in ids && x !in todo ==> first <= x
        decreases |todo|
      {
        var x :| x in todo;
        if x < first {
          first := x;
        }
        todo := todo - {x};
      }
      assert IsFirst(ids, first) && IsFirst(ids, First(ids));
    }

    method CreateJob(session: string, key: string, spec: Spec) returns (r: Result<Created>)
      requires Valid()
      modifies this
      ensures Valid() && sessions == old(sessions)
      ensures (jobs, r) == Create(Normalized(old(jobs)), sessions, old(nextId), session, key, spec)
    {
      Initialize();
      StepKeepsValid(CreateOp(session, key, spec));
      var id := nextId;
      nextId := nextId + 1;
      if session !in sessions {
        return Raised(SessionNotFound);
      }
      if key != "" {
        var sameKey := KeyJobs(jobs, session, key);
        if sameKey != {} {
          var existing := FirstOf(sameKey);
          return Ok(Created(existing, true));
        }
      }
      var active := ActiveJobs(jobs, session);
      if active != {} {
        var existing := FirstOf(active);
        return Raised(ActiveTaskExists(existing));
      }
      jobs := jobs[id := NewJob(session, key, spec)];
      return Ok(Created(id, false));
    }

    lemma StepKeepsValid(op: Op)
      requires Valid()
      ensures var s := Apply(Abstract(), op); FreshIds(s) && OneActivePerSession(s.jobs) && OneJobPerKey(s.jobs)
    {
      JobStep(Abstract(), op, 0);
      ActiveStep(Abstract(), op);
      KeyStep(Abstract(), op);
    }

    method UpdateCaptureJob(id: JobId, u: Update) returns (r: Result<()>)
      requires Valid()
      modifies this`jobs
      ensures Valid()
      ensures (jobs, r) == UpdateJob(Normalized(old(jobs)), id, u)
    {
      Initialize();
      StepKeepsValid(UpdateOp(id, u));
      if id !in jobs {
        return Raised(JobNotFound);
      }
      var j := jobs[id];
      var effective, superseded := j.status, false;
      if u.status.Some? {
        match TransitionTarget(j.status, u.status.value)
        case Raised(e) => return Raised(e);
        case Ok((target, late)) => effective, superseded := target, late;
      }
      jobs := jobs[id := Updated(j, effective, superseded, u)];
      return Ok(());
    }

    method ClaimCaptureJob(session: string, id: JobId) returns (r: Result<()>)
      requires Valid()
      modifies this`jobs
      ensures Valid()
      ensures (jobs, r) == Claim(Normalized(old(jobs)), session, id)
    {
      Initialize();
      StepKeepsValid(ClaimOp(session, id));
      if !Present(jobs, session, id) {
        return Raised(JobNotFound);
      }
      if jobs[id].status != Queued {
        return Raised(InvalidTransition(jobs[id].status, Running));
      }
      jobs := jobs[id := jobs[id].(status := Running)];
      return Ok(());
    }

    method RequestCaptureJobControl(session: string, id: JobId, c: Control, reason: string) returns (r: Result<Status>)
      requires Valid()
      modifies this`jobs
      ensures Valid()
      ensures (jobs, r) == RequestControl(Normalized(old(jobs)), session, id, c, reason)
    {
      Initialize();
      StepKeepsValid(ControlOp(session, id, c, reason));
      if !Present(jobs, session, id) {
        return Raised(JobNotFound);
      }
      var current := jobs[id].status;
      if current == Requested(c) || current == Terminal(c) {
        return Ok(current);
      }
      var target;
      if current == Queued {
        target := Terminal(c);
      } else if current == Running {
        target := Requested(c);
      } else {
        return Raised(InvalidTransition(current, Requested(c)));
      }
      jobs := Halt(jobs, id, target, ReasonOr(c, reason));
      return Ok(target);
    }

    method CheckpointCaptureJob(session: string, id: JobId) returns (r: Result<Status>)
      requires Valid()
      modifies this`jobs
      ensures Valid()
      ensures (jobs, r) == Checkpoint(Normalized(old(jobs)), session, id)
    {
      Initialize();
      StepKeepsValid(CheckpointOp(session, id));
      if !Present(jobs, session, id) {
        return Raised(JobNotFound);
      }
      var target := ControlTerminal(jobs[id].status);
      if target.Some? {
        jobs := jobs[id := jobs[id].(status := target.value, errorCode := "", retryable := false)];
      }
      return Ok(jobs[id].status);
    }

    method RetryCaptureJob(session: string, id: JobId) returns (r: Result<()>)
      requires Valid()
      modifies this`jobs
      ensures Valid()
      ensures (jobs, r) == Retry(Normalized(old(jobs)), session, id)
    {
      Initialize();
      StepKeepsValid(RetryOp(session, id));
      if !Present(jobs, session, id) {
        return Raised(JobNotFound);
      }
      if jobs[id].status != Failed || !jobs[id].retryable {
        return Raised(NotRetryable(jobs[id].status));
      }
      var active := ActiveJobs(jobs, session) - {id};
      if active != {} {
        var existing := FirstOf(active);
        return Raised(ActiveTaskExists(existing));
      }
      jobs := jobs[id := jobs[id].(status := Queued, roundNo := 0, currentQuery := "", stopReason := "",
                                   errorCode := "", retryable := false)];
      return Ok(());
    }
  }
}
