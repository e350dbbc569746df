/** The two leases of a webhook request, followed through every path of the view,
    the worker and the teardown hook, with any number of requests interleaved.

    One action is one atomic step of one thread.  A crash drops every request,
    every worker and the gate, and keeps only the delivery table. */
module WebhookRequest {
  import A = AdmissionSpec
  import D = DedupeSpec

  type Rid = nat

  /** Where the request thread is. */
  datatype Handler =
    | Claimed       // the event lease is held, admission has not been asked
    | Refused       // admission said no: the event lease is about to be released
    | Admitted      // both leases are held and published for the teardown hook
    | Acked         // the acknowledgement ran or raised: the slot is about to go back
    | SubmitFailed  // the pool refused: the slot is about to go back
    | Submitted     // the job is queued, the lease is not yet marked as handed off
    | Returned      // the view is over, the teardown hook has not run
    | Torn          // the teardown hook released the event, the slot is next
    | Done

  /** Where the worker of the request is. */
  datatype Worker =
    | NoWorker
    | Queued
    | Running
    | FunctionOver(ok: bool)   // the `finally` block is about to give the slot back
    | SlotReturned(ok: bool)   // the event lease is about to be completed or released
    | Finished

  datatype Req = Req(
    event: string, token: D.Token,
    paired: bool,          // admission granted a slot
    slotReleased: bool, handedOff: bool, eventClosed: bool,
    storeFailed: bool,     // some transaction on the event lease raised
    succeeded: bool,       // the view acknowledged, or the worker function returned
    handler: Handler, worker: Worker)

  datatype Sys = Sys(table: D.Table, nextToken: D.Token, gate: A.State, reqs: map<Rid, Req>)

  datatype Action =
    | Arrive(rid: Rid, event: string, now: int, victims: set<string>)
    | Admit(rid: Rid, actor: A.Actor, cost: int, clock: A.Time)
    | GateUnavailable(rid: Rid)
    | RefuseRelease(rid: Rid, storeFails: bool)
    | Acknowledge(rid: Rid, now: int, storeFails: bool)
    | AckReturnSlot(rid: Rid)
    | Submit(rid: Rid)
    | SubmitFail(rid: Rid, storeFails: bool)
    | FailReturnSlot(rid: Rid)
    | MarkHandedOff(rid: Rid)
    | ViewRaises(rid: Rid)
    | TeardownEvent(rid: Rid, storeFails: bool)
    | TeardownSlot(rid: Rid)
    | WorkerStart(rid: Rid)
    | WorkerFunction(rid: Rid, ok: bool)
    | WorkerReturnSlot(rid: Rid)
    | WorkerCloseEvent(rid: Rid, now: int, storeFails: bool)
    | Crash

  // ------------------------------------------------------- lease operations

  function Put(s: Sys, rid: Rid, r: Req): Sys {
    s.(reqs := s.reqs[rid := r])
  }

  /** `WebhookAdmissionLease.release`. */
  function SlotGivenBack(l: A.Limits, gate: A.State, r: Req): (A.State, Req) {
    if r.slotReleased then (gate, r)
    else (A.Step(l, gate, A.Call.ReleaseSlot), r.(slotReleased := true))
  }

  /** `EventLease.release`. */
  function EventReleased(t: D.Table, r: Req, storeFails: bool): (D.Table, Req) {
    if r.eventClosed then (t, r)
    else if storeFails then (t, r.(storeFailed := true))
    else (D.ReleaseTxn(t, r.event, r.token).0, r.(eventClosed := true))
  }

  /** `EventLease.complete`. */
  function EventCompleted(t: D.Table, r: Req, now: int, storeFails: bool): (D.Table, Req) {
    if r.eventClosed then (t, r)
    else if storeFails then (t, r.(storeFailed := true))
    else (D.CompleteTxn(t, r.event, r.token, now).0, r.(eventClosed := true))
  }

  function NewReq(event: string, token: D.Token): Req {
    Req(event, token, false, false, false, false, false, false, Claimed, NoWorker)
  }

  // ------------------------------------------------------------------- steps

  ghost predicate Enabled(cfg: D.Config, s: Sys, a: Action) {
    match a
    case Arrive(rid, event, now, victims) =>
      rid !in s.reqs && D.Enabled(cfg, D.State(s.table, s.nextToken), D.Action.Acquire(event, now, victims))
    case Crash => true
    case _ => a.rid in s.reqs && Ready(s.reqs[a.rid], a)
  }

  predicate Ready(r: Req, a: Action) {
    match a
    case Arrive(_, _, _, _) => false
    case Crash => false
    case Admit(_, _, _, _) => r.handler.Claimed?
    case GateUnavailable(_) => r.handler.Claimed?
    case RefuseRelease(_, _) => r.handler.Refused?
    case Acknowledge(_, _, _) => r.handler.Admitted?
    case AckReturnSlot(_) => r.handler.Acked?
    case Submit(_) => r.handler.Admitted?
    case SubmitFail(_, _) => r.handler.Admitted?
    case FailReturnSlot(_) => r.handler.SubmitFailed?
    case MarkHandedOff(_) => r.handler.Submitted?
    case ViewRaises(_) => r.handler.Admitted?
    case TeardownEvent(_, _) => r.handler.Returned?
    case TeardownSlot(_) => r.handler.Torn?
    case WorkerStart(_) => r.worker.Queued?
    case WorkerFunction(_, _) => r.worker.Running?
    case WorkerReturnSlot(_) => r.worker.FunctionOver?
    case WorkerCloseEvent(_, _, _) => r.worker.SlotReturned?
  }

  function ArriveStep(cfg: D.Config, s: Sys, rid: Rid, event: string, now: int, victims: set<string>): Sys {
    var (t', out) := D.AcquireTxn(cfg, s.table, event, s.nextToken, now, victims);
    var s' := s.(table := t', nextToken := s.nextToken + 1);
    if out.Granted? then Put(s', rid, NewReq(event, s.nextToken)) else s'
  }

  function AdmitStep(l: A.Limits, s: Sys, rid: Rid, c: A.Call): Sys
    requires rid in s.reqs && c.Acquire?
  {
    var r := s.reqs[rid];
    var s' := s.(gate := A.Step(l, s.gate, c));
    if A.Grants(l, s.gate, c) then Put(s', rid, r.(paired := true, handler := Admitted))
    else Put(s', rid, r.(handler := Refused))
  }

  function Step(l: A.Limits, cfg: D.Config, s: Sys, a: Action): Sys
    requires !a.Arrive? && !a.Crash? ==> a.rid in s.reqs && Ready(s.reqs[a.rid], a)
  {
    if a.Arrive? then ArriveStep(cfg, s, a.rid, a.event, a.now, a.victims)
    else if a.Crash? then Sys(s.table, s.nextToken, A.INITIAL, map[])
    else
      var r := s.reqs[a.rid];
      match a
      case Admit(rid, actor, cost, clock) => AdmitStep(l, s, rid, A.Acquire(actor, cost, clock))
      case GateUnavailable(rid) => Put(s, rid, r.(handler := Refused))
      case RefuseRelease(rid, storeFails) =>
        var (t', r') := EventReleased(s.table, r, storeFails);
        Put(s.(table := t'), rid, r'.(handler := Done))
      case Acknowledge(rid, now, storeFails) =>
        var (t', r') := EventCompleted(s.table, r, now, storeFails);
        Put(s.(table := t'), rid, r'.(handler := Acked, succeeded := true))
      case AckReturnSlot(rid) =>
        var (g', r') := SlotGivenBack(l, s.gate, r);
        Put(s.(gate := g'), rid, r'.(handler := Returned))
      case Submit(rid) => Put(s, rid, r.(handler := Submitted, worker := Queued))
      case SubmitFail(rid, storeFails) =>
        var (t', r') := EventReleased(s.table, r, storeFails);
        Put(s.(table := t'), rid, r'.(handler := SubmitFailed))
      case FailReturnSlot(rid) =>
        var (g', r') := SlotGivenBack(l, s.gate, r);
        Put(s.(gate := g'), rid, r'.(handler := Returned))
      case MarkHandedOff(rid) => Put(s, rid, r.(handler := Returned, handedOff := true))
      case ViewRaises(rid) => Put(s, rid, r.(handler := Returned))
      case TeardownEvent(rid, storeFails) =>
        if r.handedOff then Put(s, rid, r.(handler := Done))
        else
          var (t', r') := EventReleased(s.table, r, storeFails);
          Put(s.(table := t'), rid, r'.(handler := Torn))
      case TeardownSlot(rid) =>
        var (g', r') := SlotGivenBack(l, s.gate, r);
        Put(s.(gate := g'), rid, r'.(handler := Done))
      case WorkerStart(rid) => Put(s, rid, r.(worker := Running))
      case WorkerFunction(rid, ok) => Put(s, rid, r.(worker := FunctionOver(ok), succeeded := ok))
      case WorkerReturnSlot(rid) =>
        var (g', r') := SlotGivenBack(l, s.gate, r);
        Put(s.(gate := g'), rid, r'.(worker := SlotReturned(r.worker.ok)))
      case WorkerCloseEvent(rid, now, storeFails) =>
        var (t', r') := if r.worker.ok then EventCompleted(s.table, r, now, storeFails)
                        else EventReleased(s.table, r, storeFails);
        Put(s.(table := t'), rid, r'.(worker := Finished))
  }

  /** An action that is not possible in a state leaves it alone, so every
      sequence of actions describes an interleaving. */
  ghost function Exec(l: A.Limits, cfg: D.Config, s: Sys, a: Action): Sys {
    if Enabled(cfg, s, a) then Step(l, cfg, s, a) else s
  }

  ghost function Run(l: A.Limits, cfg: D.Config, s0: Sys, acts: seq<Action>): Sys {
    if acts == [] then s0
    else Exec(l, cfg, Run(l, cfg, s0, acts[..|acts| - 1]), acts[|acts| - 1])
  }

  ghost predicate Initial(s: Sys) {
    s.gate == A.INITIAL && s.reqs == map[] && D.WellFormed(D.State(s.table, s.nextToken))
  }
}
