/** The paths of a webhook request from its arrival to its end, each followed through
    when nobody interferes: where the event and the slot end up. */
module WebhookPaths {
  import opened Wrappers
  import A = AdmissionSpec
  import R = AdmissionReference
  import D = DedupeSpec
  import P = DedupeCapacity
  import opened WebhookRequest
  import C = WebhookConservation
  import N = WebhookNoLoss

  /** The request has been given its event and has yet to ask for admission. */
  predicate HoldsEvent(s: Sys, rid: Rid, h: string) {
    && rid in s.reqs && s.reqs[rid].handler == Claimed && s.reqs[rid].worker == NoWorker
    && s.reqs[rid].event == h && h in s.table && s.table[h].Leased? && s.table[h].token == s.reqs[rid].token
    && !s.reqs[rid].paired && !s.reqs[rid].slotReleased && !s.reqs[rid].handedOff
    && !s.reqs[rid].eventClosed && !s.reqs[rid].storeFailed && !s.reqs[rid].succeeded
  }

  /** A crash leaves the delivery table and nothing else. */
  lemma CrashLeavesTable(l: A.Limits, cfg: D.Config, s: Sys)
    ensures Exec(l, cfg, s, Crash) == Sys(s.table, s.nextToken, A.State(map[], 0, 0.0), map[])
  {
  }

  /** An arrival is turned away without a trace exactly when its event is known or the
      store is full; otherwise a request begins that holds the event. */
  lemma ArrivalBegins(l: A.Limits, cfg: D.Config, s: Sys, rid: Rid, h: string, now: int, victims: set<string>)
    requires cfg.maxEntries >= 1 && Enabled(cfg, s, Arrive(rid, h, now, victims))
    ensures var s' := Exec(l, cfg, s, Arrive(rid, h, now, victims));
            var known := h in s.table &&
                         ((s.table[h].Leased? && s.table[h].expiresAt > now)
                          || (s.table[h].Completed? && s.table[h].completedAt >= now - cfg.ttlSeconds));
            var room := |D.LeasedKeys(D.Purged(cfg, s.table, now))| < cfg.maxEntries;
            && s'.gate == s.gate
            && (known || !room ==> s'.reqs == s.reqs)
            && (!known && room ==> HoldsEvent(s', rid, h) && s'.reqs == s.reqs[rid := s'.reqs[rid]])
  {
    hide D.AcquireTxn;
    P.AcquireOutcome(cfg, N.Store(s), h, now, victims);
    if h !in D.Purged(cfg, s.table, now) && |D.LeasedKeys(D.Purged(cfg, s.table, now))| < cfg.maxEntries {
      P.GrantWithinCapacity(cfg, N.Store(s), h, now, victims);
    }
  }

  /** Admission puts a claimed request into one of two places, as the gate decides. */
  lemma Admission(l: A.Limits, cfg: D.Config, s: Sys, rid: Rid, c: A.Call)
    requires c.Acquire? && rid in s.reqs && s.reqs[rid].handler == Claimed
    ensures Exec(l, cfg, s, Admit(rid, c.actor, c.cost, c.now)) ==
            s.(gate := A.Step(l, s.gate, c),
               reqs := s.reqs[rid := if A.Grants(l, s.gate, c) then s.reqs[rid].(paired := true, handler := Admitted)
                                     else s.reqs[rid].(handler := Refused)])
    ensures A.Step(l, s.gate, c).inflight == s.gate.inflight + if A.Grants(l, s.gate, c) then 1 else 0
  {
    hide A.Step, A.Grants;
    R.InflightStep(l, s.gate, c);
  }

  /** The request is admitted and still holds its event. */
  predicate IsAdmitted(s: Sys, rid: Rid, h: string) {
    && rid in s.reqs && s.reqs[rid].handler == Admitted && s.reqs[rid].worker == NoWorker
    && s.reqs[rid].event == h && h in s.table && s.table[h].Leased? && s.table[h].token == s.reqs[rid].token
    && s.reqs[rid].paired && !s.reqs[rid].slotReleased && !s.reqs[rid].handedOff
    && !s.reqs[rid].eventClosed && !s.reqs[rid].storeFailed && s.gate.inflight > 0
  }

  lemma AdmissionKeepsEvent(l: A.Limits, cfg: D.Config, s: Sys, rid: Rid, h: string, c: A.Call)
    requires HoldsEvent(s, rid, h) && c.Acquire? && A.Grants(l, s.gate, c) && s.gate.inflight >= 0
    ensures var s' := Exec(l, cfg, s, Admit(rid, c.actor, c.cost, c.now));
            IsAdmitted(s', rid, h) && s'.gate.inflight == s.gate.inflight + 1
  {
    hide A.Step, A.Grants;
    Admission(l, cfg, s, rid, c);
  }

  /** A refused request gives its event back; nothing else happens. */
  lemma RefusedPath(l: A.Limits, cfg: D.Config, s: Sys, rid: Rid, h: string, c: A.Call)
    requires HoldsEvent(s, rid, h) && c.Acquire? && !A.Grants(l, s.gate, c)
    ensures var s1 := Exec(l, cfg, s, Admit(rid, c.actor, c.cost, c.now));
            var s2 := Exec(l, cfg, s1, RefuseRelease(rid, false));
            var r := s.reqs[rid].(eventClosed := true, handler := Done);
            Stands(s2, rid, r, s.table - {h}, s.gate.inflight)
  {
    hide A.Step, A.Grants, Exec;
    Admission(l, cfg, s, rid, c);
    RefusalGivesBack(l, cfg, Exec(l, cfg, s, Admit(rid, c.actor, c.cost, c.now)), rid, h);
  }

  lemma RefusalGivesBack(l: A.Limits, cfg: D.Config, s: Sys, rid: Rid, h: string)
    requires rid in s.reqs && s.reqs[rid].handler == Refused && !s.reqs[rid].eventClosed && s.reqs[rid].event == h
    requires h in s.table && s.table[h].Leased? && s.table[h].token == s.reqs[rid].token
    ensures Exec(l, cfg, s, RefuseRelease(rid, false)) ==
            s.(table := s.table - {h}, reqs := s.reqs[rid := s.reqs[rid].(eventClosed := true, handler := Done)])
  {
  }

  // ------------------------------------------------------- one step of a request

  /** The request is `r`, the table is `t`, and `n` slots are taken. */
  predicate Stands(s: Sys, rid: Rid, r: Req, t: D.Table, n: int) {
    rid in s.reqs && s.reqs[rid] == r && s.table == t && s.gate.inflight == n
  }

  /** The row of the event still carries the request's token. */
  predicate Held(t: D.Table, r: Req) {
    r.event in t && t[r.event].Leased? && t[r.event].token == r.token
  }

  lemma Acknowledged(l: A.Limits, cfg: D.Config, s: Sys, rid: Rid, r: Req, t: D.Table, n: int, now: int)
    requires Stands(s, rid, r, t, n) && r.handler == Admitted && !r.eventClosed && Held(t, r)
    ensures Stands(Exec(l, cfg, s, Acknowledge(rid, now, false)), rid,
                   r.(eventClosed := true, succeeded := true, handler := Acked), t[r.event := D.Completed(now, now)], n)
  {
  }

  lemma AckSlotReturned(l: A.Limits, cfg: D.Config, s: Sys, rid: Rid, r: Req, t: D.Table, n: int)
    requires Stands(s, rid, r, t, n) && r.handler == Acked && !r.slotReleased && n > 0
    ensures Stands(Exec(l, cfg, s, AckReturnSlot(rid)), rid, r.(slotReleased := true, handler := Returned), t, n - 1)
  {
  }

  lemma SubmissionFailed(l: A.Limits, cfg: D.Config, s: Sys, rid: Rid, r: Req, t: D.Table, n: int)
    requires Stands(s, rid, r, t, n) && r.handler == Admitted && !r.eventClosed && Held(t, r)
    ensures Stands(Exec(l, cfg, s, SubmitFail(rid, false)), rid,
                   r.(eventClosed := true, handler := SubmitFailed), t - {r.event}, n)
  {
  }

  lemma FailedSlotReturned(l: A.Limits, cfg: D.Config, s: Sys, rid: Rid, r: Req, t: D.Table, n: int)
    requires Stands(s, rid, r, t, n) && r.handler == SubmitFailed && !r.slotReleased && n > 0
    ensures Stands(Exec(l, cfg, s, FailReturnSlot(rid)), rid, r.(slotReleased := true, handler := Returned), t, n - 1)
  {
  }

  lemma Raised(l: A.Limits, cfg: D.Config, s: Sys, rid: Rid, r: Req, t: D.Table, n: int)
    requires Stands(s, rid, r, t, n) && r.handler == Admitted
    ensures Stands(Exec(l, cfg, s, ViewRaises(rid)), rid, r.(handler := Returned), t, n)
  {
  }

  lemma HandedOffTornDown(l: A.Limits, cfg: D.Config, s: Sys, rid: Rid, r: Req, t: D.Table, n: int)
    requires Stands(s, rid, r, t, n) && r.handler == Returned && r.handedOff
    ensures Stands(Exec(l, cfg, s, TeardownEvent(rid, false)), rid, r.(handler := Done), t, n)
  {
  }

  lemma ClosedTornDown(l: A.Limits, cfg: D.Config, s: Sys, rid: Rid, r: Req, t: D.Table, n: int)
    requires Stands(s, rid, r, t, n) && r.handler == Returned && !r.handedOff && r.eventClosed
    ensures Stands(Exec(l, cfg, s, TeardownEvent(rid, false)), rid, r.(handler := Torn), t, n)
  {
  }

  lemma OpenTornDown(l: A.Limits, cfg: D.Config, s: Sys, rid: Rid, r: Req, t: D.Table, n: int)
    requires Stands(s, rid, r, t, n) && r.handler == Returned && !r.handedOff && !r.eventClosed && Held(t, r)
    ensures Stands(Exec(l, cfg, s, TeardownEvent(rid, false)), rid,
                   r.(eventClosed := true, handler := Torn), t - {r.event}, n)
  {
  }

  lemma ReleasedSlotTornDown(l: A.Limits, cfg: D.Config, s: Sys, rid: Rid, r: Req, t: D.Table, n: int)
    requires Stands(s, rid, r, t, n) && r.handler == Torn && r.slotReleased
    ensures Stands(Exec(l, cfg, s, TeardownSlot(rid)), rid, r.(handler := Done), t, n)
  {
  }

  lemma SlotTornDown(l: A.Limits, cfg: D.Config, s: Sys, rid: Rid, r: Req, t: D.Table, n: int)
    requires Stands(s, rid, r, t, n) && r.handler == Torn && !r.slotReleased && n > 0
    ensures Stands(Exec(l, cfg, s, TeardownSlot(rid)), rid, r.(slotReleased := true, handler := Done), t, n - 1)
  {
  }

  lemma Queues(l: A.Limits, cfg: D.Config, s: Sys, rid: Rid, r: Req, t: D.Table, n: int)
    requires Stands(s, rid, r, t, n) && r.handler == Admitted
    ensures Stands(Exec(l, cfg, s, Submit(rid)), rid, r.(handler := Submitted, worker := Queued), t, n)
  {
  }

  lemma HandsOff(l: A.Limits, cfg: D.Config, s: Sys, rid: Rid, r: Req, t: D.Table, n: int)
    requires Stands(s, rid, r, t, n) && r.handler == Submitted
    ensures Stands(Exec(l, cfg, s, MarkHandedOff(rid)), rid, r.(handler := Returned, handedOff := true), t, n)
  {
  }

  lemma Starts(l: A.Limits, cfg: D.Config, s: Sys, rid: Rid, r: Req, t: D.Table, n: int)
    requires Stands(s, rid, r, t, n) && r.worker == Queued
    ensures Stands(Exec(l, cfg, s, WorkerStart(rid)), rid, r.(worker := Running), t, n)
  {
  }

  lemma Works(l: A.Limits, cfg: D.Config, s: Sys, rid: Rid, r: Req, t: D.Table, n: int, ok: bool)
    requires Stands(s, rid, r, t, n) && r.worker == Running
    ensures Stands(Exec(l, cfg, s, WorkerFunction(rid, ok)), rid, r.(worker := FunctionOver(ok), succeeded := ok), t, n)
  {
  }

  lemma WorkerSlotReturned(l: A.Limits, cfg: D.Config, s: Sys, rid: Rid, r: Req, t: D.Table, n: int)
    requires Stands(s, rid, r, t, n) && r.worker.FunctionOver? && !r.slotReleased && n > 0
    ensures Stands(Exec(l, cfg, s, WorkerReturnSlot(rid)), rid,
                   r.(worker := Worker.SlotReturned(r.worker.ok), slotReleased := true), t, n - 1)
  {
  }

  lemma WorkerCloses(l: A.Limits, cfg: D.Config, s: Sys, rid: Rid, r: Req, t: D.Table, n: int, now: int)
    requires Stands(s, rid, r, t, n) && r.worker.SlotReturned? && !r.eventClosed && Held(t, r)
    ensures Stands(Exec(l, cfg, s, WorkerCloseEvent(rid, now, false)), rid,
                   r.(eventClosed := true, worker := Finished),
                   if r.worker.ok then t[r.event := D.Completed(now, now)] else t - {r.event}, n)
  {
  }

  // -------------------------------------------------------------- whole paths

  /** An acknowledged request completes its event at the time of the acknowledgement
      and returns its slot; the teardown hook finds nothing left to do. */
  lemma AcknowledgedPath(l: A.Limits, cfg: D.Config, s: Sys, rid: Rid, h: string, now: int)
    requires IsAdmitted(s, rid, h)
    ensures var s1 := Exec(l, cfg, s, Acknowledge(rid, now, false));
            var s2 := Exec(l, cfg, s1, AckReturnSlot(rid));
            var s3 := Exec(l, cfg, s2, TeardownEvent(rid, false));
            var s4 := Exec(l, cfg, s3, TeardownSlot(rid));
            var r := s.reqs[rid].(eventClosed := true, succeeded := true, slotReleased := true, handler := Done);
            Stands(s4, rid, r, s.table[h := D.Completed(now, now)], s.gate.inflight - 1)
  {
    hide Exec, Stands;
    var r, n := s.reqs[rid], s.gate.inflight;
    Standing(s, rid);
    Acknowledged(l, cfg, s, rid, r, s.table, n, now);
    var t := s.table[h := D.Completed(now, now)];
    var s1 := Exec(l, cfg, s, Acknowledge(rid, now, false));
    var r1 := r.(eventClosed := true, succeeded := true, handler := Acked);
    AckSlotReturned(l, cfg, s1, rid, r1, t, n);
    var s2 := Exec(l, cfg, s1, AckReturnSlot(rid));
    var r2 := r1.(slotReleased := true, handler := Returned);
    ClosedTornDown(l, cfg, s2, rid, r2, t, n - 1);
    ReleasedSlotTornDown(l, cfg, Exec(l, cfg, s2, TeardownEvent(rid, false)), rid, r2.(handler := Torn), t, n - 1);
  }

  lemma Standing(s: Sys, rid: Rid)
    requires rid in s.reqs
    ensures Stands(s, rid, s.reqs[rid], s.table, s.gate.inflight)
  {
  }

  /** A queued job: both leases go to the worker, whose function decides; its slot is
      returned first, then the event is completed or given back. */
  lemma WorkerPath(l: A.Limits, cfg: D.Config, s: Sys, rid: Rid, h: string, ok: bool, now: int)
    requires IsAdmitted(s, rid, h)
    ensures var s1 := Exec(l, cfg, s, Submit(rid));
            var s2 := Exec(l, cfg, s1, MarkHandedOff(rid));
            var s3 := Exec(l, cfg, s2, TeardownEvent(rid, false));
            var s4 := Exec(l, cfg, s3, WorkerStart(rid));
            var s5 := Exec(l, cfg, s4, WorkerFunction(rid, ok));
            var s6 := Exec(l, cfg, s5, WorkerReturnSlot(rid));
            var s7 := Exec(l, cfg, s6, WorkerCloseEvent(rid, now, false));
            var r := s.reqs[rid].(eventClosed := true, succeeded := ok, slotReleased := true, handedOff := true,
                                  handler := Done, worker := Finished);
            var t := if ok then s.table[h := D.Completed(now, now)] else s.table - {h};
            Stands(s7, rid, r, t, s.gate.inflight - 1)
  {
    hide Exec, Stands;
    var r, t, n := s.reqs[rid], s.table, s.gate.inflight;
    Standing(s, rid);
    Queues(l, cfg, s, rid, r, t, n);
    var s1, r1 := Exec(l, cfg, s, Submit(rid)), r.(handler := Submitted, worker := Queued);
    HandsOff(l, cfg, s1, rid, r1, t, n);
    var s2, r2 := Exec(l, cfg, s1, MarkHandedOff(rid)), r1.(handler := Returned, handedOff := true);
    HandedOffTornDown(l, cfg, s2, rid, r2, t, n);
    var s3, r3 := Exec(l, cfg, s2, TeardownEvent(rid, false)), r2.(handler := Done);
    Starts(l, cfg, s3, rid, r3, t, n);
    var s4, r4 := Exec(l, cfg, s3, WorkerStart(rid)), r3.(worker := Running);
    Works(l, cfg, s4, rid, r4, t, n, ok);
    var s5, r5 := Exec(l, cfg, s4, WorkerFunction(rid, ok)), r4.(worker := FunctionOver(ok), succeeded := ok);
    WorkerSlotReturned(l, cfg, s5, rid, r5, t, n);
    var r6 := r5.(worker := Worker.SlotReturned(ok), slotReleased := true);
    WorkerCloses(l, cfg, Exec(l, cfg, s5, WorkerReturnSlot(rid)), rid, r6, t, n - 1, now);
  }

  /** A refused submission gives the event back and returns the slot in the view. */
  lemma RefusedSubmissionPath(l: A.Limits, cfg: D.Config, s: Sys, rid: Rid, h: string)
    requires IsAdmitted(s, rid, h)
    ensures var s1 := Exec(l, cfg, s, SubmitFail(rid, false));
            var s2 := Exec(l, cfg, s1, FailReturnSlot(rid));
            var s3 := Exec(l, cfg, s2, TeardownEvent(rid, false));
            var s4 := Exec(l, cfg, s3, TeardownSlot(rid));
            var r := s.reqs[rid].(eventClosed := true, slotReleased := true, handler := Done);
            Stands(s4, rid, r, s.table - {h}, s.gate.inflight - 1)
  {
    hide Exec, Stands;
    var r, t, n := s.reqs[rid], s.table - {h}, s.gate.inflight;
    Standing(s, rid);
    SubmissionFailed(l, cfg, s, rid, r, s.table, n);
    var s1, r1 := Exec(l, cfg, s, SubmitFail(rid, false)), r.(eventClosed := true, handler := SubmitFailed);
    FailedSlotReturned(l, cfg, s1, rid, r1, t, n);
    var s2, r2 := Exec(l, cfg, s1, FailReturnSlot(rid)), r1.(slotReleased := true, handler := Returned);
    ClosedTornDown(l, cfg, s2, rid, r2, t, n - 1);
    ReleasedSlotTornDown(l, cfg, Exec(l, cfg, s2, TeardownEvent(rid, false)), rid, r2.(handler := Torn), t, n - 1);
  }

  /** When the view raises, the teardown hook does both. */
  lemma RaisedPath(l: A.Limits, cfg: D.Config, s: Sys, rid: Rid, h: string)
    requires IsAdmitted(s, rid, h)
    ensures var s1 := Exec(l, cfg, s, ViewRaises(rid));
            var s2 := Exec(l, cfg, s1, TeardownEvent(rid, false));
            var s3 := Exec(l, cfg, s2, TeardownSlot(rid));
            var r := s.reqs[rid].(eventClosed := true, slotReleased := true, handler := Done);
            Stands(s3, rid, r, s.table - {h}, s.gate.inflight - 1)
  {
    hide Exec, Stands;
    var r, n := s.reqs[rid], s.gate.inflight;
    Standing(s, rid);
    Raised(l, cfg, s, rid, r, s.table, n);
    var s1, r1 := Exec(l, cfg, s, ViewRaises(rid)), r.(handler := Returned);
    OpenTornDown(l, cfg, s1, rid, r1, s.table, n);
    var r2 := r1.(eventClosed := true, handler := Torn);
    SlotTornDown(l, cfg, Exec(l, cfg, s1, TeardownEvent(rid, false)), rid, r2, s.table - {h}, n);
  }
}
