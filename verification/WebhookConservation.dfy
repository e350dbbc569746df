/** Conservation of slots and claims through a webhook request, in every
    interleaving of views, workers, teardown hooks, store failures and crashes. */
module WebhookConservation {
  import opened Wrappers
  import A = AdmissionSpec
  import R = AdmissionReference
  import D = DedupeSpec
  import opened WebhookRequest

  // ------------------------------------------------- what one request can be

  predicate HoldsSlot(r: Req) {
    r.paired && !r.slotReleased
  }

  /** Nothing of this request is left to happen. */
  predicate Quiescent(r: Req) {
    r.handler.Done? && (r.worker.NoWorker? || r.worker.Finished?)
  }

  /** "Nothing is left to happen" is what it says: a request is quiescent exactly when
      neither of its threads has a step to take. */
  lemma QuiescentIff(r: Req)
    ensures Quiescent(r) <==> forall a: Action :: !Ready(r, a)
  {
    if !Quiescent(r) {
      var a := NextAction(r);
      assert Ready(r, a);
    }
  }

  function NextAction(r: Req): Action {
    match r.handler
    case Claimed => GateUnavailable(0)
    case Refused => RefuseRelease(0, false)
    case Admitted => Submit(0)
    case Acked => AckReturnSlot(0)
    case SubmitFailed => FailReturnSlot(0)
    case Submitted => MarkHandedOff(0)
    case Returned => TeardownEvent(0, false)
    case Torn => TeardownSlot(0)
    case Done =>
      match r.worker
      case Queued => WorkerStart(0)
      case Running => WorkerFunction(0, false)
      case FunctionOver(_) => WorkerReturnSlot(0)
      case _ => WorkerCloseEvent(0, 0, false)
  }

  /** The flags agree with the places of the two threads. */
  predicate ReqOk(r: Req) {
    && (r.handedOff ==> !r.worker.NoWorker? && (r.handler.Returned? || r.handler.Done?))
    && (!r.paired ==> !r.slotReleased && r.worker.NoWorker?)
    && (r.worker.Queued? || r.worker.Running? || r.worker.FunctionOver? ==> !r.slotReleased && !r.eventClosed)
    && (r.worker.SlotReturned? ==> r.slotReleased && !r.eventClosed)
    && (r.worker.Finished? ==> r.slotReleased && (r.eventClosed || r.storeFailed))
    && (r.worker.FunctionOver? || r.worker.SlotReturned? ==> r.succeeded == r.worker.ok)
    && match r.handler
       case Claimed => !r.paired && !r.eventClosed
       case Refused => !r.paired && !r.eventClosed
       case Admitted => r.paired && !r.slotReleased && !r.eventClosed && r.worker.NoWorker?
       case Acked => r.paired && !r.slotReleased && r.worker.NoWorker? && (r.eventClosed || r.storeFailed)
       case SubmitFailed => r.paired && !r.slotReleased && r.worker.NoWorker? && (r.eventClosed || r.storeFailed)
       case Submitted => r.paired && !r.worker.NoWorker?
       case Returned => r.paired && (!r.handedOff ==> r.worker.NoWorker?)
       case Torn => r.paired && r.worker.NoWorker? && (r.eventClosed || r.storeFailed)
       case Done =>
         && (!r.paired ==> r.eventClosed || r.storeFailed)
         && (r.paired && r.worker.NoWorker? ==> r.slotReleased && (r.eventClosed || r.storeFailed))
  }

  // ------------------------------------------------------------ slot counting

  ghost function HeldSlots(reqs: map<Rid, Req>): set<Rid> {
    set rid | rid in reqs && HoldsSlot(reqs[rid])
  }

  /** The gate counts exactly the requests that hold a slot, within its bound. */
  ghost predicate SlotsCounted(l: A.Limits, s: Sys) {
    s.gate.inflight == |HeldSlots(s.reqs)| <= l.maxInflight
  }

  lemma PutKeepsSlots(reqs: map<Rid, Req>, rid: Rid, r: Req)
    requires if rid in reqs then HoldsSlot(reqs[rid]) == HoldsSlot(r) else !HoldsSlot(r)
    ensures HeldSlots(reqs[rid := r]) == HeldSlots(reqs)
  {
  }

  lemma PutDropsSlot(reqs: map<Rid, Req>, rid: Rid, r: Req)
    requires rid in reqs && HoldsSlot(reqs[rid]) && !HoldsSlot(r)
    ensures |HeldSlots(reqs)| > 0 && |HeldSlots(reqs[rid := r])| == |HeldSlots(reqs)| - 1
  {
    assert rid in HeldSlots(reqs);
    assert HeldSlots(reqs[rid := r]) == HeldSlots(reqs) - {rid};
  }

  lemma PutAddsSlot(reqs: map<Rid, Req>, rid: Rid, r: Req)
    requires rid in reqs && !HoldsSlot(reqs[rid]) && HoldsSlot(r)
    ensures |HeldSlots(reqs[rid := r])| == |HeldSlots(reqs)| + 1
  {
    assert HeldSlots(reqs[rid := r]) == HeldSlots(reqs) + {rid};
  }

  // ------------------------------------------------------------- claim tokens

  /** A closed lease no longer holds its row and never will; open tokens are
      older than the next one. */
  ghost predicate ClaimsOk(s: Sys) {
    && D.WellFormed(D.State(s.table, s.nextToken))
    && (forall rid :: rid in s.reqs ==> s.reqs[rid].token < s.nextToken)
    && (forall rid :: rid in s.reqs && s.reqs[rid].eventClosed
          ==> !D.Holds(s.table, s.reqs[rid].event, s.reqs[rid].token))
  }

  ghost predicate Inv(l: A.Limits, s: Sys) {
    && (forall rid :: rid in s.reqs ==> ReqOk(s.reqs[rid]))
    && SlotsCounted(l, s)
    && ClaimsOk(s)
  }

  // --------------------------------------------------- the invariant is kept

  /** The request after the step still carries the same claim. */
  predicate SameClaim(r: Req, r': Req) {
    r'.token == r.token && r'.event == r.event
  }

  lemma TableStepKeepsClaims(s: Sys, s': Sys, rid: Rid, r': Req)
    requires ClaimsOk(s) && rid in s.reqs && SameClaim(s.reqs[rid], r')
    requires s'.reqs == s.reqs[rid := r'] && s'.nextToken == s.nextToken
    requires forall h :: h in s'.table && s'.table[h].Leased? ==> h in s.table && s'.table[h] == s.table[h]
    requires r'.eventClosed ==> !D.Holds(s'.table, r'.event, r'.token)
    ensures ClaimsOk(s')
  {
    assert forall h :: h in D.LeasedKeys(s'.table) ==> h in D.LeasedKeys(s.table);
  }

  /** A step that only moves a thread of one request. */
  lemma MoveKeeps(l: A.Limits, s: Sys, rid: Rid, r': Req)
    requires Inv(l, s) && rid in s.reqs && SameClaim(s.reqs[rid], r')
    requires ReqOk(r') && HoldsSlot(r') == HoldsSlot(s.reqs[rid]) && r'.eventClosed == s.reqs[rid].eventClosed
    ensures Inv(l, Put(s, rid, r'))
  {
    hide ReqOk, HoldsSlot, ClaimsOk;
    PutKeepsSlots(s.reqs, rid, r');
    MoveKeepsClaims(s, rid, r');
  }

  lemma MoveKeepsClaims(s: Sys, rid: Rid, r': Req)
    requires ClaimsOk(s) && rid in s.reqs && SameClaim(s.reqs[rid], r') && r'.eventClosed == s.reqs[rid].eventClosed
    ensures ClaimsOk(Put(s, rid, r'))
  {
    TableStepKeepsClaims(s, Put(s, rid, r'), rid, r');
  }

  /** Returning a slot never meets an empty gate, so the underflow error of
      `_release_slot` cannot be raised. */
  lemma ReturnSlotKeeps(l: A.Limits, s: Sys, rid: Rid, r': Req)
    requires Inv(l, s) && rid in s.reqs && s.reqs[rid].paired
    requires SameClaim(s.reqs[rid], r') && r'.eventClosed == s.reqs[rid].eventClosed
    requires ReqOk(r') && !HoldsSlot(r')
    ensures Inv(l, Put(s.(gate := SlotGivenBack(l, s.gate, s.reqs[rid]).0), rid, r'))
    ensures !s.reqs[rid].slotReleased ==> s.gate.inflight > 0
  {
    hide ReqOk, ClaimsOk;
    var r := s.reqs[rid];
    var s1 := s.(gate := SlotGivenBack(l, s.gate, r).0);
    if r.slotReleased {
      PutKeepsSlots(s.reqs, rid, r');
    } else {
      PutDropsSlot(s.reqs, rid, r');
    }
    GateAsideKeepsClaims(s, s1);
    MoveKeepsClaims(s1, rid, r');
  }

  lemma GateAsideKeepsClaims(s: Sys, s1: Sys)
    requires ClaimsOk(s) && s1.table == s.table && s1.reqs == s.reqs && s1.nextToken == s.nextToken
    ensures ClaimsOk(s1)
  {
  }

  /** Closing the event lease, either way, whether or not the store fails. */
  lemma CloseEventKeeps(l: A.Limits, s: Sys, rid: Rid, now: int, storeFails: bool, complete: bool, r': Req)
    requires Inv(l, s) && rid in s.reqs && SameClaim(s.reqs[rid], r')
    requires ReqOk(r') && HoldsSlot(r') == HoldsSlot(s.reqs[rid])
    requires r'.eventClosed == (s.reqs[rid].eventClosed || !storeFails)
    ensures var t' := if complete then EventCompleted(s.table, s.reqs[rid], now, storeFails).0
                      else EventReleased(s.table, s.reqs[rid], storeFails).0;
            Inv(l, Put(s.(table := t'), rid, r'))
  {
    hide ReqOk, HoldsSlot;
    var t' := if complete then EventCompleted(s.table, s.reqs[rid], now, storeFails).0
              else EventReleased(s.table, s.reqs[rid], storeFails).0;
    PutKeepsSlots(s.reqs, rid, r');
    TableStepKeepsClaims(s, Put(s.(table := t'), rid, r'), rid, r');
  }

  lemma ArriveKeeps(l: A.Limits, cfg: D.Config, s: Sys, a: Action)
    requires Inv(l, s) && a.Arrive? && Enabled(cfg, s, a)
    ensures Inv(l, Step(l, cfg, s, a))
  {
    hide D.AcquireTxn, ClaimsOk;
    PutKeepsSlots(s.reqs, a.rid, NewReq(a.event, s.nextToken));
    ArriveKeepsClaims(cfg, s, a);
  }

  lemma ArriveKeepsClaims(cfg: D.Config, s: Sys, a: Action)
    requires ClaimsOk(s) && a.Arrive?
    ensures ClaimsOk(ArriveStep(cfg, s, a.rid, a.event, a.now, a.victims))
  {
    hide D.AcquireTxn;
    AcquireRows(cfg, s.table, a.event, s.nextToken, a.now, a.victims);
  }

  lemma AcquireRows(cfg: D.Config, t: D.Table, h: string, token: D.Token, now: int, victims: set<string>)
    ensures var t' := D.AcquireTxn(cfg, t, h, token, now, victims).0;
            forall x :: x in t' ==> (x in t && t'[x] == t[x]) || t'[x] == D.NewLease(cfg, token, now)
  {
  }

  lemma AdmitKeeps(l: A.Limits, cfg: D.Config, s: Sys, a: Action)
    requires Inv(l, s) && a.Admit? && Enabled(cfg, s, a)
    ensures Inv(l, Step(l, cfg, s, a))
  {
    hide A.AcquireStep, ClaimsOk;
    var c := A.Acquire(a.actor, a.cost, a.clock);
    var r := s.reqs[a.rid];
    var s1 := s.(gate := A.Step(l, s.gate, c));
    R.InflightStep(l, s.gate, c);
    GateAsideKeepsClaims(s, s1);
    if A.Grants(l, s.gate, c) {
      GrantedBelowBound(l, s.gate, c);
      PutAddsSlot(s.reqs, a.rid, r.(paired := true, handler := Admitted));
      MoveKeepsClaims(s1, a.rid, r.(paired := true, handler := Admitted));
    } else {
      PutKeepsSlots(s.reqs, a.rid, r.(handler := Refused));
      MoveKeepsClaims(s1, a.rid, r.(handler := Refused));
    }
  }

  lemma GrantedBelowBound(l: A.Limits, st: A.State, c: A.Call)
    requires A.Grants(l, st, c)
    ensures st.inflight < l.maxInflight
  {
    hide A.FirstBroken, A.Touched, A.Charged, A.Cleaned, A.PrunedBuckets;
  }

  predicate MovesOnly(a: Action) {
    a.GateUnavailable? || a.Submit? || a.MarkHandedOff? || a.ViewRaises? || a.WorkerStart? || a.WorkerFunction?
  }

  predicate ReturnsSlot(a: Action) {
    a.AckReturnSlot? || a.FailReturnSlot? || a.TeardownSlot? || a.WorkerReturnSlot?
  }

  lemma GateUnavailableKeeps(l: A.Limits, cfg: D.Config, s: Sys, a: Action)
    requires Inv(l, s) && Enabled(cfg, s, a) && a.GateUnavailable?
    ensures Inv(l, Step(l, cfg, s, a))
  {
    hide SlotsCounted, ClaimsOk;
    MoveKeeps(l, s, a.rid, Step(l, cfg, s, a).reqs[a.rid]);
  }

  lemma SubmitKeeps(l: A.Limits, cfg: D.Config, s: Sys, a: Action)
    requires Inv(l, s) && Enabled(cfg, s, a) && a.Submit?
    ensures Inv(l, Step(l, cfg, s, a))
  {
    hide SlotsCounted, ClaimsOk;
    MoveKeeps(l, s, a.rid, Step(l, cfg, s, a).reqs[a.rid]);
  }

  lemma MarkHandedOffKeeps(l: A.Limits, cfg: D.Config, s: Sys, a: Action)
    requires Inv(l, s) && Enabled(cfg, s, a) && a.MarkHandedOff?
    ensures Inv(l, Step(l, cfg, s, a))
  {
    hide SlotsCounted, ClaimsOk;
    MoveKeeps(l, s, a.rid, Step(l, cfg, s, a).reqs[a.rid]);
  }

  lemma ViewRaisesKeeps(l: A.Limits, cfg: D.Config, s: Sys, a: Action)
    requires Inv(l, s) && Enabled(cfg, s, a) && a.ViewRaises?
    ensures Inv(l, Step(l, cfg, s, a))
  {
    hide SlotsCounted, ClaimsOk;
    MoveKeeps(l, s, a.rid, Step(l, cfg, s, a).reqs[a.rid]);
  }

  lemma WorkerStartKeeps(l: A.Limits, cfg: D.Config, s: Sys, a: Action)
    requires Inv(l, s) && Enabled(cfg, s, a) && a.WorkerStart?
    ensures Inv(l, Step(l, cfg, s, a))
  {
    hide SlotsCounted, ClaimsOk;
    MoveKeeps(l, s, a.rid, Step(l, cfg, s, a).reqs[a.rid]);
  }

  lemma WorkerFunctionKeeps(l: A.Limits, cfg: D.Config, s: Sys, a: Action)
    requires Inv(l, s) && Enabled(cfg, s, a) && a.WorkerFunction?
    ensures Inv(l, Step(l, cfg, s, a))
  {
    hide SlotsCounted, ClaimsOk;
    MoveKeeps(l, s, a.rid, Step(l, cfg, s, a).reqs[a.rid]);
  }

  /** The teardown hook finds a pair that was handed off. */
  lemma HandedOffTeardownKeeps(l: A.Limits, cfg: D.Config, s: Sys, a: Action)
    requires Inv(l, s) && Enabled(cfg, s, a) && a.TeardownEvent? && s.reqs[a.rid].handedOff
    ensures Inv(l, Step(l, cfg, s, a))
  {
    hide SlotsCounted, ClaimsOk;
    MoveKeeps(l, s, a.rid, Step(l, cfg, s, a).reqs[a.rid]);
  }

  lemma MovingKeeps(l: A.Limits, cfg: D.Config, s: Sys, a: Action)
    requires Inv(l, s) && Enabled(cfg, s, a)
    requires MovesOnly(a) || (a.TeardownEvent? && s.reqs[a.rid].handedOff)
    ensures Inv(l, Step(l, cfg, s, a))
  {
    hide Inv, Enabled, Step;
    match a
    case GateUnavailable(_) => GateUnavailableKeeps(l, cfg, s, a);
    case Submit(_) => SubmitKeeps(l, cfg, s, a);
    case MarkHandedOff(_) => MarkHandedOffKeeps(l, cfg, s, a);
    case ViewRaises(_) => ViewRaisesKeeps(l, cfg, s, a);
    case WorkerStart(_) => WorkerStartKeeps(l, cfg, s, a);
    case WorkerFunction(_, _) => WorkerFunctionKeeps(l, cfg, s, a);
    case _ => HandedOffTeardownKeeps(l, cfg, s, a);
  }

  lemma AckReturnSlotKeeps(l: A.Limits, cfg: D.Config, s: Sys, a: Action)
    requires Inv(l, s) && Enabled(cfg, s, a) && a.AckReturnSlot?
    ensures Inv(l, Step(l, cfg, s, a))
    ensures !s.reqs[a.rid].slotReleased ==> s.gate.inflight > 0
  {
    hide SlotsCounted, ClaimsOk;
    ReturnSlotKeeps(l, s, a.rid, Step(l, cfg, s, a).reqs[a.rid]);
  }

  lemma FailReturnSlotKeeps(l: A.Limits, cfg: D.Config, s: Sys, a: Action)
    requires Inv(l, s) && Enabled(cfg, s, a) && a.FailReturnSlot?
    ensures Inv(l, Step(l, cfg, s, a))
    ensures !s.reqs[a.rid].slotReleased ==> s.gate.inflight > 0
  {
    hide SlotsCounted, ClaimsOk;
    ReturnSlotKeeps(l, s, a.rid, Step(l, cfg, s, a).reqs[a.rid]);
  }

  lemma TeardownSlotKeeps(l: A.Limits, cfg: D.Config, s: Sys, a: Action)
    requires Inv(l, s) && Enabled(cfg, s, a) && a.TeardownSlot?
    ensures Inv(l, Step(l, cfg, s, a))
    ensures !s.reqs[a.rid].slotReleased ==> s.gate.inflight > 0
  {
    hide SlotsCounted, ClaimsOk;
    ReturnSlotKeeps(l, s, a.rid, Step(l, cfg, s, a).reqs[a.rid]);
  }

  lemma WorkerReturnSlotKeeps(l: A.Limits, cfg: D.Config, s: Sys, a: Action)
    requires Inv(l, s) && Enabled(cfg, s, a) && a.WorkerReturnSlot?
    ensures Inv(l, Step(l, cfg, s, a))
    ensures !s.reqs[a.rid].slotReleased ==> s.gate.inflight > 0
  {
    hide SlotsCounted, ClaimsOk;
    ReturnSlotKeeps(l, s, a.rid, Step(l, cfg, s, a).reqs[a.rid]);
  }

  lemma ReturningKeeps(l: A.Limits, cfg: D.Config, s: Sys, a: Action)
    requires Inv(l, s) && Enabled(cfg, s, a) && ReturnsSlot(a)
    ensures Inv(l, Step(l, cfg, s, a))
    ensures !s.reqs[a.rid].slotReleased ==> s.gate.inflight > 0
  {
    hide Inv, Step, Ready;
    match a
    case AckReturnSlot(_) => AckReturnSlotKeeps(l, cfg, s, a);
    case FailReturnSlot(_) => FailReturnSlotKeeps(l, cfg, s, a);
    case TeardownSlot(_) => TeardownSlotKeeps(l, cfg, s, a);
    case _ => WorkerReturnSlotKeeps(l, cfg, s, a);
  }

  predicate ClosesEvent(s: Sys, a: Action)
    requires !a.Arrive? && !a.Crash? ==> a.rid in s.reqs
  {
    a.RefuseRelease? || a.Acknowledge? || a.SubmitFail? || a.WorkerCloseEvent? ||
    (a.TeardownEvent? && !s.reqs[a.rid].handedOff)
  }

  lemma RefuseReleaseKeeps(l: A.Limits, cfg: D.Config, s: Sys, a: Action)
    requires Inv(l, s) && Enabled(cfg, s, a) && a.RefuseRelease?
    ensures Inv(l, Step(l, cfg, s, a))
  {
    hide SlotsCounted, ClaimsOk, D.CompleteTxn, D.ReleaseTxn;
    CloseEventKeeps(l, s, a.rid, 0, a.storeFails, false, Step(l, cfg, s, a).reqs[a.rid]);
  }

  lemma SubmitFailKeeps(l: A.Limits, cfg: D.Config, s: Sys, a: Action)
    requires Inv(l, s) && Enabled(cfg, s, a) && a.SubmitFail?
    ensures Inv(l, Step(l, cfg, s, a))
  {
    hide SlotsCounted, ClaimsOk, D.CompleteTxn, D.ReleaseTxn;
    CloseEventKeeps(l, s, a.rid, 0, a.storeFails, false, Step(l, cfg, s, a).reqs[a.rid]);
  }

  lemma OpenTeardownKeeps(l: A.Limits, cfg: D.Config, s: Sys, a: Action)
    requires Inv(l, s) && Enabled(cfg, s, a) && a.TeardownEvent? && !s.reqs[a.rid].handedOff
    ensures Inv(l, Step(l, cfg, s, a))
  {
    hide SlotsCounted, ClaimsOk, D.CompleteTxn, D.ReleaseTxn;
    CloseEventKeeps(l, s, a.rid, 0, a.storeFails, false, Step(l, cfg, s, a).reqs[a.rid]);
  }

  lemma AcknowledgeKeeps(l: A.Limits, cfg: D.Config, s: Sys, a: Action)
    requires Inv(l, s) && Enabled(cfg, s, a) && a.Acknowledge?
    ensures Inv(l, Step(l, cfg, s, a))
  {
    hide SlotsCounted, ClaimsOk, D.CompleteTxn, D.ReleaseTxn;
    CloseEventKeeps(l, s, a.rid, a.now, a.storeFails, true, Step(l, cfg, s, a).reqs[a.rid]);
  }

  lemma WorkerCloseEventKeeps(l: A.Limits, cfg: D.Config, s: Sys, a: Action)
    requires Inv(l, s) && Enabled(cfg, s, a) && a.WorkerCloseEvent?
    ensures Inv(l, Step(l, cfg, s, a))
  {
    hide SlotsCounted, ClaimsOk, D.CompleteTxn, D.ReleaseTxn;
    CloseEventKeeps(l, s, a.rid, a.now, a.storeFails, s.reqs[a.rid].worker.ok, Step(l, cfg, s, a).reqs[a.rid]);
  }

  lemma ClosingKeeps(l: A.Limits, cfg: D.Config, s: Sys, a: Action)
    requires Inv(l, s) && Enabled(cfg, s, a) && ClosesEvent(s, a)
    ensures Inv(l, Step(l, cfg, s, a))
  {
    hide Inv, Step, Ready;
    match a
    case RefuseRelease(_, _) => RefuseReleaseKeeps(l, cfg, s, a);
    case Acknowledge(_, _, _) => AcknowledgeKeeps(l, cfg, s, a);
    case SubmitFail(_, _) => SubmitFailKeeps(l, cfg, s, a);
    case WorkerCloseEvent(_, _, _) => WorkerCloseEventKeeps(l, cfg, s, a);
    case _ => OpenTeardownKeeps(l, cfg, s, a);
  }

  lemma StepKeepsInv(l: A.Limits, cfg: D.Config, s: Sys, a: Action)
    requires l.Valid() && Inv(l, s) && Enabled(cfg, s, a)
    ensures Inv(l, Step(l, cfg, s, a))
  {
    hide SlotsCounted, ClaimsOk, ReqOk, Step;
    if a.Arrive? {
      ArriveKeeps(l, cfg, s, a);
    } else if a.Crash? {
      CrashKeeps(l, s);
      CrashStep(l, cfg, s, a);
    } else if a.Admit? {
      AdmitKeeps(l, cfg, s, a);
    } else if MovesOnly(a) || (a.TeardownEvent? && s.reqs[a.rid].handedOff) {
      MovingKeeps(l, cfg, s, a);
    } else if ReturnsSlot(a) {
      ReturningKeeps(l, cfg, s, a);
    } else {
      ClosingKeeps(l, cfg, s, a);
    }
  }

  lemma CrashStep(l: A.Limits, cfg: D.Config, s: Sys, a: Action)
    requires a.Crash?
    ensures Step(l, cfg, s, a) == Sys(s.table, s.nextToken, A.INITIAL, map[])
  {
  }

  lemma CrashKeeps(l: A.Limits, s: Sys)
    requires l.Valid() && ClaimsOk(s)
    ensures Inv(l, Sys(s.table, s.nextToken, A.INITIAL, map[]))
  {
    assert HeldSlots(map[]) == {};
  }

  lemma {:induction false} InvAlways(l: A.Limits, cfg: D.Config, s0: Sys, acts: seq<Action>)
    requires l.Valid() && Initial(s0)
    ensures Inv(l, Run(l, cfg, s0, acts))
  {
    hide Inv, Enabled, Step;
    if acts == [] {
      assert ClaimsOk(s0);
      CrashKeeps(l, s0);
    } else {
      var before, a := acts[..|acts| - 1], acts[|acts| - 1];
      InvAlways(l, cfg, s0, before);
      if Enabled(cfg, Run(l, cfg, s0, before), a) {
        StepKeepsInv(l, cfg, Run(l, cfg, s0, before), a);
      }
    }
  }

  // ------------------------------------------------------------ main results

  /** Main result.  At every moment the gate's counter is the number of granted
      slots not yet returned, it stays between zero and `max_inflight`, and no
      pending return of a slot can meet an empty counter. */
  lemma SlotsConserved(l: A.Limits, cfg: D.Config, s0: Sys, acts: seq<Action>)
    requires l.Valid() && Initial(s0)
    ensures var s := Run(l, cfg, s0, acts);
            && 0 <= s.gate.inflight <= l.maxInflight
            && s.gate.inflight == |HeldSlots(s.reqs)|
            && forall rid :: rid in HeldSlots(s.reqs) ==> s.gate.inflight > 0
  {
    InvAlways(l, cfg, s0, acts);
    var s := Run(l, cfg, s0, acts);
    forall rid | rid in HeldSlots(s.reqs)
      ensures s.gate.inflight > 0
    {
      PutDropsSlot(s.reqs, rid, s.reqs[rid].(slotReleased := true));
    }
  }

  /** Main result.  A request that is over has given its slot back, whichever
      path it took; its event lease is closed unless the store failed; and a
      closed lease owns no row.  With nothing left to happen the gate is empty. */
  lemma QuietRequestsHoldNothing(l: A.Limits, cfg: D.Config, s0: Sys, acts: seq<Action>)
    requires l.Valid() && Initial(s0)
    ensures var s := Run(l, cfg, s0, acts);
            && (forall rid :: rid in s.reqs && Quiescent(s.reqs[rid]) ==>
                  && (s.reqs[rid].paired ==> s.reqs[rid].slotReleased)
                  && (!s.reqs[rid].storeFailed ==> !D.Holds(s.table, s.reqs[rid].event, s.reqs[rid].token)))
            && ((forall rid :: rid in s.reqs ==> Quiescent(s.reqs[rid])) ==> s.gate.inflight == 0)
  {
    InvAlways(l, cfg, s0, acts);
    var s := Run(l, cfg, s0, acts);
    if forall rid :: rid in s.reqs ==> Quiescent(s.reqs[rid]) {
      assert HeldSlots(s.reqs) == {};
    }
  }

  ghost function ActiveWorkers(reqs: map<Rid, Req>): set<Rid> {
    set rid | rid in reqs && (reqs[rid].worker.Queued? || reqs[rid].worker.Running? || reqs[rid].worker.FunctionOver?)
  }

  /** Main result.  While a job is queued or its function runs, nobody else has
      closed its event lease or returned its slot, although the view and the
      teardown hook run concurrently; so at most `max_inflight` jobs are active. */
  lemma ActiveWorkersOwnBothLeases(l: A.Limits, cfg: D.Config, s0: Sys, acts: seq<Action>)
    requires l.Valid() && Initial(s0)
    ensures var s := Run(l, cfg, s0, acts);
            && (forall rid :: rid in ActiveWorkers(s.reqs) ==> HoldsSlot(s.reqs[rid]) && !s.reqs[rid].eventClosed)
            && |ActiveWorkers(s.reqs)| <= l.maxInflight
  {
    InvAlways(l, cfg, s0, acts);
    var s := Run(l, cfg, s0, acts);
    SubsetSize(ActiveWorkers(s.reqs), HeldSlots(s.reqs));
  }

  /** Main result.  An event becomes completed only in a step of a request whose
      view acknowledged it or whose worker function had returned, and only while
      that request's own token still holds the row. */
  lemma CompletionNeedsSuccess(l: A.Limits, cfg: D.Config, s0: Sys, acts: seq<Action>, a: Action, h: string)
    requires l.Valid() && Initial(s0)
    requires var s := Run(l, cfg, s0, acts);
             var s' := Exec(l, cfg, s, a);
             h in D.CompletedKeys(s'.table) && h !in D.CompletedKeys(s.table)
    ensures var s := Run(l, cfg, s0, acts);
            var s' := Exec(l, cfg, s, a);
            && (a.Acknowledge? || a.WorkerCloseEvent?)
            && a.rid in s.reqs && s.reqs[a.rid].event == h && s'.reqs[a.rid].succeeded
            && D.Holds(s.table, h, s.reqs[a.rid].token)
            && (a.WorkerCloseEvent? ==> s.reqs[a.rid].worker == SlotReturned(true))
  {
    hide Run, D.AcquireTxn;
    InvAlways(l, cfg, s0, acts);
    var s := Run(l, cfg, s0, acts);
    if a.Arrive? {
      AcquireRows(cfg, s.table, a.event, s.nextToken, a.now, a.victims);
    }
  }
}
