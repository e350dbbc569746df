/** The delivery table of the whole webhook is a run of the claim protocol, so an
    event that was claimed and not successfully handled comes back. */
module WebhookNoLoss {
  import opened Wrappers
  import A = AdmissionSpec
  import D = DedupeSpec
  import P = DedupeCapacity
  import T = DedupeRuns
  import opened WebhookRequest
  import C = WebhookConservation

  /** The transaction an action commits on the delivery table, if any. */
  function Transaction(s: Sys, a: Action): Option<D.Action>
    requires !a.Arrive? && !a.Crash? ==> a.rid in s.reqs
  {
    match a
    case Arrive(_, event, now, victims) => Some(D.Action.Acquire(event, now, victims))
    case RefuseRelease(rid, fails) => Releasing(s.reqs[rid], fails)
    case SubmitFail(rid, fails) => Releasing(s.reqs[rid], fails)
    case TeardownEvent(rid, fails) => if s.reqs[rid].handedOff then None else Releasing(s.reqs[rid], fails)
    case Acknowledge(rid, now, fails) => Completing(s.reqs[rid], now, fails)
    case WorkerCloseEvent(rid, now, fails) =>
      if !s.reqs[rid].worker.SlotReturned? then None
      else if s.reqs[rid].worker.ok then Completing(s.reqs[rid], now, fails)
      else Releasing(s.reqs[rid], fails)
    case _ => None
  }

  function Releasing(r: Req, storeFails: bool): Option<D.Action> {
    if r.eventClosed || storeFails then None else Some(D.Action.Release(r.event, r.token))
  }

  function Completing(r: Req, now: int, storeFails: bool): Option<D.Action> {
    if r.eventClosed || storeFails then None else Some(D.Action.Complete(r.event, r.token, now))
  }

  ghost function Committed(cfg: D.Config, s: Sys, a: Action): Option<D.Action> {
    if Enabled(cfg, s, a) then Transaction(s, a) else None
  }

  function Store(s: Sys): D.State {
    D.State(s.table, s.nextToken)
  }

  /** One action of the webhook is at most one transaction of the protocol. */
  lemma StoreStep(l: A.Limits, cfg: D.Config, s: Sys, a: Action)
    ensures var t, s' := Committed(cfg, s, a), Exec(l, cfg, s, a);
            && Store(s') == (if t.Some? then D.Exec(cfg, Store(s), t.value) else Store(s))
            && (t.Some? ==> D.Enabled(cfg, Store(s), t.value))
  {
    hide A.Step, A.Grants, D.AcquireTxn, D.CompleteTxn, D.ReleaseTxn;
  }

  /** The transactions of a run of the webhook, in commit order. */
  ghost function Projected(l: A.Limits, cfg: D.Config, s0: Sys, acts: seq<Action>): seq<D.Action> {
    if acts == [] then []
    else
      var before, a := acts[..|acts| - 1], acts[|acts| - 1];
      var t := Committed(cfg, Run(l, cfg, s0, before), a);
      Projected(l, cfg, s0, before) + if t.Some? then [t.value] else []
  }

  /** Main result.  The delivery table of any run of the webhook is the table of the
      projected run of the claim protocol, which is a valid one: so every theorem
      about claims holds of the webhook, crashes included. */
  lemma {:induction false} TableIsProtocolRun(l: A.Limits, cfg: D.Config, s0: Sys, acts: seq<Action>)
    requires Initial(s0)
    ensures D.Run(cfg, Store(s0), Projected(l, cfg, s0, acts)) == Store(Run(l, cfg, s0, acts))
    ensures D.ValidRun(cfg, Store(s0), Projected(l, cfg, s0, acts))
  {
    hide Exec, Committed, D.Exec, D.Enabled;
    if acts != [] {
      var before, a := acts[..|acts| - 1], acts[|acts| - 1];
      TableIsProtocolRun(l, cfg, s0, before);
      StoreStep(l, cfg, Run(l, cfg, s0, before), a);
      var t := Committed(cfg, Run(l, cfg, s0, before), a);
      if t.Some? {
        OneMoreTransaction(cfg, Store(s0), Projected(l, cfg, s0, before), t.value);
        assert Projected(l, cfg, s0, acts) == Projected(l, cfg, s0, before) + [t.value];
      } else {
        assert Projected(l, cfg, s0, acts) == Projected(l, cfg, s0, before);
      }
    }
  }

  lemma OneMoreTransaction(cfg: D.Config, d0: D.State, ts: seq<D.Action>, t: D.Action)
    requires D.ValidRun(cfg, d0, ts) && D.Enabled(cfg, D.Run(cfg, d0, ts), t)
    ensures D.ValidRun(cfg, d0, ts + [t])
    ensures D.Run(cfg, d0, ts + [t]) == D.Exec(cfg, D.Run(cfg, d0, ts), t)
  {
    hide D.Exec, D.Enabled, D.Run;
    var all := ts + [t];
    T.AtStep(cfg, d0, all, |ts|);
    assert all[..|ts|] == ts && all[..|all|] == all;
    forall i | 0 <= i < |all|
      ensures D.Enabled(cfg, D.At(cfg, d0, all, i), all[i])
    {
      assert i < |ts| ==> all[..i] == ts[..i] && D.Enabled(cfg, D.At(cfg, d0, ts, i), ts[i]);
    }
  }

  // ------------------------------------------------------------ no event is lost

  /** The arrival at step `i` was given a claim. */
  ghost predicate ClaimedAt(l: A.Limits, cfg: D.Config, s0: Sys, acts: seq<Action>, i: nat, h: string)
    requires i < |acts|
  {
    var s := Run(l, cfg, s0, acts[..i]);
    && acts[i].Arrive? && acts[i].event == h && Enabled(cfg, s, acts[i])
    && P.IsGranted(cfg, Store(s), h, acts[i].now, acts[i].victims)
  }

  /** This step commits the completion of the claim with this token. */
  ghost predicate Completes(cfg: D.Config, s: Sys, a: Action, token: D.Token) {
    var t := Committed(cfg, s, a);
    t.Some? && t.value.Complete? && t.value.token == token
  }

  /** The request holding this token got its work done. */
  ghost predicate Succeeded(s: Sys, token: D.Token) {
    exists rid :: rid in s.reqs && s.reqs[rid].token == token && s.reqs[rid].succeeded
  }

  /** The row is gone, or it is still the claim. */
  predicate Unfinished(t: D.Table, h: string, row: D.Row) {
    h in t ==> t[h] == row
  }

  lemma UnfinishedStep(l: A.Limits, cfg: D.Config, s: Sys, a: Action, h: string, token: D.Token, row: D.Row)
    requires C.Inv(l, s) && row.Leased? && row.token == token && Unfinished(s.table, h, row)
    requires !Completes(cfg, s, a, token)
    requires !(a.Arrive? && a.event == h && Enabled(cfg, s, a) && P.IsGranted(cfg, Store(s), h, a.now, a.victims))
    ensures Unfinished(Exec(l, cfg, s, a).table, h, row)
  {
    hide D.AcquireTxn, P.IsGranted, D.Enabled, A.Step, A.Grants;
    var t := Committed(cfg, s, a);
    StoreStep(l, cfg, s, a);
    if t.Some? {
      T.RowStep(cfg, Store(s), t.value, h);
    }
  }

  /** Only a request that succeeded completes its claim. */
  lemma CompletionMeansSuccess(l: A.Limits, cfg: D.Config, s: Sys, a: Action, token: D.Token)
    requires C.Inv(l, s) && Completes(cfg, s, a, token)
    ensures Succeeded(Exec(l, cfg, s, a), token)
  {
    hide D.AcquireTxn, D.CompleteTxn, D.ReleaseTxn, C.SlotsCounted, C.ClaimsOk, A.Step, A.Grants;
    assert C.ReqOk(s.reqs[a.rid]);
    var r := Exec(l, cfg, s, a).reqs[a.rid];
    assert r.succeeded && r.token == s.reqs[a.rid].token;
  }

  /** From its claim on, while nobody else is given the event and the claim is not
      completed, the row of the event is that claim or absent. */
  lemma {:induction false} ClaimLingers(
    l: A.Limits, cfg: D.Config, s0: Sys, acts: seq<Action>, i: nat, k: nat, h: string)
    requires l.Valid() && Initial(s0) && i < k <= |acts| && ClaimedAt(l, cfg, s0, acts, i, h)
    requires forall x: nat :: i < x < k ==> !ClaimedAt(l, cfg, s0, acts, x, h)
    requires var token := Run(l, cfg, s0, acts[..i]).nextToken;
             forall x: nat :: i < x < k ==> !Completes(cfg, Run(l, cfg, s0, acts[..x]), acts[x], token)
    ensures acts[i].Arrive?
    ensures var token := Run(l, cfg, s0, acts[..i]).nextToken;
            Unfinished(Run(l, cfg, s0, acts[..k]).table, h, D.NewLease(cfg, token, acts[i].now))
    decreases k
  {
    hide Exec, Enabled, D.AcquireTxn, P.IsGranted, Completes, C.Inv, Unfinished;
    var token := Run(l, cfg, s0, acts[..i]).nextToken;
    var row := D.NewLease(cfg, token, acts[i].now);
    RunStep(l, cfg, s0, acts, k - 1);
    if k == i + 1 {
      ClaimStarts(l, cfg, Run(l, cfg, s0, acts[..i]), acts[i], h);
    } else {
      ClaimLingers(l, cfg, s0, acts, i, k - 1, h);
      C.InvAlways(l, cfg, s0, acts[..k - 1]);
      assert !ClaimedAt(l, cfg, s0, acts, k - 1, h);
      UnfinishedStep(l, cfg, Run(l, cfg, s0, acts[..k - 1]), acts[k - 1], h, token, row);
    }
  }

  lemma ClaimStarts(l: A.Limits, cfg: D.Config, s: Sys, a: Action, h: string)
    requires a.Arrive? && a.event == h && Enabled(cfg, s, a)
    requires P.IsGranted(cfg, Store(s), h, a.now, a.victims)
    ensures Unfinished(Exec(l, cfg, s, a).table, h, D.NewLease(cfg, s.nextToken, a.now))
  {
    hide D.AcquireTxn, D.OldestCompleted;
    P.GrantShape(cfg, Store(s), h, a.now, a.victims);
  }

  lemma RunStep(l: A.Limits, cfg: D.Config, s0: Sys, acts: seq<Action>, k: nat)
    requires k < |acts|
    ensures Run(l, cfg, s0, acts[..k + 1]) == Exec(l, cfg, Run(l, cfg, s0, acts[..k]), acts[k])
  {
    hide Exec;
    assert acts[..k + 1][..|acts[..k + 1]| - 1] == acts[..k];
  }

  /** Main result.  No event is lost: after any interleaving of requests, failing
      workers, failing stores and crashes, an event whose latest claim was not
      completed is, from `leaseSeconds` after that claim on, given to whoever delivers it
      again, unless the store is full of other running leases.  It is never turned
      away as a duplicate. */
  lemma NoEventIsLost(
    l: A.Limits, cfg: D.Config, s0: Sys, acts: seq<Action>, i: nat, h: string, rid: Rid, now: int, victims: set<string>)
    requires l.Valid() && cfg.maxEntries >= 1 && Initial(s0)
    requires i < |acts| && ClaimedAt(l, cfg, s0, acts, i, h)
    requires forall x: nat :: i < x < |acts| ==> !ClaimedAt(l, cfg, s0, acts, x, h)
    requires var token := Run(l, cfg, s0, acts[..i]).nextToken;
             forall x: nat :: i < x < |acts| ==> !Completes(cfg, Run(l, cfg, s0, acts[..x]), acts[x], token)
    requires acts[i].Arrive? && now >= acts[i].now + cfg.leaseSeconds
    requires Enabled(cfg, Run(l, cfg, s0, acts), Arrive(rid, h, now, victims))
    ensures var s := Run(l, cfg, s0, acts);
            var s' := Exec(l, cfg, s, Arrive(rid, h, now, victims));
            if |D.LeasedKeys(D.Purged(cfg, s.table, now))| < cfg.maxEntries
            then rid in s'.reqs && s'.reqs[rid] == NewReq(h, s.nextToken) && D.Holds(s'.table, h, s.nextToken)
            else s' == s.(nextToken := s.nextToken + 1)
  {
    hide Run, D.AcquireTxn, Completes, C.Inv;
    assert acts[..|acts|] == acts;
    ClaimLingers(l, cfg, s0, acts, i, |acts|, h);
    AbsentIsClaimed(l, cfg, Run(l, cfg, s0, acts), h, rid, now, victims);
  }

  // ---------------------------------------------- given back, grantable at once

  /** The step gives the event of its request back: a refused request, a refused
      submission, a pair that was not handed off, or a worker whose function failed,
      with a store that works. */
  predicate GivesBack(s: Sys, a: Action) {
    && !a.Arrive? && !a.Crash? && a.rid in s.reqs
    && match a
       case RefuseRelease(_, fails) => !fails
       case SubmitFail(_, fails) => !fails
       case TeardownEvent(_, fails) => !fails && !s.reqs[a.rid].handedOff
       case WorkerCloseEvent(_, _, fails) => !fails && s.reqs[a.rid].worker == SlotReturned(false)
       case _ => false
  }

  lemma GivenBackIsGone(l: A.Limits, cfg: D.Config, s: Sys, a: Action, h: string)
    requires C.Inv(l, s) && Enabled(cfg, s, a) && GivesBack(s, a)
    requires s.reqs[a.rid].event == h && D.Holds(s.table, h, s.reqs[a.rid].token)
    ensures h !in Exec(l, cfg, s, a).table
  {
    hide D.AcquireTxn, A.Step, A.Grants, C.SlotsCounted;
    assert !s.reqs[a.rid].eventClosed;
    assert Committed(cfg, s, a) == Some(D.Action.Release(h, s.reqs[a.rid].token));
    StoreStep(l, cfg, s, a);
  }

  lemma AbsentStep(l: A.Limits, cfg: D.Config, s: Sys, a: Action, h: string)
    requires h !in s.table
    requires !(a.Arrive? && a.event == h && Enabled(cfg, s, a) && P.IsGranted(cfg, Store(s), h, a.now, a.victims))
    ensures h !in Exec(l, cfg, s, a).table
  {
    hide D.AcquireTxn, P.IsGranted, D.Enabled, A.Step, A.Grants;
    var t := Committed(cfg, s, a);
    StoreStep(l, cfg, s, a);
    if t.Some? {
      T.RowStep(cfg, Store(s), t.value, h);
    }
  }

  lemma {:induction false} AbsentStays(
    l: A.Limits, cfg: D.Config, s0: Sys, acts: seq<Action>, i: nat, k: nat, h: string)
    requires i <= k <= |acts| && h !in Run(l, cfg, s0, acts[..i]).table
    requires forall x: nat :: i <= x < k ==> !ClaimedAt(l, cfg, s0, acts, x, h)
    ensures h !in Run(l, cfg, s0, acts[..k]).table
    decreases k
  {
    hide Exec, Enabled, D.AcquireTxn, P.IsGranted;
    if i < k {
      AbsentStays(l, cfg, s0, acts, i, k - 1, h);
      RunStep(l, cfg, s0, acts, k - 1);
      assert !ClaimedAt(l, cfg, s0, acts, k - 1, h);
      AbsentStep(l, cfg, Run(l, cfg, s0, acts[..k - 1]), acts[k - 1], h);
    }
  }

  /** Main result.  An event whose handling failed is grantable again at once: from
      the step that gave it back on, and until somebody claims it, any delivery at
      any time claims it unless the store is full of other running leases. */
  lemma FailedEventComesBackAtOnce(
    l: A.Limits, cfg: D.Config, s0: Sys, acts: seq<Action>, i: nat, h: string, rid: Rid, now: int, victims: set<string>)
    requires l.Valid() && cfg.maxEntries >= 1 && Initial(s0) && i < |acts|
    requires var s := Run(l, cfg, s0, acts[..i]);
             && Enabled(cfg, s, acts[i]) && GivesBack(s, acts[i])
             && s.reqs[acts[i].rid].event == h && D.Holds(s.table, h, s.reqs[acts[i].rid].token)
    requires forall x: nat :: i < x < |acts| ==> !ClaimedAt(l, cfg, s0, acts, x, h)
    requires Enabled(cfg, Run(l, cfg, s0, acts), Arrive(rid, h, now, victims))
    ensures var s := Run(l, cfg, s0, acts);
            var s' := Exec(l, cfg, s, Arrive(rid, h, now, victims));
            if |D.LeasedKeys(D.Purged(cfg, s.table, now))| < cfg.maxEntries
            then rid in s'.reqs && s'.reqs[rid] == NewReq(h, s.nextToken) && D.Holds(s'.table, h, s.nextToken)
            else s' == s.(nextToken := s.nextToken + 1)
  {
    hide Run, Exec, Enabled, C.Inv, ClaimedAt, GivesBack;
    C.InvAlways(l, cfg, s0, acts[..i]);
    GivenBackIsGone(l, cfg, Run(l, cfg, s0, acts[..i]), acts[i], h);
    RunStep(l, cfg, s0, acts, i);
    assert acts[..|acts|] == acts;
    AbsentStays(l, cfg, s0, acts, i + 1, |acts|, h);
    AbsentIsClaimed(l, cfg, Run(l, cfg, s0, acts), h, rid, now, victims);
  }

  /** A delivery of an event without a surviving row is claimed or meets a full store. */
  lemma AbsentIsClaimed(l: A.Limits, cfg: D.Config, s: Sys, h: string, rid: Rid, now: int, victims: set<string>)
    requires cfg.maxEntries >= 1 && Enabled(cfg, s, Arrive(rid, h, now, victims))
    requires h !in D.Purged(cfg, s.table, now)
    ensures var s' := Exec(l, cfg, s, Arrive(rid, h, now, victims));
            if |D.LeasedKeys(D.Purged(cfg, s.table, now))| < cfg.maxEntries
            then rid in s'.reqs && s'.reqs[rid] == NewReq(h, s.nextToken) && D.Holds(s'.table, h, s.nextToken)
            else s' == s.(nextToken := s.nextToken + 1)
  {
    hide D.AcquireTxn;
    P.AcquireOutcome(cfg, Store(s), h, now, victims);
    if |D.LeasedKeys(D.Purged(cfg, s.table, now))| < cfg.maxEntries {
      P.GrantWithinCapacity(cfg, Store(s), h, now, victims);
    } else {
      P.StoreFullChangesNothing(cfg, Store(s), h, now, victims);
    }
  }
}
