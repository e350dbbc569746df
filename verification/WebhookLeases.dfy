/** The three places of the webhook view that act on both lease objects, and the
    wrapper around the worker function. */
module WebhookLeases {
  import A = AdmissionController
  import S = DedupeStore
  import D = DedupeSpec

  /** The slot is back, once: what every path does with the admission lease. */
  twostate predicate SlotReturned(a: A.WebhookAdmissionLease)
    reads a, a.controller, a.controller.outstanding
  {
    && a.released && a.Tracked() && a.controller.Valid()
    && a.controller.outstanding == old(a.controller.outstanding) - {a}
    && a.controller.inflight == old(a.controller.inflight) - if old(a.released) then 0 else 1
  }

  /** `_ack_webhook_event`: complete the event, then return the slot whatever the
      store did. */
  method AckWebhookEvent(e: S.EventLease, a: A.WebhookAdmissionLease, now: int, storeFails: bool)
    returns (r: S.Result<bool>)
    requires a.controller.Valid() && a.Tracked()
    modifies e`closed, e.store`table, a`released, a.controller`inflight, a.controller`outstanding
    ensures SlotReturned(a)
    ensures old(e.closed) ==> r == S.Ok(false) && e.closed && e.store.table == old(e.store.table)
    ensures !old(e.closed) && storeFails ==> r.Raised? && !e.closed && e.store.table == old(e.store.table)
    ensures !old(e.closed) && !storeFails ==>
              e.closed && r.Ok? && (e.store.table, r.value) == D.CompleteTxn(old(e.store.table), e.event, e.token, now)
  {
    r := e.Complete(now, storeFails);
    var _ := a.Release();
  }

  /** `_queue_webhook_job`: a refused submission gives both leases back; an accepted
      one hands both over and touches neither the table nor the gate. */
  method QueueWebhookJob(e: S.EventLease, a: A.WebhookAdmissionLease, poolRefuses: bool, storeFails: bool)
    returns (queued: bool)
    requires a.controller.Valid() && a.Tracked()
    modifies e`closed, e`handedOff, e.store`table, a`released, a`handedOff, a.controller`inflight,
             a.controller`outstanding
    ensures queued == !poolRefuses
    ensures queued ==>
              && e.handedOff && a.handedOff && a.Tracked() && a.controller.Valid()
              && e.closed == old(e.closed) && e.store.table == old(e.store.table)
              && a.released == old(a.released) && a.controller.outstanding == old(a.controller.outstanding)
              && a.controller.inflight == old(a.controller.inflight)
    ensures !queued ==> SlotReturned(a) && e.handedOff == old(e.handedOff) && a.handedOff == old(a.handedOff)
    ensures !queued && (old(e.closed) || storeFails) ==>
              e.closed == old(e.closed) && e.store.table == old(e.store.table)
    ensures !queued && !old(e.closed) && !storeFails ==>
              e.closed && e.store.table == D.ReleaseTxn(old(e.store.table), e.event, e.token).0
  {
    if poolRefuses {
      var _ := e.Release(storeFails);
      var _ := a.Release();
      return false;
    }
    e.MarkHandedOff();
    a.MarkHandedOff();
    return true;
  }

  /** What the pool runs: the slot goes back when the function is over, and only a
      function that returned completes the event. */
  method RunJob(
    e: S.EventLease, a: A.WebhookAdmissionLease, functionOk: bool, now: int, storeFails: bool)
    returns (r: S.Result<bool>)
    requires a.controller.Valid() && a.Tracked()
    modifies e`closed, e.store`table, a`released, a.controller`inflight, a.controller`outstanding
    ensures SlotReturned(a)
    ensures old(e.closed) ==> e.closed && e.store.table == old(e.store.table)
    ensures !old(e.closed) && storeFails ==> r.Raised? && !e.closed && e.store.table == old(e.store.table)
    ensures !old(e.closed) && !storeFails ==>
              e.closed && r.Ok? && (e.store.table, r.value) ==
              if functionOk then D.CompleteTxn(old(e.store.table), e.event, e.token, now)
              else D.ReleaseTxn(old(e.store.table), e.event, e.token)
  {
    var _ := a.Release();
    if functionOk {
      r := e.Complete(now, storeFails);
    } else {
      r := e.Release(storeFails);
    }
  }

  /** `_release_unhanded_webhook_leases`: nothing for a handed-off pair, otherwise
      release the event if it is still open and return the slot if it is still out. */
  method ReleaseUnhanded(e: S.EventLease, a: A.WebhookAdmissionLease, storeFails: bool)
    requires a.controller.Valid() && a.Tracked()
    modifies e`closed, e.store`table, a`released, a.controller`inflight, a.controller`outstanding
    ensures a.handedOff ==>
              && e.closed == old(e.closed) && e.store.table == old(e.store.table)
              && a.released == old(a.released) && a.controller.inflight == old(a.controller.inflight)
              && a.controller.outstanding == old(a.controller.outstanding) && a.controller.Valid() && a.Tracked()
    ensures !a.handedOff ==> SlotReturned(a)
    ensures !a.handedOff && (old(e.closed) || storeFails) ==>
              e.closed == old(e.closed) && e.store.table == old(e.store.table)
    ensures !a.handedOff && !old(e.closed) && !storeFails ==>
              e.closed && e.store.table == D.ReleaseTxn(old(e.store.table), e.event, e.token).0
  {
    if !a.handedOff {
      var _ := e.Release(storeFails);
      var _ := a.Release();
    }
  }
}
