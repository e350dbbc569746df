/** The admission controller and its leases as the objects of the source. */
module AdmissionController {
  import opened Wrappers
  import opened AdmissionSpec

  /** Idempotent ownership token for one slot. */
  class WebhookAdmissionLease {
    const controller: WebhookAdmissionController
    var released: bool
    var handedOff: bool

    /** An unreleased lease is one of the slots its controller counts. */
    ghost predicate Tracked()
      reads this, controller
    {
      !released <==> this in controller.outstanding
    }

    constructor (c: WebhookAdmissionController)
      ensures controller == c && !released && !handedOff
    {
      controller := c;
      released, handedOff := false, false;
    }

    method MarkHandedOff()
      modifies this`handedOff
      ensures handedOff
    {
      handedOff := true;
    }

    /** The first release gives the slot back, later ones do nothing.  The
        controller's underflow error cannot be raised from here. */
    method Release() returns (gaveBack: bool)
      requires controller.Valid() && Tracked()
      modifies this`released, controller`inflight, controller`outstanding
      ensures controller.Valid() && Tracked() && released
      ensures gaveBack == !old(released)
      ensures controller.outstanding == old(controller.outstanding) - {this}
      ensures controller.inflight == old(controller.inflight) - if gaveBack then 1 else 0
      ensures controller.Abstract() == if gaveBack
                                    then Step(controller.limits, old(controller.Abstract()), Call.ReleaseSlot)
                                    else old(controller.Abstract())
    {
      if released {
        return false;
      }
      released := true;
      var underflow := controller.ReleaseSlot(this);
      assert !underflow;
      return true;
    }
  }

  class WebhookAdmissionController {
    const limits: Limits
    var events: map<Scope, seq<Grant>>
    var inflight: int
    var nextCleanup: Time
    /** The leases whose slot has not been given back. */
    ghost var outstanding: set<WebhookAdmissionLease>

    ghost predicate Valid()
      reads this, outstanding
    {
      && limits.Valid()
      && inflight == |outstanding| <= limits.maxInflight
      && forall lease :: lease in outstanding ==> lease.controller == this && !lease.released
    }

    ghost function Abstract(): State
      reads this
    {
      State(events, inflight, nextCleanup)
    }

    constructor (l: Limits)
      requires l.Valid()
      ensures Valid() && limits == l && Abstract() == INITIAL && outstanding == {}
    {
      limits := l;
      events, inflight, nextCleanup := map[], 0, 0.0;
      outstanding := {};
    }

    method ReleaseSlot(ghost lease: WebhookAdmissionLease) returns (underflow: bool)
      modifies this`inflight, this`outstanding
      ensures underflow <==> old(inflight) <= 0
      ensures Abstract() == Step(limits, old(Abstract()), Call.ReleaseSlot)
      ensures outstanding == if underflow then old(outstanding) else old(outstanding) - {lease}
    {
      if inflight <= 0 {
        return true;
      }
      inflight := inflight - 1;
      outstanding := outstanding - {lease};
      return false;
    }

    method PopExpired(bucket: seq<Grant>, cutoff: Time) returns (rest: seq<Grant>)
      ensures rest == Prune(bucket, cutoff)
    {
      rest := bucket;
      while rest != [] && rest[0].at <= cutoff
        invariant Prune(rest, cutoff) == Prune(bucket, cutoff)
        decreases |rest|
      {
        rest := rest[1..];
      }
    }

    /** The sweep over all deques. */
    method Cleanup(now: Time, cutoff: Time)
      modifies this`events, this`nextCleanup
      ensures events == Cleaned(old(events), cutoff)
      ensures nextCleanup == now + limits.CleanupGap()
    {
      var todo := events.Keys;
      while todo != {}
        invariant todo <= events.Keys <= old(events.Keys)
        invariant forall s :: s in todo ==> events[s] == old(events)[s]
        invariant forall s :: s in old(events) && s !in todo ==>
                    (s in events <==> Prune(old(events)[s], cutoff) != [])
        invariant forall s :: s in events && s !in todo ==> events[s] == Prune(old(events)[s], cutoff)
        decreases |todo|
      {
        var scope :| scope in todo;
        var bucket := PopExpired(events[scope], cutoff);
        if bucket == [] {
          events := events - {scope};
        } else {
          events := events[scope := bucket];
        }
        todo := todo - {scope};
      }
      nextCleanup := now + limits.CleanupGap();
    }

    /** Prune the deques of the request in place and collect them in order. */
    method CollectBuckets(scopes: seq<Scope>, cutoff: Time) returns (buckets: seq<seq<Grant>>)
      requires forall i, j :: 0 <= i < j < |scopes| ==> scopes[i] != scopes[j]
      modifies this`events
      ensures events == Touched(old(events), scopes, cutoff)
      ensures buckets == PrunedBuckets(old(events), scopes, cutoff) && |buckets| == |scopes|
    {
      buckets := [];
      for i := 0 to |scopes|
        invariant buckets == PrunedBuckets(old(events), scopes, cutoff)[..i]
        invariant Touched(events, scopes[i..], cutoff) == Touched(old(events), scopes, cutoff)
        invariant forall k :: i <= k < |scopes| ==> Bucket(events, scopes[k]) == Bucket(old(events), scopes[k])
      {
        var bucket := PopExpired(Bucket(events, scopes[i]), cutoff);
        TouchFirst(events, scopes[i..], cutoff);
        assert scopes[i..][1..] == scopes[i + 1..];
        if scopes[i] in events {
          events := events[scopes[i] := bucket];
        }
        buckets := buckets + [bucket];
      }
    }

    method FindBroken(scopes: seq<Scope>, buckets: seq<seq<Grant>>, cost: int) returns (broken: Option<Code>)
      requires |scopes| == |buckets|
      ensures broken == FirstBroken(limits, scopes, buckets, cost)
    {
      for i := 0 to |scopes|
        invariant FirstBroken(limits, scopes[i..], buckets[i..], cost) == FirstBroken(limits, scopes, buckets, cost)
      {
        if |buckets[i]| + 1 > limits.EventLimit(scopes[i]) {
          return Some(EventCode(scopes[i]));
        }
        if CostSum(buckets[i]) + cost > limits.CostLimit(scopes[i]) {
          return Some(CostCode(scopes[i]));
        }
        assert scopes[i..][1..] == scopes[i + 1..] && buckets[i..][1..] == buckets[i + 1..];
      }
      return None;
    }

    method Charge(scopes: seq<Scope>, g: Grant)
      requires forall i, j :: 0 <= i < j < |scopes| ==> scopes[i] != scopes[j]
      modifies this`events
      ensures events == Charged(old(events), scopes, g)
    {
      for i := 0 to |scopes|
        invariant Charged(events, scopes[i..], g) == Charged(old(events), scopes, g)
      {
        ChargeFirst(events, scopes[i..], g);
        assert scopes[i..][1..] == scopes[i + 1..];
        events := events[scopes[i] := Bucket(events, scopes[i]) + [g]];
      }
    }

    /** One admission, as one atomic step of the specification; a slot is taken
        and a lease created exactly when the verdict is `Granted`. */
    method Acquire(actor: Actor, cost: int, now: Time) returns (verdict: Verdict, lease: WebhookAdmissionLease?)
      requires Valid()
      modifies this
      ensures Valid()
      ensures (Abstract(), verdict) == AcquireStep(limits, old(Abstract()), actor, cost, now)
      ensures lease != null <==> verdict == Granted
      ensures lease == null ==> outstanding == old(outstanding) && inflight == old(inflight)
      ensures lease != null ==>
                && fresh(lease) && lease.controller == this && lease.Tracked()
                && !lease.released && !lease.handedOff
                && outstanding == old(outstanding) + {lease}
                && inflight == old(inflight) + 1
    {
      hide Touched, Charged, FirstBroken, PrunedBuckets, Cleaned, Prune;
      lease := null;
      if actor.senderIds == [] || actor.chatId == "" {
        return InvalidActor, null;
      }
      if cost < 1 {
        return InvalidCost, null;
      }
      var cutoff := now - limits.Window();
      var scopes := actor.Scopes();
      ScopesDistinct(actor);
      if now >= nextCleanup {
        Cleanup(now, cutoff);
      }
      assert Abstract() == Swept(limits, old(Abstract()), now);
      var buckets := CollectBuckets(scopes, cutoff);
      var broken := FindBroken(scopes, buckets, cost);
      if broken.Some? {
        return RateLimited(broken.value), null;
      }
      if inflight >= limits.maxInflight {
        return CapacityExhausted, null;
      }
      Charge(scopes, Grant(now, cost));
      inflight := inflight + 1;
      lease := new WebhookAdmissionLease(this);
      outstanding := outstanding + {lease};
      return Granted, lease;
    }
  }

  lemma ScopesDistinct(actor: Actor)
    ensures forall i, j :: 0 <= i < j < |actor.Scopes()| ==> actor.Scopes()[i] != actor.Scopes()[j]
  {
  }

  /** Touching the first scope and then the rest is touching them all. */
  lemma {:induction false} TouchFirst(events: map<Scope, seq<Grant>>, scopes: seq<Scope>, cutoff: Time)
    requires scopes != [] && forall i, j :: 0 <= i < j < |scopes| ==> scopes[i] != scopes[j]
    ensures var head := scopes[0];
            var first := if head in events then events[head := Prune(events[head], cutoff)] else events;
            Touched(first, scopes[1..], cutoff) == Touched(events, scopes, cutoff)
  {
    var head := scopes[0];
    if head in events {
      TouchElsewhere(events, head, Prune(events[head], cutoff), scopes[1..], cutoff);
    }
  }

  lemma {:induction false} TouchElsewhere(
    events: map<Scope, seq<Grant>>, s: Scope, b: seq<Grant>, scopes: seq<Scope>, cutoff: Time)
    requires s in events && s !in scopes
    ensures Touched(events[s := b], scopes, cutoff) == Touched(events, scopes, cutoff)[s := b]
  {
    if scopes != [] {
      TouchElsewhere(events, s, b, scopes[1..], cutoff);
    }
  }

  lemma {:induction false} ChargeFirst(events: map<Scope, seq<Grant>>, scopes: seq<Scope>, g: Grant)
    requires scopes != [] && forall i, j :: 0 <= i < j < |scopes| ==> scopes[i] != scopes[j]
    ensures var head := scopes[0];
            Charged(events[head := Bucket(events, head) + [g]], scopes[1..], g) == Charged(events, scopes, g)
  {
    ChargeElsewhere(events, scopes[0], Bucket(events, scopes[0]) + [g], scopes[1..], g);
  }

  lemma {:induction false} ChargeElsewhere(
    events: map<Scope, seq<Grant>>, s: Scope, b: seq<Grant>, scopes: seq<Scope>, g: Grant)
    requires s !in scopes
    ensures Charged(events[s := b], scopes, g) == Charged(events, scopes, g)[s := b]
  {
    if scopes != [] {
      ChargeElsewhere(events, s, b, scopes[1..], g);
    }
  }
}
