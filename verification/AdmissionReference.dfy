/** Lazy deques against a limiter that never forgets: for clock readings that do
    not decrease in lock order, both give every call the same verdict. */
module AdmissionReference {
  import opened Wrappers
  import opened AdmissionSpec
  import opened AdmissionWindow

  // ------------------------------------------------- the reference limiter

  /** The entries still inside the window, by timestamp alone. */
  function Live(g: seq<Grant>, cutoff: Time): seq<Grant> {
    if g == [] then []
    else (if g[0].at > cutoff then [g[0]] else []) + Live(g[1..], cutoff)
  }

  datatype RefState = RefState(hist: seq<Charge>, inflight: int)

  function LiveBuckets(hist: seq<Charge>, scopes: seq<Scope>, cutoff: Time): seq<seq<Grant>> {
    seq(|scopes|, i requires 0 <= i < |scopes| => Live(ScopeGrants(hist, scopes[i]), cutoff))
  }

  function RefVerdict(l: Limits, st: RefState, actor: Actor, cost: int, now: Time): Verdict {
    if actor.senderIds == [] || actor.chatId == "" then InvalidActor
    else if cost < 1 then InvalidCost
    else match FirstBroken(l, actor.Scopes(), LiveBuckets(st.hist, actor.Scopes(), now - l.Window()), cost)
    case Some(code) => RateLimited(code)
    case None => if st.inflight >= l.maxInflight then CapacityExhausted else Granted
  }

  function RefStep(l: Limits, st: RefState, c: Call): RefState {
    match c
    case Acquire(actor, cost, now) =>
      if RefVerdict(l, st, actor, cost, now) == Granted
      then RefState(st.hist + [ChargeOf(c)], st.inflight + 1)
      else st
    case ReleaseSlot => if st.inflight <= 0 then st else st.(inflight := st.inflight - 1)
  }

  function RefRun(l: Limits, calls: seq<Call>): RefState {
    if calls == [] then RefState([], 0)
    else RefStep(l, RefRun(l, calls[..|calls| - 1]), calls[|calls| - 1])
  }

  function VerdictOf(l: Limits, st: State, c: Call): Verdict
    requires c.Acquire?
  {
    AcquireStep(l, st, c.actor, c.cost, c.now).1
  }

  // ---------------------------------------- pruning equals filtering by time

  ghost predicate Sorted(g: seq<Grant>) {
    forall i, j :: 0 <= i < j < |g| ==> g[i].at <= g[j].at
  }

  lemma {:induction false} LiveDropsStale(g: seq<Grant>, k: nat, cutoff: Time)
    requires k <= |g| && forall i :: 0 <= i < k ==> g[i].at <= cutoff
    ensures Live(g, cutoff) == Live(g[k..], cutoff)
  {
    if k > 0 {
      LiveDropsStale(g[1..], k - 1, cutoff);
      assert g[1..][k - 1..] == g[k..];
    } else {
      assert g[k..] == g;
    }
  }

  lemma {:induction false} AllLive(g: seq<Grant>, cutoff: Time)
    requires forall i :: 0 <= i < |g| ==> g[i].at > cutoff
    ensures Live(g, cutoff) == g
  {
    if g != [] {
      AllLive(g[1..], cutoff);
    }
  }

  lemma SortedPruneIsLive(g: seq<Grant>, cutoff: Time)
    requires Sorted(g)
    ensures Prune(g, cutoff) == Live(g, cutoff)
  {
    hide Prune, Live;
    PruneIsSuffix(g, cutoff);
    var kept := Prune(g, cutoff);
    var k := |g| - |kept|;
    forall i | 0 <= i < |kept|
      ensures kept[i].at > cutoff
    {
      assert kept[i] == g[k + i] && kept[0] == g[k];
    }
    LiveDropsStale(g, k, cutoff);
    AllLive(kept, cutoff);
  }

  lemma {:induction false} GrantsAreSorted(l: Limits, calls: seq<Call>, s: Scope, top: Time)
    requires SkewAtMost(calls, 0.0) && ReadingsAtMost(calls, top)
    ensures var g := ScopeGrants(History(l, calls), s);
            Sorted(g) && forall i :: 0 <= i < |g| ==> g[i].at <= top
  {
    hide AcquireStep, ScopeGrants, History, Run;
    if calls == [] {
      EmptyHistory(l, s);
    } else {
      var before, c := calls[..|calls| - 1], calls[|calls| - 1];
      PrefixOfSkewed(calls, 0.0);
      HistoryStep(l, calls, s);
      if Grants(l, Run(l, before), c) {
        GrantedIsAdmissible(l, Run(l, before), c);
        GrantsAreSorted(l, before, s, c.now);
      } else {
        assert forall i :: 0 <= i < |before| ==> before[i] == calls[i];
        GrantsAreSorted(l, before, s, top);
      }
    }
  }

  lemma PrunedIsLive(l: Limits, calls: seq<Call>, s: Scope, now: Time)
    requires SkewAtMost(calls, 0.0) && ReadingsAtMost(calls, now)
    ensures var cutoff := now - l.Window();
            Prune(Bucket(Run(l, calls).events, s), cutoff) == Live(ScopeGrants(History(l, calls), s), cutoff)
  {
    hide AcquireStep, ScopeGrants, History, Run, Prune, Live;
    var all := ScopeGrants(History(l, calls), s);
    var kept := Bucket(Run(l, calls).events, s);
    BucketIsSuffix(l, calls, s, now);
    GrantsAreSorted(l, calls, s, now);
    SortedPruneIsLive(kept, now - l.Window());
    LiveDropsStale(all, |all| - |kept|, now - l.Window());
  }

  // ------------------------------------------------- what a verdict means

  predicate Fits(l: Limits, s: Scope, bucket: seq<Grant>, cost: int) {
    |bucket| + 1 <= l.EventLimit(s) && CostSum(bucket) + cost <= l.CostLimit(s)
  }

  /** A rate rejection names the first scope in order that would break a limit,
      and the event limit wins over the cost limit of the same scope. */
  ghost predicate FirstMisfit(l: Limits, scopes: seq<Scope>, buckets: seq<seq<Grant>>, cost: int, i: int, code: Code)
    requires |scopes| == |buckets|
  {
    && 0 <= i < |scopes|
    && (forall j :: 0 <= j < i ==> Fits(l, scopes[j], buckets[j], cost))
    && !Fits(l, scopes[i], buckets[i], cost)
    && code == if |buckets[i]| + 1 > l.EventLimit(scopes[i]) then EventCode(scopes[i]) else CostCode(scopes[i])
  }

  lemma {:induction false} FirstBrokenIsFirst(l: Limits, scopes: seq<Scope>, buckets: seq<seq<Grant>>, cost: int)
    returns (i: int)
    requires |scopes| == |buckets|
    ensures match FirstBroken(l, scopes, buckets, cost)
            case None => forall j :: 0 <= j < |scopes| ==> Fits(l, scopes[j], buckets[j], cost)
            case Some(code) => FirstMisfit(l, scopes, buckets, cost, i, code)
  {
    i := 0;
    if scopes != [] && Fits(l, scopes[0], buckets[0], cost) {
      var k := FirstBrokenIsFirst(l, scopes[1..], buckets[1..], cost);
      i := k + 1;
      assert forall j :: 1 <= j < |scopes| ==> scopes[j] == scopes[1..][j - 1] && buckets[j] == buckets[1..][j - 1];
    }
  }

  // ------------------------------------------------------------- refinement

  /** One call: with the full history as reference state, same verdict. */
  lemma SameVerdict(l: Limits, calls: seq<Call>, c: Call)
    requires c.Acquire?
    requires SkewAtMost(calls, 0.0) && ReadingsAtMost(calls, c.now)
    ensures VerdictOf(l, Run(l, calls), c)
         == RefVerdict(l, RefState(History(l, calls), Run(l, calls).inflight), c.actor, c.cost, c.now)
  {
    hide Run, History, ScopeGrants, FirstBroken, Prune, Live, Touched, Charged, Cleaned;
    var st := Run(l, calls);
    var scopes := c.actor.Scopes();
    var cutoff := c.now - l.Window();
    forall i | 0 <= i < |scopes|
      ensures Prune(Bucket(Swept(l, st, c.now).events, scopes[i]), cutoff)
           == Live(ScopeGrants(History(l, calls), scopes[i]), cutoff)
    {
      BucketSwept(l, st, c.now, scopes[i]);
      PrunedIsLive(l, calls, scopes[i], c.now);
    }
    assert PrunedBuckets(Swept(l, st, c.now).events, scopes, cutoff) == LiveBuckets(History(l, calls), scopes, cutoff);
  }

  lemma InflightStep(l: Limits, st: State, c: Call)
    ensures Step(l, st, c).inflight ==
            if Grants(l, st, c) then st.inflight + 1
            else if c.ReleaseSlot? && st.inflight > 0 then st.inflight - 1
            else st.inflight
  {
    hide FirstBroken, Touched, Charged, Cleaned, PrunedBuckets;
  }

  /** The reference remembers exactly the grants the code gave, and counts the
      same slots in flight. */
  lemma {:induction false} ReferenceRemembersGrants(l: Limits, calls: seq<Call>)
    requires SkewAtMost(calls, 0.0)
    ensures RefRun(l, calls) == RefState(History(l, calls), Run(l, calls).inflight)
  {
    hide AcquireStep, RefVerdict, ScopeGrants, Step;
    if calls != [] {
      var before, c := calls[..|calls| - 1], calls[|calls| - 1];
      PrefixOfSkewed(calls, 0.0);
      ReferenceRemembersGrants(l, before);
      InflightStep(l, Run(l, before), c);
      if Admissible(c) {
        SameVerdict(l, before, c);
      } else if c.Acquire? {
        InadmissibleVerdicts(l, Run(l, before), RefRun(l, before), c);
      }
    }
  }

  /** Main result.  Lazy popping and periodic cleanup refine the reference: after
      any calls, any next call gets the same verdict, with the same rejection
      code, from both. */
  lemma LazyRefinesFullHistory(l: Limits, calls: seq<Call>, c: Call)
    requires c.Acquire? && SkewAtMost(calls, 0.0) && ReadingsAtMost(calls, c.now)
    ensures VerdictOf(l, Run(l, calls), c) == RefVerdict(l, RefRun(l, calls), c.actor, c.cost, c.now)
  {
    hide AcquireStep, RefVerdict, ScopeGrants, History, Run, RefRun;
    ReferenceRemembersGrants(l, calls);
    SameVerdict(l, calls, c);
  }

  lemma InadmissibleVerdicts(l: Limits, st: State, ref: RefState, c: Call)
    requires c.Acquire? && !Admissible(c)
    ensures VerdictOf(l, st, c) == RefVerdict(l, ref, c.actor, c.cost, c.now)
    ensures VerdictOf(l, st, c) != Granted
  {
  }

  // --------------------------------------- rejected requests charge no scope

  lemma {:induction false} SameStateSameFuture(l: Limits, a: seq<Call>, b: seq<Call>, rest: seq<Call>)
    requires RefRun(l, a) == RefRun(l, b)
    ensures RefRun(l, a + rest) == RefRun(l, b + rest)
  {
    hide RefVerdict;
    if rest == [] {
      assert a + rest == a && b + rest == b;
    } else {
      var init, last := rest[..|rest| - 1], rest[|rest| - 1];
      SameStateSameFuture(l, a, b, init);
      assert (a + rest)[..|a + rest| - 1] == a + init && (b + rest)[..|b + rest| - 1] == b + init;
    }
  }

  /** A call that was not granted, whatever it pruned in place, can be erased
      from the run: every later call gets the verdict it would have got. */
  lemma RejectionChargesNothing(l: Limits, before: seq<Call>, rejected: Call, after: seq<Call>, next: Call)
    requires rejected.Acquire? && next.Acquire? && Admissible(next)
    requires !Grants(l, Run(l, before), rejected)
    requires SkewAtMost(before + [rejected] + after + [next], 0.0)
    ensures VerdictOf(l, Run(l, before + [rejected] + after), next) == VerdictOf(l, Run(l, before + after), next)
  {
    hide AcquireStep, RefVerdict, ScopeGrants, History, Run, Grants;
    var with, without := before + [rejected] + after, before + after;
    assert with + [next] == before + [rejected] + (after + [next]) && without + [next] == before + (after + [next]);
    ErasedStaysSorted(before, rejected, after + [next]);
    assert (with + [next])[..|with + [next]| - 1] == with && (without + [next])[..|without + [next]| - 1] == without;
    PrefixOfSkewed(with + [next], 0.0);
    PrefixOfSkewed(without + [next], 0.0);
    LazyRefinesFullHistory(l, with, next);
    LazyRefinesFullHistory(l, without, next);
    RejectionIsReferenceNoOp(l, before, rejected, with);
    SameStateSameFuture(l, before + [rejected], before, after);
  }

  lemma ErasedStaysSorted(before: seq<Call>, c: Call, after: seq<Call>)
    requires SkewAtMost(before + [c] + after, 0.0)
    ensures SkewAtMost(before + after, 0.0)
  {
    var all, rest := before + [c] + after, before + after;
    forall i, j | 0 <= i < j < |rest| && Admissible(rest[i]) && Admissible(rest[j])
      ensures rest[i].now <= rest[j].now + 0.0
    {
      var p := if i < |before| then i else i + 1;
      var q := if j < |before| then j else j + 1;
      assert all[p] == rest[i] && all[q] == rest[j];
    }
  }

  lemma RejectionIsReferenceNoOp(l: Limits, before: seq<Call>, rejected: Call, run: seq<Call>)
    requires rejected.Acquire? && !Grants(l, Run(l, before), rejected)
    requires before + [rejected] <= run && SkewAtMost(run, 0.0)
    ensures RefRun(l, before + [rejected]) == RefRun(l, before)
  {
    hide AcquireStep, RefVerdict, ScopeGrants;
    var calls := before + [rejected];
    assert calls[..|calls| - 1] == before && calls[|calls| - 1] == rejected;
    assert forall i :: 0 <= i < |calls| ==> calls[i] == run[i];
    PrefixOfSkewed(calls, 0.0);
    ReferenceRemembersGrants(l, before);
    if Admissible(rejected) {
      SameVerdict(l, before, rejected);
    } else {
      InadmissibleVerdicts(l, Run(l, before), RefRun(l, before), rejected);
    }
  }
}
