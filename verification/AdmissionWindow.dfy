/** The sliding-window bound, with clock readings that may be out of order by a
    bounded skew. */
module AdmissionWindow {
  import opened Wrappers
  import opened AdmissionSpec

  // ------------------------------------------------------- deques as suffixes

  /** `kept` is `all` without a prefix, and that prefix is no younger than `stale`. */
  ghost predicate KeptOf(all: seq<Grant>, kept: seq<Grant>, stale: Time) {
    && |kept| <= |all|
    && kept == all[|all| - |kept|..]
    && forall i :: 0 <= i < |all| - |kept| ==> all[i].at <= stale
  }

  lemma KeptTwice(all: seq<Grant>, kept: seq<Grant>, live: seq<Grant>, stale: Time)
    requires KeptOf(all, kept, stale) && KeptOf(kept, live, stale)
    ensures KeptOf(all, live, stale)
  {
    forall i | 0 <= i < |all| - |live|
      ensures all[i].at <= stale
    {
      if i >= |all| - |kept| {
        assert all[i] == kept[i - (|all| - |kept|)];
      }
    }
  }

  lemma KeptAppend(all: seq<Grant>, kept: seq<Grant>, stale: Time, g: Grant)
    requires KeptOf(all, kept, stale)
    ensures KeptOf(all + [g], kept + [g], stale)
  {
  }

  /** Pruning removes a prefix of expired entries and stops at the first live one. */
  lemma {:induction false} PruneIsSuffix(b: seq<Grant>, cutoff: Time)
    ensures KeptOf(b, Prune(b, cutoff), cutoff)
    ensures Prune(b, cutoff) != [] ==> Prune(b, cutoff)[0].at > cutoff
  {
    if b != [] && b[0].at <= cutoff {
      var kept := Prune(b[1..], cutoff);
      PruneIsSuffix(b[1..], cutoff);
      assert kept == b[1..][|b| - 1 - |kept|..] == b[|b| - |kept|..];
      assert forall i :: 1 <= i < |b| ==> b[i] == b[1..][i - 1];
    } else {
      assert Prune(b, cutoff) == b && b[0..] == b;
    }
  }

  lemma PruneTwice(b: seq<Grant>, cutoff: Time)
    ensures Prune(Prune(b, cutoff), cutoff) == Prune(b, cutoff)
  {
    PruneIsSuffix(b, cutoff);
  }

  lemma BucketSwept(l: Limits, st: State, now: Time, s: Scope)
    ensures var b, b' := Bucket(st.events, s), Bucket(Swept(l, st, now).events, s);
            b' == if now >= st.nextCleanup then Prune(b, now - l.Window()) else b
    ensures Prune(Bucket(Swept(l, st, now).events, s), now - l.Window()) ==
            Prune(Bucket(st.events, s), now - l.Window())
  {
    PruneTwice(Bucket(st.events, s), now - l.Window());
  }

  lemma {:induction false} BucketTouched(events: map<Scope, seq<Grant>>, scopes: seq<Scope>, cutoff: Time, s: Scope)
    ensures Bucket(Touched(events, scopes, cutoff), s) ==
            if s in scopes then Prune(Bucket(events, s), cutoff) else Bucket(events, s)
    ensures Touched(events, scopes, cutoff).Keys == events.Keys
  {
    if scopes != [] {
      BucketTouched(events, scopes[1..], cutoff, s);
    }
  }

  lemma {:induction false} BucketCharged(events: map<Scope, seq<Grant>>, scopes: seq<Scope>, g: Grant, s: Scope)
    ensures Bucket(Charged(events, scopes, g), s) == Bucket(events, s) + if s in scopes then [g] else []
    ensures Charged(events, scopes, g).Keys == events.Keys + (set t | t in scopes)
  {
    if scopes != [] {
      BucketCharged(events, scopes[1..], g, s);
    }
  }

  /** What one acquire does to the deque of one scope: it keeps the deque or
      prunes it, and appends the grant exactly when the call is granted and
      charges this scope. */
  lemma AcquireBucket(l: Limits, st: State, c: Call, s: Scope)
    requires Admissible(c)
    ensures var b := Bucket(st.events, s);
            var pruned := Prune(b, c.now - l.Window());
            var after := Bucket(Step(l, st, c).events, s);
            if Grants(l, st, c) && s in c.actor.Scopes() then after == pruned + [Grant(c.now, c.cost)]
            else after == pruned || (after == b && c.now < st.nextCleanup)
  {
    hide Prune, FirstBroken, PrunedBuckets, Touched, Charged, Cleaned, Swept, Bucket;
    var cutoff := c.now - l.Window();
    var swept := Swept(l, st, c.now);
    var scopes := c.actor.Scopes();
    var touched := swept.(events := Touched(swept.events, scopes, cutoff));
    BucketSwept(l, st, c.now, s);
    BucketTouched(swept.events, scopes, cutoff, s);
    BucketCharged(touched.events, scopes, Grant(c.now, c.cost), s);
    assert Step(l, st, c) == touched ||
           (Grants(l, st, c) && Step(l, st, c) == Admitted(touched, scopes, Grant(c.now, c.cost)));
  }

  /** A granted call broke no limit of any scope it charges. */
  lemma {:induction false} NothingBroken(l: Limits, scopes: seq<Scope>, buckets: seq<seq<Grant>>, cost: int, i: nat)
    requires |scopes| == |buckets| && i < |scopes|
    requires FirstBroken(l, scopes, buckets, cost).None?
    ensures |buckets[i]| + 1 <= l.EventLimit(scopes[i])
    ensures CostSum(buckets[i]) + cost <= l.CostLimit(scopes[i])
  {
    if i > 0 {
      NothingBroken(l, scopes[1..], buckets[1..], cost, i - 1);
    }
  }

  lemma GrantedWithinLimits(l: Limits, st: State, c: Call, s: Scope)
    requires Grants(l, st, c) && s in c.actor.Scopes()
    ensures var pruned := Prune(Bucket(st.events, s), c.now - l.Window());
            |pruned| + 1 <= l.EventLimit(s) && CostSum(pruned) + c.cost <= l.CostLimit(s)
  {
    var cutoff := c.now - l.Window();
    var swept := Swept(l, st, c.now);
    var scopes := c.actor.Scopes();
    var i :| 0 <= i < |scopes| && scopes[i] == s;
    var buckets := PrunedBuckets(swept.events, scopes, cutoff);
    assert buckets[i] == Prune(Bucket(swept.events, s), cutoff);
    NothingBroken(l, scopes, buckets, c.cost, i);
    BucketSwept(l, st, c.now, s);
  }

  lemma GrantedIsAdmissible(l: Limits, st: State, c: Call)
    requires Grants(l, st, c)
    ensures Admissible(c)
  {
  }

  lemma OtherCallsKeepEvents(l: Limits, st: State, c: Call)
    requires !Admissible(c)
    ensures Step(l, st, c).events == st.events && Step(l, st, c).nextCleanup == st.nextCleanup && !Grants(l, st, c)
  {
  }

  /** How one more call extends the full grant list of a scope. */
  lemma HistoryStep(l: Limits, calls: seq<Call>, s: Scope)
    requires calls != []
    ensures var before, c := calls[..|calls| - 1], calls[|calls| - 1];
            var all, prev := ScopeGrants(History(l, calls), s), ScopeGrants(History(l, before), s);
            if Grants(l, Run(l, before), c) && s in c.actor.Scopes() then all == prev + [Grant(c.now, c.cost)]
            else all == prev
  {
    hide AcquireStep, Run;
    var before, c := calls[..|calls| - 1], calls[|calls| - 1];
    if Grants(l, Run(l, before), c) {
      var all := History(l, calls);
      assert all[..|all| - 1] == History(l, before);
    } else {
      assert History(l, calls) == History(l, before);
    }
  }

  /** The stored deque is a suffix of the scope's full grant list, and nothing
      younger than the highest reading minus the window was ever dropped. */
  lemma {:induction false} BucketIsSuffix(l: Limits, calls: seq<Call>, s: Scope, top: Time)
    requires ReadingsAtMost(calls, top)
    ensures KeptOf(ScopeGrants(History(l, calls), s), Bucket(Run(l, calls).events, s), top - l.Window())
  {
    hide AcquireStep, ScopeGrants, History, Prune, KeptOf, Grants, Bucket;
    if calls == [] {
      EmptyHistory(l, s);
    } else {
      var before, c := calls[..|calls| - 1], calls[|calls| - 1];
      assert forall i :: 0 <= i < |before| ==> before[i] == calls[i];
      BucketIsSuffix(l, before, s, top);
      HistoryStep(l, calls, s);
      if Admissible(c) {
        var st := Run(l, before);
        AcquireBucket(l, st, c, s);
        PrunedKept(ScopeGrants(History(l, before), s), Bucket(st.events, s), c.now - l.Window(), top - l.Window());
        if Grants(l, st, c) && s in c.actor.Scopes() {
          KeptAppend(ScopeGrants(History(l, before), s), Prune(Bucket(st.events, s), c.now - l.Window()),
                     top - l.Window(), Grant(c.now, c.cost));
        }
      } else {
        OtherCallsKeepEvents(l, Run(l, before), c);
      }
    }
  }

  lemma PrunedKept(all: seq<Grant>, kept: seq<Grant>, cutoff: Time, stale: Time)
    requires KeptOf(all, kept, stale) && cutoff <= stale
    ensures KeptOf(all, Prune(kept, cutoff), stale)
  {
    PruneIsSuffix(kept, cutoff);
    KeptTwice(all, kept, Prune(kept, cutoff), stale);
  }

  lemma EmptyHistory(l: Limits, s: Scope)
    ensures ScopeGrants(History(l, []), s) == [] && Bucket(Run(l, []).events, s) == []
    ensures forall stale :: KeptOf([], [], stale)
  {
  }

  // --------------------------------------------------------- counting grants

  /** A half-open interval, closed on the left or on the right. */
  datatype Interval = Interval(lo: Time, hi: Time, leftClosed: bool) {
    predicate Has(t: Time) {
      if leftClosed then lo <= t < hi else lo < t <= hi
    }
    function Length(): Time { hi - lo }
  }

  function CountIn(g: seq<Grant>, iv: Interval): nat {
    if g == [] then 0
    else CountIn(g[..|g| - 1], iv) + (if iv.Has(g[|g| - 1].at) then 1 else 0)
  }

  function CostIn(g: seq<Grant>, iv: Interval): nat {
    if g == [] then 0
    else CostIn(g[..|g| - 1], iv) + (if iv.Has(g[|g| - 1].at) then g[|g| - 1].cost else 0)
  }

  /** Entries outside the interval contribute nothing, so a suffix that holds
      all of those inside bounds both counters. */
  lemma {:induction false} SuffixBounds(g: seq<Grant>, k: nat, iv: Interval)
    requires k <= |g|
    requires forall i :: 0 <= i < k ==> !iv.Has(g[i].at)
    ensures CountIn(g, iv) <= |g| - k
    ensures CostIn(g, iv) <= CostSum(g[k..])
  {
    if k < |g| {
      SuffixBounds(g[..|g| - 1], k, iv);
      assert g[k..][..|g[k..]| - 1] == g[..|g| - 1][k..];
    } else if g != [] {
      SuffixBounds(g[..|g| - 1], k - 1, iv);
      assert g[k..] == [] && g[..|g| - 1][k - 1..] == [];
    }
  }

  lemma PrefixOfSkewed(calls: seq<Call>, skew: Time)
    requires calls != [] && SkewAtMost(calls, skew)
    ensures SkewAtMost(calls[..|calls| - 1], skew)
    ensures Admissible(calls[|calls| - 1]) ==> ReadingsAtMost(calls[..|calls| - 1], calls[|calls| - 1].now + skew)
  {
  }

  /** What pruning kept bounds both counters of the full list, as long as the
      interval starts after everything that was dropped. */
  lemma LiveEntriesCover(all: seq<Grant>, live: seq<Grant>, stale: Time, iv: Interval)
    requires KeptOf(all, live, stale)
    requires forall t :: t <= stale ==> !iv.Has(t)
    ensures CountIn(all, iv) <= |live| && CostIn(all, iv) <= CostSum(live)
  {
    hide CountIn, CostIn, CostSum;
    SuffixBounds(all, |all| - |live|, iv);
  }

  lemma OldReadingsMissInterval(iv: Interval, now: Time, width: Time)
    requires iv.Has(now) && iv.Length() <= width
    ensures forall t :: t <= now - width ==> !iv.Has(t)
  {
  }

  /** When a call is granted, the grants of one of its scopes in an interval
      around its own reading still fit under both limits with the call added. */
  lemma GrantFits(l: Limits, before: seq<Call>, c: Call, s: Scope, iv: Interval, skew: Time)
    requires 0.0 <= skew && iv.Length() <= l.Window() - skew
    requires Admissible(c) && ReadingsAtMost(before, c.now + skew)
    requires Grants(l, Run(l, before), c) && s in c.actor.Scopes() && iv.Has(c.now)
    ensures CountIn(ScopeGrants(History(l, before), s), iv) + 1 <= l.EventLimit(s)
    ensures CostIn(ScopeGrants(History(l, before), s), iv) + c.cost <= l.CostLimit(s)
  {
    hide AcquireStep, Run, History, ScopeGrants, Prune, CountIn, CostIn, CostSum, Interval.Has, KeptOf, Grants;
    var all, kept := ScopeGrants(History(l, before), s), Bucket(Run(l, before).events, s);
    var stale := c.now + skew - l.Window();
    GrantedWithinLimits(l, Run(l, before), c, s);
    BucketIsSuffix(l, before, s, c.now + skew);
    PrunedKept(all, kept, c.now - l.Window(), stale);
    OldReadingsMissInterval(iv, c.now, l.Window() - skew);
    LiveEntriesCover(all, Prune(kept, c.now - l.Window()), stale, iv);
  }

  /** Main result.  With readings out of order by at most `skew`, every half-open
      interval no longer than the window minus the skew holds at most the event
      limit of grants and at most the cost limit of cost, in every scope. */
  lemma {:induction false} SkewedWindowBound(l: Limits, calls: seq<Call>, skew: Time, s: Scope, iv: Interval)
    requires l.Valid() && 0.0 <= skew
    requires SkewAtMost(calls, skew)
    requires iv.Length() <= l.Window() - skew
    ensures CountIn(ScopeGrants(History(l, calls), s), iv) <= l.EventLimit(s)
    ensures CostIn(ScopeGrants(History(l, calls), s), iv) <= l.CostLimit(s)
  {
    hide AcquireStep, ScopeGrants, History, Run;
    if calls == [] {
      EmptyHistory(l, s);
    } else {
      var before, c := calls[..|calls| - 1], calls[|calls| - 1];
      PrefixOfSkewed(calls, skew);
      SkewedWindowBound(l, before, skew, s, iv);
      HistoryStep(l, calls, s);
      if Grants(l, Run(l, before), c) && s in c.actor.Scopes() {
        var g := ScopeGrants(History(l, calls), s);
        assert g[..|g| - 1] == ScopeGrants(History(l, before), s);
        if iv.Has(c.now) {
          GrantedIsAdmissible(l, Run(l, before), c);
          GrantFits(l, before, c, s, iv, skew);
        }
      }
    }
  }
}
