/** The window bound of AdmissionWindow cannot be improved: for every skew there
    is a run with readings at most that far out of order in which a non-empty interval
    only just longer than the window minus the skew holds one grant, and one unit of
    cost, too many. */
module AdmissionSkew {
  import opened Wrappers
  import opened AdmissionSpec
  import opened AdmissionWindow

  const ALICE := ActorIds(["open_id:a"], "c")
  const BOB := ActorIds(["open_id:b"], "d")

  function OnePerSender(windowSeconds: int): Limits {
    Limits(windowSeconds, 1, 9, 9, 1, 9, 9, 9)
  }

  /** Bob's call reads the clock a whole window after Alice's first call and is
      the first to take the lock again; Alice's second call read it earlier. */
  function Straddle(w: Time, skew: Time): seq<Call> {
    [Acquire(ALICE, 1, 0.0), Acquire(BOB, 1, w), Acquire(ALICE, 1, w - skew)]
  }

  lemma FreshGrant(l: Limits, st: State, a: Actor, now: Time)
    requires l == OnePerSender(l.windowSeconds) && l.Valid()
    requires |a.senderIds| == 1 && a.chatId != ""
    requires forall s :: s in a.Scopes() ==>
               var b := Prune(Bucket(st.events, s), now - l.Window());
               |b| <= 2 && CostSum(b) <= 2 && (s.Sender? ==> b == [])
    requires st.inflight <= 2
    ensures Grants(l, st, Acquire(a, 1, now))
  {
    hide Prune, CostSum, Touched, Charged, Cleaned;
    var swept := Swept(l, st, now);
    var scopes := a.Scopes();
    var buckets := PrunedBuckets(swept.events, scopes, now - l.Window());
    BucketSwept(l, st, now, scopes[0]);
    BucketSwept(l, st, now, scopes[1]);
    BucketSwept(l, st, now, scopes[2]);
    assert scopes[0] in scopes && scopes[1] in scopes && scopes[2] in scopes;
    assert CostSum([]) == 0 by { EmptyCost(); }
    assert FirstBroken(l, scopes[2..], buckets[2..], 1) == None;
    assert FirstBroken(l, scopes[1..], buckets[1..], 1) == None;
  }

  lemma EmptyCost()
    ensures CostSum([]) == 0
  {
  }

  /** How far out of order the run needs to be: a whole window is always enough. */
  function Lag(l: Limits, skew: Time): Time {
    if skew <= l.Window() then skew else l.Window()
  }

  /** Main result.  Any half-open interval that is not empty and longer than
      the window minus the skew can hold more than both limits of a scope. */
  lemma BeyondTheSkewTheBoundFails(windowSeconds: int, skew: Time, width: Time)
    requires windowSeconds >= 1 && 0.0 <= skew
    requires 0.0 < width && width > windowSeconds as real - skew
    ensures var l := OnePerSender(windowSeconds);
            var calls := Straddle(l.Window(), Lag(l, skew));
            var s, iv := Sender("open_id:a"), Interval(0.0, width, true);
            && l.Valid() && SkewAtMost(calls, skew)
            && CountIn(ScopeGrants(History(l, calls), s), iv) > l.EventLimit(s)
            && CostIn(ScopeGrants(History(l, calls), s), iv) > l.CostLimit(s)
  {
    hide AcquireStep, Run, History, ScopeGrants, Prune, Bucket, CountIn, CostIn;
    var l := OnePerSender(windowSeconds);
    var calls := Straddle(l.Window(), Lag(l, skew));
    ThreeGrants(l, Lag(l, skew));
    CountTwo(ScopeGrants(History(l, calls), Sender("open_id:a")), Interval(0.0, width, true));
  }

  /** What the dictionary holds for one scope after a call that grants in an
      interval where it sweeps, and how many slots are taken. */
  lemma GrantStep(l: Limits, st: State, c: Call, s: Scope)
    requires Grants(l, st, c)
    ensures Step(l, st, c).inflight == st.inflight + 1
    ensures Step(l, st, c).nextCleanup == if c.now >= st.nextCleanup then c.now + l.CleanupGap() else st.nextCleanup
    ensures var b := Bucket(st.events, s);
            var pruned := Prune(b, c.now - l.Window());
            var after := Bucket(Step(l, st, c).events, s);
            && (s in c.actor.Scopes() ==> after == pruned + [Grant(c.now, c.cost)])
            && (s !in c.actor.Scopes() && c.now >= st.nextCleanup ==> after == pruned)
            && (s !in c.actor.Scopes() ==> after == pruned || after == b)
  {
    AcquireBucket(l, st, c, s);
    hide FirstBroken, Touched, Charged, Cleaned, PrunedBuckets, Prune;
  }

  /** After Alice's first call: one entry in each of her three deques. */
  lemma AfterFirst(l: Limits, a: Call)
    requires l == OnePerSender(l.windowSeconds) && l.Valid() && a == Acquire(ALICE, 1, 0.0)
    ensures var st := Step(l, INITIAL, a);
            && Grants(l, INITIAL, a) && st.inflight == 1 && st.nextCleanup == l.CleanupGap()
            && (forall t :: t in ALICE.Scopes() ==> Bucket(st.events, t) == [Grant(0.0, 1)])
            && (forall t :: t !in ALICE.Scopes() ==> Bucket(st.events, t) == [])
  {
    hide AcquireStep, Bucket, Step;
    forall t { EmptyBucket(t); }
    FreshGrant(l, INITIAL, ALICE, 0.0);
    GrantStep(l, INITIAL, a, Global);
    forall t { GrantStep(l, INITIAL, a, t); }
  }

  /** Bob's sweep drops Alice's entry although it is only just expired. */
  lemma AfterSecond(l: Limits, st: State, b: Call)
    requires l == OnePerSender(l.windowSeconds) && l.Valid() && b == Acquire(BOB, 1, l.Window())
    requires st.inflight == 1 && st.nextCleanup == l.CleanupGap()
    requires forall t :: t in ALICE.Scopes() ==> Bucket(st.events, t) == [Grant(0.0, 1)]
    requires forall t :: t !in ALICE.Scopes() ==> Bucket(st.events, t) == []
    ensures var st2 := Step(l, st, b);
            && Grants(l, st, b) && st2.inflight == 2
            && Bucket(st2.events, Sender("open_id:a")) == [] && Bucket(st2.events, Chat("c")) == []
            && Bucket(st2.events, Global) == [Grant(l.Window(), 1)]
  {
    hide AcquireStep, Bucket, Step;
    assert Prune([Grant(0.0, 1)], 0.0) == [];
    forall t ensures Prune(Bucket(st.events, t), 0.0) == [] { assert t in ALICE.Scopes() || t !in ALICE.Scopes(); }
    FreshGrant(l, st, BOB, l.Window());
    GrantStep(l, st, b, Sender("open_id:a"));
    GrantStep(l, st, b, Chat("c"));
    GrantStep(l, st, b, Global);
  }

  lemma ThirdIsGranted(l: Limits, st: State, skew: Time)
    requires l == OnePerSender(l.windowSeconds) && l.Valid() && 0.0 <= skew && st.inflight == 2
    requires Bucket(st.events, Sender("open_id:a")) == [] && Bucket(st.events, Chat("c")) == []
    requires Bucket(st.events, Global) == [Grant(l.Window(), 1)]
    ensures Grants(l, st, Acquire(ALICE, 1, l.Window() - skew))
  {
    hide AcquireStep, Bucket, Step;
    assert CostSum([Grant(l.Window(), 1)]) == 1;
    FreshGrant(l, st, ALICE, l.Window() - skew);
  }

  lemma ThreeGrants(l: Limits, skew: Time)
    requires l == OnePerSender(l.windowSeconds) && l.Valid()
    requires 0.0 <= skew <= l.Window()
    ensures ScopeGrants(History(l, Straddle(l.Window(), skew)), Sender("open_id:a"))
         == [Grant(0.0, 1), Grant(l.Window() - skew, 1)]
  {
    hide AcquireStep, Run, History, ScopeGrants, Bucket, Step, Grants;
    var calls := Straddle(l.Window(), skew);
    var a, b, a' := calls[0], calls[1], calls[2];
    var s := Sender("open_id:a");
    var two := ([] + [a]) + [b];
    assert calls == two + [a'];
    assert s == ALICE.Scopes()[0] && s !in BOB.Scopes();
    InitialState(l);
    NextState(l, [], a, s);
    AfterFirst(l, a);
    NextState(l, [] + [a], b, s);
    AfterSecond(l, Run(l, [] + [a]), b);
    NextState(l, two, a', s);
    ThirdIsGranted(l, Run(l, two), skew);
  }

  lemma InitialState(l: Limits)
    ensures Run(l, []) == INITIAL && forall s :: ScopeGrants(History(l, []), s) == []
  {
  }

  lemma EmptyBucket(s: Scope)
    ensures Bucket(INITIAL.events, s) == []
  {
  }

  lemma CountTwo(g: seq<Grant>, iv: Interval)
    requires |g| == 2 && iv.Has(g[0].at) && iv.Has(g[1].at)
    ensures CountIn(g, iv) == 2 && CostIn(g, iv) == g[0].cost + g[1].cost
  {
    assert g[..1][..0] == [];
    assert CountIn(g[..1], iv) == 1 && CostIn(g[..1], iv) == g[0].cost;
  }

  lemma NextState(l: Limits, calls: seq<Call>, c: Call, s: Scope)
    requires Admissible(c)
    ensures Run(l, calls + [c]) == Step(l, Run(l, calls), c)
    ensures ScopeGrants(History(l, calls + [c]), s) == ScopeGrants(History(l, calls), s) +
            if Grants(l, Run(l, calls), c) && s in c.actor.Scopes() then [Grant(c.now, c.cost)] else []
  {
    hide AcquireStep, ScopeGrants, History;
    assert (calls + [c])[..|calls + [c]| - 1] == calls;
    HistoryStep(l, calls + [c], s);
  }
}
