/** What the limits of the gate amount to, with every limit written out: which calls
    are granted, which code a refusal carries, and how much any interval can hold. */
module AdmissionLimits {
  import opened Wrappers
  import opened AdmissionSpec
  import opened AdmissionWindow
  import opened AdmissionReference

  // ------------------------------------------------------ the verdict of a call

  /** The grants of a scope that the window still holds when a call reads `now`. */
  function LiveOf(l: Limits, st: State, s: Scope, now: Time): seq<Grant> {
    Prune(Bucket(st.events, s), now - l.windowSeconds as real)
  }

  predicate Room(live: seq<Grant>, cost: int, events: int, budget: int) {
    |live| + 1 <= events && CostSum(live) + cost <= budget
  }

  /** The senders before number `k` all have room. */
  predicate SendersRoom(l: Limits, st: State, ids: seq<string>, k: nat, cost: int, now: Time)
    requires k <= |ids|
  {
    forall i :: 0 <= i < k ==> Room(LiveOf(l, st, Sender(ids[i]), now), cost, l.senderEvents, l.senderCost)
  }

  /** What stands in the way of a call, scope by scope, in the order they are asked. */
  datatype Obstacle = Clear | SenderEvents | SenderBudget | ChatEvents | ChatBudget | GlobalEvents | GlobalBudget

  predicate Blocks(l: Limits, st: State, a: Actor, cost: int, now: Time, o: Obstacle) {
    var chat, all := LiveOf(l, st, Chat(a.chatId), now), LiveOf(l, st, Global, now);
    var senders := SendersRoom(l, st, a.senderIds, |a.senderIds|, cost, now);
    match o
    case Clear =>
      senders && Room(chat, cost, l.chatEvents, l.chatCost) && Room(all, cost, l.globalEvents, l.globalCost)
    case SenderEvents =>
      exists i :: 0 <= i < |a.senderIds| && SendersRoom(l, st, a.senderIds, i, cost, now) &&
        |LiveOf(l, st, Sender(a.senderIds[i]), now)| + 1 > l.senderEvents
    case SenderBudget =>
      exists i :: 0 <= i < |a.senderIds| && SendersRoom(l, st, a.senderIds, i, cost, now) &&
        |LiveOf(l, st, Sender(a.senderIds[i]), now)| + 1 <= l.senderEvents &&
        CostSum(LiveOf(l, st, Sender(a.senderIds[i]), now)) + cost > l.senderCost
    case ChatEvents => senders && |chat| + 1 > l.chatEvents
    case ChatBudget => senders && |chat| + 1 <= l.chatEvents && CostSum(chat) + cost > l.chatCost
    case GlobalEvents =>
      senders && Room(chat, cost, l.chatEvents, l.chatCost) && |all| + 1 > l.globalEvents
    case GlobalBudget =>
      senders && Room(chat, cost, l.chatEvents, l.chatCost) && |all| + 1 <= l.globalEvents &&
      CostSum(all) + cost > l.globalCost
  }

  /** Main result.  The verdict of any call in any state, each limit and each code by
      name. */
  lemma VerdictIff(l: Limits, st: State, a: Actor, cost: int, now: Time)
    ensures var v := AcquireStep(l, st, a, cost, now).1;
            var asked := |a.senderIds| > 0 && |a.chatId| > 0 && cost >= 1;
            && (v == InvalidActor <==> |a.senderIds| == 0 || |a.chatId| == 0)
            && (v == InvalidCost <==> |a.senderIds| > 0 && |a.chatId| > 0 && cost <= 0)
            && (v == Granted <==> asked && Blocks(l, st, a, cost, now, Clear) && st.inflight < l.maxInflight)
            && (v == CapacityExhausted <==> asked && Blocks(l, st, a, cost, now, Clear) && st.inflight >= l.maxInflight)
            && (v == RateLimited(SenderRateLimit) <==> asked && Blocks(l, st, a, cost, now, SenderEvents))
            && (v == RateLimited(SenderCostLimit) <==> asked && Blocks(l, st, a, cost, now, SenderBudget))
            && (v == RateLimited(ChatRateLimit) <==> asked && Blocks(l, st, a, cost, now, ChatEvents))
            && (v == RateLimited(ChatCostLimit) <==> asked && Blocks(l, st, a, cost, now, ChatBudget))
            && (v == RateLimited(GlobalRateLimit) <==> asked && Blocks(l, st, a, cost, now, GlobalEvents))
            && (v == RateLimited(GlobalCostLimit) <==> asked && Blocks(l, st, a, cost, now, GlobalBudget))
  {
    hide Prune, CostSum, Swept, Touched, Blocks, FirstBroken, PrunedBuckets, EventCode, CostCode;
    if |a.senderIds| > 0 && |a.chatId| > 0 && cost >= 1 {
      var o := ObstacleOf(l, st, a, cost, now);
      forall other | Blocks(l, st, a, cost, now, other)
        ensures other == o
      {
        BlocksApart(l, st, a, cost, now, o, other);
      }
      SweptInflight(l, st, now);
    }
  }

  lemma SweptInflight(l: Limits, st: State, now: Time)
    ensures Swept(l, st, now).inflight == st.inflight
  {
  }

  function CodeOf(o: Obstacle): Option<Code> {
    match o
    case Clear => None
    case SenderEvents => Some(SenderRateLimit)
    case SenderBudget => Some(SenderCostLimit)
    case ChatEvents => Some(ChatRateLimit)
    case ChatBudget => Some(ChatCostLimit)
    case GlobalEvents => Some(GlobalRateLimit)
    case GlobalBudget => Some(GlobalCostLimit)
  }

  /** The deques the limits are tested on, scope by scope. */
  lemma BucketsAreLive(l: Limits, st: State, a: Actor, now: Time)
    ensures var scopes := a.Scopes();
            var b := PrunedBuckets(Swept(l, st, now).events, scopes, now - l.Window());
            var n := |a.senderIds|;
            && |scopes| == n + 2 == |b| && scopes[n] == Chat(a.chatId) && scopes[n + 1] == Global
            && (forall i :: 0 <= i < n ==> scopes[i] == Sender(a.senderIds[i]))
            && (forall i :: 0 <= i < n + 2 ==> b[i] == LiveOf(l, st, scopes[i], now))
  {
    hide Prune, Swept;
    var scopes := a.Scopes();
    forall i | 0 <= i < |scopes|
      ensures Prune(Bucket(Swept(l, st, now).events, scopes[i]), now - l.Window()) == LiveOf(l, st, scopes[i], now)
    {
      BucketSwept(l, st, now, scopes[i]);
    }
  }

  /** The test finds an obstacle and names its code. */
  lemma ObstacleOf(l: Limits, st: State, a: Actor, cost: int, now: Time) returns (o: Obstacle)
    ensures Blocks(l, st, a, cost, now, o)
    ensures FirstBroken(l, a.Scopes(), PrunedBuckets(Swept(l, st, now).events, a.Scopes(), now - l.Window()), cost)
         == CodeOf(o)
  {
    hide Prune, CostSum, Swept, FirstBroken, LiveOf, PrunedBuckets;
    var scopes := a.Scopes();
    var b := PrunedBuckets(Swept(l, st, now).events, scopes, now - l.Window());
    var n := |a.senderIds|;
    BucketsAreLive(l, st, a, now);
    var i := FirstBrokenIsFirst(l, scopes, b, cost);
    var broken := FirstBroken(l, scopes, b, cost);
    forall j | 0 <= j < n && Fits(l, scopes[j], b[j], cost)
      ensures Room(LiveOf(l, st, Sender(a.senderIds[j]), now), cost, l.senderEvents, l.senderCost)
    {
      assert scopes[j] == Sender(a.senderIds[j]);
    }
    if broken == None {
      assert Fits(l, scopes[n], b[n], cost) && Fits(l, scopes[n + 1], b[n + 1], cost);
      o := Clear;
    } else if i < n {
      assert SendersRoom(l, st, a.senderIds, i, cost, now);
      o := if |b[i]| + 1 > l.senderEvents then SenderEvents else SenderBudget;
    } else if i == n {
      o := if |b[n]| + 1 > l.chatEvents then ChatEvents else ChatBudget;
    } else {
      assert Fits(l, scopes[n], b[n], cost);
      o := if |b[n + 1]| + 1 > l.globalEvents then GlobalEvents else GlobalBudget;
    }
  }

  lemma BlocksApart(l: Limits, st: State, a: Actor, cost: int, now: Time, o: Obstacle, other: Obstacle)
    requires Blocks(l, st, a, cost, now, o) && Blocks(l, st, a, cost, now, other)
    ensures o == other
  {
    hide LiveOf, CostSum;
  }

  // ------------------------------------------------- what an interval can hold

  /** Whether a grant was given to this scope, read off the call itself. */
  predicate Belongs(c: Charge, s: Scope) {
    match s
    case Sender(id) => id in c.actor.senderIds
    case Chat(id) => c.actor.chatId == id
    case Global => true
  }

  function EventsIn(hist: seq<Charge>, s: Scope, iv: Interval): nat {
    if hist == [] then 0
    else
      var last := hist[|hist| - 1];
      EventsIn(hist[..|hist| - 1], s, iv) + if Belongs(last, s) && iv.Has(last.at) then 1 else 0
  }

  function CostsIn(hist: seq<Charge>, s: Scope, iv: Interval): nat {
    if hist == [] then 0
    else
      var last := hist[|hist| - 1];
      CostsIn(hist[..|hist| - 1], s, iv) + if Belongs(last, s) && iv.Has(last.at) then last.cost else 0
  }

  lemma BelongsIff(c: Charge, s: Scope)
    ensures s in c.actor.Scopes() <==> Belongs(c, s)
  {
    var scopes := c.actor.Scopes();
    match s
    case Sender(id) =>
      if id in c.actor.senderIds {
        var i :| 0 <= i < |c.actor.senderIds| && c.actor.senderIds[i] == id;
        assert scopes[i] == s;
      }
    case Chat(id) => assert scopes[|c.actor.senderIds|] == Chat(c.actor.chatId);
    case Global => assert scopes[|c.actor.senderIds| + 1] == Global;
  }

  lemma {:induction false} CountedByCall(hist: seq<Charge>, s: Scope, iv: Interval)
    ensures CountIn(ScopeGrants(hist, s), iv) == EventsIn(hist, s, iv)
    ensures CostIn(ScopeGrants(hist, s), iv) == CostsIn(hist, s, iv)
  {
    hide Interval.Has;
    if hist != [] {
      var init, last := hist[..|hist| - 1], hist[|hist| - 1];
      CountedByCall(init, s, iv);
      BelongsIff(last, s);
      var g := ScopeGrants(hist, s);
      if Belongs(last, s) {
        assert g[..|g| - 1] == ScopeGrants(init, s);
      } else {
        assert g == ScopeGrants(init, s);
      }
    }
  }

  /** Main result.  With readings out of order by at most `skew`, every half-open
      interval of `windowSeconds` minus the skew, or shorter, holds at most this many
      grants and this much cost: of any one sender, of any one chat, and in all. */
  lemma EveryIntervalWithinLimits(l: Limits, calls: seq<Call>, skew: Time, iv: Interval, sender: string, chat: string)
    requires l.Valid() && 0.0 <= skew && SkewAtMost(calls, skew)
    requires iv.hi - iv.lo <= l.windowSeconds as real - skew
    ensures var h := History(l, calls);
            && EventsIn(h, Sender(sender), iv) <= l.senderEvents && CostsIn(h, Sender(sender), iv) <= l.senderCost
            && EventsIn(h, Chat(chat), iv) <= l.chatEvents && CostsIn(h, Chat(chat), iv) <= l.chatCost
            && EventsIn(h, Global, iv) <= l.globalEvents && CostsIn(h, Global, iv) <= l.globalCost
  {
    hide Run, History, ScopeGrants, EventsIn, CostsIn, CountIn, CostIn;
    SkewedWindowBound(l, calls, skew, Sender(sender), iv);
    SkewedWindowBound(l, calls, skew, Chat(chat), iv);
    SkewedWindowBound(l, calls, skew, Global, iv);
    CountedByCall(History(l, calls), Sender(sender), iv);
    CountedByCall(History(l, calls), Chat(chat), iv);
    CountedByCall(History(l, calls), Global, iv);
  }

  // ------------------------------------------ the same verdict, on all grants

  lemma {:induction false} LiveCounted(g: seq<Grant>, from: Time, to: Time)
    requires forall i :: 0 <= i < |g| ==> g[i].at <= to
    ensures |Live(g, from)| == CountIn(g, Interval(from, to, false))
    ensures CostSum(Live(g, from)) == CostIn(g, Interval(from, to, false))
  {
    if g != [] {
      var init, last := g[..|g| - 1], g[|g| - 1];
      LiveCounted(init, from, to);
      LiveAppend(init, last, from);
      assert g == init + [last];
      var live := Live(init, from);
      assert (live + [last])[..|live|] == live;
      assert CostSum(live + [last]) == CostSum(live) + last.cost && live + [] == live;
    }
  }

  lemma {:induction false} LiveAppend(g: seq<Grant>, last: Grant, from: Time)
    ensures Live(g + [last], from) == Live(g, from) + if last.at > from then [last] else []
  {
    if g == [] {
      assert g + [last] == [last] && [last][1..] == [];
    } else {
      LiveAppend(g[1..], last, from);
      assert (g + [last])[1..] == g[1..] + [last];
    }
  }

  /** Every grant ever given for a scope whose reading lies in the last `windowSeconds`
      before `now`. */
  function Window(l: Limits, now: Time): Interval {
    Interval(now - l.windowSeconds as real, now, false)
  }

  lemma LiveIsHistory(l: Limits, calls: seq<Call>, now: Time, s: Scope)
    requires SkewAtMost(calls, 0.0) && ReadingsAtMost(calls, now)
    ensures var live, h := LiveOf(l, Run(l, calls), s, now), History(l, calls);
            |live| == EventsIn(h, s, Window(l, now)) && CostSum(live) == CostsIn(h, s, Window(l, now))
  {
    hide AcquireStep, Run, History, ScopeGrants, Prune, Live, CostSum, Bucket, CountIn, CostIn, EventsIn, CostsIn;
    var g := ScopeGrants(History(l, calls), s);
    PrunedIsLive(l, calls, s, now);
    GrantsAreSorted(l, calls, s, now);
    LiveCounted(g, now - l.windowSeconds as real, now);
    CountedByCall(History(l, calls), s, Window(l, now));
  }

  /** Main result.  With readings that do not go back, a well-formed call is granted
      exactly when, counting every grant ever given in the last `windowSeconds`, one
      more event and its cost fit each sender, the chat and the whole, and fewer than
      `maxInflight` slots are taken. */
  lemma GrantedIff(l: Limits, calls: seq<Call>, c: Call)
    requires c.Acquire? && |c.actor.senderIds| > 0 && |c.actor.chatId| > 0 && c.cost >= 1
    requires SkewAtMost(calls, 0.0) && ReadingsAtMost(calls, c.now)
    ensures var h, recent := History(l, calls), Window(l, c.now);
            Grants(l, Run(l, calls), c) <==>
            && (forall i :: 0 <= i < |c.actor.senderIds| ==>
                  && EventsIn(h, Sender(c.actor.senderIds[i]), recent) + 1 <= l.senderEvents
                  && CostsIn(h, Sender(c.actor.senderIds[i]), recent) + c.cost <= l.senderCost)
            && EventsIn(h, Chat(c.actor.chatId), recent) + 1 <= l.chatEvents
            && CostsIn(h, Chat(c.actor.chatId), recent) + c.cost <= l.chatCost
            && EventsIn(h, Global, recent) + 1 <= l.globalEvents
            && CostsIn(h, Global, recent) + c.cost <= l.globalCost
            && Run(l, calls).inflight < l.maxInflight
  {
    hide AcquireStep, Run, History, Prune, CostSum, Bucket, LiveOf, EventsIn, CostsIn, Window;
    VerdictIff(l, Run(l, calls), c.actor, c.cost, c.now);
    forall s
      ensures var live, h := LiveOf(l, Run(l, calls), s, c.now), History(l, calls);
              && |live| == EventsIn(h, s, Window(l, c.now)) && CostSum(live) == CostsIn(h, s, Window(l, c.now))
    {
      LiveIsHistory(l, calls, c.now, s);
    }
  }

  // -------------------------------------------------------- what a call leaves

  /** A granted call leaves its own grant at the end of each of its deques and takes
      one slot; a sweep is due again after the window, a minute at most. */
  lemma GrantLeaves(l: Limits, st: State, c: Call, s: Scope)
    requires c.Acquire? && Grants(l, st, c)
    ensures var st' := Step(l, st, c);
            && st'.inflight == st.inflight + 1
            && (Belongs(Charge(c.actor, c.cost, c.now), s) ==>
                  Bucket(st'.events, s) == LiveOf(l, st, s, c.now) + [Grant(c.now, c.cost)])
            && st'.nextCleanup == if c.now < st.nextCleanup then st.nextCleanup
                                  else c.now + (if l.windowSeconds <= 60 then l.windowSeconds else 60) as real
  {
    hide AcquireStep, Prune, Bucket, Swept, Step;
    GrantedIsAdmissible(l, st, c);
    AcquireBucket(l, st, c, s);
    BelongsIff(Charge(c.actor, c.cost, c.now), s);
    InflightStep(l, st, c);
    SweepDue(l, st, c);
  }

  lemma SweepDue(l: Limits, st: State, c: Call)
    requires Admissible(c)
    ensures Step(l, st, c).nextCleanup ==
            if c.now < st.nextCleanup then st.nextCleanup
            else c.now + (if l.windowSeconds <= 60 then l.windowSeconds else 60) as real
  {
    hide FirstBroken, Prune, PrunedBuckets, Touched, Charged, Cleaned;
  }

  /** Limits the gate accepts are all positive, and an actor names at most three
      senders, none twice. */
  lemma WellFormedIff(l: Limits, a: ActorIds)
    ensures l.Valid() <==>
            && l.windowSeconds > 0 && l.maxInflight > 0
            && l.senderEvents > 0 && l.chatEvents > 0 && l.globalEvents > 0
            && l.senderCost > 0 && l.chatCost > 0 && l.globalCost > 0
    ensures a.Canonical() <==>
            |a.senderIds| < 4 &&
            forall i, j :: 0 <= i < |a.senderIds| && 0 <= j < |a.senderIds| && i != j ==>
              a.senderIds[i] != a.senderIds[j]
  {
  }
}
