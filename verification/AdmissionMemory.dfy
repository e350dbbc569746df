/** How many scopes the gate can have stored. */
module AdmissionMemory {
  import opened Wrappers
  import opened AdmissionSpec
  import opened AdmissionWindow
  import opened AdmissionReference

  // -------------------------------------------------------- scopes of grants

  function NamedScopes(c: Charge): set<Scope> {
    (set s | s in c.actor.Senders()) + {Chat(c.actor.chatId)}
  }

  /** The sender and chat scopes of the grants younger than `after`. */
  function RecentScopes(hist: seq<Charge>, after: Time): set<Scope> {
    if hist == [] then {}
    else
      var last := hist[|hist| - 1];
      RecentScopes(hist[..|hist| - 1], after) + if last.at > after then NamedScopes(last) else {}
  }

  function RecentCount(hist: seq<Charge>, after: Time): nat {
    if hist == [] then 0
    else RecentCount(hist[..|hist| - 1], after) + if hist[|hist| - 1].at > after then 1 else 0
  }

  lemma {:induction false} SetOfSeqSize(xs: seq<Scope>)
    ensures |set x | x in xs| <= |xs|
  {
    if xs != [] {
      var rest := xs[..|xs| - 1];
      SetOfSeqSize(rest);
      assert (set x | x in xs) == (set x | x in rest) + {xs[|xs| - 1]};
    }
  }

  lemma {:induction false} RecentScopesSize(hist: seq<Charge>, after: Time)
    ensures |RecentScopes(hist, after)| <= 4 * RecentCount(hist, after)
  {
    if hist != [] {
      var last := hist[|hist| - 1];
      RecentScopesSize(hist[..|hist| - 1], after);
      SetOfSeqSize(last.actor.Senders());
    }
  }

  /** Every charge hits the global scope, so recent charges are counted by the
      global grants of the two half-open windows around the last cleanup. */
  lemma {:induction false} RecentInTwoWindows(hist: seq<Charge>, from: Time, mid: Time, to: Time)
    requires from <= mid && forall c :: c in hist ==> c.at <= to
    ensures RecentCount(hist, from)
         <= CountIn(ScopeGrants(hist, Global), Interval(from, mid, false))
          + CountIn(ScopeGrants(hist, Global), Interval(mid, to, false))
  {
    if hist != [] {
      var last := hist[|hist| - 1];
      RecentInTwoWindows(hist[..|hist| - 1], from, mid, to);
      var g := ScopeGrants(hist, Global);
      assert Global in last.actor.Scopes();
      assert last in hist;
      assert g == ScopeGrants(hist[..|hist| - 1], Global) + [Grant(last.at, last.cost)];
      assert g[..|g| - 1] == ScopeGrants(hist[..|hist| - 1], Global);
    }
  }

  lemma {:induction false} RecentGrantHasScope(hist: seq<Charge>, s: Scope, i: nat, after: Time)
    requires i < |ScopeGrants(hist, s)| && ScopeGrants(hist, s)[i].at > after
    ensures s == Global || s in RecentScopes(hist, after)
  {
    var init, last := hist[..|hist| - 1], hist[|hist| - 1];
    if i < |ScopeGrants(init, s)| {
      RecentGrantHasScope(init, s, i, after);
    }
  }

  // ----------------------------------------------------------- stored scopes

  /** The keys one admissible call can leave in the dictionary. */
  lemma AcquireKeys(l: Limits, st: State, c: Call, s: Scope)
    requires Admissible(c) && s in Step(l, st, c).events
    ensures (Grants(l, st, c) && s in c.actor.Scopes())
         || (s in st.events && (c.now >= st.nextCleanup ==> Prune(st.events[s], c.now - l.Window()) != []))
    ensures Step(l, st, c).nextCleanup == Swept(l, st, c.now).nextCleanup
  {
    hide FirstBroken, Prune, PrunedBuckets;
    var swept := Swept(l, st, c.now);
    var scopes := c.actor.Scopes();
    var touched := swept.(events := Touched(swept.events, scopes, c.now - l.Window()));
    BucketTouched(swept.events, scopes, c.now - l.Window(), s);
    BucketCharged(touched.events, scopes, Grant(c.now, c.cost), s);
  }

  lemma NextCleanupStep(l: Limits, st: State, c: Call)
    ensures Step(l, st, c).nextCleanup
         == if Admissible(c) && c.now >= st.nextCleanup then c.now + l.CleanupGap() else st.nextCleanup
  {
    hide FirstBroken, Prune, PrunedBuckets, Touched, Charged, Cleaned;
  }

  ghost predicate ReadingsFrom(calls: seq<Call>, bottom: Time) {
    forall i :: 0 <= i < |calls| && Admissible(calls[i]) ==> bottom <= calls[i].now
  }

  ghost predicate ReadingsBefore(calls: seq<Call>, limit: Time) {
    forall i :: 0 <= i < |calls| && Admissible(calls[i]) ==> calls[i].now < limit
  }

  /** The reading at which the dictionary was last swept. */
  function LastSweep(l: Limits, st: State): Time { st.nextCleanup - l.CleanupGap() }

  ghost predicate OnlyRecentScopes(l: Limits, calls: seq<Call>) {
    var st := Run(l, calls);
    forall s :: s in st.events ==>
      s == Global || s in RecentScopes(History(l, calls), LastSweep(l, st) - l.Window())
  }

  lemma RecentScopesGrow(l: Limits, calls: seq<Call>, after: Time)
    requires calls != []
    ensures var before, c := calls[..|calls| - 1], calls[|calls| - 1];
            && RecentScopes(History(l, before), after) <= RecentScopes(History(l, calls), after)
            && (Grants(l, Run(l, before), c) && c.now > after ==>
                  forall s :: s in c.actor.Scopes() ==> s == Global || s in RecentScopes(History(l, calls), after))
  {
    hide AcquireStep, Run;
    var before, c := calls[..|calls| - 1], calls[|calls| - 1];
    if Grants(l, Run(l, before), c) {
      var all := History(l, calls);
      assert all[..|all| - 1] == History(l, before);
    } else {
      assert History(l, calls) == History(l, before);
    }
  }

  /** A scope that survives a sweep has a grant younger than the window. */
  lemma SurvivorIsRecent(l: Limits, calls: seq<Call>, s: Scope, top: Time, now: Time)
    requires ReadingsAtMost(calls, top)
    requires s in Run(l, calls).events && Prune(Run(l, calls).events[s], now - l.Window()) != []
    ensures s == Global || s in RecentScopes(History(l, calls), now - l.Window())
  {
    hide AcquireStep, Run, History, ScopeGrants, Prune, RecentScopes;
    var kept := Bucket(Run(l, calls).events, s);
    var live := Prune(kept, now - l.Window());
    var all := ScopeGrants(History(l, calls), s);
    BucketIsSuffix(l, calls, s, top);
    PruneIsSuffix(kept, now - l.Window());
    assert live[0] == all[|all| - |live|];
    RecentGrantHasScope(History(l, calls), s, |all| - |live|, now - l.Window());
  }

  /** Between sweeps only scopes charged since the window before the last sweep
      are stored, and the next sweep is due after every reading so far. */
  lemma {:induction false} StoredScopesAreRecent(l: Limits, calls: seq<Call>, top: Time)
    requires l.Valid() && 0.0 <= top
    requires SkewAtMost(calls, 0.0) && ReadingsAtMost(calls, top) && ReadingsFrom(calls, 0.0)
    ensures LastSweep(l, Run(l, calls)) <= top
    ensures ReadingsBefore(calls, Run(l, calls).nextCleanup)
    ensures OnlyRecentScopes(l, calls)
  {
    hide AcquireStep, History, ScopeGrants, Prune, RecentScopes;
    if calls != [] {
      var before, c := calls[..|calls| - 1], calls[|calls| - 1];
      var st := Run(l, before);
      assert forall i :: 0 <= i < |before| ==> before[i] == calls[i];
      PrefixOfSkewed(calls, 0.0);
      NextCleanupStep(l, st, c);
      if Admissible(c) {
        StoredScopesAreRecent(l, before, c.now);
        var after := LastSweep(l, Run(l, calls)) - l.Window();
        RecentScopesGrow(l, calls, after);
        forall s | s in Run(l, calls).events
          ensures s == Global || s in RecentScopes(History(l, calls), after)
        {
          AcquireKeys(l, st, c, s);
          if s in st.events && c.now >= st.nextCleanup && Prune(st.events[s], c.now - l.Window()) != [] {
            SurvivorIsRecent(l, before, s, c.now, c.now);
          }
        }
      } else {
        StoredScopesAreRecent(l, before, top);
        OtherCallsKeepEvents(l, st, c);
        RecentScopesGrow(l, calls, LastSweep(l, st) - l.Window());
      }
    }
  }

  lemma {:induction false} ChargesAtMost(l: Limits, calls: seq<Call>, top: Time)
    requires ReadingsAtMost(calls, top)
    ensures forall c :: c in History(l, calls) ==> c.at <= top
  {
    hide AcquireStep, Run;
    if calls != [] {
      var before, c := calls[..|calls| - 1], calls[|calls| - 1];
      assert forall i :: 0 <= i < |before| ==> before[i] == calls[i];
      ChargesAtMost(l, before, top);
      if Grants(l, Run(l, before), c) {
        GrantedIsAdmissible(l, Run(l, before), c);
      }
    }
  }

  /** Main result.  With non-decreasing, non-negative readings the dictionary
      never holds more than eight scopes per allowed global event, plus one. */
  lemma StoredScopesBounded(l: Limits, calls: seq<Call>)
    requires l.Valid() && SkewAtMost(calls, 0.0) && ReadingsFrom(calls, 0.0)
    ensures |Run(l, calls).events| <= 8 * l.globalEvents + 1
  {
    hide AcquireStep, Run, History, ScopeGrants, RecentScopes, RecentCount, CountIn, CostIn;
    var st, hist := Run(l, calls), History(l, calls);
    var top := HighestReading(calls);
    StoredScopesAreRecent(l, calls, top);
    var mid := LastSweep(l, st);
    var from, to := mid - l.Window(), mid + l.Window();
    ChargesAtMost(l, calls, st.nextCleanup);
    RecentInTwoWindows(hist, from, mid, to);
    SkewedWindowBound(l, calls, 0.0, Global, Interval(from, mid, false));
    SkewedWindowBound(l, calls, 0.0, Global, Interval(mid, to, false));
    RecentScopesSize(hist, from);
    SubsetSize(st.events.Keys, RecentScopes(hist, from) + {Global});
  }

  ghost function {:induction false} HighestReading(calls: seq<Call>): (top: Time)
    ensures 0.0 <= top && ReadingsAtMost(calls, top)
  {
    if calls == [] then 0.0
    else
      var rest := HighestReading(calls[..|calls| - 1]);
      var c := calls[|calls| - 1];
      assert forall i :: 0 <= i < |calls| - 1 ==> calls[i] == calls[..|calls| - 1][i];
      if c.Acquire? && c.now > rest then c.now else rest
  }
}
