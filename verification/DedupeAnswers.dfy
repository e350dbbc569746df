/** What the claim protocol answers and leaves, in terms of the rows themselves. */
module DedupeAnswers {
  import opened Wrappers
  import opened DedupeSpec
  import opened DedupeCapacity

  /** The leases that have not run out. */
  function RunningLeases(t: Table, now: int): set<string> {
    set h | h in t && t[h].Leased? && t[h].expiresAt > now
  }

  /** The completed rows that are not older than the time to live. */
  function RecentlyCompleted(cfg: Config, t: Table, now: int): set<string> {
    set h | h in t && t[h].Completed? && t[h].completedAt >= now - cfg.ttlSeconds
  }

  lemma PurgedKeys(cfg: Config, t: Table, now: int)
    ensures LeasedKeys(Purged(cfg, t, now)) == RunningLeases(t, now)
    ensures CompletedKeys(Purged(cfg, t, now)) == RecentlyCompleted(cfg, t, now)
    ensures Purged(cfg, t, now).Keys == RunningLeases(t, now) + RecentlyCompleted(cfg, t, now)
    ensures |Purged(cfg, t, now)| == |RunningLeases(t, now)| + |RecentlyCompleted(cfg, t, now)|
    ensures forall h :: h in Purged(cfg, t, now) ==> h in t && Purged(cfg, t, now)[h] == t[h]
  {
    LeasedAndCompleted(Purged(cfg, t, now));
  }

  /** Main result.  An acquire is turned away as a duplicate exactly when the event has
      a lease that is still running or a completed row within its time to live; else
      it is granted, unless running leases alone fill the store. */
  lemma AnswerIff(cfg: Config, st: State, h: string, now: int, victims: set<string>)
    requires cfg.maxEntries >= 1 && Enabled(cfg, st, Acquire(h, now, victims))
    ensures var out := AcquireTxn(cfg, st.table, h, st.nextToken, now, victims).1;
            var known := h in st.table &&
                         ((st.table[h].Leased? && st.table[h].expiresAt > now)
                          || (st.table[h].Completed? && st.table[h].completedAt >= now - cfg.ttlSeconds));
            && (out == Duplicate <==> known)
            && (out == StoreFull <==> !known && |RunningLeases(st.table, now)| >= cfg.maxEntries)
            && (out == Granted(st.nextToken) <==> !known && |RunningLeases(st.table, now)| < cfg.maxEntries)
  {
    hide AcquireTxn, Purged, RunningLeases, RecentlyCompleted;
    AcquireOutcome(cfg, st, h, now, victims);
    PurgedKeys(cfg, st.table, now);
    KnownIff(cfg, st.table, h, now);
  }

  lemma KnownIff(cfg: Config, t: Table, h: string, now: int)
    ensures h in Purged(cfg, t, now) <==>
            h in t && ((t[h].Leased? && t[h].expiresAt > now)
                       || (t[h].Completed? && t[h].completedAt >= now - cfg.ttlSeconds))
  {
  }

  /** Main result.  What an acquire that returns leaves behind: no completed row older
      than the time to live, no lease that has run out, and no row it did not find,
      except the claim it grants, which runs for `leaseSeconds`. */
  lemma AcquireLeaves(cfg: Config, st: State, h: string, now: int, victims: set<string>, x: string)
    requires cfg.maxEntries >= 1 && Enabled(cfg, st, Acquire(h, now, victims))
    ensures var (t', out) := AcquireTxn(cfg, st.table, h, st.nextToken, now, victims);
            && (out == StoreFull ==> t' == st.table)
            && (out == Granted(st.nextToken) ==>
                  h in t' && t'[h] == Leased(st.nextToken, now, now + cfg.leaseSeconds) && |t'| <= cfg.maxEntries)
            && (out != StoreFull && x in t' && !(out.Granted? && x == h) ==>
                  && x in st.table && t'[x] == st.table[x]
                  && (t'[x].Leased? ==> t'[x].expiresAt > now)
                  && (t'[x].Completed? ==> t'[x].completedAt >= now - cfg.ttlSeconds))
  {
    hide AcquireTxn;
    var out := AcquireTxn(cfg, st.table, h, st.nextToken, now, victims).1;
    AcquireOutcome(cfg, st, h, now, victims);
    if out == Granted(st.nextToken) {
      GrantShape(cfg, st, h, now, victims);
      GrantWithinCapacity(cfg, st, h, now, victims);
    } else if out == Duplicate {
      DuplicateLeaves(cfg, st, h, now, victims);
    } else {
      StoreFullChangesNothing(cfg, st, h, now, victims);
    }
  }

  lemma DuplicateLeaves(cfg: Config, st: State, h: string, now: int, victims: set<string>)
    requires AcquireTxn(cfg, st.table, h, st.nextToken, now, victims).1 == Duplicate
    ensures After(cfg, st, h, now, victims) == Purged(cfg, st.table, now)
  {
    hide Purged;
    if h !in Purged(cfg, st.table, now) {
      assert false;
    }
  }

  /** Main result.  What an acquire that returns deletes: exactly what has run out,
      and, when it inserts into a store that is still full, as many completed rows as
      it takes to leave one place, the oldest ones. */
  lemma AcquireDeletes(cfg: Config, st: State, h: string, now: int, victims: set<string>)
    requires cfg.maxEntries >= 1 && Enabled(cfg, st, Acquire(h, now, victims))
    ensures var (t', out) := AcquireTxn(cfg, st.table, h, st.nextToken, now, victims);
            var running, recent := RunningLeases(st.table, now), RecentlyCompleted(cfg, st.table, now);
            && (out == Duplicate ==> t'.Keys == running + recent)
            && (out.Granted? && |running| + |recent| < cfg.maxEntries ==> t'.Keys == running + recent + {h})
            && (out.Granted? && |running| + |recent| >= cfg.maxEntries ==>
                  && running + {h} <= t'.Keys <= running + recent + {h}
                  && |t'| == cfg.maxEntries
                  && forall x, y :: x in recent - t'.Keys && y in recent && y in t' ==>
                       st.table[x].completedAt <= st.table[y].completedAt)
  {
    hide AcquireTxn, RunningLeases, RecentlyCompleted;
    var out := AcquireTxn(cfg, st.table, h, st.nextToken, now, victims).1;
    var purged := Purged(cfg, st.table, now);
    AcquireOutcome(cfg, st, h, now, victims);
    PurgedKeys(cfg, st.table, now);
    if out == Duplicate {
      DuplicateLeaves(cfg, st, h, now, victims);
    } else if out.Granted? {
      GrantShape(cfg, st, h, now, victims);
      if |purged| >= cfg.maxEntries {
        FullStoreDeletes(cfg, st, h, now, victims);
      }
    }
  }

  lemma FullStoreDeletes(cfg: Config, st: State, h: string, now: int, victims: set<string>)
    requires cfg.maxEntries >= 1 && Enabled(cfg, st, Acquire(h, now, victims))
    requires h !in Purged(cfg, st.table, now) && |Purged(cfg, st.table, now)| >= cfg.maxEntries
    requires |LeasedKeys(Purged(cfg, st.table, now))| < cfg.maxEntries
    ensures var purged := Purged(cfg, st.table, now);
            var t' := (purged - victims)[h := NewLease(cfg, st.nextToken, now)];
            && LeasedKeys(purged) + {h} <= t'.Keys <= purged.Keys + {h}
            && |t'| == cfg.maxEntries
            && forall x, y :: x in CompletedKeys(purged) - t'.Keys && y in CompletedKeys(purged) && y in t' ==>
                 st.table[x].completedAt <= st.table[y].completedAt
  {
    var purged := Purged(cfg, st.table, now);
    LeasedAndCompleted(purged);
    WithoutVictims(purged, victims);
    var kept := purged - victims;
    assert kept[h := NewLease(cfg, st.nextToken, now)].Keys == kept.Keys + {h};
    assert |kept| == |kept.Keys| && |kept.Keys + {h}| == |kept.Keys| + 1;
    assert |kept[h := NewLease(cfg, st.nextToken, now)]| == |kept[h := NewLease(cfg, st.nextToken, now)].Keys|;
  }

  /** Completing and releasing by token, whether or not the lease has run out. */
  lemma FinishIff(t: Table, h: string, token: Token, now: int)
    ensures var held := h in t && t[h].Leased? && t[h].token == token;
            && CompleteTxn(t, h, token, now) == (if held then (t[h := Completed(now, now)], true) else (t, false))
            && ReleaseTxn(t, h, token) == (if held then (t - {h}, true) else (t, false))
  {
  }

  /** What the eviction statement may select: when the event is new and the surviving
      rows fill the store, as many completed rows as it takes to leave one place, or
      all there are, none newer than one that stays; rows of equal age in any order. */
  lemma EvictionAnswer(cfg: Config, st: State, h: string, now: int, victims: set<string>)
    ensures var running, recent := RunningLeases(st.table, now), RecentlyCompleted(cfg, st.table, now);
            var excess := |running| + |recent| - cfg.maxEntries + 1;
            Enabled(cfg, st, Acquire(h, now, victims)) <==>
            (h !in running && h !in recent && excess >= 1 ==>
               && victims <= recent
               && |victims| == (if excess <= |recent| then excess else |recent|)
               && forall v, s :: v in victims && s in recent && s !in victims ==>
                    st.table[v].completedAt <= st.table[s].completedAt)
  {
    hide RunningLeases, RecentlyCompleted, Purged;
    PurgedKeys(cfg, st.table, now);
    var purged, recent := Purged(cfg, st.table, now), RecentlyCompleted(cfg, st.table, now);
    OldestIff(purged, Overflow(cfg, st.table, now), victims);
    assert forall v :: v in recent ==> v in purged && purged[v] == st.table[v];
  }

  lemma OldestIff(t: Table, k: int, victims: set<string>)
    ensures OldestCompleted(t, k, victims) <==>
            && victims <= CompletedKeys(t)
            && |victims| == (if k <= |CompletedKeys(t)| then k else |CompletedKeys(t)|)
            && forall v, s :: v in victims && s in CompletedKeys(t) && s !in victims ==>
                 t[v].completedAt <= t[s].completedAt
  {
    if OldestCompleted(t, k, victims) {
      forall v, s | v in victims && s in CompletedKeys(t) && s !in victims
        ensures t[v].completedAt <= t[s].completedAt
      {
        assert s in CompletedKeys(t) - victims;
      }
    }
  }
}
