/** What one acquire may do to the table. */
module DedupeCapacity {
  import opened DedupeSpec

  /** The takeover UPDATE of the source is dead code: the same transaction has
      already purged every lease that has expired. */
  lemma TakeoverUnreachable(cfg: Config, t: Table, h: string, now: int)
    requires h in Purged(cfg, t, now)
    ensures !(Purged(cfg, t, now)[h].Leased? && Purged(cfg, t, now)[h].expiresAt <= now)
  {
  }

  lemma LeasedAndCompleted(t: Table)
    ensures |t| == |LeasedKeys(t)| + |CompletedKeys(t)|
  {
    assert t.Keys == LeasedKeys(t) + CompletedKeys(t);
    assert LeasedKeys(t) !! CompletedKeys(t);
    assert |t| == |t.Keys|;
  }

  lemma WithoutVictims(t: Table, victims: set<string>)
    requires victims <= CompletedKeys(t)
    ensures |t - victims| == |t| - |victims|
    ensures LeasedKeys(t - victims) == LeasedKeys(t)
  {
    assert (t - victims).Keys == t.Keys - victims;
    assert victims <= t.Keys;
    assert |t.Keys - victims| == |t.Keys| - |victims|;
    assert |t - victims| == |(t - victims).Keys|;
  }

  /** Exactly when the answer is a duplicate, a grant or the capacity error. */
  lemma AcquireOutcome(cfg: Config, st: State, h: string, now: int, victims: set<string>)
    requires cfg.maxEntries >= 1 && Enabled(cfg, st, Acquire(h, now, victims))
    ensures var purged := Purged(cfg, st.table, now);
            var out := AcquireTxn(cfg, st.table, h, st.nextToken, now, victims).1;
            && (out == Duplicate <==> h in purged)
            && (out == StoreFull <==> h !in purged && |LeasedKeys(purged)| >= cfg.maxEntries)
            && (out == Granted(st.nextToken) <==> h !in purged && |LeasedKeys(purged)| < cfg.maxEntries)
  {
    var purged := Purged(cfg, st.table, now);
    LeasedAndCompleted(purged);
    if h in purged {
      TakeoverUnreachable(cfg, st.table, h, now);
    } else if |purged| >= cfg.maxEntries {
      WithoutVictims(purged, victims);
    }
  }

  predicate IsGranted(cfg: Config, st: State, h: string, now: int, victims: set<string>) {
    AcquireTxn(cfg, st.table, h, st.nextToken, now, victims).1.Granted?
  }

  function After(cfg: Config, st: State, h: string, now: int, victims: set<string>): Table {
    AcquireTxn(cfg, st.table, h, st.nextToken, now, victims).0
  }

  lemma GrantShape(cfg: Config, st: State, h: string, now: int, victims: set<string>)
    requires Enabled(cfg, st, Acquire(h, now, victims)) && IsGranted(cfg, st, h, now, victims)
    ensures h !in Purged(cfg, st.table, now)
    ensures |Kept(cfg, Purged(cfg, st.table, now), victims)| < cfg.maxEntries
    ensures After(cfg, st, h, now, victims) ==
            Kept(cfg, Purged(cfg, st.table, now), victims)[h := NewLease(cfg, st.nextToken, now)]
  {
    hide Purged;
    if h in Purged(cfg, st.table, now) {
      TakeoverUnreachable(cfg, st.table, h, now);
    }
  }

  /** A grant inserts one row and leaves at most `maxEntries` of them. */
  lemma GrantWithinCapacity(cfg: Config, st: State, h: string, now: int, victims: set<string>)
    requires Enabled(cfg, st, Acquire(h, now, victims)) && IsGranted(cfg, st, h, now, victims)
    ensures var t' := After(cfg, st, h, now, victims);
            |t'| <= cfg.maxEntries && Holds(t', h, st.nextToken) && t'[h].expiresAt == now + cfg.leaseSeconds
  {
    hide AcquireTxn, Purged, Kept;
    GrantShape(cfg, st, h, now, victims);
    var kept := Kept(cfg, Purged(cfg, st.table, now), victims);
    assert After(cfg, st, h, now, victims).Keys == kept.Keys + {h};
    assert |kept| == |kept.Keys| && |After(cfg, st, h, now, victims)| == |kept.Keys + {h}|;
  }

  /** Every row that is still there is an old row or the new claim, and every
      lease that is still running keeps its row. */
  lemma GrantKeepsLiveLeases(cfg: Config, st: State, h: string, now: int, victims: set<string>, x: string)
    requires Enabled(cfg, st, Acquire(h, now, victims)) && IsGranted(cfg, st, h, now, victims)
    ensures var t' := After(cfg, st, h, now, victims);
            && (x in t' && x != h ==> x in st.table && t'[x] == st.table[x])
            && (x in LeasedKeys(st.table) && st.table[x].expiresAt > now ==>
                  x != h && x in t' && t'[x] == st.table[x])
  {
    hide AcquireTxn;
    GrantShape(cfg, st, h, now, victims);
    if x in st.table && st.table[x].Leased? && st.table[x].expiresAt > now {
      assert x in Purged(cfg, st.table, now);
      assert x !in CompletedKeys(Purged(cfg, st.table, now));
    }
  }

  /** Beyond what had expired, a grant deletes completed rows only, and none
      newer than a completed row it leaves. */
  lemma EvictedAreOldest(cfg: Config, st: State, h: string, now: int, victims: set<string>, x: string)
    requires Enabled(cfg, st, Acquire(h, now, victims)) && IsGranted(cfg, st, h, now, victims)
    requires x in st.table && Survives(cfg, st.table[x], now) && x !in After(cfg, st, h, now, victims)
    ensures st.table[x].Completed?
    ensures forall y :: y in CompletedKeys(After(cfg, st, h, now, victims)) ==>
              st.table[x].completedAt <= After(cfg, st, h, now, victims)[y].completedAt
  {
    hide AcquireTxn;
    GrantShape(cfg, st, h, now, victims);
    var purged := Purged(cfg, st.table, now);
    assert x in purged && x in victims;
    forall y | y in CompletedKeys(After(cfg, st, h, now, victims))
      ensures st.table[x].completedAt <= After(cfg, st, h, now, victims)[y].completedAt
    {
      assert y in CompletedKeys(purged) - victims;
    }
  }

  /** An acquire that raises the capacity error leaves the table exactly as it
      was: the purges of the same transaction are rolled back with it. */
  lemma StoreFullChangesNothing(cfg: Config, st: State, h: string, now: int, victims: set<string>)
    requires AcquireTxn(cfg, st.table, h, st.nextToken, now, victims).1 == StoreFull
    ensures After(cfg, st, h, now, victims) == st.table
  {
  }
}
