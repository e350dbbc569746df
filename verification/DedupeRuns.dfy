/** The claim protocol over whole runs: any sequence of transactions of any
    number of processes, in commit order, with any clock readings. */
module DedupeRuns {
  import opened DedupeSpec
  import opened DedupeCapacity

  // -------------------------------------------------------------- single steps

  lemma AtStep(cfg: Config, s0: State, acts: seq<Action>, i: nat)
    requires i < |acts|
    ensures At(cfg, s0, acts, i + 1) == Exec(cfg, At(cfg, s0, acts, i), acts[i])
  {
    assert acts[..i + 1][..|acts[..i + 1]| - 1] == acts[..i];
  }

  lemma StepKeepsWellFormed(cfg: Config, st: State, a: Action)
    requires WellFormed(st)
    ensures WellFormed(Exec(cfg, st, a)) && st.nextToken <= Exec(cfg, st, a).nextToken
  {
  }

  lemma {:induction false} RunKeepsWellFormed(cfg: Config, s0: State, acts: seq<Action>, i: nat, k: nat)
    requires WellFormed(s0) && i <= k <= |acts|
    ensures WellFormed(At(cfg, s0, acts, k))
    ensures At(cfg, s0, acts, i).nextToken <= At(cfg, s0, acts, k).nextToken
    decreases k
  {
    hide Exec, WellFormed;
    if k > 0 {
      AtStep(cfg, s0, acts, k - 1);
      RunKeepsWellFormed(cfg, s0, acts, if i < k then i else i - 1, k - 1);
      StepKeepsWellFormed(cfg, At(cfg, s0, acts, k - 1), acts[k - 1]);
    }
  }

  /** The row of one event after one step that does not grant it. */
  lemma RowStep(cfg: Config, st: State, a: Action, h: string)
    requires Enabled(cfg, st, a)
    requires a.Acquire? && a.h == h ==> !IsGranted(cfg, st, h, a.now, a.victims)
    ensures var t, t' := st.table, Exec(cfg, st, a).table;
            && (h !in t ==> h !in t')
            && (h in t ==>
                  || (h in t' && t'[h] == t[h])
                  || (h !in t' && a.Acquire? && !Survives(cfg, t[h], a.now))
                  || (h !in t' && a.Acquire? && h in a.victims && Evicts(cfg, t, a.h, a.now) && t[h].Completed?)
                  || (h !in t' && a.Release? && a.h == h && Holds(t, h, a.token))
                  || (a.Complete? && a.h == h && Holds(t, h, a.token) && h in t' && t'[h] == Completed(a.now, a.now)))
  {
    if a.Acquire? && a.h != h {
      OtherEventRow(cfg, st, a, h);
    } else if a.Acquire? {
      TakeoverGuard(cfg, st.table, h, a.now);
    }
  }

  lemma TakeoverGuard(cfg: Config, t: Table, h: string, now: int)
    ensures h in Purged(cfg, t, now) ==> Survives(cfg, t[h], now)
  {
  }

  lemma OtherEventRow(cfg: Config, st: State, a: Action, h: string)
    requires Enabled(cfg, st, a) && a.Acquire? && a.h != h
    ensures var t, t' := st.table, Exec(cfg, st, a).table;
            && (h !in t ==> h !in t')
            && (h in t ==>
                  || (h in t' && t'[h] == t[h])
                  || (h !in t' && !Survives(cfg, t[h], a.now))
                  || (h !in t' && h in a.victims && Evicts(cfg, t, a.h, a.now) && t[h].Completed?))
  {
    hide OldestCompleted;
    var purged := Purged(cfg, st.table, a.now);
    if a.h in purged {
      TakeoverUnreachable(cfg, st.table, a.h, a.now);
    } else if |purged| >= cfg.maxEntries {
      VictimsCompleted(purged, Overflow(cfg, st.table, a.now), a.victims);
    }
  }

  lemma VictimsCompleted(t: Table, k: int, victims: set<string>)
    requires OldestCompleted(t, k, victims)
    ensures forall v :: v in victims ==> v in t && t[v].Completed?
  {
  }

  // --------------------------------------------------------- life of one claim

  ghost predicate NoGrantBetween(cfg: Config, s0: State, acts: seq<Action>, i: nat, k: nat, h: string)
    requires k <= |acts|
  {
    forall x: nat :: i < x < k ==> !GrantedAt(cfg, s0, acts, x, h)
  }

  ghost predicate CompletedBy(cfg: Config, s0: State, acts: seq<Action>, i: nat, c: nat, h: string)
    requires i < c < |acts|
  {
    && acts[c].Complete? && acts[c].h == h && acts[c].token == TokenAt(cfg, s0, acts, i)
    && Holds(At(cfg, s0, acts, c).table, h, acts[c].token)
  }

  ghost predicate ReleasedBy(cfg: Config, s0: State, acts: seq<Action>, i: nat, m: nat, h: string)
    requires i < m < |acts|
  {
    && acts[m].Release? && acts[m].h == h && acts[m].token == TokenAt(cfg, s0, acts, i)
    && Holds(At(cfg, s0, acts, m).table, h, acts[m].token)
  }

  /** Some acquire read a clock at least `leaseSeconds` after the grant did. */
  ghost predicate ExpiredBy(cfg: Config, acts: seq<Action>, i: nat, m: nat)
    requires i < m < |acts| && acts[i].Acquire?
  {
    acts[m].Acquire? && acts[m].now >= acts[i].now + cfg.leaseSeconds
  }

  /** An acquire deleted the completed row: too old, or evicted for capacity. */
  ghost predicate ForgottenBy(cfg: Config, s0: State, acts: seq<Action>, c: nat, m: nat, h: string)
    requires c < m < |acts| && acts[c].Complete?
  {
    && acts[m].Acquire?
    && (acts[c].now < acts[m].now - cfg.ttlSeconds
        || (h in acts[m].victims && Evicts(cfg, At(cfg, s0, acts, m).table, acts[m].h, acts[m].now)))
  }

  /** The claim granted at step `i` is over at step `m`, for one of three reasons. */
  ghost predicate ClaimEnds(cfg: Config, s0: State, acts: seq<Action>, i: nat, m: nat, h: string)
    requires i < m < |acts| && acts[i].Acquire?
  {
    || ReleasedBy(cfg, s0, acts, i, m, h)
    || ExpiredBy(cfg, acts, i, m)
    || (exists c: nat :: i < c < m && CompletedBy(cfg, s0, acts, i, c, h) && ForgottenBy(cfg, s0, acts, c, m, h))
  }

  datatype Fate = StillHeld | Finished(c: nat) | Gone(m: nat)

  ghost predicate FateAt(cfg: Config, s0: State, acts: seq<Action>, i: nat, k: nat, h: string, f: Fate)
    requires i < k <= |acts| && acts[i].Acquire?
  {
    var t := At(cfg, s0, acts, k).table;
    match f
    case StillHeld => h in t && t[h] == NewLease(cfg, TokenAt(cfg, s0, acts, i), acts[i].now)
    case Finished(c) =>
      i < c < k && CompletedBy(cfg, s0, acts, i, c, h) && h in t && t[h] == Completed(acts[c].now, acts[c].now)
    case Gone(m) => i < m < k && ClaimEnds(cfg, s0, acts, i, m, h) && h !in t
  }

  lemma FateStarts(cfg: Config, s0: State, acts: seq<Action>, i: nat, h: string)
    requires ValidRun(cfg, s0, acts) && i < |acts| && GrantedAt(cfg, s0, acts, i, h)
    ensures FateAt(cfg, s0, acts, i, i + 1, h, StillHeld)
  {
    hide AcquireTxn, Purged, Kept, OldestCompleted;
    var st := At(cfg, s0, acts, i);
    AtStep(cfg, s0, acts, i);
    assert IsGranted(cfg, st, h, acts[i].now, acts[i].victims);
    GrantShape(cfg, st, h, acts[i].now, acts[i].victims);
    assert At(cfg, s0, acts, i + 1).table == After(cfg, st, h, acts[i].now, acts[i].victims);
  }

  lemma NotGranted(cfg: Config, s0: State, acts: seq<Action>, x: nat, h: string)
    requires x < |acts| && !GrantedAt(cfg, s0, acts, x, h)
    ensures var st := At(cfg, s0, acts, x);
            acts[x].Acquire? && acts[x].h == h ==> !IsGranted(cfg, st, h, acts[x].now, acts[x].victims)
  {
  }

  /** What has become of a claim that nobody re-granted since. */
  lemma {:induction false} FateOf(
    cfg: Config, s0: State, acts: seq<Action>, i: nat, k: nat, h: string)
    returns (f: Fate)
    requires ValidRun(cfg, s0, acts) && i < k <= |acts|
    requires GrantedAt(cfg, s0, acts, i, h) && NoGrantBetween(cfg, s0, acts, i, k, h)
    ensures FateAt(cfg, s0, acts, i, k, h, f)
    decreases k
  {
    hide AcquireTxn, Purged, OldestCompleted, Run, Evicts, GrantedAt, IsGranted, Exec;
    assert acts[i].Acquire? && acts[i].h == h by { GrantIsAcquire(cfg, s0, acts, i, h); }
    if k == i + 1 {
      FateStarts(cfg, s0, acts, i, h);
      return StillHeld;
    }
    var x := k - 1;
    var before := FateOf(cfg, s0, acts, i, x, h);
    var st := At(cfg, s0, acts, x);
    AtStep(cfg, s0, acts, x);
    NotGranted(cfg, s0, acts, x, h);
    RowStep(cfg, st, acts[x], h);
    if h !in st.table || (h in At(cfg, s0, acts, k).table && At(cfg, s0, acts, k).table[h] == st.table[h]) {
      return before;
    }
    if before.StillHeld? && acts[x].Complete? {
      return Finished(x);
    }
    if before.Finished? {
      assert CompletedBy(cfg, s0, acts, i, before.c, h) && ForgottenBy(cfg, s0, acts, before.c, x, h);
    }
    return Gone(x);
  }

  lemma GrantIsAcquire(cfg: Config, s0: State, acts: seq<Action>, i: nat, h: string)
    requires i < |acts| && GrantedAt(cfg, s0, acts, i, h)
    ensures acts[i].Acquire? && acts[i].h == h
  {
  }

  /** A grant finds no surviving row of its event. */
  lemma GrantNeedsAbsence(cfg: Config, s0: State, acts: seq<Action>, j: nat, h: string)
    requires ValidRun(cfg, s0, acts) && j < |acts| && GrantedAt(cfg, s0, acts, j, h)
    ensures var t := At(cfg, s0, acts, j).table;
            h in t ==> !Survives(cfg, t[h], acts[j].now)
  {
    hide OldestCompleted;
    GrantShape(cfg, At(cfg, s0, acts, j), h, acts[j].now, acts[j].victims);
  }

  /** Main result.  Between two successive grants of one event the first claim
      was released by its own token, or a clock moved past its lease, or it was
      completed by its own token and the completed row was later forgotten. */
  lemma GrantsAreSeparated(cfg: Config, s0: State, acts: seq<Action>, i: nat, j: nat, h: string)
    requires ValidRun(cfg, s0, acts) && i < j < |acts|
    requires GrantedAt(cfg, s0, acts, i, h) && GrantedAt(cfg, s0, acts, j, h)
    requires NoGrantBetween(cfg, s0, acts, i, j, h)
    ensures acts[i].Acquire?
    ensures exists m: nat :: i < m <= j && ClaimEnds(cfg, s0, acts, i, m, h)
  {
    hide AcquireTxn, Purged, OldestCompleted, Run, Evicts, GrantedAt;
    GrantIsAcquire(cfg, s0, acts, i, h);
    GrantIsAcquire(cfg, s0, acts, j, h);
    var f := FateOf(cfg, s0, acts, i, j, h);
    GrantNeedsAbsence(cfg, s0, acts, j, h);
    match f
    case StillHeld =>
      assert ExpiredBy(cfg, acts, i, j);
      assert ClaimEnds(cfg, s0, acts, i, j, h);
    case Finished(c) =>
      assert CompletedBy(cfg, s0, acts, i, c, h) && ForgottenBy(cfg, s0, acts, c, j, h);
      assert ClaimEnds(cfg, s0, acts, i, j, h);
    case Gone(m) =>
  }

  ghost predicate SteadyClocks(acts: seq<Action>) {
    forall x, y :: 0 <= x < y < |acts| && acts[x].Acquire? && acts[y].Acquire? ==> acts[x].now <= acts[y].now
  }

  /** With clocks that do not go back, a claim nobody released or completed keeps
      the event for at least `leaseSeconds`. */
  lemma UntouchedClaimLastsItsLease(cfg: Config, s0: State, acts: seq<Action>, i: nat, j: nat, h: string)
    requires ValidRun(cfg, s0, acts) && SteadyClocks(acts) && i < j < |acts|
    requires GrantedAt(cfg, s0, acts, i, h) && GrantedAt(cfg, s0, acts, j, h)
    requires NoGrantBetween(cfg, s0, acts, i, j, h)
    requires forall x: nat :: i < x < j ==> !CompletedBy(cfg, s0, acts, i, x, h) && !ReleasedBy(cfg, s0, acts, i, x, h)
    ensures acts[j].Acquire? && acts[i].Acquire? && acts[j].now >= acts[i].now + cfg.leaseSeconds
  {
    hide ValidRun, Run, GrantedAt, Evicts;
    GrantIsAcquire(cfg, s0, acts, i, h);
    GrantIsAcquire(cfg, s0, acts, j, h);
    GrantsAreSeparated(cfg, s0, acts, i, j, h);
    var m: nat :| i < m <= j && ClaimEnds(cfg, s0, acts, i, m, h);
  }

  /** No event is lost: unless the holder completed it, an event whose lease has
      run out is not turned away as a duplicate.  It is granted, or the store is
      full of other running leases. */
  lemma UnfinishedEventComesBack(
    cfg: Config, s0: State, acts: seq<Action>, i: nat, k: nat, h: string, now: int, victims: set<string>)
    requires cfg.maxEntries >= 1
    requires ValidRun(cfg, s0, acts) && i < k <= |acts| && GrantedAt(cfg, s0, acts, i, h)
    requires NoGrantBetween(cfg, s0, acts, i, k, h)
    requires forall c: nat :: i < c < k ==> !CompletedBy(cfg, s0, acts, i, c, h)
    requires acts[i].Acquire? && now >= acts[i].now + cfg.leaseSeconds
    requires Enabled(cfg, At(cfg, s0, acts, k), Acquire(h, now, victims))
    ensures var st := At(cfg, s0, acts, k);
            AcquireTxn(cfg, st.table, h, st.nextToken, now, victims).1 ==
            if |LeasedKeys(Purged(cfg, st.table, now))| < cfg.maxEntries then Granted(st.nextToken) else StoreFull
  {
    hide AcquireTxn, OldestCompleted, Run, Evicts, GrantedAt;
    var f := FateOf(cfg, s0, acts, i, k, h);
    AcquireOutcome(cfg, At(cfg, s0, acts, k), h, now, victims);
  }

  /** A release by the holder makes the event grantable at once. */
  lemma ReleasedEventComesBack(cfg: Config, st: State, h: string, token: Token, now: int, victims: set<string>)
    requires cfg.maxEntries >= 1 && Holds(st.table, h, token)
    requires var st' := Exec(cfg, st, Release(h, token)); Enabled(cfg, st', Acquire(h, now, victims))
    ensures var st' := Exec(cfg, st, Release(h, token));
            AcquireTxn(cfg, st'.table, h, st'.nextToken, now, victims).1 != Duplicate
  {
    AcquireOutcome(cfg, Exec(cfg, st, Release(h, token)), h, now, victims);
  }

  // -------------------------------------------------------------- stale tokens

  lemma RowTokenStep(cfg: Config, st: State, a: Action, h: string, floor: Token)
    requires Enabled(cfg, st, a) && floor < st.nextToken
    requires h in LeasedKeys(st.table) ==> st.table[h].token >= floor
    ensures h in LeasedKeys(Exec(cfg, st, a).table) ==> Exec(cfg, st, a).table[h].token >= floor
  {
    hide OldestCompleted, AcquireTxn, Purged;
    if a.Acquire? && a.h == h && IsGranted(cfg, st, h, a.now, a.victims) {
      GrantShape(cfg, st, h, a.now, a.victims);
    } else {
      RowStep(cfg, st, a, h);
    }
  }

  /** Once an event has been granted again, its row never carries an older token. */
  lemma {:induction false} TokensOnlyGrow(cfg: Config, s0: State, acts: seq<Action>, j: nat, k: nat, h: string)
    requires ValidRun(cfg, s0, acts) && j < k <= |acts| && GrantedAt(cfg, s0, acts, j, h)
    ensures var t := At(cfg, s0, acts, k).table;
            h in LeasedKeys(t) ==> t[h].token >= TokenAt(cfg, s0, acts, j)
    decreases k
  {
    hide Exec, Run, GrantedAt, WellFormed, Enabled;
    GrantIsAcquire(cfg, s0, acts, j, h);
    if k == j + 1 {
      FateStarts(cfg, s0, acts, j, h);
    } else {
      TokensOnlyGrow(cfg, s0, acts, j, k - 1, h);
      AtStep(cfg, s0, acts, k - 1);
      GrantBumps(cfg, s0, acts, j);
      RunKeepsWellFormed(cfg, s0, acts, j + 1, k - 1);
      RowTokenStep(cfg, At(cfg, s0, acts, k - 1), acts[k - 1], h, TokenAt(cfg, s0, acts, j));
    }
  }

  lemma GrantBumps(cfg: Config, s0: State, acts: seq<Action>, j: nat)
    requires j < |acts| && acts[j].Acquire?
    ensures At(cfg, s0, acts, j + 1).nextToken == TokenAt(cfg, s0, acts, j) + 1
  {
    AtStep(cfg, s0, acts, j);
  }

  /** Main result.  After a re-grant, completing or releasing with the earlier
      token changes nothing, at any later time. */
  lemma StaleTokenIsInert(cfg: Config, s0: State, acts: seq<Action>, i: nat, j: nat, k: nat, h: string, now: int)
    requires ValidRun(cfg, s0, acts) && i < j < k <= |acts|
    requires GrantedAt(cfg, s0, acts, i, h) && GrantedAt(cfg, s0, acts, j, h)
    ensures var t, stale := At(cfg, s0, acts, k).table, TokenAt(cfg, s0, acts, i);
            CompleteTxn(t, h, stale, now) == (t, false) && ReleaseTxn(t, h, stale) == (t, false)
  {
    hide Exec, Run, GrantedAt;
    TokensOnlyGrow(cfg, s0, acts, j, k, h);
    GrantIsAcquire(cfg, s0, acts, i, h);
    GrantBumps(cfg, s0, acts, i);
    RunKeepsWellFormed(cfg, s0, acts, i + 1, j);
  }
}
