/** The deduplication store and its leases as the objects of the source.

    SQLite may fail in any transaction; `storeFails` says whether it does in this
    one.  Such a transaction is rolled back and the call raises. */
module DedupeStore {
  import opened DedupeSpec
  import opened DedupeCapacity

  datatype Error = EventIdInvalid | CapacityExceeded | StoreUnavailable

  datatype Result<+T> = Ok(value: T) | Raised(error: Error)

  /** Ownership token for one delivery attempt. */
  class EventLease {
    const store: PersistentEventDeduper
    const event: string
    const token: Token
    var closed: bool
    var handedOff: bool

    constructor (s: PersistentEventDeduper, h: string, t: Token)
      ensures store == s && event == h && token == t && !closed && !handedOff
    {
      store, event, token := s, h, t;
      closed, handedOff := false, false;
    }

    method MarkHandedOff()
      modifies this`handedOff
      ensures handedOff
    {
      handedOff := true;
    }

    /** A lease closes only when its transaction committed, so a failed store
        leaves it open for another attempt. */
    method Complete(now: int, storeFails: bool) returns (r: Result<bool>)
      modifies this`closed, store`table
      ensures old(closed) ==> r == Ok(false) && closed && store.table == old(store.table)
      ensures !old(closed) && storeFails ==> r == Raised(StoreUnavailable) && !closed && store.table == old(store.table)
      ensures !old(closed) && !storeFails ==>
                closed && r.Ok? && (store.table, r.value) == CompleteTxn(old(store.table), event, token, now)
    {
      if closed {
        return Ok(false);
      }
      if storeFails {
        return Raised(StoreUnavailable);
      }
      var held := store.Finish(event, token, Completed(now, now), true);
      closed := true;
      return Ok(held);
    }

    method Release(storeFails: bool) returns (r: Result<bool>)
      modifies this`closed, store`table
      ensures old(closed) ==> r == Ok(false) && closed && store.table == old(store.table)
      ensures !old(closed) && storeFails ==> r == Raised(StoreUnavailable) && !closed && store.table == old(store.table)
      ensures !old(closed) && !storeFails ==>
                closed && r.Ok? && (store.table, r.value) == ReleaseTxn(old(store.table), event, token)
    {
      if closed {
        return Ok(false);
      }
      if storeFails {
        return Raised(StoreUnavailable);
      }
      var held := store.Finish(event, token, Completed(0, 0), false);
      closed := true;
      return Ok(held);
    }

    /** Leaving the `with` block acknowledges or releases, unless a worker has
        taken the lease over. */
    method Exit(bodyRaised: bool, now: int, storeFails: bool) returns (r: Result<bool>)
      modifies this`closed, store`table
      ensures old(closed) || handedOff ==> r == Ok(false) && closed == old(closed) && store.table == old(store.table)
      ensures !old(closed) && !handedOff && storeFails ==> r.Raised? && !closed && store.table == old(store.table)
      ensures !old(closed) && !handedOff && !storeFails ==>
                closed && r.Ok? && (store.table, r.value) ==
                if bodyRaised then ReleaseTxn(old(store.table), event, token)
                else CompleteTxn(old(store.table), event, token, now)
    {
      if closed || handedOff {
        return Ok(false);
      }
      if bodyRaised {
        r := Release(storeFails);
      } else {
        r := Complete(now, storeFails);
      }
    }
  }

  class PersistentEventDeduper {
    const cfg: Config
    var table: Table
    var nextToken: Token

    ghost predicate Valid()
      reads this
    {
      cfg.maxEntries >= 1 && WellFormed(State(table, nextToken))
    }

    constructor (c: Config)
      requires c.maxEntries >= 1
      ensures Valid() && cfg == c && table == map[]
    {
      cfg := c;
      table, nextToken := map[], 0;
    }

    method PurgeExpired(rows: Table, now: int) returns (rest: Table)
      ensures rest == Purged(cfg, rows, now)
    {
      rest := rows;
      var todo := rows.Keys;
      while todo != {}
        invariant todo <= rest.Keys <= rows.Keys
        invariant forall h :: h in rest ==> rest[h] == rows[h]
        invariant forall h :: h in rows && h !in todo ==> (h in rest <==> Survives(cfg, rows[h], now))
        decreases |todo|
      {
        var h :| h in todo;
        if !Survives(cfg, rows[h], now) {
          rest := rest - {h};
        }
        todo := todo - {h};
      }
    }

    /** One completed row with the least completion time. */
    method OldestOf(rows: Table, candidates: set<string>) returns (oldest: string)
      requires candidates != {} && candidates <= CompletedKeys(rows)
      ensures oldest in candidates
      ensures forall h :: h in candidates ==> rows[oldest].completedAt <= rows[h].completedAt
    {
      oldest :| oldest in candidates;
      var todo := candidates - {oldest};
      while todo != {}
        invariant todo <= candidates && oldest in candidates
        invariant forall h :: h in candidates - todo ==> rows[oldest].completedAt <= rows[h].completedAt
        decreases |todo|
      {
        var h :| h in todo;
        if rows[h].completedAt < rows[oldest].completedAt {
          oldest := h;
        }
        todo := todo - {h};
      }
    }

    /** The rows the eviction statement selects: the `k` oldest completed ones. */
    method SelectOldest(rows: Table, k: int) returns (victims: set<string>)
      requires k >= 0
      ensures OldestCompleted(rows, k, victims)
    {
      victims := {};
      var left := CompletedKeys(rows);
      while |victims| < k && left != {}
        invariant victims !! left && victims + left == CompletedKeys(rows)
        invariant |victims| <= k && |victims| + |left| == |CompletedKeys(rows)|
        invariant forall v, s :: v in victims && s in left ==> rows[v].completedAt <= rows[s].completedAt
        decreases |left|
      {
        var oldest := OldestOf(rows, left);
        victims, left := victims + {oldest}, left - {oldest};
      }
      assert CompletedKeys(rows) - victims == left;
    }

    /** `_finish`: one conditional UPDATE or DELETE on the claimed row. */
    method Finish(h: string, token: Token, row: Row, keepRow: bool) returns (held: bool)
      requires row.Completed?
      modifies this`table
      ensures held == Holds(old(table), h, token)
      ensures table == if !held then old(table) else if keepRow then old(table)[h := row] else old(table) - {h}
    {
      held := Holds(table, h, token);
      if held {
        table := if keepRow then table[h := row] else table - {h};
      }
    }

    /** Evict the oldest completed rows when the table is full. */
    method MakeRoom(rows: Table) returns (kept: Table, victims: set<string>)
      ensures kept == Kept(cfg, rows, victims)
      ensures |rows| >= cfg.maxEntries ==> OldestCompleted(rows, |rows| - cfg.maxEntries + 1, victims)
    {
      kept, victims := rows, {};
      if |rows| >= cfg.maxEntries {
        victims := SelectOldest(rows, |rows| - cfg.maxEntries + 1);
        kept := rows - victims;
      }
    }

    /** The transaction of `acquire`. */
    method Claim(h: string, token: Token, now: int) returns (out: Outcome, ghost victims: set<string>)
      modifies this`table
      ensures (table, out) == AcquireTxn(cfg, old(table), h, token, now, victims)
      ensures Evicts(cfg, old(table), h, now) ==>
                OldestCompleted(Purged(cfg, old(table), now), Overflow(cfg, old(table), now), victims)
    {
      hide OldestCompleted, Purged, Kept;
      victims := {};
      var rows := PurgeExpired(table, now);
      if h in rows {
        TakeoverUnreachable(cfg, table, h, now);
        table := rows;
        return Duplicate, victims;
      }
      var kept, evicted := MakeRoom(rows);
      if |kept| >= cfg.maxEntries {
        return StoreFull, evicted;
      }
      table := kept[h := NewLease(cfg, token, now)];
      return Granted(token), evicted;
    }

    /** Claim an event.  A lease comes back exactly on a grant; on every raise the
        table is the one before the call. */
    method Acquire(eventId: string, now: int, storeFails: bool)
      returns (r: Result<EventLease?>, ghost victims: set<string>)
      requires Valid()
      modifies this
      ensures Valid()
      ensures r.Raised? ==> table == old(table)
      ensures r == Raised(EventIdInvalid) <==> eventId == "" || |eventId| > 512
      ensures r == Raised(StoreUnavailable) <==> eventId != "" && |eventId| <= 512 && storeFails
      ensures eventId != "" && |eventId| <= 512 ==> nextToken == old(nextToken) + 1
      ensures eventId != "" && |eventId| <= 512 && !storeFails ==>
                && Enabled(cfg, old(State(table, nextToken)), Action.Acquire(eventId, now, victims))
                && var (t', out) := AcquireTxn(cfg, old(table), eventId, old(nextToken), now, victims);
                   && table == t'
                   && (out == StoreFull <==> r == Raised(CapacityExceeded))
                   && (out == Duplicate <==> r == Ok(null))
                   && (out.Granted? <==> r.Ok? && r.value != null)
      ensures r.Ok? && r.value != null ==>
                && fresh(r.value) && r.value.store == this && r.value.event == eventId
                && r.value.token == old(nextToken) && !r.value.closed && !r.value.handedOff
    {
      hide AcquireTxn, OldestCompleted;
      victims := {};
      if !EventIdValid(eventId) {
        return Raised(EventIdInvalid), victims;
      }
      var token := nextToken;
      nextToken := nextToken + 1;
      if storeFails {
        return Raised(StoreUnavailable), victims;
      }
      var out;
      out, victims := Claim(eventId, token, now);
      ClaimKeepsWellFormed(cfg, old(State(table, nextToken)), eventId, now, victims);
      match out
      case Duplicate => r := Ok(null);
      case StoreFull => r := Raised(CapacityExceeded);
      case Granted(_) =>
        var lease := new EventLease(this, eventId, token);
        r := Ok(lease);
    }
  }

  lemma ClaimKeepsWellFormed(cfg: Config, st: State, h: string, now: int, victims: set<string>)
    requires WellFormed(st)
    ensures var (t', out) := AcquireTxn(cfg, st.table, h, st.nextToken, now, victims);
            WellFormed(State(t', st.nextToken + 1)) && (out == StoreFull ==> t' == st.table)
  {
  }
}
