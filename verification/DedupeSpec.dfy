/** The event delivery table: one leased claim per event.

    Every operation of the source is one `BEGIN IMMEDIATE ... COMMIT`
    transaction, so it is one step on the table; a transaction that raises is
    rolled back and is no step at all.  An event is keyed by its identifier; the
    SHA-256 digest of the source is injective as far as the model goes. */
module DedupeSpec {

  type Token = nat

  datatype Row =
    | Leased(token: Token, updatedAt: int, expiresAt: int)
    | Completed(updatedAt: int, completedAt: int)

  type Table = map<string, Row>

  datatype Config = Config(ttlSeconds: int, maxEntries: int, leaseSeconds: int)

  datatype Outcome = Granted(token: Token) | Duplicate | StoreFull

  predicate EventIdValid(id: string) {
    1 <= |id| <= 512
  }

  // ------------------------------------------------------------ transactions

  predicate Survives(cfg: Config, row: Row, now: int) {
    match row
    case Leased(_, _, expiresAt) => expiresAt > now
    case Completed(_, completedAt) => completedAt >= now - cfg.ttlSeconds
  }

  /** The two DELETE statements at the head of `acquire`. */
  function Purged(cfg: Config, t: Table, now: int): Table {
    map h | h in t && Survives(cfg, t[h], now) :: t[h]
  }

  function CompletedKeys(t: Table): set<string> {
    set h | h in t && t[h].Completed?
  }

  function LeasedKeys(t: Table): set<string> {
    set h | h in t && t[h].Leased?
  }

  /** `victims` is a possible answer of `... WHERE state='completed' ORDER BY
      completed_at ASC LIMIT k`; ties may be broken either way. */
  ghost predicate OldestCompleted(t: Table, k: int, victims: set<string>) {
    && victims <= CompletedKeys(t)
    && |victims| == (if k < |CompletedKeys(t)| then k else |CompletedKeys(t)|)
    && forall v, s :: v in victims && s in CompletedKeys(t) - victims ==> t[v].completedAt <= t[s].completedAt
  }

  /** Whether this acquire reaches the eviction statement. */
  predicate Evicts(cfg: Config, t: Table, h: string, now: int) {
    h !in Purged(cfg, t, now) && |Purged(cfg, t, now)| >= cfg.maxEntries
  }

  function Overflow(cfg: Config, t: Table, now: int): int {
    |Purged(cfg, t, now)| - cfg.maxEntries + 1
  }

  function NewLease(cfg: Config, token: Token, now: int): Row {
    Leased(token, now, now + cfg.leaseSeconds)
  }

  /** What is left after the eviction statement, when it runs. */
  function Kept(cfg: Config, purged: Table, victims: set<string>): Table {
    if |purged| >= cfg.maxEntries then purged - victims else purged
  }

  /** `victims` is what the eviction statement selects when it runs. */
  function AcquireTxn(cfg: Config, t: Table, h: string, token: Token, now: int, victims: set<string>)
    : (Table, Outcome)
  {
    var purged := Purged(cfg, t, now);
    if h in purged then
      if purged[h].Leased? && purged[h].expiresAt <= now
      then (purged[h := NewLease(cfg, token, now)], Granted(token))
      else (purged, Duplicate)
    else
      var kept := Kept(cfg, purged, victims);
      if |kept| >= cfg.maxEntries then (t, StoreFull)
      else (kept[h := NewLease(cfg, token, now)], Granted(token))
  }

  predicate Holds(t: Table, h: string, token: Token) {
    h in t && t[h].Leased? && t[h].token == token
  }

  /** Completion asks for the token only; it does not look at the expiry. */
  function CompleteTxn(t: Table, h: string, token: Token, now: int): (Table, bool) {
    if Holds(t, h, token) then (t[h := Completed(now, now)], true) else (t, false)
  }

  function ReleaseTxn(t: Table, h: string, token: Token): (Table, bool) {
    if Holds(t, h, token) then (t - {h}, true) else (t, false)
  }

  // -------------------------------------------------------------------- runs

  datatype Action =
    | Acquire(h: string, now: int, victims: set<string>)
    | Complete(h: string, token: Token, now: int)
    | Release(h: string, token: Token)

  /** Claim tokens are drawn from a fresh supply. */
  datatype State = State(table: Table, nextToken: Token)

  ghost predicate WellFormed(st: State) {
    forall h :: h in LeasedKeys(st.table) ==> st.table[h].token < st.nextToken
  }

  ghost predicate Enabled(cfg: Config, st: State, a: Action) {
    a.Acquire? && Evicts(cfg, st.table, a.h, a.now) ==>
      OldestCompleted(Purged(cfg, st.table, a.now), Overflow(cfg, st.table, a.now), a.victims)
  }

  function Exec(cfg: Config, st: State, a: Action): State {
    match a
    case Acquire(h, now, victims) => State(AcquireTxn(cfg, st.table, h, st.nextToken, now, victims).0, st.nextToken + 1)
    case Complete(h, token, now) => st.(table := CompleteTxn(st.table, h, token, now).0)
    case Release(h, token) => st.(table := ReleaseTxn(st.table, h, token).0)
  }

  function Run(cfg: Config, s0: State, acts: seq<Action>): State {
    if acts == [] then s0
    else Exec(cfg, Run(cfg, s0, acts[..|acts| - 1]), acts[|acts| - 1])
  }

  function At(cfg: Config, s0: State, acts: seq<Action>, i: nat): State
    requires i <= |acts|
  {
    Run(cfg, s0, acts[..i])
  }

  ghost predicate ValidRun(cfg: Config, s0: State, acts: seq<Action>) {
    && WellFormed(s0)
    && forall i :: 0 <= i < |acts| ==> Enabled(cfg, At(cfg, s0, acts, i), acts[i])
  }

  predicate GrantedAt(cfg: Config, s0: State, acts: seq<Action>, i: nat, h: string)
    requires i < |acts|
  {
    && acts[i].Acquire? && acts[i].h == h
    && var st := At(cfg, s0, acts, i);
       AcquireTxn(cfg, st.table, h, st.nextToken, acts[i].now, acts[i].victims).1 == Granted(st.nextToken)
  }

  function TokenAt(cfg: Config, s0: State, acts: seq<Action>, i: nat): Token
    requires i < |acts|
  {
    At(cfg, s0, acts, i).nextToken
  }
}
