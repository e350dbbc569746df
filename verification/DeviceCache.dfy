/** Device tokens and the shared cache of verification results.

    Verifications and revocations interleave: reading the clock, the cache lookup
    under its lock, the database read, the cache insert and the cache clear are
    separate steps.  A token is identified with its hash. */
module DeviceCache {

  type Time = real
  const CACHE_TTL: Time := 60.0
  const CACHE_LIMIT := 256

  datatype Row = Row(id: nat, revoked: bool)

  datatype Entry = Entry(ok: bool, at: Time)

  /** Where a verification is. */
  datatype Pc =
    | Looking            // the clock has been read, the cache not yet consulted
    | Querying           // no fresh entry: about to read the database
    | Storing(ok: bool)  // about to put the database's answer into the cache
    | Answered(ok: bool)

  datatype Verification = Verification(token: string, now: Time, pc: Pc)

  datatype Sys = Sys(
    clock: Time,
    rows: map<string, Row>,
    cache: map<string, Entry>,
    verifying: map<nat, Verification>,
    clearing: set<nat>,            // revocations that committed and have yet to clear
    revokedAt: map<string, Time>)  // when each revocation committed

  datatype Action =
    | Tick(elapsed: Time)
    | Issue(token: string, id: nat)
    | Begin(v: nat, token: string)
    | Lookup(v: nat)
    | Query(v: nat, dbFails: bool)
    | StoreResult(v: nat)
    | CommitRevoke(r: nat, id: nat)
    | ClearCache(r: nat)

  predicate Valid(rows: map<string, Row>, token: string) {
    token in rows && !rows[token].revoked
  }

  predicate Hit(cache: map<string, Entry>, token: string, now: Time) {
    token in cache && now - cache[token].at < CACHE_TTL
  }

  /** Insert a result; a cache over its limit is emptied at once. */
  function Insert(cache: map<string, Entry>, token: string, e: Entry): map<string, Entry> {
    var c := cache[token := e];
    if |c| > CACHE_LIMIT then map[] else c
  }

  /** `UPDATE device_tokens SET revoked=1 WHERE id=? AND revoked=0`. */
  function RevokedRows(rows: map<string, Row>, id: nat): map<string, Row> {
    map t | t in rows :: if rows[t].id == id then rows[t].(revoked := true) else rows[t]
  }

  predicate Enabled(s: Sys, a: Action) {
    match a
    case Tick(elapsed) => elapsed >= 0.0
    case Issue(token, id) => token !in s.rows && forall t :: t in s.rows ==> s.rows[t].id != id
    case Begin(v, _) => v !in s.verifying
    case Lookup(v) => v in s.verifying && s.verifying[v].pc.Looking?
    case Query(v, _) => v in s.verifying && s.verifying[v].pc.Querying?
    case StoreResult(v) => v in s.verifying && s.verifying[v].pc.Storing?
    case CommitRevoke(r, _) => r !in s.clearing
    case ClearCache(r) => r in s.clearing
  }

  function Moved(s: Sys, v: nat, pc: Pc): Sys
    requires v in s.verifying
  {
    s.(verifying := s.verifying[v := s.verifying[v].(pc := pc)])
  }

  function Step(s: Sys, a: Action): Sys
    requires Enabled(s, a)
  {
    match a
    case Tick(elapsed) => s.(clock := s.clock + elapsed)
    case Issue(token, id) => s.(rows := s.rows[token := Row(id, false)])
    case Begin(v, token) => s.(verifying := s.verifying[v := Verification(token, s.clock, Looking)])
    case Lookup(v) =>
      var x := s.verifying[v];
      Moved(s, v, if Hit(s.cache, x.token, x.now) then Answered(s.cache[x.token].ok) else Querying)
    case Query(v, dbFails) =>
      Moved(s, v, if dbFails then Answered(false) else Storing(Valid(s.rows, s.verifying[v].token)))
    case StoreResult(v) =>
      var x := s.verifying[v];
      Moved(s.(cache := Insert(s.cache, x.token, Entry(x.pc.ok, x.now))), v, Answered(x.pc.ok))
    case CommitRevoke(r, id) =>
      s.(rows := RevokedRows(s.rows, id),
         clearing := s.clearing + {r},
         revokedAt := s.revokedAt + (map t | t in s.rows && s.rows[t] == Row(id, false) :: s.clock))
    case ClearCache(r) => s.(cache := map[], clearing := s.clearing - {r})
  }

  function Exec(s: Sys, a: Action): Sys {
    if Enabled(s, a) then Step(s, a) else s
  }

  function Run(s0: Sys, acts: seq<Action>): Sys {
    if acts == [] then s0 else Exec(Run(s0, acts[..|acts| - 1]), acts[|acts| - 1])
  }

  predicate Initial(s: Sys) {
    s.cache == map[] && s.verifying == map[] && s.clearing == {} && s.revokedAt == map[]
  }

  // --------------------------------------------------------- bounded staleness

  /** Recorded readings never run ahead of the clock, and revocation lasts. */
  ghost predicate TimesOk(s: Sys) {
    && (forall t :: t in s.revokedAt ==> t in s.rows && s.rows[t].revoked && s.revokedAt[t] <= s.clock)
    && (forall t :: t in s.cache ==> s.cache[t].at <= s.clock)
    && (forall v :: v in s.verifying ==> s.verifying[v].now <= s.clock)
  }

  /** A positive answer that is still around goes back to a clock reading no later
      than the revocation. */
  ghost predicate PositivesOld(s: Sys) {
    && (forall t :: t in s.cache && s.cache[t].ok && t in s.revokedAt ==> s.cache[t].at <= s.revokedAt[t])
    && (forall v :: v in s.verifying && s.verifying[v].token in s.revokedAt ==> PositiveIsOld(s, s.verifying[v]))
  }

  ghost predicate Inv(s: Sys) {
    TimesOk(s) && PositivesOld(s)
  }

  predicate PositiveIsOld(s: Sys, x: Verification)
    requires x.token in s.revokedAt
  {
    && (x.pc == Storing(true) ==> x.now <= s.revokedAt[x.token])
    && (x.pc == Answered(true) ==> x.now < s.revokedAt[x.token] + CACHE_TTL)
  }

  lemma TimesStep(s: Sys, a: Action)
    requires TimesOk(s) && Enabled(s, a)
    ensures TimesOk(Step(s, a))
  {
    hide Hit, Insert;
    if a.StoreResult? {
      var x := s.verifying[a.v];
      InsertedFrom(s.cache, x.token, Entry(x.pc.ok, x.now));
    }
  }

  lemma InsertedFrom(cache: map<string, Entry>, token: string, e: Entry)
    ensures forall t :: t in Insert(cache, token, e) ==>
              Insert(cache, token, e)[t] == e || (t in cache && Insert(cache, token, e)[t] == cache[t])
  {
  }

  lemma PositivesStep(s: Sys, a: Action)
    requires Inv(s) && Enabled(s, a)
    ensures PositivesOld(Step(s, a))
  {
    var s' := Step(s, a);
    forall t | t in s'.cache && s'.cache[t].ok && t in s'.revokedAt
      ensures s'.cache[t].at <= s'.revokedAt[t]
    {
      if a.StoreResult? && s.verifying[a.v].token in s.revokedAt {
        assert PositiveIsOld(s, s.verifying[a.v]);
      }
    }
    forall v | v in s'.verifying && s'.verifying[v].token in s'.revokedAt
      ensures PositiveIsOld(s', s'.verifying[v])
    {
      if v in s.verifying && s.verifying[v].token in s.revokedAt {
        assert PositiveIsOld(s, s.verifying[v]);
      }
    }
  }

  lemma {:induction false} InvAlways(s0: Sys, acts: seq<Action>)
    requires Initial(s0)
    ensures Inv(Run(s0, acts))
  {
    hide Step, Enabled;
    if acts != [] {
      InvAlways(s0, acts[..|acts| - 1]);
      if Enabled(Run(s0, acts[..|acts| - 1]), acts[|acts| - 1]) {
        TimesStep(Run(s0, acts[..|acts| - 1]), acts[|acts| - 1]);
        PositivesStep(Run(s0, acts[..|acts| - 1]), acts[|acts| - 1]);
      }
    }
  }

  /** The steps of a verification, each with what it finds: a cache entry younger than
      sixty seconds answers; otherwise the database does, and its answer goes into the
      cache, which is emptied when it grows past 256 entries. */
  lemma VerificationSteps(s: Sys, v: nat, dbFails: bool)
    requires v in s.verifying
    ensures var x := s.verifying[v];
            x.pc.Looking? ==>
              Exec(s, Lookup(v)) ==
              s.(verifying := s.verifying[v := x.(pc :=
                   if x.token in s.cache && x.now - s.cache[x.token].at < 60.0 then Answered(s.cache[x.token].ok)
                   else Querying)])
    ensures var x := s.verifying[v];
            x.pc.Querying? ==>
              Exec(s, Query(v, dbFails)) ==
              s.(verifying := s.verifying[v := x.(pc :=
                   if dbFails then Answered(false)
                   else Storing(x.token in s.rows && !s.rows[x.token].revoked))])
    ensures var x := s.verifying[v];
            x.pc.Storing? ==>
              var grown := s.cache[x.token := Entry(x.pc.ok, x.now)];
              Exec(s, StoreResult(v)) ==
              s.(cache := if |grown| > 256 then map[] else grown,
                 verifying := s.verifying[v := x.(pc := Answered(x.pc.ok))])
  {
  }

  /** Time passes by any amount, tokens are issued for new devices, and a verification
      begins with the reading of the moment. */
  lemma OtherSteps(s: Sys, elapsed: Time, token: string, id: nat, v: nat)
    ensures elapsed >= 0.0 ==> Exec(s, Tick(elapsed)) == s.(clock := s.clock + elapsed)
    ensures token !in s.rows && (forall t :: t in s.rows ==> s.rows[t].id != id) ==>
              Exec(s, Issue(token, id)) == s.(rows := s.rows[token := Row(id, false)])
    ensures v !in s.verifying ==>
              Exec(s, Begin(v, token)) == s.(verifying := s.verifying[v := Verification(token, s.clock, Looking)])
  {
  }

  /** The steps of a revocation: the rows of the device are marked, and when that
      happened is noted for those that were not; then the cache is emptied. */
  lemma RevocationSteps(s: Sys, r: nat, id: nat, token: string)
    ensures r !in s.clearing ==>
              var s' := Exec(s, CommitRevoke(r, id));
              && s'.clearing == s.clearing + {r} && s'.cache == s.cache && s'.clock == s.clock
              && s'.verifying == s.verifying && s'.rows.Keys == s.rows.Keys
              && (token in s.rows ==> s'.rows[token] == if s.rows[token].id == id then Row(id, true) else s.rows[token])
              && (token in s.rows && s.rows[token] == Row(id, false) ==>
                    token in s'.revokedAt && s'.revokedAt[token] == s.clock)
    ensures r in s.clearing ==> Exec(s, ClearCache(r)) == s.(cache := map[], clearing := s.clearing - {r})
  {
  }

  /** Main result.  In every interleaving with a clock that does not go back, a
      verification whose clock reading is sixty seconds or more after the
      revocation committed answers no, even if a racing verification put a
      positive entry back after the cache was cleared. */
  lemma StalenessIsBounded(s0: Sys, acts: seq<Action>, v: nat)
    requires Initial(s0)
    requires var s := Run(s0, acts);
             && v in s.verifying && s.verifying[v].pc.Answered? && s.verifying[v].token in s.revokedAt
             && s.verifying[v].now >= s.revokedAt[s.verifying[v].token] + 60.0
    ensures !Run(s0, acts).verifying[v].pc.ok
  {
    InvAlways(s0, acts);
  }

  // ---------------------------------------------------- immediate revocation

  /** A verification that read the database before the revocation and has yet to
      put its answer into the cache. */
  predicate PendingPositive(s: Sys, v: nat, token: string) {
    v in s.verifying && s.verifying[v].token == token && s.verifying[v].pc == Storing(true)
  }

  ghost predicate NothingPositive(s: Sys, token: string) {
    && token in s.revokedAt && Revoked(s, token)
    && (token in s.cache ==> !s.cache[token].ok)
    && forall v :: !PendingPositive(s, v, token)
  }

  predicate Revoked(s: Sys, token: string) {
    token in s.rows && s.rows[token].revoked
  }

  lemma NothingPositiveStep(s: Sys, a: Action, token: string, v: nat)
    requires NothingPositive(s, token) && Enabled(s, a)
    ensures NothingPositive(Step(s, a), token)
    ensures v in s.verifying && s.verifying[v].token == token ==>
              v in Step(s, a).verifying && Step(s, a).verifying[v].token == token
              && (!s.verifying[v].pc.Answered? && Step(s, a).verifying[v].pc.Answered? ==>
                    !Step(s, a).verifying[v].pc.ok)
              && (s.verifying[v].pc.Answered? ==> Step(s, a).verifying[v] == s.verifying[v])
    ensures v !in s.verifying && v in Step(s, a).verifying ==> !Step(s, a).verifying[v].pc.Answered?
  {
    if a.StoreResult? {
      assert !PendingPositive(s, a.v, token);
    }
    forall x
      ensures !PendingPositive(Step(s, a), x, token)
    {
      assert !PendingPositive(s, x, token);
    }
  }

  lemma RunStep(s0: Sys, acts: seq<Action>, k: nat)
    requires k < |acts|
    ensures Run(s0, acts[..k + 1]) == Exec(Run(s0, acts[..k]), acts[k])
  {
    assert acts[..k + 1][..|acts[..k + 1]| - 1] == acts[..k];
  }

  /** Main result.  When a revocation has cleared the cache and no verification of
      that token is between its database read and its cache insert, every answer
      given from then on is no, at any clock reading. */
  lemma {:induction false} RevocationTakesEffectAtOnce(
    s0: Sys, acts: seq<Action>, i: nat, k: nat, token: string, v: nat)
    requires Initial(s0) && i <= k <= |acts|
    requires var s := Run(s0, acts[..i]);
             token in s.revokedAt && s.cache == map[] && forall x :: !PendingPositive(s, x, token)
    requires var s, s' := Run(s0, acts[..i]), Run(s0, acts[..k]);
             && v in s'.verifying && s'.verifying[v].token == token && s'.verifying[v].pc.Answered?
             && !(v in s.verifying && s.verifying[v].pc.Answered?)
    ensures NothingPositive(Run(s0, acts[..k]), token)
    ensures !Run(s0, acts[..k]).verifying[v].pc.ok
    decreases k
  {
    hide Step, Enabled, Run, PendingPositive;
    NothingPositiveFrom(s0, acts, i, k, token);
    if i < k {
      var s := Run(s0, acts[..k - 1]);
      RunStep(s0, acts, k - 1);
      NothingPositiveFrom(s0, acts, i, k - 1, token);
      if Enabled(s, acts[k - 1]) {
        NothingPositiveStep(s, acts[k - 1], token, v);
        TokenIsFixed(s, acts[k - 1], v);
        if v in s.verifying && s.verifying[v].pc.Answered? {
          RevocationTakesEffectAtOnce(s0, acts, i, k - 1, token, v);
        }
      } else {
        RevocationTakesEffectAtOnce(s0, acts, i, k - 1, token, v);
      }
    }
  }

  lemma TokenIsFixed(s: Sys, a: Action, v: nat)
    requires Enabled(s, a) && v in s.verifying
    ensures v in Step(s, a).verifying && Step(s, a).verifying[v].token == s.verifying[v].token
  {
  }

  lemma {:induction false} NothingPositiveFrom(s0: Sys, acts: seq<Action>, i: nat, k: nat, token: string)
    requires Initial(s0) && i <= k <= |acts|
    requires var s := Run(s0, acts[..i]);
             token in s.revokedAt && s.cache == map[] && forall x :: !PendingPositive(s, x, token)
    ensures NothingPositive(Run(s0, acts[..k]), token)
    decreases k
  {
    hide Step, Enabled, Run, PendingPositive;
    if i == k {
      InvAlways(s0, acts[..i]);
    } else {
      NothingPositiveFrom(s0, acts, i, k - 1, token);
      RunStep(s0, acts, k - 1);
      if Enabled(Run(s0, acts[..k - 1]), acts[k - 1]) {
        NothingPositiveStep(Run(s0, acts[..k - 1]), acts[k - 1], token, 0);
      }
    }
  }

  /** With such a verification in flight, and its clock reading not yet too old, a
      verification that starts after the clear can still be answered yes. */
  lemma InFlightVerificationDefeatsTheClear(s: Sys, token: string, racing: nat, later: nat)
    requires Inv(s) && token in s.revokedAt && s.cache == map[]
    requires PendingPositive(s, racing, token) && s.clock - s.verifying[racing].now < CACHE_TTL
    requires later !in s.verifying
    ensures var s' := Run(s, [StoreResult(racing), Begin(later, token), Lookup(later)]);
            later in s'.verifying && s'.verifying[later] == Verification(token, s.clock, Answered(true))
  {
    StoreAlone(s, token, racing);
    var s1 := Step(s, StoreResult(racing));
    var s2 := Step(s1, Begin(later, token));
    RunThree(s, StoreResult(racing), Begin(later, token), Lookup(later));
    assert s2.verifying[later] == Verification(token, s.clock, Looking) && Hit(s2.cache, token, s.clock);
  }

  // ------------------------------------- who can still be answered yes, exactly

  /** A verification with this clock reading would find a positive entry. */
  predicate FreshPositive(s: Sys, token: string, now: Time) {
    Hit(s.cache, token, now) && s.cache[token].ok
  }

  /** A positive answer on its way to the cache that a later reading still accepts. */
  predicate FreshPending(s: Sys, v: nat, token: string) {
    PendingPositive(s, v, token) && s.clock - s.verifying[v].now < CACHE_TTL
  }

  /** A verification that is about to look and finds a positive entry. */
  predicate AboutToHit(s: Sys, v: nat, token: string) {
    v in s.verifying && s.verifying[v].token == token && s.verifying[v].pc.Looking? &&
    FreshPositive(s, token, s.verifying[v].now)
  }

  predicate AnsweredYes(s: Sys, v: nat, token: string) {
    v in s.verifying && s.verifying[v].token == token && s.verifying[v].pc == Answered(true)
  }

  /** Some continuation answers yes to a verification that begins after `s`. */
  ghost predicate LaterYes(s: Sys, token: string) {
    exists acts, v :: v !in s.verifying && AnsweredYes(Run(s, acts), v, token)
  }

  /** Some continuation gives a yes that has not been given in `s`. */
  ghost predicate NewYes(s: Sys, token: string) {
    exists acts, v :: !AnsweredYes(s, v, token) && AnsweredYes(Run(s, acts), v, token)
  }

  /** The positive entry of a revoked token after a step is an entry of before, or
      was pending. */
  lemma PositiveEntryStep(s: Sys, a: Action, token: string)
    requires Enabled(s, a)
    ensures var s' := Step(s, a);
            token in s'.cache && s'.cache[token].ok ==>
              || (token in s.cache && s.cache[token] == s'.cache[token])
              || (a.StoreResult? && PendingPositive(s, a.v, token) && s'.cache[token].at == s.verifying[a.v].now)
  {
    hide Hit, Insert;
    if a.StoreResult? {
      var x := s.verifying[a.v];
      InsertedElsewhere(s.cache, x.token, Entry(x.pc.ok, x.now), token);
    }
  }

  lemma InsertedElsewhere(cache: map<string, Entry>, token: string, e: Entry, t: string)
    ensures var after := Insert(cache, token, e);
            t in after ==> if t == token then after[t] == e else t in cache && after[t] == cache[t]
  {
  }

  /** One verification across a step: a pending yes of a revoked token was pending
      before, and a yes comes from the cache or from a pending yes. */
  lemma VerificationStep(s: Sys, a: Action, token: string, v: nat)
    requires Enabled(s, a) && Revoked(s, token)
    ensures var s' := Step(s, a);
            && Revoked(s', token) && s'.clock >= s.clock
            && (v in s.verifying ==> v in s'.verifying && s'.verifying[v].now == s.verifying[v].now)
            && (v !in s.verifying && v in s'.verifying ==>
                  s'.verifying[v].now == s.clock && s'.verifying[v].pc.Looking?)
            && (PendingPositive(s', v, token) ==> PendingPositive(s, v, token))
            && (AnsweredYes(s', v, token) ==>
                  AnsweredYes(s, v, token) || PendingPositive(s, v, token) || AboutToHit(s, v, token))
            && (v in s'.verifying && s'.verifying[v].pc.Looking? && v in s.verifying ==>
                  s'.verifying[v] == s.verifying[v])
  {
    hide Hit, Insert;
    RevokedStep(s, a, token);
  }

  // Verifications that begin later.

  /** The positive results of the token are all older than `since` by the lifetime of
      an entry; verifications begun since then read the clock later, hold none of
      these results and were not told yes. */
  ghost predicate Outdated(s: Sys, token: string, since: Time, begun: set<nat>) {
    && Revoked(s, token) && s.clock >= since
    && (token in s.cache && s.cache[token].ok ==> since - s.cache[token].at >= CACHE_TTL)
    && (forall v :: PendingPositive(s, v, token) ==> v in begun && since - s.verifying[v].now >= CACHE_TTL)
    && (forall v :: v in s.verifying && v !in begun ==> LaterDenied(s, v, token, since))
  }

  predicate LaterDenied(s: Sys, v: nat, token: string, since: Time)
    requires v in s.verifying
  {
    s.verifying[v].now >= since && !AnsweredYes(s, v, token)
  }

  lemma OutdatedStep(s: Sys, a: Action, token: string, since: Time, begun: set<nat>)
    requires Outdated(s, token, since, begun) && Enabled(s, a)
    ensures Outdated(Step(s, a), token, since, begun)
  {
    hide Step, Enabled, Revoked;
    var s' := Step(s, a);
    PositiveEntryStep(s, a, token);
    VerificationStep(s, a, token, 0);
    forall v | PendingPositive(s', v, token)
      ensures v in begun && since - s'.verifying[v].now >= CACHE_TTL
    {
      VerificationStep(s, a, token, v);
    }
    forall v | v in s'.verifying && v !in begun
      ensures LaterDenied(s', v, token, since)
    {
      VerificationStep(s, a, token, v);
      assert v in s.verifying ==> LaterDenied(s, v, token, since);
    }
  }

  lemma {:induction false} OutdatedStays(s: Sys, acts: seq<Action>, token: string, since: Time, begun: set<nat>)
    requires Outdated(s, token, since, begun)
    ensures Outdated(Run(s, acts), token, since, begun)
  {
    hide Step, Enabled, Outdated;
    if acts != [] {
      OutdatedStays(s, acts[..|acts| - 1], token, since, begun);
      if Enabled(Run(s, acts[..|acts| - 1]), acts[|acts| - 1]) {
        OutdatedStep(Run(s, acts[..|acts| - 1]), acts[|acts| - 1], token, since, begun);
      }
    }
  }

  /** A fresh entry answers yes to a verification that begins now. */
  lemma FreshEntryAnswersLater(s: Sys, token: string)
    requires FreshPositive(s, token, s.clock)
    ensures LaterYes(s, token)
  {
    var v := UnusedId(s.verifying.Keys);
    var begun := Step(s, Begin(v, token));
    RunTwo(s, Begin(v, token), Lookup(v));
    assert begun.verifying[v] == Verification(token, s.clock, Looking);
    assert AnsweredYes(Run(s, [Begin(v, token), Lookup(v)]), v, token);
  }

  /** So does a fresh pending answer, once any other revocation has cleared the cache
      and its own insert has run. */
  lemma FreshPendingAnswersLater(s: Sys, token: string, racing: nat)
    requires Inv(s) && token in s.revokedAt && FreshPending(s, racing, token)
    ensures LaterYes(s, token)
  {
    hide Inv, Run, Insert, Hit;
    var r := UnusedId(s.clearing);
    var v := UnusedId(s.verifying.Keys);
    var clear, rest := [CommitRevoke(r, 0), ClearCache(r)], [StoreResult(racing), Begin(v, token), Lookup(v)];
    RunTwo(s, CommitRevoke(r, 0), ClearCache(r));
    var cleared := Run(s, clear);
    InvOnward(s, CommitRevoke(r, 0));
    InvOnward(Exec(s, CommitRevoke(r, 0)), ClearCache(r));
    InFlightVerificationDefeatsTheClear(cleared, token, racing, v);
    RunSplits(s, clear, rest);
    assert AnsweredYes(Run(s, clear + rest), v, token);
  }

  lemma InvOnward(s: Sys, a: Action)
    requires Inv(s)
    ensures Inv(Exec(s, a))
  {
    hide Inv, Step, Enabled;
    if Enabled(s, a) {
      TimesStep(s, a) by { InvParts(s); }
      PositivesStep(s, a);
      InvParts(Step(s, a));
    }
  }

  lemma InvParts(s: Sys)
    ensures Inv(s) <==> TimesOk(s) && PositivesOld(s)
  {
  }

  lemma UnusedId(ids: set<nat>) returns (id: nat)
    ensures id !in ids
  {
    id := UpperBound(ids);
  }

  lemma {:induction false} UpperBound(ids: set<nat>) returns (bound: nat)
    ensures forall x :: x in ids ==> x < bound
  {
    bound := 0;
    if ids != {} {
      var x :| x in ids;
      bound := UpperBound(ids - {x});
      assert forall y :: y in ids ==> y == x || y in ids - {x};
      bound := if bound <= x then x + 1 else bound;
    }
  }

  /** Main result.  In any reachable state, a verification of a revoked token that
      begins later can still be answered yes exactly when the cache holds a positive
      entry, or some verification is about to store one, whose clock reading is less
      than sixty seconds ago. */
  lemma LaterYesIff(s0: Sys, acts: seq<Action>, token: string)
    requires Initial(s0) && token in Run(s0, acts).revokedAt
    ensures var s := Run(s0, acts);
            LaterYes(s, token) <==>
            || (token in s.cache && s.cache[token].ok && s.clock - s.cache[token].at < 60.0)
            || exists v :: FreshPending(s, v, token)
  {
    hide Run, Inv;
    var s := Run(s0, acts);
    InvAlways(s0, acts);
    if FreshPositive(s, token, s.clock) {
      FreshEntryAnswersLater(s, token);
    } else if racing :| FreshPending(s, racing, token) {
      FreshPendingAnswersLater(s, token, racing);
    } else {
      NothingFreshIsOutdated(s, token);
      forall more, v | v !in s.verifying
        ensures !AnsweredYes(Run(s, more), v, token)
      {
        OutdatedStays(s, more, token, s.clock, s.verifying.Keys);
        assert v in Run(s, more).verifying ==> LaterDenied(Run(s, more), v, token, s.clock);
      }
    }
  }

  lemma NothingFreshIsOutdated(s: Sys, token: string)
    requires Inv(s) && token in s.revokedAt && !FreshPositive(s, token, s.clock)
    requires forall v :: !FreshPending(s, v, token)
    ensures Outdated(s, token, s.clock, s.verifying.Keys)
  {
    forall v | PendingPositive(s, v, token)
      ensures s.clock - s.verifying[v].now >= CACHE_TTL
    {
      assert !FreshPending(s, v, token);
    }
  }

  /** Main result.  Right after a clear: a verification that begins later can be
      answered yes exactly when a pending yes is less than sixty seconds old. */
  lemma LaterYesAfterClearIff(s0: Sys, acts: seq<Action>, token: string)
    requires Initial(s0) && token in Run(s0, acts).revokedAt && Run(s0, acts).cache == map[]
    ensures var s := Run(s0, acts);
            LaterYes(s, token) <==>
            exists v :: v in s.verifying && s.verifying[v].token == token && s.verifying[v].pc == Storing(true) &&
              s.clock - s.verifying[v].now < 60.0
  {
    hide Run;
    LaterYesIff(s0, acts, token);
    var s := Run(s0, acts);
    assert forall v :: FreshPending(s, v, token) <==>
             v in s.verifying && s.verifying[v].token == token && s.verifying[v].pc == Storing(true) &&
             s.clock - s.verifying[v].now < 60.0;
  }

  // Verifications that may have begun already.

  /** Nothing that has begun or may begin finds or stores anything positive. */
  ghost predicate Unanswerable(s: Sys, token: string) {
    && Revoked(s, token) && !FreshPositive(s, token, s.clock)
    && forall v :: !PendingPositive(s, v, token) && !AboutToHit(s, v, token)
  }

  lemma UnanswerableStep(s: Sys, a: Action, token: string)
    requires Unanswerable(s, token) && Enabled(s, a)
    ensures Unanswerable(Step(s, a), token)
    ensures forall v :: AnsweredYes(Step(s, a), v, token) ==> AnsweredYes(s, v, token)
  {
    hide Step, Enabled, Revoked, PendingPositive;
    var s' := Step(s, a);
    PositiveEntryStep(s, a, token);
    VerificationStep(s, a, token, 0);
    assert a.StoreResult? ==> !PendingPositive(s, a.v, token);
    forall v
      ensures !PendingPositive(s', v, token) && !AboutToHit(s', v, token)
      ensures AnsweredYes(s', v, token) ==> AnsweredYes(s, v, token)
    {
      VerificationStep(s, a, token, v);
      assert !PendingPositive(s, v, token) && !AboutToHit(s, v, token);
    }
  }

  lemma {:induction false} UnanswerableStays(s: Sys, acts: seq<Action>, token: string)
    requires Unanswerable(s, token)
    ensures Unanswerable(Run(s, acts), token)
    ensures forall v :: AnsweredYes(Run(s, acts), v, token) ==> AnsweredYes(s, v, token)
  {
    hide Step, Enabled, Unanswerable, AnsweredYes;
    if acts != [] {
      UnanswerableStays(s, acts[..|acts| - 1], token);
      if Enabled(Run(s, acts[..|acts| - 1]), acts[|acts| - 1]) {
        UnanswerableStep(Run(s, acts[..|acts| - 1]), acts[|acts| - 1], token);
      }
    }
  }

  /** Main result.  In any reachable state, some new yes can still be given for a
      revoked token exactly when a verification is about to store one, when one is
      about to look and finds a positive entry, or when one that begins now would. */
  lemma NewYesIff(s0: Sys, acts: seq<Action>, token: string)
    requires Initial(s0) && token in Run(s0, acts).revokedAt
    ensures var s := Run(s0, acts);
            NewYes(s, token) <==>
            || FreshPositive(s, token, s.clock)
            || exists v :: PendingPositive(s, v, token) || AboutToHit(s, v, token)
  {
    hide Run, Inv, PendingPositive, AboutToHit, FreshPositive;
    var s := Run(s0, acts);
    InvAlways(s0, acts);
    RevocationRecorded(s, token);
    if FreshPositive(s, token, s.clock) {
      FreshEntryAnswersLater(s, token);
      LaterYesIsNew(s, token);
    } else if v :| PendingPositive(s, v, token) || AboutToHit(s, v, token) {
      OneStepYes(s, v, token);
    } else {
      forall more, v | AnsweredYes(Run(s, more), v, token)
        ensures AnsweredYes(s, v, token)
      {
        UnanswerableStays(s, more, token);
      }
    }
  }

  lemma RevocationRecorded(s: Sys, token: string)
    requires Inv(s) && token in s.revokedAt
    ensures Revoked(s, token)
  {
  }

  lemma LaterYesIsNew(s: Sys, token: string)
    requires LaterYes(s, token)
    ensures NewYes(s, token)
  {
    var acts, v :| v !in s.verifying && AnsweredYes(Run(s, acts), v, token);
    assert !AnsweredYes(s, v, token);
  }

  /** Its own next step gives the yes. */
  lemma OneStepYes(s: Sys, v: nat, token: string)
    requires PendingPositive(s, v, token) || AboutToHit(s, v, token)
    ensures NewYes(s, token)
  {
    hide Insert;
    var a := if PendingPositive(s, v, token) then StoreResult(v) else Lookup(v);
    RunOne(s, a);
    assert !AnsweredYes(s, v, token) && AnsweredYes(Run(s, [a]), v, token);
  }

  /** Main result.  Right after a clear: every answer from then on is no, whichever
      verification it is for, exactly when no yes is pending. */
  lemma NewYesAfterClearIff(s0: Sys, acts: seq<Action>, token: string)
    requires Initial(s0) && token in Run(s0, acts).revokedAt && Run(s0, acts).cache == map[]
    ensures NewYes(Run(s0, acts), token) <==> exists v :: PendingPositive(Run(s0, acts), v, token)
  {
    hide Run;
    NewYesIff(s0, acts, token);
  }

  lemma RunOne(s: Sys, a: Action)
    ensures Run(s, [a]) == Exec(s, a)
  {
    hide Exec;
    assert [a][..0] == [];
  }

  lemma RunTwo(s: Sys, a: Action, b: Action)
    ensures Run(s, [a, b]) == Exec(Exec(s, a), b)
  {
    hide Exec;
    RunOne(s, a);
    assert [a, b][..1] == [a];
  }

  // ------------------------------------------------ a run that accepts a revoked token

  const NO_DEVICES := Sys(0.0, map[], map[], map[], {}, map[])

  /** A token is issued, a verification of it reads the database, the device is
      revoked and the cache cleared. */
  const ASKED := [Issue("t", 7), Begin(0, "t"), Lookup(0)]
  const RACE := ASKED + [Query(0, false), CommitRevoke(0, 7), ClearCache(0)]

  lemma AfterAsking()
    ensures Run(NO_DEVICES, ASKED) ==
            Sys(0.0, map["t" := Row(7, false)], map[], map[0 := Verification("t", 0.0, Querying)], {}, map[])
  {
    RunThree(NO_DEVICES, Issue("t", 7), Begin(0, "t"), Lookup(0));
  }

  lemma AfterRacing(s: Sys)
    requires s == Sys(0.0, map["t" := Row(7, false)], map[], map[0 := Verification("t", 0.0, Querying)], {}, map[])
    ensures Run(s, [Query(0, false), CommitRevoke(0, 7), ClearCache(0)]) ==
            Sys(0.0, map["t" := Row(7, true)], map[],
                map[0 := Verification("t", 0.0, Storing(true))], {}, map["t" := 0.0])
  {
    RunThree(s, Query(0, false), CommitRevoke(0, 7), ClearCache(0));
    var queried := s.(verifying := map[0 := Verification("t", 0.0, Storing(true))]);
    assert Exec(s, Query(0, false)) == queried;
    var revoked := queried.(rows := map["t" := Row(7, true)], clearing := {0}, revokedAt := map["t" := 0.0]);
    assert RevokedRows(queried.rows, 7) == revoked.rows;
    assert Exec(queried, CommitRevoke(0, 7)) == revoked;
  }

  /** Such a state is reached from the very start of the program. */
  lemma RaceIsReachable()
    ensures Initial(NO_DEVICES)
    ensures var s := Run(NO_DEVICES, RACE);
            && Inv(s) && "t" in s.revokedAt && s.cache == map[] && PendingPositive(s, 0, "t")
            && s.clock == 0.0 == s.verifying[0].now && 1 !in s.verifying && Revoked(s, "t")
  {
    hide Inv, Run;
    InvAlways(NO_DEVICES, RACE);
    AfterAsking();
    RunSplits(NO_DEVICES, ASKED, [Query(0, false), CommitRevoke(0, 7), ClearCache(0)]);
    AfterRacing(Run(NO_DEVICES, ASKED));
  }

  /** So the whole run exists: a verification that starts after the revocation has
      committed and cleared the cache is answered yes. */
  lemma RevokedTokenIsAccepted()
    ensures var s := Run(NO_DEVICES, RACE + [StoreResult(0), Begin(1, "t"), Lookup(1)]);
            Revoked(s, "t") && 1 in s.verifying && s.verifying[1] == Verification("t", 0.0, Answered(true))
  {
    hide Step, Enabled, Inv, Run, PendingPositive;
    RaceIsReachable();
    var s := Run(NO_DEVICES, RACE);
    var rest := [StoreResult(0), Begin(1, "t"), Lookup(1)];
    InFlightVerificationDefeatsTheClear(s, "t", 0, 1);
    RunSplits(NO_DEVICES, RACE, rest);
    RevokedStays(s, rest, "t");
  }

  lemma {:induction false} RunSplits(s0: Sys, before: seq<Action>, after: seq<Action>)
    ensures Run(s0, before + after) == Run(Run(s0, before), after)
  {
    if after == [] {
      assert before + after == before;
    } else {
      RunSplits(s0, before, after[..|after| - 1]);
      assert (before + after)[..|before + after| - 1] == before + after[..|after| - 1];
    }
  }

  lemma {:induction false} RevokedStays(s: Sys, acts: seq<Action>, token: string)
    requires Revoked(s, token)
    ensures Revoked(Run(s, acts), token)
  {
    hide Exec, Revoked;
    if acts != [] {
      RevokedStays(s, acts[..|acts| - 1], token);
      RevokedStep(Run(s, acts[..|acts| - 1]), acts[|acts| - 1], token);
    }
  }

  lemma RevokedStep(s: Sys, a: Action, token: string)
    requires Revoked(s, token)
    ensures Revoked(Exec(s, a), token)
  {
    hide Insert, Hit;
  }

  lemma StoreAlone(s: Sys, token: string, racing: nat)
    requires s.cache == map[] && PendingPositive(s, racing, token)
    ensures Step(s, StoreResult(racing)).cache == map[token := Entry(true, s.verifying[racing].now)]
  {
    var c := s.cache[token := Entry(true, s.verifying[racing].now)];
    assert c.Keys == {token};
    assert |c| == |c.Keys|;
  }

  lemma RunThree(s: Sys, a: Action, b: Action, c: Action)
    ensures Run(s, [a, b, c]) == Exec(Exec(Exec(s, a), b), c)
  {
    hide Exec;
    RunTwo(s, a, b);
    assert [a, b, c][..2] == [a, b];
  }

  // ------------------------------------------------------ the module as object

  /** The functions of the module as one thread sees them: nothing interleaves. */
  class DeviceTokens {
    var rows: map<string, Row>
    var cache: map<string, Entry>

    ghost predicate Consistent()
      reads this
    {
      forall t :: t in cache && cache[t].ok ==> Valid(rows, t)
    }

    constructor ()
      ensures Consistent() && rows == map[] && cache == map[]
    {
      rows, cache := map[], map[];
    }

    method IssueDeviceToken(token: string, id: nat)
      requires Consistent() && token !in rows
      modifies this`rows
      ensures Consistent() && rows == old(rows)[token := Row(id, false)]
    {
      rows := rows[token := Row(id, false)];
    }

    /** `token` is already stripped; the empty token is nobody's. */
    method VerifyDeviceToken(token: string, now: Time, dbFails: bool) returns (ok: bool)
      requires Consistent()
      modifies this`cache
      ensures Consistent()
      ensures ok ==> Valid(rows, token)
      ensures ok == if token == "" then false
                    else if token in old(cache) && now - old(cache)[token].at < 60.0 then old(cache)[token].ok
                    else !dbFails && token in rows && !rows[token].revoked
      ensures cache == if token == "" || (token in old(cache) && now - old(cache)[token].at < 60.0) || dbFails
                       then old(cache)
                       else if |old(cache)[token := Entry(ok, now)]| > 256 then map[]
                       else old(cache)[token := Entry(ok, now)]
    {
      if token == "" {
        return false;
      }
      if token in cache && now - cache[token].at < CACHE_TTL {
        return cache[token].ok;
      }
      if dbFails {
        return false;
      }
      ok := token in rows && !rows[token].revoked;
      cache := cache[token := Entry(ok, now)];
      if |cache| > CACHE_LIMIT {
        cache := map[];
      }
    }

    /** With nothing interleaved, no later call gets a yes for the device. */
    method RevokeDevice(id: nat) returns (changed: bool)
      requires Consistent()
      modifies this
      ensures Consistent() && cache == map[]
      ensures rows.Keys == old(rows).Keys
      ensures forall t :: t in rows ==>
                rows[t] == if old(rows)[t].id == id then Row(id, true) else old(rows)[t]
      ensures changed <==> exists t :: t in old(rows) && old(rows)[t] == Row(id, false)
      ensures forall t :: t in rows && rows[t].id == id ==> !Valid(rows, t)
    {
      changed := exists t :: t in rows && rows[t] == Row(id, false);
      rows := RevokedRows(rows, id);
      cache := map[];
    }
  }
}
