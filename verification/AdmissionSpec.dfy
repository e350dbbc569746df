/** The admission gate of the Feishu webhook, as a step function.

    One call to `acquire` is one step: everything after the lock is taken runs
    under it.  The clock reading is an argument of the call, because the source
    reads it before it takes the lock; consecutive calls may therefore carry
    readings that are out of order. */
module AdmissionSpec {
  import opened Wrappers

  /** Readings of the monotonic clock, in seconds. */
  type Time = real

  datatype Scope = Sender(id: string) | Chat(id: string) | Global

  datatype ActorIds = ActorIds(senderIds: seq<string>, chatId: string) {
    /** No two sender identifiers coincide, and at most three exist. */
    predicate Canonical() {
      |senderIds| <= 3 &&
      forall i, j :: 0 <= i < j < |senderIds| ==> senderIds[i] != senderIds[j]
    }

    function Senders(): (r: seq<Scope>)
    {
      seq(|senderIds|, i requires 0 <= i < |senderIds| => Sender(senderIds[i]))
    }

    function Scopes(): (r: seq<Scope>)
    {
      Senders() + [Chat(chatId), Global]
    }
  }

  /** The frozen actor of a signed event.  ActorIdentity proves that extraction
      only ever builds actors of this type. */
  type Actor = a: ActorIds | a.Canonical() witness ActorIds([], "")

  datatype Limits = Limits(
    windowSeconds: int,
    senderEvents: int, chatEvents: int, globalEvents: int,
    senderCost: int, chatCost: int, globalCost: int,
    maxInflight: int)
  {
    predicate Valid() {
      && windowSeconds >= 1
      && senderEvents >= 1 && chatEvents >= 1 && globalEvents >= 1
      && senderCost >= 1 && chatCost >= 1 && globalCost >= 1
      && maxInflight >= 1
    }

    function Window(): Time { windowSeconds as real }

    function CleanupGap(): Time { (if windowSeconds < 60 then windowSeconds else 60) as real }

    function EventLimit(s: Scope): int {
      match s
      case Sender(_) => senderEvents
      case Chat(_) => chatEvents
      case Global => globalEvents
    }

    function CostLimit(s: Scope): int {
      match s
      case Sender(_) => senderCost
      case Chat(_) => chatCost
      case Global => globalCost
    }
  }

  /** One entry of a scope's deque. */
  datatype Grant = Grant(at: Time, cost: nat)

  datatype Code =
    | SenderRateLimit | ChatRateLimit | GlobalRateLimit
    | SenderCostLimit | ChatCostLimit | GlobalCostLimit

  datatype Verdict =
    | Granted
    | RateLimited(code: Code)
    | CapacityExhausted
    | InvalidActor
    | InvalidCost

  function EventCode(s: Scope): Code {
    match s
    case Sender(_) => SenderRateLimit
    case Chat(_) => ChatRateLimit
    case Global => GlobalRateLimit
  }

  function CostCode(s: Scope): Code {
    match s
    case Sender(_) => SenderCostLimit
    case Chat(_) => ChatCostLimit
    case Global => GlobalCostLimit
  }

  // ---------------------------------------------------------------- deques

  /** Pop entries from the front while they have left the window. */
  function Prune(bucket: seq<Grant>, cutoff: Time): seq<Grant> {
    if bucket != [] && bucket[0].at <= cutoff then Prune(bucket[1..], cutoff) else bucket
  }

  function CostSum(bucket: seq<Grant>): nat {
    if bucket == [] then 0 else CostSum(bucket[..|bucket| - 1]) + bucket[|bucket| - 1].cost
  }

  function Bucket(events: map<Scope, seq<Grant>>, s: Scope): seq<Grant> {
    if s in events then events[s] else []
  }

  /** The periodic sweep: every deque is pruned and empty ones are dropped. */
  function Cleaned(events: map<Scope, seq<Grant>>, cutoff: Time): map<Scope, seq<Grant>> {
    map s | s in events && Prune(events[s], cutoff) != [] :: Prune(events[s], cutoff)
  }

  /** The deques of the request's scopes are pruned in place, even when the
      request is rejected afterwards. */
  function Touched(events: map<Scope, seq<Grant>>, scopes: seq<Scope>, cutoff: Time): map<Scope, seq<Grant>> {
    if scopes == [] then events
    else
      var rest := Touched(events, scopes[1..], cutoff);
      if scopes[0] in events then rest[scopes[0] := Prune(events[scopes[0]], cutoff)] else rest
  }

  function Charged(events: map<Scope, seq<Grant>>, scopes: seq<Scope>, g: Grant): map<Scope, seq<Grant>> {
    if scopes == [] then events
    else Charged(events, scopes[1..], g)[scopes[0] := Bucket(events, scopes[0]) + [g]]
  }

  function PrunedBuckets(events: map<Scope, seq<Grant>>, scopes: seq<Scope>, cutoff: Time): seq<seq<Grant>> {
    seq(|scopes|, i requires 0 <= i < |scopes| => Prune(Bucket(events, scopes[i]), cutoff))
  }

  /** The first limit, in scope order, that one more grant of `cost` would break. */
  function FirstBroken(l: Limits, scopes: seq<Scope>, buckets: seq<seq<Grant>>, cost: int): Option<Code>
    requires |scopes| == |buckets|
  {
    if scopes == [] then None
    else if |buckets[0]| + 1 > l.EventLimit(scopes[0]) then Some(EventCode(scopes[0]))
    else if CostSum(buckets[0]) + cost > l.CostLimit(scopes[0]) then Some(CostCode(scopes[0]))
    else FirstBroken(l, scopes[1..], buckets[1..], cost)
  }

  // ------------------------------------------------------------ the machine

  datatype State = State(events: map<Scope, seq<Grant>>, inflight: int, nextCleanup: Time)

  const INITIAL: State := State(map[], 0, 0.0)

  /** A call in lock order. */
  datatype Call =
    | Acquire(actor: Actor, cost: int, now: Time)
    | ReleaseSlot

  /** Calls that fail validation never read the clock or take the lock. */
  predicate Admissible(c: Call) {
    c.Acquire? && c.actor.senderIds != [] && c.actor.chatId != "" && c.cost >= 1
  }

  function Swept(l: Limits, st: State, now: Time): State {
    if now >= st.nextCleanup
    then State(Cleaned(st.events, now - l.Window()), st.inflight, now + l.CleanupGap())
    else st
  }

  function AcquireStep(l: Limits, st: State, actor: Actor, cost: int, now: Time): (State, Verdict) {
    if actor.senderIds == [] || actor.chatId == "" then (st, InvalidActor)
    else if cost < 1 then (st, InvalidCost)
    else
      var cutoff := now - l.Window();
      var swept := Swept(l, st, now);
      var scopes := actor.Scopes();
      var buckets := PrunedBuckets(swept.events, scopes, cutoff);
      var touched := swept.(events := Touched(swept.events, scopes, cutoff));
      match FirstBroken(l, scopes, buckets, cost)
      case Some(code) => (touched, RateLimited(code))
      case None =>
        if touched.inflight >= l.maxInflight then (touched, CapacityExhausted)
        else (Admitted(touched, scopes, Grant(now, cost)), Granted)
  }

  function Admitted(st: State, scopes: seq<Scope>, g: Grant): State {
    State(Charged(st.events, scopes, g), st.inflight + 1, st.nextCleanup)
  }

  /** A release with nothing in flight raises and changes nothing. */
  function Step(l: Limits, st: State, c: Call): State {
    match c
    case Acquire(actor, cost, now) => AcquireStep(l, st, actor, cost, now).0
    case ReleaseSlot => if st.inflight <= 0 then st else st.(inflight := st.inflight - 1)
  }

  function Run(l: Limits, calls: seq<Call>): State {
    if calls == [] then INITIAL
    else Step(l, Run(l, calls[..|calls| - 1]), calls[|calls| - 1])
  }

  /** Whether call `c`, made in state `st`, is granted. */
  predicate Grants(l: Limits, st: State, c: Call) {
    c.Acquire? && AcquireStep(l, st, c.actor, c.cost, c.now).1 == Granted
  }

  /** A granted call, as a full history would remember it. */
  datatype Charge = Charge(actor: Actor, cost: nat, at: Time)

  function ChargeOf(c: Call): Charge
    requires Admissible(c)
  {
    Charge(c.actor, c.cost, c.now)
  }

  /** Every grant so far, in lock order; the code keeps only the deques. */
  function History(l: Limits, calls: seq<Call>): seq<Charge> {
    if calls == [] then []
    else
      var before := calls[..|calls| - 1];
      var last := calls[|calls| - 1];
      History(l, before) + (if Grants(l, Run(l, before), last) then [ChargeOf(last)] else [])
  }

  /** The grants of a history that were charged to one scope. */
  function ScopeGrants(hist: seq<Charge>, s: Scope): seq<Grant> {
    if hist == [] then []
    else
      var last := hist[|hist| - 1];
      ScopeGrants(hist[..|hist| - 1], s) + (if s in last.actor.Scopes() then [Grant(last.at, last.cost)] else [])
  }

  /** In lock order, no earlier reading exceeds a later one by more than `skew`. */
  ghost predicate SkewAtMost(calls: seq<Call>, skew: Time) {
    forall i, j :: 0 <= i < j < |calls| && Admissible(calls[i]) && Admissible(calls[j])
      ==> calls[i].now <= calls[j].now + skew
  }

  ghost predicate ReadingsAtMost(calls: seq<Call>, top: Time) {
    forall i :: 0 <= i < |calls| && Admissible(calls[i]) ==> calls[i].now <= top
  }
}
