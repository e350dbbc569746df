/** The counters of one capture run: the asset rows of a session, what one round
    of archiving does to them, and the worker loop around it. */
module CaptureAccounting {
  import opened Wrappers

  datatype AssetStatus = Archived | Partial | NeedsUserInput | FailedFetch

  /** One row per (evidence, url) of the session; archiving deletes and inserts. */
  datatype Key = Key(evidence: string, url: string)

  type Assets = map<Key, AssetStatus>

  const MIN_ARCHIVED_WORDS := 120

  /** How the fetch of one piece of evidence goes.  The last three let an exception
      out of the fetch; a fatal one is an unavailable or overloaded parser. */
  datatype Outcome =
    | NoUrl
    | Unsafe(url: string)
    | Unreachable(url: string, needsUser: bool)
    | Fetched(docUrl: string, words: nat)
    | LateFailure(docUrl: string, words: nat, url: string)   // raised after the document was stored
    | EarlyFailure(url: string)                              // raised before anything was stored
    | Fatal

  predicate Escapes(o: Outcome) {
    o.LateFailure? || o.EarlyFailure? || o.Fatal?
  }

  datatype Fetch = Fetch(evidence: string, outcome: Outcome)

  /** A fetch that was run; `noted` says whether the pool caught its exception and
      stored a failure row for it. */
  datatype Ran = Ran(fetch: Fetch, noted: bool)

  function FetchedStatus(words: nat): AssetStatus {
    if words >= MIN_ARCHIVED_WORDS then Archived else Partial
  }

  /** The row the fetch itself stores. */
  function Kept(assets: Assets, evidence: string, o: Outcome): Assets {
    match o
    case NoUrl => assets[Key(evidence, "") := FailedFetch]
    case Unsafe(url) => assets[Key(evidence, url) := FailedFetch]
    case Unreachable(url, needsUser) => assets[Key(evidence, url) := if needsUser then NeedsUserInput else FailedFetch]
    case Fetched(docUrl, words) => assets[Key(evidence, docUrl) := FetchedStatus(words)]
    case LateFailure(docUrl, words, _) => assets[Key(evidence, docUrl) := FetchedStatus(words)]
    case EarlyFailure(_) => assets
    case Fatal => assets
  }

  /** The failure row the pool stores for an exception it caught. */
  function Noted(assets: Assets, evidence: string, o: Outcome): Assets {
    match o
    case LateFailure(_, _, url) => assets[Key(evidence, url) := FailedFetch]
    case EarlyFailure(url) => assets[Key(evidence, url) := FailedFetch]
    case _ => assets
  }

  function Stored(assets: Assets, x: Ran): Assets {
    var kept := Kept(assets, x.fetch.evidence, x.fetch.outcome);
    if x.noted then Noted(kept, x.fetch.evidence, x.fetch.outcome) else kept
  }

  function StoredAll(assets: Assets, runs: seq<Ran>): Assets {
    if runs == [] then assets else Stored(StoredAll(assets, runs[..|runs| - 1]), runs[|runs| - 1])
  }

  /** The asset a fetch reports back to the loop, if any. */
  function Reported(o: Outcome): Option<AssetStatus> {
    match o
    case NoUrl => None
    case Unsafe(_) => None
    case Unreachable(_, needsUser) => Some(if needsUser then NeedsUserInput else FailedFetch)
    case Fetched(_, words) => Some(FetchedStatus(words))
    case LateFailure(_, _, _) => Some(FailedFetch)
    case EarlyFailure(_) => Some(FailedFetch)
    case Fatal => None
  }

  /** How many fetches reported the given status: the deltas of an attempt. */
  function Delta(runs: seq<Ran>, status: AssetStatus): nat {
    if runs == [] then 0
    else Delta(runs[..|runs| - 1], status) +
         if Reported(runs[|runs| - 1].fetch.outcome) == Some(status) then 1 else 0
  }

  /** The fetch leaves an archived row: it succeeded, or it failed late and its
      failure row, if there is one, went under another url. */
  predicate LeavesArchived(x: Ran) {
    match x.fetch.outcome
    case Fetched(_, words) => words >= MIN_ARCHIVED_WORDS
    case LateFailure(docUrl, words, url) => words >= MIN_ARCHIVED_WORDS && !(x.noted && docUrl == url)
    case _ => false
  }

  /** It leaves an archived row but does not report one. */
  predicate Stray(x: Ran) {
    LeavesArchived(x) && x.fetch.outcome.LateFailure?
  }

  function Strays(runs: seq<Ran>): nat {
    if runs == [] then 0 else Strays(runs[..|runs| - 1]) + if Stray(runs[|runs| - 1]) then 1 else 0
  }

  function KeysWith(assets: Assets, status: AssetStatus): set<Key> {
    set k | k in assets && assets[k] == status
  }

  function CountOf(assets: Assets, status: AssetStatus): nat {
    |KeysWith(assets, status)|
  }

  /** Evidence with an archived or a needs-user row is not fetched again. */
  predicate Fetchable(assets: Assets, evidence: string) {
    forall k :: k in assets && k.evidence == evidence ==> assets[k] != Archived && assets[k] != NeedsUserInput
  }

  ghost predicate DistinctEvidence(fetches: seq<Fetch>) {
    forall i, j :: 0 <= i < j < |fetches| ==> fetches[i].evidence != fetches[j].evidence
  }

  ghost predicate DistinctRuns(runs: seq<Ran>) {
    forall i, j :: 0 <= i < j < |runs| ==> runs[i].fetch.evidence != runs[j].fetch.evidence
  }

  // ------------------------------------------------------ one round of fetches

  lemma PutCount(assets: Assets, k: Key, status: AssetStatus)
    ensures CountOf(assets[k := status], Archived) == CountOf(assets, Archived) +
            (if status == Archived then 1 else 0) - (if k in assets && assets[k] == Archived then 1 else 0)
  {
    var before, after := KeysWith(assets, Archived), KeysWith(assets[k := status], Archived);
    if status == Archived {
      assert after == before + {k};
    } else {
      assert after == before - {k};
    }
  }

  lemma StoreOne(assets: Assets, x: Ran)
    requires Fetchable(assets, x.fetch.evidence)
    ensures CountOf(Stored(assets, x), Archived) == CountOf(assets, Archived) + if LeavesArchived(x) then 1 else 0
  {
    hide CountOf;
    var e, o := x.fetch.evidence, x.fetch.outcome;
    match o
    case NoUrl => PutCount(assets, Key(e, ""), FailedFetch);
    case Unsafe(url) => PutCount(assets, Key(e, url), FailedFetch);
    case Unreachable(url, needsUser) =>
      PutCount(assets, Key(e, url), if needsUser then NeedsUserInput else FailedFetch);
    case Fetched(docUrl, words) => PutCount(assets, Key(e, docUrl), FetchedStatus(words));
    case LateFailure(docUrl, words, url) =>
      PutCount(assets, Key(e, docUrl), FetchedStatus(words));
      PutCount(assets[Key(e, docUrl) := FetchedStatus(words)], Key(e, url), FailedFetch);
    case EarlyFailure(url) => PutCount(assets, Key(e, url), FailedFetch);
    case Fatal =>
  }

  lemma {:induction false} OthersStayFetchable(assets: Assets, runs: seq<Ran>, evidence: string)
    requires Fetchable(assets, evidence) && forall i :: 0 <= i < |runs| ==> runs[i].fetch.evidence != evidence
    ensures Fetchable(StoredAll(assets, runs), evidence)
  {
    if runs != [] {
      OthersStayFetchable(assets, runs[..|runs| - 1], evidence);
    }
  }

  /** The archived count grows by exactly the reported archived assets plus the
      strays, whatever the order and wherever an exception stopped the round. */
  lemma {:induction false} RoundGrowth(assets: Assets, runs: seq<Ran>)
    requires DistinctRuns(runs)
    requires forall i :: 0 <= i < |runs| ==> Fetchable(assets, runs[i].fetch.evidence)
    ensures CountOf(StoredAll(assets, runs), Archived)
         == CountOf(assets, Archived) + Delta(runs, Archived) + Strays(runs)
  {
    hide CountOf, Stored, Fetchable;
    if runs != [] {
      var init, last := runs[..|runs| - 1], runs[|runs| - 1];
      RoundGrowth(assets, init);
      OthersStayFetchable(assets, init, last.fetch.evidence);
      StoreOne(StoredAll(assets, init), last);
    }
  }

  lemma {:induction false} StraysIff(runs: seq<Ran>)
    ensures Strays(runs) == 0 <==> forall i :: 0 <= i < |runs| ==> !Stray(runs[i])
    ensures Delta(runs, Archived) + Strays(runs) == 0 <==> forall i :: 0 <= i < |runs| ==> !LeavesArchived(runs[i])
  {
    if runs != [] {
      StraysIff(runs[..|runs| - 1]);
      assert runs == runs[..|runs| - 1] + [runs[|runs| - 1]];
    }
  }

  // -------------------------------------------------------- archiving a round

  /** What archiving came to: the fetches that were run and whether it raised. */
  datatype Batch = Batch(runs: seq<Ran>, raised: bool)

  function Min(a: nat, b: nat): nat { if a < b then a else b }

  /** `workers`, with the limit of two parser processes. */
  function Workers(batchSize: nat, targets: nat): nat {
    var w := Min(Min(5, batchSize), Min(targets, 2));
    if w < 1 then 1 else w
  }

  function FirstEscape(fetches: seq<Fetch>): (k: nat)
    ensures k <= |fetches|
    ensures forall i :: 0 <= i < k ==> !Escapes(fetches[i].outcome)
    ensures k < |fetches| ==> Escapes(fetches[k].outcome)
  {
    if fetches == [] || Escapes(fetches[0].outcome) then 0 else 1 + FirstEscape(fetches[1..])
  }

  /** An exception that the collecting loop cannot deal with. */
  predicate HasFatal(fetches: seq<Fetch>, noteRaises: bool) {
    exists i :: 0 <= i < |fetches| && (fetches[i].outcome.Fatal? || (noteRaises && Escapes(fetches[i].outcome)))
  }

  /** One worker: no exception is caught, and the first one ends the round. */
  function Serial(fetches: seq<Fetch>): Batch {
    var k := FirstEscape(fetches);
    var n := Min(k + 1, |fetches|);
    Batch(seq(n, i requires 0 <= i < n => Ran(fetches[i], false)), k < |fetches|)
  }

  /** A pool: every submitted fetch runs, even when a fatal one, or a failure row that
      cannot be written, makes the collecting loop raise; then only the exceptions
      collected before that were noted. */
  function Pooled(fetches: seq<Fetch>, early: string -> bool, noteRaises: bool): Batch {
    var fatal := HasFatal(fetches, noteRaises);
    Batch(seq(|fetches|, i requires 0 <= i < |fetches| => Ran(fetches[i], !fatal || early(fetches[i].evidence))), fatal)
  }

  function Archiving(fetches: seq<Fetch>, batchSize: nat, early: string -> bool, noteRaises: bool): Batch {
    if Workers(batchSize, |fetches|) <= 1 then Serial(fetches) else Pooled(fetches, early, noteRaises)
  }

  // ------------------------------------------------------------- the work loop

  datatype Attempt = Attempt(round: nat, query: string, archived: nat, partial: nat, failed: nat, needsUser: nat)

  datatype StopReason = TargetReached | MaxRoundsReached

  datatype Ending =
    | Completed(reason: StopReason)
    | Halted     // a checkpoint found the job no longer running
    | Raised     // something in a round raised: the job is failed

  /** What the outside world answers in one round: the evidence found, how each
      fetch goes, at which of the five checkpoints the job is found not to be
      running (5 for none), whether the search raises, which results the pool
      collects before it raises, whether a failure row cannot be written, whether
      recording the attempt raises, and whether writing the progress after it does. */
  datatype Round = Round(
    evidence: seq<string>, outcome: string -> Outcome, haltAt: nat,
    searchRaises: bool, early: string -> bool, noteRaises: bool, recordRaises: bool, progressRaises: bool)

  ghost predicate DistinctFinds(r: Round) {
    forall i, j :: 0 <= i < j < |r.evidence| ==> r.evidence[i] != r.evidence[j]
  }

  function ArchivedSum(attempts: seq<Attempt>): nat {
    if attempts == [] then 0 else ArchivedSum(attempts[..|attempts| - 1]) + attempts[|attempts| - 1].archived
  }

  // ------------------------------------------------- what a run comes down to

  /** The evidence found in a round that is not settled yet, in order. */
  function Targets(assets: Assets, evidence: seq<string>, outcome: string -> Outcome): seq<Fetch> {
    if evidence == [] then []
    else
      var init, e := Targets(assets, evidence[..|evidence| - 1], outcome), evidence[|evidence| - 1];
      if Fetchable(assets, e) then init + [Fetch(e, outcome(e))] else init
  }

  function AttemptOf(round: nat, query: string, f: seq<Ran>): Attempt {
    Attempt(round, query, Delta(f, Archived), Delta(f, Partial), Delta(f, FailedFetch), Delta(f, NeedsUserInput))
  }

  /** What a job asks for. */
  datatype Plan = Plan(target: nat, batchSize: nat, queries: seq<string>, rounds: seq<Round>)

  ghost predicate ValidPlan(p: Plan) {
    |p.queries| == |p.rounds| && forall k :: 0 <= k < |p.rounds| ==> DistinctFinds(p.rounds[k])
  }

  /** The asset rows, the recorded attempts, and the archived rows that no attempt
      counted, which the statements read only. */
  datatype Ledger = Ledger(assets: Assets, attempts: seq<Attempt>, uncounted: nat)

  /** The round gets as far as fetching its targets. */
  predicate Fetches(assets: Assets, r: Round, target: nat) {
    r.haltAt >= 4 && CountOf(assets, Archived) < target && !r.searchRaises
  }

  function BatchOf(assets: Assets, r: Round, batchSize: nat): Batch {
    Archiving(Targets(assets, r.evidence, r.outcome), batchSize, r.early, r.noteRaises)
  }

  /** One round: `None` goes on to the next. */
  function RoundOf(l: Ledger, round: nat, query: string, r: Round, target: nat, batchSize: nat)
    : (Ledger, Option<Ending>)
  {
    if r.haltAt == 0 then (l, Some(Halted))
    else if CountOf(l.assets, Archived) >= target then (l, Some(Completed(TargetReached)))
    else if r.haltAt == 1 then (l, Some(Halted))
    else if r.searchRaises then (l, Some(Raised))
    else if r.haltAt == 2 || r.haltAt == 3 then (l, Some(Halted))
    else
      var b := BatchOf(l.assets, r, batchSize);
      if b.raised || r.recordRaises then (AfterRaise(l, b.runs), Some(Raised))
      else
        var after := AfterRecord(l, b.runs, AttemptOf(round, query, b.runs));
        if r.progressRaises then (after, Some(Raised))
        else if r.haltAt == 4 then (after, Some(Halted))
        else if CountOf(after.assets, Archived) >= target then (after, Some(Completed(TargetReached)))
        else (after, None)
  }

  /** No attempt is recorded, and no row that was stored is taken back. */
  function AfterRaise(l: Ledger, runs: seq<Ran>): Ledger {
    Ledger(StoredAll(l.assets, runs), l.attempts, l.uncounted + Delta(runs, Archived) + Strays(runs))
  }

  function AfterRecord(l: Ledger, runs: seq<Ran>, a: Attempt): Ledger {
    Ledger(StoredAll(l.assets, runs), l.attempts + [a], l.uncounted + Strays(runs))
  }

  /** The rounds from number `i` on. */
  function RunFrom(l: Ledger, i: nat, n: nat, p: Plan): (Ledger, Ending)
    requires i <= n <= |p.queries| == |p.rounds|
    decreases n - i
  {
    if i == n then (l, Completed(MaxRoundsReached))
    else
      var (l', stop) := RoundOf(l, i + 1, p.queries[i], p.rounds[i], p.target, p.batchSize);
      if stop.Some? then (l', stop.value) else RunFrom(l', i + 1, n, p)
  }

  /** The ledger at the start of round `k`, when the run gets that far. */
  function AtRound(l: Ledger, i: nat, k: nat, p: Plan): Option<Ledger>
    requires i <= k < |p.queries| == |p.rounds|
    decreases k - i
  {
    if i == k then Some(l)
    else
      var (l', stop) := RoundOf(l, i + 1, p.queries[i], p.rounds[i], p.target, p.batchSize);
      if stop.Some? then None else AtRound(l', i + 1, k, p)
  }

  lemma {:induction false} TargetsAreFetchable(assets: Assets, evidence: seq<string>, outcome: string -> Outcome)
    requires forall i, j :: 0 <= i < j < |evidence| ==> evidence[i] != evidence[j]
    ensures var f := Targets(assets, evidence, outcome);
            && DistinctEvidence(f)
            && (forall e :: Fetch(e, outcome(e)) in f <==> e in evidence && Fetchable(assets, e))
            && (forall x :: x in f ==>
                  x.evidence in evidence && x.outcome == outcome(x.evidence) && Fetchable(assets, x.evidence))
  {
    hide Fetchable;
    if evidence != [] {
      TargetsAreFetchable(assets, evidence[..|evidence| - 1], outcome);
      var init := Targets(assets, evidence[..|evidence| - 1], outcome);
      var last := evidence[|evidence| - 1];
      assert evidence == evidence[..|evidence| - 1] + [last];
      forall k | 0 <= k < |init|
        ensures init[k].evidence != last
      {
        assert init[k] in init;
      }
    }
  }

  /** The archived count against the deltas and the uncounted rows of a ledger. */
  predicate Balanced(l: Ledger, initial: int) {
    CountOf(l.assets, Archived) == initial + ArchivedSum(l.attempts) + l.uncounted
  }

  /** The fetches that were run are targets of the round, each at most once. */
  lemma RunsAreTargets(assets: Assets, r: Round, batchSize: nat)
    requires DistinctFinds(r)
    ensures var runs := BatchOf(assets, r, batchSize).runs;
            && DistinctRuns(runs)
            && forall i :: 0 <= i < |runs| ==>
                 && Fetchable(assets, runs[i].fetch.evidence) && runs[i].fetch.evidence in r.evidence
                 && runs[i].fetch.outcome == r.outcome(runs[i].fetch.evidence)
  {
    hide Fetchable, Targets;
    var f := Targets(assets, r.evidence, r.outcome);
    TargetsAreFetchable(assets, r.evidence, r.outcome);
    var runs := BatchOf(assets, r, batchSize).runs;
    forall i | 0 <= i < |runs|
      ensures runs[i].fetch == f[i] && runs[i].fetch in f
    {
    }
  }

  /** What the round's rows and deltas amount to. */
  lemma BatchGrowth(assets: Assets, r: Round, batchSize: nat)
    requires DistinctFinds(r)
    ensures var runs := BatchOf(assets, r, batchSize).runs;
            var growth := Delta(runs, Archived) + Strays(runs);
            CountOf(StoredAll(assets, runs), Archived) == CountOf(assets, Archived) + growth
  {
    hide Fetchable, BatchOf, CountOf, StoredAll, Delta, Strays;
    RunsAreTargets(assets, r, batchSize);
    RoundGrowth(assets, BatchOf(assets, r, batchSize).runs);
  }

  /** Any round, raising or not, keeps the balance, and the count never falls. */
  lemma RoundKeepsBalance(l: Ledger, round: nat, query: string, r: Round, target: nat, batchSize: nat, initial: int)
    requires DistinctFinds(r)
    ensures var (l', stop) := RoundOf(l, round, query, r, target, batchSize);
            && CountOf(l'.assets, Archived) >= CountOf(l.assets, Archived)
            && (Balanced(l, initial) ==> Balanced(l', initial))
            && |l.attempts| <= |l'.attempts| <= |l.attempts| + 1
            && (stop.None? ==> CountOf(l'.assets, Archived) < target)
            && (stop == Some(Completed(TargetReached)) ==> CountOf(l'.assets, Archived) >= target)
            && stop != Some(Completed(MaxRoundsReached))
  {
    hide CountOf, StoredAll, Strays, Delta, BatchOf;
    BatchGrowth(l.assets, r, batchSize);
    var attempts := l.attempts + [AttemptOf(round, query, BatchOf(l.assets, r, batchSize).runs)];
    assert attempts[..|attempts| - 1] == l.attempts;
  }

  /** Main result.  Over a run with any ending the archived count never falls, and
      its growth is the sum of the recorded deltas plus the rows no attempt counted;
      at most `n` attempts are recorded; and the reason is `target_reached` exactly
      when the count has reached the target and there was a round to run. */
  lemma {:induction false} RunBalances(l: Ledger, i: nat, n: nat, p: Plan, initial: int)
    requires i <= n <= |p.queries| && ValidPlan(p)
    requires Balanced(l, initial) && (i > 0 ==> CountOf(l.assets, Archived) < p.target)
    ensures var (l', ending) := RunFrom(l, i, n, p);
            && CountOf(l'.assets, Archived) >= CountOf(l.assets, Archived)
            && Balanced(l', initial)
            && |l'.attempts| <= |l.attempts| + n - i
            && (ending.Completed? ==>
                  (ending.reason.TargetReached? <==> CountOf(l'.assets, Archived) >= p.target && n > 0))
    decreases n - i
  {
    hide CountOf, RoundOf, Balanced;
    if i < n {
      RoundKeepsBalance(l, i + 1, p.queries[i], p.rounds[i], p.target, p.batchSize, initial);
      var (l', stop) := RoundOf(l, i + 1, p.queries[i], p.rounds[i], p.target, p.batchSize);
      if stop.None? {
        RunBalances(l', i + 1, n, p, initial);
      }
    }
  }

  // -------------------------------------------- when the deltas are the growth

  /** With these rows stored the round archives a document that its attempt does
      not count: a fetch it runs leaves an archived row, and either something in
      the round raises before the attempt is recorded or the fetch failed late. */
  predicate RoundLoses(assets: Assets, r: Round, target: nat, batchSize: nat) {
    && Fetches(assets, r, target)
    && var b := BatchOf(assets, r, batchSize);
       exists i :: 0 <= i < |b.runs| && LeavesArchived(b.runs[i]) && (b.raised || r.recordRaises || Stray(b.runs[i]))
  }

  lemma RoundLosesIff(l: Ledger, round: nat, query: string, r: Round, target: nat, batchSize: nat)
    ensures var l' := RoundOf(l, round, query, r, target, batchSize).0;
            l'.uncounted >= l.uncounted && (l'.uncounted > l.uncounted <==> RoundLoses(l.assets, r, target, batchSize))
  {
    hide CountOf, BatchOf, StoredAll, Strays, Delta, LeavesArchived;
    StraysIff(BatchOf(l.assets, r, batchSize).runs);
  }

  lemma {:induction false} RunLosesIff(l: Ledger, i: nat, n: nat, p: Plan)
    requires i <= n <= |p.queries| == |p.rounds|
    ensures var l' := RunFrom(l, i, n, p).0;
            && l'.uncounted >= l.uncounted
            && (l'.uncounted == l.uncounted <==>
                forall k :: i <= k < n ==> !LosesAt(l, i, k, p))
    decreases n - i
  {
    hide RoundOf, RoundLoses, LosesAt;
    if i < n {
      RoundLosesIff(l, i + 1, p.queries[i], p.rounds[i], p.target, p.batchSize);
      var (l', stop) := RoundOf(l, i + 1, p.queries[i], p.rounds[i], p.target, p.batchSize);
      forall k | i <= k < n
        ensures LosesAt(l, i, k, p) == if k == i then RoundLoses(l.assets, p.rounds[i], p.target, p.batchSize)
                                       else stop.None? && LosesAt(l', i + 1, k, p)
      {
        LosesAtStep(l, i, k, p);
      }
      if stop.None? {
        RunLosesIff(l', i + 1, n, p);
      }
      if forall k :: i <= k < n ==> !LosesAt(l, i, k, p) {
        assert !LosesAt(l, i, i, p);
        var next := i + 1;
        forall k | next <= k < n && stop.None?
          ensures !LosesAt(l', next, k, p)
        {
          assert !LosesAt(l, i, k, p);
        }
      }
    }
  }

  lemma LosesAtStep(l: Ledger, i: nat, k: nat, p: Plan)
    requires i <= k < |p.queries| == |p.rounds|
    ensures var (l', stop) := RoundOf(l, i + 1, p.queries[i], p.rounds[i], p.target, p.batchSize);
            LosesAt(l, i, k, p) == if k == i then RoundLoses(l.assets, p.rounds[i], p.target, p.batchSize)
                                   else stop.None? && LosesAt(l', i + 1, k, p)
  {
    hide RoundOf, RoundLoses;
    var (l', stop) := RoundOf(l, i + 1, p.queries[i], p.rounds[i], p.target, p.batchSize);
    assert AtRound(l, i, k, p) == if i == k then Some(l) else if stop.Some? then None else AtRound(l', i + 1, k, p);
  }

  /** Round `k` is run and loses a row. */
  predicate LosesAt(l: Ledger, i: nat, k: nat, p: Plan)
    requires i <= k < |p.queries| == |p.rounds|
  {
    var at := AtRound(l, i, k, p);
    at.Some? && RoundLoses(at.value.assets, p.rounds[k], p.target, p.batchSize)
  }

  /** Main result.  Whatever the ending, the recorded deltas add up to the growth of
      the archived count exactly when no round that is run loses a row: none fetches
      a target that fails late and leaves its archived row, and none raises before
      recording its attempt after a fetch left an archived row. */
  lemma DeltasAddUpIff(assets: Assets, n: nat, p: Plan)
    requires n <= |p.queries| && ValidPlan(p)
    ensures var start := Ledger(assets, [], 0);
            var l' := RunFrom(start, 0, n, p).0;
            ArchivedSum(l'.attempts) == CountOf(l'.assets, Archived) - CountOf(assets, Archived) <==>
            forall k :: 0 <= k < n ==> !LosesAt(start, 0, k, p)
  {
    hide CountOf, RunFrom, LosesAt;
    RunBalances(Ledger(assets, [], 0), 0, n, p, CountOf(assets, Archived));
    RunLosesIff(Ledger(assets, [], 0), 0, n, p);
  }

  /** Whatever is stored when it runs, this round loses nothing: no fetch of it can
      let an exception out and the attempt is recorded, or nothing is archived. */
  ghost predicate Harmless(r: Round) {
    || (!r.recordRaises && forall e :: e in r.evidence ==> !Escapes(r.outcome(e)))
    || (forall e, noted :: e in r.evidence ==> !LeavesArchived(Ran(Fetch(e, r.outcome(e)), noted)))
  }

  lemma HarmlessLosesNothing(assets: Assets, r: Round, target: nat, batchSize: nat)
    requires DistinctFinds(r) && Harmless(r)
    ensures !RoundLoses(assets, r, target, batchSize)
  {
    hide CountOf, Fetchable, Targets, LeavesArchived;
    RunsAreTargets(assets, r, batchSize);
    var b := BatchOf(assets, r, batchSize);
    TargetsAreFetchable(assets, r.evidence, r.outcome);
    var f := Targets(assets, r.evidence, r.outcome);
    assert forall i :: 0 <= i < |f| ==> f[i] in f;
    forall i | 0 <= i < |b.runs| && LeavesArchived(b.runs[i])
      ensures !b.raised && !r.recordRaises && !Stray(b.runs[i])
    {
      var e := b.runs[i].fetch.evidence;
      assert b.runs[i] == Ran(Fetch(e, r.outcome(e)), b.runs[i].noted);
    }
  }

  /** The form a caller can check on the answers alone, before any round is run. */
  lemma HarmlessDeltasAddUp(assets: Assets, n: nat, p: Plan)
    requires n <= |p.queries| && ValidPlan(p)
    requires forall k :: 0 <= k < n ==> Harmless(p.rounds[k])
    ensures var l' := RunFrom(Ledger(assets, [], 0), 0, n, p).0;
            ArchivedSum(l'.attempts) == CountOf(l'.assets, Archived) - CountOf(assets, Archived)
  {
    hide CountOf, RunFrom, RoundLoses, AtRound, Harmless;
    forall k | 0 <= k < n
      ensures !LosesAt(Ledger(assets, [], 0), 0, k, p)
    {
      var at := AtRound(Ledger(assets, [], 0), 0, k, p);
      if at.Some? {
        HarmlessLosesNothing(at.value.assets, p.rounds[k], p.target, p.batchSize);
      }
    }
    DeltasAddUpIff(assets, n, p);
  }

  // ------------------------------------------------------ what is fetched again

  /** Main result.  Evidence found in a round is fetched exactly when none of its rows
      is archived and none needs the user. */
  lemma TargetIff(assets: Assets, r: Round, e: string)
    requires DistinctFinds(r)
    ensures (exists i :: 0 <= i < |Targets(assets, r.evidence, r.outcome)| &&
               Targets(assets, r.evidence, r.outcome)[i].evidence == e) <==>
            e in r.evidence &&
            forall url :: Key(e, url) in assets ==>
              assets[Key(e, url)] != Archived && assets[Key(e, url)] != NeedsUserInput
  {
    hide Fetchable, Targets;
    var f := Targets(assets, r.evidence, r.outcome);
    TargetsAreFetchable(assets, r.evidence, r.outcome);
    FetchableIff(assets, e);
    if i :| 0 <= i < |f| && f[i].evidence == e {
      assert f[i] in f;
    }
    if e in r.evidence && Fetchable(assets, e) {
      assert Fetch(e, r.outcome(e)) in f;
    }
  }

  lemma FetchableIff(assets: Assets, e: string)
    ensures Fetchable(assets, e) <==>
            forall url :: Key(e, url) in assets ==>
              assets[Key(e, url)] != Archived && assets[Key(e, url)] != NeedsUserInput
  {
    if forall url :: Key(e, url) in assets ==>
         assets[Key(e, url)] != Archived && assets[Key(e, url)] != NeedsUserInput {
      forall k | k in assets && k.evidence == e
        ensures assets[k] != Archived && assets[k] != NeedsUserInput
      {
        assert k == Key(e, k.url);
      }
    }
  }

  lemma {:induction false} OtherRowsStay(assets: Assets, runs: seq<Ran>, k: Key)
    requires k in assets && forall i :: 0 <= i < |runs| ==> runs[i].fetch.evidence != k.evidence
    ensures k in StoredAll(assets, runs) && StoredAll(assets, runs)[k] == assets[k]
  {
    if runs != [] {
      OtherRowsStay(assets, runs[..|runs| - 1], k);
    }
  }

  /** A row that is archived or waits for the user is left alone by every round. */
  lemma SettledRowStays(l: Ledger, round: nat, query: string, r: Round, target: nat, batchSize: nat, k: Key)
    requires DistinctFinds(r) && k in l.assets && (l.assets[k] == Archived || l.assets[k] == NeedsUserInput)
    ensures var l' := RoundOf(l, round, query, r, target, batchSize).0;
            k in l'.assets && l'.assets[k] == l.assets[k]
  {
    hide CountOf, StoredAll, Strays, Delta, BatchOf, Fetchable;
    RunsAreTargets(l.assets, r, batchSize);
    var runs := BatchOf(l.assets, r, batchSize).runs;
    forall i | 0 <= i < |runs|
      ensures runs[i].fetch.evidence != k.evidence
    {
      FetchableIff(l.assets, runs[i].fetch.evidence);
      assert k == Key(k.evidence, k.url);
    }
    OtherRowsStay(l.assets, runs, k);
  }

  /** Main result.  So it is by every run: what was archived stays archived, and a page
      that needs the user is not fetched again. */
  lemma {:induction false} SettledRowsStay(l: Ledger, i: nat, n: nat, p: Plan, k: Key)
    requires i <= n <= |p.queries| && ValidPlan(p)
    requires k in l.assets && (l.assets[k] == Archived || l.assets[k] == NeedsUserInput)
    ensures var l' := RunFrom(l, i, n, p).0;
            k in l'.assets && l'.assets[k] == l.assets[k]
    decreases n - i
  {
    hide RoundOf;
    if i < n {
      SettledRowStays(l, i + 1, p.queries[i], p.rounds[i], p.target, p.batchSize, k);
      var (l', stop) := RoundOf(l, i + 1, p.queries[i], p.rounds[i], p.target, p.batchSize);
      if stop.None? {
        SettledRowsStay(l', i + 1, n, p, k);
      }
    }
  }

  // ------------------------------------------------------- what a fetch amounts to

  function HowMany(runs: seq<Ran>, p: Outcome -> bool): nat {
    if runs == [] then 0 else HowMany(runs[..|runs| - 1], p) + if p(runs[|runs| - 1].fetch.outcome) then 1 else 0
  }

  /** The four deltas of an attempt, by how its fetches went; a document is archived
      from one hundred and twenty words on. */
  lemma {:induction false} DeltasCount(runs: seq<Ran>)
    ensures Delta(runs, Archived) == HowMany(runs, (o: Outcome) => o.Fetched? && o.words >= 120)
    ensures Delta(runs, Partial) == HowMany(runs, (o: Outcome) => o.Fetched? && o.words < 120)
    ensures Delta(runs, NeedsUserInput) == HowMany(runs, (o: Outcome) => o.Unreachable? && o.needsUser)
    ensures Delta(runs, FailedFetch) ==
            HowMany(runs, (o: Outcome) => (o.Unreachable? && !o.needsUser) || o.LateFailure? || o.EarlyFailure?)
  {
    if runs != [] {
      DeltasCount(runs[..|runs| - 1]);
    }
  }

  /** The rows one fetch stores, whoever ran it. */
  lemma FetchStores(assets: Assets, e: string, o: Outcome, noted: bool)
    ensures Stored(assets, Ran(Fetch(e, o), noted)) ==
            match o
            case NoUrl => assets[Key(e, "") := FailedFetch]
            case Unsafe(url) => assets[Key(e, url) := FailedFetch]
            case Unreachable(url, true) => assets[Key(e, url) := NeedsUserInput]
            case Unreachable(url, false) => assets[Key(e, url) := FailedFetch]
            case Fetched(url, words) => assets[Key(e, url) := if words >= 120 then Archived else Partial]
            case LateFailure(doc, words, url) =>
              var kept := assets[Key(e, doc) := if words >= 120 then Archived else Partial];
              if noted then kept[Key(e, url) := FailedFetch] else kept
            case EarlyFailure(url) => if noted then assets[Key(e, url) := FailedFetch] else assets
            case Fatal => assets
  {
  }

  /** Who runs what: one target, or a batch of one, has one worker and stops at the
      first exception; otherwise every target is run, and all exceptions are noted
      unless one is fatal or a failure row cannot be written. */
  lemma WorkersDecide(fetches: seq<Fetch>, batchSize: nat, early: string -> bool, noteRaises: bool, k: nat)
    requires k < |fetches| && forall i :: 0 <= i < k ==> !Escapes(fetches[i].outcome)
    ensures var b, n := Archiving(fetches, batchSize, early, noteRaises), |fetches|;
            if n == 1 || batchSize <= 1 then
              && (forall i :: 0 <= i <= k && i < |b.runs| ==> b.runs[i] == Ran(fetches[i], false))
              && |b.runs| > k
              && (Escapes(fetches[k].outcome) ==> b.raised && |b.runs| == k + 1)
              && (k + 1 == n && !Escapes(fetches[k].outcome) ==> !b.raised && |b.runs| == n)
            else
              var fatal := exists i :: 0 <= i < n &&
                             (fetches[i].outcome.Fatal? || (noteRaises && Escapes(fetches[i].outcome)));
              && |b.runs| == n && b.raised == fatal
              && forall i :: 0 <= i < n ==> b.runs[i] == Ran(fetches[i], !fatal || early(fetches[i].evidence))
  {
  }

  // ------------------------------------------------------ two inputs that fail

  /** Two documents found; how the second one fares decides between the examples. */
  function TwoFinds(first: Outcome, second: Outcome): Round {
    Round(["ev-1", "ev-2"], e => if e == "ev-1" then first else second, 5, false, e => false, false, false, false)
  }

  const REDIRECTED := LateFailure("https://a.example/final", 500, "https://a.example/start")
  const LONG_DOCUMENT := Fetched("https://a.example/doc", 500)

  function OneRoundPlan(r: Round): Plan {
    Plan(5, 14, ["query"], [r])
  }

  lemma TwoTargets(first: Outcome, second: Outcome)
    ensures var r := TwoFinds(first, second);
            && DistinctFinds(r)
            && Targets(map[], r.evidence, r.outcome) == [Fetch("ev-1", first), Fetch("ev-2", second)]
            && BatchOf(map[], r, 14) == Pooled([Fetch("ev-1", first), Fetch("ev-2", second)], r.early, false)
  {
    var r := TwoFinds(first, second);
    assert r.evidence[..1] == ["ev-1"] && r.evidence[..1][..0] == [];
    assert Targets(map[], r.evidence[..1], r.outcome) == [Fetch("ev-1", first)];
  }

  lemma NothingArchivedYet()
    ensures CountOf(map[], Archived) == 0
  {
    assert KeysWith(map[], Archived) == {};
  }

  /** A concrete round that ends normally and archives a document its attempt does
      not count: the first of two documents answered under another url, its row was
      stored, and the evidence update that follows raised. */
  lemma StrayExample()
    ensures var p := OneRoundPlan(TwoFinds(REDIRECTED, Unsafe("https://b.example")));
            var (l', ending) := RunFrom(Ledger(map[], [], 0), 0, 1, p);
            && ending == Completed(MaxRoundsReached)
            && CountOf(l'.assets, Archived) == 1 && ArchivedSum(l'.attempts) == 0
  {
    hide CountOf;
    var r := TwoFinds(REDIRECTED, Unsafe("https://b.example"));
    TwoTargets(REDIRECTED, Unsafe("https://b.example"));
    NothingArchivedYet();
    var runs := BatchOf(map[], r, 14).runs;
    assert runs[..1][..0] == [];
    assert Strays(runs[..1]) == 1 && Delta(runs[..1], Archived) == 0;
    assert Strays(runs) == 1 && Delta(runs, Archived) == 0;
    BatchGrowth(map[], r, 14);
    var l := Ledger(map[], [], 0);
    var after := RoundOf(l, 1, "query", r, 5, 14).0;
    assert after.attempts[..0] == [];
  }

  lemma DeltaOfOne(runs: seq<Ran>, status: AssetStatus)
    requires |runs| == 1
    ensures Delta(runs, status) == if Reported(runs[0].fetch.outcome) == Some(status) then 1 else 0
  {
    assert runs[..0] == [];
  }

  /** A concrete round that raises: the first document is archived, the second finds
      the parser unavailable, the job fails and no attempt is recorded. */
  lemma RaiseExample()
    ensures var p := OneRoundPlan(TwoFinds(LONG_DOCUMENT, Fatal));
            var (l', ending) := RunFrom(Ledger(map[], [], 0), 0, 1, p);
            && ending == Raised
            && CountOf(l'.assets, Archived) == 1 && l'.attempts == [] && ArchivedSum(l'.attempts) == 0
  {
    hide CountOf;
    var r := TwoFinds(LONG_DOCUMENT, Fatal);
    TwoTargets(LONG_DOCUMENT, Fatal);
    NothingArchivedYet();
    var b := BatchOf(map[], r, 14);
    var fetches := [Fetch("ev-1", LONG_DOCUMENT), Fetch("ev-2", Fatal)];
    assert fetches[1].outcome.Fatal?;
    assert b.runs[..1][..0] == [];
    assert b.runs[..1][0] == Ran(fetches[0], false) && Reported(LONG_DOCUMENT) == Some(Archived);
    DeltaOfOne(b.runs[..1], Archived);
    assert Strays(b.runs[..1]) == 0 && Delta(b.runs[..1], Archived) == 1;
    assert Strays(b.runs) == 0 && Delta(b.runs, Archived) == 1;
    BatchGrowth(map[], r, 14);
  }

  // ------------------------------------------------------- the run as an object

  class CaptureRun {
    var assets: Assets
    var attempts: seq<Attempt>
    /** Archived rows that no attempt counted. */
    ghost var uncounted: nat

    ghost function Abstract(): Ledger
      reads this
    {
      Ledger(assets, attempts, uncounted)
    }

    constructor (rows: Assets)
      ensures Abstract() == Ledger(rows, [], 0)
    {
      assets, attempts, uncounted := rows, [], 0;
    }

    /** `capture_asset_counts`: one pass over the rows. */
    method Counts() returns (archived: nat, partial: nat, failed: nat, needsUser: nat)
      ensures archived == CountOf(assets, Archived) && partial == CountOf(assets, Partial)
      ensures failed == CountOf(assets, FailedFetch) && needsUser == CountOf(assets, NeedsUserInput)
    {
      archived, partial, failed, needsUser := 0, 0, 0, 0;
      var todo := assets.Keys;
      ghost var seen: Assets := map[];
      while todo != {}
        invariant todo <= assets.Keys && seen.Keys == assets.Keys - todo
        invariant forall k :: k in seen ==> seen[k] == assets[k]
        invariant archived == CountOf(seen, Archived) && partial == CountOf(seen, Partial)
        invariant failed == CountOf(seen, FailedFetch) && needsUser == CountOf(seen, NeedsUserInput)
        decreases |todo|
      {
        var k :| k in todo;
        CountOneMore(seen, k, assets[k]);
        match assets[k] {
          case Archived => archived := archived + 1;
          case Partial => partial := partial + 1;
          case FailedFetch => failed := failed + 1;
          case NeedsUserInput => needsUser := needsUser + 1;
        }
        seen := seen[k := assets[k]];
        todo := todo - {k};
      }
      assert seen == assets;
    }

    /** Skip evidence that is already settled. */
    method ChooseTargets(r: Round) returns (fetches: seq<Fetch>)
      ensures fetches == Targets(assets, r.evidence, r.outcome)
    {
      fetches := [];
      for i := 0 to |r.evidence|
        invariant fetches == Targets(assets, r.evidence[..i], r.outcome)
      {
        var e := r.evidence[i];
        assert r.evidence[..i + 1][..i] == r.evidence[..i];
        if Fetchable(assets, e) {
          fetches := fetches + [Fetch(e, r.outcome(e))];
        }
      }
      assert r.evidence[..|r.evidence|] == r.evidence;
    }

    /** Archive every target and count what the fetches report.  With one worker the
        first exception ends it; a pool runs every target, notes the exceptions it
        collects, and raises in the end if one of them was fatal or could not be
        noted.  Rows of different evidence are disjoint, so their order does not
        show. */
    method ArchiveMany(fetches: seq<Fetch>, batchSize: nat, early: string -> bool, noteRaises: bool)
      returns (raised: bool, archived: nat, partial: nat, failed: nat, needsUser: nat)
      modifies this`assets
      ensures var b := Archiving(fetches, batchSize, early, noteRaises);
              && raised == b.raised && assets == StoredAll(old(assets), b.runs)
              && (!raised ==> archived == Delta(b.runs, Archived) && partial == Delta(b.runs, Partial)
                              && failed == Delta(b.runs, FailedFetch) && needsUser == Delta(b.runs, NeedsUserInput))
    {
      hide Stored, Delta, StoredAll;
      var pool := Workers(batchSize, |fetches|) > 1;
      var fatal := HasFatal(fetches, noteRaises);
      ghost var runs := Archiving(fetches, batchSize, early, noteRaises).runs;
      archived, partial, failed, needsUser := 0, 0, 0, 0;
      EmptyRuns(assets, runs);
      for i := 0 to |fetches|
        invariant i <= |runs| && (!pool ==> i <= FirstEscape(fetches))
        invariant assets == StoredAll(old(assets), runs[..i])
        invariant archived == Delta(runs[..i], Archived) && partial == Delta(runs[..i], Partial)
        invariant failed == Delta(runs[..i], FailedFetch) && needsUser == Delta(runs[..i], NeedsUserInput)
      {
        var x := Ran(fetches[i], pool && (!fatal || early(fetches[i].evidence)));
        assert runs[i] == x;
        OneMoreRun(old(assets), runs, i);
        assets := Stored(assets, x);
        if !pool && Escapes(fetches[i].outcome) {
          assert runs[..i + 1] == runs;
          return true, archived, partial, failed, needsUser;
        }
        match Reported(fetches[i].outcome) {
          case None =>
          case Some(Archived) => archived := archived + 1;
          case Some(Partial) => partial := partial + 1;
          case Some(FailedFetch) => failed := failed + 1;
          case Some(NeedsUserInput) => needsUser := needsUser + 1;
        }
      }
      assert runs[..|fetches|] == runs;
      raised := pool && fatal;
    }

    /** One round of the loop: `None` goes on to the next round. */
    method OneRound(round: nat, query: string, r: Round, target: nat, batchSize: nat) returns (stop: Option<Ending>)
      modifies this
      ensures (Abstract(), stop) == RoundOf(old(Abstract()), round, query, r, target, batchSize)
    {
      hide CountOf, StoredAll, Delta, Strays, Targets, Archiving;
      if r.haltAt == 0 {
        return Some(Halted);
      }
      var before, _, _, _ := Counts();
      if before >= target {
        return Some(Completed(TargetReached));
      }
      if r.haltAt == 1 {
        return Some(Halted);
      }
      if r.searchRaises {
        return Some(Raised);
      }
      if r.haltAt == 2 {
        return Some(Halted);
      }
      var fetches := ChooseTargets(r);
      if r.haltAt == 3 {
        return Some(Halted);
      }
      ghost var runs := BatchOf(assets, r, batchSize).runs;
      var raised, archived, partial, failed, needsUser := ArchiveMany(fetches, batchSize, r.early, r.noteRaises);
      if raised || r.recordRaises {
        uncounted := uncounted + Delta(runs, Archived) + Strays(runs);
        return Some(Raised);
      }
      uncounted := uncounted + Strays(runs);
      attempts := attempts + [Attempt(round, query, archived, partial, failed, needsUser)];
      var now, _, _, _ := Counts();
      if r.progressRaises {
        return Some(Raised);
      }
      if r.haltAt == 4 {
        return Some(Halted);
      }
      return if now >= target then Some(Completed(TargetReached)) else None;
    }

    /** The body of `_run_consult_capture_job` after a successful claim. */
    method Run(p: Plan, maxRounds: nat) returns (ending: Ending)
      requires |p.rounds| == |p.queries|
      modifies this
      ensures (Abstract(), ending) == RunFrom(old(Abstract()), 0, Min(|p.queries|, maxRounds), p)
    {
      hide RoundOf;
      var n := Min(|p.queries|, maxRounds);
      for i := 0 to n
        invariant RunFrom(Abstract(), i, n, p) == RunFrom(old(Abstract()), 0, n, p)
      {
        var stop := OneRound(i + 1, p.queries[i], p.rounds[i], p.target, p.batchSize);
        if stop.Some? {
          return stop.value;
        }
      }
      return Completed(MaxRoundsReached);
    }
  }

  lemma EmptyRuns(assets: Assets, runs: seq<Ran>)
    ensures StoredAll(assets, runs[..0]) == assets && forall s :: Delta(runs[..0], s) == 0
  {
  }

  lemma OneMoreRun(assets: Assets, runs: seq<Ran>, i: nat)
    requires i < |runs|
    ensures StoredAll(assets, runs[..i + 1]) == Stored(StoredAll(assets, runs[..i]), runs[i])
    ensures forall s :: Delta(runs[..i + 1], s) ==
                        Delta(runs[..i], s) + if Reported(runs[i].fetch.outcome) == Some(s) then 1 else 0
  {
    assert runs[..i + 1][..i] == runs[..i];
  }

  lemma CountOneMore(seen: Assets, k: Key, status: AssetStatus)
    requires k !in seen
    ensures forall s :: CountOf(seen[k := status], s) == CountOf(seen, s) + if s == status then 1 else 0
  {
    hide CountOf;
    forall s
      ensures CountOf(seen[k := status], s) == CountOf(seen, s) + if s == status then 1 else 0
    {
      CountOneMoreOf(seen, k, status, s);
    }
  }

  lemma CountOneMoreOf(seen: Assets, k: Key, status: AssetStatus, s: AssetStatus)
    requires k !in seen
    ensures CountOf(seen[k := status], s) == CountOf(seen, s) + if s == status then 1 else 0
  {
    assert KeysWith(seen[k := status], s) == KeysWith(seen, s) + if s == status then {k} else {};
  }
}
