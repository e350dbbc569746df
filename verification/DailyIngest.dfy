/** Concurrent ingests of one edition on a file system where any of them may fail
    or crash at any step.  Files are written into a private staging directory; the
    only step that touches the edition directory is one rename. */
module DailyIngest {
  import opened Wrappers
  import opened DailyPackage

  datatype Outcome =
    | Done(idempotent: bool)
    | Rejected(v: Verdict)       // the existing package is not this request's
    | HistoryRefused             // near-duplicate of a recent edition, or the check failed
    | BuildFailed
    | WriteFailed

  datatype Pc =
    | Checking
    | Preparing
    | Writing(bytes: seq<string>, createdAt: string, count: nat)
    | Sealed(bytes: seq<string>, createdAt: string)
    | Answered(outcome: Outcome)

  datatype Proc = Proc(req: Request, pc: Pc, stage: Option<Package>)

  /** The winning request and what it wrote, kept for the statements only. */
  datatype Commit = Commit(req: Request, bytes: seq<string>, createdAt: string)

  datatype Sys = Sys(target: Option<Package>, procs: map<nat, Proc>, commit: Option<Commit>, firsts: nat)

  datatype Action =
    | Begin(p: nat, req: Request)
    | Check(p: nat)
    | RefuseHistory(p: nat)
    | FailBuild(p: nat)
    | Build(p: nat, bytes: seq<string>, createdAt: string)
    | WriteNext(p: nat, fails: bool)
    | Seal(p: nat, fails: bool)
    | Rename(p: nat, fails: bool)
    | Crash(p: nat)

  /** The titles of a request are read off its canonical content. */
  predicate Admitted(edition: string, titlesOf: string -> seq<string>, r: Request) {
    r.Valid() && r.edition == edition && r.titles == titlesOf(r.content)
  }

  predicate Enabled(edition: string, titlesOf: string -> seq<string>, s: Sys, a: Action) {
    if a.Begin? then a.p !in s.procs && Admitted(edition, titlesOf, a.req)
    else
      a.p in s.procs && s.procs[a.p].req.Valid() &&
      var proc := s.procs[a.p];
      match a
      case Check(_) => proc.pc.Checking?
      case RefuseHistory(_) => proc.pc.Preparing?
      case FailBuild(_) => proc.pc.Preparing?
      case Build(_, bytes, _) => proc.pc.Preparing? && |bytes| == 6
      case WriteNext(_, _) => proc.pc.Writing? && proc.pc.count < 6 && |proc.pc.bytes| == 6 && proc.stage.Some?
      case Seal(_, _) => proc.pc.Writing? && proc.pc.count == 6 && |proc.pc.bytes| == 6 && proc.stage.Some?
      case Rename(_, _) => proc.pc.Sealed? && proc.stage.Some?
      case Crash(_) => true
  }

  function Answer(s: Sys, p: nat, o: Outcome): Sys
    requires p in s.procs
  {
    s.(procs := s.procs[p := Proc(s.procs[p].req, Answered(o), None)])
  }

  /** `_verify_existing_daily_brief_ingest` on the directory that is there. */
  function AnswerExisting(s: Sys, p: nat): Sys
    requires p in s.procs && s.target.Some? && s.procs[p].req.Valid()
  {
    var v := Verify(s.target.value, s.procs[p].req);
    Answer(s, p, if v == Accepted then Done(true) else Rejected(v))
  }

  function Step(edition: string, titlesOf: string -> seq<string>, s: Sys, a: Action): Sys
    requires Enabled(edition, titlesOf, s, a)
  {
    if a.Begin? then s.(procs := s.procs[a.p := Proc(a.req, Checking, None)])
    else
      var proc := s.procs[a.p];
      match a
      case Check(p) =>
        if s.target.Some? then AnswerExisting(s, p)
        else s.(procs := s.procs[p := proc.(pc := Preparing)])
      case RefuseHistory(p) => Answer(s, p, HistoryRefused)
      case FailBuild(p) => Answer(s, p, BuildFailed)
      case Build(p, bytes, createdAt) =>
        s.(procs := s.procs[p := Proc(proc.req, Writing(bytes, createdAt, 0), Some(map[]))])
      case WriteNext(p, fails) =>
        if fails then Answer(s, p, WriteFailed)
        else
          var name := DocNames(proc.req)[proc.pc.count];
          s.(procs := s.procs[p := Proc(proc.req, proc.pc.(count := proc.pc.count + 1),
                                        Some(proc.stage.value[name := Doc(proc.pc.bytes[proc.pc.count])]))])
      case Seal(p, fails) =>
        if fails then Answer(s, p, WriteFailed)
        else
          var manifest := ManifestFor(proc.req, proc.pc.bytes, proc.pc.createdAt);
          s.(procs := s.procs[p := Proc(proc.req, Sealed(proc.pc.bytes, proc.pc.createdAt),
                                        Some(proc.stage.value[MANIFEST_NAME := manifest]))])
      case Rename(p, fails) =>
        if s.target.Some? then AnswerExisting(s, p)
        else if fails then Answer(s, p, WriteFailed)
        else
          Answer(s, p, Done(false)).(target := proc.stage,
                                     commit := Some(Commit(proc.req, proc.pc.bytes, proc.pc.createdAt)),
                                     firsts := s.firsts + 1)
      case Crash(p) => s.(procs := s.procs - {p})
  }

  /** Whatever is staged is exactly what has been written so far; the target is
      absent or the complete package of the one committed request. */
  ghost predicate ProcOk(edition: string, titlesOf: string -> seq<string>, s: Sys, proc: Proc) {
    && Admitted(edition, titlesOf, proc.req)
    && match proc.pc
       case Writing(bytes, _, count) =>
         |bytes| == 6 && count <= 6 && proc.stage == Some(Docs(DocNames(proc.req), bytes, count))
       case Sealed(bytes, createdAt) => |bytes| == 6 && proc.stage == Some(Complete(proc.req, bytes, createdAt))
       case Answered(Done(_)) =>
         s.commit.Some? && var winner := s.commit.value.req;
         proc.req.content == winner.content && proc.req.mode == winner.mode
       case _ => true
  }

  ghost predicate TargetOk(edition: string, titlesOf: string -> seq<string>, s: Sys) {
    match s.commit
    case None => s.target == None && s.firsts == 0
    case Some(c) =>
      && Admitted(edition, titlesOf, c.req) && |c.bytes| == 6
      && s.target == Some(Complete(c.req, c.bytes, c.createdAt))
      && s.firsts == 1
  }

  ghost predicate Inv(edition: string, titlesOf: string -> seq<string>, s: Sys) {
    && TargetOk(edition, titlesOf, s)
    && forall p :: p in s.procs ==> ProcOk(edition, titlesOf, s, s.procs[p])
  }

  ghost function Exec(edition: string, titlesOf: string -> seq<string>, s: Sys, a: Action): Sys
  {
    if Enabled(edition, titlesOf, s, a) then Step(edition, titlesOf, s, a) else s
  }

  lemma ExecKeepsInv(edition: string, titlesOf: string -> seq<string>, s: Sys, a: Action)
    requires PlainEdition(edition) && Inv(edition, titlesOf, s)
    ensures Inv(edition, titlesOf, Exec(edition, titlesOf, s, a))
    ensures s.target.Some? ==>
              var t := Exec(edition, titlesOf, s, a);
              t.target == s.target && t.commit == s.commit
  {
    hide Verify, DocNames, Docs, Complete, ProcOk, Step, Admitted;
    if Enabled(edition, titlesOf, s, a) {
      var t := Step(edition, titlesOf, s, a);
      ActorOk(edition, titlesOf, s, a);
      TargetStep(edition, titlesOf, s, a);
      forall p | p in t.procs && p != a.p
        ensures ProcOk(edition, titlesOf, t, t.procs[p])
      {
        BystanderOk(edition, titlesOf, s, a, p);
      }
    }
  }

  lemma BystanderOk(edition: string, titlesOf: string -> seq<string>, s: Sys, a: Action, p: nat)
    requires PlainEdition(edition) && Inv(edition, titlesOf, s) && Enabled(edition, titlesOf, s, a)
    requires p != a.p && p in Step(edition, titlesOf, s, a).procs
    ensures ProcOk(edition, titlesOf, Step(edition, titlesOf, s, a), Step(edition, titlesOf, s, a).procs[p])
  {
    hide Verify, DocNames, Docs, Complete, Admitted;
    assert ProcOk(edition, titlesOf, s, s.procs[p]);
  }

  lemma TargetStep(edition: string, titlesOf: string -> seq<string>, s: Sys, a: Action)
    requires PlainEdition(edition) && Inv(edition, titlesOf, s) && Enabled(edition, titlesOf, s, a)
    ensures var t := Step(edition, titlesOf, s, a);
            TargetOk(edition, titlesOf, t) && (s.target.Some? ==> t.target == s.target && t.commit == s.commit)
  {
    hide Verify, DocNames, Docs, Complete, Admitted;
    if !a.Begin? {
      assert ProcOk(edition, titlesOf, s, s.procs[a.p]);
    }
  }

  lemma ActorOk(edition: string, titlesOf: string -> seq<string>, s: Sys, a: Action)
    requires PlainEdition(edition) && Inv(edition, titlesOf, s) && Enabled(edition, titlesOf, s, a)
    ensures var t := Step(edition, titlesOf, s, a);
            a.p in t.procs ==> ProcOk(edition, titlesOf, t, t.procs[a.p])
  {
    hide Verify, DocNames, Docs, Complete;
    if !a.Begin? {
      var proc := s.procs[a.p];
      assert ProcOk(edition, titlesOf, s, proc);
      match a
      case Check(p) => AnswerOk(edition, titlesOf, s, p);
      case Rename(p, _) => AnswerOk(edition, titlesOf, s, p);
      case Build(_, bytes, _) => NoDocs(proc.req, bytes);
      case WriteNext(_, _) => StageStep(proc);
      case Seal(_, _) => SealedIsComplete(proc.req, proc.pc.bytes, proc.pc.createdAt);
      case _ =>
    }
  }

  lemma AnswerOk(edition: string, titlesOf: string -> seq<string>, s: Sys, p: nat)
    requires PlainEdition(edition) && TargetOk(edition, titlesOf, s)
    requires p in s.procs && Admitted(edition, titlesOf, s.procs[p].req)
    ensures s.target.Some? ==> s.commit.Some?
    ensures s.target.Some? ==> var r, c := s.procs[p].req, s.commit.value.req;
            Verify(s.target.value, r) ==
            if r.content != c.content then EditionConflict else if r.mode != c.mode then OutputInvalid else Accepted
  {
    hide Verify, DocNames, Docs, Complete;
    if s.commit.Some? {
      var c := s.commit.value;
      CompleteVerifiesIff(c.req, c.bytes, c.createdAt, s.procs[p].req);
    }
  }

  lemma SealedIsComplete(r: Request, bytes: seq<string>, createdAt: string)
    requires r.Valid() && |bytes| == 6
    ensures Docs(DocNames(r), bytes, 6)[MANIFEST_NAME := ManifestFor(r, bytes, createdAt)] ==
            Complete(r, bytes, createdAt)
  {
  }

  lemma StageStep(proc: Proc)
    requires proc.req.Valid() && proc.pc.Writing? && |proc.pc.bytes| == 6 && proc.pc.count <= 6
    ensures var names, bytes, n := DocNames(proc.req), proc.pc.bytes, proc.pc.count;
            && Docs(names, bytes, 0) == map[]
            && (n < 6 ==> Docs(names, bytes, n)[names[n] := Doc(bytes[n])] == Docs(names, bytes, n + 1))
  {
  }

  lemma NoDocs(r: Request, bytes: seq<string>)
    requires r.Valid() && |bytes| == 6
    ensures Docs(DocNames(r), bytes, 0) == map[]
  {
  }

  // ------------------------------------------------------------------- runs

  ghost function Run(edition: string, titlesOf: string -> seq<string>, s: Sys, actions: seq<Action>): Sys
    decreases |actions|
  {
    if actions == [] then s
    else
      Run(edition, titlesOf, Exec(edition, titlesOf, s, actions[0]), actions[1..])
  }

  const NO_EDITION := Sys(None, map[], None, 0)

  lemma {:induction false} RunKeeps(edition: string, titlesOf: string -> seq<string>, s: Sys, actions: seq<Action>)
    requires PlainEdition(edition) && Inv(edition, titlesOf, s)
    ensures var t := Run(edition, titlesOf, s, actions);
            && Inv(edition, titlesOf, t)
            && (s.target.Some? ==> t.target == s.target && t.commit == s.commit)
    decreases |actions|
  {
    hide Inv, Exec;
    if actions != [] {
      ExecKeepsInv(edition, titlesOf, s, actions[0]);
      RunKeeps(edition, titlesOf, Exec(edition, titlesOf, s, actions[0]), actions[1..]);
    }
  }

  /** Main result.  After any interleaving of ingests, failures and crashes the
      edition directory is absent, or is a package the verifier accepts for the
      request that wrote it; at most one ingest ever answered "not idempotent". */
  lemma EditionIsAbsentOrComplete(edition: string, titlesOf: string -> seq<string>, actions: seq<Action>)
    requires PlainEdition(edition)
    ensures var s := Run(edition, titlesOf, NO_EDITION, actions);
            && s.firsts <= 1
            && (s.target.None? <==> s.firsts == 0)
            && (s.target.Some? ==> s.commit.Some? && s.commit.value.req.Valid() &&
                                   Verify(s.target.value, s.commit.value.req) == Accepted)
  {
    hide Verify, DocNames, Docs, Complete;
    RunKeeps(edition, titlesOf, NO_EDITION, actions);
    var s := Run(edition, titlesOf, NO_EDITION, actions);
    if s.commit.Some? {
      var c := s.commit.value;
      CompleteVerifiesIff(c.req, c.bytes, c.createdAt, c.req);
    }
  }

  /** Main result.  Every ingest that ever answered success, first or repeated,
      finds its own edition: the package there verifies for its own request. */
  lemma SuccessMeansOwnEdition(edition: string, titlesOf: string -> seq<string>, actions: seq<Action>, p: nat)
    requires PlainEdition(edition)
    requires p in Run(edition, titlesOf, NO_EDITION, actions).procs
    ensures var s := Run(edition, titlesOf, NO_EDITION, actions);
            var proc := s.procs[p];
            proc.pc.Answered? && proc.pc.outcome.Done? ==>
              s.target.Some? && proc.req.Valid() && Verify(s.target.value, proc.req) == Accepted
  {
    hide Verify, DocNames, Docs, Complete, Run, Exec, Step;
    NoEditionOk(edition, titlesOf);
    RunKeeps(edition, titlesOf, NO_EDITION, actions);
    var s := Run(edition, titlesOf, NO_EDITION, actions);
    assert ProcOk(edition, titlesOf, s, s.procs[p]);
    AnswerOk(edition, titlesOf, s, p);
  }

  /** Main result.  Once committed, the package never changes again. */
  lemma EditionNeverChanges(edition: string, titlesOf: string -> seq<string>, before: seq<Action>, after: seq<Action>)
    requires PlainEdition(edition)
    ensures var s := Run(edition, titlesOf, NO_EDITION, before);
            s.target.Some? ==> Run(edition, titlesOf, NO_EDITION, before + after).target == s.target
  {
    hide Inv, Exec;
    NoEditionOk(edition, titlesOf);
    RunKeeps(edition, titlesOf, NO_EDITION, before);
    RunKeeps(edition, titlesOf, Run(edition, titlesOf, NO_EDITION, before), after);
    RunSplits(edition, titlesOf, NO_EDITION, before, after);
  }

  lemma NoEditionOk(edition: string, titlesOf: string -> seq<string>)
    ensures Inv(edition, titlesOf, NO_EDITION)
  {
  }

  lemma {:induction false} RunSplits(
    edition: string, titlesOf: string -> seq<string>, s: Sys, before: seq<Action>, after: seq<Action>)
    decreases |before|
    ensures Run(edition, titlesOf, s, before + after) ==
            Run(edition, titlesOf, Run(edition, titlesOf, s, before), after)
  {
    hide Exec;
    if before == [] {
      assert before + after == after;
    } else {
      RunSplits(edition, titlesOf, Exec(edition, titlesOf, s, before[0]), before[1..], after);
      assert (before + after)[1..] == before[1..] + after;
    }
  }

  /** Main result.  In every reachable state holding a package, running an ingest
      from its first step answers as the content and mode of the winner decide,
      and leaves the package alone: the repeat of a committed ingest in the same
      mode is idempotent, in the other mode it is refused. */
  lemma RepeatAnswers(edition: string, titlesOf: string -> seq<string>, actions: seq<Action>, p: nat, req: Request)
    requires PlainEdition(edition) && Admitted(edition, titlesOf, req)
    requires var s := Run(edition, titlesOf, NO_EDITION, actions);
             s.target.Some? && s.commit.Some? && p !in s.procs
    ensures var s := Run(edition, titlesOf, NO_EDITION, actions);
            var t := Run(edition, titlesOf, NO_EDITION, actions + [Begin(p, req), Check(p)]);
            var winner := s.commit.value.req;
            && t.target == s.target && t.firsts == s.firsts && p in t.procs
            && t.procs[p].pc == Answered(
                 if req.content != winner.content then Rejected(EditionConflict)
                 else if req.mode != winner.mode then Rejected(OutputInvalid)
                 else Done(true))
  {
    hide Verify, DocNames, Docs, Complete, ProcOk, Run;
    NoEditionOk(edition, titlesOf);
    RunKeeps(edition, titlesOf, NO_EDITION, actions);
    RunSplits(edition, titlesOf, NO_EDITION, actions, [Begin(p, req), Check(p)]);
    var s := Run(edition, titlesOf, NO_EDITION, actions);
    var begun := Exec(edition, titlesOf, s, Begin(p, req));
    ExecKeepsInv(edition, titlesOf, s, Begin(p, req));
    AnswerOk(edition, titlesOf, begun, p);
    RunOfTwo(edition, titlesOf, s, Begin(p, req), Check(p));
  }

  lemma RunOfTwo(edition: string, titlesOf: string -> seq<string>, s: Sys, a: Action, b: Action)
    ensures Run(edition, titlesOf, s, [a, b]) == Exec(edition, titlesOf, Exec(edition, titlesOf, s, a), b)
  {
    hide Exec;
    assert [a, b][1..] == [b] && [b][1..] == [];
    assert Run(edition, titlesOf, s, [a, b]) == Run(edition, titlesOf, Exec(edition, titlesOf, s, a), [b]);
    OneStep(edition, titlesOf, Exec(edition, titlesOf, s, a), b);
  }

  lemma OneStep(edition: string, titlesOf: string -> seq<string>, s: Sys, b: Action)
    ensures Run(edition, titlesOf, s, [b]) == Exec(edition, titlesOf, s, b)
  {
    hide Exec;
    assert Run(edition, titlesOf, s, [b]) == Run(edition, titlesOf, Exec(edition, titlesOf, s, b), []);
  }

  /** An exclusive create in the staging directory never meets an existing name. */
  lemma StagedNamesAreNew(edition: string, titlesOf: string -> seq<string>, s: Sys, p: nat)
    requires PlainEdition(edition) && Inv(edition, titlesOf, s)
    requires p in s.procs && s.procs[p].pc.Writing?
    ensures var proc, names := s.procs[p], DocNames(s.procs[p].req);
            && proc.stage.Some?
            && (proc.pc.count < 6 ==> names[proc.pc.count] !in proc.stage.value)
            && (proc.pc.count == 6 ==> MANIFEST_NAME !in proc.stage.value)
  {
    hide Verify, DocNames, Docs, Complete, IsDocx, IsBasename;
    var proc := s.procs[p];
    assert ProcOk(edition, titlesOf, s, proc);
    var names, k := DocNames(proc.req), proc.pc.count;
    NamesAreGood(proc.req);
    DocsHold(names, proc.pc.bytes, k);
  }

  // ---------------------------------------------------------- an ingest by itself

  /** Main result.  With no package there, an ingest that nobody disturbs and that
      does not fail commits its own complete package and answers as the first one. */
  lemma AloneCommits(
    edition: string, titlesOf: string -> seq<string>, s: Sys, p: nat,
    req: Request, bytes: seq<string>, createdAt: string)
    requires PlainEdition(edition) && Inv(edition, titlesOf, s) && s.target == None
    requires Admitted(edition, titlesOf, req) && p !in s.procs && |bytes| == 6
    ensures var s1 := Exec(edition, titlesOf, s, Begin(p, req));
            var s2 := Exec(edition, titlesOf, s1, Check(p));
            var s3 := Exec(edition, titlesOf, s2, Build(p, bytes, createdAt));
            var s4 := Wrote(edition, titlesOf, s3, p, 6);
            var s5 := Exec(edition, titlesOf, s4, Seal(p, false));
            var s6 := Exec(edition, titlesOf, s5, Rename(p, false));
            s6 == Sys(Some(Complete(req, bytes, createdAt)), s.procs[p := Proc(req, Answered(Done(false)), None)],
                      Some(Commit(req, bytes, createdAt)), s.firsts + 1)
  {
    hide DocNames, Docs, ManifestFor, Complete, Verify, Exec, Inv, Wrote;
    var s1 := Exec(edition, titlesOf, s, Begin(p, req));
    var s2 := Exec(edition, titlesOf, s1, Check(p));
    BeginsBuilding(edition, titlesOf, s, p, req, bytes, createdAt);
    var s3 := Exec(edition, titlesOf, s2, Build(p, bytes, createdAt));
    NoDocs(req, bytes);
    AllWritten(edition, titlesOf, s3, p, req, bytes, createdAt, 6);
    SealsAndRenames(edition, titlesOf, Wrote(edition, titlesOf, s3, p, 6), p, req, bytes, createdAt);
  }

  lemma BeginsBuilding(
    edition: string, titlesOf: string -> seq<string>, s: Sys, p: nat,
    req: Request, bytes: seq<string>, createdAt: string)
    requires s.target == None && Admitted(edition, titlesOf, req) && p !in s.procs && |bytes| == 6
    ensures var s1 := Exec(edition, titlesOf, s, Begin(p, req));
            var s2 := Exec(edition, titlesOf, s1, Check(p));
            Exec(edition, titlesOf, s2, Build(p, bytes, createdAt)) ==
            s.(procs := s.procs[p := Proc(req, Writing(bytes, createdAt, 0), Some(map[]))])
  {
    var s1 := Exec(edition, titlesOf, s, Begin(p, req));
    assert s1 == s.(procs := s.procs[p := Proc(req, Checking, None)]);
    assert Exec(edition, titlesOf, s1, Check(p)) == s.(procs := s.procs[p := Proc(req, Preparing, None)]);
  }

  lemma SealsAndRenames(
    edition: string, titlesOf: string -> seq<string>, s: Sys, p: nat,
    req: Request, bytes: seq<string>, createdAt: string)
    requires s.target == None && req.Valid() && |bytes| == 6 && p in s.procs
    requires s.procs[p] == Proc(req, Writing(bytes, createdAt, 6), Some(Docs(DocNames(req), bytes, 6)))
    ensures var s1 := Exec(edition, titlesOf, s, Seal(p, false));
            var package := Some(Complete(req, bytes, createdAt));
            Exec(edition, titlesOf, s1, Rename(p, false)) ==
            Sys(package, s.procs[p := Proc(req, Answered(Done(false)), None)],
                Some(Commit(req, bytes, createdAt)), s.firsts + 1)
  {
    hide DocNames, Docs, ManifestFor, Complete, Verify;
    SealedIsComplete(req, bytes, createdAt);
    var s1 := Exec(edition, titlesOf, s, Seal(p, false));
    assert s1 == s.(procs := s.procs[p := Proc(req, Sealed(bytes, createdAt), Some(Complete(req, bytes, createdAt)))]);
  }

  ghost function Wrote(edition: string, titlesOf: string -> seq<string>, s: Sys, p: nat, n: nat): Sys {
    if n == 0 then s else Exec(edition, titlesOf, Wrote(edition, titlesOf, s, p, n - 1), WriteNext(p, false))
  }

  lemma {:induction false} AllWritten(
    edition: string, titlesOf: string -> seq<string>, s: Sys, p: nat,
    req: Request, bytes: seq<string>, createdAt: string, n: nat)
    requires req.Valid() && |bytes| == 6 && n <= 6 && p in s.procs
    requires s.procs[p] == Proc(req, Writing(bytes, createdAt, 0), Some(Docs(DocNames(req), bytes, 0)))
    ensures Wrote(edition, titlesOf, s, p, n) ==
            s.(procs := s.procs[p := Proc(req, Writing(bytes, createdAt, n), Some(Docs(DocNames(req), bytes, n)))])
  {
    hide DocNames, Docs, Exec;
    if n == 0 {
      assert s.procs[p := s.procs[p]] == s.procs;
    } else {
      AllWritten(edition, titlesOf, s, p, req, bytes, createdAt, n - 1);
      var u := Wrote(edition, titlesOf, s, p, n - 1);
      StageStep(u.procs[p]);
      OneWrite(edition, titlesOf, u, p);
    }
  }

  lemma OneWrite(edition: string, titlesOf: string -> seq<string>, s: Sys, p: nat)
    requires p in s.procs && s.procs[p].req.Valid() && s.procs[p].pc.Writing? && s.procs[p].stage.Some?
    requires |s.procs[p].pc.bytes| == 6 && s.procs[p].pc.count < 6
    ensures var x := s.procs[p];
            var name := DocNames(x.req)[x.pc.count];
            Exec(edition, titlesOf, s, WriteNext(p, false)) ==
            s.(procs := s.procs[p := Proc(x.req, x.pc.(count := x.pc.count + 1),
                                          Some(x.stage.value[name := Doc(x.pc.bytes[x.pc.count])]))])
  {
    hide DocNames;
  }

  /** What each failure answers; none touches the edition or another ingest. */
  lemma FailureAnswers(edition: string, titlesOf: string -> seq<string>, s: Sys, p: nat)
    requires p in s.procs && s.procs[p].req.Valid()
    ensures var failed := (o: Outcome) => s.(procs := s.procs[p := Proc(s.procs[p].req, Answered(o), None)]);
            && (s.procs[p].pc.Preparing? ==>
                  && Exec(edition, titlesOf, s, RefuseHistory(p)) == failed(HistoryRefused)
                  && Exec(edition, titlesOf, s, FailBuild(p)) == failed(BuildFailed))
            && (s.procs[p].pc.Writing? && s.procs[p].pc.count < 6 && |s.procs[p].pc.bytes| == 6 &&
                s.procs[p].stage.Some? ==>
                  Exec(edition, titlesOf, s, WriteNext(p, true)) == failed(WriteFailed))
            && (s.procs[p].pc.Writing? && s.procs[p].pc.count == 6 && |s.procs[p].pc.bytes| == 6 &&
                s.procs[p].stage.Some? ==>
                  Exec(edition, titlesOf, s, Seal(p, true)) == failed(WriteFailed))
            && (s.procs[p].pc.Sealed? && s.procs[p].stage.Some? && s.target == None ==>
                  Exec(edition, titlesOf, s, Rename(p, true)) == failed(WriteFailed))
    ensures Exec(edition, titlesOf, s, Crash(p)) == s.(procs := s.procs - {p})
  {
    hide Verify, DocNames, ManifestFor;
  }
}
