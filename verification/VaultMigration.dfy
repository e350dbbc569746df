/** Concurrent runs of the vault migration, the application using the vault, and
    crashes.  Each step is one file-system call. */
module VaultMigration {

  /** The two vault files, in the order the migration visits them, and its marker. */
  datatype Name = Session | Pkce | Marker

  type Slot = i: nat | i <= 1

  function File(i: Slot): Name {
    if i == 0 then Session else Pkce
  }

  function IndexOf(f: Name): Slot {
    if f == Session then 0 else 1
  }

  /** A directory entry: a regular file, or a link, reparse point or directory. */
  datatype Entry = Regular(inode: nat, bytes: string) | Irregular

  type Dir = map<Name, Entry>

  datatype Tally = Tally(copied: nat, skipped: nat, found: bool)

  datatype Pc =
    | Starting
    | Counting(i: Slot, skipped: nat)
    | Looking(i: Slot, tally: Tally)
    | CheckingSource(i: Slot, tally: Tally)
    | CheckingTarget(i: Slot, tally: Tally, inode: nat)
    | Opening(i: Slot, tally: Tally, inode: nat)
    | Linking(i: Slot, tally: Tally, temp: Entry)
    | Publishing(tally: Tally)
    | LinkingMarker(tally: Tally)
    | Finished(copied: nat, skipped: nat)
    | Raised

  /** `deleted` names the files whose latest change was a deletion by the
      application; it is read by the statements only. */
  datatype Sys = Sys(legacy: Dir, dest: Dir, runs: map<nat, Pc>, deleted: set<Name>)

  datatype Action =
    | Start(p: nat)
    | Advance(p: nat, inode: nat)            // inode: what a new temporary file gets
    | Fail(p: nat)                           // the call raises OSError
    | Crash(p: nat)
    | AppWrite(f: Name, entry: Entry)
    | AppDelete(f: Name)
    | LegacyRemove(f: Name)
    | LegacyReplace(f: Name, entry: Entry)

  predicate Enabled(s: Sys, a: Action) {
    match a
    case Start(p) => p !in s.runs
    case Advance(p, _) => p in s.runs && !s.runs[p].Finished? && !s.runs[p].Raised?
    case Fail(p) => p in s.runs && !s.runs[p].Finished?
    case Crash(p) => p in s.runs
    case AppWrite(f, entry) => f != Marker && entry.Regular?
    case AppDelete(f) => f != Marker
    case LegacyRemove(f) => true
    case LegacyReplace(f, _) => f in s.legacy
  }

  function AfterFile(i: Slot, t: Tally): Pc {
    if i == 0 then Looking(1, t)
    else if t.found then Publishing(t)
    else Finished(t.copied, t.skipped)
  }

  function Skip(t: Tally): Tally { t.(skipped := t.skipped + 1) }

  function NextPc(legacy: Dir, dest: Dir, pc: Pc, inode: nat): Pc {
    match pc
    case Starting =>
      if Marker !in dest then Looking(0, Tally(0, 0, false))
      else if dest[Marker].Irregular? then Raised
      else Counting(0, 0)
    case Counting(i, skipped) =>
      var f := File(i);
      if f in dest && dest[f].Irregular? then Raised
      else
        var n := if f in dest then skipped + 1 else skipped;
        if i == 0 then Counting(1, n) else Finished(0, n)
    case Looking(i, t) =>
      if File(i) in legacy then CheckingSource(i, t.(found := true)) else AfterFile(i, t)
    case CheckingSource(i, t) =>
      if File(i) !in legacy then AfterFile(i, Skip(t))
      else if legacy[File(i)].Irregular? then Raised
      else CheckingTarget(i, t, legacy[File(i)].inode)
    case CheckingTarget(i, t, seen) =>
      if File(i) !in dest then Opening(i, t, seen)
      else if dest[File(i)].Irregular? then Raised
      else AfterFile(i, Skip(t))
    case Opening(i, t, seen) =>
      if File(i) in legacy && legacy[File(i)].Regular? && legacy[File(i)].inode == seen
      then Linking(i, t, Regular(inode, legacy[File(i)].bytes))
      else Raised
    case Linking(i, t, _) =>
      if File(i) !in dest then AfterFile(i, t.(copied := t.copied + 1))
      else if dest[File(i)].Irregular? then Raised
      else AfterFile(i, Skip(t))
    case Publishing(t) =>
      if Marker !in dest then LinkingMarker(t)
      else if dest[Marker].Irregular? then Raised
      else Finished(t.copied, t.skipped)
    case LinkingMarker(t) =>
      if Marker in dest && dest[Marker].Irregular? then Raised else Finished(t.copied, t.skipped)
    case Finished(_, _) => pc
    case Raised => pc
  }

  /** `os.link` is the only call that changes the vault, and it never replaces. */
  function NextDest(dest: Dir, pc: Pc, inode: nat): Dir {
    match pc
    case Linking(i, _, temp) => if File(i) in dest then dest else dest[File(i) := temp]
    case LinkingMarker(_) => if Marker in dest then dest else dest[Marker := Regular(inode, "v1\n")]
    case _ => dest
  }

  function Step(s: Sys, a: Action): Sys
    requires Enabled(s, a)
  {
    match a
    case Start(p) => s.(runs := s.runs[p := Starting])
    case Advance(p, inode) =>
      var dest := NextDest(s.dest, s.runs[p], inode);
      s.(runs := s.runs[p := NextPc(s.legacy, s.dest, s.runs[p], inode)],
         dest := dest, deleted := s.deleted - dest.Keys)
    case Fail(p) => s.(runs := s.runs[p := Raised])
    case Crash(p) => s.(runs := s.runs - {p})
    case AppWrite(f, entry) => s.(dest := s.dest[f := entry], deleted := s.deleted - {f})
    case AppDelete(f) => s.(dest := s.dest - {f}, deleted := if f in s.dest then s.deleted + {f} else s.deleted)
    case LegacyRemove(f) => s.(legacy := s.legacy - {f})
    case LegacyReplace(f, entry) => s.(legacy := s.legacy[f := entry])
  }

  function Exec(s: Sys, a: Action): Sys {
    if Enabled(s, a) then Step(s, a) else s
  }

  function Run(s: Sys, actions: seq<Action>): Sys
    decreases |actions|
  {
    if actions == [] then s else Run(Exec(s, actions[0]), actions[1..])
  }

  /** What others do: a run begins, fails or crashes; the application writes and deletes
      files, never the marker; legacy files vanish or are replaced. */
  lemma OtherSteps(s: Sys, p: nat, f: Name, e: Entry)
    ensures p !in s.runs ==> Exec(s, Start(p)) == s.(runs := s.runs[p := Starting])
    ensures p in s.runs && !s.runs[p].Finished? ==> Exec(s, Fail(p)) == s.(runs := s.runs[p := Raised])
    ensures p in s.runs ==> Exec(s, Crash(p)) == s.(runs := s.runs - {p})
    ensures f != Marker && e.Regular? ==>
              Exec(s, AppWrite(f, e)) == s.(dest := s.dest[f := e], deleted := s.deleted - {f})
    ensures f != Marker && f in s.dest ==>
              Exec(s, AppDelete(f)) == s.(dest := s.dest - {f}, deleted := s.deleted + {f})
    ensures f == Marker || e == Irregular ==> Exec(s, AppWrite(f, e)) == s
    ensures f == Marker ==> Exec(s, AppDelete(f)) == s
    ensures Exec(s, LegacyRemove(f)) == s.(legacy := s.legacy - {f})
    ensures Exec(s, LegacyReplace(f, e)) == if f in s.legacy then s.(legacy := s.legacy[f := e]) else s
  {
  }

  // ------------------------------------------------- nothing is overwritten

  predicate AppTouches(a: Action, f: Name) {
    (a.AppWrite? || a.AppDelete?) && a.f == f
  }

  lemma StepKeepsEntries(s: Sys, a: Action, f: Name)
    requires f in s.dest && !AppTouches(a, f)
    ensures f in Exec(s, a).dest && Exec(s, a).dest[f] == s.dest[f]
  {
  }

  /** Main result.  Whatever runs, crashes and failures happen, an entry of the
      vault only ever changes through the application itself. */
  lemma {:induction false} ExistingEntrySurvives(s: Sys, actions: seq<Action>, f: Name)
    requires f in s.dest
    requires forall i :: 0 <= i < |actions| ==> !AppTouches(actions[i], f)
    ensures f in Run(s, actions).dest && Run(s, actions).dest[f] == s.dest[f]
    decreases |actions|
  {
    hide Exec;
    if actions != [] {
      StepKeepsEntries(s, actions[0], f);
      ExistingEntrySurvives(Exec(s, actions[0]), actions[1..], f);
    }
  }

  // -------------------------------------------- a finished run left no gap

  predicate Settled(s: Sys, f: Name) {
    f in s.legacy ==> f in s.dest || f in s.deleted
  }

  predicate AllSettled(s: Sys) { Settled(s, Session) && Settled(s, Pkce) }

  /** How far a run has got implies what it has settled. */
  predicate Progress(s: Sys, pc: Pc) {
    match pc
    case Starting => true
    case Raised => true
    case Looking(i, _) => i == 1 ==> Settled(s, Session)
    case CheckingSource(i, _) => i == 1 ==> Settled(s, Session)
    case CheckingTarget(i, _, _) => i == 1 ==> Settled(s, Session)
    case Opening(i, _, _) => i == 1 ==> Settled(s, Session)
    case Linking(i, _, _) => i == 1 ==> Settled(s, Session)
    case Counting(i, _) => AllSettled(s)
    case Publishing(_) => AllSettled(s)
    case LinkingMarker(_) => AllSettled(s)
    case Finished(_, _) => AllSettled(s)
  }

  predicate Inv(s: Sys) {
    && (Marker in s.dest ==> AllSettled(s))
    && forall p :: p in s.runs ==> Progress(s, s.runs[p])
  }

  lemma SettledStays(s: Sys, a: Action, f: Name)
    requires f != Marker && Settled(s, f)
    ensures Settled(Exec(s, a), f)
  {
  }

  lemma ProgressStays(s: Sys, a: Action, pc: Pc)
    requires Progress(s, pc)
    ensures Progress(Exec(s, a), pc)
  {
    hide Exec, Settled;
    if Settled(s, Session) { SettledStays(s, a, Session); }
    if Settled(s, Pkce) { SettledStays(s, a, Pkce); }
  }

  /** The run that moves settles the file it just handled. */
  lemma ActorProgress(s: Sys, a: Action)
    requires Inv(s) && a.Advance? && Enabled(s, a)
    ensures Progress(Exec(s, a), Exec(s, a).runs[a.p])
  {
    var pc := s.runs[a.p];
    assert Progress(s, pc);
    ProgressStays(s, a, pc);
    if pc.Linking? {
      assert File(pc.i) in Exec(s, a).dest;
    }
  }

  lemma StepKeepsInv(s: Sys, a: Action)
    requires Inv(s)
    ensures Inv(Exec(s, a))
  {
    hide Progress, Settled, NextPc;
    var t := Exec(s, a);
    forall p | p in t.runs
      ensures Progress(t, t.runs[p])
    {
      if p in s.runs && t.runs[p] == s.runs[p] {
        ProgressStays(s, a, s.runs[p]);
      } else if a.Advance? {
        ActorProgress(s, a);
      } else {
        FreshProgress(t);
      }
    }
    MarkerSettled(s, a);
  }

  lemma FreshProgress(t: Sys)
    ensures Progress(t, Starting) && Progress(t, Raised)
  {
  }

  lemma MarkerSettled(s: Sys, a: Action)
    requires Inv(s)
    ensures Marker in Exec(s, a).dest ==> AllSettled(Exec(s, a))
  {
    hide Settled;
    if a.Advance? && Enabled(s, a) {
      assert Progress(s, s.runs[a.p]);
    }
    if Settled(s, Session) { SettledStays(s, a, Session); }
    if Settled(s, Pkce) { SettledStays(s, a, Pkce); }
  }

  lemma {:induction false} RunKeepsInv(s: Sys, actions: seq<Action>)
    requires Inv(s)
    ensures Inv(Run(s, actions))
    decreases |actions|
  {
    hide Inv, Exec;
    if actions != [] {
      StepKeepsInv(s, actions[0]);
      RunKeepsInv(Exec(s, actions[0]), actions[1..]);
    }
  }

  /** Main result.  From any vault without a marker, once any run has finished or
      the marker exists, a legacy file missing from the vault is one the
      application itself deleted. */
  lemma FinishedLeavesNoGap(legacy: Dir, dest: Dir, actions: seq<Action>, f: Name)
    requires Marker !in dest && f != Marker
    ensures var s := Run(Sys(legacy, dest, map[], {}), actions);
            Marker in s.dest || (exists p :: p in s.runs && s.runs[p].Finished?) ==>
              f in s.legacy ==> f in s.dest || f in s.deleted
  {
    hide Run;
    var s0 := Sys(legacy, dest, map[], {});
    assert Inv(s0);
    RunKeepsInv(s0, actions);
    var s := Run(s0, actions);
    if p :| p in s.runs && s.runs[p].Finished? {
      assert Progress(s, s.runs[p]);
    }
  }

  // ------------------------------------------------- nothing is resurrected

  /** A run that passed its marker check and has not left file `f` behind. */
  predicate MayCopy(pc: Pc, f: Name) {
    (pc.Looking? || pc.CheckingSource? || pc.CheckingTarget? || pc.Opening? || pc.Linking?) && pc.i <= IndexOf(f)
  }

  predicate Quiet(s: Sys, f: Name) {
    && Marker in s.dest && f !in s.dest
    && forall p :: p in s.runs ==> !MayCopy(s.runs[p], f)
  }

  lemma QuietStays(s: Sys, a: Action, f: Name)
    requires f != Marker && Quiet(s, f) && !AppTouches(a, f)
    ensures Quiet(Exec(s, a), f)
  {
    var t := Exec(s, a);
    forall p | p in t.runs
      ensures !MayCopy(t.runs[p], f)
    {
      if p in s.runs {
        assert !MayCopy(s.runs[p], f);
      }
    }
  }

  /** Main result.  Once the marker is published, a deleted file comes back only
      through a run that had already passed its marker check. */
  lemma {:induction false} DeletedStaysDeleted(s: Sys, actions: seq<Action>, f: Name)
    requires f != Marker && Quiet(s, f)
    requires forall i :: 0 <= i < |actions| ==> !AppTouches(actions[i], f)
    ensures f !in Run(s, actions).dest
    decreases |actions|
  {
    hide Quiet, Exec;
    if actions == [] {
      QuietMeansAbsent(s, f);
    } else {
      QuietStays(s, actions[0], f);
      DeletedStaysDeleted(Exec(s, actions[0]), actions[1..], f);
    }
  }

  lemma QuietMeansAbsent(s: Sys, f: Name)
    requires Quiet(s, f)
    ensures f !in s.dest
  {
  }

  predicate RightSource(legacy: Dir, pc: Pc)
    requires forall n :: n in legacy ==> legacy[n].Regular?
  {
    && (pc.CheckingTarget? || pc.Opening? ==> File(pc.i) in legacy && legacy[File(pc.i)].inode == pc.inode)
    && (pc.Linking? ==> pc.temp.Regular?)
  }

  /** No irregular entry anywhere, and every run still reads the file it looked at. */
  predicate Tidy(s: Sys, p: nat) {
    && p in s.runs
    && (forall n :: n in s.legacy ==> s.legacy[n].Regular?)
    && (forall n :: n in s.dest ==> s.dest[n].Regular?)
    && RightSource(s.legacy, s.runs[p])
  }

  function Distance(pc: Pc, f: Name): nat
    requires MayCopy(pc, f)
  {
    5 * (IndexOf(f) - pc.i) +
    match pc
    case Looking(_, _) => 5
    case CheckingSource(_, _) => 4
    case CheckingTarget(_, _, _) => 3
    case Opening(_, _, _) => 2
    case _ => 1
  }

  lemma OneCloser(s: Sys, p: nat, f: Name)
    requires f != Marker && Tidy(s, p) && MayCopy(s.runs[p], f) && f in s.legacy && f !in s.dest
    ensures var t := Exec(s, Advance(p, 0));
            || f in t.dest
            || (Tidy(t, p) && MayCopy(t.runs[p], f) && f in t.legacy && Distance(t.runs[p], f) < Distance(s.runs[p], f))
  {
  }

  /** The other direction: a run already past its check, left alone, does bring
      a deleted legacy file back although the marker is published. */
  lemma {:induction false} PassedRunResurrects(s: Sys, p: nat, f: Name) returns (actions: seq<Action>)
    requires f != Marker && Tidy(s, p) && MayCopy(s.runs[p], f) && f in s.legacy && f !in s.dest
    ensures forall i :: 0 <= i < |actions| ==> actions[i] == Advance(p, 0)
    ensures f in Run(s, actions).dest
    decreases Distance(s.runs[p], f)
  {
    hide NextPc, NextDest, MayCopy, Tidy;
    OneCloser(s, p, f);
    var t := Exec(s, Advance(p, 0));
    if f in t.dest {
      actions := [Advance(p, 0)];
      assert actions[1..] == [] && Run(t, []) == t;
    } else {
      var rest := PassedRunResurrects(t, p, f);
      actions := [Advance(p, 0)] + rest;
      assert actions[1..] == rest;
    }
  }

  ghost predicate CanComeBack(s: Sys, f: Name) {
    exists actions: seq<Action> ::
      (forall i :: 0 <= i < |actions| ==> !AppTouches(actions[i], f)) && f in Run(s, actions).dest
  }

  /** Stuck at opening the other file, which is no longer there: its next call
      raises, whatever anybody does. */
  predicate Stuck(legacy: Dir, pc: Pc, f: Name) {
    pc.Opening? && File(pc.i) != f && File(pc.i) !in legacy
  }

  /** A run that can still be brought to link file `f`: it may copy it and is not
      stuck, or it has read it already. */
  predicate CanLink(legacy: Dir, pc: Pc, f: Name) {
    || (f in legacy && MayCopy(pc, f) && !Stuck(legacy, pc, f))
    || (pc.Linking? && File(pc.i) == f)
  }

  ghost predicate Closed(s: Sys, f: Name) {
    && Marker in s.dest && f !in s.dest
    && forall p :: p in s.runs ==> !CanLink(s.legacy, s.runs[p], f)
  }

  lemma ClosedStays(s: Sys, a: Action, f: Name)
    requires f != Marker && Closed(s, f) && !AppTouches(a, f)
    ensures Closed(Exec(s, a), f)
  {
    var t := Exec(s, a);
    forall p | p in t.runs
      ensures !CanLink(t.legacy, t.runs[p], f)
    {
      if p in s.runs {
        assert !CanLink(s.legacy, s.runs[p], f);
      }
    }
  }

  lemma {:induction false} ClosedMeansAbsent(s: Sys, actions: seq<Action>, f: Name)
    requires f != Marker && Closed(s, f)
    requires forall i :: 0 <= i < |actions| ==> !AppTouches(actions[i], f)
    ensures f !in Run(s, actions).dest
    decreases |actions|
  {
    hide Exec, CanLink;
    if actions != [] {
      ClosedStays(s, actions[0], f);
      ClosedMeansAbsent(Exec(s, actions[0]), actions[1..], f);
    }
  }

  /** What others can do to get a run past its next call towards file `f`: take the
      other file out of its way, or put back a source it has already looked at.  Where
      no help is needed, some other run starts. */
  function Help(pc: Pc, f: Name): Action
    requires MayCopy(pc, f)
  {
    var n := File(pc.i);
    match pc
    case Looking(_, _) => if n == f then Start(0) else LegacyRemove(n)
    case CheckingSource(_, _) => if n == f then LegacyReplace(n, Regular(0, "")) else LegacyRemove(n)
    case CheckingTarget(_, _, _) => if n == f then Start(0) else AppWrite(n, Regular(0, ""))
    case Opening(_, _, seen) => LegacyReplace(n, Regular(seen, ""))
    case _ => if n == f then Start(0) else AppDelete(n)
  }

  lemma HelpedCloser(s: Sys, p: nat, f: Name)
    requires f != Marker && p in s.runs && MayCopy(s.runs[p], f) && CanLink(s.legacy, s.runs[p], f) && f !in s.dest
    ensures !AppTouches(Help(s.runs[p], f), f)
    ensures var t := Exec(Exec(s, Help(s.runs[p], f)), Advance(p, 0));
            || f in t.dest
            || (p in t.runs && MayCopy(t.runs[p], f) && CanLink(t.legacy, t.runs[p], f)
                && Distance(t.runs[p], f) < Distance(s.runs[p], f))
  {
    hide NextDest;
    var u := Exec(s, Help(s.runs[p], f));
    HelpKeepsRun(s, p, f);
    LinkStep(u, p);
  }

  lemma HelpKeepsRun(s: Sys, p: nat, f: Name)
    requires f != Marker && p in s.runs && MayCopy(s.runs[p], f) && CanLink(s.legacy, s.runs[p], f) && f !in s.dest
    ensures var u := Exec(s, Help(s.runs[p], f));
            && p in u.runs && u.runs[p] == s.runs[p] && f !in u.dest && (f in u.legacy <==> f in s.legacy)
  {
  }

  lemma LinkStep(s: Sys, p: nat)
    requires p in s.runs && !s.runs[p].Finished? && !s.runs[p].Raised?
    ensures var t := Exec(s, Advance(p, 0));
            && p in t.runs && t.runs[p] == NextPc(s.legacy, s.dest, s.runs[p], 0)
            && t.legacy == s.legacy && t.dest == NextDest(s.dest, s.runs[p], 0)
    ensures s.runs[p].Linking? ==> File(s.runs[p].i) in Exec(s, Advance(p, 0)).dest
  {
  }

  lemma {:induction false} HelpedRunResurrects(s: Sys, p: nat, f: Name) returns (actions: seq<Action>)
    requires f != Marker && p in s.runs && MayCopy(s.runs[p], f) && CanLink(s.legacy, s.runs[p], f) && f !in s.dest
    ensures forall i :: 0 <= i < |actions| ==> !AppTouches(actions[i], f)
    ensures f in Run(s, actions).dest
    decreases Distance(s.runs[p], f)
  {
    hide Exec, MayCopy, CanLink, AppTouches;
    HelpedCloser(s, p, f);
    var help := Help(s.runs[p], f);
    var t := Exec(Exec(s, help), Advance(p, 0));
    RunTwo(s, help, Advance(p, 0));
    RunsDoNotTouch(p, f);
    if f in t.dest {
      actions := [help, Advance(p, 0)];
    } else {
      var rest := HelpedRunResurrects(t, p, f);
      actions := [help, Advance(p, 0)] + rest;
      RunSplits(s, [help, Advance(p, 0)], rest);
    }
  }

  lemma RunsDoNotTouch(p: nat, f: Name)
    ensures !AppTouches(Advance(p, 0), f)
  {
  }

  lemma RunTwo(s: Sys, a: Action, b: Action)
    ensures Run(s, [a, b]) == Exec(Exec(s, a), b)
  {
    hide Exec;
    assert [a, b][1..] == [b];
    RunOne(Exec(s, a), b);
  }

  /** Main result.  With the marker published, a missing file can come back without
      the application touching it exactly when some run has read it and is about to
      link it, or the file is still there and some run is past its marker check, has
      not left the file behind and is not stuck at opening the other one. */
  lemma ComesBackIff(s: Sys, f: Name)
    requires f != Marker && Marker in s.dest && f !in s.dest
    ensures CanComeBack(s, f) <==> exists p :: p in s.runs && CanLink(s.legacy, s.runs[p], f)
  {
    hide CanLink, Run, AppTouches;
    if p :| p in s.runs && CanLink(s.legacy, s.runs[p], f) {
      CanLinkMayCopy(s.legacy, s.runs[p], f);
      var actions := HelpedRunResurrects(s, p, f);
    } else {
      assert Closed(s, f);
      forall actions: seq<Action> | forall i :: 0 <= i < |actions| ==> !AppTouches(actions[i], f)
        ensures f !in Run(s, actions).dest
      {
        ClosedMeansAbsent(s, actions, f);
      }
    }
  }

  lemma CanLinkMayCopy(legacy: Dir, pc: Pc, f: Name)
    requires f != Marker && CanLink(legacy, pc, f)
    ensures MayCopy(pc, f)
  {
  }

  function One(b: bool): nat { if b then 1 else 0 }

  /** A run whose check comes after publication copies nothing: it changes no
      entry and reports how many of the two files it sees. */
  lemma LateRunOnlyCounts(s: Sys, p: nat)
    requires p in s.runs && s.runs[p] == Starting && Marker in s.dest
    requires forall n :: n in s.dest ==> s.dest[n].Regular?
    ensures var t := Run(s, [Advance(p, 0), Advance(p, 0), Advance(p, 0)]);
            t.dest == s.dest && p in t.runs && t.runs[p] == Finished(0, One(Session in s.dest) + One(Pkce in s.dest))
  {
    hide Step, Enabled;
    var a := Advance(p, 0);
    LateStep(s, p);
    var s1 := Exec(s, a);
    LateStep(s1, p);
    var s2 := Exec(s1, a);
    LateStep(s2, p);
    assert [a, a, a][1..] == [a, a] && [a, a][1..] == [a] && [a][1..] == [];
    assert Run(s2, [a]) == Run(Exec(s2, a), []);
    assert Run(s1, [a, a]) == Run(s2, [a]);
  }

  lemma LateStep(s: Sys, p: nat)
    requires p in s.runs && (s.runs[p].Starting? || s.runs[p].Counting?) && Marker in s.dest
    requires forall n :: n in s.dest ==> s.dest[n].Regular?
    ensures var t := Exec(s, Advance(p, 0));
            && t.dest == s.dest && p in t.runs
            && if s.runs[p].Starting? then t.runs[p] == Counting(0, 0)
               else var m := if File(s.runs[p].i) in s.dest then s.runs[p].skipped + 1 else s.runs[p].skipped;
                    t.runs[p] == if s.runs[p].i == 0 then Counting(1, m) else Finished(0, m)
  {
  }

  // ------------------------------------------------------ one run by itself

  datatype Outcome = Done(copied: nat, skipped: nat) | UnsafeEntry

  datatype CopyResult = Copied | Kept | Refused

  predicate Refuses(legacy: Dir, dest: Dir, f: Name) {
    f in legacy && (legacy[f].Irregular? || (f in dest && dest[f].Irregular?))
  }

  /** The unsafe entries a run looks at. */
  predicate Raises(legacy: Dir, dest: Dir) {
    if Marker in dest
    then exists n :: n in dest && dest[n] == Irregular
    else Refuses(legacy, dest, Session) || Refuses(legacy, dest, Pkce)
  }

  predicate SameBytes(copy: Entry, source: Entry) {
    copy.Regular? && source.Regular? && copy.bytes == source.bytes
  }

  predicate Untouched(was: Dir, dest: Dir, f: Name) {
    (f in dest <==> f in was) && (f in was ==> dest[f] == was[f])
  }

  /** A gap is filled with the legacy bytes, anything else is left as it was. */
  predicate Handled(legacy: Dir, was: Dir, dest: Dir, f: Name) {
    && !Refuses(legacy, was, f)
    && if f in legacy && f !in was then f in dest && SameBytes(dest[f], legacy[f]) else Untouched(was, dest, f)
  }

  function CopiedOf(legacy: Dir, was: Dir, f: Name): nat { One(f in legacy && f !in was) }

  function SkippedOf(legacy: Dir, was: Dir, f: Name): nat { One(f in legacy && f in was) }

  /** What one undisturbed run does: it raises exactly on an unsafe entry it looks
      at; with a marker it only counts; otherwise it fills exactly the gaps, counts
      every legacy file once, and leaves a marker exactly when there was one. */
  ghost predicate Correct(legacy: Dir, was: Dir, dest: Dir, r: Outcome) {
    && (r.UnsafeEntry? <==> Raises(legacy, was))
    && (r.Done? && Marker in was ==> dest == was && r == Done(0, One(Session in was) + One(Pkce in was)))
    && (r.Done? && Marker !in was ==>
          && Handled(legacy, was, dest, Session) && Handled(legacy, was, dest, Pkce)
          && (Marker in dest <==> Session in legacy || Pkce in legacy)
          && r.copied == CopiedOf(legacy, was, Session) + CopiedOf(legacy, was, Pkce)
          && r.skipped == SkippedOf(legacy, was, Session) + SkippedOf(legacy, was, Pkce))
  }

  /** The vault directory, the legacy directory, and the next free inode. */
  class Vault {
    const legacy: Dir
    var dest: Dir
    var nextInode: nat

    constructor (legacy: Dir, dest: Dir)
      ensures this.legacy == legacy && this.dest == dest
    {
      this.legacy, this.dest, nextInode := legacy, dest, 0;
    }

    /** `_copy_vault_file_atomic` for a source the loop has just seen. */
    method CopyFile(f: Name) returns (r: CopyResult)
      requires f in legacy
      modifies this
      ensures r == if Refuses(legacy, old(dest), f) then Refused else if f in old(dest) then Kept else Copied
      ensures r != Copied ==> dest == old(dest)
      ensures r == Copied ==> f in dest && dest == old(dest)[f := dest[f]] && SameBytes(dest[f], legacy[f])
    {
      if legacy[f].Irregular? {
        return Refused;
      }
      if f in dest {
        return if dest[f].Irregular? then Refused else Kept;
      }
      dest := dest[f := Regular(nextInode, legacy[f].bytes)];
      nextInode := nextInode + 1;
      return Copied;
    }

    /** One run with nobody else about. */
    method Migrate() returns (r: Outcome)
      modifies this
      ensures forall n :: n in old(dest) ==> n in dest && dest[n] == old(dest)[n]
      ensures Correct(legacy, old(dest), dest, r)
    {
      if Marker in dest {
        r := CountExisting();
        return;
      }
      ghost var was := dest;
      var copied, skipped, found := 0, 0, false;
      var i := 0;
      while i < 2
        invariant 0 <= i <= 2
        invariant Untouched(was, dest, Marker)
        invariant if i > 0 then Handled(legacy, was, dest, Session) else Untouched(was, dest, Session)
        invariant if i > 1 then Handled(legacy, was, dest, Pkce) else Untouched(was, dest, Pkce)
        invariant found <==> (i > 0 && Session in legacy) || (i > 1 && Pkce in legacy)
        invariant copied == (if i > 0 then CopiedOf(legacy, was, Session) else 0) +
                            (if i > 1 then CopiedOf(legacy, was, Pkce) else 0)
        invariant skipped == (if i > 0 then SkippedOf(legacy, was, Session) else 0) +
                             (if i > 1 then SkippedOf(legacy, was, Pkce) else 0)
      {
        var f := File(i);
        if f in legacy {
          found := true;
          var c := CopyFile(f);
          if c == Refused {
            forall n | n in was
              ensures n in dest && dest[n] == was[n]
            {
              match n case Session => case Pkce => case Marker =>
            }
            return UnsafeEntry;
          }
          if c == Copied { copied := copied + 1; } else { skipped := skipped + 1; }
        }
        i := i + 1;
      }
      if found {
        dest := dest[Marker := Regular(nextInode, "v1\n")];
        nextInode := nextInode + 1;
      }
      forall n | n in was
        ensures n in dest && dest[n] == was[n]
      {
        match n case Session => case Pkce => case Marker =>
      }
      r := Done(copied, skipped);
    }

    /** The branch taken once the marker is there. */
    method CountExisting() returns (r: Outcome)
      requires Marker in dest
      ensures r == if Raises(legacy, dest) then UnsafeEntry else Done(0, One(Session in dest) + One(Pkce in dest))
    {
      if dest[Marker].Irregular? {
        return UnsafeEntry;
      }
      var skipped, i := 0, 0;
      while i < 2
        invariant 0 <= i <= 2
        invariant skipped == (if i > 0 then One(Session in dest) else 0) + (if i > 1 then One(Pkce in dest) else 0)
        invariant i > 0 && Session in dest ==> dest[Session].Regular?
        invariant i > 1 && Pkce in dest ==> dest[Pkce].Regular?
      {
        if File(i) in dest {
          if dest[File(i)].Irregular? {
            return UnsafeEntry;
          }
          skipped := skipped + 1;
        }
        i := i + 1;
      }
      forall n | n in dest
        ensures dest[n] != Irregular
      {
        match n case Session => case Pkce => case Marker =>
      }
      r := Done(0, skipped);
    }
  }

  // ----------------------------------- the method and the machine, side by side

  ghost function Advanced(s: Sys, p: nat, n: nat): Sys {
    if n == 0 then s else Exec(Advanced(s, p, n - 1), Advance(p, 0))
  }

  lemma {:induction false} AdvancedAgain(s: Sys, p: nat, m: nat, n: nat)
    ensures Advanced(s, p, m + n) == Advanced(Advanced(s, p, m), p, n)
  {
    hide Exec;
    if n > 0 {
      AdvancedAgain(s, p, m, n - 1);
    }
  }

  function Counted(legacy: Dir, dest: Dir, f: Name, t: Tally): Tally {
    Tally(t.copied + CopiedOf(legacy, dest, f), t.skipped + SkippedOf(legacy, dest, f), t.found || f in legacy)
  }

  /** What the machine does with one file when nobody else moves. */
  lemma FileAlone(s: Sys, p: nat, i: Slot, t: Tally) returns (n: nat)
    requires p in s.runs && s.runs[p] == Looking(i, t)
    ensures var u, f := Advanced(s, p, n), File(i);
            && u.legacy == s.legacy && p in u.runs
            && (forall x :: x != f ==> Untouched(s.dest, u.dest, x))
            && if Refuses(s.legacy, s.dest, f) then u.runs[p] == Raised && Untouched(s.dest, u.dest, f)
               else u.runs[p] == AfterFile(i, Counted(s.legacy, s.dest, f, t)) && Handled(s.legacy, s.dest, u.dest, f)
  {
    hide Exec;
    var f := File(i);
    AdvanceOnce(s, p, 0);
    if f !in s.legacy {
      return 1;
    }
    AdvanceOnce(s, p, 1);
    if s.legacy[f].Irregular? {
      return 2;
    }
    AdvanceOnce(s, p, 2);
    if f in s.dest {
      return 3;
    }
    CopyAlone(s, p, i, t);
    n := 5;
  }

  /** The two last calls for a file, which fill a gap. */
  lemma CopyAlone(s: Sys, p: nat, i: Slot, t: Tally)
    requires var u, f := Advanced(s, p, 3), File(i);
             && p in u.runs && u.legacy == s.legacy && u.dest == s.dest && f !in s.dest
             && f in s.legacy && s.legacy[f].Regular?
             && u.runs[p] == Opening(i, t.(found := true), s.legacy[f].inode)
    ensures var u, f := Advanced(s, p, 5), File(i);
            && u.legacy == s.legacy && p in u.runs
            && u.dest == s.dest[f := Regular(0, s.legacy[f].bytes)]
            && u.runs[p] == AfterFile(i, Tally(t.copied + 1, t.skipped, true))
  {
    hide Exec;
    AdvanceOnce(s, p, 3);
    AdvanceOnce(s, p, 4);
  }

  /** One more call of a run that is not over. */
  lemma AdvanceOnce(s: Sys, p: nat, n: nat)
    requires p in Advanced(s, p, n).runs
    ensures var u, v := Advanced(s, p, n), Advanced(s, p, n + 1);
            u.runs[p].Finished? || u.runs[p].Raised? ||
            (v.legacy == u.legacy && v.dest == NextDest(u.dest, u.runs[p], 0)
             && p in v.runs && v.runs[p] == NextPc(u.legacy, u.dest, u.runs[p], 0))
  {
  }

  /** Main result.  The step machine, run alone from the start, ends with an
      outcome and a vault that meet the same specification as the method. */
  lemma AloneIsCorrect(s: Sys, p: nat) returns (n: nat, r: Outcome)
    requires p in s.runs && s.runs[p] == Starting
    ensures var u := Advanced(s, p, n);
            && p in u.runs && Correct(s.legacy, s.dest, u.dest, r)
            && u.runs[p] == match r case Done(c, k) => Finished(c, k) case UnsafeEntry => Raised
  {
    hide Exec, Handled, Refuses;
    if Marker in s.dest {
      n, r := CountAlone(s, p);
    } else {
      FirstStep(s, p);
      var s1 := Advanced(s, p, 1);
      var m := FileAlone(s1, p, 0, Tally(0, 0, false));
      AdvancedAgain(s, p, 1, m);
      var s2 := Advanced(s, p, 1 + m);
      RefusalRaises(s);
      if Refuses(s.legacy, s.dest, Session) {
        return 1 + m, UnsafeEntry;
      }
      var t := Counted(s.legacy, s.dest, Session, Tally(0, 0, false));
      var k := FileAlone(s2, p, 1, t);
      AdvancedAgain(s, p, 1 + m, k);
      var s3 := Advanced(s, p, 1 + m + k);
      assert Untouched(s1.dest, s2.dest, Pkce) && Untouched(s2.dest, s3.dest, Session);
      assert Untouched(s1.dest, s2.dest, Marker) && Untouched(s2.dest, s3.dest, Marker);
      SameThroughOther(s.legacy, s.dest, s2.dest, s3.dest);
      if Refuses(s.legacy, s.dest, Pkce) {
        return 1 + m + k, UnsafeEntry;
      }
      var all := Counted(s.legacy, s2.dest, Pkce, t);
      r := Done(all.copied, all.skipped);
      n := 1 + m + k;
      if all.found {
        MarkerAlone(s3, p, all);
        AdvancedAgain(s, p, n, 2);
        n := n + 2;
        KeptThroughMarker(s.legacy, s.dest, s3.dest, Advanced(s, p, n).dest);
      }
    }
  }

  // ------------------------------------------------ a run that brings a file back

  lemma {:induction false} RunSplits(s: Sys, before: seq<Action>, after: seq<Action>)
    ensures Run(s, before + after) == Run(Run(s, before), after)
    decreases |before|
  {
    hide Exec;
    if before == [] {
      assert before + after == after;
    } else {
      RunSplits(Exec(s, before[0]), before[1..], after);
      assert (before + after)[1..] == before[1..] + after;
    }
  }

  lemma RunOne(s: Sys, a: Action)
    ensures Run(s, [a]) == Exec(s, a)
  {
    hide Exec;
    assert [a][1..] == [] && Run(Exec(s, a), []) == Exec(s, a);
  }

  function Alone(p: nat, n: nat): seq<Action> {
    seq(n, _ => Advance(p, 0))
  }

  lemma {:induction false} AloneIsAdvanced(s: Sys, p: nat, n: nat)
    ensures Run(s, Alone(p, n)) == Advanced(s, p, n)
  {
    hide Exec;
    if n > 0 {
      AloneIsAdvanced(s, p, n - 1);
      assert Alone(p, n) == Alone(p, n - 1) + [Advance(p, 0)];
      RunSplits(s, Alone(p, n - 1), [Advance(p, 0)]);
      RunOne(Run(s, Alone(p, n - 1)), Advance(p, 0));
    }
  }

  lemma {:induction false} OthersWait(s: Sys, p: nat, q: nat, n: nat)
    requires p != q && q in s.runs
    ensures q in Advanced(s, p, n).runs && Advanced(s, p, n).runs[q] == s.runs[q]
    ensures Advanced(s, p, n).runs.Keys == s.runs.Keys
  {
    if n > 0 {
      OthersWait(s, p, q, n - 1);
    }
  }

  const OLD_VAULT: Dir := map[Session := Regular(1, "secret")]

  /** Two runs begin; the first passes its marker check, the second goes all the way
      and publishes the marker; then the application deletes the file. */
  const OVERLAP := [Start(0), Advance(0, 0), Start(1)] + Alone(1, 9) + [AppDelete(Session)]

  /** A state that `PassedRunResurrects` speaks about is reached from the start. */
  lemma OverlapIsReachable()
    ensures var s := Run(Sys(OLD_VAULT, map[], map[], {}), OVERLAP);
            && Marker in s.dest && Session !in s.dest && Session in s.legacy
            && (forall p :: p in s.runs ==> Tidy(s, p))
            && 0 in s.runs && MayCopy(s.runs[0], Session)
  {
    hide Exec, Tidy, MayCopy, Advanced, Run, Alone;
    var s0 := Sys(OLD_VAULT, map[], map[], {});
    var s1 := Sys(OLD_VAULT, map[], map[0 := Looking(0, Tally(0, 0, false)), 1 := Starting], {});
    OverlapBegins();
    var s2 := Advanced(s1, 1, 9);
    SecondRunFinishes(s1);
    OthersWait(s1, 1, 0, 9);
    RunSplits(s0, [Start(0), Advance(0, 0), Start(1)], Alone(1, 9) + [AppDelete(Session)]);
    RunSplits(s1, Alone(1, 9), [AppDelete(Session)]);
    AloneIsAdvanced(s1, 1, 9);
    RunOne(s2, AppDelete(Session));
    assert OVERLAP == [Start(0), Advance(0, 0), Start(1)] + (Alone(1, 9) + [AppDelete(Session)]);
    DeletedAfterwards(s2);
  }

  lemma OverlapBegins()
    ensures Run(Sys(OLD_VAULT, map[], map[], {}), [Start(0), Advance(0, 0), Start(1)]) ==
            Sys(OLD_VAULT, map[], map[0 := Looking(0, Tally(0, 0, false)), 1 := Starting], {})
  {
    var s0 := Sys(OLD_VAULT, map[], map[], {});
    var a, b, c := Start(0), Advance(0, 0), Start(1);
    var sa := Sys(OLD_VAULT, map[], map[0 := Starting], {});
    var sb := Sys(OLD_VAULT, map[], map[0 := Looking(0, Tally(0, 0, false))], {});
    assert Exec(s0, a) == sa && Exec(sa, b) == sb;
    assert [a, b, c][1..] == [b, c] && [b, c][1..] == [c];
    RunOne(sb, c);
    assert Run(sa, [b, c]) == Run(sb, [c]);
    assert Run(s0, [a, b, c]) == Run(sa, [b, c]);
  }

  lemma SecondRunFinishes(s: Sys)
    requires s == Sys(OLD_VAULT, map[], map[0 := Looking(0, Tally(0, 0, false)), 1 := Starting], {})
    ensures var u := Advanced(s, 1, 9);
            && u.legacy == OLD_VAULT && 1 in u.runs && u.runs[1] == Finished(1, 0)
            && u.dest == map[Session := Regular(0, "secret"), Marker := Regular(0, "v1\n")]
  {
    hide Exec;
    AdvanceOnce(s, 1, 0);
    AdvanceOnce(s, 1, 1);
    AdvanceOnce(s, 1, 2);
    AdvanceOnce(s, 1, 3);
    AdvanceOnce(s, 1, 4);
    AdvanceOnce(s, 1, 5);
    AdvanceOnce(s, 1, 6);
    AdvanceOnce(s, 1, 7);
    AdvanceOnce(s, 1, 8);
  }

  lemma DeletedAfterwards(s: Sys)
    requires s.legacy == OLD_VAULT && s.runs.Keys == {0, 1}
    requires s.dest == map[Session := Regular(0, "secret"), Marker := Regular(0, "v1\n")]
    requires s.runs[0] == Looking(0, Tally(0, 0, false)) && s.runs[1] == Finished(1, 0)
    ensures var t := Exec(s, AppDelete(Session));
            && Marker in t.dest && Session !in t.dest && Session in t.legacy
            && (forall p :: p in t.runs ==> Tidy(t, p))
            && 0 in t.runs && MayCopy(t.runs[0], Session)
  {
  }

  /** So the whole run exists: the deleted file is back, and the application never
      wrote it. */
  lemma DeletedFileComesBack() returns (rest: seq<Action>)
    ensures forall i :: 0 <= i < |rest| ==> !AppTouches(rest[i], Session)
    ensures var s := Run(Sys(OLD_VAULT, map[], map[], {}), OVERLAP);
            Marker in s.dest && Session !in s.dest
    ensures Session in Run(Sys(OLD_VAULT, map[], map[], {}), OVERLAP + rest).dest
  {
    hide Exec, Tidy, MayCopy;
    OverlapIsReachable();
    var s := Run(Sys(OLD_VAULT, map[], map[], {}), OVERLAP);
    rest := PassedRunResurrects(s, 0, Session);
    RunSplits(Sys(OLD_VAULT, map[], map[], {}), OVERLAP, rest);
  }

  lemma FirstStep(s: Sys, p: nat)
    requires p in s.runs && s.runs[p] == Starting && Marker !in s.dest
    ensures Advanced(s, p, 1) ==
            s.(runs := s.runs[p := Looking(0, Tally(0, 0, false))], deleted := s.deleted - s.dest.Keys)
  {
    assert Advanced(s, p, 0) == s;
  }

  lemma RefusalRaises(s: Sys)
    requires Marker !in s.dest
    ensures Raises(s.legacy, s.dest) <==> Refuses(s.legacy, s.dest, Session) || Refuses(s.legacy, s.dest, Pkce)
  {
  }

  /** Handling one file changes nothing about the other. */
  lemma SameThroughOther(legacy: Dir, was: Dir, mid: Dir, dest: Dir)
    requires Untouched(was, mid, Pkce) && Untouched(mid, dest, Session)
    ensures Refuses(legacy, mid, Pkce) == Refuses(legacy, was, Pkce)
    ensures Handled(legacy, was, mid, Session) ==> Handled(legacy, was, dest, Session)
    ensures Handled(legacy, mid, dest, Pkce) ==> Handled(legacy, was, dest, Pkce)
  {
  }

  lemma KeptThroughMarker(legacy: Dir, was: Dir, mid: Dir, dest: Dir)
    requires Untouched(mid, dest, Session) && Untouched(mid, dest, Pkce)
    ensures forall f :: f != Marker && Handled(legacy, was, mid, f) ==> Handled(legacy, was, dest, f)
  {
  }

  lemma MarkerAlone(s: Sys, p: nat, t: Tally)
    requires p in s.runs && s.runs[p] == Publishing(t) && Marker !in s.dest
    ensures var u := Advanced(s, p, 2);
            && p in u.runs && u.runs[p] == Finished(t.copied, t.skipped) && Marker in u.dest
            && Untouched(s.dest, u.dest, Session) && Untouched(s.dest, u.dest, Pkce)
  {
    AdvanceOnce(s, p, 0);
    AdvanceOnce(s, p, 1);
  }

  lemma CountAlone(s: Sys, p: nat) returns (n: nat, r: Outcome)
    requires p in s.runs && s.runs[p] == Starting && Marker in s.dest
    ensures var u := Advanced(s, p, n);
            && p in u.runs && Correct(s.legacy, s.dest, u.dest, r)
            && u.runs[p] == match r case Done(c, k) => Finished(c, k) case UnsafeEntry => Raised
  {
    hide Exec;
    AdvanceOnce(s, p, 0);
    if s.dest[Marker].Irregular? {
      return 1, UnsafeEntry;
    }
    AdvanceOnce(s, p, 1);
    if Session in s.dest && s.dest[Session].Irregular? {
      return 2, UnsafeEntry;
    }
    AdvanceOnce(s, p, 2);
    if Pkce in s.dest && s.dest[Pkce].Irregular? {
      return 3, UnsafeEntry;
    }
    forall x | x in s.dest
      ensures s.dest[x] != Irregular
    {
      match x case Session => case Pkce => case Marker =>
    }
    return 3, Done(0, One(Session in s.dest) + One(Pkce in s.dest));
  }
}
