/** One ingest as the function of the source: it stages file by file, renames, and
    verifies what is there with the loops of the verifier. */
module DailyStore {
  import opened Wrappers
  import opened DailyPackage
  import opened DailyIngest

  /** The loop that reads the manifest's entries into a table. */
  method ReadEntries(entries: seq<Entry>) returns (byName: Option<map<string, string>>)
    ensures byName == ByName(entries)
  {
    var m: map<string, string> := map[];
    for i := 0 to |entries|
      invariant ByName(entries[..i]) == Some(m)
    {
      var e := entries[i];
      assert entries[..i + 1][..i] == entries[..i];
      if !IsBasename(e.name) || e.name in m {
        NoTableAfter(entries, i + 1);
        return None;
      }
      m := m[e.name := e.digest];
    }
    assert entries[..|entries|] == entries;
    return Some(m);
  }

  /** One bad entry spoils the whole manifest. */
  lemma {:induction false} NoTableAfter(entries: seq<Entry>, k: nat)
    requires k <= |entries| && ByName(entries[..k]) == None
    ensures ByName(entries) == None
    decreases |entries| - k
  {
    if k == |entries| {
      assert entries[..k] == entries;
    } else {
      assert entries[..k + 1][..k] == entries[..k];
      NoTableAfter(entries, k + 1);
    }
  }

  /** `_verify_existing_daily_brief_ingest`. */
  method VerifyExisting(pkg: Package, r: Request) returns (v: Verdict)
    requires r.Valid()
    ensures v == Verify(pkg, r)
  {
    hide ByName, IsDocx, DocNames;
    if MANIFEST_NAME !in pkg || !pkg[MANIFEST_NAME].Manifest? {
      return OutputInvalid;
    }
    var m := pkg[MANIFEST_NAME];
    if m.content != r.content {
      return EditionConflict;
    }
    if m.schemaVersion != 1 || m.edition != r.edition || m.expectedCount != 5 || m.mode != r.mode {
      return OutputInvalid;
    }
    var names := DocNames(r);
    if |m.documents| != |names| {
      return OutputInvalid;
    }
    var table := ReadEntries(m.documents);
    if table.None? || table.value.Keys != NameSet(names) || DocxOf(pkg) != NameSet(names) {
      return OutputInvalid;
    }
    for i := 0 to |names|
      invariant forall k :: 0 <= k < i ==> names[k] in pkg && pkg[names[k]] == Doc(table.value[names[k]])
    {
      if names[i] !in pkg || pkg[names[i]] != Doc(table.value[names[i]]) {
        return OutputInvalid;
      }
    }
    return Accepted;
  }

  /** What one ingest meets on its way. */
  datatype Weather = Weather(historyRefuses: bool, buildFails: bool, failsAt: nat, renameFails: bool)

  class EditionShelf {
    var target: Option<Package>

    constructor ()
      ensures target == None
    {
      target := None;
    }

    /** Write the six documents and the manifest into a staging directory; writing
        file number `failsAt` raises, and nothing outside the directory changes. */
    method Stage(r: Request, bytes: seq<string>, createdAt: string, failsAt: nat) returns (stage: Option<Package>)
      requires r.Valid() && PlainEdition(r.edition) && |bytes| == 6
      ensures stage == if failsAt <= 6 then None else Some(Complete(r, bytes, createdAt))
    {
      var names := DocNames(r);
      var written: Package := map[];
      for i := 0 to 6
        invariant written == Docs(names, bytes, i)
        invariant failsAt >= i
      {
        if failsAt == i {
          return None;
        }
        FreshName(r, bytes, i);
        assert names[i] !in written;
        written := written[names[i] := Doc(bytes[i])];
      }
      if failsAt == 6 {
        return None;
      }
      return Some(written[MANIFEST_NAME := ManifestFor(r, bytes, createdAt)]);
    }

    /** `ingest_codex_daily_briefs` after its input has been validated.  The shelf
        changes only when nothing was there and everything went well, and then to
        the complete package at once; with a package there the verifier decides. */
    method Ingest(r: Request, bytes: seq<string>, createdAt: string, w: Weather) returns (o: DailyIngest.Outcome)
      requires r.Valid() && PlainEdition(r.edition) && |bytes| == 6
      modifies this
      ensures old(target).Some? ==> target == old(target)
      ensures old(target).Some? ==>
                o == if Verify(old(target).value, r) == Accepted then Done(true)
                     else Rejected(Verify(old(target).value, r))
      ensures old(target).None? ==>
                o == if w.historyRefuses then HistoryRefused
                     else if w.buildFails then BuildFailed
                     else if w.failsAt <= 6 || w.renameFails then WriteFailed
                     else Done(false)
      ensures old(target).None? ==>
                target == if o == Done(false) then Some(Complete(r, bytes, createdAt)) else None
    {
      if target.Some? {
        var v := VerifyExisting(target.value, r);
        return if v == Accepted then Done(true) else Rejected(v);
      }
      if w.historyRefuses {
        return HistoryRefused;
      }
      if w.buildFails {
        return BuildFailed;
      }
      var stage := Stage(r, bytes, createdAt, w.failsAt);
      if stage.None? || w.renameFails {
        return WriteFailed;
      }
      target := stage;
      return Done(false);
    }
  }

  lemma FreshName(r: Request, bytes: seq<string>, i: nat)
    requires r.Valid() && PlainEdition(r.edition) && |bytes| == 6 && i < 6
    ensures DocNames(r)[i] !in Docs(DocNames(r), bytes, i)
  {
    hide DocNames, IsDocx, IsBasename;
    NamesAreGood(r);
    DocsHold(DocNames(r), bytes, i);
  }
}
