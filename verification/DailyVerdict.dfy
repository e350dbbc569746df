/** What the verifier of an existing edition accepts, for any directory whatsoever. */
module DailyVerdict {
  import opened Wrappers
  import opened Text
  import opened DailyPackage

  ghost predicate Lists(entries: seq<Entry>, name: string) {
    exists i :: 0 <= i < |entries| && entries[i].name == name
  }

  lemma {:induction false} ByNameIff(entries: seq<Entry>)
    ensures ByName(entries).Some? <==>
            && (forall i, j :: 0 <= i < j < |entries| ==> entries[i].name != entries[j].name)
            && (forall i :: 0 <= i < |entries| ==> IsBasename(entries[i].name))
    ensures ByName(entries).Some? ==>
              && (forall n :: n in ByName(entries).value <==> Lists(entries, n))
              && (forall i :: 0 <= i < |entries| ==>
                    entries[i].name in ByName(entries).value &&
                    ByName(entries).value[entries[i].name] == entries[i].digest)
  {
    hide IsBasename, Lists;
    if entries == [] {
      NothingListed();
    } else {
      var init, e := entries[..|entries| - 1], entries[|entries| - 1];
      ByNameIff(init);
      assert forall i :: 0 <= i < |init| ==> entries[i] == init[i];
      forall n
        ensures Lists(entries, n) <==> Lists(init, n) || n == e.name
      {
        ListsMore(entries, n);
      }
      if Lists(init, e.name) {
        var i := ListedAt(init, e.name);
        assert entries[i].name == entries[|entries| - 1].name;
      } else {
        NotListed(init, e.name);
      }
    }
  }

  lemma NothingListed()
    ensures forall n :: !Lists([], n)
  {
  }

  lemma ListsMore(entries: seq<Entry>, name: string)
    requires entries != []
    ensures Lists(entries, name) <==>
            Lists(entries[..|entries| - 1], name) || name == entries[|entries| - 1].name
  {
    var init := entries[..|entries| - 1];
    if i :| 0 <= i < |init| && init[i].name == name {
      assert entries[i].name == name;
    }
    if i :| 0 <= i < |entries| && entries[i].name == name {
      assert i < |init| ==> init[i].name == name;
    }
  }

  lemma ListedAt(entries: seq<Entry>, name: string) returns (i: int)
    requires Lists(entries, name)
    ensures 0 <= i < |entries| && entries[i].name == name
  {
    i :| 0 <= i < |entries| && entries[i].name == name;
  }

  lemma NotListed(entries: seq<Entry>, name: string)
    requires !Lists(entries, name)
    ensures forall i :: 0 <= i < |entries| ==> entries[i].name != name
  {
  }

  lemma BasenameIff(name: string)
    ensures IsBasename(name) <==> |name| > 0 && '/' !in name
  {
  }

  /** The extension test, in either case of each letter. */
  lemma DocxIff(name: string)
    ensures IsDocx(name) <==>
            exists stem, e: string :: name == stem + e && |e| == 5 && e[0] == '.' && e[1] in "dD" && e[2] in "oO" &&
              e[3] in "cC" && e[4] in "xX"
  {
    if |name| >= 5 {
      var stem, e := name[..|name| - 5], name[|name| - 5..];
      assert name == stem + e;
    }
    forall stem, e: string | name == stem + e && |e| == 5
      ensures e == name[|name| - 5..]
    {
    }
  }

  /** The manifest is this request's: same content, schema, edition, count and mode. */
  predicate ManifestAgrees(f: File, r: Request) {
    && f.Manifest? && f.content == r.content && f.schemaVersion == 1
    && f.edition == r.edition && f.expectedCount == 5 && f.mode == r.mode
  }

  /** It lists exactly the six documents, each once, under plain names. */
  ghost predicate ListsExactly(entries: seq<Entry>, names: seq<string>) {
    && |entries| == 6
    && (forall i, j :: 0 <= i < j < |entries| ==> entries[i].name != entries[j].name)
    && (forall i :: 0 <= i < |entries| ==> |entries[i].name| > 0 && '/' !in entries[i].name)
    && (forall n :: n in names <==> Lists(entries, n))
  }

  /** Main result.  For any directory: an existing edition is accepted exactly when its
      manifest is this request's, lists exactly the six documents of the request, the
      documents there are exactly those, and every one of them has the bytes whose
      digest is listed for its name. */
  lemma AcceptedIff(pkg: Package, r: Request)
    requires r.Valid()
    ensures Verify(pkg, r) == Accepted <==>
            && ".codex-ingest.json" in pkg
            && ManifestAgrees(pkg[".codex-ingest.json"], r)
            && var listed := pkg[".codex-ingest.json"].documents;
               && ListsExactly(listed, DocNames(r))
               && (forall n :: n in pkg && IsDocx(n) <==> n in DocNames(r))
               && (forall i :: 0 <= i < |listed| ==>
                     listed[i].name in pkg && pkg[listed[i].name] == Doc(listed[i].digest))
  {
    hide DocNames, IsDocx, IsBasename, ByName, DigestsMatch, NameSet, Lists;
    if MANIFEST_NAME in pkg && pkg[MANIFEST_NAME].Manifest? {
      var m := pkg[MANIFEST_NAME];
      var names := DocNames(r);
      ByNameIff(m.documents);
      forall i | 0 <= i < |m.documents|
        ensures IsBasename(m.documents[i].name) <==> |m.documents[i].name| > 0 && '/' !in m.documents[i].name
      {
        BasenameIff(m.documents[i].name);
      }
      if |m.documents| == 6 && ByName(m.documents).Some? {
        SameNamesIff(m.documents, names);
        if ByName(m.documents).value.Keys == NameSet(names) {
          SameDigestsIff(pkg, m.documents, names);
        }
      }
      SameDocumentsIff(pkg, names);
    }
  }

  lemma SameNamesIff(entries: seq<Entry>, names: seq<string>)
    requires ByName(entries).Some?
    ensures ByName(entries).value.Keys == NameSet(names) <==> forall n :: n in names <==> Lists(entries, n)
  {
    hide IsBasename, ByName, Lists;
    ByNameIff(entries);
    var keys := ByName(entries).value.Keys;
    assert forall n :: n in keys <==> Lists(entries, n);
    assert forall n :: n in NameSet(names) <==> n in names;
    if forall n :: n in names <==> Lists(entries, n) {
      assert forall n :: n in keys <==> n in NameSet(names);
    }
    if keys == NameSet(names) {
      forall n
        ensures n in names <==> Lists(entries, n)
      {
        assert n in keys <==> n in NameSet(names);
      }
    }
  }

  lemma SameDocumentsIff(pkg: Package, names: seq<string>)
    ensures DocxOf(pkg) == NameSet(names) <==> forall n :: n in pkg && IsDocx(n) <==> n in names
  {
    hide IsDocx;
    if forall n :: n in pkg && IsDocx(n) <==> n in names {
      assert forall n :: n in DocxOf(pkg) <==> n in NameSet(names);
    }
    if DocxOf(pkg) == NameSet(names) {
      forall n
        ensures n in pkg && IsDocx(n) <==> n in names
      {
        assert n in DocxOf(pkg) <==> n in NameSet(names);
      }
    }
  }

  lemma SameDigestsIff(pkg: Package, entries: seq<Entry>, names: seq<string>)
    requires ByName(entries).Some? && ByName(entries).value.Keys == NameSet(names)
    ensures DigestsMatch(pkg, names, ByName(entries).value) <==>
            forall i :: 0 <= i < |entries| ==> entries[i].name in pkg && pkg[entries[i].name] == Doc(entries[i].digest)
  {
    hide IsBasename, ByName;
    ByNameIff(entries);
    var byName := ByName(entries).value;
    if forall i :: 0 <= i < |entries| ==> entries[i].name in pkg && pkg[entries[i].name] == Doc(entries[i].digest) {
      forall k | 0 <= k < |names|
        ensures names[k] in pkg && pkg[names[k]] == Doc(byName[names[k]])
      {
        assert names[k] in NameSet(names) && names[k] in byName;
        var i := ListedAt(entries, names[k]);
      }
    }
    if DigestsMatch(pkg, names, byName) {
      forall i | 0 <= i < |entries|
        ensures entries[i].name in pkg && pkg[entries[i].name] == Doc(entries[i].digest)
      {
        assert entries[i].name in NameSet(names);
        var k :| 0 <= k < |names| && names[k] == entries[i].name;
      }
    }
  }

  /** Another content is a conflict, exactly when the manifest can be read at all. */
  lemma ConflictIff(pkg: Package, r: Request)
    requires r.Valid()
    ensures Verify(pkg, r) == EditionConflict <==>
            ".codex-ingest.json" in pkg && pkg[".codex-ingest.json"].Manifest? &&
            pkg[".codex-ingest.json"].content != r.content
  {
    hide DocNames, ByName;
  }

  // ------------------------------------------------------------ the six names

  /** The names, written out. */
  lemma NamesWrittenOut(r: Request)
    requires r.Valid()
    ensures DocNames(r) ==
            ["01_" + SafeFilename(r.titles[0]) + ".docx", "02_" + SafeFilename(r.titles[1]) + ".docx",
             "03_" + SafeFilename(r.titles[2]) + ".docx", "04_" + SafeFilename(r.titles[3]) + ".docx",
             "05_" + SafeFilename(r.titles[4]) + ".docx", "要讯汇编_" + r.edition + "_共5篇.docx"]
  {
    hide SafeFilename;
    assert "01" + "_" == "01_" && "02" + "_" == "02_" && "03" + "_" == "03_";
    assert "04" + "_" == "04_" && "05" + "_" == "05_";
  }

  /** Exactly these characters are dropped. */
  lemma UnsafeIff(c: char)
    ensures Unsafe(c) <==>
            c == '\\' || c == '/' || c == ':' || c == '*' || c == '?' || c == '"' || c == '<' || c == '>' || c == '|' ||
            c == '\r' || c == '\n' || c == '\t'
  {
  }

  // ------------------------------------------------------- what a title becomes

  /** An unsafe character is dropped wherever it stands. */
  lemma {:induction false} UnsafeIsDropped(before: string, c: char, after: string)
    requires c == '\\' || c == '/' || c == ':' || c == '*' || c == '?' || c == '"' || c == '<' || c == '>' ||
             c == '|' || c == '\r' || c == '\n' || c == '\t'
    ensures SafeFilename(before + [c] + after) == SafeFilename(before + after)
  {
    hide Strip, SafeFilename;
    DropsInside(before, c, after);
    SameDroppedSameName(before + [c] + after, before + after);
  }

  lemma {:induction false} DropsInside(before: string, c: char, after: string)
    requires Unsafe(c)
    ensures DropUnsafe(before + [c] + after) == DropUnsafe(before + after)
  {
    var s := before + [c] + after;
    if before == "" {
      assert s[0] == c && s[1..] == after && before + after == after;
    } else {
      DropsInside(before[1..], c, after);
      assert s[1..] == before[1..] + [c] + after && (before + after)[1..] == before[1..] + after;
    }
  }

  lemma SameDroppedSameName(s: string, t: string)
    requires DropUnsafe(s) == DropUnsafe(t)
    ensures SafeFilename(s) == SafeFilename(t)
  {
    hide Strip, DropUnsafe;
  }

  /** A title without such characters is stripped, replaced by a stock word when that
      leaves nothing, and cut to forty characters. */
  lemma SafeTitleIsCut(title: string)
    requires forall i :: 0 <= i < |title| ==> !Unsafe(title[i])
    ensures var kept := Strip(title);
            SafeFilename(title) == if kept == "" then "要讯" else if |kept| > 40 then kept[..40] else kept
  {
    hide Strip;
    NothingDropped(title);
  }

  lemma {:induction false} NothingDropped(s: string)
    requires forall i :: 0 <= i < |s| ==> !Unsafe(s[i])
    ensures DropUnsafe(s) == s
  {
    hide Unsafe;
    if s != "" {
      NothingDropped(s[1..]);
    }
  }
}
