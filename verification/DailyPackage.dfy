/** The six-document package of one daily edition, and the verifier that accepts
    an existing package as an idempotent retry. */
module DailyPackage {
  import opened Wrappers
  import opened Text

  datatype Mode = Daily | Recovery(date: string)

  /** A validated ingest: the canonical input, the five titles in it, its mode. */
  datatype Request = Request(edition: string, content: string, titles: seq<string>, mode: Mode) {
    predicate Valid() { |titles| == 5 }
  }

  /** A document's digest is its content; hashing is injective for the model. */
  datatype Entry = Entry(name: string, digest: string)

  datatype File =
    | Doc(bytes: string)
    | Manifest(schemaVersion: int, edition: string, expectedCount: int, content: string,
               createdAt: string, mode: Mode, documents: seq<Entry>)

  /** The files of a directory by name. */
  type Package = map<string, File>

  const MANIFEST_NAME := ".codex-ingest.json"

  datatype Verdict = Accepted | EditionConflict | OutputInvalid

  // ---------------------------------------------------------- document names

  predicate Unsafe(c: char) {
    c in {'\\', '/', ':', '*', '?', '"', '<', '>', '|', '\r', '\n', '\t'}
  }

  function DropUnsafe(s: string): (r: string)
    ensures Safe(r)
  {
    if s == "" then ""
    else (if Unsafe(s[0]) then "" else [s[0]]) + DropUnsafe(s[1..])
  }

  predicate Safe(s: string) {
    forall i :: 0 <= i < |s| ==> !Unsafe(s[i])
  }

  lemma {:induction false} LStripIsSafe(s: string)
    requires Safe(s)
    ensures Safe(LStrip(s))
  {
    hide Unsafe;
    if s != "" && IsSpace(s[0]) {
      assert Safe(s[1..]);
      LStripIsSafe(s[1..]);
    }
  }

  lemma {:induction false} RStripIsSafe(s: string)
    requires Safe(s)
    ensures Safe(RStrip(s))
  {
    hide Unsafe;
    if s != "" && IsSpace(s[|s| - 1]) {
      assert Safe(s[..|s| - 1]);
      RStripIsSafe(s[..|s| - 1]);
    }
  }

  function SafeFilename(title: string): (r: string)
    ensures |r| <= 40 && Safe(r)
  {
    var dropped := DropUnsafe(title);
    var kept := Strip(dropped);
    KeptIsSafe(dropped);
    if kept == "" then "要讯" else if |kept| <= 40 then kept else kept[..40]
  }

  lemma KeptIsSafe(s: string)
    requires Safe(s)
    ensures Safe(Strip(s)) && Safe("要讯")
    ensures |Strip(s)| > 40 ==> Safe(Strip(s)[..40])
  {
    LStripIsSafe(s);
    RStripIsSafe(LStrip(s));
  }

  /** Two digits, for an index from one to five. */
  function Index2(i: nat): string
    requires 1 <= i <= 5
  {
    match i case 1 => "01" case 2 => "02" case 3 => "03" case 4 => "04" case _ => "05"
  }

  function DocName(i: nat, title: string): string
    requires 1 <= i <= 5
  {
    Index2(i) + "_" + SafeFilename(title) + ".docx"
  }

  function CompiledName(edition: string): string {
    "要讯汇编_" + edition + "_共5篇.docx"
  }

  function DocNames(r: Request): (names: seq<string>)
    requires r.Valid()
    ensures |names| == 6
  {
    [DocName(1, r.titles[0]), DocName(2, r.titles[1]), DocName(3, r.titles[2]),
     DocName(4, r.titles[3]), DocName(5, r.titles[4]), CompiledName(r.edition)]
  }

  function LowerAscii(c: char): char {
    if 'A' <= c <= 'Z' then (c as int + 32) as char else c
  }

  predicate IsDocx(name: string) {
    |name| >= 5 && var e := name[|name| - 5..];
    e[0] == '.' && LowerAscii(e[1]) == 'd' && LowerAscii(e[2]) == 'o' &&
    LowerAscii(e[3]) == 'c' && LowerAscii(e[4]) == 'x'
  }

  predicate IsBasename(name: string) {
    name != "" && forall i :: 0 <= i < |name| ==> name[i] != '/'
  }

  lemma DocNameShape(i: nat, title: string)
    requires 1 <= i <= 5
    ensures var n := DocName(i, title);
            IsDocx(n) && n != MANIFEST_NAME && IsBasename(n) && n[..2] == Index2(i)
  {
    var n := DocName(i, title);
    assert n[|n| - 5..] == ".docx";
    forall k | 0 <= k < |n|
      ensures n[k] != '/'
    {
      var stem := SafeFilename(title);
      assert n[k] == if k < 2 then Index2(i)[k] else if k == 2 then '_'
                     else if k < 3 + |stem| then stem[k - 3] else ".docx"[k - 3 - |stem|];
      if 3 <= k < 3 + |stem| {
        assert !Unsafe(stem[k - 3]);
      }
    }
  }

  predicate PlainEdition(edition: string) {
    forall i :: 0 <= i < |edition| ==> edition[i] != '/'
  }

  lemma CompiledNameShape(edition: string)
    requires PlainEdition(edition)
    ensures var n := CompiledName(edition);
            IsDocx(n) && n != MANIFEST_NAME && IsBasename(n) && n[0] == '要'
  {
    var n := CompiledName(edition);
    assert n[|n| - 5..] == ".docx";
    forall k | 0 <= k < |n|
      ensures n[k] != '/'
    {
      assert n[k] == if k < 5 then "要讯汇编_"[k]
                     else if k < 5 + |edition| then edition[k - 5]
                     else "_共5篇.docx"[k - 5 - |edition|];
    }
  }

  /** The six names of a request are distinct documents, whatever the titles. */
  lemma NamesAreGood(r: Request)
    requires r.Valid() && PlainEdition(r.edition)
    ensures var names := DocNames(r);
            && Distinct(names)
            && (forall i :: 0 <= i < 6 ==> IsDocx(names[i]) && names[i] != MANIFEST_NAME && IsBasename(names[i]))
  {
    hide DocName, CompiledName, IsDocx, IsBasename;
    DocNameShape(1, r.titles[0]);
    DocNameShape(2, r.titles[1]);
    DocNameShape(3, r.titles[2]);
    DocNameShape(4, r.titles[3]);
    DocNameShape(5, r.titles[4]);
    CompiledNameShape(r.edition);
  }

  // ----------------------------------------------------- building, verifying

  function Entries(names: seq<string>, bytes: seq<string>): (e: seq<Entry>)
    requires |names| == |bytes|
  {
    seq(|names|, i requires 0 <= i < |names| => Entry(names[i], bytes[i]))
  }

  function ManifestFor(r: Request, bytes: seq<string>, createdAt: string): File
    requires r.Valid() && |bytes| == 6
  {
    Manifest(1, r.edition, 5, r.content, createdAt, r.mode, Entries(DocNames(r), bytes))
  }

  /** The documents written so far into the staging directory. */
  function Docs(names: seq<string>, bytes: seq<string>, count: nat): Package
    requires |names| == |bytes| && count <= |names|
  {
    if count == 0 then map[] else Docs(names, bytes, count - 1)[names[count - 1] := Doc(bytes[count - 1])]
  }

  function Complete(r: Request, bytes: seq<string>, createdAt: string): Package
    requires r.Valid() && |bytes| == 6
  {
    Docs(DocNames(r), bytes, 6)[MANIFEST_NAME := ManifestFor(r, bytes, createdAt)]
  }

  /** The `by_name` loop: names must be distinct basenames. */
  function ByName(entries: seq<Entry>): Option<map<string, string>> {
    if entries == [] then Some(map[])
    else
      var e := entries[|entries| - 1];
      match ByName(entries[..|entries| - 1])
      case None => None
      case Some(m) => if e.name in m || !IsBasename(e.name) then None else Some(m[e.name := e.digest])
  }

  function DocxOf(pkg: Package): set<string> {
    set n | n in pkg && IsDocx(n)
  }

  predicate DigestsMatch(pkg: Package, names: seq<string>, byName: map<string, string>)
    requires forall i :: 0 <= i < |names| ==> names[i] in byName
  {
    forall i :: 0 <= i < |names| ==> names[i] in pkg && pkg[names[i]] == Doc(byName[names[i]])
  }

  function NameSet(names: seq<string>): set<string> {
    set n | n in names
  }

  function Verify(pkg: Package, r: Request): Verdict
    requires r.Valid()
  {
    if MANIFEST_NAME !in pkg || !pkg[MANIFEST_NAME].Manifest? then OutputInvalid
    else
      var m := pkg[MANIFEST_NAME];
      var names := DocNames(r);
      if m.content != r.content then EditionConflict
      else if m.schemaVersion != 1 || m.edition != r.edition || m.expectedCount != 5 || m.mode != r.mode
      then OutputInvalid
      else if |m.documents| != |names| then OutputInvalid
      else match ByName(m.documents)
      case None => OutputInvalid
      case Some(byName) =>
        if byName.Keys != NameSet(names) || DocxOf(pkg) != NameSet(names) then OutputInvalid
        else if DigestsMatch(pkg, names, byName) then Accepted else OutputInvalid
  }

  ghost predicate Distinct(names: seq<string>) {
    forall i, j :: 0 <= i < j < |names| ==> names[i] != names[j]
  }

  lemma LastIsNew(names: seq<string>, k: nat)
    requires Distinct(names) && 0 < k <= |names|
    ensures names[k - 1] !in NameSet(names[..k - 1])
    ensures NameSet(names[..k]) == NameSet(names[..k - 1]) + {names[k - 1]}
    ensures forall i :: 0 <= i < k - 1 ==> names[i] != names[k - 1]
  {
    assert names[..k] == names[..k - 1] + [names[k - 1]];
  }

  lemma {:induction false} ByNameOfEntries(names: seq<string>, bytes: seq<string>, k: nat)
    requires |names| == |bytes| && k <= |names|
    requires Distinct(names) && forall i :: 0 <= i < |names| ==> IsBasename(names[i])
    ensures var m := ByName(Entries(names, bytes)[..k]);
            && m.Some? && m.value.Keys == NameSet(names[..k])
            && forall i :: 0 <= i < k ==> names[i] in m.value && m.value[names[i]] == bytes[i]
  {
    hide IsBasename, Distinct, NameSet;
    if k == 0 {
      EmptyNames(names);
    } else {
      ByNameOfEntries(names, bytes, k - 1);
      var es := Entries(names, bytes)[..k];
      assert es[..|es| - 1] == Entries(names, bytes)[..k - 1];
      LastIsNew(names, k);
    }
  }

  lemma {:induction false} DocsHold(names: seq<string>, bytes: seq<string>, k: nat)
    requires |names| == |bytes| && k <= |names| && Distinct(names)
    ensures Docs(names, bytes, k).Keys == NameSet(names[..k])
    ensures forall i :: 0 <= i < k ==>
              names[i] in Docs(names, bytes, k) && Docs(names, bytes, k)[names[i]] == Doc(bytes[i])
  {
    hide Distinct, NameSet;
    if k == 0 {
      EmptyNames(names);
    } else {
      DocsHold(names, bytes, k - 1);
      LastIsNew(names, k);
    }
  }

  lemma EmptyNames(names: seq<string>)
    ensures NameSet(names[..0]) == {}
  {
  }

  /** Main result.  A package built for one request is accepted for another
      request of the edition exactly when content and mode agree; other content
      is a conflict, and the same content in another mode is invalid output. */
  lemma CompleteVerifiesIff(r: Request, bytes: seq<string>, createdAt: string, again: Request)
    requires r.Valid() && again.Valid() && |bytes| == 6
    requires PlainEdition(r.edition) && again.edition == r.edition
    requires again.content == r.content ==> again.titles == r.titles
    ensures Verify(Complete(r, bytes, createdAt), again) ==
            if again.content != r.content then EditionConflict
            else if again.mode != r.mode then OutputInvalid
            else Accepted
  {
    hide DocNames, IsDocx, IsBasename, ByName;
    var names := DocNames(r);
    NamesAreGood(r);
    ByNameOfEntries(names, bytes, 6);
    DocsHold(names, bytes, 6);
    assert Entries(names, bytes)[..6] == Entries(names, bytes) && names[..6] == names;
    var pkg := Complete(r, bytes, createdAt);
    NotDocx();
    if again.content == r.content {
      assert DocNames(again) == names by { SameNames(r, again); }
      assert DocxOf(pkg) == NameSet(names);
    }
  }

  lemma SameNames(r: Request, again: Request)
    requires r.Valid() && again.Valid() && again.titles == r.titles && again.edition == r.edition
    ensures DocNames(again) == DocNames(r)
  {
  }

  lemma NotDocx()
    ensures !IsDocx(MANIFEST_NAME)
  {
    assert MANIFEST_NAME[|MANIFEST_NAME| - 5..] == ".json";
  }
}
