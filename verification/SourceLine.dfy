/** The source line of a brief: entries "name MM月DD日发文《title》" joined by the
    Chinese semicolon inside "（信息来源：…）", its printer and its parser. */
module SourceLine {
  import opened Wrappers
  import opened Text

  datatype MonthDay = MonthDay(month: nat, day: nat)

  /** Days of a month in the leap year the parser checks against. */
  function DaysIn(month: nat): nat {
    if month == 2 then 29 else if month in {4, 6, 9, 11} then 30 else 31
  }

  predicate ValidDate(d: MonthDay) {
    1 <= d.month <= 12 && 1 <= d.day <= DaysIn(d.month)
  }

  type Date = d: MonthDay | ValidDate(d) witness MonthDay(1, 1)

  datatype Entry = Entry(name: string, date: Date, title: string)

  // ---------------------------------------------------------------- printing

  function DigitChar(n: nat): char
    requires n < 10
  {
    '0' + n as char
  }

  predicate IsDigit(c: char) { '0' <= c <= '9' }

  function TwoDigits(n: nat): string
    requires n < 100
  {
    [DigitChar(n / 10), DigitChar(n % 10)]
  }

  const MARK := "日发文《"

  function FormatMonthDay(d: Date): string {
    TwoDigits(d.month) + "月" + TwoDigits(d.day) + "日"
  }

  function PrintEntry(e: Entry): string {
    e.name + FormatMonthDay(e.date) + "发文《" + e.title + "》"
  }

  function Join(es: seq<Entry>): string {
    if es == [] then ""
    else if |es| == 1 then PrintEntry(es[0])
    else PrintEntry(es[0]) + "；" + Join(es[1..])
  }

  function PrintLine(es: seq<Entry>): string {
    "（信息来源：" + Join(es) + "）"
  }

  // ----------------------------------------------------------------- parsing

  function Unwrap(source: string): string {
    Unclose(Unopen(Strip(source)))
  }

  /** Drops an opening bracket and label, when the label is there. */
  function Unopen(raw: string): string {
    var candidate := if raw != "" && raw[0] in {'（', '('} then LStrip(raw[1..]) else raw;
    if "信息来源" <= candidate then
      var c := LStrip(candidate[4..]);
      if c != "" && c[0] in {'：', ':'} then LStrip(c[1..]) else c
    else raw
  }

  function Unclose(body: string): string {
    var cut := RStrip(body);
    if cut != "" && cut[|cut| - 1] in {'）', ')'} then RStrip(cut[..|cut| - 1]) else cut
  }

  predicate IsSep(c: char) { c == '；' || c == ';' }

  predicate NoSep(s: string) {
    forall i :: 0 <= i < |s| ==> !IsSep(s[i])
  }

  function Split(s: string): (pieces: seq<string>)
    ensures |pieces| >= 1
  {
    if s == "" then [""]
    else if IsSep(s[0]) then [""] + Split(s[1..])
    else var rest := Split(s[1..]); [[s[0]] + rest[0]] + rest[1..]
  }

  function Parts(pieces: seq<string>): seq<string> {
    if pieces == [] then []
    else (if Strip(pieces[0]) == "" then [] else [Strip(pieces[0])]) + Parts(pieces[1..])
  }

  predicate OccursAt(s: string, m: string, p: int) {
    0 <= p && p + |m| <= |s| && s[p..p + |m|] == m
  }

  /** The last place `m` occurs at or before `k`, or -1. */
  function RFind(s: string, m: string, k: int): (p: int)
    requires k <= |s|
    ensures p < 0 || (p <= k && OccursAt(s, m, p))
    ensures forall q :: p < q <= k ==> !OccursAt(s, m, q)
  {
    if k < 0 then -1 else if OccursAt(s, m, k) then k else RFind(s, m, k - 1)
  }

  /** Where the run of digits ending at `k` starts. */
  function DigitStart(s: string, k: nat): (start: nat)
    requires k <= |s|
    ensures start <= k
  {
    if k > 0 && IsDigit(s[k - 1]) then DigitStart(s, k - 1) else k
  }

  predicate Digits(s: string) {
    forall i :: 0 <= i < |s| ==> IsDigit(s[i])
  }

  function Number(s: string): nat
    requires Digits(s)
  {
    if s == "" then 0 else 10 * Number(s[..|s| - 1]) + (s[|s| - 1] - '0') as nat
  }

  function ParseEntry(part: string): Option<Entry> {
    var p := RFind(part, MARK, |part|);
    if p < 0 then None
    else
      var before, rest := part[..p], part[p + 4..];
      if rest == "" || rest[|rest| - 1] != '》' then None
      else
        var title := rest[..|rest| - 1];
        if title == "" || '》' in title then None
        else
          match ParseHead(before)
          case None => None
          case Some(head) => Some(Entry(head.0, head.1, Strip(title)))
  }

  /** The name and date before the marker. */
  function ParseHead(before: string): Option<(string, Date)> {
    var sep := RFind(before, "月", |before|);
    if sep <= 0 then None
    else
      var nameMonth, day := RStrip(before[..sep]), before[sep + 1..];
      var start := DigitStart(nameMonth, |nameMonth|);
      ParseFields(RStrip(nameMonth[..start]), nameMonth[start..], day)
  }

  function ParseFields(name: string, month: string, day: string): Option<(string, Date)> {
    if name == "" || !(1 <= |month| <= 2) || !(1 <= |day| <= 2) || !Digits(month) || !Digits(day) then None
    else
      var d := MonthDay(Number(month), Number(day));
      if ValidDate(d) then Some((name, d)) else None
  }

  function Entries(parts: seq<string>): seq<Entry> {
    if parts == [] then []
    else
      var init, last := Entries(parts[..|parts| - 1]), ParseEntry(parts[|parts| - 1]);
      if last.Some? then init + [last.value] else init
  }

  function Invalid(parts: seq<string>): seq<string> {
    if parts == [] then []
    else
      var init, last := Invalid(parts[..|parts| - 1]), ParseEntry(parts[|parts| - 1]);
      if last.Some? then init else init + [parts[|parts| - 1]]
  }

  /** `_parse_brief_source_entries`. */
  method ParseSourceEntries(source: string) returns (entries: seq<Entry>, invalid: seq<string>, raw: string)
    ensures raw == Unwrap(source)
    ensures entries == Entries(Parts(Split(raw))) && invalid == Invalid(Parts(Split(raw)))
  {
    hide RFind, Strip, Unwrap, ParseHead, Split, Parts;
    raw := Unwrap(source);
    var parts := Parts(Split(raw));
    entries, invalid := [], [];
    for i := 0 to |parts|
      invariant entries == Entries(parts[..i]) && invalid == Invalid(parts[..i])
    {
      var part := parts[i];
      OneMorePart(parts, i);
      var p := RFind(part, MARK, |part|);
      if p < 0 || |part| == p + 4 || part[|part| - 1] != '》' {
        invalid := invalid + [part];
        continue;
      }
      var title := part[p + 4..][..|part| - p - 5];
      if title == "" || '》' in title {
        invalid := invalid + [part];
        continue;
      }
      var head := ParseNameAndDate(part[..p]);
      if head.None? {
        invalid := invalid + [part];
        continue;
      }
      entries := entries + [Entry(head.value.0, head.value.1, Strip(title))];
    }
    assert parts[..|parts|] == parts;
  }

  lemma OneMorePart(parts: seq<string>, i: nat)
    requires i < |parts|
    ensures var e := ParseEntry(parts[i]);
            && Entries(parts[..i + 1]) == Entries(parts[..i]) + (if e.Some? then [e.value] else [])
            && Invalid(parts[..i + 1]) == Invalid(parts[..i]) + (if e.Some? then [] else [parts[i]])
  {
    hide ParseEntry;
    assert parts[..i + 1][..i] == parts[..i];
  }

  /** The part of the loop body that walks back over the month's digits. */
  method ParseNameAndDate(before: string) returns (head: Option<(string, Date)>)
    ensures head == ParseHead(before)
  {
    var sep := RFind(before, "月", |before|);
    if sep <= 0 {
      return None;
    }
    var nameMonth, day := RStrip(before[..sep]), before[sep + 1..];
    var start: nat := |nameMonth|;
    while start > 0 && IsDigit(nameMonth[start - 1])
      invariant start <= |nameMonth|
      invariant DigitStart(nameMonth, start) == DigitStart(nameMonth, |nameMonth|)
    {
      start := start - 1;
    }
    head := ParseFields(RStrip(nameMonth[..start]), nameMonth[start..], day);
  }

  // -------------------------------------------------------- what round-trips

  predicate Clean(title: string) {
    Trimmed(title) && NoSep(title) && '》' !in title && forall p :: 0 <= p < |title| ==> !OccursAt(title, MARK, p)
  }

  /** What every parsed entry satisfies. */
  predicate Sound(e: Entry) {
    e.name != "" && Trimmed(e.name) && NoSep(e.name) && Clean(e.title)
  }

  /** What the printer needs besides: a title, and a name that cannot run into the month. */
  predicate WellFormed(e: Entry) {
    Sound(e) && e.title != "" && !IsDigit(e.name[|e.name| - 1])
  }

  lemma RFindIs(s: string, m: string, k: int, p: int)
    requires 0 <= p <= k <= |s| && OccursAt(s, m, p) && forall q :: p < q <= k ==> !OccursAt(s, m, q)
    ensures RFind(s, m, k) == p
  {
    var r := RFind(s, m, k);
    if r < p {
      assert false;
    }
  }

  /** The marker has no border, so after a marker followed by a clean title no other starts. */
  lemma LastMark(head: string, title: string)
    requires forall p :: 0 <= p < |title| ==> !OccursAt(title, MARK, p)
    ensures RFind(head + MARK + title + "》", MARK, |head + MARK + title + "》"|) == |head|
  {
    var s := head + MARK + title + "》";
    assert s[|head|..|head| + 4] == MARK;
    forall q | |head| < q <= |s|
      ensures !OccursAt(s, MARK, q)
    {
      if q + 4 <= |s| {
        assert s[q..q + 4][0] == s[q] && s[q..q + 4][3] == s[q + 3];
        if q < |head| + 4 {
          assert s[q] == MARK[q - |head|];
        } else if q + 4 < |s| {
          var t := q - |head| - 4;
          assert s[|head| + 4..|s| - 1] == title;
          SliceOfSlice(s, |head| + 4, |s| - 1, t, t + 4);
          assert !OccursAt(title, MARK, t);
        }
      }
    }
    RFindIs(s, MARK, |s|, |head|);
  }

  lemma LastMonth(head: string, day: string)
    requires Digits(day)
    ensures RFind(head + "月" + day, "月", |head + "月" + day|) == |head|
  {
    var s := head + "月" + day;
    assert s[|head|..|head| + 1] == "月";
    forall q | |head| < q <= |s|
      ensures !OccursAt(s, "月", q)
    {
      if q < |s| {
        assert s[q..q + 1][0] == s[q] == day[q - |head| - 1];
      }
    }
    RFindIs(s, "月", |s|, |head|);
  }

  lemma TwoDigitsReadBack(n: nat)
    requires n < 100
    ensures Digits(TwoDigits(n)) && Number(TwoDigits(n)) == n
  {
    var s := TwoDigits(n);
    assert s[..1] == [DigitChar(n / 10)] && s[..1][..0] == "";
    assert Number(s[..1]) == 10 * Number(s[..1][..0]) + n / 10;
  }

  /** Walking back from the end of the month passes its two digits, and no more
      exactly when the name does not end in one. */
  lemma MonthStart(name: string, month: string)
    requires name != "" && |month| == 2 && Digits(month)
    ensures var start := DigitStart(name + month, |name| + 2);
            if IsDigit(name[|name| - 1]) then start < |name| else start == |name|
  {
    var s := name + month;
    assert DigitStart(s, |name| + 2) == DigitStart(s, |name| + 1) == DigitStart(s, |name|);
  }

  lemma HeadReadsBack(e: Entry)
    requires Sound(e)
    ensures ParseHead(e.name + TwoDigits(e.date.month) + "月" + TwoDigits(e.date.day)) ==
            if IsDigit(e.name[|e.name| - 1]) then None else Some((e.name, e.date))
  {
    hide Clean, NoSep, OccursAt, RFind, Number, Digits;
    var name, month, day := e.name, TwoDigits(e.date.month), TwoDigits(e.date.day);
    TwoDigitsReadBack(e.date.month);
    TwoDigitsReadBack(e.date.day);
    LastMonth(name + month, day);
    var before := name + month + "月" + day;
    var sep := |name| + 2;
    assert before[..sep] == name + month && before[sep + 1..] == day;
    assert !IsSpace((name + month)[sep - 1]);
    MonthStart(name, month);
    var start := DigitStart(name + month, sep);
    if !IsDigit(name[|name| - 1]) {
      assert (name + month)[..start] == name && (name + month)[start..] == month;
    }
  }

  /** Main result for one entry. */
  lemma EntryRoundTrip(e: Entry)
    requires Sound(e)
    ensures ParseEntry(PrintEntry(e)) == if WellFormed(e) then Some(e) else None
  {
    hide NoSep, ParseHead, ParseEntry, OccursAt, IsSpace;
    var before := e.name + TwoDigits(e.date.month) + "月" + TwoDigits(e.date.day);
    assert PrintEntry(e) == before + MARK + e.title + "》";
    HeadReadsBack(e);
    PartsReadBack(before, e.title);
    if e.title != "" {
      StripTrimmed(e.title);
    }
  }

  lemma StripTrimmed(s: string)
    requires Trimmed(s)
    ensures Strip(s) == s
  {
  }

  /** A part built around a marker is taken apart at that marker. */
  lemma PartsReadBack(before: string, title: string)
    requires '》' !in title && forall p :: 0 <= p < |title| ==> !OccursAt(title, MARK, p)
    ensures ParseEntry(before + MARK + title + "》") ==
            if title == "" then None
            else match ParseHead(before)
                 case None => None
                 case Some(head) => Some(Entry(head.0, head.1, Strip(title)))
  {
    hide NoSep, RFind, ParseHead, OccursAt, Strip;
    var part := before + MARK + title + "》";
    LastMark(before, title);
    assert part == (before + MARK) + (title + "》") == before + (MARK + title + "》");
    Halves(before + MARK, title + "》");
    Halves(before, MARK + title + "》");
    Halves(title, "》");
  }

  // ------------------------------------------------------------ whole lines

  function Prints(es: seq<Entry>): (parts: seq<string>)
    ensures |parts| == |es|
  {
    seq(|es|, i requires 0 <= i < |es| => PrintEntry(es[i]))
  }

  ghost predicate AllSound(es: seq<Entry>) {
    forall i :: 0 <= i < |es| ==> Sound(es[i])
  }

  ghost predicate AllWellFormed(es: seq<Entry>) {
    forall i :: 0 <= i < |es| ==> WellFormed(es[i])
  }

  /** A printed entry is one trimmed piece without a separator. */
  lemma PrintIsOnePiece(e: Entry)
    requires Sound(e)
    ensures var part := PrintEntry(e);
            part != "" && NoSep(part) && Strip(part) == part && !IsSpace(part[0]) && part[|part| - 1] == '》'
  {
    hide Clean;
    var part := PrintEntry(e);
    var head := e.name + FormatMonthDay(e.date);
    assert NoSep(FormatMonthDay(e.date)) && NoSep("发文《");
    NoSepCat(e.name, FormatMonthDay(e.date));
    NoSepCat(head, "发文《");
    NoSepTitle(e);
    NoSepCat(head + "发文《", e.title);
    NoSepCat(head + "发文《" + e.title, "》");
    assert part[0] == e.name[0];
  }

  lemma NoSepTitle(e: Entry)
    requires Sound(e)
    ensures NoSep(e.title) && NoSep("》")
  {
  }

  lemma NoSepCat(s: string, t: string)
    requires NoSep(s) && NoSep(t)
    ensures NoSep(s + t)
  {
  }

  lemma {:induction false} SplitPiece(piece: string, rest: string)
    requires NoSep(piece)
    ensures Split(piece) == [piece]
    ensures Split(piece + "；" + rest) == [piece] + Split(rest)
  {
    var s := piece + "；" + rest;
    if piece == "" {
      assert s[1..] == rest;
    } else {
      SplitPiece(piece[1..], rest);
      assert s[1..] == piece[1..] + "；" + rest;
      assert [piece[0]] + piece[1..] == piece;
    }
  }

  lemma {:induction false} PartsOfJoin(es: seq<Entry>)
    requires AllSound(es)
    ensures Parts(Split(Join(es))) == Prints(es)
  {
    hide Sound, PrintEntry, Strip;
    if es == [] {
      StripNothing();
      assert Parts([""]) == Parts([""][1..]);
    } else {
      var part, rest := PrintEntry(es[0]), es[1..];
      PrintIsOnePiece(es[0]);
      SplitPiece(part, Join(rest));
      assert Prints(es) == [part] + Prints(rest);
      if |es| == 1 {
        assert Prints(rest) == [] && Parts([part]) == [part] + Parts([part][1..]);
      } else {
        PartsOfJoin(rest);
        assert ([part] + Split(Join(rest)))[1..] == Split(Join(rest));
      }
    }
  }

  lemma StripNothing()
    ensures Strip("") == ""
  {
  }

  lemma {:induction false} JoinEnds(es: seq<Entry>)
    requires AllSound(es) && es != []
    ensures var line := Join(es);
            line != "" && !IsSpace(line[0]) && line[|line| - 1] == '》'
  {
    hide Sound, PrintEntry, IsSpace, NoSep;
    PrintIsOnePiece(es[0]);
    if |es| > 1 {
      JoinEnds(es[1..]);
    }
  }

  /** The wrapper comes off whatever the first name starts with. */
  lemma UnwrapPrinted(es: seq<Entry>)
    requires AllSound(es)
    ensures Unwrap(PrintLine(es)) == Join(es)
  {
    hide Sound, Join;
    var line := Join(es);
    if es == [] {
      EmptyJoin();
    } else {
      JoinEnds(es);
    }
    UnwrapLine(line);
  }

  lemma EmptyJoin()
    ensures Join([]) == ""
  {
  }

  lemma UnwrapLine(line: string)
    requires line != "" ==> !IsSpace(line[0]) && line[|line| - 1] == '》'
    ensures Unwrap("（信息来源：" + line + "）") == line
  {
    hide Unopen, Unclose;
    var s := "（信息来源：" + line + "）";
    assert Strip(s) == s;
    OpenLine(line + "）");
    assert s == "（信息来源：" + (line + "）");
    CloseLine(line);
  }

  lemma OpenLine(rest: string)
    requires rest != "" && !IsSpace(rest[0])
    ensures Unopen("（信息来源：" + rest) == rest
  {
    var s := "（信息来源：" + rest;
    assert s[1..] == "信息来源：" + rest;
    assert s[1..][4..] == "：" + rest;
    assert ("：" + rest)[1..] == rest;
  }

  lemma CloseLine(line: string)
    requires line != "" ==> !IsSpace(line[|line| - 1])
    ensures Unclose(line + "）") == line
  {
    assert (line + "）")[..|line|] == line;
  }

  // ------------------------------------------- whatever is parsed is sound

  lemma {:induction false} StripKeepsNoSep(s: string)
    requires NoSep(s)
    ensures NoSep(Strip(s))
  {
    LStripKeepsNoSep(s);
    RStripKeepsHead(LStrip(s));
  }

  lemma {:induction false} LStripKeepsNoSep(s: string)
    requires NoSep(s)
    ensures NoSep(LStrip(s))
  {
    if s != "" && IsSpace(s[0]) {
      LStripKeepsNoSep(s[1..]);
    }
  }

  lemma {:induction false} SplitPieces(s: string)
    ensures forall i :: 0 <= i < |Split(s)| ==> NoSep(Split(s)[i])
  {
    if s != "" {
      SplitPieces(s[1..]);
    }
  }

  predicate Piece(part: string) {
    part != "" && Trimmed(part) && NoSep(part)
  }

  lemma {:induction false} PartsArePieces(pieces: seq<string>)
    requires forall i :: 0 <= i < |pieces| ==> NoSep(pieces[i])
    ensures forall i :: 0 <= i < |Parts(pieces)| ==> Piece(Parts(pieces)[i])
  {
    hide NoSep, Trimmed, Strip;
    if pieces != [] {
      PartsArePieces(pieces[1..]);
      StripKeepsNoSep(pieces[0]);
      StripTrims(pieces[0]);
    }
  }

  /** Stripping a title cuts nothing but its ends out of it. */
  lemma {:induction false} StripIsInside(s: string) returns (i: nat, j: nat)
    ensures i <= j <= |s| && Strip(s) == s[i..j]
  {
    i := LStripIsSuffix(s);
    RStripKeepsHead(LStrip(s));
    j := i + |Strip(s)|;
  }

  lemma {:induction false} LStripIsSuffix(s: string) returns (i: nat)
    ensures i <= |s| && LStrip(s) == s[i..]
  {
    i := 0;
    if s != "" && IsSpace(s[0]) {
      i := LStripIsSuffix(s[1..]);
      i := i + 1;
    }
  }

  lemma TitleIsClean(part: string, p: int)
    requires NoSep(part) && p == RFind(part, MARK, |part|) && 0 <= p && |part| > p + 4
    requires var title := part[p + 4..|part| - 1]; '》' !in title
    ensures Clean(Strip(part[p + 4..|part| - 1]))
  {
    hide Strip, RFind, OccursAt, NoSep, Trimmed;
    var title := part[p + 4..|part| - 1];
    var i, j := StripIsInside(title);
    StripTrims(title);
    SliceOfSlice(part, p + 4, |part| - 1, i, j);
    SliceIsClean(part, p, p + 4 + i, p + 4 + j);
  }

  lemma SliceIsClean(part: string, p: nat, a: nat, b: nat)
    requires NoSep(part) && p < a <= b <= |part|
    requires forall q :: p < q <= |part| ==> !OccursAt(part, MARK, q)
    ensures NoSep(part[a..b]) && forall q :: 0 <= q < b - a ==> !OccursAt(part[a..b], MARK, q)
  {
    var t := part[a..b];
    forall q | 0 <= q < |t|
      ensures !OccursAt(t, MARK, q)
    {
      if q + 4 <= |t| {
        SliceOfSlice(part, a, b, q, q + 4);
        assert !OccursAt(part, MARK, a + q);
      }
    }
  }

  lemma HeadIsSound(part: string, before: string, head: (string, Date))
    requires Piece(part) && before <= part && ParseHead(before) == Some(head)
    ensures head.0 != "" && Trimmed(head.0) && NoSep(head.0)
  {
    hide RFind, DigitStart, Digits, Number;
    var sep := RFind(before, "月", |before|);
    var nameMonth := RStrip(before[..sep]);
    RStripKeepsHead(before[..sep]);
    var start := DigitStart(nameMonth, |nameMonth|);
    RStripKeepsHead(nameMonth[..start]);
    assert head.0 == RStrip(nameMonth[..start]);
    assert head.0 <= part;
  }

  /** Main result.  Every entry the parser ever returns has a trimmed, non-empty
      name and a clean trimmed title, whatever the part was. */
  lemma ParsedIsSound(part: string)
    requires Piece(part) && ParseEntry(part).Some?
    ensures Sound(ParseEntry(part).value)
  {
    hide RFind, ParseHead, Clean, Strip, NoSep, Trimmed;
    var p := RFind(part, MARK, |part|);
    var rest := part[p + 4..];
    var title := part[p + 4..|part| - 1];
    assert rest[..|rest| - 1] == title;
    PieceNoSep(part);
    TitleIsClean(part, p);
    HeadIsSound(part, part[..p], ParseHead(part[..p]).value);
  }

  lemma PieceNoSep(part: string)
    requires Piece(part)
    ensures NoSep(part)
  {
  }

  lemma {:induction false} EntriesAreSound(parts: seq<string>)
    requires forall i :: 0 <= i < |parts| ==> Piece(parts[i])
    ensures AllSound(Entries(parts))
  {
    hide Piece, ParseEntry, Sound;
    if parts != [] {
      EntriesAreSound(parts[..|parts| - 1]);
      var last := parts[|parts| - 1];
      if ParseEntry(last).Some? {
        ParsedIsSound(last);
      }
    }
  }

  lemma {:induction false} PrintsParse(es: seq<Entry>)
    requires AllSound(es)
    ensures Invalid(Prints(es)) == [] <==> AllWellFormed(es)
    ensures AllWellFormed(es) ==> Entries(Prints(es)) == es
  {
    hide Sound, WellFormed, ParseEntry, PrintEntry;
    if es != [] {
      var init, e := es[..|es| - 1], es[|es| - 1];
      PrintsParse(init);
      EntryRoundTrip(e);
      WellFormedIsSound(e);
      assert Prints(es)[..|es| - 1] == Prints(init) && Prints(es)[|es| - 1] == PrintEntry(e);
      assert es == init + [e];
      assert AllWellFormed(es) <==> AllWellFormed(init) && WellFormed(e);
    }
  }

  lemma WellFormedIsSound(e: Entry)
    ensures WellFormed(e) ==> Sound(e)
  {
  }

  /** What the parser makes of a source line. */
  function ParsedParts(source: string): seq<string> {
    Parts(Split(Unwrap(source)))
  }

  lemma AnyLineIsSound(source: string)
    ensures AllSound(Entries(ParsedParts(source)))
  {
    hide Sound, Piece, NoSep, Parts, Split, Unwrap, Entries;
    SplitPieces(Unwrap(source));
    PartsArePieces(Split(Unwrap(source)));
    EntriesAreSound(ParsedParts(source));
  }

  /** Main result.  Printing a list of entries and parsing the line gives the same
      list back with nothing invalid exactly when every entry is well formed. */
  lemma LineRoundTripIff(es: seq<Entry>)
    ensures Entries(ParsedParts(PrintLine(es))) == es && Invalid(ParsedParts(PrintLine(es))) == [] <==>
            AllWellFormed(es)
  {
    hide Sound, WellFormed, Parts, Split, Unwrap, Entries, Invalid, PrintLine;
    AnyLineIsSound(PrintLine(es));
    forall i | 0 <= i < |es|
      ensures WellFormed(es[i]) ==> Sound(es[i])
    {
      WellFormedIsSound(es[i]);
    }
    if AllSound(es) {
      UnwrapPrinted(es);
      PartsOfJoin(es);
      PrintsParse(es);
    }
  }

  /** Main result.  Parsing is a normal form: printing the entries of any line
      whatsoever and parsing again gives them back exactly when none has an empty
      title or a name ending in a digit. */
  lemma NormalFormIff(source: string)
    ensures var es := Entries(ParsedParts(source));
            Entries(ParsedParts(PrintLine(es))) == es && Invalid(ParsedParts(PrintLine(es))) == [] <==>
            forall i :: 0 <= i < |es| ==>
              es[i].title != "" && es[i].name != "" && !IsDigit(es[i].name[|es[i].name| - 1])
  {
    hide Parts, Split, Unwrap, Entries, Invalid, PrintLine, Sound, WellFormed, ParsedParts;
    AnyLineIsSound(source);
    var es := Entries(ParsedParts(source));
    LineRoundTripIff(es);
    forall i | 0 <= i < |es|
      ensures WellFormed(es[i]) <==> es[i].title != "" && es[i].name != "" && !IsDigit(es[i].name[|es[i].name| - 1])
    {
      SoundNeedsOnly(es[i]);
    }
  }

  lemma SoundNeedsOnly(e: Entry)
    requires Sound(e)
    ensures WellFormed(e) <==> e.title != "" && e.name != "" && !IsDigit(e.name[|e.name| - 1])
  {
  }

  /** The space between a name and its month is dropped by the parser and not put
      back by the printer, so a name ending in a digit is parsed from such a line
      and then swallows the month when printed. */
  lemma DigitNameIsParsedButNotPrinted()
    ensures var e := Entry("G7", MonthDay(1, 2), "x");
            && ParseEntry("G7 1月2日发文《x》") == Some(e)
            && ParseEntry(PrintEntry(e)) == None
  {
    hide RFind, ParseHead, RStrip;
    var e := Entry("G7", MonthDay(1, 2), "x");
    LetterIsClean();
    assert Sound(e);
    EntryRoundTrip(e);
    var before, part := "G7 1月2", "G7 1月2日发文《x》";
    LastMark(before, "x");
    assert part == before + MARK + "x" + "》";
    assert part[..6] == before && part[10..] == "x》" && "x》"[..1] == "x";
    DigitHead();
  }

  lemma LetterIsClean()
    ensures Clean("x") && Strip("x") == "x"
    ensures forall p :: 0 <= p < 1 ==> !OccursAt("x", MARK, p)
  {
  }

  lemma DigitHead()
    ensures ParseHead("G7 1月2") == Some(("G7", MonthDay(1, 2)))
  {
    hide RFind, RStrip, DigitStart, Number;
    var before := "G7 1月2";
    LastMonth("G7 1", "2");
    assert before == "G7 1" + "月" + "2";
    assert before[..4] == "G7 1" && before[5..] == "2";
    DigitHeadPieces();
  }

  lemma DigitHeadPieces()
    ensures RStrip("G7 1") == "G7 1" && DigitStart("G7 1", 4) == 3
    ensures "G7 1"[..3] == "G7 " && "G7 1"[3..] == "1" && RStrip("G7 ") == "G7"
    ensures Number("1") == 1 && Number("2") == 2
  {
    assert DigitStart("G7 1", 4) == DigitStart("G7 1", 3);
    assert "G7 "[..2] == "G7";
    assert Number("1"[..0]) == 0 && Number("2"[..0]) == 0;
  }
}
