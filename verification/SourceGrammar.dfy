/** The grammar of a source line: which texts the parser accepts, and as what. */
module SourceGrammar {
  import opened Wrappers
  import opened Text
  import opened SourceLine

  /** The dates of a leap year. */
  lemma ValidDateIff(d: MonthDay)
    ensures ValidDate(d) <==>
            || ((d.month == 1 || d.month == 3 || d.month == 5 || d.month == 7 || d.month == 8 || d.month == 10 ||
                 d.month == 12) && 1 <= d.day <= 31)
            || ((d.month == 4 || d.month == 6 || d.month == 9 || d.month == 11) && 1 <= d.day <= 30)
            || (d.month == 2 && 1 <= d.day <= 29)
  {
  }

  predicate OneOrTwoDigits(s: string) {
    (|s| == 1 || |s| == 2) && forall i :: 0 <= i < |s| ==> '0' <= s[i] <= '9'
  }

  function ValueOf(s: string): nat
    requires OneOrTwoDigits(s)
  {
    if |s| == 1 then (s[0] - '0') as nat else 10 * (s[0] - '0') as nat + (s[1] - '0') as nat
  }

  lemma ValueIsNumber(s: string)
    requires OneOrTwoDigits(s)
    ensures Digits(s) && Number(s) == ValueOf(s)
  {
    assert s[..1][..0] == "";
    assert Number(s[..1]) == (s[0] - '0') as nat;
  }

  /** How a part is put together: a name, perhaps some space, one or two digits for the
      month, perhaps some space, the month sign, one or two digits for the day, the
      marker, and a title without a closing bracket or another marker. */
  datatype Pieces = Pieces(name: string, month: string, gap: string, day: string, title: string)

  function Spelled(p: Pieces): string {
    p.name + p.month + p.gap + "月" + p.day + "日发文《" + p.title + "》"
  }

  ghost predicate Grammatical(p: Pieces) {
    && Strip(p.name) != "" && !(p.name != "" && IsDigit(p.name[|p.name| - 1]))
    && OneOrTwoDigits(p.month) && OneOrTwoDigits(p.day)
    && ValidDate(MonthDay(ValueOf(p.month), ValueOf(p.day)))
    && (forall i :: 0 <= i < |p.gap| ==> IsSpace(p.gap[i]))
    && p.title != "" && '》' !in p.title
    && forall i :: 0 <= i < |p.title| ==> !OccursAt(p.title, "日发文《", i)
  }

  ghost function EntryOf(p: Pieces): Entry
    requires Grammatical(p)
  {
    Entry(RStrip(p.name), MonthDay(ValueOf(p.month), ValueOf(p.day)), Strip(p.title))
  }

  // ------------------------------------------------------ accepted as it should be

  lemma {:induction false} GapIsStripped(s: string, gap: string)
    requires s != "" && !IsSpace(s[|s| - 1]) && forall i :: 0 <= i < |gap| ==> IsSpace(gap[i])
    ensures RStrip(s + gap) == s
  {
    hide IsSpace;
    if gap == "" {
      assert s + gap == s;
    } else {
      GapIsStripped(s, gap[..|gap| - 1]);
      assert (s + gap)[..|s + gap| - 1] == s + gap[..|gap| - 1];
    }
  }

  lemma {:induction false} DigitsAreWalked(name: string, month: string, k: nat)
    requires k <= |month| && forall i :: 0 <= i < |month| ==> IsDigit(month[i])
    requires !(name != "" && IsDigit(name[|name| - 1]))
    ensures DigitStart(name + month, |name| + k) == |name|
  {
    hide IsDigit;
    if k > 0 {
      assert (name + month)[|name| + k - 1] == month[k - 1];
      DigitsAreWalked(name, month, k - 1);
    }
  }

  lemma HeadAccepted(p: Pieces)
    requires Grammatical(p)
    ensures ParseHead(p.name + p.month + p.gap + "月" + p.day) ==
            Some((RStrip(p.name), MonthDay(ValueOf(p.month), ValueOf(p.day))))
  {
    hide RFind, Number, Digits, OccursAt, RStrip, Strip;
    ValueIsNumber(p.month);
    ValueIsNumber(p.day);
    var front := p.name + p.month;
    var before := front + p.gap + "月" + p.day;
    assert before == (front + p.gap) + "月" + p.day;
    LastMonth(front + p.gap, p.day);
    var sep := |front + p.gap|;
    Halves(front + p.gap, "月" + p.day);
    assert before == (front + p.gap) + ("月" + p.day) && before[sep + 1..] == p.day;
    DigitNotSpace(front[|front| - 1]);
    GapIsStripped(front, p.gap);
    DigitsAreWalked(p.name, p.month, |p.month|);
    Halves(p.name, p.month);
    SomethingLeft(p.name);
  }

  lemma DigitNotSpace(c: char)
    ensures IsDigit(c) ==> !IsSpace(c)
  {
  }

  /** A name that is more than space keeps something when its end is stripped. */
  lemma {:induction false} SomethingLeft(s: string)
    ensures Strip(s) != "" ==> RStrip(s) != ""
  {
    if RStrip(s) == "" {
      AllSpace(s);
      OnlySpaceLeft(s);
    }
  }

  lemma {:induction false} AllSpace(s: string)
    requires RStrip(s) == ""
    ensures forall i :: 0 <= i < |s| ==> IsSpace(s[i])
  {
    hide IsSpace;
    if s != "" {
      AllSpace(s[..|s| - 1]);
    }
  }

  lemma {:induction false} OnlySpaceLeft(s: string)
    requires forall i :: 0 <= i < |s| ==> IsSpace(s[i])
    ensures LStrip(s) == "" && Strip(s) == ""
  {
    hide IsSpace;
    if s != "" {
      OnlySpaceLeft(s[1..]);
    }
  }

  lemma {:induction false} Remaining(s: string)
    ensures RStrip(s) != "" ==> Strip(s) != ""
  {
    if Strip(s) == "" {
      AllSpace(LStrip(s));
      LeftAllSpace(s);
      RightAllSpace(s);
    }
  }

  lemma {:induction false} LeftAllSpace(s: string)
    requires forall i :: 0 <= i < |LStrip(s)| ==> IsSpace(LStrip(s)[i])
    ensures forall i :: 0 <= i < |s| ==> IsSpace(s[i])
  {
    hide IsSpace;
    if s != "" && IsSpace(s[0]) {
      assert LStrip(s) == LStrip(s[1..]);
      LeftAllSpace(s[1..]);
      assert forall i :: 1 <= i < |s| ==> s[i] == s[1..][i - 1];
    } else {
      assert LStrip(s) == s;
    }
  }

  lemma {:induction false} RightAllSpace(s: string)
    requires forall i :: 0 <= i < |s| ==> IsSpace(s[i])
    ensures RStrip(s) == ""
  {
    hide IsSpace;
    if s != "" {
      RightAllSpace(s[..|s| - 1]);
    }
  }

  lemma GrammaticalIsAccepted(p: Pieces)
    requires Grammatical(p)
    ensures ParseEntry(Spelled(p)) == Some(EntryOf(p))
  {
    hide ParseEntry, ParseHead, OccursAt, Strip, RStrip, OneOrTwoDigits, ValueOf;
    var before := p.name + p.month + p.gap + "月" + p.day;
    assert Spelled(p) == before + MARK + p.title + "》";
    HeadAccepted(p);
    PartsReadBack(before, p.title);
  }

  // ---------------------------------------------------- and nothing else is accepted

  lemma {:induction false} StripSplits(s: string) returns (gap: string)
    ensures s == RStrip(s) + gap && forall i :: 0 <= i < |gap| ==> IsSpace(gap[i])
  {
    hide IsSpace;
    gap := "";
    if s != "" && IsSpace(s[|s| - 1]) {
      var rest := StripSplits(s[..|s| - 1]);
      gap := rest + [s[|s| - 1]];
      assert s == s[..|s| - 1] + [s[|s| - 1]];
    }
  }

  lemma {:induction false} WalkStops(s: string, k: nat)
    requires k <= |s|
    ensures var start := DigitStart(s, k);
            start > 0 ==> !IsDigit(s[start - 1])
  {
    if k > 0 && IsDigit(s[k - 1]) {
      WalkStops(s, k - 1);
    }
  }

  lemma HeadRead(before: string) returns (p: Pieces)
    requires ParseHead(before).Some?
    ensures before == p.name + p.month + p.gap + "月" + p.day
    ensures OneOrTwoDigits(p.month) && OneOrTwoDigits(p.day) && Strip(p.name) != ""
    ensures !(p.name != "" && IsDigit(p.name[|p.name| - 1]))
    ensures forall i :: 0 <= i < |p.gap| ==> IsSpace(p.gap[i])
    ensures ValidDate(MonthDay(ValueOf(p.month), ValueOf(p.day)))
    ensures ParseHead(before).value == (RStrip(p.name), MonthDay(ValueOf(p.month), ValueOf(p.day)))
  {
    hide RFind, Number, DigitStart, RStrip, Strip;
    var sep := RFind(before, "月", |before|);
    var front := RStrip(before[..sep]);
    var gap := StripSplits(before[..sep]);
    var start := DigitStart(front, |front|);
    WalkStops(front, |front|);
    p := Pieces(front[..start], front[start..], gap, before[sep + 1..], "");
    assert front == p.name + p.month;
    assert before[sep..sep + 1] == "月";
    assert before == before[..sep] + before[sep..sep + 1] + before[sep + 1..];
    DigitsShort(p.month);
    DigitsShort(p.day);
    ValueIsNumber(p.month);
    ValueIsNumber(p.day);
    Remaining(p.name);
  }

  lemma DigitsShort(s: string)
    requires 1 <= |s| <= 2 && Digits(s)
    ensures OneOrTwoDigits(s)
  {
  }

  lemma AcceptedIsGrammatical(part: string) returns (p: Pieces)
    requires ParseEntry(part).Some?
    ensures Grammatical(p) && part == Spelled(p) && ParseEntry(part).value == EntryOf(p)
  {
    hide RFind, ParseHead, Strip, RStrip, OneOrTwoDigits, ValueOf;
    var at := RFind(part, MARK, |part|);
    var before, rest := part[..at], part[at + 4..];
    var title := rest[..|rest| - 1];
    var head := HeadRead(before);
    p := head.(title := title);
    assert part[at..at + 4] == MARK;
    assert part == before + MARK + rest && rest == title + "》";
    SliceOfSlice(part, at + 4, |part|, 0, |rest| - 1);
    forall i | 0 <= i < |title|
      ensures !OccursAt(title, MARK, i)
    {
      if i + 4 <= |title| {
        SliceOfSlice(part, at + 4, |part| - 1, i, i + 4);
        assert !OccursAt(part, MARK, at + 4 + i);
      }
    }
    assert Spelled(p) == before + MARK + title + "》";
  }

  /** Main result.  A part is parsed exactly when it follows the grammar, and then as
      the entry its pieces spell. */
  lemma EntryIff(part: string, e: Entry)
    ensures ParseEntry(part) == Some(e) <==> exists p :: Grammatical(p) && part == Spelled(p) && e == EntryOf(p)
  {
    hide ParseEntry, Grammatical, Spelled, EntryOf;
    if ParseEntry(part) == Some(e) {
      var p := AcceptedIsGrammatical(part);
    }
    if p :| Grammatical(p) && part == Spelled(p) && e == EntryOf(p) {
      GrammaticalIsAccepted(p);
    }
  }

  // --------------------------------------------------------- separators, wrappers

  /** Either semicolon ends a part. */
  lemma {:induction false} SplitsAtEither(piece: string, sep: char, rest: string)
    requires sep == '；' || sep == ';'
    requires forall i :: 0 <= i < |piece| ==> piece[i] != '；' && piece[i] != ';'
    ensures Split(piece + [sep] + rest) == [piece] + Split(rest) && Split(piece) == [piece]
  {
    var s := piece + [sep] + rest;
    if piece == "" {
      assert s[0] == sep && s[1..] == rest;
    } else {
      SplitsAtEither(piece[1..], sep, rest);
      assert s[0] == piece[0] && s[1..] == piece[1..] + [sep] + rest;
      assert [piece[0]] + piece[1..] == piece;
    }
  }

  /** Blank pieces are skipped, the others are stripped and kept in order. */
  lemma {:induction false} PartsAppend(pieces: seq<string>, piece: string)
    ensures Parts(pieces + [piece]) == Parts(pieces) + (if Strip(piece) == "" then [] else [Strip(piece)])
  {
    hide Strip;
    if pieces == [] {
      assert pieces + [piece] == [piece] && [piece][1..] == [];
    } else {
      PartsAppend(pieces[1..], piece);
      assert (pieces + [piece])[1..] == pieces[1..] + [piece];
    }
  }

  /** The wrapper comes off with either kind of bracket and colon. */
  lemma EitherWrapper(open: char, colon: char, close: char, line: string)
    requires (open == '（' || open == '(') && (colon == '：' || colon == ':') && (close == '）' || close == ')')
    requires line != "" && !IsSpace(line[0]) && !IsSpace(line[|line| - 1])
    ensures Unwrap([open] + "信息来源" + [colon] + line + [close]) == line
  {
    hide Unopen, Unclose;
    var s := [open] + "信息来源" + [colon] + line + [close];
    assert Strip(s) == s;
    assert s == [open] + "信息来源" + [colon] + (line + [close]);
    EitherOpening(open, colon, line + [close]);
    EitherClosing(close, line);
  }

  lemma EitherOpening(open: char, colon: char, rest: string)
    requires (open == '（' || open == '(') && (colon == '：' || colon == ':')
    requires rest != "" && !IsSpace(rest[0])
    ensures Unopen([open] + "信息来源" + [colon] + rest) == rest
  {
    var s := [open] + "信息来源" + [colon] + rest;
    assert s[1..] == "信息来源" + [colon] + rest;
    assert s[1..][4..] == [colon] + rest;
    assert ([colon] + rest)[1..] == rest;
  }

  lemma EitherClosing(close: char, line: string)
    requires (close == '）' || close == ')') && line != "" && !IsSpace(line[|line| - 1])
    ensures Unclose(line + [close]) == line
  {
    assert (line + [close])[..|line|] == line;
  }

  /** Text without label and closing bracket is taken as it is. */
  lemma NoWrapper(line: string)
    requires line != "" && !IsSpace(line[0]) && !IsSpace(line[|line| - 1])
    requires line[0] != '（' && line[0] != '(' && line[|line| - 1] != '）' && line[|line| - 1] != ')'
    requires !("信息来源" <= line)
    ensures Unwrap(line) == line
  {
    assert Strip(line) == line;
  }

  /** The label by itself is a line without entries. */
  lemma LabelAlone()
    ensures Unwrap("信息来源") == "" && Parts(Split(Unwrap("信息来源"))) == []
  {
    hide Unopen, Unclose;
    LabelOpens();
    assert Strip("信息来源") == "信息来源";
    NothingCloses();
    assert Split("") == [""];
    assert Parts([""]) == Parts([""][1..]) by { assert Strip("") == ""; }
  }

  lemma LabelOpens()
    ensures Unopen("信息来源") == ""
  {
    assert "信息来源"[4..] == "";
  }

  lemma NothingCloses()
    ensures Unclose("") == ""
  {
  }

  /** The characters that count as space. */
  lemma SpaceIff(c: char)
    ensures IsSpace(c) <==>
            || c == '\t' || c == '\n' || c == '\U{000B}' || c == '\U{000C}' || c == '\r' || c == ' '
            || c == '\U{001C}' || c == '\U{001D}' || c == '\U{001E}' || c == '\U{001F}'
            || c == '\U{0085}' || c == '\U{00A0}' || c == '\U{1680}'
            || c == '\U{2000}' || c == '\U{2001}' || c == '\U{2002}' || c == '\U{2003}' || c == '\U{2004}'
            || c == '\U{2005}' || c == '\U{2006}' || c == '\U{2007}' || c == '\U{2008}' || c == '\U{2009}'
            || c == '\U{200A}' || c == '\U{2028}' || c == '\U{2029}' || c == '\U{202F}' || c == '\U{205F}'
            || c == '\U{3000}'
  {
  }
}
