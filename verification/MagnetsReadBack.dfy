/**
 Reading the printed list of frequently reported issues gives back what was printed.
 */
module MagnetsReadBack {
  import opened Prelude
  import opened TextLines
  import opened DuplicateMagnets

  // ---------- one entry ----------

  function UrlTail(number: nat): string {
    ISSUES + Decimal(number)
  }

  /** A url on one line that ends in the issue's number, after the first place where "/issues/" occurs. */
  predicate UrlOk(info: Info) {
    && |info.url| >= |UrlTail(info.number)|
    && var at := |info.url| - |UrlTail(info.number)|;
    && info.url[at..] == UrlTail(info.number)
    && Find(info.url, ISSUES) == Some(at)
    && '\n' !in info.url
  }

  lemma {:induction false} NumberReadsBack(info: Info)
    requires UrlOk(info)
    ensures NumberIn(EntryLine(info)) == Some(info.number) && Occurs(EntryLine(info), ISSUES)
  {
    var d := Decimal(info.number);
    NotWithout(d, ISSUES);
    SecondPieceAtEnd(EntryHead(info.count), info.url, ISSUES, d);
    DigitsAreAToken(d, "");
    assert d + "" == d;
    DecimalReadsBack(info.number);
  }

  lemma {:induction false} PaddedIsAToken(n: nat, piece: string)
    requires Padded(n) + " " <= piece
    ensures FirstToken(piece) == Some(Decimal(n))
  {
    var tail := piece[|Padded(n)| + 1..];
    DigitsAreAToken(Decimal(n), " " + tail);
    assert piece == (Padded(n) + " ") + tail;
    SpacesRegroup(Decimal(n), tail);
  }

  lemma {:induction false} SpacesRegroup(d: string, tail: string)
    ensures (" " + d + " ") + tail == " " + (d + (" " + tail)) && (d + " ") + tail == d + (" " + tail)
  {
  }

  lemma {:induction false} PaddedHasNoBracket(n: nat)
    ensures '[' !in Padded(n) + " "
  {
  }

  lemma {:induction false} CountReadsBack(info: Info)
    ensures CountIn(EntryLine(info)) == Some(info.count)
  {
    EntryInParts(Padded(info.count), info.url);
    PaddedHasNoBracket(info.count);
    SecondPieceStarts("-   ", "[", Padded(info.count) + " ", "dupes] " + info.url);
    PaddedIsAToken(info.count, SecondPiece(EntryLine(info), "[").value);
    DecimalReadsBack(info.count);
  }

  lemma {:induction false} EntryInParts(padded: string, url: string)
    ensures "-   [" + padded + " dupes] " + url == "-   " + ("[" + (padded + " " + ("dupes] " + url)))
  {
  }

  lemma {:induction false} EntryReadsBack(info: Info)
    requires UrlOk(info)
    ensures var line := EntryLine(info);
            && ParseEntry(line) == Some(Entry(info.count, info.number))
            && "-" <= line && !("## " <= line) && Occurs(line, ISSUES)
  {
    NumberReadsBack(info);
    CountReadsBack(info);
    assert EntryLine(info)[0] == '-';
  }

  lemma {:induction false} EntryIsOneLine(info: Info)
    requires UrlOk(info)
    ensures '\n' !in EntryLine(info)
  {
  }

  // ---------- which addresses read back ----------

  /** A repository's address reads back when "/issues/" does not occur in it too early. */
  predicate AddressOk(address: string) {
    Find(address + ISSUES, ISSUES) == Some(|address|)
  }

  function LineFor(count: nat, address: string, number: nat): string {
    EntryHead(count) + (address + UrlTail(number))
  }

  lemma {:induction false} FirstIssuesOf(address: string, number: nat)
    ensures var at := Find(address + ISSUES, ISSUES);
            at.Some? && at.value <= |address| && Find(address + UrlTail(number), ISSUES) == at
  {
    assert OccursAt(address + ISSUES, ISSUES, |address|);
    FindExtends(address + ISSUES, Decimal(number), ISSUES);
    assert address + UrlTail(number) == address + ISSUES + Decimal(number);
  }

  lemma {:induction false} GoodAddressReadsBack(count: nat, address: string, number: nat)
    requires AddressOk(address)
    ensures NumberIn(LineFor(count, address, number)) == Some(number)
  {
    var d := Decimal(number);
    FirstIssuesOf(address, number);
    NotWithout(d, ISSUES);
    assert (address + UrlTail(number))[|address|..] == ISSUES + d;
    SecondPieceAtEnd(EntryHead(count), address + UrlTail(number), ISSUES, d);
    DigitsAreAToken(d, "");
    assert d + "" == d;
    DecimalReadsBack(number);
  }

  /** What follows the first "/issues/" in a line. */
  function Following(address: string, number: nat): string
    requires Find(address + ISSUES, ISSUES).Some?
  {
    var at := Find(address + ISSUES, ISSUES).value;
    if at + |ISSUES| <= |address + UrlTail(number)| then (address + UrlTail(number))[at + |ISSUES|..] else ""
  }

  lemma {:induction false} PieceOf(count: nat, address: string, number: nat)
    requires Find(address + ISSUES, ISSUES).Some?
    ensures SecondPiece(LineFor(count, address, number), ISSUES) == Some(UpTo(Following(address, number), ISSUES))
  {
    FirstIssuesOf(address, number);
    HeadHasNoSlash(count);
    SecondPiecePast(EntryHead(count), address + UrlTail(number), ISSUES);
  }

  lemma {:induction false} HeadHasNoSlash(count: nat)
    ensures forall i :: 0 <= i < |EntryHead(count)| ==> EntryHead(count)[i] != ISSUES[0]
  {
  }

  /** A whole "/issues/" earlier in the address: what is read does not depend on the number. */
  lemma {:induction false} EarlierIssuesHidesNumber(count: nat, address: string, m: nat, n: nat)
    requires Find(address + ISSUES, ISSUES).Some? && Find(address + ISSUES, ISSUES).value + |ISSUES| <= |address|
    ensures NumberIn(LineFor(count, address, m)) == NumberIn(LineFor(count, address, n))
  {
    var from := Find(address + ISSUES, ISSUES).value + |ISSUES|;
    var left := address[from..];
    forall k ensures Following(address, k) == left + UrlTail(k) {
      assert (address + UrlTail(k))[from..] == left + UrlTail(k);
    }
    FirstIssuesOf(left, m);
    FirstIssuesOf(left, n);
    PieceOf(count, address, m);
    PieceOf(count, address, n);
    var j := Find(left + ISSUES, ISSUES).value;
    assert (left + UrlTail(m))[..j] == left[..j] == (left + UrlTail(n))[..j];
  }

  lemma {:induction false} ParensStayOff(s: string)
    requires s != "" && s[0] != ')'
    ensures StripParens(s) != "" && StripParens(s)[0] == s[0]
  {
    if s[|s| - 1] == ')' { ParensStayOff(s[..|s| - 1]); }
  }

  /** What follows when only a last "/" is missing from the address: "issues/" and the number. */
  lemma {:induction false} FollowsOverlap(address: string, number: nat)
    requires var at := Find(address + ISSUES, ISSUES); at.Some? && at.value < |address| < at.value + |ISSUES|
    ensures Following(address, number) == UrlTail(number)[1..]
  {
    var at := Find(address + ISSUES, ISSUES).value;
    assert (address + ISSUES)[at..at + |ISSUES|][|address| - at] == ISSUES[0] == '/';
    assert ISSUES[|address| - at] == '/' && |address| - at == |ISSUES| - 1;
  }

  lemma {:induction false} PieceStartsWith(rest: string, c: char)
    requires rest != "" && rest[0] == c != '/'
    ensures var piece := UpTo(rest, ISSUES); piece != "" && piece[0] == c
  {
    var j := Find(rest, ISSUES);
    if j.Some? { OccursStarts(rest, ISSUES, j.value); }
  }

  lemma {:induction false} NoNumberAtLetter(piece: string)
    requires piece != "" && piece[0] == 'i'
    ensures var token := FirstToken(piece); token.None? || ParseNumber(StripParens(token.value)).None?
  {
    var token := FirstToken(piece).value;
    ParensStayOff(token);
    assert !IsDigit(StripParens(token)[0]);
  }

  /** An address that ends in "/issues": no number can be read at all. */
  lemma {:induction false} OverlappingIssuesReadsNothing(count: nat, address: string, number: nat)
    requires var at := Find(address + ISSUES, ISSUES); at.Some? && at.value < |address| < at.value + |ISSUES|
    ensures NumberIn(LineFor(count, address, number)) == None
  {
    FollowsOverlap(address, number);
    PieceOf(count, address, number);
    assert UrlTail(number)[1..][0] == ISSUES[1] == 'i';
    PieceStartsWith(UrlTail(number)[1..], 'i');
    NoNumberInLine(LineFor(count, address, number), UpTo(Following(address, number), ISSUES));
  }

  lemma {:induction false} NoNumberInLine(line: string, piece: string)
    requires SecondPiece(line, ISSUES) == Some(piece) && piece != "" && piece[0] == 'i'
    ensures NumberIn(line) == None
  {
    NoNumberAtLetter(piece);
  }

  /** Every number reads back from urls at an address exactly when "/issues/" does not occur too early in it. */
  lemma {:induction false} AddressReadsBackExactlyWhen(count: nat, address: string)
    ensures (forall n: nat :: NumberIn(LineFor(count, address, n)) == Some(n)) <==> AddressOk(address)
  {
    FirstIssuesOf(address, 0);
    if AddressOk(address) {
      forall n: nat ensures NumberIn(LineFor(count, address, n)) == Some(n) { GoodAddressReadsBack(count, address, n); }
    } else if Find(address + ISSUES, ISSUES).value + |ISSUES| <= |address| {
      EarlierIssuesHidesNumber(count, address, 0, 1);
    } else {
      OverlappingIssuesReadsNothing(count, address, 0);
    }
  }

  /** When a repository is called "issues", no number can be read from its urls. */
  lemma {:induction false} RepositoryCalledIssues(count: nat, number: nat)
    ensures !AddressOk("github.com/ann/issues") && NumberIn(LineFor(count, "github.com/ann/issues", number)) == None
  {
    var address := "github.com/ann/issues";
    FirstIssuesInExample();
    OverlappingIssuesReadsNothing(count, address, number);
  }

  lemma {:induction false} FirstIssuesInExample()
    ensures Find("github.com/ann/issues" + ISSUES, ISSUES) == Some(14)
  {
    var s := "github.com/ann/issues" + ISSUES;
    forall j | 0 <= j < 14 ensures !OccursAt(s, ISSUES, j) {
      OccursStarts(s, ISSUES, j);
      if j == 10 {
        assert s[10..18][1] == s[11] == 'a' && ISSUES[1] == 'i';
      }
    }
    assert s[14..22] == ISSUES;
    FindIs(s, ISSUES, 14);
  }

  // ---------- the parser on printed sections ----------

  function FactsIn(area: string, issues: seq<Info>): seq<Fact> {
    if issues == [] then []
    else FactsIn(area, issues[..|issues| - 1]) + [Fact(area, issues[|issues| - 1].number, issues[|issues| - 1].count)]
  }

  /** The reader trims an area's name, and skips the entries under a blank one. */
  function NamedFacts(name: string, issues: seq<Info>): seq<Fact> {
    if name == "" then [] else FactsIn(name, issues)
  }

  function FactsOf(sections: seq<Section>): seq<Fact> {
    if sections == [] then []
    else
      var last := sections[|sections| - 1];
      FactsOf(sections[..|sections| - 1]) + NamedFacts(Strip(last.area), last.issues)
  }

  function Learned(facts: seq<Fact>): seq<Magnet> {
    if facts == [] then [] else AddFact(Learned(facts[..|facts| - 1]), facts[|facts| - 1])
  }

  predicate SectionOk(s: Section) {
    '\n' !in s.area && forall i :: 0 <= i < |s.issues| ==> UrlOk(s.issues[i])
  }

  lemma {:induction false} ParseConcat(st: Parsing, a: seq<string>, b: seq<string>)
    ensures ParseLines(st, a + b) == ParseLines(ParseLines(st, a), b)
  {
    if b == [] {
      assert a + b == a;
    } else {
      ParseConcat(st, a, b[..|b| - 1]);
      assert (a + b)[..|a + b| - 1] == a + b[..|b| - 1];
    }
  }

  lemma {:induction false} HeaderReadsBack(st: Parsing, area: string)
    ensures ParseLines(st, ["", "## " + area, ""]) == st.(area := Some(Strip(area)))
  {
    var lines := ["", "## " + area, ""];
    assert lines[..2] == ["", "## " + area] && lines[..2][..1] == [""] && lines[..1][..0] == [];
    assert ("## " + area)[3..] == area;
    assert ParseLines(st, [""]) == ParseLine(ParseLines(st, [""][..0]), "");
    assert ParseLines(st, lines[..2]) == ParseLine(ParseLines(st, lines[..2][..1]), "## " + area);
  }

  /** What matters of a line that is an issue's entry. */
  predicate IsEntry(line: string, info: Info) {
    && ParseEntry(line) == Some(Entry(info.count, info.number))
    && "-" <= line && !("## " <= line) && Occurs(line, ISSUES)
  }

  /** An issue is learned in an area with a name, and skipped in one without. */
  function Learn(name: string, magnets: seq<Magnet>, info: Info): seq<Magnet> {
    if name == "" then magnets else AddFact(magnets, Fact(name, info.number, info.count))
  }

  function LearnAll(name: string, magnets: seq<Magnet>, issues: seq<Info>): seq<Magnet> {
    if issues == [] then magnets
    else Learn(name, LearnAll(name, magnets, issues[..|issues| - 1]), issues[|issues| - 1])
  }

  lemma {:induction false} EntryIsLearned(name: string, magnets: seq<Magnet>, line: string, info: Info)
    requires IsEntry(line, info)
    ensures ParseLine(Parsing(Some(name), magnets), line) == Parsing(Some(name), Learn(name, magnets, info))
  {
  }

  lemma {:induction false} OneMoreLine(st: Parsing, lines: seq<string>, line: string)
    ensures ParseLines(st, lines + [line]) == ParseLine(ParseLines(st, lines), line)
  {
    assert (lines + [line])[..|lines|] == lines;
  }

  lemma {:induction false} OneMoreEntry(st: Parsing, name: string, magnets: seq<Magnet>, lines: seq<string>, info: Info)
    requires UrlOk(info) && ParseLines(st, lines) == Parsing(Some(name), magnets)
    ensures ParseLines(st, lines + [EntryLine(info)]) == Parsing(Some(name), Learn(name, magnets, info))
  {
    OneMoreLine(st, lines, EntryLine(info));
    EntryReadsBack(info);
    EntryIsLearned(name, magnets, EntryLine(info), info);
  }

  lemma {:induction false} EntriesReadBack(name: string, magnets: seq<Magnet>, issues: seq<Info>)
    requires forall i :: 0 <= i < |issues| ==> UrlOk(issues[i])
    ensures ParseLines(Parsing(Some(name), magnets), EntryLines(issues)) == Parsing(Some(name), LearnAll(name, magnets, issues))
  {
    if issues != [] {
      var before, last := issues[..|issues| - 1], issues[|issues| - 1];
      EntriesReadBack(name, magnets, before);
      OneMoreEntry(Parsing(Some(name), magnets), name, LearnAll(name, magnets, before), EntryLines(before), last);
    }
  }

  lemma {:induction false} LearnedMore(facts: seq<Fact>, f: Fact)
    ensures Learned(facts + [f]) == AddFact(Learned(facts), f)
  {
    assert (facts + [f])[..|facts|] == facts;
  }

  lemma {:induction false} LearnedAll(name: string, facts: seq<Fact>, issues: seq<Info>)
    ensures LearnAll(name, Learned(facts), issues) == Learned(facts + NamedFacts(name, issues))
  {
    if issues == [] {
      assert facts + [] == facts;
    } else {
      var before, last := issues[..|issues| - 1], issues[|issues| - 1];
      LearnedAll(name, facts, before);
      if name != "" {
        var f := Fact(name, last.number, last.count);
        assert facts + FactsIn(name, issues) == (facts + FactsIn(name, before)) + [f];
        LearnedMore(facts + FactsIn(name, before), f);
      }
    }
  }

  lemma {:induction false} EntriesAreLines(issues: seq<Info>)
    requires forall i :: 0 <= i < |issues| ==> UrlOk(issues[i])
    ensures forall i :: 0 <= i < |EntryLines(issues)| ==> '\n' !in EntryLines(issues)[i]
  {
    if issues != [] {
      EntriesAreLines(issues[..|issues| - 1]);
      EntryIsOneLine(issues[|issues| - 1]);
    }
  }

  /** After the lines of one more section, the parser has learned its facts. */
  lemma {:induction false} SectionReadsBack(printed: seq<string>, facts: seq<Fact>, s: Section)
    requires SectionOk(s) && ParseLines(Parsing(None, []), printed).magnets == Learned(facts)
    ensures ParseLines(Parsing(None, []), printed + ["", "## " + s.area, ""] + EntryLines(s.issues)).magnets
            == Learned(facts + NamedFacts(Strip(s.area), s.issues))
  {
    var start := Parsing(None, []);
    var head := ["", "## " + s.area, ""];
    ParseConcat(start, printed + head, EntryLines(s.issues));
    ParseConcat(start, printed, head);
    HeaderReadsBack(ParseLines(start, printed), s.area);
    EntriesReadBack(Strip(s.area), Learned(facts), s.issues);
    LearnedAll(Strip(s.area), facts, s.issues);
  }

  lemma {:induction false} SectionsReadBack(sections: seq<Section>)
    requires forall k :: 0 <= k < |sections| ==> SectionOk(sections[k])
    ensures ParseLines(Parsing(None, []), [INTRO] + SectionLines(sections)).magnets == Learned(FactsOf(sections))
  {
    if sections == [] {
      IntroIsSkipped();
      assert [INTRO] + [] == [INTRO];
    } else {
      var before, last := sections[..|sections| - 1], sections[|sections| - 1];
      SectionsReadBack(before);
      assert SectionOk(last);
      SectionReadsBack([INTRO] + SectionLines(before), FactsOf(before), last);
      Regroup([INTRO], SectionLines(before), ["", "## " + last.area, ""], EntryLines(last.issues));
    }
  }

  lemma {:induction false} Regroup(a: seq<string>, b: seq<string>, c: seq<string>, d: seq<string>)
    ensures a + b + c + d == a + (b + c + d)
  {
  }

  lemma IntroIsSkipped()
    ensures ParseLines(Parsing(None, []), [INTRO]) == Parsing(None, [])
  {
    assert [INTRO][..0] == [];
    assert INTRO[0] == 'T';
  }

  lemma {:induction false} PrintedLinesAreLines(sections: seq<Section>)
    requires forall k :: 0 <= k < |sections| ==> SectionOk(sections[k])
    ensures forall i :: 0 <= i < |SectionLines(sections)| ==> '\n' !in SectionLines(sections)[i]
  {
    if sections != [] {
      var last := sections[|sections| - 1];
      PrintedLinesAreLines(sections[..|sections| - 1]);
      assert SectionOk(last);
      EntriesAreLines(last.issues);
    }
  }

  lemma IntroIsOneLine()
    ensures '\n' !in INTRO
  {
    assert '\n' !in "These are the issues " && '\n' !in "that are frequently " && '\n' !in "re-reported. ";
    assert '\n' !in "The list is generated " && '\n' !in "regularly by running " && '\n' !in "a script.";
  }

  // ---------- what the parser learns from facts ----------

  function AreasIn(facts: seq<Fact>, number: nat): seq<string> {
    if facts == [] then []
    else
      var f := facts[|facts| - 1];
      AreasIn(facts[..|facts| - 1], number) + (if f.number == number && f.area != UNLABELED then [f.area] else [])
  }

  predicate DistinctNumbers(magnets: seq<Magnet>) {
    forall i, j :: 0 <= i < j < |magnets| ==> magnets[i].number != magnets[j].number
  }

  /** One magnet per number, with its areas and a count that some fact gives. */
  ghost predicate Summarizes(magnets: seq<Magnet>, facts: seq<Fact>) {
    && DistinctNumbers(magnets)
    && (forall i :: 0 <= i < |magnets| ==> magnets[i].areas == AreasIn(facts, magnets[i].number) && HasFact(facts, magnets[i]))
    && (forall k :: 0 <= k < |facts| ==> IndexOf(magnets, facts[k].number).Some?)
  }

  ghost predicate HasFact(facts: seq<Fact>, m: Magnet) {
    exists k :: 0 <= k < |facts| && facts[k].number == m.number && facts[k].count == m.count
  }

  lemma {:induction false} NoFactNoAreas(facts: seq<Fact>, number: nat)
    requires forall k :: 0 <= k < |facts| ==> facts[k].number != number
    ensures AreasIn(facts, number) == []
  {
    if facts != [] { NoFactNoAreas(facts[..|facts| - 1], number); }
  }

  lemma {:induction false} LearnedSummarizes(facts: seq<Fact>)
    ensures Summarizes(Learned(facts), facts)
  {
    if facts != [] {
      LearnedSummarizes(facts[..|facts| - 1]);
      OneMoreFact(Learned(facts[..|facts| - 1]), facts[..|facts| - 1], facts[|facts| - 1]);
      assert facts == facts[..|facts| - 1] + [facts[|facts| - 1]];
    }
  }

  lemma {:induction false} AreasMore(facts: seq<Fact>, f: Fact, number: nat)
    ensures AreasIn(facts + [f], number)
            == AreasIn(facts, number) + (if f.number == number && f.area != UNLABELED then [f.area] else [])
  {
  }

  lemma {:induction false} HasFactMore(facts: seq<Fact>, f: Fact, m: Magnet)
    ensures HasFact(facts, m) || (f.number == m.number && f.count == m.count) ==> HasFact(facts + [f], m)
  {
    var all := facts + [f];
    if k :| 0 <= k < |facts| && facts[k].number == m.number && facts[k].count == m.count { assert all[k] == facts[k]; }
    assert all[|facts|] == f;
  }

  lemma {:induction false} NumbersStay(magnets: seq<Magnet>, f: Fact)
    ensures var after := AddFact(magnets, f);
            && |magnets| <= |after|
            && (forall i :: 0 <= i < |magnets| ==> after[i].number == magnets[i].number && after[i].count == magnets[i].count)
            && (|after| > |magnets| ==> |after| == |magnets| + 1 && after[|magnets|].number == f.number && IndexOf(magnets, f.number).None?)
            && IndexOf(after, f.number).Some?
            && (forall n :: IndexOf(magnets, n).Some? ==> IndexOf(after, n).Some?)
  {
  }

  lemma {:induction false} StaysDistinct(magnets: seq<Magnet>, f: Fact)
    requires DistinctNumbers(magnets)
    ensures DistinctNumbers(AddFact(magnets, f))
  {
  }

  lemma {:induction false} OneMoreFact(magnets: seq<Magnet>, facts: seq<Fact>, f: Fact)
    requires Summarizes(magnets, facts)
    ensures Summarizes(AddFact(magnets, f), facts + [f])
  {
    var after, all := AddFact(magnets, f), facts + [f];
    StaysDistinct(magnets, f);
    forall i | 0 <= i < |after|
      ensures after[i].areas == AreasIn(all, after[i].number) && HasFact(all, after[i])
    {
      OneMagnetAfter(magnets, facts, f, i);
    }
    forall k | 0 <= k < |all| ensures IndexOf(after, all[k].number).Some? {
      NumbersStay(magnets, f);
      assert all[k] == if k < |facts| then facts[k] else f;
    }
  }

  lemma {:induction false} OneMagnetAfter(magnets: seq<Magnet>, facts: seq<Fact>, f: Fact, i: nat)
    requires Summarizes(magnets, facts) && i < |AddFact(magnets, f)|
    ensures var m := AddFact(magnets, f)[i]; m.areas == AreasIn(facts + [f], m.number) && HasFact(facts + [f], m)
  {
    var after := AddFact(magnets, f);
    NumbersStay(magnets, f);
    AreasMore(facts, f, after[i].number);
    HasFactMore(facts, f, after[i]);
    if i < |magnets| {
      assert HasFact(facts, magnets[i]);
      var k :| 0 <= k < |facts| && facts[k].number == magnets[i].number && facts[k].count == magnets[i].count;
      assert HasFact(facts, after[i]);
    } else {
      NewNumber(magnets, facts, f.number);
    }
  }

  lemma {:induction false} NewNumber(magnets: seq<Magnet>, facts: seq<Fact>, number: nat)
    requires Summarizes(magnets, facts) && IndexOf(magnets, number).None?
    ensures AreasIn(facts, number) == []
  {
    forall k | 0 <= k < |facts| ensures facts[k].number != number {
      var i := IndexOf(magnets, facts[k].number);
    }
    NoFactNoAreas(facts, number);
  }

  // ---------- how often a fact is printed ----------

  function One(b: bool): nat {
    if b then 1 else 0
  }

  /** How many facts put this issue in this area. */
  function Times(facts: seq<Fact>, number: nat, area: string): nat {
    if facts == [] then 0
    else
      var f := facts[|facts| - 1];
      Times(facts[..|facts| - 1], number, area) + One(f.number == number && f.area == area)
  }

  /** How many of the issues have this number. */
  function Matching(issues: seq<Info>, number: nat): nat {
    if issues == [] then 0 else Matching(issues[..|issues| - 1], number) + One(issues[|issues| - 1].number == number)
  }

  /** How many listings put this issue under an area with this name. */
  function Listed(ls: seq<Listing>, number: nat, name: string): nat {
    if ls == [] then 0
    else
      var l := ls[|ls| - 1];
      Listed(ls[..|ls| - 1], number, name) + One(l.info.number == number && Strip(l.area) == name)
  }

  /** How many of the areas have this name. */
  function NamedTimes(areas: seq<string>, name: string): nat {
    if areas == [] then 0 else NamedTimes(areas[..|areas| - 1], name) + One(Strip(areas[|areas| - 1]) == name)
  }

  lemma {:induction false} AreasAreThoseOfFacts(facts: seq<Fact>, number: nat, area: string)
    ensures multiset(AreasIn(facts, number))[area] == if area == UNLABELED then 0 else Times(facts, number, area)
  {
    if facts != [] {
      AreasAreThoseOfFacts(facts[..|facts| - 1], number, area);
    }
  }

  lemma {:induction false} TimesConcat(a: seq<Fact>, b: seq<Fact>, number: nat, area: string)
    ensures Times(a + b, number, area) == Times(a, number, area) + Times(b, number, area)
  {
    if b == [] {
      assert a + b == a;
    } else {
      TimesConcat(a, b[..|b| - 1], number, area);
      assert (a + b)[..|a + b| - 1] == a + b[..|b| - 1];
    }
  }

  lemma {:induction false} TimesIn(name: string, issues: seq<Info>, number: nat, area: string)
    ensures Times(FactsIn(name, issues), number, area) == if name == area then Matching(issues, number) else 0
  {
    if issues != [] {
      TimesIn(name, issues[..|issues| - 1], number, area);
      assert FactsIn(name, issues)[..|FactsIn(name, issues)| - 1] == FactsIn(name, issues[..|issues| - 1]);
    }
  }

  lemma {:induction false} MatchingConcat(a: seq<Info>, b: seq<Info>, number: nat)
    ensures Matching(a + b, number) == Matching(a, number) + Matching(b, number)
  {
    if b == [] {
      assert a + b == a;
    } else {
      MatchingConcat(a, b[..|b| - 1], number);
      assert (a + b)[..|a + b| - 1] == a + b[..|b| - 1];
    }
  }

  lemma {:induction false} MatchingOne(x: Info, xs: seq<Info>, number: nat)
    ensures Matching([x] + xs, number) == One(x.number == number) + Matching(xs, number)
  {
    MatchingConcat([x], xs, number);
    assert [x][..0] == [];
  }

  lemma {:induction false} MatchingInserted(x: Info, xs: seq<Info>, number: nat)
    ensures Matching(InsertDesc(x, xs, CountOfInfo), number) == One(x.number == number) + Matching(xs, number)
  {
    if xs == [] || CountOfInfo(x) >= CountOfInfo(xs[0]) {
      MatchingOne(x, xs, number);
    } else {
      MatchingInserted(x, xs[1..], number);
      MatchingOne(xs[0], InsertDesc(x, xs[1..], CountOfInfo), number);
      MatchingOne(xs[0], xs[1..], number);
      assert [xs[0]] + xs[1..] == xs;
    }
  }

  lemma {:induction false} MatchingSorted(xs: seq<Info>, number: nat)
    ensures Matching(SortDesc(xs, CountOfInfo), number) == Matching(xs, number)
  {
    if xs != [] {
      MatchingSorted(xs[1..], number);
      MatchingInserted(xs[0], SortDesc(xs[1..], CountOfInfo), number);
      MatchingOne(xs[0], xs[1..], number);
      assert [xs[0]] + xs[1..] == xs;
    }
  }

  /** The issues grouped under the areas with this name, area by area. */
  function Printed(ls: seq<Listing>, areas: seq<string>, number: nat, name: string): nat {
    if areas == [] then 0
    else
      var area := areas[|areas| - 1];
      Printed(ls, areas[..|areas| - 1], number, name) + (if Strip(area) == name then Matching(Grouped(ls, area), number) else 0)
  }

  lemma {:induction false} TimesOfSections(ls: seq<Listing>, areas: seq<string>, number: nat, name: string)
    requires name != ""
    ensures Times(FactsOf(SectionsFor(ls, areas)), number, name) == Printed(ls, areas, number, name)
  {
    if areas != [] {
      var before, area := areas[..|areas| - 1], areas[|areas| - 1];
      TimesOfSections(ls, before, number, name);
      OneMoreSection(ls, before, area, number, name);
      assert before + [area] == areas;
    }
  }

  lemma {:induction false} OneMoreSection(ls: seq<Listing>, before: seq<string>, area: string, number: nat, name: string)
    requires name != ""
    ensures Times(FactsOf(SectionsFor(ls, before + [area])), number, name)
            == Times(FactsOf(SectionsFor(ls, before)), number, name)
               + (if Strip(area) == name then Matching(Grouped(ls, area), number) else 0)
  {
    var issues := SortDesc(Grouped(ls, area), CountOfInfo);
    var sections := SectionsFor(ls, before);
    assert (before + [area])[..|before|] == before;
    assert (sections + [Section(area, issues)])[..|sections|] == sections;
    TimesConcat(FactsOf(sections), NamedFacts(Strip(area), issues), number, name);
    TimesIn(Strip(area), issues, number, name);
    MatchingSorted(Grouped(ls, area), number);
  }

  lemma {:induction false} PrintedMore(ls: seq<Listing>, l: Listing, areas: seq<string>, number: nat, name: string)
    requires NoDuplicates(areas)
    ensures Printed(ls + [l], areas, number, name)
            == Printed(ls, areas, number, name) + One(l.area in areas && l.info.number == number && Strip(l.area) == name)
  {
    if areas != [] {
      var before, area := areas[..|areas| - 1], areas[|areas| - 1];
      PrintedMore(ls, l, before, number, name);
      GroupsMore(ls, l, area);
      MatchingConcat(Grouped(ls, area), [l.info], number);
      assert [l.info][..0] == [];
      assert l.area in areas <==> l.area in before || l.area == area;
    }
  }

  lemma {:induction false} PrintedAsListed(ls: seq<Listing>, areas: seq<string>, number: nat, name: string)
    requires NoDuplicates(areas) && forall l :: l in ls ==> l.area in areas
    ensures Printed(ls, areas, number, name) == Listed(ls, number, name)
  {
    if ls == [] {
      NothingPrinted(areas, number, name);
    } else {
      var before, last := ls[..|ls| - 1], ls[|ls| - 1];
      PrintedAsListed(before, areas, number, name);
      PrintedMore(before, last, areas, number, name);
      assert before + [last] == ls;
    }
  }

  lemma {:induction false} NothingPrinted(areas: seq<string>, number: nat, name: string)
    ensures Printed([], areas, number, name) == 0
  {
    if areas != [] { NothingPrinted(areas[..|areas| - 1], number, name); }
  }

  // ---------- what is listed ----------

  /** One issue per number, names of areas on one line, and urls from which the number reads back. */
  predicate ListOk(infos: seq<Info>) {
    && (forall k :: 0 <= k < |infos| ==> UrlOk(infos[k]))
    && (forall k, i :: 0 <= k < |infos| && 0 <= i < |infos[k].areas| ==> '\n' !in infos[k].areas[i])
    && (forall j, k :: 0 <= j < k < |infos| ==> infos[j].number != infos[k].number)
  }

  lemma {:induction false} ListedConcat(a: seq<Listing>, b: seq<Listing>, number: nat, name: string)
    ensures Listed(a + b, number, name) == Listed(a, number, name) + Listed(b, number, name)
  {
    if b == [] {
      assert a + b == a;
    } else {
      ListedConcat(a, b[..|b| - 1], number, name);
      assert (a + b)[..|a + b| - 1] == a + b[..|b| - 1];
    }
  }

  lemma {:induction false} ListedOf(info: Info, areas: seq<string>, number: nat, name: string)
    ensures Listed(ListingsOf(info, areas), number, name) == if info.number == number then NamedTimes(areas, name) else 0
  {
    if areas != [] {
      var before := ListingsOf(info, areas[..|areas| - 1]);
      ListedOf(info, areas[..|areas| - 1], number, name);
      assert ListingsOf(info, areas)[..|before|] == before;
    }
  }

  lemma {:induction false} OthersAreNotListed(infos: seq<Info>, number: nat, name: string)
    requires forall k :: 0 <= k < |infos| ==> infos[k].number != number
    ensures Listed(Listings(infos), number, name) == 0
  {
    if infos != [] {
      var last := infos[|infos| - 1];
      OthersAreNotListed(infos[..|infos| - 1], number, name);
      ListedOf(last, last.areas, number, name);
      ListedConcat(Listings(infos[..|infos| - 1]), ListingsOf(last, last.areas), number, name);
    }
  }

  lemma {:induction false} ListedAsNamed(infos: seq<Info>, k: nat, name: string)
    requires k < |infos| && forall i, j :: 0 <= i < j < |infos| ==> infos[i].number != infos[j].number
    ensures Listed(Listings(infos), infos[k].number, name) == NamedTimes(infos[k].areas, name)
  {
    var before, last := infos[..|infos| - 1], infos[|infos| - 1];
    ListedConcat(Listings(before), ListingsOf(last, last.areas), infos[k].number, name);
    ListedOf(last, last.areas, infos[k].number, name);
    if k == |before| {
      OthersAreNotListed(before, last.number, name);
    } else {
      ListedAsNamed(before, k, name);
    }
  }

  lemma {:induction false} ListingsOfAre(info: Info, areas: seq<string>, l: Listing)
    ensures l in ListingsOf(info, areas) <==> l.info == info && l.area in areas
  {
    if areas != [] {
      ListingsOfAre(info, areas[..|areas| - 1], l);
      assert l.area in areas <==> l.area in areas[..|areas| - 1] || l.area == areas[|areas| - 1];
    }
  }

  lemma {:induction false} ListingsAre(infos: seq<Info>, l: Listing)
    ensures l in Listings(infos) <==> l.info in infos && l.area in l.info.areas
  {
    if infos != [] {
      var last := infos[|infos| - 1];
      ListingsAre(infos[..|infos| - 1], l);
      ListingsOfAre(last, last.areas, l);
      assert l.info in infos <==> l.info in infos[..|infos| - 1] || l.info == last;
    }
  }

  lemma {:induction false} AreaOrderIs(ls: seq<Listing>)
    ensures NoDuplicates(AreaOrder(ls)) && forall area :: area in AreaOrder(ls) <==> exists l :: l in ls && l.area == area
  {
    if ls != [] {
      var before, last := ls[..|ls| - 1], ls[|ls| - 1];
      AreaOrderIs(before);
      assert forall l :: l in ls <==> l in before || l == last;
      assert last in ls;
    }
  }

  /** `a` is listed before `b` is listed for the first time. */
  predicate ListedBefore(ls: seq<Listing>, a: string, b: string) {
    exists k :: 0 <= k < |ls| && ls[k].area == a && forall m :: 0 <= m <= k ==> ls[m].area != b
  }

  /** Areas come in the order in which they are first listed; a later sort keeps that order for ties. */
  lemma {:induction false} FirstListedFirst(ls: seq<Listing>, i: nat, j: nat)
    requires i < j < |AreaOrder(ls)|
    ensures ListedBefore(ls, AreaOrder(ls)[i], AreaOrder(ls)[j])
  {
    var before, last := ls[..|ls| - 1], ls[|ls| - 1];
    var order := AreaOrder(before);
    AreaOrderIs(before);
    if j < |order| {
      FirstListedFirst(before, i, j);
      var k :| 0 <= k < |before| && before[k].area == order[i] && forall m :: 0 <= m <= k ==> before[m].area != order[j];
      assert forall m :: 0 <= m <= k ==> ls[m] == before[m];
    } else {
      assert order[i] in order;
      var l :| l in before && l.area == order[i];
      var k :| 0 <= k < |before| && before[k] == l;
      forall m | 0 <= m <= k ensures ls[m].area != last.area { assert ls[m] == before[m] && before[m] in before; }
    }
  }

  lemma {:induction false} GroupedIs(ls: seq<Listing>, area: string, info: Info)
    ensures info in Grouped(ls, area) <==> Listing(area, info) in ls
  {
    if ls != [] {
      GroupedIs(ls[..|ls| - 1], area, info);
      assert Listing(area, info) in ls <==> Listing(area, info) in ls[..|ls| - 1] || Listing(area, info) == ls[|ls| - 1];
    }
  }

  /** The areas in the order of the sections. */
  function Ranked(infos: seq<Info>): seq<string> {
    SortDesc(AreaOrder(Listings(infos)), TotalIn(Listings(infos)))
  }

  lemma {:induction false} RankedAreas(infos: seq<Info>)
    ensures NoDuplicates(Ranked(infos))
    ensures forall area :: area in Ranked(infos) <==> exists l :: l in Listings(infos) && l.area == area
  {
    var ls := Listings(infos);
    AreaOrderIs(ls);
    SortDescIsRight(AreaOrder(ls), TotalIn(ls));
    PermutationKeepsNoDuplicates(AreaOrder(ls), Ranked(infos));
    forall area ensures area in Ranked(infos) <==> area in AreaOrder(ls) { SortedMember(AreaOrder(ls), TotalIn(ls), area); }
  }

  /** The printed entries put each issue under each name exactly as often as its areas have that name. */
  lemma {:induction false} PrintedAsNamed(infos: seq<Info>, k: nat, name: string)
    requires ListOk(infos) && k < |infos| && name != ""
    ensures Times(FactsOf(Sections(infos)), infos[k].number, name) == NamedTimes(infos[k].areas, name)
  {
    var ls, areas := Listings(infos), Ranked(infos);
    RankedAreas(infos);
    TimesOfSections(ls, areas, infos[k].number, name);
    PrintedAsListed(ls, areas, infos[k].number, name);
    ListedAsNamed(infos, k, name);
  }

  // ---------- every fact comes from a listed issue ----------

  /** The issue's number and count, under the name of one of its areas. */
  ghost predicate Gives(info: Info, f: Fact) {
    f.number == info.number && f.count == info.count && f.area != "" && exists area :: area in info.areas && Strip(area) == f.area
  }

  lemma {:induction false} FactsInAre(area: string, issues: seq<Info>, f: Fact)
    requires f in FactsIn(area, issues)
    ensures f.area == area && exists info :: info in issues && f.number == info.number && f.count == info.count
  {
    if f in FactsIn(area, issues[..|issues| - 1]) {
      FactsInAre(area, issues[..|issues| - 1], f);
      var info :| info in issues[..|issues| - 1] && f.number == info.number && f.count == info.count;
      assert info in issues;
    } else {
      assert issues[|issues| - 1] in issues;
    }
  }

  lemma {:induction false} SectionFactsAre(infos: seq<Info>, areas: seq<string>, f: Fact)
    requires f in FactsOf(SectionsFor(Listings(infos), areas))
    ensures exists k :: 0 <= k < |infos| && Gives(infos[k], f)
  {
    var before, area := areas[..|areas| - 1], areas[|areas| - 1];
    var ls, sections := Listings(infos), SectionsFor(Listings(infos), areas);
    var issues := SortDesc(Grouped(ls, area), CountOfInfo);
    assert sections[..|sections| - 1] == SectionsFor(ls, before) && sections[|sections| - 1] == Section(area, issues);
    if f in FactsOf(SectionsFor(ls, before)) {
      SectionFactsAre(infos, before, f);
    } else {
      assert f in NamedFacts(Strip(area), issues);
      GroupedFactsAre(infos, area, f);
    }
  }

  lemma {:induction false} GroupedFactsAre(infos: seq<Info>, area: string, f: Fact)
    requires f in NamedFacts(Strip(area), SortDesc(Grouped(Listings(infos), area), CountOfInfo))
    ensures exists k :: 0 <= k < |infos| && Gives(infos[k], f)
  {
    var group := Grouped(Listings(infos), area);
    FactsInAre(Strip(area), SortDesc(group, CountOfInfo), f);
    var info :| info in SortDesc(group, CountOfInfo) && f.number == info.number && f.count == info.count;
    SortedMember(group, CountOfInfo, info);
    GroupedIs(Listings(infos), area, info);
    ListingsAre(infos, Listing(area, info));
    var k :| 0 <= k < |infos| && infos[k] == info;
    assert Gives(infos[k], f);
  }

  lemma {:induction false} PrintedSectionsAreFine(infos: seq<Info>)
    requires ListOk(infos)
    ensures forall k :: 0 <= k < |Sections(infos)| ==> SectionOk(Sections(infos)[k])
  {
    RankedAreas(infos);
    forall k | 0 <= k < |Ranked(infos)| ensures '\n' !in Ranked(infos)[k] {
      assert Ranked(infos)[k] in Ranked(infos);
      var l :| l in Listings(infos) && l.area == Ranked(infos)[k];
      ListedAreaIsOneLine(infos, l);
    }
    SectionsAreFine(infos, Ranked(infos));
    assert Sections(infos) == SectionsFor(Listings(infos), Ranked(infos));
  }

  lemma {:induction false} ListedAreaIsOneLine(infos: seq<Info>, l: Listing)
    requires ListOk(infos) && l in Listings(infos)
    ensures '\n' !in l.area && UrlOk(l.info)
  {
    ListingsAre(infos, l);
    var k :| 0 <= k < |infos| && infos[k] == l.info;
    var i :| 0 <= i < |infos[k].areas| && infos[k].areas[i] == l.area;
  }

  lemma {:induction false} SectionIsFine(infos: seq<Info>, area: string)
    requires ListOk(infos) && '\n' !in area
    ensures SectionOk(Section(area, SortDesc(Grouped(Listings(infos), area), CountOfInfo)))
  {
    var group := Grouped(Listings(infos), area);
    var issues := SortDesc(group, CountOfInfo);
    forall i | 0 <= i < |issues| ensures UrlOk(issues[i]) {
      assert issues[i] in issues;
      SortedMember(group, CountOfInfo, issues[i]);
      GroupedIs(Listings(infos), area, issues[i]);
      ListedAreaIsOneLine(infos, Listing(area, issues[i]));
    }
  }

  lemma {:induction false} SectionsAreFine(infos: seq<Info>, areas: seq<string>)
    requires ListOk(infos) && forall k :: 0 <= k < |areas| ==> '\n' !in areas[k]
    ensures forall k :: 0 <= k < |SectionsFor(Listings(infos), areas)| ==> SectionOk(SectionsFor(Listings(infos), areas)[k])
  {
    if areas != [] {
      SectionsAreFine(infos, areas[..|areas| - 1]);
      SectionIsFine(infos, areas[|areas| - 1]);
    }
  }

  // ---------- the order of the list ----------

  /** All duplicates of these issues together. */
  function AllDuplicates(issues: seq<Info>): nat {
    if issues == [] then 0 else AllDuplicates(issues[..|issues| - 1]) + issues[|issues| - 1].count
  }

  lemma {:induction false} DuplicatesConcat(a: seq<Info>, b: seq<Info>)
    ensures AllDuplicates(a + b) == AllDuplicates(a) + AllDuplicates(b)
  {
    if b == [] {
      assert a + b == a;
    } else {
      DuplicatesConcat(a, b[..|b| - 1]);
      assert (a + b)[..|a + b| - 1] == a + b[..|b| - 1];
    }
  }

  lemma {:induction false} DuplicatesOne(x: Info, xs: seq<Info>)
    ensures AllDuplicates([x] + xs) == x.count + AllDuplicates(xs)
  {
    DuplicatesConcat([x], xs);
    assert [x][..0] == [];
  }

  lemma {:induction false} DuplicatesInserted(x: Info, xs: seq<Info>)
    ensures AllDuplicates(InsertDesc(x, xs, CountOfInfo)) == x.count + AllDuplicates(xs)
  {
    if xs == [] || CountOfInfo(x) >= CountOfInfo(xs[0]) {
      DuplicatesOne(x, xs);
    } else {
      DuplicatesInserted(x, xs[1..]);
      DuplicatesOne(xs[0], InsertDesc(x, xs[1..], CountOfInfo));
      DuplicatesOne(xs[0], xs[1..]);
      assert [xs[0]] + xs[1..] == xs;
    }
  }

  lemma {:induction false} DuplicatesSorted(xs: seq<Info>)
    ensures AllDuplicates(SortDesc(xs, CountOfInfo)) == AllDuplicates(xs)
  {
    if xs != [] {
      DuplicatesSorted(xs[1..]);
      DuplicatesInserted(xs[0], SortDesc(xs[1..], CountOfInfo));
      DuplicatesOne(xs[0], xs[1..]);
      assert [xs[0]] + xs[1..] == xs;
    }
  }

  lemma {:induction false} SumsAreDuplicates(issues: seq<Info>)
    ensures SumCounts(issues) == AllDuplicates(issues)
  {
    if issues != [] { SumsAreDuplicates(issues[..|issues| - 1]); }
  }

  lemma {:induction false} SectionAt(ls: seq<Listing>, areas: seq<string>, k: nat)
    requires k < |areas|
    ensures |SectionsFor(ls, areas)| == |areas|
    ensures SectionsFor(ls, areas)[k] == Section(areas[k], SortDesc(Grouped(ls, areas[k]), CountOfInfo))
  {
    if k < |areas| - 1 {
      SectionAt(ls, areas[..|areas| - 1], k);
    } else if k > 0 {
      SectionAt(ls, areas[..k], 0);
    }
  }

  lemma {:induction false} TotalOfSection(infos: seq<Info>, k: nat)
    requires k < |Ranked(infos)|
    ensures |Sections(infos)| == |Ranked(infos)| && Sections(infos)[k].area == Ranked(infos)[k]
    ensures TotalIn(Listings(infos))(Ranked(infos)[k]) == AllDuplicates(Sections(infos)[k].issues)
    ensures forall i, j :: 0 <= i < j < |Sections(infos)[k].issues| ==>
              Sections(infos)[k].issues[i].count >= Sections(infos)[k].issues[j].count
  {
    var group := Grouped(Listings(infos), Ranked(infos)[k]);
    SectionAt(Listings(infos), Ranked(infos), k);
    DuplicatesSorted(group);
    SumsAreDuplicates(group);
    SortDescIsRight(group, CountOfInfo);
    var issues := Sections(infos)[k].issues;
    forall i, j | 0 <= i < j < |issues| ensures issues[i].count >= issues[j].count {
      assert CountOfInfo(issues[i]) >= CountOfInfo(issues[j]);
    }
  }

  lemma {:induction false} RankedSections(infos: seq<Info>)
    ensures |Sections(infos)| == |Ranked(infos)|
  {
    if Ranked(infos) != [] { SectionAt(Listings(infos), Ranked(infos), 0); }
  }

  /** Each area has one section; the one with most duplicates comes first, and so does the issue with most in each. */
  lemma {:induction false} MostDuplicatesFirst(infos: seq<Info>)
    ensures var sections := Sections(infos);
            && (forall j, k :: 0 <= j < k < |sections| ==>
                  sections[j].area != sections[k].area && AllDuplicates(sections[j].issues) >= AllDuplicates(sections[k].issues))
            && (forall k :: 0 <= k < |sections| ==> CountsDescend(sections[k].issues))
  {
    var sections := Sections(infos);
    RankedAreas(infos);
    RankedSections(infos);
    SortDescIsRight(AreaOrder(Listings(infos)), TotalIn(Listings(infos)));
    forall k | 0 <= k < |sections| ensures CountsDescend(sections[k].issues) { TotalOfSection(infos, k); }
    forall j, k | 0 <= j < k < |sections|
      ensures sections[j].area != sections[k].area && AllDuplicates(sections[j].issues) >= AllDuplicates(sections[k].issues)
    {
      TotalOfSection(infos, j);
      TotalOfSection(infos, k);
    }
  }

  predicate CountsDescend(issues: seq<Info>) {
    forall i, j :: 0 <= i < j < |issues| ==> issues[i].count >= issues[j].count
  }

  /** How one section is printed. */
  lemma {:induction false} SectionPrints(before: seq<Section>, area: string, issue: Info)
    ensures SectionLines(before + [Section(area, [issue])])
            == SectionLines(before)
               + ["", "## " + area, "",
                  "-   [" + (if issue.count < 10 then " " else "") + Decimal(issue.count) + " dupes] " + issue.url]
  {
    MoreSectionLines(before, Section(area, [issue]));
    assert [issue][..0] == [];
    EntryPrints(issue);
  }

  lemma {:induction false} EntryPrints(issue: Info)
    ensures EntryLine(issue) == "-   [" + (if issue.count < 10 then " " else "") + Decimal(issue.count) + " dupes] " + issue.url
  {
    PaddingPrints("-   [", Decimal(issue.count));
  }

  lemma {:induction false} PaddingPrints(start: string, d: string)
    ensures start + " " + d == start + (" " + d) && start + "" + d == start + d
  {
  }

  // ---------- other lines ----------

  /** A line that is no header and no entry, or an entry before any named area, teaches nothing. */
  lemma {:induction false} OtherLinesAreSkipped(st: Parsing, line: string)
    requires !("## " <= line)
    requires st.area.None? || st.area.value == "" || !("-" <= line) || !Occurs(line, "/issues/") || ParseEntry(line).None?
    ensures ParseLine(st, line) == st
  {
  }

  /** A parenthesis after the address does not matter. */
  lemma {:induction false} ParenthesisIsIgnored(info: Info)
    requires UrlOk(info)
    ensures NumberIn(EntryLine(info) + ")") == Some(info.number)
  {
    var d := Decimal(info.number);
    var url := info.url + ")";
    var at := |info.url| - |UrlTail(info.number)|;
    FindExtends(info.url, ")", ISSUES);
    assert EntryLine(info) + ")" == EntryHead(info.count) + url;
    assert url[at..] == info.url[at..] + ")" == ISSUES + (d + ")");
    NotWithout(d + ")", ISSUES);
    SecondPieceAtEnd(EntryHead(info.count), url, ISSUES, d + ")");
    TokenWithParenthesis(d);
    DecimalReadsBack(info.number);
  }

  lemma {:induction false} TokenWithParenthesis(d: string)
    requires d != "" && AllDigits(d)
    ensures FirstToken(d + ")") == Some(d + ")") && StripParens(d + ")") == d
  {
    TokenEnds(d + ")", "");
    assert d + ")" + "" == d + ")" && (d + ")")[..|d| + 1] == d + ")" && (d + ")")[..|d|] == d;
  }

  // ---------- the round trip ----------

  /**
   The magnet is the issue: its number, its count, and its areas, trimmed, each as often as it is
   listed; a blank name and "(unlabeled)" mean no area.
   */
  ghost predicate Same(m: Magnet, info: Info) {
    && m.number == info.number && m.count == info.count
    && forall a :: multiset(m.areas)[a] == if a == "" || a == "(unlabeled)" then 0 else NamedTimes(info.areas, a)
  }

  /** Some area has a name that is not blank. */
  predicate HasNamedArea(areas: seq<string>) {
    exists i :: 0 <= i < |areas| && Strip(areas[i]) != ""
  }

  lemma {:induction false} NoBlankFacts(facts: seq<Fact>, number: nat)
    requires forall f :: f in facts ==> f.area != ""
    ensures Times(facts, number, "") == 0
  {
    if facts != [] {
      assert facts[|facts| - 1] in facts;
      NoBlankFacts(facts[..|facts| - 1], number);
    }
  }

  lemma {:induction false} FactIsGiven(infos: seq<Info>, f: Fact)
    requires f in FactsOf(Sections(infos))
    ensures exists k :: 0 <= k < |infos| && Gives(infos[k], f)
  {
    assert Sections(infos) == SectionsFor(Listings(infos), Ranked(infos));
    SectionFactsAre(infos, Ranked(infos), f);
  }

  lemma {:induction false} AreasAsNamed(infos: seq<Info>, k: nat, a: string)
    requires ListOk(infos) && k < |infos|
    ensures multiset(AreasIn(FactsOf(Sections(infos)), infos[k].number))[a]
            == if a == "" || a == UNLABELED then 0 else NamedTimes(infos[k].areas, a)
  {
    var facts := FactsOf(Sections(infos));
    AreasAreThoseOfFacts(facts, infos[k].number, a);
    if a == "" {
      forall f | f in facts ensures f.area != "" { FactIsGiven(infos, f); }
      NoBlankFacts(facts, infos[k].number);
    } else {
      PrintedAsNamed(infos, k, a);
    }
  }

  lemma {:induction false} GivenIsNamed(info: Info, f: Fact)
    requires Gives(info, f)
    ensures HasNamedArea(info.areas)
  {
    var area :| area in info.areas && Strip(area) == f.area;
    var i :| 0 <= i < |info.areas| && info.areas[i] == area;
  }

  lemma {:induction false} OneInfoPerNumber(infos: seq<Info>, j: nat, k: nat)
    requires ListOk(infos) && j < |infos| && k < |infos| && infos[j].number == infos[k].number
    ensures j == k
  {
  }

  lemma {:induction false} CountIsInfos(infos: seq<Info>, m: Magnet, k: nat)
    requires ListOk(infos) && k < |infos| && m.number == infos[k].number && HasFact(FactsOf(Sections(infos)), m)
    ensures m.count == infos[k].count && HasNamedArea(infos[k].areas)
  {
    var facts := FactsOf(Sections(infos));
    var i :| 0 <= i < |facts| && facts[i].number == m.number && facts[i].count == m.count;
    FactIsGiven(infos, facts[i]);
    var j :| 0 <= j < |infos| && Gives(infos[j], facts[i]);
    OneInfoPerNumber(infos, j, k);
    GivenIsNamed(infos[j], facts[i]);
  }

  lemma {:induction false} MagnetIsInfo(infos: seq<Info>, m: Magnet, k: nat)
    requires ListOk(infos) && k < |infos| && m.number == infos[k].number
    requires var facts := FactsOf(Sections(infos)); m.areas == AreasIn(facts, m.number) && HasFact(facts, m)
    ensures Same(m, infos[k]) && HasNamedArea(infos[k].areas)
  {
    CountIsInfos(infos, m, k);
    forall a ensures multiset(m.areas)[a] == if a == "" || a == UNLABELED then 0 else NamedTimes(infos[k].areas, a) {
      AreasAsNamed(infos, k, a);
    }
  }

  lemma {:induction false} EveryMagnetIsAnInfo(infos: seq<Info>, m: Magnet)
    requires ListOk(infos) && m in Learned(FactsOf(Sections(infos)))
    ensures exists k :: 0 <= k < |infos| && Same(m, infos[k]) && HasNamedArea(infos[k].areas)
  {
    var facts := FactsOf(Sections(infos));
    LearnedSummarizes(facts);
    var i :| 0 <= i < |Learned(facts)| && Learned(facts)[i] == m;
    assert HasFact(facts, Learned(facts)[i]);
    var j :| 0 <= j < |facts| && facts[j].number == m.number && facts[j].count == m.count;
    FactIsGiven(infos, facts[j]);
    var k :| 0 <= k < |infos| && Gives(infos[k], facts[j]);
    MagnetIsInfo(infos, m, k);
  }

  lemma {:induction false} TimesIsSome(facts: seq<Fact>, number: nat, area: string)
    requires Times(facts, number, area) > 0
    ensures exists i :: 0 <= i < |facts| && facts[i].number == number
  {
    if facts[|facts| - 1].number != number {
      var before := facts[..|facts| - 1];
      TimesIsSome(before, number, area);
      var i :| 0 <= i < |before| && before[i].number == number;
      assert facts[i].number == number;
    }
  }

  lemma {:induction false} NamedTimesIsPositive(areas: seq<string>, i: nat)
    requires i < |areas|
    ensures NamedTimes(areas, Strip(areas[i])) > 0
  {
    if i < |areas| - 1 { NamedTimesIsPositive(areas[..|areas| - 1], i); }
  }

  lemma {:induction false} EveryNamedInfoHasAMagnet(infos: seq<Info>, k: nat)
    requires ListOk(infos) && k < |infos| && HasNamedArea(infos[k].areas)
    ensures exists m :: m in Learned(FactsOf(Sections(infos))) && Same(m, infos[k])
  {
    var facts := FactsOf(Sections(infos));
    var magnets := Learned(facts);
    LearnedSummarizes(facts);
    var i :| 0 <= i < |infos[k].areas| && Strip(infos[k].areas[i]) != "";
    NamedTimesIsPositive(infos[k].areas, i);
    PrintedAsNamed(infos, k, Strip(infos[k].areas[i]));
    TimesIsSome(facts, infos[k].number, Strip(infos[k].areas[i]));
    var j :| 0 <= j < |facts| && facts[j].number == infos[k].number;
    var at := IndexOf(magnets, facts[j].number).value;
    MagnetIsInfo(infos, magnets[at], k);
    assert magnets[at] in magnets;
  }

  lemma {:induction false} SortingKeepsDistinct(magnets: seq<Magnet>)
    requires DistinctNumbers(magnets)
    ensures DistinctNumbers(SortDesc(magnets, CountOfMagnet))
  {
    var sorted := SortDesc(magnets, CountOfMagnet);
    assert NoDuplicates(magnets);
    SortDescIsRight(magnets, CountOfMagnet);
    PermutationKeepsNoDuplicates(magnets, sorted);
    forall i, j | 0 <= i < j < |sorted| ensures sorted[i].number != sorted[j].number {
      SortedMember(magnets, CountOfMagnet, sorted[i]);
      SortedMember(magnets, CountOfMagnet, sorted[j]);
    }
  }

  lemma {:induction false} CountsAreKeys(magnets: seq<Magnet>)
    requires Descending(magnets, CountOfMagnet)
    ensures forall i, j :: 0 <= i < j < |magnets| ==> magnets[i].count >= magnets[j].count
  {
    forall i, j | 0 <= i < j < |magnets| ensures magnets[i].count >= magnets[j].count {
      assert CountOfMagnet(magnets[i]) >= CountOfMagnet(magnets[j]);
    }
  }

  lemma {:induction false} ParsedIsSorted(infos: seq<Info>)
    requires ListOk(infos)
    ensures Parsed(Body(infos)) == SortDesc(Learned(FactsOf(Sections(infos))), CountOfMagnet)
  {
    var sections := Sections(infos);
    PrintedSectionsAreFine(infos);
    PrintedLinesAreLines(sections);
    IntroIsOneLine();
    LinesOfJoin([INTRO] + SectionLines(sections));
    SectionsReadBack(sections);
  }

  /**
   The printed body reads back, greatest count first: one magnet for each issue that has an area
   with a name, and no other; each with the issue's count and its areas.
   */
  lemma {:induction false} BodyReadsBack(infos: seq<Info>)
    requires ListOk(infos)
    ensures var magnets := Parsed(Body(infos));
            && (forall i, j :: 0 <= i < j < |magnets| ==> magnets[i].count >= magnets[j].count)
            && DistinctNumbers(magnets)
            && (forall m :: m in magnets ==> exists k :: 0 <= k < |infos| && Same(m, infos[k]))
            && (forall k :: 0 <= k < |infos| ==>
                  ((exists m :: m in magnets && Same(m, infos[k])) <==> HasNamedArea(infos[k].areas)))
  {
    var learned := Learned(FactsOf(Sections(infos)));
    ParsedIsSorted(infos);
    LearnedSummarizes(FactsOf(Sections(infos)));
    SortDescIsRight(learned, CountOfMagnet);
    SortingKeepsDistinct(learned);
    CountsAreKeys(Parsed(Body(infos)));
    forall m ensures m in Parsed(Body(infos)) <==> m in learned { SortedMember(learned, CountOfMagnet, m); }
    forall m | m in learned ensures exists k :: 0 <= k < |infos| && Same(m, infos[k]) && HasNamedArea(infos[k].areas) {
      EveryMagnetIsAnInfo(infos, m);
    }
    forall k | 0 <= k < |infos|
      ensures (exists m :: m in learned && Same(m, infos[k])) <==> HasNamedArea(infos[k].areas)
    {
      if HasNamedArea(infos[k].areas) { EveryNamedInfoHasAMagnet(infos, k); }
    }
  }
}
