/**
 The list of frequently reported issues: one script prints it into an issue's body, grouped by
 area; another reads it back and regroups it by issue.
 */
module DuplicateMagnets {
  import opened Prelude
  import opened TextLines

  const UNLABELED := "(unlabeled)"
  const INTRO :=
    "These are the issues " + "that are frequently " + "re-reported. "
    + "The list is generated " + "regularly by running " + "a script."
  const ISSUES := "/issues/"

  datatype Info = Info(number: nat, url: string, areas: seq<string>, count: nat)

  datatype Magnet = Magnet(number: nat, areas: seq<string>, count: nat)

  // ---------- counting duplicates ----------

  /** A timeline event, when it names a duplicate issue. */
  datatype Marked = Malformed | Duplicate(closed: bool, number: nat)

  function ClosedDuplicates(events: seq<Marked>): set<nat> {
    set k | 0 <= k < |events| && events[k].Duplicate? && events[k].closed :: events[k].number
  }

  const AREA := "area:"

  /** The names of the area labels. */
  function AreaNames(labels: seq<string>): seq<string> {
    if labels == [] then []
    else
      AreaNames(labels[..|labels| - 1])
      + (if AREA <= labels[|labels| - 1] then [RemoveAll(labels[|labels| - 1], AREA)] else [])
  }

  /** Each label "area:..." gives its name, once and in order; other labels give none. */
  lemma {:induction false} AreaLabelsGiveNames(labels: seq<string>, name: string)
    ensures !("area:" <= name) ==> AreaNames(labels + [name]) == AreaNames(labels)
    ensures "area:" <= name && !Occurs(name[5..], "area:") ==> AreaNames(labels + [name]) == AreaNames(labels) + [name[5..]]
  {
    assert (labels + [name])[..|labels|] == labels;
    assert AreaNames(labels) + [] == AreaNames(labels);
    if "area:" <= name && !Occurs(name[5..], "area:") {
      RemovesPrefix("area:", name[5..]);
      assert "area:" + name[5..] == name;
    }
  }

  /** A number is counted exactly when some event marks it as a closed duplicate. */
  lemma {:induction false} ClosedDuplicatesAre(events: seq<Marked>, number: nat)
    ensures number in ClosedDuplicates(events) <==> Duplicate(true, number) in events
  {
  }

  method ExtractDuplicateInfo(number: nat, url: string, events: seq<Marked>, labels: seq<string>) returns (info: Option<Info>)
    ensures info.None? <==> |ClosedDuplicates(events)| < 2
    ensures info.Some? ==> info.value.number == number && info.value.url == url && info.value.count == |ClosedDuplicates(events)|
    ensures info.Some? ==> info.value.areas == if AreaNames(labels) == [] then ["(unlabeled)"] else AreaNames(labels)
  {
    var seen := {};
    for k := 0 to |events|
      invariant seen == ClosedDuplicates(events[..k])
    {
      assert forall j :: 0 <= j < k ==> events[..k + 1][j] == events[..k][j];
      if events[k].Duplicate? && events[k].closed {
        assert events[..k + 1][k] == events[k];
        seen := seen + {events[k].number};
      }
    }
    assert events[..|events|] == events;
    if |seen| < 2 {
      return None;
    }
    var areas := AreaNames(labels);
    info := Some(Info(number, url, if areas != [] then areas else [UNLABELED], |seen|));
  }

  // ---------- printing ----------

  /** At least two columns. */
  function Padded(n: nat): string {
    if n < 10 then " " + Decimal(n) else Decimal(n)
  }

  function EntryHead(count: nat): string {
    "-   [" + Padded(count) + " dupes] "
  }

  function EntryLine(info: Info): string {
    EntryHead(info.count) + info.url
  }

  function AddKey(keys: seq<string>, key: string): seq<string> {
    if key in keys then keys else keys + [key]
  }

  /** That an issue is listed in one of its areas. */
  datatype Listing = Listing(area: string, info: Info)

  function ListingsOf(info: Info, areas: seq<string>): seq<Listing> {
    if areas == [] then [] else ListingsOf(info, areas[..|areas| - 1]) + [Listing(areas[|areas| - 1], info)]
  }

  function Listings(infos: seq<Info>): seq<Listing> {
    if infos == [] then [] else Listings(infos[..|infos| - 1]) + ListingsOf(infos[|infos| - 1], infos[|infos| - 1].areas)
  }

  /** The areas in the order in which they first appear. */
  function AreaOrder(ls: seq<Listing>): seq<string> {
    if ls == [] then [] else AddKey(AreaOrder(ls[..|ls| - 1]), ls[|ls| - 1].area)
  }

  function Grouped(ls: seq<Listing>, area: string): seq<Info> {
    if ls == [] then []
    else Grouped(ls[..|ls| - 1], area) + (if ls[|ls| - 1].area == area then [ls[|ls| - 1].info] else [])
  }

  function SumCounts(infos: seq<Info>): nat {
    if infos == [] then 0 else SumCounts(infos[..|infos| - 1]) + infos[|infos| - 1].count
  }

  function TotalIn(ls: seq<Listing>): string -> nat {
    (area: string) => SumCounts(Grouped(ls, area))
  }

  function CountOfInfo(info: Info): nat {
    info.count
  }

  datatype Section = Section(area: string, issues: seq<Info>)

  function SectionsFor(ls: seq<Listing>, areas: seq<string>): seq<Section> {
    if areas == [] then []
    else
      var area := areas[|areas| - 1];
      SectionsFor(ls, areas[..|areas| - 1]) + [Section(area, SortDesc(Grouped(ls, area), CountOfInfo))]
  }

  /** The areas by their total, each with its issues by their count. */
  function Sections(infos: seq<Info>): seq<Section> {
    var ls := Listings(infos);
    SectionsFor(ls, SortDesc(AreaOrder(ls), TotalIn(ls)))
  }

  function EntryLines(issues: seq<Info>): seq<string> {
    if issues == [] then [] else EntryLines(issues[..|issues| - 1]) + [EntryLine(issues[|issues| - 1])]
  }

  function SectionLines(sections: seq<Section>): seq<string> {
    if sections == [] then []
    else
      var last := sections[|sections| - 1];
      SectionLines(sections[..|sections| - 1]) + ["", "## " + last.area, ""] + EntryLines(last.issues)
  }

  function Body(infos: seq<Info>): string {
    Join([INTRO] + SectionLines(Sections(infos)), "\n")
  }

  // ---------- reading ----------

  datatype Entry = Entry(count: nat, number: nat)

  function StripParens(s: string): string {
    if s != "" && s[|s| - 1] == ')' then StripParens(s[..|s| - 1]) else s
  }

  function CountIn(line: string): Option<nat> {
    var piece := SecondPiece(line, "[");
    var token := if piece.Some? then FirstToken(piece.value) else None;
    if token.Some? then ParseNumber(token.value) else None
  }

  function NumberIn(line: string): Option<nat> {
    var piece := SecondPiece(line, ISSUES);
    var token := if piece.Some? then FirstToken(piece.value) else None;
    if token.Some? then ParseNumber(StripParens(token.value)) else None
  }

  function ParseEntry(line: string): Option<Entry> {
    var count, number := CountIn(line), NumberIn(line);
    if count.Some? && number.Some? then Some(Entry(count.value, number.value)) else None
  }

  function IndexOf(magnets: seq<Magnet>, number: nat): (r: Option<nat>)
    ensures r.Some? ==> r.value < |magnets| && magnets[r.value].number == number
    ensures r.None? ==> forall i :: 0 <= i < |magnets| ==> magnets[i].number != number
  {
    if magnets == [] then None
    else if magnets[|magnets| - 1].number == number then Some(|magnets| - 1)
    else IndexOf(magnets[..|magnets| - 1], number)
  }

  /** That an issue with so many duplicates is listed in an area. */
  datatype Fact = Fact(area: string, number: nat, count: nat)

  /** Magnets are kept as a dictionary: one per number, in the order in which they came. */
  function AddFact(magnets: seq<Magnet>, f: Fact): seq<Magnet> {
    var areas := if f.area == UNLABELED then [] else [f.area];
    var i := IndexOf(magnets, f.number);
    if i.Some? then magnets[i.value := magnets[i.value].(areas := magnets[i.value].areas + areas)]
    else magnets + [Magnet(f.number, areas, f.count)]
  }

  datatype Parsing = Parsing(area: Option<string>, magnets: seq<Magnet>)

  function ParseLine(st: Parsing, line: string): Parsing {
    if "## " <= line then st.(area := Some(Strip(line[3..])))
    else if st.area.None? || st.area.value == "" || !("-" <= line) || !Occurs(line, ISSUES) then st
    else
      var e := ParseEntry(line);
      if e.None? then st else st.(magnets := AddFact(st.magnets, Fact(st.area.value, e.value.number, e.value.count)))
  }

  function ParseLines(st: Parsing, lines: seq<string>): Parsing {
    if lines == [] then st else ParseLine(ParseLines(st, lines[..|lines| - 1]), lines[|lines| - 1])
  }

  function CountOfMagnet(m: Magnet): nat {
    m.count
  }

  function Parsed(body: string): seq<Magnet> {
    SortDesc(ParseLines(Parsing(None, []), Lines(body)).magnets, CountOfMagnet)
  }

  // ---------- the programs' loops ----------

  method BuildMarkdownBody(infos: seq<Info>) returns (body: string)
    ensures body == Body(infos)
  {
    var order, byArea, totals := GroupByArea(infos);
    var areas := MostCommon(order, totals, Listings(infos));
    var lines := PrintSections(areas, byArea, Listings(infos));
    body := Join(lines, "\n");
  }

  method PrintSections(areas: seq<string>, byArea: map<string, seq<Info>>, ghost ls: seq<Listing>) returns (lines: seq<string>)
    requires forall k :: 0 <= k < |areas| ==> areas[k] in byArea && byArea[areas[k]] == Grouped(ls, areas[k])
    ensures lines == [INTRO] + SectionLines(SectionsFor(ls, areas))
  {
    lines := [INTRO];
    ghost var printed := [];
    for k := 0 to |areas|
      invariant printed == SectionsFor(ls, areas[..k]) && lines == [INTRO] + SectionLines(printed)
    {
      var area := areas[k];
      var issues := SortDesc(byArea[area], CountOfInfo);
      assert areas[..k + 1][..k] == areas[..k];
      lines := PrintSection(lines, Section(area, issues), printed);
      printed := printed + [Section(area, issues)];
    }
    assert areas[..|areas|] == areas;
  }

  method PrintSection(head: seq<string>, s: Section, ghost before: seq<Section>) returns (lines: seq<string>)
    requires head == [INTRO] + SectionLines(before)
    ensures lines == [INTRO] + SectionLines(before + [s])
  {
    lines := head + [""];
    lines := lines + ["## " + s.area];
    lines := lines + [""];
    lines := PrintEntries(lines, s.issues);
    MoreSectionLines(before, s);
    InOneGo([INTRO], SectionLines(before), "", "## " + s.area, "", EntryLines(s.issues));
  }

  lemma {:induction false} MoreSectionLines(before: seq<Section>, s: Section)
    ensures SectionLines(before + [s]) == SectionLines(before) + ["", "## " + s.area, ""] + EntryLines(s.issues)
  {
  }

  lemma {:induction false} InOneGo(a: seq<string>, b: seq<string>, x: string, y: string, z: string, c: seq<string>)
    ensures a + b + [x] + [y] + [z] + c == a + (b + [x, y, z] + c)
  {
  }

  method PrintEntries(head: seq<string>, issues: seq<Info>) returns (lines: seq<string>)
    ensures lines == head + EntryLines(issues)
  {
    lines := head;
    for j := 0 to |issues|
      invariant lines == head + EntryLines(issues[..j])
    {
      assert issues[..j + 1][..j] == issues[..j];
      lines := lines + [EntryLine(issues[j])];
    }
    assert issues[..|issues|] == issues;
  }

  /** The counter's keys, greatest total first. */
  method MostCommon(order: seq<string>, totals: map<string, nat>, ghost ls: seq<Listing>) returns (areas: seq<string>)
    requires forall a :: a in order ==> a in totals && totals[a] == TotalIn(ls)(a)
    ensures areas == SortDesc(order, TotalIn(ls)) && forall a :: a in areas <==> a in order
  {
    areas := SortDesc(order, (a: string) => if a in totals then totals[a] else 0);
    SameKeysSameSort(order, (a: string) => if a in totals then totals[a] else 0, TotalIn(ls));
    SortDescIsRight(order, TotalIn(ls));
  }

  ghost predicate IsGrouping(order: seq<string>, byArea: map<string, seq<Info>>, totals: map<string, nat>, ls: seq<Listing>) {
    order == AreaOrder(ls) && forall a :: GroupIs(a, order, byArea, totals, ls)
  }

  ghost predicate GroupIs(a: string, order: seq<string>, byArea: map<string, seq<Info>>, totals: map<string, nat>, ls: seq<Listing>) {
    && (a in byArea <==> a in order)
    && (a in totals <==> a in order)
    && (a in order ==> byArea[a] == Grouped(ls, a) && totals[a] == SumCounts(Grouped(ls, a)))
  }

  method GroupByArea(infos: seq<Info>) returns (order: seq<string>, byArea: map<string, seq<Info>>, totals: map<string, nat>)
    ensures order == AreaOrder(Listings(infos))
    ensures forall a :: a in order ==> a in byArea && byArea[a] == Grouped(Listings(infos), a)
    ensures forall a :: a in order ==> a in totals && totals[a] == TotalIn(Listings(infos))(a)
  {
    order, byArea, totals := [], map[], map[];
    for k := 0 to |infos|
      invariant IsGrouping(order, byArea, totals, Listings(infos[..k]))
    {
      order, byArea, totals := AddListings(infos[k], order, byArea, totals, Listings(infos[..k]));
      assert infos[..k + 1][..k] == infos[..k];
    }
    assert infos[..|infos|] == infos;
    assert forall a :: a in order ==> GroupIs(a, order, byArea, totals, Listings(infos));
  }

  method AddListings(info: Info, order0: seq<string>, byArea0: map<string, seq<Info>>, totals0: map<string, nat>, ghost ls: seq<Listing>)
    returns (order: seq<string>, byArea: map<string, seq<Info>>, totals: map<string, nat>)
    requires IsGrouping(order0, byArea0, totals0, ls)
    ensures IsGrouping(order, byArea, totals, ls + ListingsOf(info, info.areas))
  {
    order, byArea, totals := order0, byArea0, totals0;
    ghost var now := ls;
    for j := 0 to |info.areas|
      invariant now == ls + ListingsOf(info, info.areas[..j]) && IsGrouping(order, byArea, totals, now)
    {
      var area := info.areas[j];
      assert info.areas[..j + 1][..j] == info.areas[..j];
      OneMoreListing(order, byArea, totals, now, Listing(area, info));
      byArea := byArea[area := (if area in byArea then byArea[area] else []) + [info]];
      totals := totals[area := (if area in totals then totals[area] else 0) + info.count];
      order := AddKey(order, area);
      now := now + [Listing(area, info)];
    }
    assert info.areas[..|info.areas|] == info.areas;
  }

  lemma {:induction false} GroupsMore(ls: seq<Listing>, l: Listing, a: string)
    ensures Grouped(ls + [l], a) == if a == l.area then Grouped(ls, a) + [l.info] else Grouped(ls, a)
    ensures SumCounts(Grouped(ls + [l], a)) == SumCounts(Grouped(ls, a)) + (if a == l.area then l.info.count else 0)
    ensures AreaOrder(ls + [l]) == AddKey(AreaOrder(ls), l.area)
  {
  }

  lemma {:induction false} OneMoreListing(order: seq<string>, byArea: map<string, seq<Info>>, totals: map<string, nat>, ls: seq<Listing>, l: Listing)
    requires IsGrouping(order, byArea, totals, ls)
    ensures IsGrouping(AddKey(order, l.area),
                       byArea[l.area := (if l.area in byArea then byArea[l.area] else []) + [l.info]],
                       totals[l.area := (if l.area in totals then totals[l.area] else 0) + l.info.count],
                       ls + [l])
  {
    var order' := AddKey(order, l.area);
    var byArea' := byArea[l.area := (if l.area in byArea then byArea[l.area] else []) + [l.info]];
    var totals' := totals[l.area := (if l.area in totals then totals[l.area] else 0) + l.info.count];
    GroupsMore(ls, l, l.area);
    forall a ensures GroupIs(a, order', byArea', totals', ls + [l]) {
      GroupsMore(ls, l, a);
      assert GroupIs(a, order, byArea, totals, ls);
      if a == l.area && a !in order { UnlistedIsEmpty(ls, a); }
    }
  }

  lemma {:induction false} UnlistedIsEmpty(ls: seq<Listing>, area: string)
    requires area !in AreaOrder(ls)
    ensures Grouped(ls, area) == []
  {
    if ls != [] { UnlistedIsEmpty(ls[..|ls| - 1], area); }
  }

  method ParseDuplicateMagnets(body: string) returns (magnets: seq<Magnet>)
    ensures magnets == Parsed(body)
  {
    var lines := Lines(body);
    magnets := [];
    var area: Option<string> := None;
    for k := 0 to |lines|
      invariant Parsing(area, magnets) == ParseLines(Parsing(None, []), lines[..k])
    {
      assert lines[..k + 1][..k] == lines[..k];
      var line := lines[k];
      if "## " <= line {
        area := Some(Strip(line[3..]));
        continue;
      }
      if area.None? || area.value == "" || !("-" <= line) || !Occurs(line, ISSUES) {
        continue;
      }
      var e := ParseEntry(line);
      if e.None? {
        continue;
      }
      var isUnlabeled := area.value == UNLABELED;
      var i := IndexOf(magnets, e.value.number);
      if i.Some? {
        if !isUnlabeled {
          magnets := magnets[i.value := magnets[i.value].(areas := magnets[i.value].areas + [area.value])];
        } else {
          assert magnets[i.value].areas + [] == magnets[i.value].areas;
        }
      } else {
        magnets := magnets + [Magnet(e.value.number, if isUnlabeled then [] else [area.value], e.value.count)];
      }
    }
    assert lines[..|lines|] == lines;
    magnets := SortDesc(magnets, CountOfMagnet);
  }
}
