/**
 The duplicate bot's comment: one script writes it, another recognises it and reads the
 suggested issue numbers back.
 */
module BotComment {
  import opened Prelude
  import opened TextLines

  // ---------- writing ----------

  /** An open issue with an explanation and a root cause. */
  datatype Match = Match(number: nat, explanation: string, rootCause: string)

  datatype Closed = Closed(number: nat, explanation: string, asDuplicate: bool)

  const ALERT := "This issue appears to be " + "a duplicate of"
  const CLOSE_HINT :=
    "Please close this issue " + "and subscribe to the " + "linked issue for updates " + "(select \"Close as not " + "planned\" "
    + "\U{2192} \"Duplicate\")"
  const KEEP_HINT := "No action needed. " + "A maintainer will " + "review this shortly."
  const WHY := "<summary>Why were " + "these issues selected?" + "</summary>"
  const SUMMARY := "<summary>"
  const CONTEXT := "Additional recent " + "context for triagers"
  const SUMMARY_END := "</summary>"
  const OPEN_HEADING := "**Possibly related " + "open issues:**"
  const CAUSE := "  - Possible shared " + "root cause: "
  const CLOSED_HEADING := "**Recently closed, " + "possibly the same bug:**"
  const DISCLAIMER := "<sub>This is an " + "automated analysis and " + "might be incorrect.</sub>"

  function Bullet(number: nat): string {
    "- #" + Decimal(number)
  }

  function Bullets(ms: seq<Match>): seq<string> {
    if ms == [] then [] else Bullets(ms[..|ms| - 1]) + [Bullet(ms[|ms| - 1].number)]
  }

  function Explained(m: Match): string {
    "**#" + Decimal(m.number) + ":** " + m.explanation + "\n\n" + ("**Shared root cause:** " + m.rootCause)
  }

  function AllExplained(ms: seq<Match>): seq<string> {
    if ms == [] then [] else AllExplained(ms[..|ms| - 1]) + [Explained(ms[|ms| - 1])]
  }

  function OpenLine(m: Match): string {
    Bullet(m.number) + " \U{2014} " + m.explanation + "\n" + (CAUSE + m.rootCause)
  }

  function OpenLines(ms: seq<Match>): seq<string> {
    if ms == [] then [] else OpenLines(ms[..|ms| - 1]) + [OpenLine(ms[|ms| - 1])]
  }

  function ClosedLine(c: Closed): string {
    Bullet(c.number) + (if c.asDuplicate then " (closed as duplicate)" else "") + " \U{2014} " + c.explanation
  }

  function ClosedLines(cs: seq<Closed>): seq<string> {
    if cs == [] then [] else ClosedLines(cs[..|cs| - 1]) + [ClosedLine(cs[|cs| - 1])]
  }

  const HINTS :=
    ["", "**If this is indeed " + "a duplicate:**", CLOSE_HINT, "", "**If this is a " + "different issue:**", KEEP_HINT, "",
     "<details>", WHY, ""]
  const ALERT_HEAD := [ALERT + ":", ""]
  const CONTEXT_HEAD := ["<details>", SUMMARY + CONTEXT + SUMMARY_END, ""]
  const DETAILS_END := ["", "</details>"]

  function AlertSection(likely: seq<Match>): string {
    Join(ALERT_HEAD + [Join(Bullets(likely), "\n")] + HINTS + [Join(AllExplained(likely), "\n\n")] + DETAILS_END, "\n")
  }

  function OpenPart(possible: seq<Match>): string {
    OPEN_HEADING + "\n\n" + Join(OpenLines(possible), "\n")
  }

  function ClosedPart(closed: seq<Closed>): string {
    CLOSED_HEADING + "\n\n" + Join(ClosedLines(closed), "\n")
  }

  function ContextParts(possible: seq<Match>, closed: seq<Closed>): seq<string> {
    (if possible == [] then [] else [OpenPart(possible)]) + (if closed == [] then [] else [ClosedPart(closed)])
  }

  function ContextSection(possible: seq<Match>, closed: seq<Closed>): string {
    Join(CONTEXT_HEAD + [Join(ContextParts(possible, closed), "\n\n")] + DETAILS_END, "\n")
  }

  function Sections(likely: seq<Match>, possible: seq<Match>, closed: seq<Closed>): seq<string> {
    (if likely == [] then [] else [AlertSection(likely)])
    + (if possible == [] && closed == [] then [] else [ContextSection(possible, closed)])
  }

  const FOOTER := "---\n" + DISCLAIMER

  /** The comment; empty when there is nothing to say. */
  function Comment(likely: seq<Match>, possible: seq<Match>, closed: seq<Closed>): string {
    var sections := Sections(likely, possible, closed);
    if sections == [] then "" else Join(sections + [FOOTER], "\n\n")
  }

  // ---------- reading ----------

  const MARKERS := ["This issue appears to be " + "a duplicate of", "Additional recent " + "context for triagers"]

  predicate IsBotComment(body: string) {
    exists i :: 0 <= i < |MARKERS| && Occurs(body, MARKERS[i])
  }

  /** The number in a line like "- #123", if it is one. */
  function NumberOfLine(line: string): seq<nat> {
    if "- #" <= line && LeadingDigits(line[3..]) != "" then [ValueOf(LeadingDigits(line[3..]))] else []
  }

  /** What all pieces give, in order. */
  function Collect<T>(pieces: seq<T>, give: T -> seq<nat>): seq<nat> {
    if pieces == [] then [] else Collect(pieces[..|pieces| - 1], give) + give(pieces[|pieces| - 1])
  }

  function NumbersOf(lines: seq<string>): seq<nat> {
    Collect(lines, NumberOfLine)
  }

  function SuggestedIssues(body: string): seq<nat> {
    NumbersOf(Lines(body))
  }

  // ---------- lines of the comment ----------

  lemma {:induction false} CollectConcat<T>(a: seq<T>, b: seq<T>, give: T -> seq<nat>)
    ensures Collect(a + b, give) == Collect(a, give) + Collect(b, give)
  {
    if b == [] {
      assert a + b == a;
    } else {
      CollectConcat(a, b[..|b| - 1], give);
      assert (a + b)[..|a + b| - 1] == a + b[..|b| - 1];
    }
  }

  lemma {:induction false} CollectOne<T>(x: T, give: T -> seq<nat>)
    ensures Collect([x], give) == give(x)
  {
  }

  lemma {:induction false} SuggestedConcat(a: string, b: string)
    ensures SuggestedIssues(a + "\n" + b) == SuggestedIssues(a) + SuggestedIssues(b)
  {
    LinesConcat(a, b);
    CollectConcat(Lines(a), Lines(b), NumberOfLine);
  }

  lemma NothingInEmpty()
    ensures SuggestedIssues("") == []
  {
  }

  lemma {:induction false} Regroup(a: string, x: string, y: string, b: string)
    ensures a + (x + y) + b == a + x + ("" + y + b)
  {
  }

  lemma {:induction false} SuggestedParagraphs(a: string, b: string)
    ensures SuggestedIssues(a + "\n\n" + b) == SuggestedIssues(a) + SuggestedIssues(b)
  {
    assert "\n\n" == "\n" + "\n";
    Regroup(a, "\n", "\n", b);
    SuggestedConcat(a, "" + "\n" + b);
    SuggestedConcat("", b);
    NothingInEmpty();
  }

  function AllSuggested(pieces: seq<string>): seq<nat> {
    Collect(pieces, SuggestedIssues)
  }

  lemma {:induction false} SuggestedInJoin(pieces: seq<string>, separator: string)
    requires separator == "\n" || separator == "\n\n"
    ensures SuggestedIssues(Join(pieces, separator)) == AllSuggested(pieces)
  {
    if pieces == [] {
      NothingInEmpty();
    } else {
      var before, last := pieces[..|pieces| - 1], pieces[|pieces| - 1];
      SuggestedInJoin(before, separator);
      if before != [] {
        SuggestedConcat(Join(before, separator), last);
        SuggestedParagraphs(Join(before, separator), last);
      }
    }
  }

  /** The numbers that the lines after the first add. */
  function Extra(text: string): seq<nat> {
    NumbersOf(Lines(text)[1..])
  }

  /** A text after a start of its first line: that line's number, and what the other lines add. */
  lemma {:induction false} SuggestedAfter(start: string, text: string)
    requires '\n' !in start
    ensures SuggestedIssues(start + text) == NumberOfLine(start + Lines(text)[0]) + Extra(text)
  {
    LinesAfterPrefix(start, text);
    var first := start + Lines(text)[0];
    CollectConcat([first], Lines(text)[1..], NumberOfLine);
    CollectOne(first, NumberOfLine);
  }

  /** A line that does not start with a dash suggests nothing. */
  lemma {:induction false} QuietStart(start: string, text: string)
    requires start != "" && start[0] != '-' && '\n' !in start
    ensures SuggestedIssues(start + text) == Extra(text)
  {
    SuggestedAfter(start, text);
    assert (start + Lines(text)[0])[0] == start[0];
  }

  lemma {:induction false} QuietLine(line: string)
    requires line == "" || (line[0] != '-' && '\n' !in line)
    ensures SuggestedIssues(line) == []
  {
    if line == "" {
      NothingInEmpty();
    } else {
      QuietStart(line, "");
      assert line + "" == line;
    }
  }

  lemma {:induction false} BulletLine(number: nat, rest: string)
    requires rest == "" || !IsDigit(rest[0])
    ensures NumberOfLine(Bullet(number) + rest) == [number]
  {
    var d := Decimal(number);
    var line := Bullet(number) + rest;
    assert line == "- #" + (d + rest);
    assert line[..3] == "- #" && line[3..] == d + rest;
    LeadingDigitsOf(d, rest);
    DecimalReadsBack(number);
  }

  lemma {:induction false} BulletIsOneLine(number: nat)
    ensures '\n' !in Bullet(number)
  {
  }

  lemma {:induction false} BulletStart(number: nat, start: string, text: string)
    requires (start == "" || !IsDigit(start[0])) && '\n' !in start
    requires start == "" ==> text == ""
    ensures SuggestedIssues(Bullet(number) + start + text) == [number] + Extra(text)
  {
    BulletIsOneLine(number);
    SuggestedAfter(Bullet(number) + start, text);
    if text == "" { assert Lines(text)[0] == ""; }
    BulletWithMore(number, start, Lines(text)[0]);
  }

  lemma {:induction false} BulletWithMore(number: nat, start: string, first: string)
    requires (start == "" || !IsDigit(start[0])) && (start == "" ==> first == "")
    ensures NumberOfLine(Bullet(number) + start + first) == [number]
  {
    assert Bullet(number) + start + first == Bullet(number) + (start + first);
    BulletLine(number, start + first);
  }

  // ---------- what each part suggests ----------

  function NumbersOfMatches(ms: seq<Match>): (ns: seq<nat>)
    ensures |ns| == |ms|
  {
    if ms == [] then [] else NumbersOfMatches(ms[..|ms| - 1]) + [ms[|ms| - 1].number]
  }

  function NumbersOfClosed(cs: seq<Closed>): (ns: seq<nat>)
    ensures |ns| == |cs|
  {
    if cs == [] then [] else NumbersOfClosed(cs[..|cs| - 1]) + [cs[|cs| - 1].number]
  }

  function ExtraOf(m: Match): seq<nat> {
    Extra(m.explanation) + Extra(m.rootCause)
  }

  /** For each match, what the continuation lines of its texts add. */
  function ExtrasOf(ms: seq<Match>): (xs: seq<seq<nat>>)
    ensures |xs| == |ms|
  {
    if ms == [] then [] else ExtrasOf(ms[..|ms| - 1]) + [ExtraOf(ms[|ms| - 1])]
  }

  function ClosedExtras(cs: seq<Closed>): (xs: seq<seq<nat>>)
    ensures |xs| == |cs|
  {
    if cs == [] then [] else ClosedExtras(cs[..|cs| - 1]) + [Extra(cs[|cs| - 1].explanation)]
  }

  function Flat(xs: seq<seq<nat>>): seq<nat> {
    if xs == [] then [] else Flat(xs[..|xs| - 1]) + xs[|xs| - 1]
  }

  /** Each number, followed by its extras. */
  function Interleaved(ns: seq<nat>, xs: seq<seq<nat>>): seq<nat>
    requires |ns| == |xs|
  {
    if ns == [] then [] else Interleaved(ns[..|ns| - 1], xs[..|xs| - 1]) + ([ns[|ns| - 1]] + xs[|xs| - 1])
  }

  lemma {:induction false} AddPiece(pieces: seq<string>, piece: string)
    ensures AllSuggested(pieces + [piece]) == AllSuggested(pieces) + SuggestedIssues(piece)
  {
  }

  lemma {:induction false} BulletsSuggest(ms: seq<Match>)
    ensures AllSuggested(Bullets(ms)) == NumbersOfMatches(ms)
  {
    if ms != [] {
      var last := ms[|ms| - 1];
      BulletsSuggest(ms[..|ms| - 1]);
      BulletSuggests(last.number);
      AddPiece(Bullets(ms[..|ms| - 1]), Bullet(last.number));
    }
  }

  lemma {:induction false} BulletSuggests(number: nat)
    ensures SuggestedIssues(Bullet(number)) == [number]
  {
    BulletStart(number, "", "");
    assert Bullet(number) + "" + "" == Bullet(number);
    assert Lines("")[1..] == [];
  }

  lemma {:induction false} ExplainedSuggests(m: Match)
    ensures SuggestedIssues(Explained(m)) == ExtraOf(m)
  {
    var start := "**#" + Decimal(m.number) + ":** ";
    QuietStart(start, m.explanation);
    QuietStart("**Shared root cause:** ", m.rootCause);
    SuggestedParagraphs(start + m.explanation, "**Shared root cause:** " + m.rootCause);
  }

  lemma {:induction false} AllExplainedSuggest(ms: seq<Match>)
    ensures AllSuggested(AllExplained(ms)) == Flat(ExtrasOf(ms))
  {
    if ms != [] {
      var before, last := ms[..|ms| - 1], ms[|ms| - 1];
      AllExplainedSuggest(before);
      ExplainedSuggests(last);
      AddPiece(AllExplained(before), Explained(last));
      assert (ExtrasOf(before) + [ExtraOf(last)])[..|before|] == ExtrasOf(before);
    }
  }

  lemma {:induction false} OpenLineSuggests(m: Match)
    ensures SuggestedIssues(OpenLine(m)) == [m.number] + ExtraOf(m)
  {
    BulletStart(m.number, " \U{2014} ", m.explanation);
    CauseSuggests(m.rootCause);
    SuggestedConcat(Bullet(m.number) + " \U{2014} " + m.explanation, CAUSE + m.rootCause);
  }

  lemma {:induction false} CauseSuggests(rootCause: string)
    ensures SuggestedIssues(CAUSE + rootCause) == Extra(rootCause)
  {
    assert CAUSE[0] == ' ' && '\n' !in "  - Possible shared " && '\n' !in "root cause: ";
    QuietStart(CAUSE, rootCause);
  }

  lemma {:induction false} OpenLinesSuggest(ms: seq<Match>)
    ensures AllSuggested(OpenLines(ms)) == Interleaved(NumbersOfMatches(ms), ExtrasOf(ms))
  {
    if ms != [] {
      var before, last := ms[..|ms| - 1], ms[|ms| - 1];
      OpenLinesSuggest(before);
      OpenLineSuggests(last);
      AddPiece(OpenLines(before), OpenLine(last));
      InterleavedMore(NumbersOfMatches(before), ExtrasOf(before), last.number, ExtraOf(last));
    }
  }

  lemma {:induction false} InterleavedMore(ns: seq<nat>, xs: seq<seq<nat>>, n: nat, x: seq<nat>)
    requires |ns| == |xs|
    ensures Interleaved(ns + [n], xs + [x]) == Interleaved(ns, xs) + ([n] + x)
  {
  }

  lemma {:induction false} ClosedLineSuggests(c: Closed)
    ensures SuggestedIssues(ClosedLine(c)) == [c.number] + Extra(c.explanation)
  {
    var middle := if c.asDuplicate then " (closed as duplicate)" else "";
    BulletStart(c.number, middle + " \U{2014} ", c.explanation);
    assert Bullet(c.number) + (middle + " \U{2014} ") + c.explanation == ClosedLine(c);
  }

  lemma {:induction false} ClosedLinesSuggest(cs: seq<Closed>)
    ensures AllSuggested(ClosedLines(cs)) == Interleaved(NumbersOfClosed(cs), ClosedExtras(cs))
  {
    if cs != [] {
      var before, last := cs[..|cs| - 1], cs[|cs| - 1];
      ClosedLinesSuggest(before);
      ClosedLineSuggests(last);
      AddPiece(ClosedLines(before), ClosedLine(last));
      InterleavedMore(NumbersOfClosed(before), ClosedExtras(before), last.number, Extra(last.explanation));
    }
  }

  // ---------- the whole comment ----------

  lemma {:induction false} QuietLines(lines: seq<string>)
    requires forall i :: 0 <= i < |lines| ==> lines[i] == "" || (lines[i][0] != '-' && '\n' !in lines[i])
    ensures AllSuggested(lines) == []
  {
    if lines != [] {
      QuietLines(lines[..|lines| - 1]);
      QuietLine(lines[|lines| - 1]);
    }
  }

  /** Quiet lines around one piece: only the piece suggests anything. */
  lemma {:induction false} Framed(before: seq<string>, piece: string, after: seq<string>)
    requires AllSuggested(before) == [] && AllSuggested(after) == []
    ensures AllSuggested(before + [piece] + after) == SuggestedIssues(piece)
  {
    CollectConcat(before + [piece], after, SuggestedIssues);
    AddPiece(before, piece);
  }

  lemma HintsAreQuiet()
    ensures AllSuggested(HINTS) == []
  {
    CloseHintIsOneLine();
    assert '\n' !in "**If this is indeed " && '\n' !in "a duplicate:**" && '\n' !in "**If this is a " && '\n' !in "different issue:**";
    HintLinesAreLines();
    QuietLines(HINTS);
  }

  lemma HintLinesAreLines()
    ensures '\n' !in KEEP_HINT && '\n' !in WHY
  {
    assert '\n' !in "No action needed. " && '\n' !in "A maintainer will " && '\n' !in "review this shortly.";
    assert '\n' !in "<summary>Why were " && '\n' !in "these issues selected?" && '\n' !in "</summary>";
  }

  lemma CloseHintIsOneLine()
    ensures '\n' !in CLOSE_HINT && CLOSE_HINT[0] == 'P'
  {
    assert '\n' !in "Please close this issue " && '\n' !in "and subscribe to the " && '\n' !in "linked issue for updates ";
    assert '\n' !in "(select \"Close as not " && '\n' !in "planned\" " && '\n' !in "\U{2192} \"Duplicate\")";
  }

  lemma AlertIsOneLine()
    ensures '\n' !in ALERT + ":" && (ALERT + ":")[0] == 'T'
  {
  }

  lemma DetailsAreQuiet()
    ensures AllSuggested(DETAILS_END) == [] && AllSuggested(CONTEXT_HEAD) == []
  {
    QuietLines(DETAILS_END);
    assert '\n' !in "Additional recent " && '\n' !in "context for triagers";
    assert '\n' !in SUMMARY + CONTEXT + SUMMARY_END;
    QuietLines(CONTEXT_HEAD);
  }

  lemma AlertHeadIsQuiet()
    ensures AllSuggested(ALERT_HEAD) == []
  {
    AlertIsOneLine();
    QuietLines(ALERT_HEAD);
  }

  /** Two pieces among quiet lines. */
  lemma {:induction false} FramedTwice(head: seq<string>, first: string, middle: seq<string>, second: string, tail: seq<string>)
    requires AllSuggested(head) == [] && AllSuggested(middle) == [] && AllSuggested(tail) == []
    ensures SuggestedIssues(Join(head + [first] + middle + [second] + tail, "\n")) == SuggestedIssues(first) + SuggestedIssues(second)
  {
    SuggestedInJoin(head + [first] + middle + [second] + tail, "\n");
    CollectTwo(head, first, middle, second, tail, SuggestedIssues);
  }

  lemma {:induction false} CollectTwo<T>(head: seq<T>, first: T, middle: seq<T>, second: T, tail: seq<T>, give: T -> seq<nat>)
    requires Collect(head, give) == [] && Collect(middle, give) == [] && Collect(tail, give) == []
    ensures Collect(head + [first] + middle + [second] + tail, give) == give(first) + give(second)
  {
    CollectConcat(head + [first] + middle + [second], tail, give);
    CollectConcat(head + [first] + middle, [second], give);
    CollectConcat(head + [first], middle, give);
    CollectConcat(head, [first], give);
    CollectOne(first, give);
    CollectOne(second, give);
  }

  lemma {:induction false} AlertSuggests(likely: seq<Match>)
    ensures SuggestedIssues(AlertSection(likely)) == NumbersOfMatches(likely) + Flat(ExtrasOf(likely))
  {
    AlertHeadIsQuiet();
    HintsAreQuiet();
    DetailsAreQuiet();
    FramedTwice(ALERT_HEAD, Join(Bullets(likely), "\n"), HINTS, Join(AllExplained(likely), "\n\n"), DETAILS_END);
    SuggestedInJoin(Bullets(likely), "\n");
    SuggestedInJoin(AllExplained(likely), "\n\n");
    BulletsSuggest(likely);
    AllExplainedSuggest(likely);
  }

  lemma HeadingsAreQuiet()
    ensures SuggestedIssues(OPEN_HEADING) == [] && SuggestedIssues(CLOSED_HEADING) == []
  {
    assert '\n' !in "**Possibly related " && '\n' !in "open issues:**";
    assert '\n' !in "**Recently closed, " && '\n' !in "possibly the same bug:**";
    QuietLine(OPEN_HEADING);
    QuietLine(CLOSED_HEADING);
  }

  lemma {:induction false} OpenPartSuggests(possible: seq<Match>)
    ensures SuggestedIssues(OpenPart(possible)) == Interleaved(NumbersOfMatches(possible), ExtrasOf(possible))
  {
    HeadingsAreQuiet();
    SuggestedParagraphs(OPEN_HEADING, Join(OpenLines(possible), "\n"));
    SuggestedInJoin(OpenLines(possible), "\n");
    OpenLinesSuggest(possible);
  }

  lemma {:induction false} ClosedPartSuggests(closed: seq<Closed>)
    ensures SuggestedIssues(ClosedPart(closed)) == Interleaved(NumbersOfClosed(closed), ClosedExtras(closed))
  {
    HeadingsAreQuiet();
    SuggestedParagraphs(CLOSED_HEADING, Join(ClosedLines(closed), "\n"));
    SuggestedInJoin(ClosedLines(closed), "\n");
    ClosedLinesSuggest(closed);
  }

  function ContextNumbers(possible: seq<Match>, closed: seq<Closed>): seq<nat> {
    Interleaved(NumbersOfMatches(possible), ExtrasOf(possible)) + Interleaved(NumbersOfClosed(closed), ClosedExtras(closed))
  }

  lemma {:induction false} PartsSuggest(possible: seq<Match>, closed: seq<Closed>)
    ensures AllSuggested(ContextParts(possible, closed)) == ContextNumbers(possible, closed)
  {
    var opens := if possible == [] then [] else [OpenPart(possible)];
    var closes := if closed == [] then [] else [ClosedPart(closed)];
    CollectConcat(opens, closes, SuggestedIssues);
    CollectOne(OpenPart(possible), SuggestedIssues);
    CollectOne(ClosedPart(closed), SuggestedIssues);
    OpenPartSuggests(possible);
    ClosedPartSuggests(closed);
  }

  lemma {:induction false} ContextSuggests(possible: seq<Match>, closed: seq<Closed>)
    ensures SuggestedIssues(ContextSection(possible, closed)) == ContextNumbers(possible, closed)
  {
    var body := Join(ContextParts(possible, closed), "\n\n");
    DetailsAreQuiet();
    SuggestedInJoin(CONTEXT_HEAD + [body] + DETAILS_END, "\n");
    Framed(CONTEXT_HEAD, body, DETAILS_END);
    SuggestedInJoin(ContextParts(possible, closed), "\n\n");
    PartsSuggest(possible, closed);
  }

  lemma FooterIsQuiet()
    ensures SuggestedIssues(FOOTER) == []
  {
    assert "---\n" == "---" + "\n";
    SuggestedConcat("---", DISCLAIMER);
    RuleIsQuiet();
    assert '\n' !in "<sub>This is an " && '\n' !in "automated analysis and " && '\n' !in "might be incorrect.</sub>";
    QuietLine(DISCLAIMER);
  }

  lemma RuleIsQuiet()
    ensures SuggestedIssues("---") == []
  {
    OneLine("---");
    assert ["---"][..0] == [] && NumberOfLine("---") == [];
  }

  lemma {:induction false} SectionsSuggest(likely: seq<Match>, possible: seq<Match>, closed: seq<Closed>)
    ensures AllSuggested(Sections(likely, possible, closed))
            == NumbersOfMatches(likely) + Flat(ExtrasOf(likely)) + ContextNumbers(possible, closed)
  {
    var alerts := if likely == [] then [] else [AlertSection(likely)];
    var contexts := if possible == [] && closed == [] then [] else [ContextSection(possible, closed)];
    CollectConcat(alerts, contexts, SuggestedIssues);
    CollectOne(AlertSection(likely), SuggestedIssues);
    CollectOne(ContextSection(possible, closed), SuggestedIssues);
    AlertSuggests(likely);
    ContextSuggests(possible, closed);
  }

  /** All that the reader finds in a comment, in order. */
  lemma {:induction false} CommentSuggests(likely: seq<Match>, possible: seq<Match>, closed: seq<Closed>)
    ensures SuggestedIssues(Comment(likely, possible, closed))
            == NumbersOfMatches(likely) + Flat(ExtrasOf(likely)) + ContextNumbers(possible, closed)
  {
    var sections := Sections(likely, possible, closed);
    SectionsSuggest(likely, possible, closed);
    if sections == [] {
      NothingInEmpty();
    } else {
      SuggestedInJoin(sections + [FOOTER], "\n\n");
      AddPiece(sections, FOOTER);
      FooterIsQuiet();
    }
  }

  // ---------- the claims ----------

  lemma {:induction false} OccursInside(before: string, p: string, after: string)
    ensures Occurs(before + p + after, p)
  {
    assert (before + p + after)[|before|..|before| + |p|] == p;
    assert OccursAt(before + p + after, p, |before|);
  }

  lemma {:induction false} JoinHolds(pieces: seq<string>, separator: string, i: nat) returns (before: string, after: string)
    requires i < |pieces|
    ensures Join(pieces, separator) == before + pieces[i] + after
  {
    if |pieces| == 1 {
      before, after := "", "";
    } else {
      var last := |pieces| - 1;
      var init := Join(pieces[..last], separator);
      if i == last {
        before, after := init + separator, "";
      } else {
        before, after := JoinHolds(pieces[..last], separator, i);
        after := after + separator + pieces[last];
      }
    }
  }

  lemma {:induction false} HoldsTransitively(outer: string, pre: string, inner: string, post: string, a: string, p: string, b: string)
    requires outer == pre + inner + post && inner == a + p + b
    ensures Occurs(outer, p)
  {
    assert outer == (pre + a) + p + (b + post);
    OccursInside(pre + a, p, b + post);
  }

  /** Every comment that says something is recognised, and the empty one is not. */
  lemma {:induction false} RecognisedExactlyWhenNotEmpty(likely: seq<Match>, possible: seq<Match>, closed: seq<Closed>)
    ensures IsBotComment(Comment(likely, possible, closed)) <==> Comment(likely, possible, closed) != ""
    ensures Comment(likely, possible, closed) != "" <==> likely != [] || possible != [] || closed != []
  {
    var sections := Sections(likely, possible, closed);
    var comment := Comment(likely, possible, closed);
    if sections == [] {
      EmptyIsNotRecognised();
    } else {
      var pieces := sections + [FOOTER];
      var pre, post := JoinHolds(pieces, "\n\n", 0);
      if likely != [] {
        var a, b := AlertHolds(likely);
        HoldsTransitively(comment, pre, AlertSection(likely), post, a, ALERT, b);
        assert MARKERS[0] == ALERT;
      } else {
        var a, b := ContextHolds(possible, closed);
        HoldsTransitively(comment, pre, ContextSection(possible, closed), post, a, CONTEXT, b);
        assert MARKERS[1] == CONTEXT;
      }
      assert IsBotComment(comment);
      EmptyIsNotRecognised();
    }
  }

  /** What a comment is recognised by. */
  lemma {:induction false} MarkersAre(body: string)
    ensures IsBotComment(body)
            <==> Occurs(body, "This issue appears to be " + "a duplicate of") || Occurs(body, "Additional recent " + "context for triagers")
  {
    var alert, context := "This issue appears to be " + "a duplicate of", "Additional recent " + "context for triagers";
    assert MARKERS[0] == alert && MARKERS[1] == context;
  }

  lemma EmptyIsNotRecognised()
    ensures !IsBotComment("")
  {
  }

  lemma {:induction false} AlertHolds(likely: seq<Match>) returns (before: string, after: string)
    ensures AlertSection(likely) == before + ALERT + after
  {
    var pieces := ALERT_HEAD + [Join(Bullets(likely), "\n")] + HINTS + [Join(AllExplained(likely), "\n\n")] + DETAILS_END;
    before, after := JoinHolds(pieces, "\n", 0);
    after := ":" + after;
  }

  lemma {:induction false} ContextHolds(possible: seq<Match>, closed: seq<Closed>) returns (before: string, after: string)
    ensures ContextSection(possible, closed) == before + CONTEXT + after
  {
    var pieces := CONTEXT_HEAD + [Join(ContextParts(possible, closed), "\n\n")] + DETAILS_END;
    before, after := JoinHolds(pieces, "\n", 1);
    before, after := before + SUMMARY, SUMMARY_END + after;
  }

  // ---------- everything is said ----------

  lemma {:induction false} OccursWithin(pre: string, inner: string, post: string, p: string)
    requires Occurs(inner, p)
    ensures Occurs(pre + inner + post, p)
  {
    var i := Find(inner, p).value;
    assert inner == inner[..i] + p + inner[i + |p|..];
    HoldsTransitively(pre + inner + post, pre, inner, post, inner[..i], p, inner[i + |p|..]);
  }

  lemma {:induction false} InJoin(pieces: seq<string>, separator: string, i: nat, p: string)
    requires i < |pieces| && Occurs(pieces[i], p)
    ensures Occurs(Join(pieces, separator), p)
  {
    var before, after := JoinHolds(pieces, separator, i);
    OccursWithin(before, pieces[i], after, p);
  }

  lemma {:induction false} OccursInItself(p: string)
    ensures Occurs(p, p)
  {
    OccursInside("", p, "");
    assert "" + p + "" == p;
  }

  lemma {:induction false} LinesAt(ms: seq<Match>, i: nat)
    requires i < |ms|
    ensures |Bullets(ms)| == |AllExplained(ms)| == |OpenLines(ms)| == |ms|
    ensures Bullets(ms)[i] == Bullet(ms[i].number)
    ensures AllExplained(ms)[i] == Explained(ms[i]) && OpenLines(ms)[i] == OpenLine(ms[i])
  {
    if i < |ms| - 1 {
      LinesAt(ms[..|ms| - 1], i);
    } else if i > 0 {
      LinesAt(ms[..i], 0);
    }
  }

  lemma {:induction false} ClosedLineAt(cs: seq<Closed>, i: nat)
    requires i < |cs|
    ensures |ClosedLines(cs)| == |cs| && ClosedLines(cs)[i] == ClosedLine(cs[i])
  {
    if i < |cs| - 1 {
      ClosedLineAt(cs[..|cs| - 1], i);
    } else if i > 0 {
      ClosedLineAt(cs[..i], 0);
    }
  }

  lemma {:induction false} InAlert(likely: seq<Match>, possible: seq<Match>, closed: seq<Closed>, piece: string, p: string)
    requires likely != [] && Occurs(piece, p)
    requires piece == Join(Bullets(likely), "\n") || piece == Join(AllExplained(likely), "\n\n")
    ensures Occurs(Comment(likely, possible, closed), p)
  {
    var pieces := ALERT_HEAD + [Join(Bullets(likely), "\n")] + HINTS + [Join(AllExplained(likely), "\n\n")] + DETAILS_END;
    assert pieces[|ALERT_HEAD|] == Join(Bullets(likely), "\n");
    assert pieces[|ALERT_HEAD| + 1 + |HINTS|] == Join(AllExplained(likely), "\n\n");
    InJoin(pieces, "\n", if piece == Join(Bullets(likely), "\n") then |ALERT_HEAD| else |ALERT_HEAD| + 1 + |HINTS|, p);
    InJoin(Sections(likely, possible, closed) + [FOOTER], "\n\n", 0, p);
  }

  lemma {:induction false} InContext(likely: seq<Match>, possible: seq<Match>, closed: seq<Closed>, k: nat, p: string)
    requires k < |ContextParts(possible, closed)| && Occurs(ContextParts(possible, closed)[k], p)
    ensures Occurs(Comment(likely, possible, closed), p)
  {
    var parts := ContextParts(possible, closed);
    var sections := Sections(likely, possible, closed);
    InJoin(parts, "\n\n", k, p);
    var pieces := CONTEXT_HEAD + [Join(parts, "\n\n")] + DETAILS_END;
    assert pieces[|CONTEXT_HEAD|] == Join(parts, "\n\n");
    InJoin(pieces, "\n", |CONTEXT_HEAD|, p);
    assert sections[|sections| - 1] == ContextSection(possible, closed);
    InJoin(sections + [FOOTER], "\n\n", |sections| - 1, p);
  }

  /** Each likely duplicate is listed by its number, and explained with its root cause. */
  lemma {:induction false} LikelyIsSaid(likely: seq<Match>, possible: seq<Match>, closed: seq<Closed>, i: nat)
    requires i < |likely|
    ensures var m, comment := likely[i], Comment(likely, possible, closed);
            && Occurs(comment, "- #" + Decimal(m.number))
            && Occurs(comment, "**#" + Decimal(m.number) + ":** " + m.explanation + "\n\n" + ("**Shared root cause:** " + m.rootCause))
  {
    LinesAt(likely, i);
    OccursInItself(Bullet(likely[i].number));
    InJoin(Bullets(likely), "\n", i, Bullet(likely[i].number));
    InAlert(likely, possible, closed, Join(Bullets(likely), "\n"), Bullet(likely[i].number));
    OccursInItself(Explained(likely[i]));
    InJoin(AllExplained(likely), "\n\n", i, Explained(likely[i]));
    InAlert(likely, possible, closed, Join(AllExplained(likely), "\n\n"), Explained(likely[i]));
  }

  /** Each possible one is listed with its explanation and root cause. */
  lemma {:induction false} PossibleIsSaid(likely: seq<Match>, possible: seq<Match>, closed: seq<Closed>, i: nat)
    requires i < |possible|
    ensures var m := possible[i];
            Occurs(Comment(likely, possible, closed),
                   "- #" + Decimal(m.number) + " \U{2014} " + m.explanation + "\n" + ("  - Possible shared " + "root cause: " + m.rootCause))
  {
    var line := OpenLine(possible[i]);
    LinesAt(possible, i);
    OccursInItself(line);
    InJoin(OpenLines(possible), "\n", i, line);
    var lines := Join(OpenLines(possible), "\n");
    OccursWithin(OPEN_HEADING + "\n\n", lines, "", line);
    assert OPEN_HEADING + "\n\n" + lines + "" == OpenPart(possible);
    InContext(likely, possible, closed, 0, line);
  }

  /** Each closed one is listed with its explanation, and marked if it was closed as a duplicate. */
  lemma {:induction false} ClosedIsSaid(likely: seq<Match>, possible: seq<Match>, closed: seq<Closed>, i: nat)
    requires i < |closed|
    ensures var c := closed[i];
            Occurs(Comment(likely, possible, closed),
                   "- #" + Decimal(c.number) + (if c.asDuplicate then " (closed as duplicate)" else "") + " \U{2014} " + c.explanation)
  {
    var line := ClosedLine(closed[i]);
    ClosedLineAt(closed, i);
    OccursInItself(line);
    InJoin(ClosedLines(closed), "\n", i, line);
    var lines := Join(ClosedLines(closed), "\n");
    OccursWithin(CLOSED_HEADING + "\n\n", lines, "", line);
    assert CLOSED_HEADING + "\n\n" + lines + "" == ClosedPart(closed);
    InContext(likely, possible, closed, |ContextParts(possible, closed)| - 1, line);
  }

  predicate AllEmpty(xs: seq<seq<nat>>) {
    forall i :: 0 <= i < |xs| ==> xs[i] == []
  }

  /** No line after the first of an explanation or a root cause reads as a suggestion itself. */
  predicate NoExtras(likely: seq<Match>, possible: seq<Match>, closed: seq<Closed>) {
    AllEmpty(ExtrasOf(likely)) && AllEmpty(ExtrasOf(possible)) && AllEmpty(ClosedExtras(closed))
  }

  lemma {:induction false} FlatIsEmptyExactlyWhen(xs: seq<seq<nat>>)
    ensures Flat(xs) == [] <==> AllEmpty(xs)
  {
    if xs != [] { FlatIsEmptyExactlyWhen(xs[..|xs| - 1]); }
  }

  lemma {:induction false} InterleavedIsPlainExactlyWhen(ns: seq<nat>, xs: seq<seq<nat>>)
    requires |ns| == |xs|
    ensures |Interleaved(ns, xs)| >= |ns|
    ensures |Interleaved(ns, xs)| == |ns| <==> AllEmpty(xs)
    ensures AllEmpty(xs) ==> Interleaved(ns, xs) == ns
  {
    if ns != [] {
      var init, last := xs[..|xs| - 1], xs[|xs| - 1];
      InterleavedIsPlainExactlyWhen(ns[..|ns| - 1], init);
      assert AllEmpty(xs) <==> AllEmpty(init) && last == [];
      assert ns[..|ns| - 1] + ([ns[|ns| - 1]] + []) == ns;
    }
  }

  /**
   The reader finds the likely duplicates, then the possible ones, then the closed ones, in
   order, and nothing else, exactly when no continuation line looks like a suggestion.
   */
  lemma {:induction false} ReadsBackExactlyWhen(likely: seq<Match>, possible: seq<Match>, closed: seq<Closed>)
    ensures SuggestedIssues(Comment(likely, possible, closed))
            == NumbersOfMatches(likely) + NumbersOfMatches(possible) + NumbersOfClosed(closed)
            <==> NoExtras(likely, possible, closed)
  {
    CommentSuggests(likely, possible, closed);
    var a, b, c := NumbersOfMatches(likely), NumbersOfMatches(possible), NumbersOfClosed(closed);
    var x, y, z := ExtrasOf(likely), ExtrasOf(possible), ClosedExtras(closed);
    FlatIsEmptyExactlyWhen(x);
    InterleavedIsPlainExactlyWhen(b, y);
    InterleavedIsPlainExactlyWhen(c, z);
    SumsAgree(a, Flat(x), b, Interleaved(b, y), c, Interleaved(c, z));
  }

  lemma {:induction false} SumsAgree(a: seq<nat>, x: seq<nat>, b: seq<nat>, b': seq<nat>, c: seq<nat>, c': seq<nat>)
    requires |b'| >= |b| && (|b'| == |b| ==> b' == b)
    requires |c'| >= |c| && (|c'| == |c| ==> c' == c)
    ensures a + x + (b' + c') == a + b + c <==> x == [] && b' == b && c' == c
  {
  }

  const TWO_LINES := "x" + "\n" + "- #5"

  lemma {:induction false} SecondLineAddsFive()
    ensures Extra(TWO_LINES) == [5]
  {
    LinesConcat("x", "- #5");
    OneLine("x");
    OneLine("- #5");
    assert Lines(TWO_LINES)[1..] == ["- #5"];
    CollectOne("- #5", NumberOfLine);
    assert "- #5" == Bullet(5) + "";
    BulletLine(5, "");
  }

  lemma {:induction false} OneMatch(m: Match)
    ensures NumbersOfMatches([m]) == [m.number] && Flat(ExtrasOf([m])) == ExtraOf(m)
  {
    assert [m][..0] == [];
    assert ExtrasOf([m])[..0] == [];
  }

  /** That happens: the second line of this explanation is read as a suggestion of issue 5. */
  lemma {:induction false} ExplanationReadAsSuggestion()
    ensures var likely := [Match(1, TWO_LINES, "y")];
            !NoExtras(likely, [], []) && SuggestedIssues(Comment(likely, [], [])) == [1, 5]
  {
    var m := Match(1, TWO_LINES, "y");
    SecondLineAddsFive();
    OneLineAddsNothing("y");
    OneMatch(m);
    CommentSuggests([m], [], []);
    FlatIsEmptyExactlyWhen(ExtrasOf([m]));
  }

  /** One-line explanations never get in the way. */
  lemma {:induction false} OneLineTextsReadBack(likely: seq<Match>, possible: seq<Match>, closed: seq<Closed>)
    requires forall i :: 0 <= i < |likely| ==> '\n' !in likely[i].explanation && '\n' !in likely[i].rootCause
    requires forall i :: 0 <= i < |possible| ==> '\n' !in possible[i].explanation && '\n' !in possible[i].rootCause
    requires forall i :: 0 <= i < |closed| ==> '\n' !in closed[i].explanation
    ensures SuggestedIssues(Comment(likely, possible, closed))
            == NumbersOfMatches(likely) + NumbersOfMatches(possible) + NumbersOfClosed(closed)
  {
    OneLineMatches(likely);
    OneLineMatches(possible);
    OneLineClosed(closed);
    ReadsBackExactlyWhen(likely, possible, closed);
  }

  lemma {:induction false} OneLineAddsNothing(text: string)
    requires '\n' !in text
    ensures Extra(text) == []
  {
    OneLine(text);
    assert [text][1..] == [];
  }

  lemma {:induction false} OneLineMatches(ms: seq<Match>)
    requires forall i :: 0 <= i < |ms| ==> '\n' !in ms[i].explanation && '\n' !in ms[i].rootCause
    ensures AllEmpty(ExtrasOf(ms))
  {
    if ms != [] {
      OneLineMatches(ms[..|ms| - 1]);
      OneLineAddsNothing(ms[|ms| - 1].explanation);
      OneLineAddsNothing(ms[|ms| - 1].rootCause);
    }
  }

  lemma {:induction false} OneLineClosed(cs: seq<Closed>)
    requires forall i :: 0 <= i < |cs| ==> '\n' !in cs[i].explanation
    ensures AllEmpty(ClosedExtras(cs))
  {
    if cs != [] {
      OneLineClosed(cs[..|cs| - 1]);
      OneLineAddsNothing(cs[|cs| - 1].explanation);
    }
  }
}
