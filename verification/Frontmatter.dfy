/**
 The frontmatter of a skill file: finding the lines that may close it, and taking the first
 one at which the YAML reader is satisfied. The YAML reader itself is a parameter.
 */
module Frontmatter {
  import opened Prelude

  /** What the YAML reader makes of a text: no document at all, metadata, or an error. */
  datatype Reading<M> = NoDocument | Metadata(metadata: M) | Unreadable(error: nat)

  datatype Outcome<M> =
    | Found(metadata: M, body: string)
    | NoOpening
    | NoClosing
    | Invalid(lastError: Option<nat>)

  /** The White_Space property of the Unicode standard. */
  predicate IsWhitespace(c: char) {
    || '\U{0009}' <= c <= '\U{000D}' || c == ' ' || c == '\U{0085}' || c == '\U{00A0}' || c == '\U{1680}'
    || '\U{2000}' <= c <= '\U{200A}' || c == '\U{2028}' || c == '\U{2029}' || c == '\U{202F}' || c == '\U{205F}'
    || c == '\U{3000}'
  }

  function TrimStart(s: string): (t: string)
    ensures t == "" || !IsWhitespace(t[0])
    ensures |t| <= |s| && t == s[|s| - |t|..] && forall i :: 0 <= i < |s| - |t| ==> IsWhitespace(s[i])
  {
    if s != "" && IsWhitespace(s[0]) then TrimStart(s[1..]) else s
  }

  const DASHES := "---"

  // ---------- the reference: delimiter lines ----------

  /** Where the line at `at` ends: after the next newline, or at the end of the text. */
  function LineEnd(s: string, at: nat): (end: nat)
    requires at <= |s|
    ensures at <= end <= |s| && (at < |s| ==> at < end)
    ensures end < |s| ==> end > 0 && s[end - 1] == '\n'
    ensures forall i :: at <= i < end - 1 ==> s[i] != '\n'
    decreases |s| - at
  {
    if at == |s| then at else if s[at] == '\n' then at + 1 else LineEnd(s, at + 1)
  }

  predicate IsDelimiter(line: string) {
    line == DASHES || line == DASHES + "\n" || line == DASHES + "\r\n"
  }

  /** Line by line from `at` on, the ends of the lines that are delimiters. */
  function DelimiterEnds(s: string, at: nat): seq<nat>
    requires at <= |s|
    decreases |s| - at
  {
    if at == |s| then []
    else
      var end := LineEnd(s, at);
      (if IsDelimiter(s[at..end]) then [end] else []) + DelimiterEnds(s, end)
  }

  /** The ends of all delimiter lines after the first line. */
  function ClosingEnds(s: string): seq<nat> {
    DelimiterEnds(s, LineEnd(s, 0))
  }

  // ---------- the scan ----------

  /** The end of the delimiter that starts at `start`, if one does. */
  function EndOfDelimiter(s: string, start: nat): (r: Option<nat>)
    ensures r.Some? ==> r.value <= |s|
  {
    if start + 3 > |s| || s[start..start + 3] != DASHES then None
    else
      var after := start + 3;
      if after == |s| then Some(after)
      else if s[after] == '\n' then Some(after + 1)
      else if after + 1 < |s| && s[after] == '\r' && s[after + 1] == '\n' then Some(after + 2)
      else None
  }

  function ScanFrom(s: string, i: nat): seq<nat>
    requires i <= |s|
    decreases |s| - i
  {
    if i == |s| then []
    else
      var end := EndOfDelimiter(s, i + 1);
      (if s[i] == '\n' && end.Some? then [end.value] else []) + ScanFrom(s, i + 1)
  }

  lemma {:induction false} DelimiterIsWholeLine(s: string, at: nat)
    requires at <= |s|
    ensures EndOfDelimiter(s, at) == if at < |s| && IsDelimiter(s[at..LineEnd(s, at)]) then Some(LineEnd(s, at)) else None
  {
    var end := LineEnd(s, at);
    if at + 3 <= end { assert s[at..end][..3] == s[at..at + 3]; }
    if at + 3 <= |s| && s[at..at + 3] == DASHES {
      assert forall i :: at <= i < at + 3 ==> s[i] == s[at..at + 3][i - at];
      assert end >= at + 3;
      assert s[at..end] == DASHES + s[at + 3..end];
    }
  }

  lemma {:induction false} ScanFindsDelimiters(s: string, i: nat)
    requires i < |s|
    ensures ScanFrom(s, i) == DelimiterEnds(s, LineEnd(s, i))
    decreases |s| - i
  {
    if i + 1 < |s| { ScanFindsDelimiters(s, i + 1); }
    DelimiterIsWholeLine(s, i + 1);
  }

  /** The scan finds exactly the delimiter lines after the first line, in order. */
  lemma {:induction false} ScanIsRight(s: string)
    ensures ScanFrom(s, 0) == ClosingEnds(s)
  {
    if s != "" { ScanFindsDelimiters(s, 0); }
  }

  lemma {:induction false} EndsAscend(s: string, at: nat, i: nat)
    requires at <= |s| && i < |DelimiterEnds(s, at)|
    ensures var ends := DelimiterEnds(s, at); at < ends[i] && (i > 0 ==> ends[i - 1] < ends[i])
    decreases |s| - at
  {
    var end := LineEnd(s, at);
    if !IsDelimiter(s[at..end]) {
      EndsAscend(s, end, i);
    } else if i > 0 {
      EndsAscend(s, end, i - 1);
    }
  }

  /** A closing end is right after a line that is three dashes and nothing else. */
  predicate DelimiterAt(s: string, start: nat, end: nat) {
    0 < start <= |s| && s[start - 1] == '\n' && EndOfDelimiter(s, start) == Some(end)
  }

  /** A line is three dashes, ended by a newline, by a carriage return and newline, or by the text. */
  lemma {:induction false} DelimiterIsThreeDashes(s: string, start: nat, end: nat)
    ensures DelimiterAt(s, start, end)
            <==> && 0 < start <= start + 3 <= end <= |s| && s[start - 1] == '\n' && s[start..start + 3] == "---"
                 && (s[start + 3..end] == "\n" || s[start + 3..end] == "\r\n" || end == start + 3 == |s|)
  {
    if 0 < start && start + 3 <= end <= |s| {
      var rest := s[start + 3..end];
      assert |rest| == end - start - 3 && forall i :: 0 <= i < |rest| ==> rest[i] == s[start + 3 + i];
    }
  }

  /** Blanks and line breaks in front do not matter. */
  lemma {:induction false} BlanksInFrontAreIgnored<M>(c: char, content: string, yaml: string -> Reading<M>)
    requires c == ' ' || c == '\t' || c == '\n' || c == '\r' || c == '\U{00A0}' || c == '\U{3000}'
    ensures Extracted([c] + content, yaml) == Extracted(content, yaml)
  {
    assert ([c] + content)[1..] == content;
    assert TrimStart([c] + content) == TrimStart(content);
  }

  lemma {:induction false} ScannedEndIsDelimiter(s: string, i: nat, end: nat) returns (start: nat)
    requires i <= |s| && end in ScanFrom(s, i)
    ensures i < start && DelimiterAt(s, start, end)
    decreases |s| - i
  {
    if DelimiterAt(s, i + 1, end) {
      start := i + 1;
    } else {
      start := ScannedEndIsDelimiter(s, i + 1, end);
    }
  }

  lemma {:induction false} DelimiterIsScanned(s: string, i: nat, start: nat, end: nat)
    requires i < start && DelimiterAt(s, start, end)
    ensures end in ScanFrom(s, i)
    decreases |s| - i
  {
    if i + 1 < start {
      DelimiterIsScanned(s, i + 1, start, end);
      ScannedLater(s, i, end);
    } else {
      ScannedHere(s, i, end);
    }
  }

  lemma {:induction false} ScannedLater(s: string, i: nat, end: nat)
    requires i < |s| && end in ScanFrom(s, i + 1)
    ensures end in ScanFrom(s, i)
  {
  }

  lemma {:induction false} ScannedHere(s: string, i: nat, end: nat)
    requires DelimiterAt(s, i + 1, end)
    ensures i < |s| && end in ScanFrom(s, i)
  {
    assert ScanFrom(s, i)[0] == end;
  }

  // ---------- trying the candidates ----------

  /** The first candidate whose prefix the reader accepts, or the last error. */
  function TryAll<M>(s: string, ends: seq<nat>, yaml: string -> Reading<M>, last: Option<nat>): Outcome<M>
    requires forall i :: 0 <= i < |ends| ==> ends[i] <= |s|
    decreases ends
  {
    if ends == [] then Invalid(last)
    else
      match yaml(s[..ends[0]])
      case Metadata(m) => Found(m, s[ends[0]..])
      case Unreadable(e) => TryAll(s, ends[1..], yaml, Some(e))
      case NoDocument => TryAll(s, ends[1..], yaml, last)
  }

  function Extracted<M>(content: string, yaml: string -> Reading<M>): Outcome<M> {
    var s := TrimStart(content);
    if |s| < 3 || s[..3] != DASHES then NoOpening
    else
      assert forall i :: 0 <= i < |ScanFrom(s, 0)| ==> ScanFrom(s, 0)[i] <= |s| by { EndsAreInside(s, 0); }
      if ScanFrom(s, 0) == [] then NoClosing else TryAll(s, ScanFrom(s, 0), yaml, None)
  }

  lemma {:induction false} EndsAreInside(s: string, i: nat)
    requires i <= |s|
    ensures forall k :: 0 <= k < |ScanFrom(s, i)| ==> ScanFrom(s, i)[k] <= |s|
    decreases |s| - i
  {
    if i < |s| { EndsAreInside(s, i + 1); }
  }

  predicate Accepts<M>(s: string, end: nat, yaml: string -> Reading<M>) {
    end <= |s| && yaml(s[..end]).Metadata?
  }

  /** The last error the reader gave. */
  function LastError<M>(s: string, ends: seq<nat>, yaml: string -> Reading<M>, last: Option<nat>): Option<nat>
    requires forall i :: 0 <= i < |ends| ==> ends[i] <= |s|
    decreases ends
  {
    if ends == [] then last
    else LastError(s, ends[1..], yaml, if yaml(s[..ends[0]]).Unreadable? then Some(yaml(s[..ends[0]]).error) else last)
  }

  /** The error of the last candidate that gave one. */
  lemma {:induction false} LastErrorIs<M>(s: string, ends: seq<nat>, yaml: string -> Reading<M>, last: Option<nat>, i: nat)
    requires forall k :: 0 <= k < |ends| ==> ends[k] <= |s|
    ensures (forall k :: 0 <= k < |ends| ==> !yaml(s[..ends[k]]).Unreadable?) ==> LastError(s, ends, yaml, last) == last
    ensures i < |ends| && yaml(s[..ends[i]]).Unreadable? && (forall k :: i < k < |ends| ==> !yaml(s[..ends[k]]).Unreadable?) ==>
              LastError(s, ends, yaml, last) == Some(yaml(s[..ends[i]]).error)
    decreases ends
  {
    if ends != [] {
      var next := if yaml(s[..ends[0]]).Unreadable? then Some(yaml(s[..ends[0]]).error) else last;
      LastErrorIs(s, ends[1..], yaml, next, if i > 0 then i - 1 else 0);
      assert forall k :: 0 < k < |ends| ==> ends[k] == ends[1..][k - 1];
    }
  }

  lemma {:induction false} TryAllTakesLeast<M>(s: string, ends: seq<nat>, yaml: string -> Reading<M>, last: Option<nat>)
    requires forall i :: 0 <= i < |ends| ==> ends[i] <= |s|
    ensures var r := TryAll(s, ends, yaml, last);
            if exists i :: 0 <= i < |ends| && Accepts(s, ends[i], yaml)
            then TakesLeast(s, ends, yaml, r)
            else r == Invalid(LastError(s, ends, yaml, last))
    decreases ends
  {
    if ends == [] {
    } else if Accepts(s, ends[0], yaml) {
      assert IsLeast(s, ends, yaml, 0);
      assert s[..ends[0]] + s[ends[0]..] == s;
    } else {
      var next := if yaml(s[..ends[0]]).Unreadable? then Some(yaml(s[..ends[0]]).error) else last;
      TryAllTakesLeast(s, ends[1..], yaml, next);
      if i :| 0 <= i < |ends| && Accepts(s, ends[i], yaml) {
        assert Accepts(s, ends[1..][i - 1], yaml);
        var j :| 0 <= j < |ends| - 1 && IsLeast(s, ends[1..], yaml, j) && SplitsAt(s, ends[1..][j], yaml, TryAll(s, ends, yaml, last));
        assert forall k :: 0 <= k < j + 1 ==> ends[k] == if k == 0 then ends[0] else ends[1..][k - 1];
        assert IsLeast(s, ends, yaml, j + 1);
      }
    }
  }

  predicate IsLeast<M>(s: string, ends: seq<nat>, yaml: string -> Reading<M>, i: nat) {
    i < |ends| && Accepts(s, ends[i], yaml) && forall k :: 0 <= k < i ==> !Accepts(s, ends[k], yaml)
  }

  /** The reader's metadata for a prefix, and the rest as the body: together they are the whole text. */
  ghost predicate SplitsAt<M>(s: string, end: nat, yaml: string -> Reading<M>, r: Outcome<M>) {
    r.Found? && end <= |s| && yaml(s[..end]) == Metadata(r.metadata) && s[..end] + r.body == s
  }

  ghost predicate TakesLeast<M>(s: string, ends: seq<nat>, yaml: string -> Reading<M>, r: Outcome<M>) {
    exists i :: 0 <= i < |ends| && IsLeast(s, ends, yaml, i) && SplitsAt(s, ends[i], yaml, r)
  }

  lemma {:induction false} TryingEndsSo<M>(s: string, ends: seq<nat>, yaml: string -> Reading<M>)
    requires forall i :: 0 <= i < |ends| ==> ends[i] <= |s|
    ensures var r := TryAll(s, ends, yaml, None);
            && (r.Found? || r.Invalid?)
            && (r.Found? <==> exists i :: 0 <= i < |ends| && Accepts(s, ends[i], yaml))
            && (r.Found? ==> TakesLeast(s, ends, yaml, r))
            && (r.Invalid? ==> r.lastError == LastError(s, ends, yaml, None))
  {
    TryAllTakesLeast(s, ends, yaml, None);
  }

  /**
   The result in terms of the delimiter lines: the first at which the reader is satisfied
   splits the trimmed content in two, and otherwise the last error is reported.
   */
  lemma {:induction false} ExtractsAtLeastDelimiter<M>(content: string, yaml: string -> Reading<M>)
    ensures var s := TrimStart(content);
            var ends := ClosingEnds(s);
            var r := Extracted(content, yaml);
            && (forall i :: 0 <= i < |ends| ==> ends[i] <= |s|)
            && (r.NoOpening? <==> !("---" <= s))
            && (r.NoClosing? <==> "---" <= s && ends == [])
            && (r.Found? <==> "---" <= s && exists i :: 0 <= i < |ends| && Accepts(s, ends[i], yaml))
            && (r.Found? ==> TakesLeast(s, ends, yaml, r))
            && (r.Invalid? ==> r.lastError == LastError(s, ends, yaml, None))
  {
    var s := TrimStart(content);
    ScanIsRight(s);
    EndsAreInside(s, 0);
    if DASHES <= s {
      assert s[..3] == DASHES;
      TryingEndsSo(s, ClosingEnds(s), yaml);
    }
  }

  /** The closing ends ascend, and they are exactly the ends of the delimiter lines that follow a newline. */
  lemma {:induction false} ClosingEndsAscend(s: string)
    ensures var ends := ClosingEnds(s);
            && (forall i :: 0 < i < |ends| ==> ends[i - 1] < ends[i])
            && (forall end :: end in ends ==> exists start :: 0 < start <= |s| && DelimiterAt(s, start, end))
            && (forall start, end :: 0 < start && DelimiterAt(s, start, end) ==> end in ends)
  {
    var ends := ClosingEnds(s);
    forall i | 0 < i < |ends| ensures ends[i - 1] < ends[i] {
      EndsAscend(s, LineEnd(s, 0), i);
    }
    ScanIsRight(s);
    forall end | end in ends ensures exists start :: 0 < start <= |s| && DelimiterAt(s, start, end) {
      var start := ScannedEndIsDelimiter(s, 0, end);
    }
    forall start, end | 0 < start && DelimiterAt(s, start, end) ensures end in ends {
      DelimiterIsScanned(s, 0, start, end);
    }
  }

  // ---------- the program's loops ----------

  method Candidates(s: string) returns (candidates: seq<nat>)
    ensures candidates == ClosingEnds(s)
  {
    candidates := [];
    var i := 0;
    while i < |s|
      invariant i <= |s| && candidates + ScanFrom(s, i) == ScanFrom(s, 0)
    {
      var end := None;
      if s[i] == '\n' {
        end := CandidateAt(s, i + 1);
      }
      if end.Some? {
        candidates := candidates + [end.value];
      }
      i := i + 1;
    }
    ScanIsRight(s);
  }

  /** Looks at the bytes of the line that starts here. */
  method CandidateAt(s: string, start: nat) returns (end: Option<nat>)
    ensures end == EndOfDelimiter(s, start)
  {
    end := None;
    if start + 3 > |s| || s[start..start + 3] != DASHES {
      return;
    }
    var after := start + 3;
    if after == |s| {
      end := Some(after);
    } else if s[after] == '\n' {
      end := Some(after + 1);
    } else if after + 1 < |s| && s[after] == '\r' && s[after + 1] == '\n' {
      end := Some(after + 2);
    }
  }

  method TryCandidates<M>(s: string, candidates: seq<nat>, yaml: string -> Reading<M>) returns (r: Outcome<M>)
    requires forall i :: 0 <= i < |candidates| ==> candidates[i] <= |s|
    ensures r == TryAll(s, candidates, yaml, None)
  {
    var lastError := None;
    var k := 0;
    while k < |candidates|
      invariant k <= |candidates|
      invariant TryAll(s, candidates[k..], yaml, lastError) == TryAll(s, candidates, yaml, None)
    {
      assert candidates[k..][1..] == candidates[k + 1..];
      match yaml(s[..candidates[k]]) {
        case NoDocument =>
        case Metadata(m) => return Found(m, s[candidates[k]..]);
        case Unreadable(e) => lastError := Some(e);
      }
      k := k + 1;
    }
    r := Invalid(lastError);
  }

  method ExtractFrontmatter<M>(content: string, yaml: string -> Reading<M>) returns (r: Outcome<M>)
    ensures r == Extracted(content, yaml)
  {
    var s := TrimStart(content);
    if |s| < 3 || s[..3] != DASHES {
      return NoOpening;
    }
    ScanIsRight(s);
    EndsAreInside(s, 0);
    var candidates := Candidates(s);
    if candidates == [] {
      return NoClosing;
    }
    r := TryCandidates(s, candidates, yaml);
  }
}
