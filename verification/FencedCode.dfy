/**
 Text shown as a fenced code block, and a reader that takes such a block apart as section 4.5
 of the CommonMark specification (version 0.31) says.
 */
module FencedCode {
  import opened Prelude

  // ---------- the writer ----------

  /** Maximal groups of equal neighbours. */
  function Runs(s: string): (r: seq<string>)
    ensures forall i :: 0 <= i < |r| ==> r[i] != ""
    ensures s != "" ==> |r| > 0 && r[0][0] == s[0]
  {
    if s == "" then []
    else
      var r := Runs(s[1..]);
      if |s| > 1 && s[0] == s[1] then [[s[0]] + r[0]] + r[1..] else [[s[0]]] + r
  }

  /** One more than the longest group of backticks, and at least `least`. */
  function FenceFor(runs: seq<string>, least: nat): (n: nat)
    requires forall i :: 0 <= i < |runs| ==> runs[i] != ""
    ensures least <= n
    ensures forall i :: 0 <= i < |runs| && runs[i][0] == '`' ==> |runs[i]| < n
    ensures n == least || exists i :: 0 <= i < |runs| && runs[i][0] == '`' && |runs[i]| + 1 == n
  {
    if runs == [] then least
    else
      var last := |runs| - 1;
      var n := FenceFor(runs[..last], least);
      if runs[last][0] == '`' && |runs[last]| + 1 > n then |runs[last]| + 1 else n
  }

  function FenceLength(text: string): nat {
    FenceFor(Runs(text), 3)
  }

  function Ticks(n: nat): (s: string)
    ensures |s| == n && forall i :: 0 <= i < n ==> s[i] == '`'
  {
    seq(n, _ => '`')
  }

  function WithFinalNewline(text: string): string {
    if text != "" && text[|text| - 1] == '\n' then text else text + "\n"
  }

  function Fenced(text: string, language: Option<string>): string {
    var fence := Ticks(FenceLength(text));
    var info := if language.Some? then language.value else "";
    fence + info + "\n" + WithFinalNewline(text) + fence
  }

  method FencedCodeBlock(text: string, language: Option<string>) returns (markdown: string)
    ensures markdown == Fenced(text, language)
  {
    var runs := Runs(text);
    var length := 3;
    for k := 0 to |runs|
      invariant length == FenceFor(runs[..k], 3)
    {
      assert runs[..k + 1][..k] == runs[..k];
      if runs[k][0] == '`' && |runs[k]| + 1 > length {
        length := |runs[k]| + 1;
      }
    }
    assert runs[..|runs|] == runs;
    var fence := Ticks(length);
    markdown := fence;
    if language.Some? {
      markdown := markdown + language.value;
    } else {
      assert fence + "" == fence;
    }
    markdown := markdown + "\n";
    markdown := markdown + text;
    if text == "" || text[|text| - 1] != '\n' {
      markdown := markdown + "\n";
    }
    markdown := markdown + fence;
    var info := if language.Some? then language.value else "";
    assert markdown == fence + info + "\n" + WithFinalNewline(text) + fence;
  }

  // ---------- the fence is long enough ----------

  predicate AllTicks(s: string) {
    forall i :: 0 <= i < |s| ==> s[i] == '`'
  }

  /** No `n` backticks in a row. */
  predicate NoRun(s: string, n: nat) {
    forall i, j :: 0 <= i <= j <= |s| && AllTicks(s[i..j]) ==> j - i < n
  }

  /** How many backticks a text starts with. */
  function LeadingTicks(s: string): (n: nat)
    ensures n <= |s| && AllTicks(s[..n]) && (n < |s| ==> s[n] != '`')
  {
    if s == "" || s[0] != '`' then 0 else 1 + LeadingTicks(s[1..])
  }

  lemma {:induction false} LeadingTicksAreMost(s: string, n: nat)
    requires n <= |s| && AllTicks(s[..n])
    ensures n <= LeadingTicks(s)
  {
  }

  lemma {:induction false} FirstRunIsLeading(s: string)
    requires s != "" && s[0] == '`'
    ensures |Runs(s)[0]| == LeadingTicks(s)
  {
    if |s| > 1 && s[1] == '`' { FirstRunIsLeading(s[1..]); }
  }

  /** Backticks anywhere in the text lie within one group. */
  lemma {:induction false} TicksLieInARun(s: string, i: nat, j: nat)
    requires i < j <= |s| && AllTicks(s[i..j])
    ensures exists k :: 0 <= k < |Runs(s)| && Runs(s)[k][0] == '`' && j - i <= |Runs(s)[k]|
  {
    assert s[i..j][0] == '`';
    if i == 0 {
      FirstRunIsLeading(s);
      assert s[..j] == s[0..j];
      LeadingTicksAreMost(s, j);
      assert Runs(s)[0][0] == '`' && j - i <= |Runs(s)[0]|;
    } else {
      assert s[1..][i - 1..j - 1] == s[i..j];
      TicksLieInARun(s[1..], i - 1, j - 1);
      var r := Runs(s[1..]);
      var k :| 0 <= k < |r| && r[k][0] == '`' && j - i <= |r[k]|;
      if s[0] == s[1] {
        assert Runs(s)[k][0] == '`' && j - i <= |Runs(s)[k]|;
      } else {
        assert Runs(s)[k + 1] == r[k];
      }
    }
  }

  /** The fence is longer than any row of backticks in the text, has at least three, and no more than needed. */
  lemma {:induction false} FenceIsLongEnough(text: string)
    ensures FenceLength(text) >= 3 && NoRun(text, FenceLength(text))
    ensures FenceLength(text) == 3 || !NoRun(text, FenceLength(text) - 1)
  {
    var n := FenceLength(text);
    forall i, j | 0 <= i <= j <= |text| && AllTicks(text[i..j]) ensures j - i < n {
      if i < j { TicksLieInARun(text, i, j); }
    }
    if n > 3 {
      var k :| 0 <= k < |Runs(text)| && Runs(text)[k][0] == '`' && |Runs(text)[k]| + 1 == n;
      RunIsInText(text, k);
    }
  }

  lemma {:induction false} RunIsInText(s: string, k: nat)
    requires k < |Runs(s)| && Runs(s)[k][0] == '`'
    ensures !NoRun(s, |Runs(s)[k]|)
  {
    if k == 0 {
      FirstRunIsLeading(s);
      assert AllTicks(s[0..LeadingTicks(s)]) by { assert s[0..LeadingTicks(s)] == s[..LeadingTicks(s)]; }
    } else {
      var r := Runs(s[1..]);
      var k' := if |s| > 1 && s[0] == s[1] then k else k - 1;
      assert Runs(s)[k] == r[k'];
      RunIsInText(s[1..], k');
      var i, j :| 0 <= i <= j <= |s[1..]| && AllTicks(s[1..][i..j]) && j - i >= |r[k']|;
      assert s[1..][i..j] == s[i + 1..j + 1];
    }
  }

  lemma {:induction false} NoRunInSuffix(s: string, n: nat, k: nat)
    requires NoRun(s, n) && k <= |s|
    ensures NoRun(s[k..], n)
  {
    forall i, j | 0 <= i <= j <= |s| - k && AllTicks(s[k..][i..j]) ensures j - i < n {
      assert s[k..][i..j] == s[k + i..k + j];
    }
  }

  // ---------- the reader ----------

  /** The length of the first line with its ending: a newline, a carriage return, or both. */
  function NextLine(s: string): (n: nat)
    ensures n <= |s| && (s != "" ==> n > 0)
  {
    if s == "" then 0
    else if s[0] == '\n' then 1
    else if s[0] == '\r' then (if |s| > 1 && s[1] == '\n' then 2 else 1)
    else 1 + NextLine(s[1..])
  }

  /** A line without its ending. */
  function Body(line: string): (b: string)
    ensures b <= line
  {
    if line == "" || line[0] == '\n' || line[0] == '\r' then "" else [line[0]] + Body(line[1..])
  }

  function LeadingSpaces(s: string): (n: nat)
    ensures n <= |s|
  {
    if s == "" || s[0] != ' ' then 0 else 1 + LeadingSpaces(s[1..])
  }

  predicate Blank(s: string) {
    forall i :: 0 <= i < |s| ==> s[i] == ' ' || s[i] == '\t'
  }

  /** A closing fence: up to three spaces, at least as many backticks as the opening one, nothing else. */
  predicate Closes(line: string, n: nat) {
    && LeadingSpaces(line) <= 3
    && var rest := line[LeadingSpaces(line)..];
    LeadingTicks(rest) >= n && Blank(rest[LeadingTicks(rest)..])
  }

  /** The lines up to the closing fence, or all of them when there is none. */
  function Content(s: string, n: nat): string
    decreases |s|
  {
    if s == "" then ""
    else
      var k := NextLine(s);
      if Closes(Body(s[..k]), n) then "" else s[..k] + Content(s[k..], n)
  }

  function TrimStart(s: string): string {
    if s != "" && (s[0] == ' ' || s[0] == '\t') then TrimStart(s[1..]) else s
  }

  function TrimEnd(s: string): string {
    if s != "" && (s[|s| - 1] == ' ' || s[|s| - 1] == '\t') then TrimEnd(s[..|s| - 1]) else s
  }

  datatype CodeBlock = CodeBlock(info: string, content: string)

  /** Reads a block whose opening fence is not indented; an info string has no backticks. */
  function ReadBlock(s: string): Option<CodeBlock> {
    var n := LeadingTicks(s);
    if n < 3 then None else ReadAfterFence(s[n..], n)
  }

  function ReadAfterFence(s: string, n: nat): Option<CodeBlock> {
    var k := NextLine(s);
    var info := Body(s[..k]);
    if '`' in info then None else Some(CodeBlock(TrimStart(TrimEnd(info)), Content(s[k..], n)))
  }

  // ---------- the round trip ----------

  /** A language name: one line, no backticks, no blanks around it. */
  predicate IsLanguage(s: string) {
    && (forall i :: 0 <= i < |s| ==> s[i] != '\n' && s[i] != '\r' && s[i] != '`')
    && (s != "" ==> !Blank(s[..1]) && !Blank(s[|s| - 1..]))
  }

  predicate EndsWithNewline(s: string) {
    s != "" && s[|s| - 1] == '\n'
  }

  lemma {:induction false} NextLineStaysInside(t: string, u: string)
    requires EndsWithNewline(t)
    ensures NextLine(t + u) == NextLine(t)
  {
    if t[0] != '\n' && t[0] != '\r' {
      NextLineStaysInside(t[1..], u);
      assert (t + u)[1..] == t[1..] + u;
    }
  }

  lemma {:induction false} NoRunInPrefix(s: string, n: nat, p: string)
    requires NoRun(s, n) && p <= s
    ensures NoRun(p, n)
  {
    forall i, j | 0 <= i <= j <= |p| && AllTicks(p[i..j]) ensures j - i < n {
      assert p[i..j] == s[i..j];
    }
  }

  /** No line of the text closes the block. */
  lemma {:induction false} NoLineCloses(line: string, n: nat, s: string)
    requires line <= s && NoRun(s, n)
    ensures !Closes(Body(line), n)
  {
    var b := Body(line);
    NoRunInPrefix(s, n, b);
    NoRunInSuffix(b, n, LeadingSpaces(b));
    var rest := b[LeadingSpaces(b)..];
    assert rest[0..LeadingTicks(rest)] == rest[..LeadingTicks(rest)];
  }

  lemma {:induction false} BodyOfPlain(s: string, u: string)
    requires forall i :: 0 <= i < |s| ==> s[i] != '\n' && s[i] != '\r'
    ensures Body(s) == s && NextLine(s) == |s|
    ensures Body(s + "\n") == s && NextLine(s + ("\n" + u)) == |s| + 1
  {
    if s == "" {
      assert s + ("\n" + u) == "\n" + u && s + "\n" == "\n";
    } else {
      BodyOfPlain(s[1..], u);
      assert (s + "\n")[1..] == s[1..] + "\n";
      assert (s + ("\n" + u))[1..] == s[1..] + ("\n" + u);
    }
  }

  lemma {:induction false} TicksClose(n: nat)
    requires n >= 3
    ensures Content(Ticks(n), n) == ""
  {
    var f := Ticks(n);
    BodyOfPlain(f, "");
    assert f[..|f|] == f && f[0..] == f;
    LeadingTicksAreMost(f, n);
  }

  lemma {:induction false} FirstLineReadsBack(text: string, f: string, n: nat)
    requires EndsWithNewline(text) && NoRun(text, n)
    ensures var k := NextLine(text);
            && Content(text + f, n) == text[..k] + Content(text[k..] + f, n)
            && NoRun(text[k..], n) && (text[k..] == "" || EndsWithNewline(text[k..]))
  {
    NextLineStaysInside(text, f);
    var k := NextLine(text);
    assert (text + f)[..k] == text[..k] && (text + f)[k..] == text[k..] + f;
    NoLineCloses(text[..k], n, text);
    NoRunInSuffix(text, n, k);
  }

  lemma {:induction false} ContentReadsBack(text: string, n: nat)
    requires n >= 3 && NoRun(text, n) && (text == "" || EndsWithNewline(text))
    ensures Content(text + Ticks(n), n) == text
    decreases |text|
  {
    var f := Ticks(n);
    if text == "" {
      assert text + f == f;
      TicksClose(n);
    } else {
      FirstLineReadsBack(text, f, n);
      ContentReadsBack(text[NextLine(text)..], n);
    }
  }

  lemma {:induction false} NewlineAddsNoRun(text: string, n: nat)
    requires NoRun(text, n) && n > 0
    ensures NoRun(WithFinalNewline(text), n)
  {
    var t := WithFinalNewline(text);
    forall i, j | 0 <= i <= j <= |t| && AllTicks(t[i..j]) ensures j - i < n {
      if i < j {
        assert t[i..j][j - 1 - i] == t[j - 1];
        if t != text { assert t[i..j] == text[i..j]; }
      }
    }
  }

  lemma {:induction false} LanguageIsTrimmed(s: string)
    requires IsLanguage(s)
    ensures TrimStart(TrimEnd(s)) == s
  {
  }

  lemma {:induction false} TicksThen(n: nat, line: string)
    requires line != "" && line[0] != '`'
    ensures LeadingTicks(Ticks(n) + line) == n && (Ticks(n) + line)[n..] == line
  {
  }

  lemma {:induction false} InfoLine(info: string, rest: string)
    requires IsLanguage(info)
    ensures var line := info + ("\n" + rest);
            && line[0] != '`' && NextLine(line) == |info| + 1
            && Body(line[..|info| + 1]) == info && line[|info| + 1..] == rest
  {
    var line := info + ("\n" + rest);
    BodyOfPlain(info, rest);
    assert line[..|info| + 1] == info + "\n";
    assert info != "" ==> line[0] == info[0];
  }

  lemma {:induction false} OpeningReadsBack(n: nat, info: string, rest: string)
    requires n >= 3 && IsLanguage(info)
    ensures ReadBlock(Ticks(n) + (info + ("\n" + rest))) == Some(CodeBlock(info, Content(rest, n)))
  {
    var line := info + ("\n" + rest);
    var s := Ticks(n) + line;
    InfoLine(info, rest);
    TicksThen(n, line);
    LanguageIsTrimmed(info);
  }

  lemma {:induction false} Regroup(a: string, b: string, c: string, d: string, e: string)
    ensures a + b + c + d + e == a + (b + (c + (d + e)))
  {
  }

  /** The block reads back: the language, and the text with a final newline. */
  lemma {:induction false} FencedReadsBack(text: string, language: Option<string>)
    requires language.Some? ==> IsLanguage(language.value)
    ensures ReadBlock(Fenced(text, language))
            == Some(CodeBlock(if language.Some? then language.value else "",
                              if EndsWithNewline(text) then text else text + "\n"))
  {
    var n := FenceLength(text);
    var fence, body := Ticks(n), WithFinalNewline(text);
    var info := if language.Some? then language.value else "";
    FenceIsLongEnough(text);
    NewlineAddsNoRun(text, n);
    ContentReadsBack(body, n);
    OpeningReadsBack(n, info, body + fence);
    Regroup(fence, info, "\n", body, fence);
  }
}
