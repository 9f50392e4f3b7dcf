/**
 Skill names: turning a title into a name, and the rules a name must meet.
 */
module Slug {
  import opened Prelude
  import TextLines

  const MAX_SKILL_NAME_LEN: nat := 64

  predicate IsLower(c: char) { 'a' <= c <= 'z' }
  predicate IsUpper(c: char) { 'A' <= c <= 'Z' }
  predicate IsAlphanumeric(c: char) { IsLower(c) || IsUpper(c) || TextLines.IsDigit(c) }

  function ToLower(c: char): (l: char)
    ensures IsAlphanumeric(c) ==> IsLower(l) || TextLines.IsDigit(l)
  {
    if IsUpper(c) then c - 'A' + 'a' else c
  }

  function LastOf(s: string): char
    requires s != ""
  {
    s[|s| - 1]
  }

  predicate EndsWithDash(s: string) {
    s != "" && LastOf(s) == '-'
  }

  // ---------- the rules for names ----------

  /** The length in bytes; characters beyond ASCII take two to four. */
  function ByteLength(s: string): nat {
    if s == "" then 0
    else ByteLength(s[..|s| - 1])
         + (if LastOf(s) < '\U{0080}' then 1 else if LastOf(s) < '\U{0800}' then 2 else if LastOf(s) < '\U{10000}' then 3 else 4)
  }

  lemma {:induction false} NamesAreAscii(s: string)
    requires forall i :: 0 <= i < |s| ==> IsNameChar(s[i])
    ensures ByteLength(s) == |s|
  {
    if s != "" { NamesAreAscii(s[..|s| - 1]); }
  }

  datatype NameError = EmptyName | TooLong | EdgeHyphen | BadCharacter

  function ValidateName(name: string): Option<NameError> {
    if name == "" then Some(EmptyName)
    else if ByteLength(name) > MAX_SKILL_NAME_LEN then Some(TooLong)
    else if name[0] == '-' || LastOf(name) == '-' then Some(EdgeHyphen)
    else if exists i :: 0 <= i < |name| && !IsNameChar(name[i]) then Some(BadCharacter)
    else None
  }

  predicate IsNameChar(c: char) {
    IsLower(c) || TextLines.IsDigit(c) || c == '-'
  }

  // ---------- what a slug is ----------

  /** Every ampersand spelled out. */
  function Replaced(s: string): string {
    if s == "" then "" else Replaced(s[..|s| - 1]) + (if LastOf(s) == '&' then "-and-" else [LastOf(s)])
  }

  function MapChar(c: char): string {
    if IsAlphanumeric(c) then [ToLower(c)] else if c == ' ' || c == '-' then "-" else ""
  }

  function Mapped(s: string): (m: string)
    ensures forall i :: 0 <= i < |m| ==> IsNameChar(m[i])
  {
    if s == "" then "" else Mapped(s[..|s| - 1]) + MapChar(LastOf(s))
  }

  /** The runs of other characters between dashes. */
  function Words(m: string): (w: seq<string>)
    ensures m != "" && LastOf(m) != '-' ==> w != []
    ensures forall i :: 0 <= i < |w| ==> w[i] != "" && '-' !in w[i]
  {
    if m == "" then []
    else
      var init, c := m[..|m| - 1], LastOf(m);
      var w := Words(init);
      if c == '-' then w
      else if init == "" || LastOf(init) == '-' then w + [[c]]
      else w[|w| - 1 := w[|w| - 1] + [c]]
  }

  function Joined(w: seq<string>): string {
    if w == [] then "" else if |w| == 1 then w[0] else Joined(w[..|w| - 1]) + "-" + w[|w| - 1]
  }

  function TrimDashes(s: string): (t: string)
    ensures t <= s && !EndsWithDash(t)
    ensures s != "" && s[0] != '-' ==> t != ""
    ensures !EndsWithDash(s) ==> t == s
  {
    if EndsWithDash(s) then TrimDashes(s[..|s| - 1]) else s
  }

  /** Cut to the greatest length, and again trimmed. */
  function Cut(s: string): string {
    if |s| > MAX_SKILL_NAME_LEN then TrimDashes(s[..MAX_SKILL_NAME_LEN]) else s
  }

  /** The words of an input, joined: what is cut. */
  function Uncut(input: string): string {
    Joined(Words(Mapped(Replaced(input))))
  }

  /** The lowercase words of the input, joined by single dashes and cut. */
  function Slugified(input: string): Option<string> {
    var slug := Cut(Uncut(input));
    if slug == "" then None else Some(slug)
  }

  // ---------- character by character ----------

  /** A character's part does not depend on its neighbours ... */
  lemma {:induction false} CharactersAreIndependent(a: string, b: string)
    ensures Mapped(Replaced(a + b)) == Mapped(Replaced(a)) + Mapped(Replaced(b))
  {
    ReplacedConcat(a, b);
    MappedConcat(Replaced(a), Replaced(b));
  }

  lemma {:induction false} ReplacedConcat(a: string, b: string)
    ensures Replaced(a + b) == Replaced(a) + Replaced(b)
  {
    if b == "" {
      assert a + b == a;
    } else {
      ReplacedConcat(a, b[..|b| - 1]);
      assert (a + b)[..|a + b| - 1] == a + b[..|b| - 1];
    }
  }

  lemma {:induction false} MappedConcat(a: string, b: string)
    ensures Mapped(a + b) == Mapped(a) + Mapped(b)
  {
    if b == "" {
      assert a + b == a;
    } else {
      var init, c := b[..|b| - 1], LastOf(b);
      MappedConcat(a, init);
      Regroup(a, init, [c]);
      assert init + [c] == b;
      MappedMore(a + init, c);
      MappedMore(init, c);
      Regroup(Mapped(a), Mapped(init), MapChar(c));
    }
  }

  lemma {:induction false} Regroup(a: string, b: string, c: string)
    ensures (a + b) + c == a + (b + c)
  {
  }

  lemma {:induction false} MappedMore(s: string, c: char)
    ensures Mapped(s + [c]) == Mapped(s) + MapChar(c)
  {
    assert (s + [c])[..|s|] == s;
  }

  /**
   ... and is the letter in lower case, the digit, a separator for a space or a dash, the word "and"
   between separators for an ampersand, and nothing for any other character.
   */
  lemma {:induction false} EachCharacterGives(c: char)
    ensures var m := Mapped(Replaced([c]));
            if 'a' <= c <= 'z' || '0' <= c <= '9' then m == [c]
            else if 'A' <= c <= 'Z' then |m| == 1 && 'a' <= m[0] <= 'z' && m[0] - 'a' == c - 'A'
            else if c == ' ' || c == '-' then m == "-"
            else if c == '&' then m == "-and-"
            else m == ""
  {
    ReplacedOne(c);
    if c == '&' {
      AmpersandGives();
    } else {
      MappedOne(c);
    }
  }

  lemma {:induction false} ReplacedOne(c: char)
    ensures Replaced([c]) == if c == '&' then "-and-" else [c]
  {
    assert [c][..0] == "" && "" + [c] == [c] && "" + "-and-" == "-and-";
  }

  lemma AmpersandGives()
    ensures Mapped("-and-") == "-and-"
  {
    NothingToReplace("-and-");
  }

  lemma {:induction false} MappedOne(c: char)
    ensures Mapped([c]) == MapChar(c)
  {
    assert [c][..0] == "" && "" + MapChar(c) == MapChar(c);
  }

  // ---------- the rules in one place ----------

  /** Characters a name may have. */
  predicate InName(c: char) {
    'a' <= c <= 'z' || '0' <= c <= '9' || c == '-'
  }

  /** A name is valid exactly when it has 1 to 64 such characters and no dash at an end. */
  lemma {:induction false} ValidExactlyWhen(name: string)
    ensures ValidateName(name) == None
            <==> 1 <= |name| <= 64 && (forall i :: 0 <= i < |name| ==> InName(name[i]))
                 && name[0] != '-' && name[|name| - 1] != '-'
  {
    if forall i :: 0 <= i < |name| ==> IsNameChar(name[i]) { NamesAreAscii(name); }
    assert forall i :: 0 <= i < |name| ==> (IsNameChar(name[i]) <==> InName(name[i]));
  }

  // ---------- the program's loop ----------

  /** What the loop builds from the mapped characters: no leading dash, no double dash. */
  function Squeezed(m: string): string {
    if m == "" then ""
    else
      var s := Squeezed(m[..|m| - 1]);
      if LastOf(m) != '-' then s + [LastOf(m)] else if s == "" || LastOf(s) == '-' then s else s + "-"
  }

  predicate SingleDashes(s: string) {
    && (s != "" ==> s[0] != '-')
    && forall i :: 0 < i < |s| ==> !(s[i - 1] == '-' && s[i] == '-')
  }

  lemma {:induction false} JoinedLonger(w: seq<string>, c: char)
    requires w != []
    ensures Joined(w[|w| - 1 := w[|w| - 1] + [c]]) == Joined(w) + [c]
  {
  }

  /** The words joined, with a dash more after an unfinished separator. */
  function JoinedSoFar(m: string): string {
    Joined(Words(m)) + (if Words(m) != [] && EndsWithDash(m) then "-" else "")
  }

  /** The loop's string is the words joined by dashes. */
  lemma {:induction false} SqueezedIsJoined(m: string)
    ensures Squeezed(m) == JoinedSoFar(m)
  {
    if m != "" {
      SqueezedIsJoined(m[..|m| - 1]);
      OneMoreJoined(m);
    }
  }

  lemma {:induction false} OneMoreJoined(m: string)
    requires m != "" && Squeezed(m[..|m| - 1]) == JoinedSoFar(m[..|m| - 1])
    ensures Squeezed(m) == JoinedSoFar(m)
  {
    var init := m[..|m| - 1];
    if LastOf(m) == '-' {
      DashJoined(m);
    } else if init == "" || LastOf(init) == '-' {
      NewWordJoined(m);
    } else {
      JoinedLonger(Words(init), LastOf(m));
      assert JoinedSoFar(init) == Joined(Words(init)) by { assert Joined(Words(init)) + "" == Joined(Words(init)); }
      assert JoinedSoFar(m) == Joined(Words(m)) by { assert Joined(Words(m)) + "" == Joined(Words(m)); }
    }
  }

  lemma {:induction false} DashJoined(m: string)
    requires m != "" && LastOf(m) == '-' && Squeezed(m[..|m| - 1]) == JoinedSoFar(m[..|m| - 1])
    ensures Squeezed(m) == JoinedSoFar(m)
  {
  }

  lemma {:induction false} NewWordJoined(m: string)
    requires m != "" && LastOf(m) != '-' && Squeezed(m[..|m| - 1]) == JoinedSoFar(m[..|m| - 1])
    requires m[..|m| - 1] == "" || LastOf(m[..|m| - 1]) == '-'
    ensures Squeezed(m) == JoinedSoFar(m)
  {
  }

  lemma {:induction false} JoinedEndsPlain(w: seq<string>)
    requires forall i :: 0 <= i < |w| ==> w[i] != "" && '-' !in w[i]
    ensures !EndsWithDash(Joined(w)) && (w != [] ==> Joined(w) != "")
  {
  }

  lemma {:induction false} SqueezedHasSingleDashes(m: string)
    requires forall i :: 0 <= i < |m| ==> IsNameChar(m[i])
    ensures SingleDashes(Squeezed(m)) && forall i :: 0 <= i < |Squeezed(m)| ==> IsNameChar(Squeezed(m)[i])
  {
    if m != "" { SqueezedHasSingleDashes(m[..|m| - 1]); }
  }

  lemma {:induction false} JoinedIsTrimmed(m: string)
    ensures var s := Squeezed(m); Joined(Words(m)) == if EndsWithDash(s) then s[..|s| - 1] else s
  {
    SqueezedIsJoined(m);
    JoinedEndsPlain(Words(m));
    var j := Joined(Words(m));
    assert (j + "-")[..|j|] == j && j + "" == j;
  }

  /** One character more. */
  function SqueezedWith(s: string, ch: char): string {
    if IsAlphanumeric(ch) then s + [ToLower(ch)]
    else if (ch == ' ' || ch == '-') && s != "" && LastOf(s) != '-' then s + "-"
    else s
  }

  lemma {:induction false} OneMoreChar(chars: string, k: nat)
    requires k < |chars|
    ensures Squeezed(Mapped(chars[..k + 1])) == SqueezedWith(Squeezed(Mapped(chars[..k])), chars[k])
  {
    assert chars[..k + 1][..k] == chars[..k];
    var m, more := Mapped(chars[..k]), MapChar(chars[k]);
    if more != "" {
      assert (m + more)[..|m|] == m;
    } else {
      assert m + "" == m;
    }
  }

  /** One dash between words, none in front: character by character. */
  method Squeeze(chars: string) returns (slug: string)
    ensures slug == Squeezed(Mapped(chars))
  {
    slug := "";
    var lastWasDash := true;
    for k := 0 to |chars|
      invariant slug == Squeezed(Mapped(chars[..k]))
      invariant lastWasDash == (slug == "" || LastOf(slug) == '-')
    {
      var ch := chars[k];
      OneMoreChar(chars, k);
      var c;
      if IsAlphanumeric(ch) {
        c := ToLower(ch);
      } else if ch == ' ' || ch == '-' {
        c := '-';
      } else {
        continue;
      }
      if c == '-' {
        if lastWasDash {
          continue;
        }
        lastWasDash := true;
      } else {
        lastWasDash := false;
      }
      slug := slug + [c];
    }
    assert chars[..|chars|] == chars;
  }

  method SlugifySkillName(input: string) returns (r: Option<string>)
    ensures r == Slugified(input)
  {
    var slug := Squeeze(Replaced(input));
    JoinedIsTrimmed(Mapped(Replaced(input)));
    if EndsWithDash(slug) {
      slug := slug[..|slug| - 1];
    }
    if |slug| > MAX_SKILL_NAME_LEN {
      ghost var whole := slug;
      slug := slug[..MAX_SKILL_NAME_LEN];
      while EndsWithDash(slug)
        invariant TrimDashes(slug) == Cut(whole)
        decreases |slug|
      {
        slug := slug[..|slug| - 1];
      }
    }
    r := if slug == "" then None else Some(slug);
  }

  // ---------- what slugs are ----------

  /** Name characters only, no dash at an edge, no two dashes in a row. */
  predicate WellFormed(s: string) {
    SingleDashes(s) && !EndsWithDash(s) && forall i :: 0 <= i < |s| ==> IsNameChar(s[i])
  }

  lemma {:induction false} TrimmedIsWellFormed(s: string)
    requires SingleDashes(s) && forall i :: 0 <= i < |s| ==> IsNameChar(s[i])
    ensures var t := if EndsWithDash(s) then s[..|s| - 1] else s; WellFormed(t) && (t == "" <==> s == "")
  {
  }

  lemma {:induction false} CutIsWellFormed(s: string)
    requires WellFormed(s)
    ensures WellFormed(Cut(s)) && |Cut(s)| <= MAX_SKILL_NAME_LEN && (Cut(s) == "" <==> s == "")
  {
  }

  lemma {:induction false} JoinedIsWellFormed(m: string)
    requires forall i :: 0 <= i < |m| ==> IsNameChar(m[i])
    ensures WellFormed(Joined(Words(m))) && (Joined(Words(m)) == "" <==> Squeezed(m) == "")
  {
    JoinedIsTrimmed(m);
    SqueezedHasSingleDashes(m);
    TrimmedIsWellFormed(Squeezed(m));
  }

  lemma {:induction false} SlugIsCut(input: string)
    ensures WellFormed(Uncut(input))
    ensures Slugified(input) == if Uncut(input) == "" then None else Some(Cut(Uncut(input)))
  {
    JoinedIsWellFormed(Mapped(Replaced(input)));
    CutIsWellFormed(Uncut(input));
  }

  /** A slug is always a valid name, even when the cut lands on a dash, and has no double dashes. */
  lemma {:induction false} SlugIsValid(input: string)
    requires Slugified(input).Some?
    ensures ValidateName(Slugified(input).value) == None && SingleDashes(Slugified(input).value)
    ensures 1 <= |Slugified(input).value| <= 64
  {
    SlugIsCut(input);
    CutIsValid(Uncut(input));
    ValidExactlyWhen(Slugified(input).value);
  }

  /** Words of up to 64 characters together are kept whole; otherwise at least one character less is kept, and only dashes are lost to the cut. */
  lemma {:induction false} OnlyTheEndIsCut(input: string)
    requires Slugified(input).Some?
    ensures var slug, whole := Slugified(input).value, Uncut(input);
            && slug <= whole && (|whole| <= 64 ==> slug == whole)
            && (|whole| > 64 ==> forall i :: |slug| <= i < 64 ==> whole[i] == '-')
  {
    if |Uncut(input)| > 64 { TrimmedWereDashes(Uncut(input)[..64]); }
  }

  lemma {:induction false} TrimmedWereDashes(s: string)
    ensures forall i :: |TrimDashes(s)| <= i < |s| ==> s[i] == '-'
  {
    if EndsWithDash(s) {
      TrimmedWereDashes(s[..|s| - 1]);
    }
  }

  lemma {:induction false} CutIsValid(t: string)
    requires WellFormed(t) && t != ""
    ensures ValidateName(Cut(t)) == None && SingleDashes(Cut(t))
  {
    CutIsWellFormed(t);
    NamesAreAscii(Cut(t));
  }

  /** There is a slug exactly when the input has an ASCII letter or digit, or an ampersand. */
  lemma {:induction false} SlugExistsExactlyWhen(input: string)
    ensures Slugified(input).Some? <==> exists i :: 0 <= i < |input| && (IsAlphanumeric(input[i]) || input[i] == '&')
  {
    assert forall i :: 0 <= i < |input| ==> (IsKept(input[i]) <==> IsAlphanumeric(input[i]) || input[i] == '&');
    SlugIsCut(input);
    JoinedIsWellFormed(Mapped(Replaced(input)));
    SqueezedIsEmptyExactlyWhen(Mapped(Replaced(input)));
    MappedKeeps(Replaced(input));
    ReplacedKeeps(input);
  }

  predicate HasWord(s: string) {
    exists i :: 0 <= i < |s| && IsAlphanumeric(s[i])
  }

  lemma {:induction false} SqueezedIsEmptyExactlyWhen(m: string)
    requires forall i :: 0 <= i < |m| ==> IsNameChar(m[i])
    ensures Squeezed(m) != "" <==> HasWord(m)
  {
    if m != "" {
      var init := m[..|m| - 1];
      SqueezedIsEmptyExactlyWhen(init);
      HasWordConcat(init, [LastOf(m)]);
      assert init + [LastOf(m)] == m;
      assert HasWord([LastOf(m)]) <==> IsAlphanumeric([LastOf(m)][0]);
    }
  }

  lemma {:induction false} HasWordConcat(a: string, b: string)
    ensures HasWord(a + b) <==> HasWord(a) || HasWord(b)
  {
    if i :| 0 <= i < |a| && IsAlphanumeric(a[i]) { assert IsAlphanumeric((a + b)[i]); }
    if i :| 0 <= i < |b| && IsAlphanumeric(b[i]) { assert IsAlphanumeric((a + b)[|a| + i]); }
    if i :| 0 <= i < |a + b| && IsAlphanumeric((a + b)[i]) {
      assert if i < |a| then IsAlphanumeric(a[i]) else IsAlphanumeric(b[i - |a|]);
    }
  }

  lemma {:induction false} MappedKeeps(s: string)
    ensures HasWord(Mapped(s)) <==> HasWord(s)
  {
    if s != "" {
      var init, c := s[..|s| - 1], LastOf(s);
      MappedKeeps(init);
      HasWordConcat(Mapped(init), MapChar(c));
      HasWordConcat(init, [c]);
      assert init + [c] == s;
      assert HasWord([c]) <==> IsAlphanumeric([c][0]);
      assert HasWord(MapChar(c)) <==> IsAlphanumeric(c) by {
        if IsAlphanumeric(c) { assert IsAlphanumeric(MapChar(c)[0]); }
      }
    }
  }

  predicate IsKept(c: char) {
    IsAlphanumeric(c) || c == '&'
  }

  lemma {:induction false} ReplacedKeeps(s: string)
    ensures HasWord(Replaced(s)) <==> exists i :: 0 <= i < |s| && IsKept(s[i])
  {
    if s != "" {
      var init, c := s[..|s| - 1], LastOf(s);
      ReplacedKeeps(init);
      HasWordConcat(Replaced(init), if c == '&' then "-and-" else [c]);
      PartKeeps(c);
      if i :| 0 <= i < |init| && IsKept(init[i]) { assert IsKept(s[i]); }
      if i :| 0 <= i < |s| && IsKept(s[i]) { assert i < |init| ==> IsKept(init[i]); }
    }
  }

  lemma {:induction false} PartKeeps(c: char)
    ensures HasWord(if c == '&' then "-and-" else [c]) <==> IsKept(c)
  {
    assert "-and-"[1] == 'a';
    assert [c][0] == c;
  }

  /** A string is its own slug exactly when it is a valid name without double dashes. */
  lemma {:induction false} FixedExactlyWhen(s: string)
    ensures Slugified(s) == Some(s) <==> ValidateName(s) == None && SingleDashes(s)
  {
    if Slugified(s) == Some(s) {
      SlugIsValid(s);
    }
    if ValidateName(s) == None && SingleDashes(s) {
      ValidIsFixed(s);
    }
  }

  lemma {:induction false} ValidIsFixed(s: string)
    requires ValidateName(s) == None && SingleDashes(s)
    ensures Slugified(s) == Some(s)
  {
    SlugIsCut(s);
    NamesAreAscii(s);
    NothingToReplace(s);
    NothingToSqueeze(s);
    JoinedIsTrimmed(s);
  }

  lemma {:induction false} NothingToReplace(s: string)
    requires forall i :: 0 <= i < |s| ==> IsNameChar(s[i])
    ensures Replaced(s) == s && Mapped(s) == s
  {
    if s != "" {
      NothingToReplace(s[..|s| - 1]);
      assert s[..|s| - 1] + [LastOf(s)] == s;
    }
  }

  lemma {:induction false} NothingToSqueeze(s: string)
    requires SingleDashes(s)
    ensures Squeezed(s) == s
  {
    if s != "" {
      NothingToSqueeze(s[..|s| - 1]);
      assert s[..|s| - 1] + [LastOf(s)] == s;
    }
  }

  /** Slugifying a slug changes nothing. */
  lemma {:induction false} SlugifyIsIdempotent(input: string)
    requires Slugified(input).Some?
    ensures Slugified(Slugified(input).value) == Slugified(input)
  {
    SlugIsValid(input);
    FixedExactlyWhen(Slugified(input).value);
  }
}
