/** Lines, numbers and searches in text, as the scripts use them. */
module TextLines {
  import opened Prelude

  // ---------- lines ----------

  function Join(pieces: seq<string>, separator: string): string {
    if pieces == [] then ""
    else if |pieces| == 1 then pieces[0]
    else Join(pieces[..|pieces| - 1], separator) + separator + pieces[|pieces| - 1]
  }

  /** One more character: a newline starts a new line, any other joins the last one. */
  function AddChar(lines: seq<string>, c: char): (r: seq<string>)
    requires |lines| > 0
    ensures |r| > 0
  {
    if c == '\n' then lines + [""] else lines[|lines| - 1 := lines[|lines| - 1] + [c]]
  }

  /** The pieces between newlines; there is always at least one. */
  function Lines(s: string): (r: seq<string>)
    ensures |r| > 0
  {
    if s == "" then [""] else AddChar(Lines(s[..|s| - 1]), s[|s| - 1])
  }

  lemma {:induction false} OneLine(s: string)
    requires '\n' !in s
    ensures Lines(s) == [s]
  {
    if s != "" {
      OneLine(s[..|s| - 1]);
      assert s[..|s| - 1] + [s[|s| - 1]] == s;
    }
  }

  lemma {:induction false} AddCharAtEnd(a: seq<string>, b: seq<string>, c: char)
    requires |b| > 0
    ensures AddChar(a + b, c) == a + AddChar(b, c)
  {
  }

  /** Lines are independent of what comes before them. */
  lemma {:induction false} LinesConcat(a: string, b: string)
    ensures Lines(a + "\n" + b) == Lines(a) + Lines(b)
  {
    var all := a + "\n" + b;
    if b == "" {
      assert all[..|all| - 1] == a && all[|all| - 1] == '\n';
    } else {
      LinesConcat(a, b[..|b| - 1]);
      assert all[..|all| - 1] == a + "\n" + b[..|b| - 1] && all[|all| - 1] == b[|b| - 1];
      AddCharAtEnd(Lines(a), Lines(b[..|b| - 1]), b[|b| - 1]);
    }
  }

  lemma {:induction false} LinesOfJoin(pieces: seq<string>)
    requires pieces != [] && forall i :: 0 <= i < |pieces| ==> '\n' !in pieces[i]
    ensures Lines(Join(pieces, "\n")) == pieces
  {
    var last := pieces[|pieces| - 1];
    OneLine(last);
    if |pieces| > 1 {
      LinesOfJoin(pieces[..|pieces| - 1]);
      LinesConcat(Join(pieces[..|pieces| - 1], "\n"), pieces[|pieces| - 1]);
    }
  }

  /** Text on a line before a first line joins it; the other lines stay. */
  lemma {:induction false} LinesAfterPrefix(p: string, s: string)
    requires '\n' !in p
    ensures Lines(p + s) == [p + Lines(s)[0]] + Lines(s)[1..]
  {
    if s == "" {
      assert p + s == p;
      OneLine(p);
    } else {
      var init, c := s[..|s| - 1], s[|s| - 1];
      LinesAfterPrefix(p, init);
      assert (p + s)[..|p + s| - 1] == p + init && (p + s)[|p + s| - 1] == c;
      var lines := Lines(init);
      assert p + (lines[0] + [c]) == p + lines[0] + [c];
      assert AddChar([p + lines[0]] + lines[1..], c) == [p + AddChar(lines, c)[0]] + AddChar(lines, c)[1..];
    }
  }

  // ---------- numbers ----------

  predicate IsDigit(c: char) {
    '0' <= c <= '9'
  }

  predicate AllDigits(s: string) {
    forall i :: 0 <= i < |s| ==> IsDigit(s[i])
  }

  function Decimal(n: nat): (s: string)
    ensures s != "" && AllDigits(s)
  {
    if n < 10 then ['0' + n as char] else Decimal(n / 10) + ['0' + (n % 10) as char]
  }

  function ValueOf(s: string): nat
    requires AllDigits(s)
  {
    if s == "" then 0 else ValueOf(s[..|s| - 1]) * 10 + (s[|s| - 1] - '0') as nat
  }

  function ParseNumber(s: string): Option<nat> {
    if s != "" && AllDigits(s) then Some(ValueOf(s)) else None
  }

  /** Printing a number and reading it back. */
  lemma {:induction false} DecimalReadsBack(n: nat)
    ensures ParseNumber(Decimal(n)) == Some(n)
  {
    if n < 10 {
      var d := Decimal(n);
      assert d[..|d| - 1] == "" && ValueOf(d) == ValueOf(d[..|d| - 1]) * 10 + (d[0] - '0') as nat;
    } else {
      DecimalReadsBack(n / 10);
      assert Decimal(n)[..|Decimal(n)| - 1] == Decimal(n / 10);
    }
  }

  /** The digits that a text starts with. */
  function LeadingDigits(s: string): (d: string)
    ensures d <= s && AllDigits(d)
  {
    if s == "" || !IsDigit(s[0]) then "" else [s[0]] + LeadingDigits(s[1..])
  }

  lemma {:induction false} LeadingDigitsOf(d: string, rest: string)
    requires AllDigits(d) && (rest == "" || !IsDigit(rest[0]))
    ensures LeadingDigits(d + rest) == d
  {
    if d == "" {
      assert d + rest == rest;
    } else {
      assert (d + rest)[1..] == d[1..] + rest;
      LeadingDigitsOf(d[1..], rest);
    }
  }

  // ---------- searching ----------

  predicate OccursAt(s: string, p: string, i: nat) {
    i + |p| <= |s| && s[i..i + |p|] == p
  }

  /** The first place where `p` occurs. */
  function Find(s: string, p: string): (r: Option<nat>)
    ensures r.Some? ==> OccursAt(s, p, r.value) && forall i :: 0 <= i < r.value ==> !OccursAt(s, p, i)
    ensures r.None? ==> forall i: nat :: !OccursAt(s, p, i)
  {
    FindFrom(s, p, 0)
  }

  function FindFrom(s: string, p: string, from: nat): (r: Option<nat>)
    ensures r.Some? ==> from <= r.value && OccursAt(s, p, r.value) && forall i :: from <= i < r.value ==> !OccursAt(s, p, i)
    ensures r.None? ==> forall i: nat :: from <= i ==> !OccursAt(s, p, i)
    decreases |s| - from
  {
    if from > |s| then None else if OccursAt(s, p, from) then Some(from) else FindFrom(s, p, from + 1)
  }

  predicate Occurs(s: string, p: string) {
    Find(s, p).Some?
  }

  lemma {:induction false} OccursStarts(s: string, p: string, i: nat)
    requires p != ""
    ensures OccursAt(s, p, i) ==> i < |s| && s[i] == p[0]
  {
  }

  lemma {:induction false} OccursLater(head: string, s: string, p: string, i: nat)
    ensures OccursAt(head + s, p, |head| + i) <==> OccursAt(s, p, i)
  {
  }

  /** A head without the first character does not change what is found. */
  lemma {:induction false} FindPast(head: string, s: string, p: string)
    requires p != "" && Find(s, p).Some? && forall i :: 0 <= i < |head| ==> head[i] != p[0]
    ensures Find(head + s, p) == Some(|head| + Find(s, p).value)
  {
    var at := Find(s, p).value;
    forall j | 0 <= j < |head| + at ensures !OccursAt(head + s, p, j) {
      if j < |head| {
        OccursStarts(head + s, p, j);
      } else {
        OccursLater(head, s, p, j - |head|);
      }
    }
    OccursLater(head, s, p, at);
    FindIs(head + s, p, |head| + at);
  }

  lemma {:induction false} FindExtends(s: string, t: string, p: string)
    requires Find(s, p).Some?
    ensures Find(s + t, p) == Find(s, p)
  {
    var at := Find(s, p).value;
    forall j | 0 <= j < at ensures !OccursAt(s + t, p, j) {
      assert !OccursAt(s, p, j) && j + |p| <= |s|;
      assert (s + t)[j..j + |p|] == s[j..j + |p|];
    }
    assert (s + t)[at..at + |p|] == s[at..at + |p|];
    FindIs(s + t, p, at);
  }

  lemma {:induction false} NotWithout(s: string, p: string)
    requires p != "" && p[0] !in s
    ensures Find(s, p).None?
  {
  }

  lemma {:induction false} FindIs(s: string, p: string, i: nat)
    requires OccursAt(s, p, i) && forall j :: 0 <= j < i ==> !OccursAt(s, p, j)
    ensures Find(s, p) == Some(i)
  {
  }

  function UpTo(s: string, p: string): (r: string)
    ensures r <= s
  {
    var i := Find(s, p);
    if i.None? then s else s[..i.value]
  }

  /** The second piece when splitting at `p`. */
  function SecondPiece(s: string, p: string): Option<string> {
    var i := Find(s, p);
    if i.None? then None else Some(UpTo(s[i.value + |p|..], p))
  }

  lemma {:induction false} SecondPiecePast(head: string, s: string, p: string)
    requires p != "" && Find(s, p).Some? && forall i :: 0 <= i < |head| ==> head[i] != p[0]
    ensures SecondPiece(head + s, p) == SecondPiece(s, p)
  {
    FindPast(head, s, p);
    var from := Find(s, p).value + |p|;
    assert (head + s)[|head| + from..] == s[from..];
  }

  lemma {:induction false} SecondPieceAtEnd(head: string, s: string, p: string, last: string)
    requires p != "" && (forall i :: 0 <= i < |head| ==> head[i] != p[0])
    requires Find(s, p).Some? && s[Find(s, p).value..] == p + last && Find(last, p).None?
    ensures SecondPiece(head + s, p) == Some(last) && Occurs(head + s, p)
  {
    var at := Find(s, p).value;
    FindPast(head, s, p);
    assert (head + s)[|head| + at + |p|..] == s[at..][|p|..] == last;
  }

  lemma {:induction false} SecondPieceStarts(head: string, p: string, kept: string, rest: string)
    requires p != "" && (forall i :: 0 <= i < |head| ==> head[i] != p[0]) && p[0] !in kept
    ensures var piece := SecondPiece(head + (p + (kept + rest)), p);
            piece.Some? && kept <= piece.value
  {
    var tail := p + (kept + rest);
    assert tail[0..|p|] == p;
    FindIs(tail, p, 0);
    SecondPiecePast(head, tail, p);
    assert tail[|p|..] == kept + rest;
    KeptStays(kept, rest, p);
  }

  lemma {:induction false} KeptStays(kept: string, rest: string, p: string)
    requires p != "" && p[0] !in kept
    ensures kept <= UpTo(kept + rest, p)
  {
  }

  /** Without all occurrences of `p`, taken from the left. */
  function RemoveAll(s: string, p: string): string
    requires p != ""
    decreases |s|
  {
    var i := Find(s, p);
    if i.None? then s else s[..i.value] + RemoveAll(s[i.value + |p|..], p)
  }

  /** A prefix that occurs once is all that is removed. */
  lemma {:induction false} RemovesPrefix(p: string, s: string)
    requires p != "" && Find(s, p).None?
    ensures RemoveAll(p + s, p) == s
  {
    assert (p + s)[0..|p|] == p && (p + s)[|p|..] == s;
    FindIs(p + s, p, 0);
    assert (p + s)[..0] == "" && "" + s == s;
  }

  // ---------- white space ----------

  /** What Python's string methods treat as white space. */
  predicate IsSpace(c: char) {
    || '\U{0009}' <= c <= '\U{000D}' || '\U{001C}' <= c <= ' ' || c == '\U{0085}' || c == '\U{00A0}' || c == '\U{1680}'
    || '\U{2000}' <= c <= '\U{200A}' || c == '\U{2028}' || c == '\U{2029}' || c == '\U{202F}' || c == '\U{205F}'
    || c == '\U{3000}'
  }

  function StripLeft(s: string): string {
    if s != "" && IsSpace(s[0]) then StripLeft(s[1..]) else s
  }

  function StripRight(s: string): string {
    if s != "" && IsSpace(s[|s| - 1]) then StripRight(s[..|s| - 1]) else s
  }

  function Strip(s: string): string {
    StripRight(StripLeft(s))
  }

  /** White space around a text does not matter, and what is left has none at its ends. */
  lemma {:induction false} StripDropsSpace(c: char, s: string)
    requires c == ' ' || c == '\t' || c == '\n' || c == '\r' || c == '\U{00A0}' || c == '\U{3000}'
    ensures Strip([c] + s) == Strip(s) == Strip(s + [c])
    ensures Strip(s) != "" ==> !IsSpace(Strip(s)[0]) && !IsSpace(Strip(s)[|Strip(s)| - 1])
  {
    assert ([c] + s)[1..] == s;
    StripLeftMore(s, c);
    StripLeftEnds(s);
    StripRightEnds(StripLeft(s));
    var t := StripLeft(s);
    assert (t + [c])[..|t|] == t;
  }

  lemma {:induction false} StripLeftMore(s: string, c: char)
    requires IsSpace(c)
    ensures StripLeft(s + [c]) == if StripLeft(s) == "" then "" else StripLeft(s) + [c]
  {
    if s == "" {
      assert s + [c] == [c] && [c][1..] == "";
    } else {
      assert (s + [c])[1..] == s[1..] + [c];
      if IsSpace(s[0]) { StripLeftMore(s[1..], c); }
    }
  }

  lemma {:induction false} StripLeftEnds(s: string)
    ensures StripLeft(s) != "" ==> !IsSpace(StripLeft(s)[0])
  {
    if s != "" && IsSpace(s[0]) { StripLeftEnds(s[1..]); }
  }

  lemma {:induction false} StripRightEnds(s: string)
    ensures StripRight(s) <= s
    ensures StripRight(s) != "" ==> !IsSpace(StripRight(s)[|StripRight(s)| - 1])
  {
    if s != "" && IsSpace(s[|s| - 1]) { StripRightEnds(s[..|s| - 1]); }
  }

  function TokenLength(s: string): (n: nat)
    ensures n <= |s|
  {
    if s == "" || IsSpace(s[0]) then 0 else 1 + TokenLength(s[1..])
  }

  /** The first run of characters that are not white space. */
  function FirstToken(s: string): Option<string> {
    var t := StripLeft(s);
    if t == "" then None else Some(t[..TokenLength(t)])
  }

  lemma {:induction false} TokenEnds(w: string, rest: string)
    requires (forall i :: 0 <= i < |w| ==> !IsSpace(w[i])) && (rest == "" || IsSpace(rest[0]))
    ensures TokenLength(w + rest) == |w|
  {
    if w == "" {
      assert w + rest == rest;
    } else {
      assert (w + rest)[1..] == w[1..] + rest;
      TokenEnds(w[1..], rest);
    }
  }

  /** Digits before a space or the end are one token. */
  lemma {:induction false} DigitsAreAToken(d: string, rest: string)
    requires d != "" && AllDigits(d) && (rest == "" || IsSpace(rest[0]))
    ensures FirstToken(d + rest) == Some(d) && FirstToken(" " + (d + rest)) == Some(d)
  {
    TokenEnds(d, rest);
    assert (d + rest)[0] == d[0];
    assert (" " + (d + rest))[1..] == d + rest;
    assert (d + rest)[..|d|] == d;
  }

  // ---------- sorting ----------

  function InsertDesc<T>(x: T, xs: seq<T>, key: T -> nat): seq<T> {
    if xs == [] || key(x) >= key(xs[0]) then [x] + xs else [xs[0]] + InsertDesc(x, xs[1..], key)
  }

  /** A stable sort, greatest key first. */
  function SortDesc<T>(xs: seq<T>, key: T -> nat): seq<T> {
    if xs == [] then [] else InsertDesc(xs[0], SortDesc(xs[1..], key), key)
  }

  predicate Descending<T>(xs: seq<T>, key: T -> nat) {
    forall i, j :: 0 <= i < j < |xs| ==> key(xs[i]) >= key(xs[j])
  }

  lemma {:induction false} InsertDescKeeps<T>(x: T, xs: seq<T>, key: T -> nat)
    requires Descending(xs, key)
    ensures Descending(InsertDesc(x, xs, key), key)
  {
    if xs != [] && key(x) < key(xs[0]) {
      InsertDescKeeps(x, xs[1..], key);
      InsertDescMembers(x, xs[1..], key);
      var rest := InsertDesc(x, xs[1..], key);
      forall j | 0 <= j < |rest| ensures key(xs[0]) >= key(rest[j]) {
        assert rest[j] in multiset(rest);
        assert rest[j] in multiset(xs[1..]) || rest[j] == x;
      }
    }
  }

  lemma {:induction false} InsertDescMembers<T>(x: T, xs: seq<T>, key: T -> nat)
    ensures multiset(InsertDesc(x, xs, key)) == multiset(xs) + multiset{x}
  {
    if xs == [] || key(x) >= key(xs[0]) {
      assert multiset([x] + xs) == multiset{x} + multiset(xs);
    } else {
      InsertDescMembers(x, xs[1..], key);
      assert xs == [xs[0]] + xs[1..];
      assert multiset([xs[0]] + InsertDesc(x, xs[1..], key)) == multiset{xs[0]} + multiset(InsertDesc(x, xs[1..], key));
    }
  }

  lemma {:induction false} SortDescIsRight<T>(xs: seq<T>, key: T -> nat)
    ensures Descending(SortDesc(xs, key), key) && multiset(SortDesc(xs, key)) == multiset(xs)
    ensures |SortDesc(xs, key)| == |xs| && forall x :: x in SortDesc(xs, key) <==> x in xs
  {
    if xs == [] {
    } else {
      SortDescIsRight(xs[1..], key);
      InsertDescKeeps(xs[0], SortDesc(xs[1..], key), key);
      InsertDescMembers(xs[0], SortDesc(xs[1..], key), key);
      assert xs == [xs[0]] + xs[1..];
    }
    var s := SortDesc(xs, key);
    assert |s| == |multiset(s)| && |xs| == |multiset(xs)|;
    assert forall x :: x in s <==> x in multiset(s);
    assert forall x :: x in xs <==> x in multiset(xs);
  }

  /** The elements with this key, in order. */
  function WithKey<T>(xs: seq<T>, key: T -> nat, k: nat): seq<T> {
    if xs == [] then [] else (if key(xs[0]) == k then [xs[0]] else []) + WithKey(xs[1..], key, k)
  }

  lemma {:induction false} InsertKeepsTies<T>(x: T, xs: seq<T>, key: T -> nat, k: nat)
    requires Descending(xs, key)
    ensures WithKey(InsertDesc(x, xs, key), key, k) == (if key(x) == k then [x] else []) + WithKey(xs, key, k)
  {
    if xs != [] && key(x) < key(xs[0]) {
      InsertKeepsTies(x, xs[1..], key, k);
    }
  }

  /** Sorting leaves elements with the same key in their order. */
  lemma {:induction false} SortKeepsTies<T>(xs: seq<T>, key: T -> nat, k: nat)
    ensures WithKey(SortDesc(xs, key), key, k) == WithKey(xs, key, k)
  {
    if xs != [] {
      SortKeepsTies(xs[1..], key, k);
      SortDescIsRight(xs[1..], key);
      InsertKeepsTies(xs[0], SortDesc(xs[1..], key), key, k);
    }
  }

  lemma {:induction false} SortedMember<T>(xs: seq<T>, key: T -> nat, y: T)
    ensures y in SortDesc(xs, key) <==> y in xs
  {
    SortDescIsRight(xs, key);
  }

  lemma {:induction false} SameKeysSameSort<T>(xs: seq<T>, key: T -> nat, other: T -> nat)
    requires forall x :: x in xs ==> key(x) == other(x)
    ensures SortDesc(xs, key) == SortDesc(xs, other)
  {
    if xs != [] {
      SameKeysSameSort(xs[1..], key, other);
      SortDescIsRight(xs[1..], key);
      forall y | y in SortDesc(xs[1..], key) ensures key(y) == other(y) {
        SortedMember(xs[1..], key, y);
        assert y in xs;
      }
      SameKeysSameInsert(xs[0], SortDesc(xs[1..], key), key, other);
    }
  }

  lemma {:induction false} SameKeysSameInsert<T>(x: T, xs: seq<T>, key: T -> nat, other: T -> nat)
    requires key(x) == other(x) && forall y :: y in xs ==> key(y) == other(y)
    ensures InsertDesc(x, xs, key) == InsertDesc(x, xs, other)
  {
    if xs != [] { SameKeysSameInsert(x, xs[1..], key, other); }
  }

  predicate NoDuplicates<T(==)>(xs: seq<T>) {
    forall i, j :: 0 <= i < j < |xs| ==> xs[i] != xs[j]
  }

  lemma {:induction false} AtMostOnce<T>(xs: seq<T>, x: T)
    requires NoDuplicates(xs)
    ensures multiset(xs)[x] <= 1
  {
    if xs != [] {
      AtMostOnce(xs[1..], x);
      assert xs == [xs[0]] + xs[1..];
      if x == xs[0] { assert x !in xs[1..]; }
    }
  }

  lemma {:induction false} PermutationKeepsNoDuplicates<T>(xs: seq<T>, ys: seq<T>)
    requires multiset(xs) == multiset(ys) && NoDuplicates(xs)
    ensures NoDuplicates(ys)
  {
    forall i, j | 0 <= i < j < |ys| ensures ys[i] != ys[j] {
      AtMostOnce(xs, ys[i]);
      assert ys == ys[..i] + [ys[i]] + ys[i + 1..];
      assert ys[j] == ys[i + 1..][j - i - 1];
    }
  }
}
