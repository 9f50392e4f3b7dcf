/**
 Which parts of a diffed buffer are shown: the hunks' ranges and the revealed ranges, sorted and
 merged.
 */
module RangeMerge {

  /** A text position, ordered by row, then column. */
  datatype Point = Point(row: nat, column: nat)

  datatype Range = Range(start: Point, end: Point)

  predicate Le(p: Point, q: Point) {
    p.row < q.row || (p.row == q.row && p.column <= q.column)
  }

  predicate Lt(p: Point, q: Point) {
    !Le(q, p)
  }

  function Max(p: Point, q: Point): Point {
    if Le(p, q) then q else p
  }

  /** Ranges are half open; their ends matter too, and are counted when `closed`. */
  predicate Holds(r: Range, p: Point, closed: bool) {
    Le(r.start, p) && if closed then Le(p, r.end) else Lt(p, r.end)
  }

  predicate Held(rs: seq<Range>, p: Point, closed: bool) {
    exists i :: 0 <= i < |rs| && Holds(rs[i], p, closed)
  }

  predicate Covered(rs: seq<Range>, p: Point) {
    Held(rs, p, false)
  }

  predicate Touched(rs: seq<Range>, p: Point) {
    Held(rs, p, true)
  }

  predicate Contains(outer: Range, inner: Range) {
    Le(outer.start, inner.start) && Le(inner.end, outer.end)
  }

  /** A range over several rows holds all of the rows between, and its first and last up to its columns. */
  lemma {:induction false} RowsComeFirst(r: Range, p: Point)
    ensures r.start.row < p.row < r.end.row ==> Covered([r], p) && Touched([r], p)
    ensures p.row == r.start.row < r.end.row ==> (Covered([r], p) <==> r.start.column <= p.column)
    ensures r.start.row < r.end.row == p.row ==>
              (Covered([r], p) <==> p.column < r.end.column) && (Touched([r], p) <==> p.column <= r.end.column)
    ensures p.row < r.start.row || p.row > r.end.row ==> !Touched([r], p)
  {
    assert Covered([r], p) <==> Holds([r][0], p, false);
    assert Touched([r], p) <==> Holds([r][0], p, true);
  }

  // ---------- sorting ----------

  /** By start, the longer range first. */
  predicate Before(a: Range, b: Range) {
    Lt(a.start, b.start) || (a.start == b.start && Le(b.end, a.end))
  }

  predicate Ordered(rs: seq<Range>) {
    forall i, j :: 0 <= i < j < |rs| ==> Before(rs[i], rs[j])
  }

  function Insert(r: Range, rs: seq<Range>): seq<Range> {
    if rs == [] || Before(r, rs[0]) then [r] + rs else [rs[0]] + Insert(r, rs[1..])
  }

  function Sorted(rs: seq<Range>): seq<Range> {
    if rs == [] then [] else Insert(rs[0], Sorted(rs[1..]))
  }

  lemma {:induction false} InsertKeepsOrder(r: Range, rs: seq<Range>)
    requires Ordered(rs)
    ensures Ordered(Insert(r, rs)) && multiset(Insert(r, rs)) == multiset(rs) + multiset{r}
  {
    if rs == [] || Before(r, rs[0]) {
      assert [r] + rs == Insert(r, rs);
    } else {
      InsertKeepsOrder(r, rs[1..]);
      var rest := Insert(r, rs[1..]);
      assert rs == [rs[0]] + rs[1..];
      assert multiset([rs[0]] + rest) == multiset{rs[0]} + multiset(rest);
      forall j | 0 <= j < |rest| ensures Before(rs[0], rest[j]) {
        assert rest[j] in multiset(rest);
        assert rest[j] in multiset(rs[1..]) || rest[j] == r;
      }
    }
  }

  lemma {:induction false} SortedIsOrdered(rs: seq<Range>)
    ensures Ordered(Sorted(rs)) && multiset(Sorted(rs)) == multiset(rs)
  {
    if rs != [] {
      SortedIsOrdered(rs[1..]);
      InsertKeepsOrder(rs[0], Sorted(rs[1..]));
      assert rs == [rs[0]] + rs[1..];
    }
  }

  /** The order is total on ranges, so a multiset has one ordered list. */
  lemma {:induction false} OrderIsUnique(a: seq<Range>, b: seq<Range>)
    requires Ordered(a) && Ordered(b) && multiset(a) == multiset(b)
    ensures a == b
  {
    assert |a| == |multiset(a)| && |b| == |multiset(b)|;
    if a != [] {
      FirstIsUnique(a, b);
      WithoutFirst(a);
      WithoutFirst(b);
      OrderIsUnique(a[1..], b[1..]);
      assert a == [a[0]] + a[1..] && b == [b[0]] + b[1..];
    }
  }

  lemma {:induction false} FirstIsUnique(a: seq<Range>, b: seq<Range>)
    requires a != [] && b != [] && Ordered(a) && Ordered(b) && multiset(a) == multiset(b)
    ensures a[0] == b[0]
  {
    assert a[0] in multiset(b) && b[0] in multiset(a);
    var i :| 0 <= i < |b| && b[i] == a[0];
    var j :| 0 <= j < |a| && a[j] == b[0];
    assert i > 0 ==> Before(b[0], b[i]);
    assert j > 0 ==> Before(a[0], a[j]);
  }

  lemma {:induction false} WithoutFirst(a: seq<Range>)
    requires a != []
    ensures multiset(a[1..]) == multiset(a) - multiset{a[0]}
  {
    assert a == [a[0]] + a[1..];
  }

  // ---------- merging ----------

  function Merged(rs: seq<Range>): seq<Range>
    decreases |rs|
  {
    if |rs| <= 1 then rs
    else if Le(rs[1].start, rs[0].end) then Merged([Range(rs[0].start, Max(rs[0].end, rs[1].end))] + rs[2..])
    else [rs[0]] + Merged(rs[1..])
  }

  function ExcerptRanges(ranges: seq<Range>): seq<Range> {
    Merged(Sorted(ranges))
  }

  predicate Ascending(rs: seq<Range>) {
    forall i :: 1 <= i < |rs| ==> Le(rs[0].start, rs[i].start)
  }

  /** Two ranges that meet become the one range that holds what they hold. */
  lemma {:induction false} TwoMerge(a: Range, b: Range, p: Point, closed: bool)
    requires Le(a.start, b.start) && Le(b.start, a.end)
    ensures var m := Range(a.start, Max(a.end, b.end));
            (Holds(m, p, closed) <==> Holds(a, p, closed) || Holds(b, p, closed)) && Contains(m, a) && Contains(m, b)
  {
  }

  lemma {:induction false} HeldCons(r: Range, rs: seq<Range>, p: Point, closed: bool)
    ensures Held([r] + rs, p, closed) <==> Holds(r, p, closed) || Held(rs, p, closed)
  {
    var all := [r] + rs;
    if i :| 0 <= i < |rs| && Holds(rs[i], p, closed) { assert all[i + 1] == rs[i]; }
    assert all[0] == r;
  }

  /** A head that may reach anywhere, before an ordered tail: what the loop works on. */
  predicate Mergeable(rs: seq<Range>) {
    rs != [] ==> Ascending(rs) && Ordered(rs[1..])
  }

  lemma {:induction false} MergeableStep(rs: seq<Range>)
    requires |rs| > 1 && Mergeable(rs)
    ensures Mergeable(rs[1..])
    ensures var m := Range(rs[0].start, Max(rs[0].end, rs[1].end)); Mergeable([m] + rs[2..])
  {
  }

  /** The result holds the same points, no more and no less ... */
  lemma {:induction false} MergedHolds(rs: seq<Range>, p: Point, closed: bool)
    requires Mergeable(rs)
    ensures Held(Merged(rs), p, closed) <==> Held(rs, p, closed)
    decreases |rs|
  {
    if |rs| > 1 {
      MergeableStep(rs);
      assert rs == [rs[0]] + rs[1..] && rs[1..] == [rs[1]] + rs[2..];
      HeldCons(rs[0], rs[1..], p, closed);
      HeldCons(rs[1], rs[2..], p, closed);
      var m := Range(rs[0].start, Max(rs[0].end, rs[1].end));
      if Le(rs[1].start, rs[0].end) {
        MergedHolds([m] + rs[2..], p, closed);
        HeldCons(m, rs[2..], p, closed);
        TwoMerge(rs[0], rs[1], p, closed);
      } else {
        MergedHolds(rs[1..], p, closed);
        HeldCons(rs[0], Merged(rs[1..]), p, closed);
      }
    }
  }

  predicate Gapped(rs: seq<Range>) {
    forall i :: 0 < i < |rs| ==> Lt(rs[i - 1].end, rs[i].start) && Le(rs[i - 1].start, rs[i].start)
  }

  /** ... with a gap between any two neighbours ... */
  lemma {:induction false} MergedIsGapped(rs: seq<Range>)
    requires Mergeable(rs)
    ensures Gapped(Merged(rs)) && (rs == [] <==> Merged(rs) == [])
    ensures rs != [] ==> Merged(rs)[0].start == rs[0].start
    decreases |rs|
  {
    if |rs| > 1 {
      MergeableStep(rs);
      if Le(rs[1].start, rs[0].end) {
        MergedIsGapped([Range(rs[0].start, Max(rs[0].end, rs[1].end))] + rs[2..]);
      } else {
        MergedIsGapped(rs[1..]);
      }
    }
  }

  predicate Within(outers: seq<Range>, r: Range) {
    exists i :: 0 <= i < |outers| && Contains(outers[i], r)
  }

  lemma {:induction false} WithinCons(r: Range, outers: seq<Range>, inner: Range)
    ensures Within([r] + outers, inner) <==> Contains(r, inner) || Within(outers, inner)
  {
    var all := [r] + outers;
    if i :| 0 <= i < |outers| && Contains(outers[i], inner) { assert all[i + 1] == outers[i]; }
    assert all[0] == r;
  }

  /** ... and each range lies in one of the result's. */
  lemma {:induction false} MergedContains(rs: seq<Range>, inner: Range)
    requires Mergeable(rs) && Within(rs, inner)
    ensures Within(Merged(rs), inner)
    decreases |rs|
  {
    if |rs| > 1 {
      MergeableStep(rs);
      assert rs == [rs[0]] + rs[1..] && rs[1..] == [rs[1]] + rs[2..];
      WithinCons(rs[0], rs[1..], inner);
      WithinCons(rs[1], rs[2..], inner);
      var m := Range(rs[0].start, Max(rs[0].end, rs[1].end));
      if Le(rs[1].start, rs[0].end) {
        WithinCons(m, rs[2..], inner);
        MergedContains([m] + rs[2..], inner);
      } else {
        WithinCons(rs[0], Merged(rs[1..]), inner);
        if Within(rs[1..], inner) { MergedContains(rs[1..], inner); }
      }
    }
  }

  lemma {:induction false} OrderedIsMergeable(rs: seq<Range>)
    requires Ordered(rs)
    ensures Mergeable(rs)
  {
  }

  lemma {:induction false} SameMembersHoldTheSame(a: seq<Range>, b: seq<Range>)
    requires forall r :: r in a <==> r in b
    ensures forall p, closed :: Held(a, p, closed) <==> Held(b, p, closed)
  {
    forall p, closed ensures Held(a, p, closed) <==> Held(b, p, closed) {
      if Held(a, p, closed) {
        var i :| 0 <= i < |a| && Holds(a[i], p, closed);
        assert a[i] in b;
      }
      if Held(b, p, closed) {
        var i :| 0 <= i < |b| && Holds(b[i], p, closed);
        assert b[i] in a;
      }
    }
  }

  lemma {:induction false} SortedHasMembers(rs: seq<Range>)
    ensures forall r :: r in Sorted(rs) <==> r in rs
  {
    SortedIsOrdered(rs);
    assert forall r :: r in rs <==> r in multiset(rs);
    assert forall r :: r in Sorted(rs) <==> r in multiset(Sorted(rs));
  }

  lemma {:induction false} ExcerptsHold(ranges: seq<Range>, p: Point, closed: bool)
    ensures Held(ExcerptRanges(ranges), p, closed) <==> Held(ranges, p, closed)
  {
    SortedIsOrdered(ranges);
    SortedHasMembers(ranges);
    SameMembersHoldTheSame(ranges, Sorted(ranges));
    MergedHolds(Sorted(ranges), p, closed);
  }

  /** The shown excerpts: sorted with strict gaps, covering exactly the given ranges, each within one excerpt. */
  lemma {:induction false} ExcerptsAreRight(ranges: seq<Range>)
    ensures var out := ExcerptRanges(ranges);
            && Gapped(out)
            && (forall p :: Covered(out, p) <==> Covered(ranges, p))
            && (forall p :: Touched(out, p) <==> Touched(ranges, p))
            && (forall i :: 0 <= i < |ranges| ==> Within(out, ranges[i]))
  {
    var sorted := Sorted(ranges);
    SortedIsOrdered(ranges);
    SortedHasMembers(ranges);
    OrderedIsMergeable(sorted);
    MergedIsGapped(sorted);
    forall p ensures Covered(ExcerptRanges(ranges), p) <==> Covered(ranges, p) { ExcerptsHold(ranges, p, false); }
    forall p ensures Touched(ExcerptRanges(ranges), p) <==> Touched(ranges, p) { ExcerptsHold(ranges, p, true); }
    forall i | 0 <= i < |ranges| ensures Within(ExcerptRanges(ranges), ranges[i]) {
      assert ranges[i] in ranges;
      var k :| 0 <= k < |sorted| && sorted[k] == ranges[i];
      assert Contains(sorted[k], ranges[i]);
      MergedContains(sorted, ranges[i]);
    }
  }

  // ---------- the result is canonical ----------

  /** The order in which hunks and revealed ranges come does not matter, for any ranges at all. */
  lemma {:induction false} OrderDoesNotMatter(a: seq<Range>, b: seq<Range>)
    requires multiset(a) == multiset(b)
    ensures ExcerptRanges(a) == ExcerptRanges(b)
  {
    SortedIsOrdered(a);
    SortedIsOrdered(b);
    OrderIsUnique(Sorted(a), Sorted(b));
  }

  /** No range ends before it starts; a range may be empty. */
  predicate Forward(rs: seq<Range>) {
    forall i :: 0 <= i < |rs| ==> Le(rs[i].start, rs[i].end)
  }

  predicate NonEmpty(rs: seq<Range>) {
    forall i :: 0 <= i < |rs| ==> Lt(rs[i].start, rs[i].end)
  }

  lemma {:induction false} MergedIsForward(rs: seq<Range>)
    requires Forward(rs)
    ensures Forward(Merged(rs)) && (NonEmpty(rs) ==> NonEmpty(Merged(rs)))
    decreases |rs|
  {
    if |rs| > 1 {
      if Le(rs[1].start, rs[0].end) {
        MergedIsForward([Range(rs[0].start, Max(rs[0].end, rs[1].end))] + rs[2..]);
      } else {
        MergedIsForward(rs[1..]);
      }
    }
  }

  lemma {:induction false} ExcerptsAreForward(rs: seq<Range>)
    requires Forward(rs)
    ensures Gapped(ExcerptRanges(rs)) && Forward(ExcerptRanges(rs))
    ensures NonEmpty(rs) ==> NonEmpty(ExcerptRanges(rs))
  {
    SortedHasMembers(rs);
    assert Forward(Sorted(rs)) && (NonEmpty(rs) ==> NonEmpty(Sorted(rs))) by {
      assert forall i :: 0 <= i < |Sorted(rs)| ==> Sorted(rs)[i] in rs;
    }
    MergedIsForward(Sorted(rs));
    ExcerptsAreRight(rs);
  }

  /** In a gapped list everything after the head starts beyond the head's end. */
  lemma {:induction false} GapsAdd(rs: seq<Range>, i: nat)
    requires Gapped(rs) && Forward(rs) && 0 < i < |rs|
    ensures Lt(rs[0].end, rs[i].start)
  {
    if i > 1 { GapsAdd(rs, i - 1); }
  }

  lemma {:induction false} HeadHolds(rs: seq<Range>, p: Point, closed: bool)
    requires rs != []
    ensures Holds(rs[0], p, closed) ==> Held(rs, p, closed)
  {
  }

  lemma {:induction false} HeadOfGapped(rs: seq<Range>, p: Point, closed: bool)
    requires rs != [] && Gapped(rs) && Forward(rs)
    ensures Touched(rs, rs[0].start) && !Covered(rs, rs[0].end)
    ensures Held(rs, p, closed) ==> Le(rs[0].start, p)
    ensures Held(rs[1..], p, closed) <==> Held(rs, p, closed) && Lt(rs[0].end, p)
  {
    forall i | 0 < i < |rs| ensures Lt(rs[0].end, rs[i].start) { GapsAdd(rs, i); }
    assert Holds(rs[0], rs[0].start, true);
    assert rs == [rs[0]] + rs[1..];
    HeldCons(rs[0], rs[1..], p, closed);
  }

  predicate SamePoints(a: seq<Range>, b: seq<Range>, p: Point) {
    (Covered(a, p) <==> Covered(b, p)) && (Touched(a, p) <==> Touched(b, p))
  }

  lemma {:induction false} SameHeads(a: seq<Range>, b: seq<Range>)
    requires a != [] && Gapped(a) && Forward(a) && Gapped(b) && Forward(b)
    requires forall p :: SamePoints(a, b, p)
    ensures b != [] && a[0] == b[0]
  {
    HeadOfGapped(a, a[0].start, true);
    assert SamePoints(a, b, a[0].start);
    assert b != [];
    HeadOfGapped(b, a[0].start, true);
    HeadOfGapped(b, b[0].start, true);
    assert SamePoints(a, b, b[0].start);
    HeadOfGapped(a, b[0].start, true);
    assert a[0].start == b[0].start;
    HeadHolds(b, a[0].end, false);
    HeadHolds(a, b[0].end, false);
    assert SamePoints(a, b, a[0].end) && SamePoints(a, b, b[0].end);
  }

  lemma {:induction false} NothingTouched(rs: seq<Range>)
    requires Gapped(rs) && Forward(rs) && forall p :: !Touched(rs, p)
    ensures rs == []
  {
    if rs != [] { HeadOfGapped(rs, rs[0].start, true); }
  }

  /** A gapped list is determined by the points it covers and the points it touches. */
  lemma {:induction false} PointsDetermine(a: seq<Range>, b: seq<Range>)
    requires Gapped(a) && Forward(a) && Gapped(b) && Forward(b)
    requires forall p :: SamePoints(a, b, p)
    ensures a == b
  {
    if a == [] {
      forall p ensures !Touched(b, p) { assert SamePoints(a, b, p); }
      NothingTouched(b);
    } else {
      SameHeads(a, b);
      forall p ensures SamePoints(a[1..], b[1..], p) {
        assert SamePoints(a, b, p);
        HeadOfGapped(a, p, false);
        HeadOfGapped(b, p, false);
        HeadOfGapped(a, p, true);
        HeadOfGapped(b, p, true);
      }
      PointsDetermine(a[1..], b[1..]);
    }
  }

  /** Two inputs, empty ranges included, give the same excerpts exactly when they cover and touch the same points. */
  lemma {:induction false} ExcerptsAgreeExactlyWhen(a: seq<Range>, b: seq<Range>)
    requires Forward(a) && Forward(b)
    ensures ExcerptRanges(a) == ExcerptRanges(b) <==> forall p :: SamePoints(a, b, p)
  {
    var x, y := ExcerptRanges(a), ExcerptRanges(b);
    forall p ensures SamePoints(x, a, p) && SamePoints(y, b, p) {
      ExcerptsHold(a, p, false);
      ExcerptsHold(a, p, true);
      ExcerptsHold(b, p, false);
      ExcerptsHold(b, p, true);
    }
    if x == y {
      forall p ensures SamePoints(a, b, p) { assert SamePoints(x, a, p) && SamePoints(y, b, p); }
    }
    if forall p :: SamePoints(a, b, p) {
      ExcerptsAreForward(a);
      ExcerptsAreForward(b);
      forall p ensures SamePoints(x, y, p) { assert SamePoints(x, a, p) && SamePoints(y, b, p) && SamePoints(a, b, p); }
      PointsDetermine(x, y);
    }
  }

  /** Everything from `q` up to `p` is covered. */
  ghost predicate CoveredUpTo(rs: seq<Range>, q: Point, p: Point) {
    Lt(q, p) && forall t :: Le(q, t) && Lt(t, p) ==> Covered(rs, t)
  }

  /** Without empty ranges, what is touched is what is covered or where cover ends. */
  lemma {:induction false} TouchedIsCoveredOrEnd(rs: seq<Range>, p: Point)
    requires Gapped(rs) && NonEmpty(rs)
    ensures Touched(rs, p) <==> Covered(rs, p) || exists q :: CoveredUpTo(rs, q, p)
  {
    if i :| 0 <= i < |rs| && Holds(rs[i], p, true) {
      if !Covered(rs, p) {
        assert p == rs[i].end;
        forall t | Le(rs[i].start, t) && Lt(t, p) ensures Covered(rs, t) { assert Holds(rs[i], t, false); }
        assert CoveredUpTo(rs, rs[i].start, p);
      }
    }
    if i :| 0 <= i < |rs| && Holds(rs[i], p, false) { assert Holds(rs[i], p, true); }
    if q :| CoveredUpTo(rs, q, p) {
      assert Covered(rs, q);
      var i :| 0 <= i < |rs| && Holds(rs[i], q, false);
      EndIsUncovered(rs, i);
      assert Holds(rs[i], p, true);
    }
  }

  lemma {:induction false} EndIsUncovered(rs: seq<Range>, i: nat)
    requires Gapped(rs) && Forward(rs) && i < |rs|
    ensures !Covered(rs, rs[i].end)
  {
    if i == 0 {
      HeadOfGapped(rs, rs[0].end, false);
    } else {
      EndIsUncovered(rs[1..], i - 1);
      GapsAdd(rs, i);
      HeadOfGapped(rs, rs[i].end, false);
    }
  }

  /** So non-empty ranges that cover the same points give the same excerpts. */
  lemma {:induction false} ExcerptsAreCanonical(a: seq<Range>, b: seq<Range>)
    requires NonEmpty(a) && NonEmpty(b)
    requires forall p :: Covered(a, p) <==> Covered(b, p)
    ensures ExcerptRanges(a) == ExcerptRanges(b)
  {
    var x, y := ExcerptRanges(a), ExcerptRanges(b);
    ExcerptsAreForward(a);
    ExcerptsAreForward(b);
    forall p ensures Covered(x, p) <==> Covered(y, p) {
      assert Covered(a, p) <==> Covered(b, p);
      ExcerptsHold(a, p, false);
      ExcerptsHold(b, p, false);
    }
    forall p ensures SamePoints(a, b, p) {
      ExcerptsHold(a, p, true);
      ExcerptsHold(b, p, true);
      TouchedIsCoveredOrEnd(x, p);
      TouchedIsCoveredOrEnd(y, p);
      forall q ensures CoveredUpTo(x, q, p) <==> CoveredUpTo(y, q, p) {
      }
    }
    ExcerptsAgreeExactlyWhen(a, b);
  }

  /** The empty ranges of pure deletions are kept, so with them coverage alone does not determine the excerpts. */
  lemma {:induction false} EmptyRangesAreKept(p: Point)
    ensures ExcerptRanges([Range(p, p)]) == [Range(p, p)] && ExcerptRanges([]) == []
    ensures forall q :: !Covered([Range(p, p)], q)
  {
    assert Sorted([Range(p, p)]) == Insert(Range(p, p), []);
  }

  // ---------- the program's loops ----------

  method SortByStart(ranges: seq<Range>) returns (sorted: seq<Range>)
    ensures sorted == Sorted(ranges)
  {
    sorted := [];
    var k := |ranges|;
    while k > 0
      invariant 0 <= k <= |ranges| && sorted == Sorted(ranges[k..])
    {
      k := k - 1;
      assert ranges[k..][1..] == ranges[k + 1..];
      sorted := Insert(ranges[k], sorted);
    }
  }

  method MergeRanges(hunks: seq<Range>, revealed: seq<Range>) returns (merged: seq<Range>)
    ensures merged == ExcerptRanges(hunks + revealed)
  {
    var ranges := SortByStart(hunks + revealed);
    merged := [];
    var k := 0;
    while k < |ranges|
      invariant k <= |ranges| && merged + Merged(ranges[k..]) == Merged(ranges)
    {
      var range := ranges[k];
      assert ranges[k..] == [range] + ranges[k + 1..];
      k := k + 1;
      while k < |ranges| && Le(ranges[k].start, range.end)
        invariant k <= |ranges| && merged + Merged([range] + ranges[k..]) == Merged(ranges)
      {
        assert ([range] + ranges[k..])[2..] == ranges[k + 1..];
        range := range.(end := Max(range.end, ranges[k].end));
        k := k + 1;
      }
      assert ([range] + ranges[k..])[1..] == ranges[k..];
      assert merged + Merged([range] + ranges[k..]) == (merged + [range]) + Merged(ranges[k..]);
      merged := merged + [range];
    }
  }
}
