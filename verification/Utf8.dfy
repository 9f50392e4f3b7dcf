/**
 The byte-level view of text: UTF-8 as defined by RFC 3629, section 4, and the character
 boundary at which the streaming timer cuts.
 */
module Utf8 {

  newtype Byte = b: int | 0 <= b < 0x100

  type Text = seq<Byte>

  /** UTF8-tail in the grammar of RFC 3629, section 4. */
  predicate IsTail(b: Byte) {
    0x80 <= b <= 0xBF
  }

  /** The length of the UTF8-char that `s` starts with, or 0 when it starts with none. */
  function CharLen(s: Text): (n: nat)
    ensures n <= 4 && n <= |s|
    ensures n > 0 ==> !IsTail(s[0]) && forall k :: 1 <= k < n ==> IsTail(s[k])
  {
    if |s| >= 1 && s[0] <= 0x7F then 1
    else if |s| >= 2 && 0xC2 <= s[0] <= 0xDF && IsTail(s[1]) then 2
    else if |s| >= 3 && IsTail(s[1]) && IsTail(s[2])
            && ((s[0] == 0xE0 && 0xA0 <= s[1]) || 0xE1 <= s[0] <= 0xEC
                || (s[0] == 0xED && s[1] <= 0x9F) || 0xEE <= s[0] <= 0xEF) then 3
    else if |s| >= 4 && IsTail(s[1]) && IsTail(s[2]) && IsTail(s[3])
            && ((s[0] == 0xF0 && 0x90 <= s[1]) || 0xF1 <= s[0] <= 0xF3
                || (s[0] == 0xF4 && s[1] <= 0x8F)) then 4
    else 0
  }

  /** UTF8-octets: a sequence of UTF8-chars. */
  predicate Valid(s: Text) {
    s == [] || (CharLen(s) > 0 && Valid(s[CharLen(s)..]))
  }

  predicate IsBoundary(s: Text, i: nat) {
    i == 0 || i == |s| || (i < |s| && !IsTail(s[i]))
  }

  /** The least boundary at or after `index`: what the library's upward search returns. */
  function CeilBoundary(s: Text, index: nat): (r: nat)
    ensures r <= |s| && IsBoundary(s, r)
    ensures index <= |s| ==> index <= r
    ensures index > |s| ==> r == |s|
    ensures forall j :: index <= j < r ==> !IsBoundary(s, j)
    decreases |s| - index
  {
    if index >= |s| then |s|
    else if IsBoundary(s, index) then index
    else CeilBoundary(s, index + 1)
  }

  // The library looks no further than four bytes ahead.
  method CeilCharBoundary(s: Text, index: nat) returns (r: nat)
    requires Valid(s)
    ensures r == CeilBoundary(s, index)
  {
    if index >= |s| {
      return |s|;
    }
    var upper := if index + 4 <= |s| then index + 4 else |s|;
    r := index;
    while r < upper && IsTail(s[r])
      invariant index <= r <= upper
      invariant forall j :: index <= j < r ==> IsTail(s[j])
    {
      r := r + 1;
    }
    BoundaryIsNear(s, index);
    assert CharLen(s) > 0;
    assert forall j :: index <= j < r && j != 0 ==> !IsBoundary(s, j);
    assert IsBoundary(s, r);
    assert CeilBoundary(s, index) == r;
  }

  lemma {:induction false} ValidConcat(a: Text, b: Text)
    requires Valid(a) && Valid(b)
    ensures Valid(a + b)
  {
    if a == [] {
      assert a + b == b;
    } else {
      var n := CharLen(a);
      assert CharLen(a + b) == n;
      assert (a + b)[n..] == a[n..] + b;
      ValidConcat(a[n..], b);
    }
  }

  /** The first character of well-formed text is whole in everything that goes up to a boundary after it. */
  lemma {:induction false} FirstCharStays(s: Text, i: nat)
    requires CharLen(s) > 0 && 0 < i <= |s| && IsBoundary(s, i)
    ensures CharLen(s) <= i && CharLen(s[..i]) == CharLen(s)
  {
    var n := CharLen(s);
    assert i >= n;
    assert forall k :: 0 <= k < i ==> s[..i][k] == s[k];
  }

  /** Cutting at a boundary leaves well-formed text on both sides. */
  lemma {:induction false} ValidSplit(s: Text, i: nat)
    requires Valid(s) && i <= |s| && IsBoundary(s, i)
    ensures Valid(s[..i]) && Valid(s[i..])
  {
    if i == 0 {
      assert s[0..] == s;
    } else {
      var n := CharLen(s);
      FirstCharStays(s, i);
      ValidSplit(s[n..], i - n);
      assert s[n..][..i - n] == s[..i][n..] && s[n..][i - n..] == s[i..];
    }
  }

  /** In well-formed text a boundary is never more than three bytes ahead. */
  lemma {:induction false} BoundaryIsNear(s: Text, index: nat)
    requires Valid(s) && index < |s|
    ensures CeilBoundary(s, index) <= index + 3
    decreases |s|
  {
    var n := CharLen(s);
    if index == 0 {
    } else if index < n {
      assert IsBoundary(s, n);
      assert n <= index + 3;
    } else {
      BoundaryIsNear(s[n..], index - n);
      var r := CeilBoundary(s[n..], index - n);
      if r != |s[n..]| && r != 0 {
        assert s[n..][r] == s[n + r];
      }
      assert IsBoundary(s, n + r);
    }
  }
}
