/** Shared vocabulary: optional values, and what it means to select from a list. */
module Prelude {

  datatype Option<+T> = None | Some(value: T)

  /** Exactly the elements of `all` that are to be kept, in their order. */
  predicate Selects<T(==)>(kept: seq<T>, all: seq<T>, keep: T -> bool)
    decreases all
  {
    if all == [] then kept == []
    else if keep(all[0]) then kept != [] && kept[0] == all[0] && Selects(kept[1..], all[1..], keep)
    else Selects(kept, all[1..], keep)
  }

  lemma {:induction false} SelectsMore<T>(kept: seq<T>, all: seq<T>, x: T, keep: T -> bool)
    requires Selects(kept, all, keep)
    ensures Selects(if keep(x) then kept + [x] else kept, all + [x], keep)
    decreases all
  {
    if all == [] {
      assert [] + [x] == [x] && [x][1..] == [];
    } else {
      assert (all + [x])[1..] == all[1..] + [x];
      if keep(all[0]) {
        SelectsMore(kept[1..], all[1..], x, keep);
        assert (kept + [x])[1..] == kept[1..] + [x];
      } else {
        SelectsMore(kept, all[1..], x, keep);
      }
    }
  }
}
