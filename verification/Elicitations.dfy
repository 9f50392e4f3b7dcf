/**
 The elicitation store: requests for user input, each holding a one-shot channel on which
 exactly one answer may be delivered. An elicitation's channel is named by its id, and
 `delivered[id]` lists what its receiver got, so answering twice would be visible.
 */
module Elicitations {
  import opened Prelude

  datatype Action = Accept | Decline | Cancel | OtherAction

  datatype Mode = Form | Url(elicitationId: nat)

  datatype Status = Pending | Accepted | Declined | Canceled | Completed

  datatype Elicitation = Elicitation(id: nat, mode: Mode, requestId: Option<nat>, status: Status)

  datatype Store = Store(items: seq<Elicitation>, delivered: seq<seq<Action>>)

  // ---------- one entry ----------

  /** What an operation does to one entry, what it sends, and whether it reports a change. */
  datatype Outcome = Outcome(entry: Elicitation, sent: Option<Action>, changed: bool)

  function StatusForResponse(action: Action): Status {
    match action
    case Accept => Accepted
    case Decline => Declined
    case Cancel | OtherAction => Canceled
  }

  function Responded(e: Elicitation, action: Action): Outcome {
    if e.status.Pending? then Outcome(e.(status := StatusForResponse(action)), Some(action), true)
    else Outcome(e, None, false)
  }

  function UrlCompleted(e: Elicitation): Outcome {
    match e.status
    case Pending => Outcome(e.(status := Completed), Some(Accept), true)
    case Accepted => Outcome(e.(status := Completed), None, true)
    case Completed | Declined | Canceled => Outcome(e, None, false)
  }

  function EntryCanceled(e: Elicitation, cancelAcceptedUrls: bool): Outcome {
    if e.status.Pending? then Outcome(e.(status := Canceled), Some(Cancel), true)
    else if e.status.Accepted? && cancelAcceptedUrls && e.mode.Url? then Outcome(e.(status := Canceled), None, true)
    else Outcome(e, None, false)
  }

  // ---------- the store ----------

  /** The last entry with this id, searching from the back. */
  function IndexOf(items: seq<Elicitation>, id: nat): (r: Option<nat>)
    ensures r.Some? ==> r.value < |items| && items[r.value].id == id
    ensures r.Some? ==> forall j :: r.value < j < |items| ==> items[j].id != id
    ensures r.None? ==> forall j :: 0 <= j < |items| ==> items[j].id != id
  {
    if items == [] then None
    else if items[|items| - 1].id == id then Some(|items| - 1)
    else IndexOf(items[..|items| - 1], id)
  }

  function IndexOfUrl(items: seq<Elicitation>, urlId: nat): (r: Option<nat>)
    ensures r.Some? ==> r.value < |items| && items[r.value].mode == Url(urlId)
    ensures r.Some? ==> forall j :: r.value < j < |items| ==> items[j].mode != Url(urlId)
    ensures r.None? ==> forall j :: 0 <= j < |items| ==> items[j].mode != Url(urlId)
  {
    if items == [] then None
    else if items[|items| - 1].mode == Url(urlId) then Some(|items| - 1)
    else IndexOfUrl(items[..|items| - 1], urlId)
  }

  function Delivered(delivered: seq<seq<Action>>, id: nat, sent: Option<Action>): seq<seq<Action>> {
    if sent.Some? && id < |delivered| then delivered[id := delivered[id] + [sent.value]] else delivered
  }

  function Put(st: Store, i: nat, o: Outcome): Store
    requires i < |st.items|
  {
    Store(st.items[i := o.entry], Delivered(st.delivered, o.entry.id, o.sent))
  }

  function Requested(st: Store, mode: Mode, requestId: Option<nat>): Store {
    Store(st.items + [Elicitation(|st.delivered|, mode, requestId, Pending)], st.delivered + [[]])
  }

  function WithResponse(st: Store, id: nat, action: Action): Store {
    var i := IndexOf(st.items, id);
    if i.None? then st else Put(st, i.value, Responded(st.items[i.value], action))
  }

  function WithCompleted(st: Store, id: nat): Store {
    var i := IndexOf(st.items, id);
    if i.None? then st else Put(st, i.value, UrlCompleted(st.items[i.value]))
  }

  function WithCanceled(st: Store, id: nat): Store {
    var i := IndexOf(st.items, id);
    if i.None? then st else Put(st, i.value, EntryCanceled(st.items[i.value], true))
  }

  function WithUrlCompleted(st: Store, urlId: nat): Store {
    var i := IndexOfUrl(st.items, urlId);
    if i.None? then st else WithCompleted(st, st.items[i.value].id)
  }

  /** The first `n` entries, where selected, are canceled, each on its own: the pointwise view of a cancelling loop. */
  function CancelFirst(st: Store, selected: Elicitation -> bool, n: nat): Store {
    Store(seq(|st.items|, i requires 0 <= i < |st.items| =>
                if i < n && selected(st.items[i]) then EntryCanceled(st.items[i], true).entry else st.items[i]),
          seq(|st.delivered|, id requires 0 <= id < |st.delivered| =>
                if SelectedPending(st.items, selected, n, id) then st.delivered[id] + [Cancel] else st.delivered[id]))
  }

  predicate SelectedPending(items: seq<Elicitation>, selected: Elicitation -> bool, n: nat, id: nat) {
    exists i :: 0 <= i < |items| && i < n && items[i].id == id && items[i].status.Pending? && selected(items[i])
  }

  function CancelWhere(st: Store, selected: Elicitation -> bool): Store {
    CancelFirst(st, selected, |st.items|)
  }

  /** Still waiting for the user, or for an accepted link to be completed: what a dismissal keeps. */
  predicate Unresolved(e: Elicitation) {
    e.status.Pending? || (e.status.Accepted? && e.mode.Url?)
  }

  function Kept(items: seq<Elicitation>): (r: seq<Elicitation>)
    ensures forall e :: e in r <==> e in items && Unresolved(e)
  {
    if items == [] then []
    else if Unresolved(items[0]) then [items[0]] + Kept(items[1..])
    else Kept(items[1..])
  }

  predicate Anyone(e: Elicitation) {
    true
  }

  function ForRequest(r: nat): Elicitation -> bool {
    (e: Elicitation) => e.requestId == Some(r)
  }

  /** The ids of the selected entries a cancelling loop reports, in store order. */
  function CanceledIds(items: seq<Elicitation>, selected: Elicitation -> bool): seq<nat> {
    if items == [] then []
    else
      var e := items[|items| - 1];
      CanceledIds(items[..|items| - 1], selected)
      + (if selected(e) && EntryCanceled(e, true).changed then [e.id] else [])
  }

  function DroppedIds(items: seq<Elicitation>): seq<nat> {
    if items == [] then []
    else
      var e := items[|items| - 1];
      DroppedIds(items[..|items| - 1]) + (if Unresolved(e) then [] else [e.id])
  }

  // ---------- the protocol ----------

  datatype Op =
    | OpRequest(mode: Mode, requestId: Option<nat>, valid: bool)
    | OpRespond(id: nat, action: Action)
    | OpCompleteUrl(urlId: nat)
    | OpCancel(id: nat)
    | OpCancelAll
    | OpCancelRequest(forRequest: nat)
    | OpClear
    | OpClearResolved

  function Step(st: Store, op: Op): Store {
    match op
    case OpRequest(mode, requestId, valid) => if valid then Requested(st, mode, requestId) else st
    case OpRespond(id, action) => WithResponse(st, id, action)
    case OpCompleteUrl(urlId) => WithUrlCompleted(st, urlId)
    case OpCancel(id) => WithCanceled(st, id)
    case OpCancelAll => CancelWhere(st, Anyone)
    case OpCancelRequest(r) => CancelWhere(st, ForRequest(r))
    case OpClear => CancelWhere(st, Anyone).(items := [])
    case OpClearResolved => st.(items := Kept(st.items))
  }

  /** The ids for which an operation announces an update. */
  function Reports(st: Store, op: Op): seq<nat> {
    match op
    case OpRequest(_, _, _) => []
    case OpRespond(id, action) =>
      var i := IndexOf(st.items, id);
      if i.Some? && Responded(st.items[i.value], action).changed then [id] else []
    case OpCompleteUrl(urlId) =>
      var u := IndexOfUrl(st.items, urlId);
      if u.None? then [] else
      var id := st.items[u.value].id;
      var i := IndexOf(st.items, id);
      if i.Some? && UrlCompleted(st.items[i.value]).changed then [id] else []
    case OpCancel(id) =>
      var i := IndexOf(st.items, id);
      if i.Some? && EntryCanceled(st.items[i.value], true).changed then [id] else []
    case OpCancelAll | OpClear => CanceledIds(st.items, Anyone)
    case OpCancelRequest(r) => CanceledIds(st.items, ForRequest(r))
    case OpClearResolved => DroppedIds(st.items)
  }

  const EMPTY := Store([], [])

  function Run(ops: seq<Op>): Store {
    if ops == [] then EMPTY else Step(Run(ops[..|ops| - 1]), ops[|ops| - 1])
  }

  // ---------- what every run keeps ----------

  predicate UniqueIds(items: seq<Elicitation>) {
    forall i, j :: 0 <= i < j < |items| ==> items[i].id != items[j].id
  }

  /** The status of an entry tells exactly what its receiver got. */
  predicate Consistent(e: Elicitation, got: seq<Action>) {
    match e.status
    case Pending => got == []
    case Accepted => got == [Accept]
    case Completed => got == [Accept] && e.mode.Url?
    case Declined => got == [Decline]
    case Canceled => got == [Cancel] || got == [OtherAction] || (got == [Accept] && e.mode.Url?)
  }

  ghost predicate Present(items: seq<Elicitation>, id: nat) {
    exists i :: 0 <= i < |items| && items[i].id == id
  }

  ghost predicate Inv(st: Store) {
    && UniqueIds(st.items)
    && (forall i :: 0 <= i < |st.items| ==>
          st.items[i].id < |st.delivered| && Consistent(st.items[i], st.delivered[st.items[i].id]))
    && (forall id :: 0 <= id < |st.delivered| ==> |st.delivered[id]| <= 1)
    && (forall id :: 0 <= id < |st.delivered| && !Present(st.items, id) ==> |st.delivered[id]| == 1)
  }

  /** What one operation may do to one entry. */
  ghost predicate Legal(e: Elicitation, o: Outcome) {
    && o.entry == e.(status := o.entry.status)
    && (o.sent.Some? ==> e.status.Pending?)
    && (o.sent.Some? && o.entry.status.Pending? ==> false)
    && (e.status.Pending? && o.sent.None? ==> o.entry == e)
    && (!o.changed ==> o.entry == e && o.sent.None?)
    && (o.changed ==> Rank(o.entry.status) < Rank(e.status))
  }

  function Rank(s: Status): nat {
    match s
    case Pending => 2
    case Accepted => 1
    case Declined | Canceled | Completed => 0
  }

  /** Replacing one entry by a legal, consistent outcome keeps the store's invariant. */
  lemma {:induction false} PutKeepsInv(st: Store, i: nat, o: Outcome)
    requires Inv(st) && i < |st.items| && Legal(st.items[i], o)
    requires Consistent(o.entry, st.delivered[st.items[i].id] + (if o.sent.Some? then [o.sent.value] else []))
    ensures Inv(Put(st, i, o))
  {
    var st' := Put(st, i, o);
    assert st'.delivered[o.entry.id] == st.delivered[o.entry.id] + (if o.sent.Some? then [o.sent.value] else []);
    SameIdsSamePresence(st.items, st'.items);
  }

  lemma {:induction false} SameIdsSamePresence(a: seq<Elicitation>, b: seq<Elicitation>)
    requires |a| <= |b| && forall k :: 0 <= k < |a| ==> a[k].id == b[k].id
    ensures forall id :: Present(a, id) ==> Present(b, id)
  {
  }

  /** Under a cancelling loop each entry is canceled on its own, and its receiver is told. */
  lemma {:induction false} CancelWherePointwise(st: Store, selected: Elicitation -> bool, i: nat)
    requires Inv(st) && i < |st.items|
    ensures var st' := CancelWhere(st, selected);
            var e := st.items[i];
            var o := if selected(e) then EntryCanceled(e, true) else Outcome(e, None, false);
            && |st'.items| == |st.items| && |st'.delivered| == |st.delivered|
            && st'.items[i] == o.entry
            && e.id < |st.delivered|
            && st'.delivered[e.id] == st.delivered[e.id] + (if o.sent.Some? then [o.sent.value] else [])
  {
  }

  lemma {:induction false} CancelWhereElsewhere(st: Store, selected: Elicitation -> bool, id: nat)
    requires id < |st.delivered| && !Present(st.items, id)
    ensures CancelWhere(st, selected).delivered[id] == st.delivered[id]
  {
  }

  /** A cancelling loop over any selection keeps the invariant. */
  lemma {:induction false} CancelWhereKeepsInv(st: Store, selected: Elicitation -> bool)
    requires Inv(st)
    ensures Inv(CancelWhere(st, selected))
  {
    var st' := CancelWhere(st, selected);
    SameIdsSamePresence(st.items, st'.items);
    SameIdsSamePresence(st'.items, st.items);
    forall i | 0 <= i < |st'.items|
      ensures st'.items[i].id < |st'.delivered| && Consistent(st'.items[i], st'.delivered[st'.items[i].id])
    {
      CancelWherePointwise(st, selected, i);
    }
    forall id | 0 <= id < |st'.delivered|
      ensures |st'.delivered[id]| <= 1 && (!Present(st'.items, id) ==> |st'.delivered[id]| == 1)
    {
      if Present(st.items, id) {
        var k :| 0 <= k < |st.items| && st.items[k].id == id;
        CancelWherePointwise(st, selected, k);
      } else {
        CancelWhereElsewhere(st, selected, id);
      }
    }
  }

  lemma {:induction false} KeptIsSubsequence(items: seq<Elicitation>)
    requires UniqueIds(items)
    ensures UniqueIds(Kept(items))
  {
    if items != [] {
      KeptIsSubsequence(items[1..]);
      var rest := Kept(items[1..]);
      forall j | 0 <= j < |rest| ensures rest[j].id != items[0].id {
        assert rest[j] in items[1..];
      }
    }
  }

  lemma {:induction false} RequestKeepsInv(st: Store, mode: Mode, requestId: Option<nat>)
    requires Inv(st)
    ensures Inv(Requested(st, mode, requestId))
  {
    var st' := Requested(st, mode, requestId);
    assert st'.items[|st.items|].id == |st.delivered|;
    SameIdsSamePresence(st.items, st'.items);
  }

  lemma {:induction false} UnresolvedIsKept(items: seq<Elicitation>, k: nat)
    requires k < |items| && Unresolved(items[k])
    ensures Present(Kept(items), items[k].id)
  {
  }

  lemma {:induction false} ClearResolvedKeepsInv(st: Store)
    requires Inv(st)
    ensures Inv(st.(items := Kept(st.items)))
  {
    var kept := Kept(st.items);
    KeptIsSubsequence(st.items);
    forall i | 0 <= i < |kept|
      ensures kept[i].id < |st.delivered| && Consistent(kept[i], st.delivered[kept[i].id])
    {
      assert kept[i] in st.items;
    }
    forall id | 0 <= id < |st.delivered| && !Present(kept, id) ensures |st.delivered[id]| == 1 {
      if Present(st.items, id) {
        var k :| 0 <= k < |st.items| && st.items[k].id == id;
        if Unresolved(st.items[k]) { UnresolvedIsKept(st.items, k); }
      }
    }
  }

  lemma {:induction false} StepKeepsInv(st: Store, op: Op)
    requires Inv(st)
    ensures Inv(Step(st, op))
  {
    match op
    case OpRequest(mode, requestId, valid) =>
      if valid { RequestKeepsInv(st, mode, requestId); }
    case OpRespond(id, action) =>
      var i := IndexOf(st.items, id);
      if i.Some? { PutKeepsInv(st, i.value, Responded(st.items[i.value], action)); }
    case OpCompleteUrl(urlId) => CompleteUrlKeepsInv(st, urlId);
    case OpCancel(id) =>
      var i := IndexOf(st.items, id);
      if i.Some? { PutKeepsInv(st, i.value, EntryCanceled(st.items[i.value], true)); }
    case OpCancelAll => CancelWhereKeepsInv(st, Anyone);
    case OpCancelRequest(r) => CancelWhereKeepsInv(st, ForRequest(r));
    case OpClear => ClearAnswersEverything(st);
    case OpClearResolved => ClearResolvedKeepsInv(st);
  }

  lemma {:induction false} CompleteUrlKeepsInv(st: Store, urlId: nat)
    requires Inv(st)
    ensures Inv(WithUrlCompleted(st, urlId))
  {
    var u := IndexOfUrl(st.items, urlId);
    if u.Some? {
      var i := IndexOf(st.items, st.items[u.value].id);
      assert i == u;
      PutKeepsInv(st, i.value, UrlCompleted(st.items[i.value]));
    }
  }

  /** Clearing the store leaves no receiver waiting. */
  lemma {:induction false} ClearAnswersEverything(st: Store)
    requires Inv(st)
    ensures Inv(Step(st, OpClear))
    ensures forall id :: 0 <= id < |st.delivered| ==> |Step(st, OpClear).delivered[id]| == 1
  {
  }

  // ---------- whole runs ----------

  lemma {:induction false} RunKeepsInv(ops: seq<Op>)
    ensures Inv(Run(ops))
  {
    if ops != [] {
      RunKeepsInv(ops[..|ops| - 1]);
      StepKeepsInv(Run(ops[..|ops| - 1]), ops[|ops| - 1]);
    }
  }

  /**
   In every run, every channel has been answered at most once; it is unanswered exactly while
   its entry is in the store and pending; and the status of an entry tells the answer.
   */
  lemma {:induction false} AnsweredAtMostOnce(ops: seq<Op>, id: nat)
    requires id < |Run(ops).delivered|
    ensures var st := Run(ops);
            var got := st.delivered[id];
            && |got| <= 1
            && (got == [] <==> exists i :: 0 <= i < |st.items| && st.items[i].id == id && st.items[i].status.Pending?)
            && (forall i :: 0 <= i < |st.items| && st.items[i].id == id ==>
                  var e := st.items[i];
                  && (e.status.Accepted? || e.status.Completed? ==> got == [Accept])
                  && (e.status.Declined? ==> got == [Decline])
                  && (e.status.Canceled? && e.mode.Form? ==> got == [Cancel] || got == [OtherAction]))
  {
    RunKeepsInv(ops);
    var st := Run(ops);
    if st.delivered[id] == [] {
      assert Present(st.items, id);
      var i :| 0 <= i < |st.items| && st.items[i].id == id;
      assert Consistent(st.items[i], []);
    }
  }

  /** The status an entry has in a store; an entry that has left the store is settled. */
  function RankOf(st: Store, id: nat): (r: nat)
    ensures r <= 2
  {
    var i := IndexOf(st.items, id);
    if i.None? then 0 else Rank(st.items[i.value].status)
  }

  /** How often the status of `id` changed over a run while it stayed in the store. */
  function Changes(ops: seq<Op>, id: nat): nat {
    if ops == [] then 0
    else
      var before, after := Run(ops[..|ops| - 1]), Run(ops);
      Changes(ops[..|ops| - 1], id) + (if StatusChanged(before, after, id) then 1 else 0)
  }

  predicate StatusChanged(before: Store, after: Store, id: nat) {
    var i, j := IndexOf(before.items, id), IndexOf(after.items, id);
    i.Some? && j.Some? && before.items[i.value].status != after.items[j.value].status
  }

  predicate ChangedByCancel(e: Elicitation, selected: Elicitation -> bool, id: nat) {
    e.id == id && selected(e) && EntryCanceled(e, true).changed
  }

  lemma {:induction false} CanceledIdsAreTheChanged(items: seq<Elicitation>, selected: Elicitation -> bool, id: nat)
    ensures id in CanceledIds(items, selected) <==> exists i :: 0 <= i < |items| && ChangedByCancel(items[i], selected, id)
  {
    if items != [] {
      var n := |items| - 1;
      CanceledIdsAreTheChanged(items[..n], selected, id);
      assert id in CanceledIds(items, selected) <==> id in CanceledIds(items[..n], selected) || ChangedByCancel(items[n], selected, id);
      if i :| 0 <= i < n && ChangedByCancel(items[i], selected, id) {
        assert items[..n][i] == items[i];
      }
    }
  }

  /** In a store with unique ids the search finds the entry. */
  lemma {:induction false} IndexIs(items: seq<Elicitation>, i: nat)
    requires UniqueIds(items) && i < |items|
    ensures IndexOf(items, items[i].id) == Some(i)
  {
  }

  lemma {:induction false} CancelLoopLowersRank(st: Store, selected: Elicitation -> bool, i: nat)
    requires Inv(st) && i < |st.items|
    ensures var e, e' := st.items[i], CancelWhere(st, selected).items[i];
            && e' == e.(status := e'.status)
            && (e.id in CanceledIds(st.items, selected) ==> Rank(e'.status) < Rank(e.status))
            && (e.id !in CanceledIds(st.items, selected) ==> e' == e)
  {
    CanceledIdsAreTheChanged(st.items, selected, st.items[i].id);
    CancelWherePointwise(st, selected, i);
  }

  /**
   An operation that announces a change of an entry strictly lowers its rank, and an entry
   it does not announce keeps its status for as long as it stays in the store.
   */
  lemma {:induction false} ReportedChangesLowerRank(st: Store, op: Op, i: nat)
    requires Inv(st) && i < |st.items| && !op.OpClear? && !op.OpClearResolved?
    ensures i < |Step(st, op).items|
    ensures var e, e' := st.items[i], Step(st, op).items[i];
            && e' == e.(status := e'.status)
            && (e.id in Reports(st, op) ==> Rank(e'.status) < Rank(e.status))
            && (e.id !in Reports(st, op) ==> e' == e)
  {
    IndexIs(st.items, i);
    match op
    case OpCancelAll => CancelLoopLowersRank(st, Anyone, i);
    case OpCancelRequest(r) => CancelLoopLowersRank(st, ForRequest(r), i);
    case OpCompleteUrl(urlId) =>
      var u := IndexOfUrl(st.items, urlId);
      if u.Some? { IndexIs(st.items, u.value); }
    case _ =>
  }

  lemma {:induction false} StepNeverRaisesRank(st: Store, op: Op, id: nat)
    requires Inv(st) && id < |st.delivered|
    ensures RankOf(Step(st, op), id) <= RankOf(st, id)
    ensures StatusChanged(st, Step(st, op), id) ==> RankOf(Step(st, op), id) < RankOf(st, id)
  {
    var st' := Step(st, op);
    StepKeepsInv(st, op);
    var i := IndexOf(st.items, id);
    if op.OpClear? {
    } else if op.OpClearResolved? {
      var j := IndexOf(st'.items, id);
      if j.Some? {
        assert st'.items[j.value] in st.items;
        IndexIs(st'.items, j.value);
        var k :| 0 <= k < |st.items| && st.items[k] == st'.items[j.value];
        IndexIs(st.items, k);
      }
    } else if i.Some? {
      ReportedChangesLowerRank(st, op, i.value);
      assert st'.items[i.value].id == id;
      IndexIs(st'.items, i.value);
    } else {
      var j := IndexOf(st'.items, id);
      if j.Some? && j.value < |st.items| {
        ReportedChangesLowerRank(st, op, j.value);
        assert false;
      }
    }
  }

  lemma {:induction false} DeliveredGrows(st: Store, op: Op)
    ensures |st.delivered| <= |Step(st, op).delivered|
  {
  }

  /** At most two changes of status happen to an entry in its whole life. */
  lemma {:induction false} AtMostTwoChanges(ops: seq<Op>, id: nat)
    ensures Changes(ops, id) <= 2
    ensures id < |Run(ops).delivered| ==> Changes(ops, id) + RankOf(Run(ops), id) <= 2
    ensures id >= |Run(ops).delivered| ==> Changes(ops, id) == 0
  {
    if ops != [] {
      var before, op := Run(ops[..|ops| - 1]), ops[|ops| - 1];
      AtMostTwoChanges(ops[..|ops| - 1], id);
      RunKeepsInv(ops[..|ops| - 1]);
      DeliveredGrows(before, op);
      if id < |before.delivered| {
        StepNeverRaisesRank(before, op, id);
      } else {
        assert IndexOf(before.items, id).None?;
        assert !StatusChanged(before, Step(before, op), id);
      }
    }
  }

  /** An answer, once delivered, is never retracted or replaced. */
  lemma {:induction false} AnswersAreFinal(st: Store, op: Op, id: nat)
    requires Inv(st) && id < |st.delivered| && st.delivered[id] != []
    ensures id < |Step(st, op).delivered| && Step(st, op).delivered[id] == st.delivered[id]
  {
    if op.OpCompleteUrl? {
      var u := IndexOfUrl(st.items, op.urlId);
      if u.Some? { IndexIs(st.items, u.value); }
    }
  }

  /** Only a dismissal removes entries; every other operation keeps ids and modes in place. */
  lemma {:induction false} IdsStay(st: Store, op: Op)
    requires !op.OpClear? && !op.OpClearResolved?
    ensures var st' := Step(st, op);
            && |st.items| <= |st'.items| <= |st.items| + 1
            && (forall i :: 0 <= i < |st.items| ==> st'.items[i].id == st.items[i].id && st'.items[i].mode == st.items[i].mode)
            && |st'.delivered| - |st.delivered| == |st'.items| - |st.items|
            && (|st'.items| > |st.items| ==> st'.items[|st.items|].id == |st.delivered|)
  {
    match op
    case OpRespond(id, action) =>
      var i := IndexOf(st.items, id);
      if i.Some? { PutKeepsIds(st, i.value, Responded(st.items[i.value], action)); }
    case OpCompleteUrl(urlId) =>
      var u := IndexOfUrl(st.items, urlId);
      if u.Some? {
        var i := IndexOf(st.items, st.items[u.value].id);
        PutKeepsIds(st, i.value, UrlCompleted(st.items[i.value]));
      }
    case OpCancel(id) =>
      var i := IndexOf(st.items, id);
      if i.Some? { PutKeepsIds(st, i.value, EntryCanceled(st.items[i.value], true)); }
    case OpCancelAll => CancelWhereKeepsIds(st, Anyone);
    case OpCancelRequest(r) => CancelWhereKeepsIds(st, ForRequest(r));
    case OpRequest(_, _, _) =>
  }

  lemma {:induction false} CancelWhereKeepsIds(st: Store, selected: Elicitation -> bool)
    ensures var st' := CancelWhere(st, selected);
            && |st'.items| == |st.items| && |st'.delivered| == |st.delivered|
            && (forall i :: 0 <= i < |st.items| ==> st'.items[i].id == st.items[i].id && st'.items[i].mode == st.items[i].mode)
  {
  }

  lemma {:induction false} PutKeepsIds(st: Store, i: nat, o: Outcome)
    requires i < |st.items| && o.entry.id == st.items[i].id && o.entry.mode == st.items[i].mode
    ensures var st' := Put(st, i, o);
            && |st'.items| == |st.items| && |st'.delivered| == |st.delivered|
            && (forall j :: 0 <= j < |st.items| ==> st'.items[j].id == st.items[j].id && st'.items[j].mode == st.items[j].mode)
  {
  }

  // ---------- what each operation does ----------

  /** All but the entry at `i` stay as they are, and so does every channel but its own. */
  ghost predicate OnlyOneTouched(st: Store, st': Store, i: nat)
    requires i < |st.items|
  {
    && |st'.items| == |st.items| && |st'.delivered| == |st.delivered|
    && st'.items[i] == st.items[i].(status := st'.items[i].status)
    && (forall j :: 0 <= j < |st.items| && j != i ==> st'.items[j] == st.items[j])
    && (forall c :: 0 <= c < |st.delivered| && c != st.items[i].id ==> st'.delivered[c] == st.delivered[c])
  }

  /**
   A response reaches exactly a pending entry: the entry is accepted, declined or canceled by it,
   and its receiver gets this very response; any other entry is left alone.
   */
  lemma {:induction false} ResponseReachesPending(st: Store, i: nat, action: Action)
    requires Inv(st) && i < |st.items|
    ensures var e, op := st.items[i], OpRespond(st.items[i].id, action);
            var st' := Step(st, op);
            if e.status.Pending? then
              && OnlyOneTouched(st, st', i) && Reports(st, op) == [e.id]
              && (action.Accept? ==> st'.items[i].status.Accepted?)
              && (action.Decline? ==> st'.items[i].status.Declined?)
              && (action.Cancel? || action.OtherAction? ==> st'.items[i].status.Canceled?)
              && st'.delivered[e.id] == [action]
            else st' == st && Reports(st, op) == []
  {
    IndexIs(st.items, i);
  }

  /**
   Completing a link reaches the newest entry of its url: a pending one is completed and accepted
   for its receiver, an accepted one is completed, and any other is left alone.
   */
  lemma {:induction false} CompletionReachesNewest(st: Store, urlId: nat, i: nat)
    requires Inv(st) && i < |st.items| && st.items[i].mode == Url(urlId)
    requires forall j :: i < j < |st.items| ==> st.items[j].mode != Url(urlId)
    ensures var e, op := st.items[i], OpCompleteUrl(urlId);
            var st' := Step(st, op);
            if e.status.Pending? || e.status.Accepted? then
              && OnlyOneTouched(st, st', i) && Reports(st, op) == [e.id]
              && st'.items[i].status.Completed? && st'.delivered[e.id] == [Accept]
            else st' == st && Reports(st, op) == []
  {
    IndexIs(st.items, i);
  }

  /** Canceling one entry reaches it while it is pending, or an accepted link. */
  lemma {:induction false} CancelReachesUnresolved(st: Store, i: nat)
    requires Inv(st) && i < |st.items|
    ensures var e, op := st.items[i], OpCancel(st.items[i].id);
            var st' := Step(st, op);
            if e.status.Pending? || (e.status.Accepted? && e.mode.Url?) then
              && OnlyOneTouched(st, st', i) && Reports(st, op) == [e.id]
              && st'.items[i].status.Canceled?
              && st'.delivered[e.id] == (if e.status.Pending? then [Cancel] else st.delivered[e.id])
            else st' == st && Reports(st, op) == []
  {
    IndexIs(st.items, i);
  }

  /** An operation on an id or url that is not in the store does nothing. */
  lemma {:induction false} UnknownIsIgnored(st: Store, op: Op)
    requires op.OpRespond? || op.OpCancel? ==> forall i :: 0 <= i < |st.items| ==> st.items[i].id != op.id
    requires op.OpCompleteUrl? ==> forall i :: 0 <= i < |st.items| ==> st.items[i].mode != Url(op.urlId)
    requires op.OpRequest? ==> !op.valid
    requires op.OpRespond? || op.OpCancel? || op.OpCompleteUrl? || op.OpRequest?
    ensures Step(st, op) == st && Reports(st, op) == []
  {
  }

  /**
   Canceling all, or one request's, reaches exactly the entries that are pending and the accepted
   links among them; only those that were pending are told.
   */
  lemma {:induction false} CancelsSelected(st: Store, op: Op, i: nat)
    requires Inv(st) && i < |st.items| && (op.OpCancelAll? || op.OpCancelRequest?)
    ensures var e, st' := st.items[i], Step(st, op);
            && |st'.items| == |st.items| && |st'.delivered| == |st.delivered|
            && (if (op.OpCancelAll? || e.requestId == Some(op.forRequest))
                   && (e.status.Pending? || (e.status.Accepted? && e.mode.Url?))
                then
                  && st'.items[i] == e.(status := Canceled) && e.id in Reports(st, op)
                  && st'.delivered[e.id] == (if e.status.Pending? then [Cancel] else st.delivered[e.id])
                else st'.items[i] == e && st'.delivered[e.id] == st.delivered[e.id] && e.id !in Reports(st, op))
  {
    var selected := if op.OpCancelAll? then Anyone else ForRequest(op.forRequest);
    CancelWherePointwise(st, selected, i);
    CanceledIdsAreTheChanged(st.items, selected, st.items[i].id);
  }

  function Ids(items: seq<Elicitation>): (r: seq<nat>)
    ensures |r| == |items| && forall i :: 0 <= i < |items| ==> r[i] == items[i].id
  {
    seq(|items|, i requires 0 <= i < |items| => items[i].id)
  }

  /** Pending, or an accepted link. */
  predicate Waits(e: Elicitation) {
    e.status.Pending? || (e.status.Accepted? && e.mode.Url?)
  }

  predicate IsSettled(e: Elicitation) {
    !Waits(e)
  }

  /** A dismissal keeps exactly what still waits, in order, and reports the ids of the rest, in order. */
  lemma {:induction false} DismissalKeepsWaiting(st: Store) returns (dropped: seq<Elicitation>)
    ensures var st' := Step(st, OpClearResolved);
            && st'.delivered == st.delivered && Selects(st'.items, st.items, Waits)
            && Selects(dropped, st.items, IsSettled) && Reports(st, OpClearResolved) == Ids(dropped)
  {
    KeptSelects(st.items);
    dropped := DroppedSelects(st.items);
  }

  lemma {:induction false} KeptSelects(items: seq<Elicitation>)
    ensures Selects(Kept(items), items, Waits)
  {
    if items != [] {
      KeptSelects(items[1..]);
      assert ([items[0]] + Kept(items[1..]))[1..] == Kept(items[1..]);
    }
  }

  lemma {:induction false} DroppedSelects(items: seq<Elicitation>) returns (dropped: seq<Elicitation>)
    ensures Selects(dropped, items, IsSettled) && DroppedIds(items) == Ids(dropped)
  {
    if items == [] {
      dropped := [];
    } else {
      var before, e := items[..|items| - 1], items[|items| - 1];
      var rest := DroppedSelects(before);
      SelectsMore(rest, before, e, IsSettled);
      assert before + [e] == items;
      dropped := if IsSettled(e) then rest + [e] else rest;
      OneMoreId(before, rest, e);
    }
  }

  lemma {:induction false} OneMoreId(items: seq<Elicitation>, dropped: seq<Elicitation>, e: Elicitation)
    requires DroppedIds(items) == Ids(dropped)
    ensures DroppedIds(items + [e]) == Ids(if IsSettled(e) then dropped + [e] else dropped)
  {
    assert (items + [e])[..|items|] == items;
    assert DroppedIds(items) + [] == DroppedIds(items);
    assert Ids(dropped + [e]) == Ids(dropped) + [e.id];
  }

  // ---------- cancelling one by one ----------

  lemma {:induction false} CancelWhereNone(st: Store, selected: Elicitation -> bool)
    requires forall e :: !selected(e)
    ensures CancelWhere(st, selected) == st
  {
  }

  /** Cancelling by id, after a selection was canceled, adds that id to the selection. */
  lemma {:induction false} CancelOneById(st: Store, a: Elicitation -> bool, b: Elicitation -> bool, id: nat)
    requires Inv(st) && forall e: Elicitation :: b(e) <==> a(e) || e.id == id
    ensures WithCanceled(CancelWhere(st, a), id) == CancelWhere(st, b)
  {
    var one, all := CancelWhere(st, a), CancelWhere(st, b);
    var at := IndexOf(one.items, id);
    if at.None? {
      assert forall i :: 0 <= i < |st.items| ==> one.items[i].id == st.items[i].id;
      CancelWhereAgrees(st, a, b);
    } else {
      CancelOneMoreAt(st, a, b, at.value);
    }
  }

  lemma {:induction false} CancelWhereAgrees(st: Store, a: Elicitation -> bool, b: Elicitation -> bool)
    requires forall i :: 0 <= i < |st.items| ==> a(st.items[i]) == b(st.items[i])
    ensures CancelWhere(st, a) == CancelWhere(st, b)
  {
  }

  lemma {:induction false} CancelOneMoreAt(st: Store, a: Elicitation -> bool, b: Elicitation -> bool, at: nat)
    requires Inv(st) && at < |st.items|
    requires forall e: Elicitation :: b(e) <==> a(e) || e.id == st.items[at].id
    ensures Put(CancelWhere(st, a), at, EntryCanceled(CancelWhere(st, a).items[at], true)) == CancelWhere(st, b)
  {
    var one, all := CancelWhere(st, a), CancelWhere(st, b);
    var id := st.items[at].id;
    CancelWherePointwise(st, a, at);
    CancelWherePointwise(st, b, at);
    var got := Put(one, at, EntryCanceled(one.items[at], true));
    assert got.items == all.items;
    forall d | 0 <= d < |st.delivered| ensures got.delivered[d] == all.delivered[d] {
      if d != id {
        assert SelectedPending(st.items, a, |st.items|, d) <==> SelectedPending(st.items, b, |st.items|, d);
        assert got.delivered[d] == one.delivered[d];
      }
    }
    assert got.delivered == all.delivered;
  }

  // ---------- the store as an object ----------

  /** The store object: entries are updated where they stand, and sending consumes the channel. */
  class ElicitationStore {
    var elicitations: seq<Elicitation>
    var delivered: seq<seq<Action>>

    ghost function State(): Store
      reads this
    {
      Store(elicitations, delivered)
    }

    ghost predicate Valid()
      reads this
    {
      Inv(State())
    }

    constructor ()
      ensures Valid() && State() == EMPTY
    {
      elicitations, delivered := [], [];
    }

    method InsertPending(mode: Mode, requestId: Option<nat>) returns (id: nat)
      requires Valid()
      modifies this
      ensures Valid() && id == |old(delivered)|
      ensures State() == Step(old(State()), OpRequest(mode, requestId, true))
    {
      StepKeepsInv(State(), OpRequest(mode, requestId, true));
      id := |delivered|;
      delivered := delivered + [[]];
      elicitations := elicitations + [Elicitation(id, mode, requestId, Pending)];
    }

    method Find(id: nat) returns (i: Option<nat>)
      ensures i == IndexOf(elicitations, id)
    {
      var k := |elicitations|;
      i := None;
      assert elicitations[..k] == elicitations;
      while k > 0
        invariant 0 <= k <= |elicitations|
        invariant IndexOf(elicitations, id) == IndexOf(elicitations[..k], id)
      {
        k := k - 1;
        assert elicitations[..k + 1][..k] == elicitations[..k];
        if elicitations[k].id == id {
          return Some(k);
        }
      }
    }

    method FindUrl(urlId: nat) returns (i: Option<nat>)
      ensures i == IndexOfUrl(elicitations, urlId)
    {
      var k := |elicitations|;
      i := None;
      assert elicitations[..k] == elicitations;
      while k > 0
        invariant 0 <= k <= |elicitations|
        invariant IndexOfUrl(elicitations, urlId) == IndexOfUrl(elicitations[..k], urlId)
      {
        k := k - 1;
        assert elicitations[..k + 1][..k] == elicitations[..k];
        if elicitations[k].mode == Url(urlId) {
          return Some(k);
        }
      }
    }

    /** Uses up the sender of `id`. */
    method Send(id: nat, action: Action)
      requires id < |delivered|
      modifies this`delivered
      ensures delivered == old(delivered)[id := old(delivered)[id] + [action]]
    {
      delivered := delivered[id := delivered[id] + [action]];
    }

    method RespondById(id: nat, action: Action) returns (changed: bool)
      requires Valid()
      modifies this
      ensures Valid() && State() == Step(old(State()), OpRespond(id, action))
      ensures changed <==> Reports(old(State()), OpRespond(id, action)) == [id]
      ensures !changed ==> State() == old(State())
    {
      StepKeepsInv(State(), OpRespond(id, action));
      var i := Find(id);
      if i.None? || !elicitations[i.value].status.Pending? {
        return false;
      }
      elicitations := elicitations[i.value := elicitations[i.value].(status := StatusForResponse(action))];
      Send(id, action);
      changed := true;
    }

    method CompleteById(id: nat) returns (changed: bool)
      requires Valid()
      requires forall i :: 0 <= i < |elicitations| && elicitations[i].id == id ==> elicitations[i].mode.Url?
      modifies this
      ensures Valid() && State() == WithCompleted(old(State()), id)
      ensures changed <==> IndexOf(old(elicitations), id).Some?
                           && UrlCompleted(old(elicitations)[IndexOf(old(elicitations), id).value]).changed
      ensures !changed ==> State() == old(State())
    {
      var i := Find(id);
      if i.None? {
        return false;
      }
      PutKeepsInv(State(), i.value, UrlCompleted(elicitations[i.value]));
      var previous := elicitations[i.value].status;
      elicitations := elicitations[i.value := elicitations[i.value].(status := Completed)];
      match previous
      case Pending =>
        Send(id, Accept);
        changed := true;
      case Accepted =>
        changed := true;
      case Completed =>
        changed := false;
      case Declined | Canceled =>
        elicitations := elicitations[i.value := elicitations[i.value].(status := previous)];
        assert elicitations == old(elicitations);
        changed := false;
    }

    method CompleteUrlElicitation(urlId: nat) returns (updated: seq<nat>)
      requires Valid()
      modifies this
      ensures Valid() && State() == Step(old(State()), OpCompleteUrl(urlId))
      ensures updated == Reports(old(State()), OpCompleteUrl(urlId))
    {
      updated := [];
      var u := FindUrl(urlId);
      if u.None? {
        return;
      }
      var id := elicitations[u.value].id;
      IndexIs(elicitations, u.value);
      var changed := CompleteById(id);
      if changed {
        updated := [id];
      }
    }

    method CancelById(id: nat) returns (changed: bool)
      requires Valid()
      modifies this
      ensures Valid() && State() == Step(old(State()), OpCancel(id))
      ensures changed <==> Reports(old(State()), OpCancel(id)) == [id]
      ensures !changed ==> State() == old(State())
    {
      StepKeepsInv(State(), OpCancel(id));
      var i := Find(id);
      if i.None? {
        return false;
      }
      changed := CancelAt(i.value);
    }

    /** Cancels the entry at an index, restoring the previous status when that is not allowed. */
    method CancelAt(i: nat) returns (changed: bool)
      requires i < |elicitations| && elicitations[i].id < |delivered|
      modifies this
      ensures State() == Put(old(State()), i, EntryCanceled(old(elicitations)[i], true))
      ensures changed == EntryCanceled(old(elicitations)[i], true).changed
    {
      var previous := elicitations[i].status;
      elicitations := elicitations[i := elicitations[i].(status := Canceled)];
      if previous.Pending? {
        Send(elicitations[i].id, Cancel);
        changed := true;
      } else if previous.Accepted? && elicitations[i].mode.Url? {
        changed := true;
      } else {
        elicitations := elicitations[i := elicitations[i].(status := previous)];
        changed := false;
      }
    }

    method CancelPending(selected: Elicitation -> bool) returns (canceled: seq<nat>)
      requires Valid()
      modifies this
      ensures Valid() && State() == CancelWhere(old(State()), selected)
      ensures canceled == CanceledIds(old(elicitations), selected)
    {
      ghost var st := State();
      canceled := [];
      var k := 0;
      assert State() == CancelFirst(st, selected, 0);
      while k < |elicitations|
        invariant k <= |elicitations| == |st.items|
        invariant State() == CancelFirst(st, selected, k)
        invariant canceled == CanceledIds(st.items[..k], selected)
      {
        CancelOneMore(st, selected, k);
        assert st.items[..k + 1][..k] == st.items[..k];
        if selected(elicitations[k]) {
          var id := elicitations[k].id;
          var changed := CancelAt(k);
          if changed {
            canceled := canceled + [id];
          }
        }
        k := k + 1;
      }
      assert st.items[..k] == st.items;
      CancelWhereKeepsInv(st, selected);
    }

    method CancelAll() returns (updated: seq<nat>)
      requires Valid()
      modifies this
      ensures Valid() && State() == Step(old(State()), OpCancelAll) && updated == Reports(old(State()), OpCancelAll)
    {
      updated := CancelPending(Anyone);
    }

    method CancelRequest(r: nat) returns (updated: seq<nat>)
      requires Valid()
      modifies this
      ensures Valid() && State() == Step(old(State()), OpCancelRequest(r)) && updated == Reports(old(State()), OpCancelRequest(r))
    {
      updated := CancelPending(ForRequest(r));
    }

    method Clear() returns (updated: seq<nat>)
      requires Valid()
      modifies this
      ensures Valid() && State() == Step(old(State()), OpClear) && updated == Reports(old(State()), OpClear)
    {
      StepKeepsInv(State(), OpClear);
      updated := CancelPending(Anyone);
      elicitations := [];
    }

    method ClearResolved() returns (cleared: seq<nat>)
      requires Valid()
      modifies this
      ensures Valid() && State() == Step(old(State()), OpClearResolved) && cleared == Reports(old(State()), OpClearResolved)
    {
      StepKeepsInv(State(), OpClearResolved);
      var kept;
      kept, cleared := Partition();
      elicitations := kept;
    }

    method Partition() returns (kept: seq<Elicitation>, dropped: seq<nat>)
      ensures kept == Kept(elicitations) && dropped == DroppedIds(elicitations)
    {
      kept, dropped := [], [];
      var k := 0;
      while k < |elicitations|
        invariant k <= |elicitations|
        invariant kept + Kept(elicitations[k..]) == Kept(elicitations)
        invariant dropped == DroppedIds(elicitations[..k])
      {
        assert elicitations[k..][1..] == elicitations[k + 1..];
        assert elicitations[..k + 1][..k] == elicitations[..k];
        if Unresolved(elicitations[k]) {
          kept := kept + [elicitations[k]];
        } else {
          dropped := dropped + [elicitations[k].id];
        }
        k := k + 1;
      }
      assert elicitations[..k] == elicitations;
    }
  }

  /** One round of the cancelling loop. */
  lemma {:induction false} CancelOneMore(st: Store, selected: Elicitation -> bool, k: nat)
    requires Inv(st) && k < |st.items|
    ensures CancelFirst(st, selected, k).items[k] == st.items[k]
    ensures CancelFirst(st, selected, k + 1)
            == if selected(st.items[k]) then Put(CancelFirst(st, selected, k), k, EntryCanceled(st.items[k], true))
               else CancelFirst(st, selected, k)
  {
  }
}
