/**
 What cancelling and finishing leave behind: a cancelled or failed turn leaves nothing waiting,
 and the late completion of an older turn leaves the newer one alone.
 */
module ThreadCancel {
  import opened Prelude
  import Content
  import opened ThreadModel
  import opened ThreadInvariants
  import T = ToolCalls
  import E = Elicitations

  // ---------- quiescence ----------

  /** A call that has neither ended nor been refused. */
  predicate Unsettled(status: T.Status) {
    status.Pending? || status.WaitingForConfirmation? || status.InProgress?
  }

  /** An elicitation that waits for the user, or for an accepted link to be completed. */
  predicate Outstanding(x: E.Elicitation) {
    x.status.Pending? || (x.status.Accepted? && x.mode.Url?)
  }

  /** Nothing in the timeline is pending, waiting or in progress. */
  ghost predicate Quiet(s: State) {
    && (forall i :: 0 <= i < |s.entries| && s.entries[i].ToolCall? ==> !Unsettled(s.entries[i].call.status))
    && (forall i :: 0 <= i < |s.entries| && s.entries[i].ContextCompaction? ==> !s.entries[i].status.CompactionInProgress?)
    && (forall j :: 0 <= j < |s.elicitations.items| && Elicitation(s.elicitations.items[j].id) in s.entries ==>
          !Outstanding(s.elicitations.items[j]))
  }

  /** How a permission prompt's receiver sees it. */
  datatype Fate = Open | Selected(choice: Choice) | Dropped

  ghost predicate Owned(entries: seq<Entry>, c: nat) {
    exists i :: 0 <= i < |entries| && ChannelOf(entries[i]) == Some(c)
  }

  ghost function FateOf(s: State, c: nat): Fate
    requires c < |s.permissions|
  {
    if s.permissions[c] != [] then Selected(s.permissions[c][0])
    else if Owned(s.entries, c) then Open
    else Dropped
  }

  /** Exactly the outstanding elicitations that the timeline shows are canceled, and those that were pending are told so. */
  ghost predicate ShownAreCanceled(s: State, t: State) {
    && |t.elicitations.items| == |s.elicitations.items|
    && |t.elicitations.delivered| == |s.elicitations.delivered|
    && (forall j :: 0 <= j < |s.elicitations.items| ==> CanceledIfShown(s, t, j))
  }

  ghost predicate CanceledIfShown(s: State, t: State, j: nat)
    requires j < |s.elicitations.items| == |t.elicitations.items|
    requires |t.elicitations.delivered| == |s.elicitations.delivered|
  {
    var x, x' := s.elicitations.items[j], t.elicitations.items[j];
    && x.id < |s.elicitations.delivered|
    && var got, got' := s.elicitations.delivered[x.id], t.elicitations.delivered[x.id];
    if Elicitation(x.id) in s.entries && Outstanding(x)
    then x' == x.(status := E.Canceled) && got' == (if x.status.Pending? then got + [E.Cancel] else got)
    else x' == x && got' == got
  }

  /**
   The order is kept; every entry that is not a pending, waiting or running call or a running
   compaction is unchanged; and so is every elicitation that the timeline does not show or that
   is settled. Every open permission prompt is dropped, which its receiver reads as cancelled.
   */
  ghost predicate OnlyQuieted(s: State, t: State) {
    && |t.entries| == |s.entries|
    && (forall i :: 0 <= i < |s.entries| ==>
          var e, e' := s.entries[i], t.entries[i];
          if e.ToolCall? && Unsettled(e.call.status) then e' == ToolCall(e.call.(status := T.Canceled))
          else if e.ContextCompaction? && e.status.CompactionInProgress? then e' == e.(status := CompactionCanceled)
          else e' == e)
    && ShownAreCanceled(s, t)
    && t.permissions == s.permissions
    && (forall c :: 0 <= c < |s.permissions| ==> FateOf(t, c) == if FateOf(s, c).Open? then Dropped else FateOf(s, c))
  }

  lemma {:induction false} MarkedInTimeline(entries: seq<Entry>, id: nat)
    ensures Elicitation(id) in MarkCanceled(entries) <==> Elicitation(id) in entries
  {
  }

  lemma {:induction false} ShownCancelWorks(s: State, t: State, shown: seq<Entry>)
    requires E.Inv(s.elicitations) && (shown == s.entries || shown == MarkCanceled(s.entries))
    requires t.elicitations == E.CancelWhere(s.elicitations, InTimeline(shown))
    ensures ShownAreCanceled(s, t)
  {
    forall j | 0 <= j < |s.elicitations.items| ensures CanceledIfShown(s, t, j) {
      MarkedInTimeline(s.entries, s.elicitations.items[j].id);
      E.CancelWherePointwise(s.elicitations, InTimeline(shown), j);
    }
  }

  /** Cancelling all entries of the timeline and the elicitations they show, in either order. */
  lemma {:induction false} QuietingWorks(s: State, t: State, shown: seq<Entry>)
    requires CallsOk(s.entries, s.permissions) && E.Inv(s.elicitations)
    requires shown == s.entries || shown == MarkCanceled(s.entries)
    requires t.entries == MarkCanceled(s.entries) && t.permissions == s.permissions
    requires t.elicitations == E.CancelWhere(s.elicitations, InTimeline(shown))
    ensures Quiet(t) && OnlyQuieted(s, t)
  {
    forall i | 0 <= i < |t.entries| ensures ChannelOf(t.entries[i]).None? {
      assert t.entries[i] == CanceledEntry(s.entries[i]);
    }
    ShownCancelWorks(s, t, shown);
    forall j | 0 <= j < |t.elicitations.items| && Elicitation(t.elicitations.items[j].id) in t.entries
      ensures !Outstanding(t.elicitations.items[j])
    {
      MarkedInTimeline(s.entries, s.elicitations.items[j].id);
      assert CanceledIfShown(s, t, j);
    }
    forall c | 0 <= c < |s.permissions|
      ensures FateOf(t, c) == if FateOf(s, c).Open? then Dropped else FateOf(s, c)
    {
      assert !Owned(t.entries, c);
    }
  }

  /** Cancelling a running turn leaves the timeline quiet, and changes nothing else in it. */
  lemma {:induction false} CancelQuiets(s: State)
    requires CallsOk(s.entries, s.permissions) && E.Inv(s.elicitations) && s.running.Some?
    ensures var t := Cancel(s);
            && t.running.None? && Quiet(t) && OnlyQuieted(s, t)
            && t == s.(running := None, buffer := None, markdown := Flushed(s).markdown,
                       entries := t.entries, elicitations := t.elicitations)
  {
    QuietingWorks(s, Cancel(s), s.entries);
  }

  /** An idle cancel flushes the text and cancels the elicitations the timeline shows; no entry changes. */
  lemma {:induction false} IdleCancelTouchesOnlyElicitations(s: State)
    requires E.Inv(s.elicitations) && s.running.None?
    ensures var t := Cancel(s);
            && t == s.(buffer := None, markdown := Flushed(s).markdown, elicitations := t.elicitations)
            && ShownAreCanceled(s, t)
  {
    ShownCancelWorks(s, Cancel(s), s.entries);
  }

  /** How a turn ends when it does not complete. */
  predicate EndsBadly(t: Task) {
    t == Replied(Failure) || t == Replied(Response(MaxTokens)) || t == Replied(Response(MaxTurnRequests))
    || t == Replied(Response(Cancelled))
  }

  /** So does the running turn's own completion by error, limit or cancellation. */
  lemma {:induction false} BadEndQuiets(s: State, k: nat)
    requires CallsOk(s.entries, s.permissions) && E.Inv(s.elicitations)
    requires CanFinish(s, k) && IsSame(s, k) && EndsBadly(s.tasks[k])
    ensures var t := Finish(s, k);
            && t.running.None? && Quiet(t) && OnlyQuieted(s, t)
            && (t.hadError <==> s.hadError || s.tasks[k] != Replied(Response(Cancelled)))
            && t.buffer.None? && t.markdown == Flushed(s).markdown && t.plan == s.plan
  {
    QuietingWorks(s, Finish(s, k), MarkCanceled(s.entries));
  }

  /** So it is in every run: whenever the running turn is cancelled or ends badly, the timeline falls quiet. */
  lemma {:induction false} EveryRunFallsQuiet(events: seq<Event>, k: nat)
    requires Run(events).running.Some?
    ensures var s, t := Run(events), Run(events + [Turn(CancelTurn)]);
            t.running.None? && Quiet(t) && OnlyQuieted(s, t)
    ensures var s, t := Run(events), Run(events + [Turn(FinishTurn(k))]);
            CanFinish(s, k) && IsSame(s, k) && EndsBadly(s.tasks[k]) ==> t.running.None? && Quiet(t) && OnlyQuieted(s, t)
  {
    var s := Run(events);
    RunKeepsCalls(events);
    RunKeepsElicitations(events);
    RunAppend(events, Turn(CancelTurn));
    RunAppend(events, Turn(FinishTurn(k)));
    CancelQuiets(s);
    if CanFinish(s, k) && IsSame(s, k) && EndsBadly(s.tasks[k]) { BadEndQuiets(s, k); }
  }

  // ---------- stale completions ----------

  /** The timeline kept what it had: it may have gained a completed plan, or lost its end to a refusal. */
  ghost predicate Survives(s: State, t: State) {
    && (forall i :: 0 <= i < |s.entries| && i < |t.entries| ==> t.entries[i] == s.entries[i])
    && (|t.entries| > |s.entries| ==> |t.entries| == |s.entries| + 1 && t.entries[|s.entries|] == CompletedPlan(s.plan))
    && (|t.entries| < |s.entries| ==> LastUser(s.entries) == Some(|t.entries|))
  }

  /** A late completion that sets the error flag, though a newer turn may be running. */
  predicate FailsLate(t: Task) {
    t == Replied(Failure) || t == Replied(Response(MaxTokens)) || t == Replied(Response(Refusal))
  }

  /**
   The completion of an older turn never ends the newer one, and changes the status of no tool
   call, compaction or elicitation that survives it; a limit on requests that it reports late
   is ignored altogether. But a late failure, token limit or refusal still sets the error flag.
   */
  lemma {:induction false} StaleFinishLeavesNewTurnAlone(s: State, k: nat)
    requires CanFinish(s, k) && !IsSame(s, k)
    ensures var t := Finish(s, k);
            && t.running == s.running && t.turnId == s.turnId
            && t.elicitations == s.elicitations && t.permissions == s.permissions
            && Survives(s, t)
            && (s.tasks[k] == Replied(Response(MaxTurnRequests)) ==> t == s.(tasks := t.tasks))
            && (s.tasks[k].SenderDropped? ==> t == s.(tasks := t.tasks))
            && (t.hadError <==> s.hadError || FailsLate(s.tasks[k]))
            && (|t.entries| < |s.entries| ==> s.tasks[k] == Replied(Response(Refusal)))
  {
    FinishLeavesOrEnds(s, k);
    FinishKeepsPermissions(s, k);
    if s.tasks[k].Replied? && s.tasks[k].answer.Response? {
      var u := Flushed(s.(tasks := s.tasks[k := Finished]));
      assert u.entries == s.entries && u.elicitations == s.elicitations && u.plan == s.plan;
      StaleResponse(u, s.tasks[k].answer.stop);
    }
  }

  lemma {:induction false} FinishKeepsPermissions(s: State, k: nat)
    requires CanFinish(s, k)
    ensures Finish(s, k).permissions == s.permissions
  {
    if s.tasks[k].Replied? && s.tasks[k].answer.Response? {
      var u := (if IsSame(s, k) then s.(running := None) else s).(tasks := s.tasks[k := Finished]);
      ResponseKeepsPermissions(Flushed(u), s.tasks[k].answer.stop, IsSame(s, k));
    }
  }

  lemma {:induction false} ResponseKeepsPermissions(s: State, stop: StopReason, same: bool)
    ensures FinishResponse(s, stop, same).permissions == s.permissions
  {
  }

  lemma {:induction false} StaleResponse(s: State, stop: StopReason)
    ensures var t := FinishResponse(s, stop, false);
            && Survives(s, t) && t.elicitations == s.elicitations && (|t.entries| < |s.entries| ==> stop.Refusal?)
            && (t.hadError <==> s.hadError || stop.MaxTokens? || stop.MaxTurnRequests? || stop.Refusal?)
  {
    match stop
    case MaxTokens | MaxTurnRequests | Cancelled =>
    case EndTurn => SnapshotAddsPlan(s);
    case Refusal => StaleRefusal(s);
  }

  lemma {:induction false} StaleRefusal(s: State)
    ensures var t := Refuse(SnapshotCompletedPlan(s));
            Survives(s, t) && t.elicitations == s.elicitations && t.hadError
  {
    SnapshotAddsPlan(s);
    RefusalCuts(SnapshotCompletedPlan(s));
    LastUserBefore(s.entries, CompletedPlan(s.plan));
  }

  lemma {:induction false} LastUserBefore(entries: seq<Entry>, e: Entry)
    requires !e.UserMessage?
    ensures LastUser(entries + [e]) == LastUser(entries)
  {
  }

  /**
   A late refusal is not harmless: it cuts the timeline exactly when there is a prompt that no
   completed tool call with output follows, and then it takes back the newest prompt, which may
   be the one of the turn that is now running.
   */
  lemma {:induction false} StaleRefusalCutsExactlyWhen(s: State, k: nat)
    requires CanFinish(s, k) && !IsSame(s, k) && s.tasks[k] == Replied(Response(Refusal))
    ensures var u := LastUser(s.entries);
            var t := Finish(s, k);
            && (|t.entries| < |s.entries| <==> u.Some? && !HasToolOutputAfter(s.entries, u.value))
            && (|t.entries| < |s.entries| ==> t.entries == s.entries[..u.value])
  {
    var f := Flushed(s.(tasks := s.tasks[k := Finished]));
    assert f.entries == s.entries && f.plan == s.plan;
    SnapshotAddsPlan(f);
    var v := SnapshotCompletedPlan(f);
    LastUserBefore(s.entries, CompletedPlan(s.plan));
    var u := LastUser(s.entries);
    if u.Some? { OutputBefore(s.entries, CompletedPlan(s.plan), u.value); }
    assert Finish(s, k).entries == Refuse(v).entries;
  }

  lemma {:induction false} OutputBefore(entries: seq<Entry>, e: Entry, from: nat)
    requires !e.ToolCall?
    ensures HasToolOutputAfter(entries + [e], from) <==> HasToolOutputAfter(entries, from)
  {
    var more := entries + [e];
    if HasToolOutputAfter(entries, from) {
      var i :| from < i < |entries| && entries[i].ToolCall? && entries[i].call.status.Completed? && entries[i].call.hasOutput;
      assert more[i] == entries[i];
    }
  }

  lemma {:induction false} SendFromQuiet(s: State)
    requires s.entries == MarkCanceled(s.entries) && s.buffer.None? && s.plan == []
    ensures var t := RunTurn(s);
            && t.entries == s.entries && t.buffer.None? && t.plan == [] && !t.hadError
            && t.turnId == (s.turnId + 1) % 0x1_0000_0000 && t.running == Some(t.turnId) && t.tasks == s.tasks + [Working]
  {
  }

  /** A prompt shown by a body. */
  const BARE_PROMPT := UserMessage(UserText(None, None, true, Content.Empty, [], false))

  /** That is reachable: the first turn's late refusal removes the second turn's prompt, and sets its error flag. */
  lemma LateRefusalRemovesNewerPrompt()
    ensures var prompt0, prompt1 := Body(PromptPushed(0, None, [])), Body(PromptPushed(1, None, []));
            var s := Run([Turn(Send)] + [prompt0] + [Body(BodyDone(0, Response(Refusal)))] + [Turn(Send)] + [prompt1]);
            && CanFinish(s, 0) && !IsSame(s, 0) && s.running == Some(2)
            && s.entries == [BARE_PROMPT, BARE_PROMPT] && Finish(s, 0).entries == [BARE_PROMPT]
            && Finish(s, 0).running == Some(2) && !s.hadError && Finish(s, 0).hadError
  {
    var e0, e1, e2, e4 := Turn(Send), Body(PromptPushed(0, None, [])), Body(BodyDone(0, Response(Refusal))), Body(PromptPushed(1, None, []));
    FirstPrompt();
    var first := [e0] + [e1] + [e2];
    RunAppend(first, e0);
    SendFromQuiet(Run(first));
    RunAppend(first + [e0], e4);
    BarePrompt(Run(first + [e0]), 1);
    LateRefusalCuts(Run(first + [e0] + [e4]));
  }

  /** A first turn whose prompt is shown and whose refusal has arrived but is not finished. */
  lemma FirstPrompt()
    ensures var s := Run([Turn(Send)] + [Body(PromptPushed(0, None, []))] + [Body(BodyDone(0, Response(Refusal)))]);
            && s.entries == [BARE_PROMPT] && s.entries == MarkCanceled(s.entries) && s.buffer.None? && s.plan == []
            && s.turnId == 1 && s.tasks == [Replied(Response(Refusal))]
  {
    var e0, e1, e2 := Turn(Send), Body(PromptPushed(0, None, [])), Body(BodyDone(0, Response(Refusal)));
    assert [] + [e0] == [e0];
    RunAppend([], e0);
    SendFromQuiet(INITIAL);
    RunAppend([e0], e1);
    BarePrompt(Run([e0]), 0);
    RunAppend([e0] + [e1], e2);
  }

  lemma {:induction false} BarePrompt(s: State, k: nat)
    requires k < |s.tasks| && s.buffer.None? && s.plan == [] && s.entries == MarkCanceled(s.entries)
    ensures var t := BodyStep(s, PromptPushed(k, None, []));
            t.entries == s.entries + [BARE_PROMPT] && t == s.(entries := t.entries) && t.entries == MarkCanceled(t.entries)
  {
  }

  lemma {:induction false} LateRefusalCuts(s: State)
    requires s.entries == [BARE_PROMPT, BARE_PROMPT] && s.tasks == [Replied(Response(Refusal)), Working] && s.running == Some(2)
    ensures CanFinish(s, 0) && !IsSame(s, 0)
    ensures Finish(s, 0).entries == [BARE_PROMPT] && Finish(s, 0).running == Some(2) && Finish(s, 0).hadError
  {
    StaleRefusalCutsExactlyWhen(s, 0);
    StaleFinishLeavesNewTurnAlone(s, 0);
    FinishLeavesOrEnds(s, 0);
  }

  lemma {:induction false} RunAppend(events: seq<Event>, e: Event)
    ensures Run(events + [e]) == Step(Run(events), e)
  {
    assert (events + [e])[..|events|] == events;
  }
}
