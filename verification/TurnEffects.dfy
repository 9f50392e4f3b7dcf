/**
 What starting, cancelling and finishing a turn do to the thread, told by what the timeline, the
 plan and the flags are before and after, and not by the machine's own functions.
 */
module TurnEffects {
  import opened Prelude
  import opened Utf8
  import opened ThreadModel
  import opened ThreadInvariants
  import opened ThreadCancel
  import T = ToolCalls
  import E = Elicitations

  // ---------- vocabulary ----------

  /** Everything that was pending is at the end of its document, and nothing else was shown. */
  predicate AllShown(s: State, t: State) {
    && t.buffer.None? && |t.markdown| == |s.markdown|
    && forall m :: 0 <= m < |s.markdown| ==>
         t.markdown[m] == if s.buffer.Some? && s.buffer.value.target == m then s.markdown[m] + s.buffer.value.pending else s.markdown[m]
  }

  lemma {:induction false} FlushingShowsAll(s: State, t: State)
    requires t.markdown == Flushed(s).markdown && t.buffer.None?
    ensures AllShown(s, t)
  {
  }

  /** `u` is the newest prompt. */
  predicate NewestPrompt(entries: seq<Entry>, u: nat) {
    && u < |entries| && entries[u].UserMessage?
    && forall j :: u < j < |entries| ==> !entries[j].UserMessage?
  }

  /** A tool call that completed with output, and so one whose output the agent may have refused. */
  predicate GaveOutput(e: Entry) {
    e.ToolCall? && e.call.status.Completed? && e.call.hasOutput
  }

  /** The newest prompt, and nothing after it that gave output. */
  predicate RefusedPrompt(entries: seq<Entry>, u: nat) {
    NewestPrompt(entries, u) && forall i :: u < i < |entries| ==> !GaveOutput(entries[i])
  }

  /** There is a plan, and nothing in it is still to be done. */
  predicate PlanIsDone(plan: seq<PlanEntry>) {
    plan != [] && forall i :: 0 <= i < |plan| ==> !plan[i].status.PlanPending? && !plan[i].status.PlanInProgress?
  }

  function ShownPlan(plan: seq<PlanEntry>): seq<Entry> {
    if PlanIsDone(plan) then [CompletedPlan(plan)] else []
  }

  function PlanLeft(plan: seq<PlanEntry>): seq<PlanEntry> {
    if PlanIsDone(plan) then [] else plan
  }

  /** What every completion does, whatever the answer: its task is over, and its own turn has ended. */
  predicate CompletionFrame(s: State, t: State, k: nat)
    requires k < |s.tasks|
  {
    && t.tasks == s.tasks[k := Finished]
    && t.turnId == s.turnId && t.running == (if s.running == Some((k + 1) % 0x1_0000_0000) then None else s.running)
    && t.permissions == s.permissions && t.terminals == s.terminals
  }

  lemma {:induction false} FinishFrame(s: State, k: nat)
    requires CanFinish(s, k)
    ensures CompletionFrame(s, Finish(s, k), k)
  {
    FinishLeavesOrEnds(s, k);
    FinishKeepsPermissions(s, k);
    FinishKeepsTerminals(s, k);
  }

  lemma {:induction false} FinishKeepsTerminals(s: State, k: nat)
    requires CanFinish(s, k)
    ensures Finish(s, k).terminals == s.terminals
  {
    if s.tasks[k].Replied? && s.tasks[k].answer.Response? {
      var u := (if IsSame(s, k) then s.(running := None) else s).(tasks := s.tasks[k := Finished]);
      ResponseKeepsTerminals(Flushed(u), s.tasks[k].answer.stop, IsSame(s, k));
    }
  }

  lemma {:induction false} ResponseKeepsTerminals(s: State, stop: StopReason, same: bool)
    ensures FinishResponse(s, stop, same).terminals == s.terminals
  {
  }

  // ---------- the plan at the end of a turn ----------

  lemma {:induction false} SnapshotShowsPlan(s: State)
    requires s.buffer.None?
    ensures SnapshotCompletedPlan(s) == s.(entries := s.entries + ShownPlan(s.plan), plan := PlanLeft(s.plan))
  {
    assert s.entries + [] == s.entries;
  }

  /**
   A turn that ends well, running or late: a plan in which nothing is left to do moves to the end of
   the timeline, any other plan stays, and nothing else in the timeline changes.
   */
  lemma {:induction false} EndOfTurnShowsPlan(s: State, k: nat)
    requires k < |s.tasks| && s.tasks[k] == Replied(Response(EndTurn))
    ensures var t := Step(s, Turn(FinishTurn(k)));
            && CompletionFrame(s, t, k) && AllShown(s, t)
            && t.entries == s.entries + ShownPlan(s.plan) && t.plan == PlanLeft(s.plan)
            && t.elicitations == s.elicitations && t.hadError == s.hadError
  {
    FinishFrame(s, k);
    var u := (if IsSame(s, k) then s.(running := None) else s).(tasks := s.tasks[k := Finished]);
    SnapshotShowsPlan(Flushed(u));
    FlushingShowsAll(s, Finish(s, k));
  }

  // ---------- refusals ----------

  lemma {:induction false} NewestIs(entries: seq<Entry>, u: nat)
    requires NewestPrompt(entries, u)
    ensures LastUser(entries) == Some(u)
  {
  }

  lemma {:induction false} PlanIsNoPrompt(entries: seq<Entry>, plan: seq<PlanEntry>, u: nat)
    ensures var more := entries + ShownPlan(plan);
            (RefusedPrompt(more, u) <==> RefusedPrompt(entries, u)) && (RefusedPrompt(entries, u) ==> more[..u] == entries[..u])
  {
    var more := entries + ShownPlan(plan);
    assert forall i :: 0 <= i < |entries| ==> more[i] == entries[i];
    assert forall i :: |entries| <= i < |more| ==> more[i].CompletedPlan?;
  }

  lemma {:induction false} RefuseCuts(s: State)
    ensures var t := Refuse(s);
            && t == s.(hadError := true, entries := t.entries)
            && (forall u: nat :: RefusedPrompt(s.entries, u) ==> t.entries == s.entries[..u])
            && ((forall u: nat :: !RefusedPrompt(s.entries, u)) ==> t.entries == s.entries)
  {
    var l := LastUser(s.entries);
    forall u: nat | RefusedPrompt(s.entries, u) ensures l == Some(u) { NewestIs(s.entries, u); }
    if l.Some? && !HasToolOutputAfter(s.entries, l.value) {
      assert forall i :: l.value < i < |s.entries| ==> !GaveOutput(s.entries[i]);
      assert RefusedPrompt(s.entries, l.value);
    }
  }

  lemma {:induction false} RefuseAfterPlan(s: State)
    requires s.buffer.None?
    ensures var t := Refuse(SnapshotCompletedPlan(s));
            && t == s.(hadError := true, entries := t.entries, plan := PlanLeft(s.plan))
            && (forall u: nat :: RefusedPrompt(s.entries, u) ==> t.entries == s.entries[..u])
            && ((forall u: nat :: !RefusedPrompt(s.entries, u)) ==> t.entries == s.entries + ShownPlan(s.plan))
  {
    SnapshotShowsPlan(s);
    RefuseCuts(SnapshotCompletedPlan(s));
    forall u: nat ensures RefusedPrompt(s.entries + ShownPlan(s.plan), u) <==> RefusedPrompt(s.entries, u)
      ensures RefusedPrompt(s.entries, u) ==> (s.entries + ShownPlan(s.plan))[..u] == s.entries[..u]
    {
      PlanIsNoPrompt(s.entries, s.plan, u);
    }
  }

  /**
   A refusal, of the running turn or a late one, sets the error flag and takes back the newest prompt
   with all that follows it, unless a completed call gave output since; then, or without any prompt,
   the timeline stays and shows the plan if that is done.
   */
  lemma {:induction false} RefusalTakesBackPrompt(s: State, k: nat)
    requires k < |s.tasks| && s.tasks[k] == Replied(Response(Refusal))
    ensures var t := Step(s, Turn(FinishTurn(k)));
            && CompletionFrame(s, t, k) && AllShown(s, t) && t.hadError
            && (forall u: nat :: RefusedPrompt(s.entries, u) ==> t.entries == s.entries[..u])
            && ((forall u: nat :: !RefusedPrompt(s.entries, u)) ==> t.entries == s.entries + ShownPlan(s.plan))
            && t.plan == PlanLeft(s.plan) && t.elicitations == s.elicitations
  {
    FinishFrame(s, k);
    var u := (if IsSame(s, k) then s.(running := None) else s).(tasks := s.tasks[k := Finished]);
    RefuseAfterPlan(Flushed(u));
    FlushingShowsAll(s, Finish(s, k));
  }

  // ---------- other ends ----------

  /** A dropped sender ends its turn, and a request limit reported late ends nothing; neither does anything more. */
  lemma {:induction false} SilentEnds(s: State, k: nat)
    requires k < |s.tasks|
    requires s.tasks[k].SenderDropped?
             || (s.tasks[k] == Replied(Response(MaxTurnRequests)) && s.running != Some((k + 1) % 0x1_0000_0000))
    ensures var t := Step(s, Turn(FinishTurn(k)));
            CompletionFrame(s, t, k) && t == s.(tasks := t.tasks, running := t.running)
  {
    FinishFrame(s, k);
  }

  /** A failure, token limit or cancellation that comes late only shows the pending text, and the first two set the error flag. */
  lemma {:induction false} LateBadEnd(s: State, k: nat)
    requires k < |s.tasks| && s.running != Some((k + 1) % 0x1_0000_0000)
    requires s.tasks[k] in {Replied(Failure), Replied(Response(MaxTokens)), Replied(Response(Cancelled))}
    ensures var t := Step(s, Turn(FinishTurn(k)));
            && CompletionFrame(s, t, k) && AllShown(s, t)
            && t == s.(tasks := t.tasks, markdown := t.markdown, buffer := None, hadError := t.hadError)
            && (t.hadError <==> s.hadError || s.tasks[k] != Replied(Response(Cancelled)))
  {
    FinishFrame(s, k);
    FlushingShowsAll(s, Finish(s, k));
  }

  /** The running turn's own bad end: the timeline falls quiet, and all else is as it was. */
  lemma {:induction false} OwnBadEnd(s: State, k: nat)
    requires CallsOk(s.entries, s.permissions) && E.Inv(s.elicitations)
    requires k < |s.tasks| && s.running == Some((k + 1) % 0x1_0000_0000)
    requires s.tasks[k] in {Replied(Failure), Replied(Response(MaxTokens)), Replied(Response(MaxTurnRequests)),
                            Replied(Response(Cancelled))}
    ensures var t := Step(s, Turn(FinishTurn(k)));
            && CompletionFrame(s, t, k) && AllShown(s, t) && Quiet(t) && OnlyQuieted(s, t) && t.plan == s.plan
            && (t.hadError <==> s.hadError || s.tasks[k] != Replied(Response(Cancelled)))
  {
    FinishFrame(s, k);
    BadEndQuiets(s, k);
    FlushingShowsAll(s, Finish(s, k));
  }

  // ---------- starting a turn ----------

  predicate NotCompleted(e: PlanEntry) {
    !e.status.PlanCompleted?
  }

  lemma {:induction false} UnfinishedSelects(plan: seq<PlanEntry>)
    ensures Selects(Unfinished(plan), plan, NotCompleted)
  {
    if plan != [] {
      UnfinishedSelects(plan[1..]);
      assert ([plan[0]] + Unfinished(plan[1..]))[1..] == Unfinished(plan[1..]);
    }
  }

  /**
   Sending a prompt starts the next turn and clears the error flag and what is completed in the plan.
   A turn that is running is cancelled first, and falls quiet; otherwise no entry changes.
   */
  lemma {:induction false} SendStartsNextTurn(s: State)
    requires CallsOk(s.entries, s.permissions) && E.Inv(s.elicitations)
    ensures var t := Step(s, Turn(Send));
            && t.turnId == (s.turnId + 1) % 0x1_0000_0000 && t.running == Some(t.turnId) && t.tasks == s.tasks + [Working]
            && !t.hadError && Selects(t.plan, s.plan, NotCompleted) && AllShown(s, t)
            && ShownAreCanceled(s, t)
            && (if s.running.Some? then Quiet(t) && OnlyQuieted(s, t) else t.entries == s.entries)
            && t.permissions == s.permissions && t.terminals == s.terminals
  {
    var p := s.(plan := Unfinished(s.plan), hadError := false);
    UnfinishedSelects(s.plan);
    var t := RunTurn(s);
    FlushingShowsAll(s, t);
    ShownCancelWorks(s, t, s.entries);
    if s.running.Some? {
      assert t.entries == MarkCanceled(s.entries);
      QuietingWorks(s, t, s.entries);
    }
  }

  // ---------- the life of a turn's body ----------

  /** How a task may go on: a body answers or is dropped once, its closure runs once, and a caller may give up before. */
  lemma {:induction false} TaskGoesOn(s: State, e: Event, k: nat)
    requires k < |s.tasks|
    ensures k < |Step(s, e).tasks|
    ensures var task, task' := s.tasks[k], Step(s, e).tasks[k];
            match e
            case Body(BodyDone(j, answer)) => task' == if j == k && task.Working? then Replied(answer) else task
            case Body(BodyDropped(j)) => task' == if j == k && task.Working? then SenderDropped else task
            case Body(AbandonTurn(j)) => task' == if j == k && !task.Finished? then Abandoned else task
            case Turn(FinishTurn(j)) => task' == if j == k && (task.Replied? || task.SenderDropped?) then Finished else task
            case _ => task' == task
  {
    if !e.Turn? {
      OtherStepsLeaveTurns(s, e);
    } else if e.turn.FinishTurn? && CanFinish(s, e.turn.turn) {
      FinishLeavesOrEnds(s, e.turn.turn);
    }
  }
}
