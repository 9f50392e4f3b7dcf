/**
 Everything the thread shows or holds back is well-formed UTF-8 at every moment: a timer tick
 cuts the pending text only at a character boundary.
 */
module ThreadText {
  import opened Prelude
  import opened Utf8
  import opened Content
  import opened ThreadModel
  import ThreadInvariants
  import T = ToolCalls

  predicate ValidMessage(e: MessageEvent) {
    match e
    case AgentChunk(_, c, _, _) => ValidContent(c)
    case UserPush(_, c, _) => ValidContent(c)
    case UserEcho(_, c) => ValidContent(c)
  }

  /** The text an event brings is well formed, as every string of the source is. */
  predicate ValidEvent(e: Event) {
    match e
    case Message(m) => ValidMessage(m)
    case Body(PromptPushed(_, _, prompt)) => forall i :: 0 <= i < |prompt| ==> ValidContent(prompt[i])
    case Compaction(Pushed(_, _, summary)) => summary.Some? ==> Valid(summary.value)
    case Compaction(SummaryExtended(_, delta, _)) => Valid(delta)
    case _ => true
  }

  predicate AllValid(markdown: seq<Text>) {
    forall m :: 0 <= m < |markdown| ==> Valid(markdown[m])
  }

  predicate EntryOk(e: Entry) {
    match e
    case AssistantMessage(chunks, _) => forall c :: 0 <= c < |chunks| ==> ValidBlock(chunks[c].block)
    case UserMessage(message) => ValidBlock(message.content)
    case _ => true
  }

  predicate EntriesOk(entries: seq<Entry>) {
    forall i :: 0 <= i < |entries| ==> EntryOk(entries[i])
  }

  predicate TextOk(s: State) {
    && AllValid(s.markdown)
    && (s.buffer.Some? ==> Valid(s.buffer.value.pending))
    && EntriesOk(s.entries)
  }

  // ---------- documents ----------

  lemma {:induction false} ExtendedIsValid(markdown: seq<Text>, m: nat, text: Text)
    requires AllValid(markdown) && Valid(text)
    ensures AllValid(Extended(markdown, m, text))
  {
    if m < |markdown| { ValidConcat(markdown[m], text); }
  }

  lemma {:induction false} FlushedIsValid(s: State)
    requires TextOk(s)
    ensures TextOk(Flushed(s))
  {
    if s.buffer.Some? { ExtendedIsValid(s.markdown, s.buffer.value.target, s.buffer.value.pending); }
  }

  lemma {:induction false} AbsorbIsValid(markdown: seq<Text>, b: ContentBlock<nat>, c: AcpContent)
    requires AllValid(markdown) && ValidBlock(b) && ValidContent(c)
    ensures AllValid(Absorb(markdown, b, c).markdown) && ValidBlock(Absorb(markdown, b, c).block)
  {
    EffectIsValid(b, c);
    var e := AppendEffect(b, c);
    if e.Extend? { ExtendedIsValid(markdown, b.markdown, e.text); }
  }

  lemma {:induction false} CombinedIsValid(markdown: seq<Text>, b: ContentBlock<nat>, cs: seq<AcpContent>)
    requires AllValid(markdown) && ValidBlock(b)
    requires forall i :: 0 <= i < |cs| ==> ValidContent(cs[i])
    ensures AllValid(Combined(markdown, b, cs).markdown) && ValidBlock(Combined(markdown, b, cs).block)
    decreases cs
  {
    if cs != [] {
      AbsorbIsValid(markdown, b, cs[0]);
      var a := Absorb(markdown, b, cs[0]);
      CombinedIsValid(a.markdown, a.block, cs[1..]);
    }
  }

  // ---------- events ----------

  lemma {:induction false} PushIsValid(s: State, e: Entry)
    requires TextOk(s) && EntryOk(e)
    ensures TextOk(PushEntry(s, e))
  {
    FlushedIsValid(s);
  }

  /** Changing the last assistant message to one with valid blocks. */
  lemma {:induction false} LastIsValid(s: State, t: State)
    requires TextOk(s) && |s.entries| > 0 && t.buffer.None? && AllValid(t.markdown)
    requires |t.entries| == |s.entries| && t.entries == WithLast(s.entries, t.entries[|t.entries| - 1])
    requires EntryOk(t.entries[|t.entries| - 1])
    ensures TextOk(t)
  {
  }

  lemma {:induction false} AppendIsValid(s: State, id: Option<nat>, c: AcpContent, thought: bool, indented: bool)
    requires TextOk(s) && ValidContent(c)
    ensures TextOk(AppendChunk(s, id, c, thought, indented))
  {
    FlushedIsValid(s);
    if !LastIsAssistant(s.entries, indented) {
      AbsorbIsValid(s.markdown, Empty, c);
      var a := Absorb(s.markdown, Empty, c);
      PushIsValid(s.(markdown := a.markdown), AssistantMessage([Chunk(thought, id, a.block)], indented));
    } else {
      var last := s.entries[|s.entries| - 1];
      assert EntryOk(last);
      var joins := Joins(last.chunks, thought, id);
      var block := if joins then last.chunks[|last.chunks| - 1].block else Empty;
      AbsorbIsValid(Flushed(s).markdown, block, c);
      var a := Absorb(Flushed(s).markdown, block, c);
      var chunk := Chunk(thought, if joins then Adopt(last.chunks[|last.chunks| - 1].id, id) else id, a.block);
      var e := last.(chunks := if joins then WithLast(last.chunks, chunk) else last.chunks + [chunk]);
      assert EntryOk(e);
      AppendSetsLast(s, id, c, thought, indented, a, e);
      LastIsValid(s, AppendChunk(s, id, c, thought, indented));
    }
  }

  lemma {:induction false} AppendSetsLast(s: State, id: Option<nat>, c: AcpContent, thought: bool, indented: bool, a: Absorbed, e: Entry)
    requires LastIsAssistant(s.entries, indented)
    requires var last := s.entries[|s.entries| - 1];
             var joins := Joins(last.chunks, thought, id);
             && a == Absorb(Flushed(s).markdown, if joins then last.chunks[|last.chunks| - 1].block else Empty, c)
             && var chunk := Chunk(thought, if joins then Adopt(last.chunks[|last.chunks| - 1].id, id) else id, a.block);
             e == last.(chunks := if joins then WithLast(last.chunks, chunk) else last.chunks + [chunk])
    ensures AppendChunk(s, id, c, thought, indented)
            == Flushed(s).(markdown := a.markdown, entries := WithLast(s.entries, e))
  {
  }

  lemma {:induction false} BufferedIsValid(s: State, target: nat, text: Text)
    requires TextOk(s) && Valid(text)
    ensures TextOk(BufferedText(s, target, text))
  {
    FlushedIsValid(s);
    if s.buffer.Some? { ValidConcat(s.buffer.value.pending, text); }
  }

  lemma {:induction false} AdoptIsValid(s: State, id: Option<nat>)
    requires TextOk(s)
    ensures TextOk(s.(entries := AdoptedId(s.entries, id)))
  {
  }

  lemma {:induction false} UserPushIsValid(s: State, clientId: Option<nat>, optimistic: bool, protocolId: Option<nat>, c: AcpContent, indented: bool)
    requires TextOk(s) && ValidContent(c)
    ensures TextOk(PushUser(s, clientId, optimistic, protocolId, c, indented))
  {
    FlushedIsValid(s);
    if JoinsUser(s.entries, protocolId, optimistic, indented) {
      assert EntryOk(s.entries[|s.entries| - 1]);
      AbsorbIsValid(Flushed(s).markdown, s.entries[|s.entries| - 1].message.content, c);
    } else {
      AbsorbIsValid(s.markdown, Empty, c);
      var a := Absorb(s.markdown, Empty, c);
      PushIsValid(s.(markdown := a.markdown), UserMessage(UserText(protocolId, clientId, optimistic, a.block, [c], indented)));
    }
  }

  lemma {:induction false} MessagesKeepText(s: State, e: MessageEvent)
    requires TextOk(s) && ValidMessage(e)
    ensures TextOk(MessageStep(s, e))
  {
    match e
    case AgentChunk(id, c, thought, indented) =>
      var target := StreamingTarget(s, id, thought, indented);
      if c.TextContent? && target.Some? {
        AdoptIsValid(s, id);
        BufferedIsValid(s.(entries := AdoptedId(s.entries, id)), target.value, c.text);
      } else {
        AppendIsValid(s, id, c, thought, indented);
      }
    case UserPush(clientId, c, indented) => UserPushIsValid(s, clientId, clientId.Some?, None, c, indented);
    case UserEcho(protocolId, c) =>
      if Echo(s.entries, protocolId, c) {
        assert EntryOk(s.entries[|s.entries| - 1]);
      } else {
        UserPushIsValid(s, None, false, protocolId, c, false);
      }
  }

  lemma {:induction false} MarkedIsValid(entries: seq<Entry>)
    requires EntriesOk(entries)
    ensures EntriesOk(MarkCanceled(entries))
  {
  }

  lemma {:induction false} ResponseKeepsText(s: State, stop: StopReason, same: bool)
    requires TextOk(s)
    ensures TextOk(FinishResponse(s, stop, same))
  {
    match stop
    case MaxTokens | MaxTurnRequests | Cancelled => MarkedIsValid(s.entries);
    case EndTurn => SnapshotIsValid(s);
    case Refusal =>
      SnapshotIsValid(s);
      ThreadInvariants.RefusalCuts(SnapshotCompletedPlan(s));
  }

  lemma {:induction false} SnapshotIsValid(s: State)
    requires TextOk(s)
    ensures TextOk(SnapshotCompletedPlan(s))
  {
    PushIsValid(s.(plan := []), CompletedPlan(s.plan));
  }

  lemma {:induction false} TurnsKeepText(s: State, e: TurnEvent)
    requires TextOk(s)
    ensures TextOk(TurnStep(s, e))
  {
    FlushedIsValid(s);
    MarkedIsValid(s.entries);
    if e.FinishTurn? && CanFinish(s, e.turn) && s.tasks[e.turn].Replied? && s.tasks[e.turn].answer.Response? {
      var k := e.turn;
      var u := (if IsSame(s, k) then s.(running := None) else s).(tasks := s.tasks[k := Finished]);
      ResponseKeepsText(Flushed(u), s.tasks[k].answer.stop, IsSame(s, k));
    }
  }

  lemma {:induction false} CallsKeepText(s: State, e: CallEvent)
    requires TextOk(s)
    ensures TextOk(CallStep(s, e))
  {
    CallsTouchOneCall(s, e);
    TouchedCallKeepsText(s, CallStep(s, e));
  }

  lemma {:induction false} TouchedCallKeepsText(s: State, t: State)
    requires TextOk(s) && TouchesOneCall(s, t)
    ensures TextOk(t)
  {
    FlushedIsValid(s);
    forall i | 0 <= i < |t.entries| ensures EntryOk(t.entries[i]) {
      if i < |s.entries| {
        assert EntryOk(s.entries[i]);
        if |t.entries| > |s.entries| { assert t.entries[i] == t.entries[..|s.entries|][i]; }
      }
    }
  }

  lemma {:induction false} UpsertTouchesOneCall(s: State, id: nat, fields: T.Fields, hasTitle: bool, status: T.Status)
    ensures TouchesOneCall(s, Upsert(s, id, fields, hasTitle, status).state)
  {
  }

  ghost predicate TouchesOneCall(s: State, t: State) {
    && ((t.markdown == s.markdown && t.buffer == s.buffer) || (t.markdown == Flushed(s).markdown && t.buffer.None?))
    && (|| t.entries == s.entries
        || (|t.entries| == |s.entries| + 1 && t.entries[|s.entries|].ToolCall? && t.entries[..|s.entries|] == s.entries)
        || (|t.entries| == |s.entries| && forall i :: 0 <= i < |s.entries| ==> t.entries[i] == s.entries[i] || t.entries[i].ToolCall?))
  }

  lemma {:induction false} CallsTouchOneCall(s: State, e: CallEvent)
    ensures TouchesOneCall(s, CallStep(s, e))
  {
    match e
    case Upserted(id, fields, hasTitle, status) =>
      UpsertTouchesOneCall(s, id, fields.(status := Some(status)), hasTitle, T.FromAcp(status));
    case AuthorizationRequested(id, fields, hasTitle, kind) =>
      UpsertTouchesOneCall(s.(permissions := s.permissions + [[]]), id, fields, hasTitle,
                           T.WaitingForConfirmation(CurrentStatus(s, id, fields), |s.permissions|, kind));
    case _ => SmallCallsTouchOneCall(s, e);
  }

  lemma {:induction false} SmallCallsTouchOneCall(s: State, e: CallEvent)
    requires !e.Upserted? && !e.AuthorizationRequested?
    ensures TouchesOneCall(s, CallStep(s, e))
  {
  }

  lemma {:induction false} CompactionsKeepText(s: State, e: CompactionEvent)
    requires TextOk(s) && ValidEvent(Compaction(e))
    ensures TextOk(CompactionStep(s, e))
  {
    if e.Pushed? {
      PushedKeepsText(s, e.id, e.status, e.summary);
    } else {
      var i := FindCompaction(s.entries, e.id);
      if i.Some? && s.entries[i.value].summary.Some? {
        ExtendedIsValid(s.markdown, s.entries[i.value].summary.value, e.delta);
      }
    }
  }

  lemma {:induction false} PushedKeepsText(s: State, id: nat, status: CompactionStatus, summary: Option<Text>)
    requires TextOk(s) && (summary.Some? ==> Valid(summary.value))
    ensures TextOk(PushCompaction(s, id, status, summary))
  {
    FlushedIsValid(if summary.Some? then s.(markdown := s.markdown + [summary.value]) else s);
  }

  lemma {:induction false} TickKeepsText(s: State)
    requires TextOk(s)
    ensures TextOk(Tick(s))
  {
    if s.buffer.Some? && s.buffer.value.pending != [] {
      var b := s.buffer.value;
      ValidSplit(b.pending, CeilBoundary(b.pending, b.rate));
      ExtendedIsValid(s.markdown, b.target, b.pending[..CeilBoundary(b.pending, b.rate)]);
    }
  }

  lemma {:induction false} StepKeepsText(s: State, e: Event)
    requires TextOk(s) && ValidEvent(e)
    ensures TextOk(Step(s, e))
  {
    match e
    case Turn(t) => TurnsKeepText(s, t);
    case Message(m) => MessagesKeepText(s, m);
    case TimerTick => TickKeepsText(s);
    case Call(c) => CallsKeepText(s, c);
    case Body(b) => BodiesKeepText(s, b);
    case Elicit(x) => ElicitationsKeepText(s, x);
    case Compaction(c) => CompactionsKeepText(s, c);
    case _ => RestKeepsText(s, e);
  }

  lemma {:induction false} BodiesKeepText(s: State, e: BodyEvent)
    requires TextOk(s) && ValidEvent(Body(e))
    ensures TextOk(BodyStep(s, e))
  {
    if e.PromptPushed? {
      CombinedIsValid(s.markdown, Empty, e.prompt);
      var a := Combined(s.markdown, Empty, e.prompt);
      PushIsValid(s.(markdown := a.markdown), UserMessage(UserText(None, e.clientId, true, a.block, e.prompt, false)));
    }
  }

  lemma {:induction false} ElicitationsKeepText(s: State, e: ElicitationEvent)
    requires TextOk(s)
    ensures TextOk(ElicitationStep(s, e))
  {
    FlushedIsValid(s);
  }

  lemma {:induction false} RestKeepsText(s: State, e: Event)
    requires TextOk(s)
    requires e.PlanUpdated? || e.RewindStarted? || e.RewindDone? || e.TerminalEvent?
    ensures TextOk(Step(s, e))
  {
    FlushedIsValid(s);
  }

  /** At every moment of every run, what is visible and what is pending are well-formed text. */
  lemma {:induction false} RunShowsValidText(events: seq<Event>)
    requires forall i :: 0 <= i < |events| ==> ValidEvent(events[i])
    ensures TextOk(Run(events))
  {
    if events != [] {
      RunShowsValidText(events[..|events| - 1]);
      StepKeepsText(Run(events[..|events| - 1]), events[|events| - 1]);
    }
  }

  /** A tick moves a prefix of the pending text, and both parts are well formed. */
  predicate CutsAtBoundary(pending: Text, rest: Text) {
    && |rest| <= |pending|
    && var cut := |pending| - |rest|;
    && rest == pending[cut..] && IsBoundary(pending, cut) && Valid(pending[..cut]) && Valid(rest)
  }

  predicate TickCutsWell(s: State) {
    s.buffer.Some? ==> Tick(s).buffer.Some? && CutsAtBoundary(s.buffer.value.pending, Tick(s).buffer.value.pending)
  }

  lemma {:induction false} TickCuts(s: State)
    requires s.buffer.Some? ==> Valid(s.buffer.value.pending)
    ensures TickCutsWell(s)
  {
    if s.buffer.Some? {
      var pending := s.buffer.value.pending;
      if pending == [] {
        assert pending[..0] == [];
      } else {
        CutIsAtBoundary(pending, CeilBoundary(pending, s.buffer.value.rate));
      }
    }
  }

  lemma {:induction false} CutIsAtBoundary(pending: Text, cut: nat)
    requires Valid(pending) && cut <= |pending| && IsBoundary(pending, cut)
    ensures CutsAtBoundary(pending, pending[cut..])
  {
    var rest := pending[cut..];
    assert |pending| - |rest| == cut;
    assert Valid(pending[..cut]) && Valid(rest) by { ValidSplit(pending, cut); }
  }

  /** Each tick of such a run cuts the pending text at a character boundary. */
  lemma {:induction false} TicksCutAtBoundaries(events: seq<Event>)
    requires forall i :: 0 <= i < |events| ==> ValidEvent(events[i])
    ensures TickCutsWell(Run(events))
  {
    RunShowsValidText(events);
    TickCuts(Run(events));
  }
}
