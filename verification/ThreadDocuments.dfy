/**
 Who holds which Markdown document: the streaming buffer's target is never a compaction's
 summary, and no chunk shares its document with a summary. This is what makes it harmless to
 extend a summary while text is still pending.
 */
module ThreadDocuments {
  import opened Prelude
  import opened Utf8
  import opened Content
  import opened ThreadModel
  import T = ToolCalls

  /** The documents an assistant message's chunks are shown in. */
  function ChunkDocs(e: Entry): set<nat> {
    if e.AssistantMessage? then
      set c | 0 <= c < |e.chunks| && e.chunks[c].block.Markdown? :: e.chunks[c].block.markdown
    else {}
  }

  function SummaryOf(e: Entry): Option<nat> {
    if e.ContextCompaction? then e.summary else None
  }

  ghost predicate DocsOk(entries: seq<Entry>, n: nat, target: Option<nat>) {
    && (forall i, m :: 0 <= i < |entries| && m in ChunkDocs(entries[i]) ==> m < n)
    && (forall i :: 0 <= i < |entries| && SummaryOf(entries[i]).Some? ==> SummaryOf(entries[i]).value < n)
    && (forall i, j :: 0 <= i < |entries| && 0 <= j < |entries| && SummaryOf(entries[i]).Some? ==>
          SummaryOf(entries[i]).value !in ChunkDocs(entries[j]))
    && (target.Some? ==> target.value < n && forall i :: 0 <= i < |entries| ==> SummaryOf(entries[i]) != target)
  }

  function TargetOf(s: State): Option<nat> {
    if s.buffer.Some? then Some(s.buffer.value.target) else None
  }

  /** At 25 ticks per two times the rate the pending text drains. */
  predicate RateOk(s: State) {
    s.buffer.Some? ==> 25 * s.buffer.value.rate >= 2 * |s.buffer.value.pending|
  }

  ghost predicate DocumentsOk(s: State) {
    DocsOk(s.entries, |s.markdown|, TargetOf(s)) && RateOk(s)
  }

  // ---------- edits ----------

  /** What an entry uses is what `was` used, or documents created since there were `n`. */
  ghost predicate UsesOldOrNew(e: Entry, wasChunks: set<nat>, wasSummary: Option<nat>, n: nat, n': nat) {
    && (forall m :: m in ChunkDocs(e) ==> m in wasChunks || n <= m < n')
    && (SummaryOf(e).Some? ==> SummaryOf(e) == wasSummary || n <= SummaryOf(e).value < n')
  }

  lemma {:induction false} DocsOkGrow(entries: seq<Entry>, n: nat, target: Option<nat>, n': nat)
    requires DocsOk(entries, n, target) && n <= n'
    ensures DocsOk(entries, n', target) && DocsOk(entries, n', None)
  {
  }

  lemma {:induction false} DocsOkPut(entries: seq<Entry>, n: nat, target: Option<nat>, i: nat, e: Entry, n': nat)
    requires DocsOk(entries, n, target) && i < |entries| && n <= n'
    requires UsesOldOrNew(e, ChunkDocs(entries[i]), SummaryOf(entries[i]), n, n')
    ensures DocsOk(entries[i := e], n', target)
  {
  }

  lemma {:induction false} DocsOkPush(entries: seq<Entry>, n: nat, target: Option<nat>, e: Entry, n': nat)
    requires DocsOk(entries, n, target) && n <= n'
    requires UsesOldOrNew(e, {}, None, n, n')
    ensures DocsOk(entries + [e], n', target)
  {
  }

  lemma {:induction false} DocsOkPrefix(entries: seq<Entry>, n: nat, target: Option<nat>, after: seq<Entry>)
    requires DocsOk(entries, n, target) && after <= entries
    ensures DocsOk(after, n, target)
  {
  }

  lemma {:induction false} DocsOkMarked(entries: seq<Entry>, n: nat, target: Option<nat>)
    requires DocsOk(entries, n, target)
    ensures DocsOk(MarkCanceled(entries), n, target)
  {
  }

  lemma {:induction false} DocsOkRetarget(entries: seq<Entry>, n: nat, target: Option<nat>, j: nat, m: nat)
    requires DocsOk(entries, n, target) && j < |entries| && m in ChunkDocs(entries[j])
    ensures DocsOk(entries, n, Some(m))
  {
  }

  // ---------- events ----------

  /** An entry that is neither an assistant message nor a compaction uses no document of interest. */
  predicate Plain(e: Entry) {
    !e.AssistantMessage? && !e.ContextCompaction?
  }

  lemma {:induction false} AbsorbGrows(markdown: seq<Text>, b: ContentBlock<nat>, c: AcpContent)
    ensures var a := Absorb(markdown, b, c);
            && |markdown| <= |a.markdown| <= |markdown| + 1
            && (a.block.Markdown? ==> a.block == b || |markdown| == a.block.markdown < |a.markdown|)
  {
  }

  /** The last chunk's block replaced, or a chunk added, with a block that is new or was there. */
  lemma {:induction false} ChunkListUsesOldOrNew(entry: Entry, chunks: seq<Chunk>, n: nat, n': nat)
    requires entry.AssistantMessage?
    requires forall x :: 0 <= x < |chunks| ==>
               (x < |entry.chunks| && chunks[x].block == entry.chunks[x].block)
               || (chunks[x].block.Markdown? ==> n <= chunks[x].block.markdown < n')
    ensures UsesOldOrNew(entry.(chunks := chunks), ChunkDocs(entry), SummaryOf(entry), n, n')
  {
  }

  lemma {:induction false} JoinKeepsDocs(s: State, id: Option<nat>, c: AcpContent, thought: bool, indented: bool)
    requires DocumentsOk(s) && LastIsAssistant(s.entries, indented)
    requires Joins(s.entries[|s.entries| - 1].chunks, thought, id)
    ensures var t := AppendChunk(s, id, c, thought, indented);
            DocsOk(t.entries, |t.markdown|, None) && t.buffer.None?
  {
    var t := AppendChunk(s, id, c, thought, indented);
    var n, k := |s.markdown|, |s.entries| - 1;
    var chunks := s.entries[k].chunks;
    AbsorbGrows(Flushed(s).markdown, chunks[|chunks| - 1].block, c);
    ChunkListUsesOldOrNew(s.entries[k], t.entries[k].chunks, n, |t.markdown|);
    DocsOkGrow(s.entries, n, TargetOf(s), n);
    DocsOkPut(s.entries, n, None, k, t.entries[k], |t.markdown|);
  }

  lemma {:induction false} NewChunkKeepsDocs(s: State, id: Option<nat>, c: AcpContent, thought: bool, indented: bool)
    requires DocumentsOk(s) && LastIsAssistant(s.entries, indented)
    requires !Joins(s.entries[|s.entries| - 1].chunks, thought, id)
    ensures var t := AppendChunk(s, id, c, thought, indented);
            DocsOk(t.entries, |t.markdown|, None) && t.buffer.None?
  {
    var t := AppendChunk(s, id, c, thought, indented);
    var n, k := |s.markdown|, |s.entries| - 1;
    AbsorbGrows(Flushed(s).markdown, Empty, c);
    ChunkListUsesOldOrNew(s.entries[k], t.entries[k].chunks, n, |t.markdown|);
    DocsOkGrow(s.entries, n, TargetOf(s), n);
    DocsOkPut(s.entries, n, None, k, t.entries[k], |t.markdown|);
  }

  lemma {:induction false} AppendKeepsDocs(s: State, id: Option<nat>, c: AcpContent, thought: bool, indented: bool)
    requires DocumentsOk(s)
    ensures var t := AppendChunk(s, id, c, thought, indented);
            DocsOk(t.entries, |t.markdown|, None) && t.buffer.None?
  {
    if !LastIsAssistant(s.entries, indented) {
      var t := AppendChunk(s, id, c, thought, indented);
      AbsorbGrows(s.markdown, Empty, c);
      DocsOkGrow(s.entries, |s.markdown|, TargetOf(s), |s.markdown|);
      DocsOkPush(s.entries, |s.markdown|, None, t.entries[|s.entries|], |t.markdown|);
    } else if Joins(s.entries[|s.entries| - 1].chunks, thought, id) {
      JoinKeepsDocs(s, id, c, thought, indented);
    } else {
      NewChunkKeepsDocs(s, id, c, thought, indented);
    }
  }

  /** The least rate that reveals everything in 200 ms at a tick every 16 ms. */
  lemma {:induction false} RateCoversPending(n: nat)
    ensures 200 * RevealRate(n) >= 16 * n && (n > 0 ==> 200 * (RevealRate(n) - 1) < 16 * n)
    ensures 25 * RevealRate(n) >= 2 * n && (n > 0 ==> RevealRate(n) >= 1)
  {
  }

  /** Adopting an id changes no document. */
  lemma {:induction false} AdoptKeepsDocs(entries: seq<Entry>, id: Option<nat>, n: nat, target: Option<nat>)
    requires DocsOk(entries, n, target)
    ensures DocsOk(AdoptedId(entries, id), n, target)
    ensures |AdoptedId(entries, id)| == |entries|
    ensures forall i :: 0 <= i < |entries| ==> ChunkDocs(AdoptedId(entries, id)[i]) == ChunkDocs(entries[i])
  {
    var after := AdoptedId(entries, id);
    forall i | 0 <= i < |entries|
      ensures ChunkDocs(after[i]) == ChunkDocs(entries[i]) && SummaryOf(after[i]) == SummaryOf(entries[i])
    {
      if after[i] != entries[i] {
        assert forall c :: 0 <= c < |entries[i].chunks| ==> after[i].chunks[c].block == entries[i].chunks[c].block;
      }
    }
  }

  lemma {:induction false} ChunkKeepsDocs(s: State, id: Option<nat>, c: AcpContent, thought: bool, indented: bool)
    requires DocumentsOk(s)
    ensures DocumentsOk(PushAssistant(s, id, c, thought, indented))
  {
    var target := StreamingTarget(s, id, thought, indented);
    if c.TextContent? && target.Some? {
      var n, k := |s.markdown|, |s.entries| - 1;
      var entries := AdoptedId(s.entries, id);
      var chunks := s.entries[k].chunks;
      assert chunks[|chunks| - 1].block == Markdown(target.value);
      assert target.value in ChunkDocs(s.entries[k]);
      AdoptKeepsDocs(s.entries, id, n, TargetOf(s));
      DocsOkRetarget(entries, n, TargetOf(s), k, target.value);
      RateCoversPending(|c.text|);
      if s.buffer.Some? { RateCoversPending(|s.buffer.value.pending + c.text|); }
    } else {
      AppendKeepsDocs(s, id, c, thought, indented);
    }
  }

  lemma {:induction false} CombinedGrows(markdown: seq<Text>, b: ContentBlock<nat>, cs: seq<AcpContent>)
    ensures |markdown| <= |Combined(markdown, b, cs).markdown|
    decreases cs
  {
    if cs != [] {
      AbsorbGrows(markdown, b, cs[0]);
      var a := Absorb(markdown, b, cs[0]);
      CombinedGrows(a.markdown, a.block, cs[1..]);
    }
  }

  /** An edit that involves only plain entries keeps the documents in order. */
  ghost predicate PlainDocsEdit(s: State, t: State) {
    && |s.markdown| <= |t.markdown|
    && (t.buffer == s.buffer || t.buffer.None?)
    && (|| t.entries <= s.entries
        || (|t.entries| == |s.entries| + 1 && t.entries == s.entries + [t.entries[|s.entries|]] && Plain(t.entries[|s.entries|]))
        || (|t.entries| == |s.entries| && exists i :: 0 <= i < |s.entries| && t.entries == s.entries[i := t.entries[i]] && Plain(t.entries[i])))
  }

  lemma {:induction false} PlainEditKeepsDocs(s: State, t: State)
    requires DocumentsOk(s) && PlainDocsEdit(s, t)
    ensures DocumentsOk(t)
  {
    var n, n' := |s.markdown|, |t.markdown|;
    DocsOkGrow(s.entries, n, TargetOf(s), n);
    var target := TargetOf(t);
    if t.entries <= s.entries {
      DocsOkPrefix(s.entries, n, target, t.entries);
      DocsOkGrow(t.entries, n, target, n');
    } else if |t.entries| == |s.entries| + 1 {
      DocsOkPush(s.entries, n, target, t.entries[|s.entries|], n');
    } else {
      var i :| 0 <= i < |s.entries| && t.entries == s.entries[i := t.entries[i]] && Plain(t.entries[i]);
      DocsOkPut(s.entries, n, target, i, t.entries[i], n');
    }
  }

  lemma {:induction false} PlainPut(s: State, t: State, i: nat)
    requires i < |s.entries| == |t.entries| && t.entries == s.entries[i := t.entries[i]] && Plain(t.entries[i])
    requires |s.markdown| <= |t.markdown| && (t.buffer == s.buffer || t.buffer.None?)
    ensures PlainDocsEdit(s, t)
  {
  }

  lemma {:induction false} UpsertIsPlain(s: State, id: nat, fields: T.Fields, hasTitle: bool, status: T.Status)
    ensures PlainDocsEdit(s, Upsert(s, id, fields, hasTitle, status).state)
  {
    var t := Upsert(s, id, fields, hasTitle, status).state;
    var i := FindCall(s.entries, id);
    if i.Some? { PlainPut(s, t, i.value); }
  }

  lemma {:induction false} UpdateCallIsPlain(s: State, id: nat, fields: T.Fields)
    ensures PlainDocsEdit(s, UpdateCall(s, id, fields).state)
  {
  }

  lemma {:induction false} SmallCallEventsArePlain(s: State, e: CallEvent)
    requires e.ContentReplaced? || e.TextAppended? || e.AuthorizationCanceled? || e.AuthorizationAnswered?
    ensures PlainDocsEdit(s, CallStep(s, e))
  {
    var t := CallStep(s, e);
    var i := FindCall(s.entries, e.id);
    if i.Some? && t.entries != s.entries {
      PlainPut(s, t, i.value);
    }
  }

  lemma {:induction false} CallEventsArePlain(s: State, e: CallEvent)
    ensures PlainDocsEdit(s, CallStep(s, e))
  {
    match e
    case Upserted(id, fields, hasTitle, status) =>
      UpsertIsPlain(s, id, fields.(status := Some(status)), hasTitle, T.FromAcp(status));
    case Updated(id, fields) => UpdateCallIsPlain(s, id, fields);
    case AuthorizationRequested(id, fields, hasTitle, kind) =>
      UpsertIsPlain(s.(permissions := s.permissions + [[]]), id, fields, hasTitle,
                    T.WaitingForConfirmation(CurrentStatus(s, id, fields), |s.permissions|, kind));
    case _ => SmallCallEventsArePlain(s, e);
  }

  lemma {:induction false} UserPushIsPlain(s: State, clientId: Option<nat>, optimistic: bool, protocolId: Option<nat>, c: AcpContent, indented: bool)
    ensures PlainDocsEdit(s, PushUser(s, clientId, optimistic, protocolId, c, indented))
  {
    var t := PushUser(s, clientId, optimistic, protocolId, c, indented);
    if JoinsUser(s.entries, protocolId, optimistic, indented) {
      AbsorbGrows(Flushed(s).markdown, s.entries[|s.entries| - 1].message.content, c);
      PlainPut(s, t, |s.entries| - 1);
    } else {
      AbsorbGrows(s.markdown, Empty, c);
    }
  }

  lemma {:induction false} UserEventsArePlain(s: State, e: MessageEvent)
    requires !e.AgentChunk?
    ensures PlainDocsEdit(s, MessageStep(s, e))
  {
    var t := MessageStep(s, e);
    if e.UserPush? {
      UserPushIsPlain(s, e.clientId, e.clientId.Some?, None, e.content, e.indented);
    } else if Echo(s.entries, e.protocolId, e.content) {
      PlainPut(s, t, |s.entries| - 1);
    } else {
      UserPushIsPlain(s, None, false, e.protocolId, e.content, false);
    }
  }

  lemma {:induction false} CompactionEventsKeepDocs(s: State, e: CompactionEvent)
    requires DocumentsOk(s)
    ensures DocumentsOk(CompactionStep(s, e))
  {
    var t := CompactionStep(s, e);
    var n, n' := |s.markdown|, |t.markdown|;
    var i := FindCompaction(s.entries, e.id);
    if i.Some? {
      DocsOkPut(s.entries, n, TargetOf(t), i.value, t.entries[i.value], n');
    } else if e.Pushed? {
      DocsOkGrow(s.entries, n, TargetOf(s), n);
      DocsOkPush(s.entries, n, None, t.entries[|s.entries|], n');
    }
  }

  lemma {:induction false} TurnEventsKeepDocs(s: State, e: TurnEvent)
    requires DocumentsOk(s)
    ensures DocumentsOk(TurnStep(s, e))
  {
    var n := |s.markdown|;
    DocsOkGrow(s.entries, n, TargetOf(s), n);
    DocsOkMarked(s.entries, n, None);
    if e.FinishTurn? {
      if CanFinish(s, e.turn) { FinishKeepsDocs(s, e.turn); }
    }
  }

  lemma {:induction false} FinishKeepsDocs(s: State, k: nat)
    requires DocumentsOk(s) && CanFinish(s, k)
    ensures DocumentsOk(Finish(s, k))
  {
    var n := |s.markdown|;
    DocsOkGrow(s.entries, n, TargetOf(s), n);
    DocsOkMarked(s.entries, n, None);
    if s.tasks[k].Replied? && s.tasks[k].answer.Response? {
      var u := Flushed((if IsSame(s, k) then s.(running := None) else s).(tasks := s.tasks[k := Finished]));
      assert u.entries == s.entries && |u.markdown| == n && u.buffer.None?;
      ResponseKeepsDocs(u, s.tasks[k].answer.stop, IsSame(s, k));
    }
  }

  lemma {:induction false} SnapshotKeepsDocs(s: State)
    requires DocumentsOk(s)
    ensures DocumentsOk(SnapshotCompletedPlan(s))
  {
  }

  lemma {:induction false} RefusalKeepsDocs(s: State)
    requires DocumentsOk(s)
    ensures DocumentsOk(Refuse(s))
  {
    assert PlainDocsEdit(s, Refuse(s));
    PlainEditKeepsDocs(s, Refuse(s));
  }

  lemma {:induction false} ResponseKeepsDocs(s: State, stop: StopReason, same: bool)
    requires DocumentsOk(s)
    ensures DocumentsOk(FinishResponse(s, stop, same))
  {
    SnapshotKeepsDocs(s);
    RefusalKeepsDocs(SnapshotCompletedPlan(s));
    DocsOkMarked(s.entries, |s.markdown|, TargetOf(s));
  }

  lemma {:induction false} BodyEventsArePlain(s: State, e: BodyEvent)
    ensures PlainDocsEdit(s, BodyStep(s, e))
  {
    if e.PromptPushed? {
      CombinedGrows(s.markdown, Empty, e.prompt);
    }
  }

  lemma {:induction false} ElicitationEventsArePlain(s: State, e: ElicitationEvent)
    ensures PlainDocsEdit(s, ElicitationStep(s, e))
  {
  }

  lemma {:induction false} TickKeepsDocs(s: State)
    requires DocumentsOk(s)
    ensures DocumentsOk(Tick(s))
  {
  }

  lemma {:induction false} StepKeepsDocuments(s: State, e: Event)
    requires DocumentsOk(s)
    ensures DocumentsOk(Step(s, e))
  {
    match e
    case Turn(t) => TurnEventsKeepDocs(s, t);
    case Message(AgentChunk(id, c, thought, indented)) => ChunkKeepsDocs(s, id, c, thought, indented);
    case TimerTick => TickKeepsDocs(s);
    case Compaction(c) => CompactionEventsKeepDocs(s, c);
    case _ =>
      RestIsPlain(s, e);
      PlainEditKeepsDocs(s, Step(s, e));
  }

  lemma {:induction false} RestIsPlain(s: State, e: Event)
    requires !e.Turn? && !e.TimerTick? && !e.Compaction? && (e.Message? ==> !e.message.AgentChunk?)
    ensures PlainDocsEdit(s, Step(s, e))
  {
    match e
    case Message(m) => UserEventsArePlain(s, m);
    case Body(b) => BodyEventsArePlain(s, b);
    case Call(c) => CallEventsArePlain(s, c);
    case Elicit(x) => ElicitationEventsArePlain(s, x);
    case _ =>
  }
}
