/**
 Smooth streaming refines plain appending. Text for a chunk that is already shown is buffered
 and revealed by a timer; the claim is that nobody can tell the difference once the buffer is
 flushed: flushing after any run of the real thread gives the run of a thread that appends
 every chunk at once and has no timer.
 */
module Streaming {
  import opened Prelude
  import opened Utf8
  import opened Content
  import opened ThreadModel
  import ThreadInvariants
  import opened ThreadDocuments
  import T = ToolCalls

  // ---------- the thread without a buffer ----------

  function EagerStep(s: State, e: Event): State {
    match e
    case Message(AgentChunk(id, c, thought, indented)) => AppendChunk(s, id, c, thought, indented)
    case TimerTick => s
    case _ => Step(s, e)
  }

  function EagerRun(events: seq<Event>): State {
    if events == [] then INITIAL else EagerStep(EagerRun(events[..|events| - 1]), events[|events| - 1])
  }

  // ---------- flushing commutes with every step ----------

  /** The documents once everything pending is shown. */
  function FlushedDocs(s: State): (r: seq<Text>)
    ensures |r| == |s.markdown|
    ensures Flushed(s) == s.(markdown := r, buffer := None)
  {
    Flushed(s).markdown
  }

  lemma {:induction false} BufferedChunkIsAppended(s: State, id: Option<nat>, c: AcpContent, thought: bool, indented: bool)
    requires DocumentsOk(s) && c.TextContent? && StreamingTarget(s, id, thought, indented).Some?
    ensures Flushed(PushAssistant(s, id, c, thought, indented)) == AppendChunk(Flushed(s), id, c, thought, indented)
  {
    var k := |s.entries| - 1;
    var entry := s.entries[k];
    var last := entry.chunks[|entry.chunks| - 1];
    var target := last.block.markdown;
    assert target in ChunkDocs(entry);
    assert AppendEffect(last.block, c) == Extend(c.text);
    var lhs, rhs := Flushed(PushAssistant(s, id, c, thought, indented)), AppendChunk(Flushed(s), id, c, thought, indented);
    assert lhs.entries == AdoptedId(s.entries, id);
    assert rhs.entries == lhs.entries;
    assert rhs.markdown == Extended(FlushedDocs(s), target, c.text);
    if s.buffer.Some? && s.buffer.value.target == target {
      var b := s.buffer.value;
      assert s.markdown[target] + (b.pending + c.text) == (s.markdown[target] + b.pending) + c.text;
    }
    assert lhs.markdown == rhs.markdown;
  }

  /** Getting a new document and flushing commute. */
  lemma {:induction false} FlushThenCreate(s: State, text: Text)
    requires DocumentsOk(s)
    ensures FlushedDocs(s.(markdown := s.markdown + [text])) == FlushedDocs(s) + [text]
  {
  }

  lemma {:induction false} AppendedChunkCommutes(s: State, id: Option<nat>, c: AcpContent, thought: bool, indented: bool)
    requires DocumentsOk(s)
    ensures Flushed(AppendChunk(s, id, c, thought, indented)) == AppendChunk(Flushed(s), id, c, thought, indented)
  {
    if !LastIsAssistant(s.entries, indented) {
      var e := NewEffect(c);
      if e.NewMarkdown? { FlushThenCreate(s, e.text); }
    }
  }

  lemma {:induction false} ChunkCommutes(s: State, id: Option<nat>, c: AcpContent, thought: bool, indented: bool)
    requires DocumentsOk(s)
    ensures Flushed(PushAssistant(s, id, c, thought, indented)) == AppendChunk(Flushed(s), id, c, thought, indented)
  {
    if c.TextContent? && StreamingTarget(s, id, thought, indented).Some? {
      BufferedChunkIsAppended(s, id, c, thought, indented);
    } else {
      AppendedChunkCommutes(s, id, c, thought, indented);
    }
  }

  lemma {:induction false} TickShowsNothingNew(s: State)
    ensures Flushed(Tick(s)) == Flushed(s)
  {
    if s.buffer.Some? && s.buffer.value.pending != [] {
      var b := s.buffer.value;
      var cut := CeilBoundary(b.pending, b.rate);
      assert b.pending[..cut] + b.pending[cut..] == b.pending;
      if b.target < |s.markdown| {
        assert s.markdown[b.target] + b.pending[..cut] + b.pending[cut..] == s.markdown[b.target] + b.pending;
      }
      assert FlushedDocs(Tick(s)) == FlushedDocs(s);
    }
  }

  lemma {:induction false} UserPushCommutes(s: State, clientId: Option<nat>, optimistic: bool, protocolId: Option<nat>, c: AcpContent, indented: bool)
    requires DocumentsOk(s)
    ensures Flushed(PushUser(s, clientId, optimistic, protocolId, c, indented))
            == PushUser(Flushed(s), clientId, optimistic, protocolId, c, indented)
  {
    if JoinsUser(s.entries, protocolId, optimistic, indented) {
      FlushedOnce(s);
    } else {
      UserStartCommutes(s, clientId, optimistic, protocolId, c, indented);
    }
  }

  lemma {:induction false} FlushedOnce(s: State)
    ensures Flushed(Flushed(s)) == Flushed(s) && Flushed(s).entries == s.entries && Flushed(s).buffer.None?
  {
  }

  lemma {:induction false} UserStartCommutes(s: State, clientId: Option<nat>, optimistic: bool, protocolId: Option<nat>, c: AcpContent, indented: bool)
    requires DocumentsOk(s) && !JoinsUser(s.entries, protocolId, optimistic, indented)
    ensures Flushed(PushUser(s, clientId, optimistic, protocolId, c, indented))
            == PushUser(Flushed(s), clientId, optimistic, protocolId, c, indented)
  {
    var e := NewEffect(c);
    if e.NewMarkdown? { FlushThenCreate(s, e.text); }
  }

  lemma {:induction false} MessagesCommute(s: State, e: MessageEvent)
    requires DocumentsOk(s)
    ensures Flushed(MessageStep(s, e)) == EagerStep(Flushed(s), Message(e))
  {
    match e
    case AgentChunk(id, c, thought, indented) => ChunkCommutes(s, id, c, thought, indented);
    case UserPush(clientId, c, indented) => UserPushCommutes(s, clientId, clientId.Some?, None, c, indented);
    case UserEcho(protocolId, c) => UserPushCommutes(s, None, false, protocolId, c, false);
  }

  /** A prompt's blocks build up in one new document, away from what is being streamed. */
  lemma {:induction false} CombinedCommutes(s: State, b: ContentBlock<nat>, cs: seq<AcpContent>)
    requires s.buffer.Some? ==> s.buffer.value.target < |s.markdown|
    requires b.Markdown? ==> s.buffer.Some? ==> b.markdown != s.buffer.value.target
    requires b.Markdown? ==> b.markdown < |s.markdown|
    ensures var a := Combined(s.markdown, b, cs);
            Combined(FlushedDocs(s), b, cs) == Absorbed(FlushedDocs(s.(markdown := a.markdown)), a.block)
    decreases cs
  {
    if cs != [] {
      var a := Absorb(s.markdown, b, cs[0]);
      var t := s.(markdown := a.markdown);
      assert Absorb(FlushedDocs(s), b, cs[0]).block == a.block;
      assert Absorb(FlushedDocs(s), b, cs[0]).markdown == FlushedDocs(t);
      CombinedCommutes(t, a.block, cs[1..]);
    }
  }

  lemma {:induction false} BodiesCommute(s: State, e: BodyEvent)
    requires DocumentsOk(s)
    ensures Flushed(BodyStep(s, e)) == BodyStep(Flushed(s), e)
  {
    if e.PromptPushed? {
      CombinedCommutes(s, Empty, e.prompt);
    }
  }

  lemma {:induction false} UpsertCommutes(s: State, id: nat, fields: T.Fields, hasTitle: bool, status: T.Status)
    ensures Flushed(Upsert(s, id, fields, hasTitle, status).state) == Upsert(Flushed(s), id, fields, hasTitle, status).state
  {
  }

  lemma {:induction false} UpdateCallCommutes(s: State, id: nat, fields: T.Fields)
    ensures Flushed(UpdateCall(s, id, fields).state) == UpdateCall(Flushed(s), id, fields).state
  {
  }

  lemma {:induction false} CallsCommute(s: State, e: CallEvent)
    ensures Flushed(CallStep(s, e)) == CallStep(Flushed(s), e)
  {
    match e
    case Upserted(id, fields, hasTitle, status) =>
      UpsertCommutes(s, id, fields.(status := Some(status)), hasTitle, T.FromAcp(status));
    case Updated(id, fields) => UpdateCallCommutes(s, id, fields);
    case AuthorizationRequested(id, fields, hasTitle, kind) =>
      var p := s.(permissions := s.permissions + [[]]);
      assert Flushed(p) == Flushed(s).(permissions := s.permissions + [[]]);
      UpsertCommutes(p, id, fields, hasTitle, T.WaitingForConfirmation(CurrentStatus(s, id, fields), |s.permissions|, kind));
    case _ =>
  }

  lemma {:induction false} ElicitationsCommute(s: State, e: ElicitationEvent)
    ensures Flushed(ElicitationStep(s, e)) == ElicitationStep(Flushed(s), e)
  {
  }

  /** Here the order matters: the summary must not be what is being streamed. */
  lemma {:induction false} CompactionsCommute(s: State, e: CompactionEvent)
    requires DocumentsOk(s)
    ensures Flushed(CompactionStep(s, e)) == CompactionStep(Flushed(s), e)
  {
    var i := FindCompaction(s.entries, e.id);
    if i.Some? && e.SummaryExtended? && SummaryOf(s.entries[i.value]).Some? && s.buffer.Some? {
      assert SummaryOf(s.entries[i.value]) != TargetOf(s);
      assert FlushedDocs(CompactionStep(s, e)) == CompactionStep(Flushed(s), e).markdown;
    } else if e.SummaryExtended? {
      FlushThenCreate(s, e.delta);
    } else if e.summary.Some? {
      FlushThenCreate(s, e.summary.value);
    }
  }

  lemma {:induction false} ResponseCommutes(s: State, stop: StopReason, same: bool)
    requires s.buffer.None?
    ensures FinishResponse(s, stop, same).buffer.None?
  {
  }

  lemma {:induction false} FinishCommutes(s: State, k: nat)
    requires CanFinish(s, k)
    ensures Flushed(Finish(s, k)) == Finish(Flushed(s), k)
  {
    var t := s.(tasks := s.tasks[k := Finished]);
    var u := if IsSame(s, k) then t.(running := None) else t;
    assert Flushed(u) == (if IsSame(s, k) then Flushed(s).(tasks := s.tasks[k := Finished], running := None)
                          else Flushed(s).(tasks := s.tasks[k := Finished]));
    if s.tasks[k].Replied? && s.tasks[k].answer.Response? {
      ResponseCommutes(Flushed(u), s.tasks[k].answer.stop, IsSame(s, k));
    }
  }

  lemma {:induction false} TurnsCommute(s: State, e: TurnEvent)
    ensures Flushed(TurnStep(s, e)) == TurnStep(Flushed(s), e)
  {
    if e.FinishTurn? && CanFinish(s, e.turn) {
      FinishCommutes(s, e.turn);
    }
  }

  lemma {:induction false} StepCommutes(s: State, e: Event)
    requires DocumentsOk(s)
    ensures Flushed(Step(s, e)) == EagerStep(Flushed(s), e)
  {
    match e
    case Turn(t) => TurnsCommute(s, t);
    case Body(b) => BodiesCommute(s, b);
    case Message(m) => MessagesCommute(s, m);
    case TimerTick => TickShowsNothingNew(s);
    case Call(c) => CallsCommute(s, c);
    case Elicit(x) => ElicitationsCommute(s, x);
    case Compaction(c) => CompactionsCommute(s, c);
    case _ =>
  }

  // ---------- whole runs ----------

  lemma {:induction false} RunKeepsDocuments(events: seq<Event>)
    ensures DocumentsOk(Run(events))
  {
    if events != [] {
      RunKeepsDocuments(events[..|events| - 1]);
      StepKeepsDocuments(Run(events[..|events| - 1]), events[|events| - 1]);
    }
  }

  /** After any run, flushing gives exactly the state of the thread that never buffers. */
  lemma {:induction false} StreamingRefinesAppending(events: seq<Event>)
    ensures Flushed(Run(events)) == EagerRun(events)
  {
    if events != [] {
      var before := events[..|events| - 1];
      StreamingRefinesAppending(before);
      RunKeepsDocuments(before);
      StepCommutes(Run(before), events[|events| - 1]);
    }
  }

  /** The pending text that is aimed at document `m`. */
  function PendingFor(s: State, m: nat): Text {
    if s.buffer.Some? && s.buffer.value.target == m then s.buffer.value.pending else []
  }

  /**
   Document by document: what is visible plus what is pending for it is what appending at once
   would show, and everything else in the thread is the same.
   */
  lemma {:induction false} VisiblePlusPending(events: seq<Event>)
    ensures var s, eager := Run(events), EagerRun(events);
            && |eager.markdown| == |s.markdown|
            && (forall m :: 0 <= m < |s.markdown| ==> eager.markdown[m] == s.markdown[m] + PendingFor(s, m))
            && eager == s.(markdown := eager.markdown, buffer := None)
  {
    StreamingRefinesAppending(events);
    RunKeepsDocuments(events);
    var s := Run(events);
    forall m | 0 <= m < |s.markdown| ensures EagerRun(events).markdown[m] == s.markdown[m] + PendingFor(s, m) {
      if PendingFor(s, m) == [] { assert s.markdown[m] + [] == s.markdown[m]; }
    }
  }

  // ---------- when nothing is pending ----------

  lemma {:induction false} PushingMessageFlushes(s: State, e: MessageEvent)
    requires |MessageStep(s, e).entries| > |s.entries|
    ensures MessageStep(s, e).buffer.None?
  {
    if e.AgentChunk? {
      ThreadInvariants.ChunkTouchesLastEntry(s, e.id, e.content, e.thought, e.indented);
    }
  }

  lemma {:induction false} PushingCallFlushes(s: State, e: CallEvent)
    requires |CallStep(s, e).entries| > |s.entries|
    ensures CallStep(s, e).buffer.None?
  {
  }

  /** A step that adds an entry leaves nothing pending. */
  lemma {:induction false} NewEntryLeavesNothingPending(s: State, e: Event)
    requires |Step(s, e).entries| > |s.entries|
    ensures Step(s, e).buffer.None?
  {
    match e
    case Turn(t) => if t.FinishTurn? { FinishFlushes(s, t.turn); }
    case Message(m) => PushingMessageFlushes(s, m);
    case Call(c) => PushingCallFlushes(s, c);
    case _ =>
  }

  /** Neither does a cancel, a new turn, or an answered completion, unless it is ignored as stale. */
  lemma {:induction false} FinishFlushes(s: State, k: nat)
    requires CanFinish(s, k)
    ensures var t := Finish(s, k);
            if s.tasks[k].SenderDropped? || (s.tasks[k] == Replied(Response(MaxTurnRequests)) && !IsSame(s, k)) then
              t.buffer == s.buffer && t.entries == s.entries
            else t.buffer.None?
  {
    var u := if IsSame(s, k) then s.(tasks := s.tasks[k := Finished], running := None) else s.(tasks := s.tasks[k := Finished]);
    if s.tasks[k].Replied? && s.tasks[k].answer.Response? {
      ResponseCommutes(Flushed(u), s.tasks[k].answer.stop, IsSame(s, k));
    }
  }

  lemma {:induction false} CancelAndSendFlush(s: State)
    ensures Cancel(s).buffer.None? && RunTurn(s).buffer.None?
  {
  }

  /**
   One tick shows the first bytes of what is pending, as many as the rate says and at most up to the
   next character, at the end of their document; the rest stays pending.
   */
  lemma {:induction false} TickShowsRate(s: State) returns (cut: nat)
    requires s.buffer.Some?
    ensures var b, t := s.buffer.value, Step(s, TimerTick);
            && cut <= |b.pending| && (if b.rate <= |b.pending| then b.rate <= cut else cut == |b.pending|)
            && (forall j :: b.rate <= j < cut ==> j != 0 && IsTail(b.pending[j]))
            && (cut < |b.pending| && cut != 0 ==> !IsTail(b.pending[cut]))
            && t == s.(markdown := t.markdown, buffer := Some(b.(pending := b.pending[cut..])))
            && t.markdown == if b.target < |s.markdown| then s.markdown[b.target := s.markdown[b.target] + b.pending[..cut]] else s.markdown
  {
    var b := s.buffer.value;
    cut := if b.pending == [] then 0 else CeilBoundary(b.pending, b.rate);
    forall j | b.rate <= j < cut ensures j != 0 && IsTail(b.pending[j]) { assert !IsBoundary(b.pending, j); }
    if b.pending == [] {
      assert b.pending[..0] == [] && b.pending[0..] == [];
      if b.target < |s.markdown| { assert s.markdown[b.target] + [] == s.markdown[b.target]; }
    }
  }

  // ---------- draining ----------

  function Ticks(s: State, n: nat): State {
    if n == 0 then s else Tick(Ticks(s, n - 1))
  }

  lemma {:induction false} OneTickDrains(s: State)
    requires s.buffer.Some?
    ensures var b := s.buffer.value;
            var t := Tick(s);
            && t.buffer.Some? && t.buffer.value.target == b.target && t.buffer.value.rate == b.rate
            && |t.buffer.value.pending| <= if |b.pending| > b.rate then |b.pending| - b.rate else 0
  {
  }

  lemma {:induction false} TicksDrain(s: State, n: nat)
    requires s.buffer.Some?
    ensures var b := s.buffer.value;
            var t := Ticks(s, n);
            && t.buffer.Some? && t.buffer.value.target == b.target && t.buffer.value.rate == b.rate
            && (|t.buffer.value.pending| <= |b.pending| - n * b.rate || t.buffer.value.pending == [])
    ensures Flushed(Ticks(s, n)) == Flushed(s)
  {
    if n > 0 {
      TicksDrain(s, n - 1);
      OneTickDrains(Ticks(s, n - 1));
      TickShowsNothingNew(Ticks(s, n - 1));
      var rate := s.buffer.value.rate;
      assert n * rate == (n - 1) * rate + rate;
    }
  }

  /** From any reachable state, thirteen ticks without new text show everything. */
  lemma {:induction false} ThirteenTicksRevealAll(events: seq<Event>)
    ensures var s := Run(events);
            var t := Ticks(s, 13);
            && (t.buffer.Some? ==> t.buffer.value.pending == [])
            && t.markdown == Flushed(s).markdown
  {
    var s := Run(events);
    RunKeepsDocuments(events);
    if s.buffer.Some? {
      var b := s.buffer.value;
      TicksDrain(s, 13);
      var t := Ticks(s, 13);
      assert 13 * b.rate >= |b.pending|;
      assert t.buffer.value.pending == [];
      if b.target < |t.markdown| { assert t.markdown[b.target] + [] == t.markdown[b.target]; }
      assert FlushedDocs(t) == t.markdown;
    } else {
      NoBufferNoTick(s, 13);
    }
  }

  lemma {:induction false} NoBufferNoTick(s: State, n: nat)
    requires s.buffer.None?
    ensures Ticks(s, n) == s
  {
    if n > 0 { NoBufferNoTick(s, n - 1); }
  }

  /** A text of `n` ASCII letters. */
  function Letters(n: nat): (t: Text)
    ensures |t| == n && forall i :: 0 <= i < n ==> t[i] == 0x61
  {
    seq(n, i => 0x61)
  }

  lemma {:induction false} LettersDrainAtTheRate(s: State, n: nat)
    requires s.buffer.Some? && s.buffer.value.pending == Letters(|s.buffer.value.pending|)
    requires n * s.buffer.value.rate <= |s.buffer.value.pending|
    ensures Ticks(s, n).buffer == Some(s.buffer.value.(pending := Letters(|s.buffer.value.pending| - n * s.buffer.value.rate)))
  {
    var b := s.buffer.value;
    if n == 0 {
      assert Letters(|b.pending|) == b.pending;
    } else {
      assert n * b.rate == (n - 1) * b.rate + b.rate;
      LettersDrainAtTheRate(s, n - 1);
      var t := Ticks(s, n - 1);
      var left := |b.pending| - (n - 1) * b.rate;
      if left > 0 {
        assert IsBoundary(Letters(left), b.rate);
        assert CeilBoundary(Letters(left), b.rate) == b.rate;
        assert Letters(left)[b.rate..] == Letters(left - b.rate);
      } else {
        assert b.rate == 0;
      }
    }
  }

  /** The bound is sharp: twenty-five letters are not all shown after twelve ticks. */
  lemma {:induction false} TwelveTicksAreNotEnough(s: State, target: nat)
    requires s.buffer.None?
    ensures var t := Ticks(BufferedText(s, target, Letters(25)), 12); t.buffer.Some? && t.buffer.value.pending != []
  {
    var t := BufferedText(s, target, Letters(25));
    assert t.buffer == Some(Buffer(Letters(25), 2, target));
    LettersDrainAtTheRate(t, 12);
  }
}
