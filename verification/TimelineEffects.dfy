/**
 What messages, compactions, elicitations, plans and rewinding do to the timeline, told by the
 entries and the text they show before and after.
 */
module TimelineEffects {
  import opened Prelude
  import opened Utf8
  import opened Content
  import opened ThreadModel
  import opened TurnEffects
  import ThreadDocuments
  import ThreadInvariants
  import Streaming
  import T = ToolCalls
  import E = Elicitations
  import Tm = Terminals

  // ---------- what blocks show ----------

  /** What a piece of content reads as. */
  function Reading(c: AcpContent): Text {
    match c
    case TextContent(text) => text
    case LinkContent(_, link) => link
    case ImageContent(_) => Ascii("`Image`")
    case ResourceContent(r) => if r.isText then r.link else []
    case OtherContent => []
  }

  /** What a block of the timeline reads as. */
  function Shown(markdown: seq<Text>, b: ContentBlock<nat>): Text {
    match b
    case Empty => []
    case Markdown(m) => if m < |markdown| then markdown[m] else []
    case EmbeddedResource(r, _) => r.link
    case ResourceLink(_, link) => link
    case Image(_) => Ascii("`Image`")
  }

  lemma ImageReads()
    ensures IMAGE_MARKDOWN == Ascii("`Image`") && NEWLINE == Ascii("\n")
  {
  }

  /** Content that is shown as what it is while it is alone: a link, or a picture that decodes. */
  predicate StandsAlone(c: AcpContent) {
    c.LinkContent? || (c.ImageContent? && c.decoded.Some?)
  }

  /**
   A block that takes in content reads as before with the content's reading after it, on a new line
   unless it was Markdown already; and no other document changes.
   */
  lemma {:induction false} AbsorbingAppends(markdown: seq<Text>, b: ContentBlock<nat>, c: AcpContent)
    requires b.Markdown? ==> b.markdown < |markdown|
    ensures var a := Absorb(markdown, b, c);
            && Shown(a.markdown, a.block)
               == (if b.Empty? then Reading(c)
                   else if b.Markdown? then Shown(markdown, b) + Reading(c)
                   else Shown(markdown, b) + Ascii("\n") + Reading(c))
            && (if b.Empty? && c.LinkContent? then a.block == ResourceLink(c.uri, c.link)
                else if b.Empty? && c.ImageContent? && c.decoded.Some? then a.block == Image(c.decoded.value)
                else if b.Markdown? then a.block == b
                else a.block == Markdown(|markdown|))
            && |a.markdown| == |markdown| + (if a.block == Markdown(|markdown|) then 1 else 0)
            && (forall m :: 0 <= m < |markdown| && b != Markdown(m) ==> a.markdown[m] == markdown[m])
  {
    ImageReads();
  }

  // ---------- prompts ----------

  /** All readings one after the other; a link or picture in front of more content stands on a line of its own. */
  function PromptText(cs: seq<AcpContent>): Text {
    if cs == [] then []
    else if |cs| == 1 then Reading(cs[0])
    else PromptText(cs[..|cs| - 1]) + (if |cs| == 2 && StandsAlone(cs[0]) then Ascii("\n") else []) + Reading(cs[|cs| - 1])
  }

  function CombinedSoFar(markdown: seq<Text>, cs: seq<AcpContent>): Absorbed {
    Combined(markdown, Empty, cs)
  }

  lemma {:induction false} CombinedMore(markdown: seq<Text>, b: ContentBlock<nat>, cs: seq<AcpContent>, c: AcpContent)
    ensures var a := Combined(markdown, b, cs); Combined(markdown, b, cs + [c]) == Absorb(a.markdown, a.block, c)
    decreases cs
  {
    if cs == [] {
      assert [] + [c] == [c] && [c][1..] == [];
    } else {
      var a := Absorb(markdown, b, cs[0]);
      assert (cs + [c])[0] == cs[0] && (cs + [c])[1..] == cs[1..] + [c];
      CombinedMore(a.markdown, a.block, cs[1..], c);
    }
  }

  /** What a combined prompt is: it reads as its contents, in a document of its own, if it needs one. */
  predicate IsPrompt(markdown: seq<Text>, a: Absorbed, cs: seq<AcpContent>) {
    && Shown(a.markdown, a.block) == PromptText(cs)
    && (cs == [] <==> a.block.Empty?)
    && (a.block.ResourceLink? || a.block.Image? <==> |cs| == 1 && StandsAlone(cs[0]))
    && !a.block.EmbeddedResource?
    && (if a.block.Markdown? then a.block == Markdown(|markdown|) && |a.markdown| == |markdown| + 1 else |a.markdown| == |markdown|)
    && (forall m :: 0 <= m < |markdown| ==> a.markdown[m] == markdown[m])
  }

  lemma {:induction false} CombinedIsPrompt(markdown: seq<Text>, cs: seq<AcpContent>)
    ensures IsPrompt(markdown, Combined(markdown, Empty, cs), cs)
  {
    if cs != [] {
      var before, last := cs[..|cs| - 1], cs[|cs| - 1];
      CombinedIsPrompt(markdown, before);
      assert before + [last] == cs;
      CombinedMore(markdown, Empty, before, last);
      OneMoreBlock(markdown, Combined(markdown, Empty, before), before, last);
    }
  }

  lemma {:induction false} OneMoreBlock(markdown: seq<Text>, a: Absorbed, before: seq<AcpContent>, last: AcpContent)
    requires IsPrompt(markdown, a, before)
    ensures IsPrompt(markdown, Absorb(a.markdown, a.block, last), before + [last])
  {
    AbsorbingAppends(a.markdown, a.block, last);
    assert (before + [last])[..|before|] == before;
    assert PromptText(before) + [] == PromptText(before);
  }

  /** A body shows its prompt as one new message that reads as all its blocks in order. */
  lemma {:induction false} PromptIsShown(s: State, k: nat, clientId: Option<nat>, cs: seq<AcpContent>)
    requires ThreadDocuments.DocumentsOk(s) && k < |s.tasks|
    ensures var t := Step(s, Body(PromptPushed(k, clientId, cs)));
            && |t.entries| == |s.entries| + 1 && t.entries[..|s.entries|] == s.entries
            && t.entries[|s.entries|].UserMessage?
            && var m := t.entries[|s.entries|].message;
            && m == UserText(None, clientId, true, m.content, cs, false)
            && Shown(t.markdown, m.content) == PromptText(cs)
            && t.buffer.None? && t == s.(entries := t.entries, markdown := t.markdown, buffer := None)
  {
    CombinedIsPrompt(s.markdown, cs);
  }

  // ---------- messages from the user ----------

  /** The document that a user message is shown in exists. */
  predicate DocExists(e: Entry, n: nat) {
    e.UserMessage? && e.message.content.Markdown? ==> e.message.content.markdown < n
  }

  predicate UserDocsExist(entries: seq<Entry>, n: nat) {
    forall i :: 0 <= i < |entries| ==> DocExists(entries[i], n)
  }

  /** Every entry was there before, at its place, or its document exists. */
  predicate OldOrExists(entries: seq<Entry>, after: seq<Entry>, n: nat) {
    forall i :: 0 <= i < |after| ==> (i < |entries| && after[i] == entries[i]) || DocExists(after[i], n)
  }

  lemma {:induction false} EditKeepsUserDocs(entries: seq<Entry>, n: nat, after: seq<Entry>, n': nat)
    requires UserDocsExist(entries, n) && n <= n' && OldOrExists(entries, after, n')
    ensures UserDocsExist(after, n')
  {
  }

  lemma {:induction false} TreatmentIsOld(s: State, t: State, n: nat)
    requires ThreadInvariants.TurnsTreatElicitations(s, t) && UserDocsExist(s.entries, n)
    ensures OldOrExists(s.entries, t.entries, n)
  {
  }

  lemma {:induction false} TurnsKeepUserDocs(s: State, e: TurnEvent)
    requires UserDocsExist(s.entries, |s.markdown|)
    ensures UserDocsExist(TurnStep(s, e).entries, |TurnStep(s, e).markdown|)
  {
    var t := TurnStep(s, e);
    TurnsKeepDocuments(s, e);
    if t.entries != s.entries {
      if e.FinishTurn? {
        ThreadInvariants.FinishTreatsElicitations(s, e.turn);
      } else {
        ThreadInvariants.CancelTreatsElicitations(s);
      }
      TreatmentIsOld(s, t, |s.markdown|);
    }
    EditKeepsUserDocs(s.entries, |s.markdown|, t.entries, |t.markdown|);
  }

  lemma {:induction false} TurnsKeepDocuments(s: State, e: TurnEvent)
    ensures |TurnStep(s, e).markdown| == |s.markdown|
  {
    if e.FinishTurn? && CanFinish(s, e.turn) { FinishKeepsDocuments(s, e.turn); }
  }

  lemma {:induction false} FinishKeepsDocuments(s: State, k: nat)
    requires CanFinish(s, k)
    ensures |Finish(s, k).markdown| == |s.markdown|
  {
    if s.tasks[k].Replied? && s.tasks[k].answer.Response? {
      var u := (if IsSame(s, k) then s.(running := None) else s).(tasks := s.tasks[k := Finished]);
      ResponseKeepsDocuments(Flushed(u), s.tasks[k].answer.stop, IsSame(s, k));
    }
  }

  lemma {:induction false} ResponseKeepsDocuments(s: State, stop: StopReason, same: bool)
    ensures |FinishResponse(s, stop, same).markdown| == |s.markdown|
  {
  }

  lemma {:induction false} ChunksEdit(s: State, id: Option<nat>, c: AcpContent, thought: bool, indented: bool)
    ensures var t := PushAssistant(s, id, c, thought, indented);
            |s.markdown| <= |t.markdown| && OldOrExists(s.entries, t.entries, |t.markdown|)
  {
    ThreadInvariants.ChunkTouchesLastEntry(s, id, c, thought, indented);
    LastEdit(s.entries, PushAssistant(s, id, c, thought, indented).entries, indented, |s.markdown|);
    ChunkKeepsDocuments(s, id, c, thought, indented);
  }

  lemma {:induction false} LastEdit(entries: seq<Entry>, after: seq<Entry>, indented: bool, n: nat)
    requires ThreadInvariants.OnlyLastEntry(entries, after, indented)
    ensures forall m :: n <= m ==> OldOrExists(entries, after, m)
  {
  }

  lemma {:induction false} ChunkKeepsDocuments(s: State, id: Option<nat>, c: AcpContent, thought: bool, indented: bool)
    ensures |s.markdown| <= |PushAssistant(s, id, c, thought, indented).markdown|
  {
    var target := StreamingTarget(s, id, thought, indented);
    if !(c.TextContent? && target.Some?) { AppendKeepsDocuments(s, id, c, thought, indented); }
  }

  lemma {:induction false} AppendKeepsDocuments(s: State, id: Option<nat>, c: AcpContent, thought: bool, indented: bool)
    ensures |s.markdown| <= |AppendChunk(s, id, c, thought, indented).markdown|
  {
  }

  lemma {:induction false} UserPushEdits(s: State, clientId: Option<nat>, optimistic: bool, protocolId: Option<nat>, c: AcpContent, indented: bool)
    requires UserDocsExist(s.entries, |s.markdown|)
    ensures var t := PushUser(s, clientId, optimistic, protocolId, c, indented);
            |s.markdown| <= |t.markdown| && OldOrExists(s.entries, t.entries, |t.markdown|)
  {
    if JoinsUser(s.entries, protocolId, optimistic, indented) {
      var m := s.entries[|s.entries| - 1].message;
      assert DocExists(s.entries[|s.entries| - 1], |s.markdown|);
      GrowingKeepsDoc(Flushed(s).markdown, m, clientId, optimistic, protocolId, c);
    } else {
      StartingAddsDoc(s, clientId, optimistic, protocolId, c, indented);
    }
  }

  lemma {:induction false} GrowingKeepsDoc(markdown: seq<Text>, m: UserText, clientId: Option<nat>, optimistic: bool, protocolId: Option<nat>, c: AcpContent)
    requires m.content.Markdown? ==> m.content.markdown < |markdown|
    ensures var g := GrowUser(markdown, m, clientId, optimistic, protocolId, c);
            |markdown| <= |g.markdown| && DocExists(g.entry, |g.markdown|)
  {
  }

  lemma {:induction false} StartingAddsDoc(s: State, clientId: Option<nat>, optimistic: bool, protocolId: Option<nat>, c: AcpContent, indented: bool)
    requires !JoinsUser(s.entries, protocolId, optimistic, indented)
    ensures var t := PushUser(s, clientId, optimistic, protocolId, c, indented);
            |s.markdown| <= |t.markdown| && OldOrExists(s.entries, t.entries, |t.markdown|)
  {
  }

  lemma {:induction false} MessagesEdit(s: State, e: MessageEvent)
    requires UserDocsExist(s.entries, |s.markdown|)
    ensures var t := MessageStep(s, e); |s.markdown| <= |t.markdown| && OldOrExists(s.entries, t.entries, |t.markdown|)
  {
    match e
    case AgentChunk(id, c, thought, indented) => ChunksEdit(s, id, c, thought, indented);
    case UserPush(clientId, c, indented) => UserPushEdits(s, clientId, clientId.Some?, None, c, indented);
    case UserEcho(protocolId, c) => UserPushEdits(s, None, false, protocolId, c, false);
  }

  lemma {:induction false} UpsertEdits(s: State, id: nat, fields: T.Fields, hasTitle: bool, status: T.Status)
    ensures var t := Upsert(s, id, fields, hasTitle, status).state;
            |s.markdown| == |t.markdown| && OldOrExists(s.entries, t.entries, |t.markdown|)
  {
  }

  lemma {:induction false} CallsEdit(s: State, e: CallEvent)
    ensures var t := CallStep(s, e); |s.markdown| == |t.markdown| && OldOrExists(s.entries, t.entries, |t.markdown|)
  {
    match e
    case Upserted(id, fields, hasTitle, status) =>
      UpsertEdits(s, id, fields.(status := Some(status)), hasTitle, T.FromAcp(status));
    case AuthorizationRequested(id, fields, hasTitle, kind) =>
      UpsertEdits(s.(permissions := s.permissions + [[]]), id, fields, hasTitle,
                  T.WaitingForConfirmation(CurrentStatus(s, id, fields), |s.permissions|, kind));
    case _ => OtherCallsEdit(s, e);
  }

  lemma {:induction false} OtherCallsEdit(s: State, e: CallEvent)
    requires !e.Upserted? && !e.AuthorizationRequested?
    ensures var t := CallStep(s, e); |s.markdown| == |t.markdown| && OldOrExists(s.entries, t.entries, |t.markdown|)
  {
  }

  lemma {:induction false} BodiesEdit(s: State, e: BodyEvent)
    ensures var t := BodyStep(s, e); |s.markdown| <= |t.markdown| && OldOrExists(s.entries, t.entries, |t.markdown|)
  {
    if e.PromptPushed? { CombinedIsPrompt(s.markdown, e.prompt); }
  }

  lemma {:induction false} CompactionsEdit(s: State, e: CompactionEvent)
    ensures var t := CompactionStep(s, e); |s.markdown| <= |t.markdown| && OldOrExists(s.entries, t.entries, |t.markdown|)
  {
  }

  lemma {:induction false} RestEdits(s: State, e: Event)
    requires e.Elicit? || e.TimerTick? || e.PlanUpdated? || e.RewindStarted? || e.RewindDone? || e.TerminalEvent?
    ensures var t := Step(s, e); |s.markdown| == |t.markdown| && OldOrExists(s.entries, t.entries, |t.markdown|)
  {
  }

  lemma {:induction false} StepKeepsUserDocs(s: State, e: Event)
    requires UserDocsExist(s.entries, |s.markdown|)
    ensures UserDocsExist(Step(s, e).entries, |Step(s, e).markdown|)
  {
    if e.Turn? {
      TurnsKeepUserDocs(s, e.turn);
    } else {
      match e {
        case Message(m) => MessagesEdit(s, m);
        case Call(c) => CallsEdit(s, c);
        case Body(b) => BodiesEdit(s, b);
        case Compaction(c) => CompactionsEdit(s, c);
        case _ => RestEdits(s, e);
      }
      EditKeepsUserDocs(s.entries, |s.markdown|, Step(s, e).entries, |Step(s, e).markdown|);
    }
  }

  lemma {:induction false} RunKeepsUserDocs(events: seq<Event>)
    ensures UserDocsExist(Run(events).entries, |Run(events).markdown|)
  {
    if events != [] {
      RunKeepsUserDocs(events[..|events| - 1]);
      StepKeepsUserDocs(Run(events[..|events| - 1]), events[|events| - 1]);
    }
  }

  /** The last entry is a message of the user's at this indent, the ids agree, and the agent does not claim an optimistic one. */
  predicate ContinuesUser(entries: seq<Entry>, protocolId: Option<nat>, optimistic: bool, indented: bool) {
    && |entries| > 0
    && match entries[|entries| - 1]
       case UserMessage(m) =>
         && m.indented == indented
         && (m.protocolId.None? || protocolId.None? || m.protocolId.value == protocolId.value)
         && (m.optimistic && m.protocolId.None? && protocolId.Some? ==> optimistic)
       case _ => false
  }

  /** The last entry is an optimistic message that already holds this content, under an id that agrees. */
  predicate Echoes(entries: seq<Entry>, protocolId: Option<nat>, c: AcpContent) {
    && |entries| > 0
    && match entries[|entries| - 1]
       case UserMessage(m) => m.optimistic && c in m.chunks && (m.protocolId.None? || protocolId.None? || m.protocolId == protocolId)
       case _ => false
  }

  /** The last message took in the content: the ids it has stay, those it lacks are taken over, and its text goes on. */
  predicate TookIn(s: State, t: State, clientId: Option<nat>, optimistic: bool, protocolId: Option<nat>, c: AcpContent) {
    && |t.entries| == |s.entries| > 0 && t.entries[..|s.entries| - 1] == s.entries[..|s.entries| - 1]
    && s.entries[|s.entries| - 1].UserMessage? && t.entries[|s.entries| - 1].UserMessage?
    && var m, n := s.entries[|s.entries| - 1].message, t.entries[|s.entries| - 1].message;
    && n.protocolId == (if m.protocolId.Some? then m.protocolId else protocolId)
    && n.clientId == (if clientId.Some? then clientId else m.clientId)
    && (n.optimistic <==> m.optimistic || optimistic)
    && n.chunks == m.chunks + [c] && n.indented == m.indented
    && var d := Flushed(s).markdown;
    Shown(t.markdown, n.content)
    == (if m.content.Empty? then Reading(c)
        else if m.content.Markdown? then Shown(d, m.content) + Reading(c)
        else Shown(d, m.content) + Ascii("\n") + Reading(c))
  }

  /** A new message with this content alone. */
  predicate Started(s: State, t: State, clientId: Option<nat>, optimistic: bool, protocolId: Option<nat>, c: AcpContent, indented: bool) {
    && |t.entries| == |s.entries| + 1 && t.entries[..|s.entries|] == s.entries
    && t.entries[|s.entries|].UserMessage?
    && var n := t.entries[|s.entries|].message;
    n == UserText(protocolId, clientId, optimistic, n.content, [c], indented) && Shown(t.markdown, n.content) == Reading(c)
  }

  lemma {:induction false} PushTakesInOrStarts(s: State, clientId: Option<nat>, optimistic: bool, protocolId: Option<nat>, c: AcpContent, indented: bool)
    requires ThreadDocuments.DocumentsOk(s)
    requires UserDocsExist(s.entries, |s.markdown|)
    ensures var t := PushUser(s, clientId, optimistic, protocolId, c, indented);
            if ContinuesUser(s.entries, protocolId, optimistic, indented) then TookIn(s, t, clientId, optimistic, protocolId, c)
            else Started(s, t, clientId, optimistic, protocolId, c, indented)
  {
    if ContinuesUser(s.entries, protocolId, optimistic, indented) {
      TakesIn(s, clientId, optimistic, protocolId, c, indented);
    } else {
      Starts(s, clientId, optimistic, protocolId, c, indented);
    }
  }

  lemma {:induction false} TakesIn(s: State, clientId: Option<nat>, optimistic: bool, protocolId: Option<nat>, c: AcpContent, indented: bool)
    requires ContinuesUser(s.entries, protocolId, optimistic, indented)
    requires UserDocsExist(s.entries, |s.markdown|)
    ensures TookIn(s, PushUser(s, clientId, optimistic, protocolId, c, indented), clientId, optimistic, protocolId, c)
  {
    AbsorbingAppends(Flushed(s).markdown, s.entries[|s.entries| - 1].message.content, c);
  }

  lemma {:induction false} Starts(s: State, clientId: Option<nat>, optimistic: bool, protocolId: Option<nat>, c: AcpContent, indented: bool)
    requires ThreadDocuments.DocumentsOk(s) && !ContinuesUser(s.entries, protocolId, optimistic, indented)
    ensures Started(s, PushUser(s, clientId, optimistic, protocolId, c, indented), clientId, optimistic, protocolId, c, indented)
  {
    assert !JoinsUser(s.entries, protocolId, optimistic, indented);
    var a := Absorb(s.markdown, Empty, c);
    AbsorbingAppends(s.markdown, Empty, c);
    PushedReads(s, a, UserMessage(UserText(protocolId, clientId, optimistic, a.block, [c], indented)), Reading(c));
  }

  /** An entry with a block of its own is added: the pending text goes elsewhere. */
  lemma {:induction false} PushedReads(s: State, a: Absorbed, e: Entry, reading: Text)
    requires ThreadDocuments.DocumentsOk(s) && Shown(a.markdown, a.block) == reading && |s.markdown| <= |a.markdown|
    requires a.block.Markdown? ==> |s.markdown| <= a.block.markdown < |a.markdown|
    ensures var t := PushEntry(s.(markdown := a.markdown), e);
            t.entries == s.entries + [e] && t.buffer.None? && Shown(t.markdown, a.block) == reading
  {
  }

  /** After any run, what the user adds goes into the newest message exactly if it continues that, and starts one otherwise. */
  lemma {:induction false} UserTextTakesInOrStarts(events: seq<Event>, clientId: Option<nat>, c: AcpContent, indented: bool)
    ensures var s, t := Run(events), Step(Run(events), Message(UserPush(clientId, c, indented)));
            if ContinuesUser(s.entries, None, clientId.Some?, indented) then TookIn(s, t, clientId, clientId.Some?, None, c)
            else Started(s, t, clientId, clientId.Some?, None, c, indented)
  {
    Streaming.RunKeepsDocuments(events);
    RunKeepsUserDocs(events);
    PushTakesInOrStarts(Run(events), clientId, clientId.Some?, None, c, indented);
  }

  /** So does the agent's copy of it, unless it only echoes what an optimistic message already holds. */
  lemma {:induction false} AgentsCopyTakesInOrStarts(events: seq<Event>, protocolId: Option<nat>, c: AcpContent)
    requires !Echoes(Run(events).entries, protocolId, c)
    ensures var s, t := Run(events), Step(Run(events), Message(UserEcho(protocolId, c)));
            if ContinuesUser(s.entries, protocolId, false, false) then TookIn(s, t, None, false, protocolId, c)
            else Started(s, t, None, false, protocolId, c, false)
  {
    var s := Run(events);
    Streaming.RunKeepsDocuments(events);
    RunKeepsUserDocs(events);
    PushTakesInOrStarts(s, None, false, protocolId, c, false);
    assert Step(s, Message(UserEcho(protocolId, c))) == PushUser(s, None, false, protocolId, c, false);
  }

  /** An echo adds nothing but its id, and that only to a message without one. */
  lemma {:induction false} EchoAddsOnlyId(s: State, protocolId: Option<nat>, c: AcpContent)
    requires Echoes(s.entries, protocolId, c)
    ensures var t, last := Step(s, Message(UserEcho(protocolId, c))), |s.entries| - 1;
            && |t.entries| == |s.entries| && t == s.(entries := s.entries[last := t.entries[last]])
            && t.entries[last] == UserMessage(s.entries[last].message.(protocolId := t.entries[last].message.protocolId))
            && t.entries[last].message.protocolId
               == (if s.entries[last].message.protocolId.Some? then s.entries[last].message.protocolId else protocolId)
  {
  }

  // ---------- content from the agent ----------

  /** The last entry is an assistant message at this indent. */
  predicate AgentSpokeLast(entries: seq<Entry>, indented: bool) {
    && |entries| > 0
    && match entries[|entries| - 1]
       case AssistantMessage(_, at) => at == indented
       case _ => false
  }

  /** Its last chunk is of this kind, and the ids agree. */
  predicate ContinuesChunk(chunks: seq<Chunk>, id: Option<nat>, thought: bool) {
    && |chunks| > 0
    && var last := chunks[|chunks| - 1];
    last.thought == thought && (last.id.None? || id.None? || last.id.value == id.value)
  }

  lemma {:induction false} NothingToStream(s: State, id: Option<nat>, c: AcpContent, thought: bool, indented: bool)
    requires !AgentSpokeLast(s.entries, indented) || !ContinuesChunk(s.entries[|s.entries| - 1].chunks, id, thought)
    ensures Step(s, Message(AgentChunk(id, c, thought, indented))) == AppendChunk(s, id, c, thought, indented)
  {
  }

  /** Unless the agent spoke last, at this indent, its content starts a message. */
  lemma {:induction false} AgentStartsMessage(s: State, id: Option<nat>, c: AcpContent, thought: bool, indented: bool)
    requires ThreadDocuments.DocumentsOk(s) && !AgentSpokeLast(s.entries, indented)
    ensures var t := Step(s, Message(AgentChunk(id, c, thought, indented)));
            && |t.entries| == |s.entries| + 1 && t.entries[..|s.entries|] == s.entries && t.buffer.None?
            && t.entries[|s.entries|].AssistantMessage? && t.entries[|s.entries|].indented == indented
            && var chunks := t.entries[|s.entries|].chunks;
            |chunks| == 1 && chunks[0] == Chunk(thought, id, chunks[0].block) && Shown(t.markdown, chunks[0].block) == Reading(c)
  {
    NothingToStream(s, id, c, thought, indented);
    assert !LastIsAssistant(s.entries, indented);
    var a := Absorb(s.markdown, Empty, c);
    AbsorbingAppends(s.markdown, Empty, c);
    PushedReads(s, a, AssistantMessage([Chunk(thought, id, a.block)], indented), Reading(c));
  }

  /** If it did, content that does not continue its last chunk is a chunk of its own ... */
  lemma {:induction false} AgentAddsChunk(s: State, id: Option<nat>, c: AcpContent, thought: bool, indented: bool)
    requires AgentSpokeLast(s.entries, indented) && !ContinuesChunk(s.entries[|s.entries| - 1].chunks, id, thought)
    ensures var t, last := Step(s, Message(AgentChunk(id, c, thought, indented))), |s.entries| - 1;
            && |t.entries| == |s.entries| && t.entries == s.entries[last := t.entries[last]] && t.buffer.None?
            && t.entries[last].AssistantMessage? && t.entries[last].indented == indented
            && var was, now := s.entries[last].chunks, t.entries[last].chunks;
            && |now| == |was| + 1 && now[..|was|] == was && now[|was|] == Chunk(thought, id, now[|was|].block)
            && Shown(t.markdown, now[|was|].block) == Reading(c)
  {
    NothingToStream(s, id, c, thought, indented);
    assert LastIsAssistant(s.entries, indented) && !Joins(s.entries[|s.entries| - 1].chunks, thought, id);
    AbsorbingAppends(Flushed(s).markdown, Empty, c);
  }

  /** The last chunk stays, but for its block and an id that it lacked. */
  predicate ChunkWentOn(was: seq<Chunk>, now: seq<Chunk>, id: Option<nat>, thought: bool) {
    && |now| == |was| > 0
    && var n := |was| - 1;
    && now[..n] == was[..n] && now[n].thought == thought && now[n].id == (if was[n].id.Some? then was[n].id else id)
  }

  /** ... and content that does goes into it. */
  lemma {:induction false} AgentContinuesChunk(s: State, id: Option<nat>, c: AcpContent, thought: bool, indented: bool)
    requires AgentSpokeLast(s.entries, indented) && ContinuesChunk(s.entries[|s.entries| - 1].chunks, id, thought)
    ensures var t, last := Step(s, Message(AgentChunk(id, c, thought, indented))), |s.entries| - 1;
            && |t.entries| == |s.entries| && t.entries == s.entries[last := t.entries[last]]
            && t.entries[last].AssistantMessage? && t.entries[last].indented == indented
            && ChunkWentOn(s.entries[last].chunks, t.entries[last].chunks, id, thought)
  {
    assert LastIsAssistant(s.entries, indented) && Joins(s.entries[|s.entries| - 1].chunks, thought, id);
    AppendContinues(s, id, c, thought, indented);
    var target := StreamingTarget(s, id, thought, indented);
    if c.TextContent? && target.Some? {
      AdoptingContinues(s.entries, id, thought, indented);
      assert PushAssistant(s, id, c, thought, indented).entries == AdoptedId(s.entries, id);
    }
  }

  lemma {:induction false} AppendContinues(s: State, id: Option<nat>, c: AcpContent, thought: bool, indented: bool)
    requires LastIsAssistant(s.entries, indented) && Joins(s.entries[|s.entries| - 1].chunks, thought, id)
    ensures var t, last := AppendChunk(s, id, c, thought, indented), |s.entries| - 1;
            && |t.entries| == |s.entries| && t.entries == s.entries[last := t.entries[last]]
            && t.entries[last].AssistantMessage? && t.entries[last].indented == indented
            && ChunkWentOn(s.entries[last].chunks, t.entries[last].chunks, id, thought)
  {
  }

  lemma {:induction false} AdoptingContinues(entries: seq<Entry>, id: Option<nat>, thought: bool, indented: bool)
    requires LastIsAssistant(entries, indented) && Joins(entries[|entries| - 1].chunks, thought, id)
    ensures var after, last := AdoptedId(entries, id), |entries| - 1;
            && |after| == |entries| && after == entries[last := after[last]]
            && after[last].AssistantMessage? && after[last].indented == indented
            && ChunkWentOn(entries[last].chunks, after[last].chunks, id, thought)
  {
  }

  /** The last entry is an assistant message at this indent whose last chunk is Markdown of this kind, under an id that agrees. */
  predicate Streams(entries: seq<Entry>, id: Option<nat>, thought: bool, indented: bool) {
    && |entries| > 0
    && match entries[|entries| - 1]
       case AssistantMessage(chunks, at) =>
         && at == indented && |chunks| > 0
         && var last := chunks[|chunks| - 1];
         last.thought == thought && last.block.Markdown? && (last.id.None? || id.None? || last.id == id)
       case _ => false
  }

  /**
   Text that goes on in a shown chunk is held back, and not shown at once: it joins what is pending
   for the chunk, at the least rate that reveals all of it within 200 ms at a tick every 16 ms; what
   was pending for another document is shown.
   */
  lemma {:induction false} TextIsHeldBack(s: State, id: Option<nat>, text: Text, thought: bool, indented: bool)
    requires Streams(s.entries, id, thought, indented)
    ensures var t := Step(s, Message(AgentChunk(id, TextContent(text), thought, indented)));
            var chunks := s.entries[|s.entries| - 1].chunks;
            var m := chunks[|chunks| - 1].block.markdown;
            && t.buffer.Some? && t.buffer.value.target == m
            && (if s.buffer.Some? && s.buffer.value.target == m then
                  t.markdown == s.markdown && t.buffer.value.pending == s.buffer.value.pending + text
                else AllShown(s, t.(buffer := None)) && t.buffer.value.pending == text)
            && IsLeastRate(t.buffer.value.rate, |t.buffer.value.pending|)
  {
    assert LastIsAssistant(s.entries, indented) && Joins(s.entries[|s.entries| - 1].chunks, thought, id);
    var chunks := s.entries[|s.entries| - 1].chunks;
    var m := chunks[|chunks| - 1].block.markdown;
    assert StreamingTarget(s, id, thought, indented) == Some(m);
    TextJoinsBuffer(s.(entries := AdoptedId(s.entries, id)), m, text);
  }

  predicate IsLeastRate(rate: nat, n: nat) {
    200 * rate >= 16 * n && (n > 0 ==> 200 * (rate - 1) < 16 * n)
  }

  lemma {:induction false} TextJoinsBuffer(s: State, m: nat, text: Text)
    ensures var t := BufferedText(s, m, text);
            && t.buffer.Some? && t.buffer.value.target == m
            && (if s.buffer.Some? && s.buffer.value.target == m then
                  t.markdown == s.markdown && t.buffer.value.pending == s.buffer.value.pending + text
                else AllShown(s, t.(buffer := None)) && t.buffer.value.pending == text)
            && IsLeastRate(t.buffer.value.rate, |t.buffer.value.pending|)
  {
    ThreadDocuments.RateCoversPending(|BufferedText(s, m, text).buffer.value.pending|);
  }

  // ---------- compactions ----------

  predicate CompactionAt(entries: seq<Entry>, id: nat, i: nat) {
    && i < |entries| && entries[i].ContextCompaction? && entries[i].compaction == id
    && forall j :: i < j < |entries| && entries[j].ContextCompaction? ==> entries[j].compaction != id
  }

  predicate NoCompaction(entries: seq<Entry>, id: nat) {
    forall j :: 0 <= j < |entries| && entries[j].ContextCompaction? ==> entries[j].compaction != id
  }

  function SummaryText(s: State, e: Entry): Text
    requires e.ContextCompaction?
  {
    if e.summary.Some? && e.summary.value < |s.markdown| then s.markdown[e.summary.value] else []
  }

  lemma {:induction false} CompactionFoundAt(entries: seq<Entry>, id: nat, i: nat)
    requires CompactionAt(entries, id, i)
    ensures FindCompaction(entries, id) == Some(i)
  {
  }

  /** A compaction takes the place of the one with its id, or is added; its summary reads as given. */
  lemma {:induction false} CompactionIsShown(s: State, id: nat, status: CompactionStatus, summary: Option<Text>, i: nat)
    requires ThreadDocuments.DocumentsOk(s)
    ensures var t := Step(s, Compaction(Pushed(id, status, summary)));
            && (CompactionAt(s.entries, id, i) ==>
                  && |t.entries| == |s.entries| && t.entries == s.entries[i := t.entries[i]]
                  && IsCompaction(t, t.entries[i], id, status, summary))
            && (NoCompaction(s.entries, id) ==>
                  && |t.entries| == |s.entries| + 1 && t.entries[..|s.entries|] == s.entries
                  && IsCompaction(t, t.entries[|s.entries|], id, status, summary))
  {
    if CompactionAt(s.entries, id, i) { CompactionFoundAt(s.entries, id, i); }
  }

  predicate IsCompaction(t: State, e: Entry, id: nat, status: CompactionStatus, summary: Option<Text>) {
    && e.ContextCompaction? && e.compaction == id && e.status == status
    && (e.summary.Some? <==> summary.Some?)
    && (summary.Some? ==> SummaryText(t, e) == summary.value)
  }

  /**
   More of a summary goes to its end, or starts it; a new status replaces the old one; an unknown
   compaction changes nothing, and neither does the rest of the timeline.
   */
  lemma {:induction false} SummaryGoesOn(s: State, id: nat, delta: Text, status: Option<CompactionStatus>, i: nat)
    requires ThreadDocuments.DocumentsOk(s)
    ensures var t := Step(s, Compaction(SummaryExtended(id, delta, status)));
            && (NoCompaction(s.entries, id) ==> t == s)
            && (CompactionAt(s.entries, id, i) ==>
                  && |t.entries| == |s.entries| && t.entries == s.entries[i := t.entries[i]] && t.entries[i].ContextCompaction?
                  && var e, e' := s.entries[i], t.entries[i];
                  && e'.compaction == id && e'.status == (if status.Some? then status.value else e.status)
                  && (e'.summary.Some? <==> e.summary.Some? || delta != [])
                  && SummaryText(t, e') == SummaryText(s, e) + delta
                  && t.buffer == s.buffer)
  {
    if CompactionAt(s.entries, id, i) {
      CompactionFoundAt(s.entries, id, i);
      var e := s.entries[i];
      assert ThreadDocuments.SummaryOf(e).Some? ==> ThreadDocuments.SummaryOf(e).value < |s.markdown|;
      assert SummaryText(s, e) + [] == SummaryText(s, e);
    }
  }

  // ---------- rewinding ----------

  predicate FirstPromptOf(entries: seq<Entry>, clientId: nat, u: nat) {
    && u < |entries| && IsPromptOf(entries[u], clientId)
    && forall j :: 0 <= j < u ==> !IsPromptOf(entries[j], clientId)
  }

  predicate IsPromptOf(e: Entry, clientId: nat) {
    e.UserMessage? && e.message.clientId == Some(clientId)
  }

  /** Some entry from `u` on is a tool call that shows the terminal. */
  predicate ShownFrom(entries: seq<Entry>, u: nat, terminal: nat) {
    exists i :: u <= i < |entries| && entries[i].ToolCall? && T.Terminal(terminal) in entries[i].call.content
  }

  lemma {:induction false} FirstPromptFound(entries: seq<Entry>, clientId: nat, u: nat)
    requires FirstPromptOf(entries, clientId, u)
    ensures FindUser(entries, clientId) == Some(u)
  {
    assert IsPromptOf(entries[u], clientId);
  }

  /**
   Rewinding to a prompt removes it with all that follows, and exactly the terminals that what was
   removed had shown; rewinding to an unknown prompt changes nothing.
   */
  lemma {:induction false} RewindRemovesRest(s: State, clientId: nat, u: nat)
    ensures var t := Step(s, RewindDone(clientId));
            && ((forall j :: 0 <= j < |s.entries| ==> !IsPromptOf(s.entries[j], clientId)) ==> t == s)
            && (FirstPromptOf(s.entries, clientId, u) ==>
                  && t.entries == s.entries[..u]
                  && t == s.(entries := t.entries, terminals := s.terminals.(live := t.terminals.live))
                  && (forall id :: id in t.terminals.live <==> id in s.terminals.live && !ShownFrom(s.entries, u, id))
                  && (forall id :: id in t.terminals.live ==> t.terminals.live[id] == s.terminals.live[id]))
  {
    if FirstPromptOf(s.entries, clientId, u) {
      FirstPromptFound(s.entries, clientId, u);
      forall id ensures ShownFrom(s.entries, u, id) <==> exists i :: u <= i < |s.entries| && Shows(s.entries[i], id) {
        if ShownFrom(s.entries, u, id) {
          var i :| u <= i < |s.entries| && s.entries[i].ToolCall? && T.Terminal(id) in s.entries[i].call.content;
          assert Shows(s.entries[i], id);
        }
      }
    }
    var found := FindUser(s.entries, clientId);
    if found.Some? { assert IsPromptOf(s.entries[found.value], clientId); }
  }

  /** Before it waits for the agent, a rewind only shows what is pending; and a plan is simply replaced. */
  lemma {:induction false} RewindShowsPending(s: State, plan: seq<PlanEntry>)
    ensures var t := Step(s, RewindStarted); AllShown(s, t) && t == s.(markdown := t.markdown, buffer := None)
    ensures Step(s, PlanUpdated(plan)) == s.(plan := plan)
  {
    FlushingShowsAll(s, Flushed(s));
  }

  // ---------- elicitations ----------

  /** A request that is in order waits in the store under a new id, and the timeline shows it last. */
  lemma {:induction false} RequestIsShown(s: State, mode: E.Mode, requestId: Option<nat>)
    ensures var t, id := Step(s, Elicit(Requested(mode, requestId, true))), |s.elicitations.delivered|;
            && AllShown(s, t) && t.entries == s.entries + [Elicitation(id)]
            && t.elicitations.items == s.elicitations.items + [E.Elicitation(id, mode, requestId, E.Pending)]
            && t.elicitations.delivered == s.elicitations.delivered + [[]]
    ensures Step(s, Elicit(Requested(mode, requestId, false))) == s
  {
    FlushingShowsAll(s, Step(s, Elicit(Requested(mode, requestId, true))));
  }

  /**
   Answers and cancellations reach the store exactly when the timeline shows the elicitation they
   are for; they change nothing else.
   */
  lemma {:induction false} ShownElicitationsAreReached(s: State, id: nat, action: E.Action)
    ensures Step(s, Elicit(Answered(id, action)))
            == if Elicitation(id) in s.entries then s.(elicitations := E.Step(s.elicitations, E.OpRespond(id, action))) else s
    ensures Step(s, Elicit(Canceled(id)))
            == if Elicitation(id) in s.entries then s.(elicitations := E.Step(s.elicitations, E.OpCancel(id))) else s
  {
  }

  /** So do completions of links, for the newest elicitation of the url. */
  lemma {:induction false} ShownLinksAreReached(s: State, urlId: nat, u: nat)
    ensures u < |s.elicitations.items| && s.elicitations.items[u].mode == E.Url(urlId)
            && (forall j :: u < j < |s.elicitations.items| ==> s.elicitations.items[j].mode != E.Url(urlId)) ==>
              Step(s, Elicit(UrlCompleted(urlId)))
              == if Elicitation(s.elicitations.items[u].id) in s.entries
                 then s.(elicitations := E.Step(s.elicitations, E.OpCompleteUrl(urlId))) else s
    ensures (forall j :: 0 <= j < |s.elicitations.items| ==> s.elicitations.items[j].mode != E.Url(urlId)) ==>
              Step(s, Elicit(UrlCompleted(urlId))) == s
  {
  }

  // ---------- terminals ----------

  /** Events of terminals reach the table of terminals, and nothing else. */
  lemma {:induction false} TerminalsAreSeparate(s: State, e: Tm.Event)
    ensures Step(s, TerminalEvent(e)) == s.(terminals := Tm.Run(s.terminals, [e]))
  {
    assert [e][..0] == [];
  }
}
