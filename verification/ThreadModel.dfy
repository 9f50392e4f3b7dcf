/**
 The agent thread as a state machine: the thread's fields, the far ends of its one-shot
 channels and turn tasks, and one function per operation.

 Markdown documents, permission channels, elicitations and turn tasks are named by their
 position in a sequence, so a new one is always fresh.
 */
module ThreadModel {
  import opened Prelude
  import opened Utf8
  import opened Content
  import T = ToolCalls
  import E = Elicitations
  import Tm = Terminals

  // ---------- the timeline ----------

  /** A message or thought chunk; `id` is the agent's message id when known. */
  datatype Chunk = Chunk(thought: bool, id: Option<nat>, block: ContentBlock<nat>)

  datatype UserText = UserText(protocolId: Option<nat>, clientId: Option<nat>, optimistic: bool,
                               content: ContentBlock<nat>, chunks: seq<AcpContent>, indented: bool)

  datatype CompactionStatus = CompactionInProgress | CompactionCompleted | CompactionCanceled

  datatype PlanStatus = PlanPending | PlanInProgress | PlanCompleted | PlanOther

  datatype PlanEntry = PlanEntry(content: Text, priority: nat, status: PlanStatus)

  datatype Entry =
    | UserMessage(message: UserText)
    | AssistantMessage(chunks: seq<Chunk>, indented: bool)
    | ToolCall(call: T.CallState)
    | Elicitation(elicitation: nat)
    | CompletedPlan(plan: seq<PlanEntry>)
    | ContextCompaction(compaction: nat, status: CompactionStatus, summary: Option<nat>)

  // ---------- turns ----------

  datatype StopReason = EndTurn | MaxTokens | MaxTurnRequests | Refusal | Cancelled

  datatype Answer = Response(stop: StopReason) | Failure

  /** How far a turn's body and its finishing closure have come. */
  datatype Task = Working | Replied(answer: Answer) | SenderDropped | Finished | Abandoned

  const TURN_ID_LIMIT: nat := 0x1_0000_0000

  /** The id of the turn whose task is at `k`: a 32-bit counter that starts at one. */
  function IdOfTurn(k: nat): (id: nat)
    ensures id < TURN_ID_LIMIT
  {
    (k + 1) % TURN_ID_LIMIT
  }

  // ---------- the state ----------

  /** Text received but not yet shown, the number of bytes to show per tick, and where they go. */
  datatype Buffer = Buffer(pending: Text, rate: nat, target: nat)

  /** The user's answer to a permission prompt. */
  datatype Choice = Choice(optionId: nat, kind: T.OptionKind)

  /** `permissions[c]` lists what the receiver of permission channel `c` got. */
  datatype State = State(
    entries: seq<Entry>,
    elicitations: E.Store,
    plan: seq<PlanEntry>,
    turnId: nat,
    running: Option<nat>,
    hadError: bool,
    buffer: Option<Buffer>,
    markdown: seq<Text>,
    terminals: Tm.State,
    tasks: seq<Task>,
    permissions: seq<seq<Choice>>)

  const INITIAL := State([], E.EMPTY, [], 0, None, false, None, [], Tm.EMPTY, [], [])

  // ---------- streaming text ----------

  /** 200 ms to reveal everything at one tick per 16 ms, rounded up. */
  function RevealRate(pending: nat): nat {
    (pending * 16 + 199) / 200
  }

  /** The documents with `text` added at the end of document `m`. */
  function Extended(markdown: seq<Text>, m: nat, text: Text): (r: seq<Text>)
    ensures |r| == |markdown|
  {
    if m < |markdown| then markdown[m := markdown[m] + text] else markdown
  }

  function Flushed(s: State): State {
    match s.buffer
    case None => s
    case Some(b) => s.(markdown := Extended(s.markdown, b.target, b.pending), buffer := None)
  }

  function BufferedText(s: State, target: nat, text: Text): State {
    if s.buffer.Some? && s.buffer.value.target == target then
      var pending := s.buffer.value.pending + text;
      s.(buffer := Some(Buffer(pending, RevealRate(|pending|), target)))
    else
      Flushed(s).(buffer := Some(Buffer(text, RevealRate(|text|), target)))
  }

  function Tick(s: State): State {
    match s.buffer
    case None => s
    case Some(b) =>
      if b.pending == [] then s
      else
        var cut := CeilBoundary(b.pending, b.rate);
        s.(markdown := Extended(s.markdown, b.target, b.pending[..cut]),
           buffer := Some(b.(pending := b.pending[cut..])))
  }

  // ---------- entries ----------

  function PushEntry(s: State, e: Entry): State {
    var f := Flushed(s);
    f.(entries := f.entries + [e])
  }

  /** A block absorbs content, extending its own document or getting a new one. */
  datatype Absorbed = Absorbed(markdown: seq<Text>, block: ContentBlock<nat>)

  function Absorb(markdown: seq<Text>, b: ContentBlock<nat>, c: AcpContent): Absorbed {
    match AppendEffect(b, c)
    case BecomeLink(uri, link) => Absorbed(markdown, ResourceLink(uri, link))
    case BecomeImage(image) => Absorbed(markdown, Image(image))
    case NewMarkdown(text) => Absorbed(markdown + [text], Markdown(|markdown|))
    case Extend(text) => Absorbed(Extended(markdown, b.markdown, text), b)
  }

  predicate CanMerge(existing: Option<nat>, incoming: Option<nat>) {
    existing.Some? && incoming.Some? ==> existing == incoming
  }

  function Adopt(existing: Option<nat>, incoming: Option<nat>): Option<nat> {
    if existing.None? then incoming else existing
  }

  /** Whether the last entry is an assistant message at this indent. */
  predicate LastIsAssistant(entries: seq<Entry>, indented: bool) {
    |entries| > 0 && entries[|entries| - 1].AssistantMessage? && entries[|entries| - 1].indented == indented
  }

  predicate Joins(chunks: seq<Chunk>, thought: bool, id: Option<nat>) {
    |chunks| > 0 && chunks[|chunks| - 1].thought == thought && CanMerge(chunks[|chunks| - 1].id, id)
  }

  function WithLast<A>(xs: seq<A>, x: A): (r: seq<A>)
    requires |xs| > 0
    ensures |r| == |xs|
  {
    xs[|xs| - 1 := x]
  }

  /** The document that streamed text goes to: the last chunk, when the text joins it and it is Markdown. */
  function StreamingTarget(s: State, id: Option<nat>, thought: bool, indented: bool): Option<nat> {
    if LastIsAssistant(s.entries, indented) && Joins(s.entries[|s.entries| - 1].chunks, thought, id) then
      var chunks := s.entries[|s.entries| - 1].chunks;
      var block := chunks[|chunks| - 1].block;
      if block.Markdown? then Some(block.markdown) else None
    else None
  }

  /** The last chunk takes the id of what joins it, if it had none. */
  function AdoptedId(entries: seq<Entry>, id: Option<nat>): seq<Entry> {
    if |entries| > 0 && entries[|entries| - 1].AssistantMessage? && |entries[|entries| - 1].chunks| > 0 then
      var chunks := entries[|entries| - 1].chunks;
      var last := chunks[|chunks| - 1];
      WithLast(entries, entries[|entries| - 1].(chunks := WithLast(chunks, last.(id := Adopt(last.id, id)))))
    else entries
  }

  /** An entry that took in content, and the documents after it. */
  datatype Grown = Grown(markdown: seq<Text>, entry: Entry)

  /** An assistant message takes in content: its last chunk does, if the content joins it, or a new one. */
  function Grow(markdown: seq<Text>, entry: Entry, id: Option<nat>, c: AcpContent, thought: bool): (g: Grown)
    requires entry.AssistantMessage?
    ensures g.entry.AssistantMessage? && g.entry.indented == entry.indented
  {
    if Joins(entry.chunks, thought, id) then
      var last := entry.chunks[|entry.chunks| - 1];
      var a := Absorb(markdown, last.block, c);
      Grown(a.markdown, entry.(chunks := WithLast(entry.chunks, Chunk(thought, Adopt(last.id, id), a.block))))
    else
      var a := Absorb(markdown, Empty, c);
      Grown(a.markdown, entry.(chunks := entry.chunks + [Chunk(thought, id, a.block)]))
  }

  /** Adding content without buffering: the plain meaning of a chunk. */
  function AppendChunk(s: State, id: Option<nat>, c: AcpContent, thought: bool, indented: bool): State {
    if LastIsAssistant(s.entries, indented) then
      var f := Flushed(s);
      var g := Grow(f.markdown, s.entries[|s.entries| - 1], id, c, thought);
      f.(markdown := g.markdown, entries := WithLast(s.entries, g.entry))
    else
      var a := Absorb(s.markdown, Empty, c);
      PushEntry(s.(markdown := a.markdown), AssistantMessage([Chunk(thought, id, a.block)], indented))
  }

  /** What the thread does: text for an existing Markdown chunk is buffered. */
  function PushAssistant(s: State, id: Option<nat>, c: AcpContent, thought: bool, indented: bool): State {
    var target := StreamingTarget(s, id, thought, indented);
    if c.TextContent? && target.Some? then
      BufferedText(s.(entries := AdoptedId(s.entries, id)), target.value, c.text)
    else AppendChunk(s, id, c, thought, indented)
  }

  predicate JoinsUser(entries: seq<Entry>, protocolId: Option<nat>, optimistic: bool, indented: bool) {
    && |entries| > 0 && entries[|entries| - 1].UserMessage?
    && var m := entries[|entries| - 1].message;
    && m.indented == indented
    && CanMerge(m.protocolId, protocolId)
    && !(m.optimistic && !optimistic && m.protocolId.None? && protocolId.Some?)
  }

  function GrowUser(markdown: seq<Text>, m: UserText, clientId: Option<nat>, optimistic: bool, protocolId: Option<nat>, c: AcpContent): (g: Grown)
    ensures g.entry.UserMessage?
  {
    var a := Absorb(markdown, m.content, c);
    Grown(a.markdown, UserMessage(UserText(
      Adopt(m.protocolId, protocolId), if clientId.Some? then clientId else m.clientId,
      m.optimistic || optimistic, a.block, m.chunks + [c], m.indented)))
  }

  function PushUser(s: State, clientId: Option<nat>, optimistic: bool, protocolId: Option<nat>, c: AcpContent, indented: bool): State {
    if JoinsUser(s.entries, protocolId, optimistic, indented) then
      var f := Flushed(s);
      var g := GrowUser(f.markdown, s.entries[|s.entries| - 1].message, clientId, optimistic, protocolId, c);
      f.(markdown := g.markdown, entries := WithLast(s.entries, g.entry))
    else
      var a := Absorb(s.markdown, Empty, c);
      PushEntry(s.(markdown := a.markdown), UserMessage(UserText(protocolId, clientId, optimistic, a.block, [c], indented)))
  }

  /** An agent that echoes the user's own prompt adds nothing. */
  predicate Echo(entries: seq<Entry>, protocolId: Option<nat>, c: AcpContent) {
    && |entries| > 0 && entries[|entries| - 1].UserMessage?
    && var m := entries[|entries| - 1].message;
    m.optimistic && c in m.chunks && CanMerge(m.protocolId, protocolId)
  }

  function UserChunk(s: State, protocolId: Option<nat>, c: AcpContent): State {
    if Echo(s.entries, protocolId, c) then
      var m := s.entries[|s.entries| - 1].message;
      s.(entries := WithLast(s.entries, UserMessage(m.(protocolId := Adopt(m.protocolId, protocolId)))))
    else PushUser(s, None, false, protocolId, c, false)
  }

  /** The prompt's blocks folded into one, as the optimistic user message shows it. */
  function Combined(markdown: seq<Text>, b: ContentBlock<nat>, cs: seq<AcpContent>): Absorbed
    decreases cs
  {
    if cs == [] then Absorbed(markdown, b)
    else
      var a := Absorb(markdown, b, cs[0]);
      Combined(a.markdown, a.block, cs[1..])
  }

  function PushPrompt(s: State, clientId: Option<nat>, cs: seq<AcpContent>): State {
    var a := Combined(s.markdown, Empty, cs);
    PushEntry(s.(markdown := a.markdown), UserMessage(UserText(None, clientId, true, a.block, cs, false)))
  }

  // ---------- cancelling ----------

  function CanceledEntry(e: Entry): Entry {
    match e
    case ToolCall(call) => if T.Cancelable(call.status) then ToolCall(call.(status := T.Canceled)) else e
    case ContextCompaction(_, status, _) => if status.CompactionInProgress? then e.(status := CompactionCanceled) else e
    case _ => e
  }

  function MarkCanceled(entries: seq<Entry>): (r: seq<Entry>)
    ensures |r| == |entries| && forall i :: 0 <= i < |r| ==> r[i] == CanceledEntry(entries[i])
  {
    seq(|entries|, i requires 0 <= i < |entries| => CanceledEntry(entries[i]))
  }

  function InTimeline(entries: seq<Entry>): E.Elicitation -> bool {
    (e: E.Elicitation) => Elicitation(e.id) in entries
  }

  function CancelOutstanding(s: State): State {
    s.(elicitations := E.CancelWhere(s.elicitations, InTimeline(s.entries)))
  }

  function CancelPendingTurnEntries(s: State): State {
    CancelOutstanding(s.(entries := MarkCanceled(s.entries)))
  }

  function Cancel(s: State): State {
    var c := CancelOutstanding(Flushed(s));
    if c.running.None? then c else c.(running := None, entries := MarkCanceled(c.entries))
  }

  // ---------- turns ----------

  function Unfinished(plan: seq<PlanEntry>): (r: seq<PlanEntry>)
    ensures forall e :: e in r <==> e in plan && !e.status.PlanCompleted?
  {
    if plan == [] then []
    else if plan[0].status.PlanCompleted? then Unfinished(plan[1..])
    else [plan[0]] + Unfinished(plan[1..])
  }

  function RunTurn(s: State): State {
    var c := Cancel(s.(plan := Unfinished(s.plan), hadError := false));
    var id := (c.turnId + 1) % TURN_ID_LIMIT;
    c.(turnId := id, running := Some(id), tasks := c.tasks + [Working])
  }

  predicate AllDone(plan: seq<PlanEntry>) {
    forall i :: 0 <= i < |plan| ==> !plan[i].status.PlanPending? && !plan[i].status.PlanInProgress?
  }

  function SnapshotCompletedPlan(s: State): State {
    if s.plan != [] && AllDone(s.plan) then PushEntry(s.(plan := []), CompletedPlan(s.plan)) else s
  }

  /** The newest user message. */
  function LastUser(entries: seq<Entry>): (r: Option<nat>)
    ensures r.Some? ==> r.value < |entries| && entries[r.value].UserMessage?
    ensures r.Some? ==> forall j :: r.value < j < |entries| ==> !entries[j].UserMessage?
    ensures r.None? ==> forall j :: 0 <= j < |entries| ==> !entries[j].UserMessage?
  {
    if entries == [] then None
    else if entries[|entries| - 1].UserMessage? then Some(|entries| - 1)
    else LastUser(entries[..|entries| - 1])
  }

  predicate HasToolOutputAfter(entries: seq<Entry>, from: nat) {
    exists i :: from < i < |entries| && entries[i].ToolCall? && entries[i].call.status.Completed? && entries[i].call.hasOutput
  }

  /** A refused prompt is taken back; a refusal that answers a tool's output only reports. */
  function Refuse(s: State): State {
    var u := LastUser(s.entries);
    var r := s.(hadError := true);
    if u.None? || HasToolOutputAfter(s.entries, u.value) then r else r.(entries := s.entries[..u.value])
  }

  predicate IsSame(s: State, k: nat) {
    s.running == Some(IdOfTurn(k))
  }

  predicate CanFinish(s: State, k: nat) {
    k < |s.tasks| && (s.tasks[k].Replied? || s.tasks[k].SenderDropped?)
  }

  /** The finishing closure of the turn whose task is at `k`. */
  function Finish(s: State, k: nat): State
    requires CanFinish(s, k)
  {
    var same := IsSame(s, k);
    var t := s.(tasks := s.tasks[k := Finished]);
    if s.tasks[k] == Replied(Response(MaxTurnRequests)) && !same then t
    else
      var u := if same then t.(running := None) else t;
      match s.tasks[k]
      case Replied(Response(stop)) => FinishResponse(Flushed(u), stop, same)
      case Replied(Failure) => (if same then CancelPendingTurnEntries(Flushed(u)) else Flushed(u)).(hadError := true)
      case _ => u
  }

  function FinishResponse(s: State, stop: StopReason, same: bool): State {
    match stop
    case MaxTokens | MaxTurnRequests => (if same then CancelPendingTurnEntries(s) else s).(hadError := true)
    case Cancelled => if same then CancelPendingTurnEntries(s) else s
    case EndTurn => SnapshotCompletedPlan(s)
    case Refusal => Refuse(SnapshotCompletedPlan(s))
  }

  // ---------- tool calls and permission prompts ----------

  function FindCall(entries: seq<Entry>, id: nat): (r: Option<nat>)
    ensures r.Some? ==> r.value < |entries| && entries[r.value].ToolCall? && entries[r.value].call.id == id
    ensures r.None? ==> forall j :: 0 <= j < |entries| && entries[j].ToolCall? ==> entries[j].call.id != id
    ensures r.Some? ==> forall j :: r.value < j < |entries| && entries[j].ToolCall? ==> entries[j].call.id != id
  {
    if entries == [] then None
    else
      var last := entries[|entries| - 1];
      if last.ToolCall? && last.call.id == id then Some(|entries| - 1)
      else FindCall(entries[..|entries| - 1], id)
  }

  function PutCall(s: State, i: nat, call: T.CallState): State
    requires i < |s.entries|
  {
    s.(entries := s.entries[i := ToolCall(call)])
  }

  function Registered(s: State): set<nat> {
    s.terminals.live.Keys
  }

  /** Updates the call with this id, or adds a new one; `ok` is false when the content cannot be built. */
  datatype Result = Result(ok: bool, state: State)

  function Upsert(s: State, id: nat, fields: T.Fields, hasTitle: bool, status: T.Status): Result {
    var i := FindCall(s.entries, id);
    if i.Some? then
      var u := T.WithFields(s.entries[i.value].call, fields, Registered(s));
      if u.ok then Result(true, PutCall(s, i.value, u.call.(status := T.WithStatus(u.call.status, status))))
      else Result(false, PutCall(s, i.value, u.call))
    else
      var c := T.NewCall(id, fields, hasTitle, status, Registered(s));
      if c.Some? then Result(true, PushEntry(s, ToolCall(c.value))) else Result(false, s)
  }

  /** "Tool call not found" */
  const NOT_FOUND_MESSAGE: Text :=
    [0x54, 0x6F, 0x6F, 0x6C, 0x20, 0x63, 0x61, 0x6C, 0x6C, 0x20, 0x6E, 0x6F, 0x74, 0x20, 0x66, 0x6F, 0x75, 0x6E, 0x64]

  /** The failed call that stands for an update to a call nobody announced. */
  function UnknownCall(id: nat): T.CallState {
    T.CallState(id, T.Failed, [T.Block(Markdown(NOT_FOUND_MESSAGE))], false)
  }

  function UpdateCall(s: State, id: nat, fields: T.Fields): Result {
    var i := FindCall(s.entries, id);
    if i.None? then Result(true, PushEntry(s, ToolCall(UnknownCall(id))))
    else
      var u := T.WithFields(s.entries[i.value].call, fields, Registered(s));
      Result(u.ok, PutCall(s, i.value, u.call))
  }

  function ReplaceContent(s: State, id: nat, item: T.Item): State {
    var i := FindCall(s.entries, id);
    if i.None? then PushEntry(s, ToolCall(UnknownCall(id)))
    else PutCall(s, i.value, s.entries[i.value].call.(content := [item]))
  }

  function AppendCallText(s: State, id: nat, text: Text): State {
    var i := FindCall(s.entries, id);
    if i.None? then s
    else
      var call := s.entries[i.value].call;
      PutCall(s, i.value, call.(content := call.content + [T.Block(Markdown(text))]))
  }

  /** What the prompt remembers of the call: its own status, else the request's, else pending. */
  function CurrentStatus(s: State, id: nat, fields: T.Fields): T.AcpStatus {
    var i := FindCall(s.entries, id);
    var own := if i.Some? then T.AsAcp(s.entries[i.value].call.status) else None;
    if own.Some? then own.value else if fields.status.Some? then fields.status.value else T.AcpPending
  }

  function RequestAuthorization(s: State, id: nat, fields: T.Fields, hasTitle: bool, kind: T.AuthorizationKind): Result {
    var prompt := T.WaitingForConfirmation(CurrentStatus(s, id, fields), |s.permissions|, kind);
    Upsert(s.(permissions := s.permissions + [[]]), id, fields, hasTitle, prompt)
  }

  function CancelAuthorization(s: State, id: nat): State {
    var i := FindCall(s.entries, id);
    if i.Some? && s.entries[i.value].call.status.WaitingForConfirmation? then
      PutCall(s, i.value, s.entries[i.value].call.(status := T.Canceled))
    else s
  }

  function Sent(permissions: seq<seq<Choice>>, c: nat, choice: Choice): (r: seq<seq<Choice>>)
    ensures |r| == |permissions|
  {
    if c < |permissions| then permissions[c := permissions[c] + [choice]] else permissions
  }

  function Authorize(s: State, id: nat, choice: Choice): State {
    var i := FindCall(s.entries, id);
    if i.None? then s
    else
      var call := s.entries[i.value].call;
      var t := PutCall(s, i.value, call.(status := T.Authorized(call.status, choice.kind)));
      if call.status.WaitingForConfirmation? then
        t.(permissions := Sent(s.permissions, call.status.respondTx, choice))
      else t
  }

  // ---------- elicitations of the thread ----------

  function RequestElicitation(s: State, mode: E.Mode, requestId: Option<nat>): State {
    var id := |s.elicitations.delivered|;
    PushEntry(s.(elicitations := E.Requested(s.elicitations, mode, requestId)), Elicitation(id))
  }

  function Respond(s: State, id: nat, action: E.Action): State {
    if Elicitation(id) in s.entries then s.(elicitations := E.WithResponse(s.elicitations, id, action)) else s
  }

  function CompleteUrl(s: State, urlId: nat): State {
    var u := E.IndexOfUrl(s.elicitations.items, urlId);
    if u.None? then s
    else
      var id := s.elicitations.items[u.value].id;
      if Elicitation(id) in s.entries then s.(elicitations := E.WithCompleted(s.elicitations, id)) else s
  }

  function CancelElicitation(s: State, id: nat): State {
    if Elicitation(id) in s.entries then s.(elicitations := E.WithCanceled(s.elicitations, id)) else s
  }

  // ---------- compactions, rewinding ----------

  function FindCompaction(entries: seq<Entry>, id: nat): (r: Option<nat>)
    ensures r.Some? ==> r.value < |entries| && entries[r.value].ContextCompaction? && entries[r.value].compaction == id
    ensures r.Some? ==> forall j :: r.value < j < |entries| && entries[j].ContextCompaction? ==> entries[j].compaction != id
    ensures r.None? ==> forall j :: 0 <= j < |entries| && entries[j].ContextCompaction? ==> entries[j].compaction != id
  {
    if entries == [] then None
    else
      var last := entries[|entries| - 1];
      if last.ContextCompaction? && last.compaction == id then Some(|entries| - 1)
      else FindCompaction(entries[..|entries| - 1], id)
  }

  /** A compaction replaces the one with its id, or is added; its summary is a new document. */
  function PushCompaction(s: State, id: nat, status: CompactionStatus, summary: Option<Text>): State {
    var entry := ContextCompaction(id, status, if summary.Some? then Some(|s.markdown|) else None);
    var t := if summary.Some? then s.(markdown := s.markdown + [summary.value]) else s;
    var i := FindCompaction(s.entries, id);
    if i.Some? then t.(entries := t.entries[i.value := entry]) else PushEntry(t, entry)
  }

  function UpdateCompaction(s: State, id: nat, delta: Text, status: Option<CompactionStatus>): State {
    var i := FindCompaction(s.entries, id);
    if i.None? then s
    else
      var e := s.entries[i.value];
      var e' := if status.Some? then e.(status := status.value) else e;
      if delta == [] then s.(entries := s.entries[i.value := e'])
      else if e.summary.None? then
        s.(markdown := s.markdown + [delta], entries := s.entries[i.value := e'.(summary := Some(|s.markdown|))])
      else
        s.(markdown := Extended(s.markdown, e.summary.value, delta), entries := s.entries[i.value := e'])
  }

  /** The first user message with this client id. */
  function FindUser(entries: seq<Entry>, clientId: nat): (r: Option<nat>)
    ensures r.Some? ==> r.value < |entries| && entries[r.value].UserMessage? && entries[r.value].message.clientId == Some(clientId)
    ensures r.Some? ==> forall j :: 0 <= j < r.value && entries[j].UserMessage? ==> entries[j].message.clientId != Some(clientId)
    ensures r.None? ==> forall j :: 0 <= j < |entries| && entries[j].UserMessage? ==> entries[j].message.clientId != Some(clientId)
  {
    if entries == [] then None
    else if entries[0].UserMessage? && entries[0].message.clientId == Some(clientId) then Some(0)
    else
      var r := FindUser(entries[1..], clientId);
      if r.None? then None else Some(r.value + 1)
  }

  predicate Shows(e: Entry, terminal: nat) {
    e.ToolCall? && T.Terminal(terminal) in e.call.content
  }

  /** The terminals that remain when the entries from `from` on are removed. */
  function TerminalsKept(s: State, from: nat): Tm.State {
    s.terminals.(live := map t | t in s.terminals.live && !(exists i :: from <= i < |s.entries| && Shows(s.entries[i], t))
                          :: s.terminals.live[t])
  }

  function Rewind(s: State, clientId: nat): State {
    var i := FindUser(s.entries, clientId);
    if i.None? then s
    else s.(entries := s.entries[..i.value], terminals := TerminalsKept(s, i.value))
  }

  // ---------- events ----------

  /** What starts, cancels and finishes turns. */
  datatype TurnEvent = Send | CancelTurn | FinishTurn(turn: nat)

  /** What happens on the side of a turn's body. */
  datatype BodyEvent =
    | PromptPushed(turn: nat, clientId: Option<nat>, prompt: seq<AcpContent>)
    | BodyDone(turn: nat, answer: Answer)
    | BodyDropped(turn: nat)
    | AbandonTurn(turn: nat)

  datatype MessageEvent =
    | AgentChunk(id: Option<nat>, content: AcpContent, thought: bool, indented: bool)
    | UserPush(clientId: Option<nat>, content: AcpContent, indented: bool)
    | UserEcho(protocolId: Option<nat>, content: AcpContent)

  datatype CallEvent =
    | Upserted(id: nat, fields: T.Fields, hasTitle: bool, status: T.AcpStatus)
    | Updated(id: nat, fields: T.Fields)
    | ContentReplaced(id: nat, item: T.Item)
    | TextAppended(id: nat, text: Text)
    | AuthorizationRequested(id: nat, fields: T.Fields, hasTitle: bool, kind: T.AuthorizationKind)
    | AuthorizationCanceled(id: nat)
    | AuthorizationAnswered(id: nat, choice: Choice)

  datatype ElicitationEvent =
    | Requested(mode: E.Mode, requestId: Option<nat>, valid: bool)
    | Answered(id: nat, action: E.Action)
    | UrlCompleted(urlId: nat)
    | Canceled(id: nat)

  datatype CompactionEvent =
    | Pushed(id: nat, status: CompactionStatus, summary: Option<Text>)
    | SummaryExtended(id: nat, delta: Text, newStatus: Option<CompactionStatus>)

  datatype Event =
    | Turn(turn: TurnEvent)
    | Body(body: BodyEvent)
    | Message(message: MessageEvent)
    | TimerTick
    | Call(call: CallEvent)
    | Elicit(elicit: ElicitationEvent)
    | Compaction(compaction: CompactionEvent)
    | PlanUpdated(plan: seq<PlanEntry>)
    | RewindStarted
    | RewindDone(clientId: nat)
    | TerminalEvent(terminal: Tm.Event)

  function TurnStep(s: State, e: TurnEvent): State {
    match e
    case Send => RunTurn(s)
    case CancelTurn => Cancel(s)
    case FinishTurn(k) => if CanFinish(s, k) then Finish(s, k) else s
  }

  function SetTask(s: State, k: nat, t: Task): State
    requires k < |s.tasks|
  {
    s.(tasks := s.tasks[k := t])
  }

  predicate IsWorking(s: State, k: nat) {
    k < |s.tasks| && s.tasks[k].Working?
  }

  /**
   A body answers or is dropped once; the finishing closure runs once, unless the caller
   abandons it, which may happen at any time before. A body may show its prompt at any time,
   even after its turn was cancelled.
   */
  function BodyStep(s: State, e: BodyEvent): State {
    match e
    case PromptPushed(k, clientId, prompt) => if k < |s.tasks| then PushPrompt(s, clientId, prompt) else s
    case BodyDone(k, answer) => if IsWorking(s, k) then SetTask(s, k, Replied(answer)) else s
    case BodyDropped(k) => if IsWorking(s, k) then SetTask(s, k, SenderDropped) else s
    case AbandonTurn(k) => if IsWorking(s, k) || CanFinish(s, k) then SetTask(s, k, Abandoned) else s
  }

  function MessageStep(s: State, e: MessageEvent): State {
    match e
    case AgentChunk(id, c, thought, indented) => PushAssistant(s, id, c, thought, indented)
    case UserPush(clientId, c, indented) => PushUser(s, clientId, clientId.Some?, None, c, indented)
    case UserEcho(protocolId, c) => UserChunk(s, protocolId, c)
  }

  function CallStep(s: State, e: CallEvent): State {
    match e
    case Upserted(id, fields, hasTitle, status) =>
      Upsert(s, id, fields.(status := Some(status)), hasTitle, T.FromAcp(status)).state
    case Updated(id, fields) => UpdateCall(s, id, fields).state
    case ContentReplaced(id, item) => ReplaceContent(s, id, item)
    case TextAppended(id, text) => AppendCallText(s, id, text)
    case AuthorizationRequested(id, fields, hasTitle, kind) => RequestAuthorization(s, id, fields, hasTitle, kind).state
    case AuthorizationCanceled(id) => CancelAuthorization(s, id)
    case AuthorizationAnswered(id, choice) => Authorize(s, id, choice)
  }

  function ElicitationStep(s: State, e: ElicitationEvent): State {
    match e
    case Requested(mode, requestId, valid) => if valid then RequestElicitation(s, mode, requestId) else s
    case Answered(id, action) => Respond(s, id, action)
    case UrlCompleted(urlId) => CompleteUrl(s, urlId)
    case Canceled(id) => CancelElicitation(s, id)
  }

  function CompactionStep(s: State, e: CompactionEvent): State {
    match e
    case Pushed(id, status, summary) => PushCompaction(s, id, status, summary)
    case SummaryExtended(id, delta, status) => UpdateCompaction(s, id, delta, status)
  }

  /** One step of the machine. */
  function Step(s: State, e: Event): State {
    match e
    case Turn(t) => TurnStep(s, t)
    case Body(b) => BodyStep(s, b)
    case Message(m) => MessageStep(s, m)
    case TimerTick => Tick(s)
    case Call(c) => CallStep(s, c)
    case Elicit(x) => ElicitationStep(s, x)
    case Compaction(c) => CompactionStep(s, c)
    case PlanUpdated(plan) => s.(plan := plan)
    case RewindStarted => Flushed(s)
    case RewindDone(clientId) => Rewind(s, clientId)
    case TerminalEvent(t) => s.(terminals := Tm.Step(s.terminals, t))
  }

  function Run(events: seq<Event>): State {
    if events == [] then INITIAL else Step(Run(events[..|events| - 1]), events[|events| - 1])
  }
}
