/**
 The thread as an object. Every method works on the fields in place, in the order and with the
 loops of the program, and is proved to leave the state that ThreadModel's function describes.
 */
module AcpThreads {
  import opened Prelude
  import opened Utf8
  import opened Content
  import opened ThreadModel
  import T = ToolCalls
  import E = Elicitations
  import ThreadText
  import Tm = Terminals

  class AcpThread {
    var entries: seq<Entry>
    const elicitations: E.ElicitationStore
    var plan: seq<PlanEntry>
    var turnId: nat
    var running: Option<nat>
    var hadError: bool
    var buffer: Option<Buffer>
    var markdown: seq<Text>
    const terminals: Tm.TerminalTable
    var tasks: seq<Task>
    var permissions: seq<seq<Choice>>

    ghost function Snapshot(): State
      reads this, elicitations, terminals
    {
      State(entries, elicitations.State(), plan, turnId, running, hadError, buffer, markdown, terminals.Snapshot(),
            tasks, permissions)
    }

    /** Strings are well-formed UTF-8, and the elicitations keep their protocol. */
    ghost predicate Valid()
      reads this, elicitations
    {
      elicitations.Valid() && (buffer.Some? ==> Utf8.Valid(buffer.value.pending))
    }

    constructor ()
      ensures Valid() && Snapshot() == INITIAL
      ensures fresh(elicitations) && fresh(terminals)
    {
      entries, plan, turnId, running, hadError := [], [], 0, None, false;
      buffer, markdown, tasks, permissions := None, [], [], [];
      elicitations := new E.ElicitationStore();
      terminals := new Tm.TerminalTable();
    }

    // ---------- streaming text ----------

    method AppendMarkdown(m: nat, text: Text)
      modifies this`markdown
      ensures markdown == Extended(old(markdown), m, text)
    {
      if m < |markdown| {
        markdown := markdown[m := markdown[m] + text];
      }
    }

    method FlushStreamingText()
      requires Valid()
      modifies this`markdown, this`buffer
      ensures Valid() && Snapshot() == Flushed(old(Snapshot()))
    {
      var taken := buffer;
      buffer := None;
      if taken.Some? {
        if taken.value.pending != [] {
          AppendMarkdown(taken.value.target, taken.value.pending);
        } else if taken.value.target < |markdown| {
          assert markdown[taken.value.target] + [] == markdown[taken.value.target];
        }
      }
    }

    method BufferStreamingText(target: nat, text: Text)
      requires Valid() && Utf8.Valid(text)
      modifies this`markdown, this`buffer
      ensures Valid() && Snapshot() == BufferedText(old(Snapshot()), target, text)
    {
      if buffer.Some? {
        if buffer.value.target == target {
          ValidConcat(buffer.value.pending, text);
          var pending := buffer.value.pending + text;
          buffer := Some(buffer.value.(pending := pending));
          buffer := Some(buffer.value.(rate := RevealRate(|pending|)));
          return;
        }
        FlushStreamingText();
      }
      buffer := Some(Buffer(text, RevealRate(|text|), target));
    }

    /** One round of the timer; it goes on for as long as there is a buffer. */
    method Reveal() returns (again: bool)
      requires Valid()
      modifies this`markdown, this`buffer
      ensures Valid() && Snapshot() == Tick(old(Snapshot())) && again == old(buffer).Some?
    {
      if buffer.None? {
        return false;
      }
      again := true;
      var b := buffer.value;
      if b.pending == [] {
        return;
      }
      var boundary := CeilCharBoundary(b.pending, b.rate);
      ValidSplit(b.pending, boundary);
      AppendMarkdown(b.target, b.pending[..boundary]);
      buffer := Some(b.(pending := b.pending[boundary..]));
    }

    method PushNewEntry(e: Entry)
      requires Valid()
      modifies this`entries, this`markdown, this`buffer
      ensures Valid() && Snapshot() == PushEntry(old(Snapshot()), e)
    {
      FlushStreamingText();
      entries := entries + [e];
    }

    // ---------- messages ----------

    /** Looking for a target also records the message id on the chunk that is found. */
    method StreamingMarkdownTarget(id: Option<nat>, thought: bool, indented: bool) returns (target: Option<nat>)
      modifies this`entries
      ensures target == StreamingTarget(old(Snapshot()), id, thought, indented)
      ensures entries == if target.Some? then AdoptedId(old(entries), id) else old(entries)
    {
      target := None;
      if |entries| == 0 || !entries[|entries| - 1].AssistantMessage? || entries[|entries| - 1].indented != indented {
        return;
      }
      var chunks := entries[|entries| - 1].chunks;
      if |chunks| == 0 {
        return;
      }
      var chunk := chunks[|chunks| - 1];
      if chunk.block.Markdown? && chunk.thought == thought && CanMerge(chunk.id, id) {
        if chunk.id.None? {
          chunk := chunk.(id := id);
        }
        entries := entries[|entries| - 1 := entries[|entries| - 1].(chunks := chunks[|chunks| - 1 := chunk])];
        target := Some(chunk.block.markdown);
      }
    }

    method NewDocument(text: Text) returns (m: nat)
      modifies this`markdown
      ensures m == |old(markdown)| && markdown == old(markdown) + [text]
    {
      m := |markdown|;
      markdown := markdown + [text];
    }

    /** What a block becomes when content is added to it. */
    method AppendContent(b: ContentBlock<nat>, c: AcpContent) returns (after: ContentBlock<nat>)
      modifies this`markdown
      ensures Absorbed(markdown, after) == Absorb(old(markdown), b, c)
    {
      after := b;
      match AppendEffect(b, c)
      case BecomeLink(uri, link) => after := ResourceLink(uri, link);
      case BecomeImage(image) => after := Image(image);
      case NewMarkdown(text) =>
        var m := NewDocument(text);
        after := Markdown(m);
      case Extend(text) => AppendMarkdown(b.markdown, text);
    }

    method PushAssistantContentBlock(id: Option<nat>, c: AcpContent, thought: bool, indented: bool)
      requires Valid() && ValidContent(c)
      modifies this`entries, this`markdown, this`buffer
      ensures Valid() && Snapshot() == PushAssistant(old(Snapshot()), id, c, thought, indented)
    {
      if c.TextContent? {
        var target := StreamingMarkdownTarget(id, thought, indented);
        if target.Some? {
          BufferStreamingText(target.value, c.text);
          return;
        }
      }
      AppendAssistantContent(id, c, thought, indented);
    }

    method AppendAssistantContent(id: Option<nat>, c: AcpContent, thought: bool, indented: bool)
      requires Valid()
      modifies this`entries, this`markdown, this`buffer
      ensures Valid() && Snapshot() == AppendChunk(old(Snapshot()), id, c, thought, indented)
    {
      var n := |entries|;
      if n > 0 && entries[n - 1].AssistantMessage? && entries[n - 1].indented == indented {
        FlushStreamingText();
        GrowLastMessage(id, c, thought);
      } else {
        StartMessage(id, c, thought, indented);
      }
    }

    method StartMessage(id: Option<nat>, c: AcpContent, thought: bool, indented: bool)
      requires Valid()
      modifies this`entries, this`markdown, this`buffer
      ensures Valid()
      ensures var s := old(Snapshot());
              var a := Absorb(s.markdown, Empty, c);
              Snapshot() == PushEntry(s.(markdown := a.markdown), AssistantMessage([Chunk(thought, id, a.block)], indented))
    {
      var block := AppendContent(Empty, c);
      PushNewEntry(AssistantMessage([Chunk(thought, id, block)], indented));
    }

    method GrowLastMessage(id: Option<nat>, c: AcpContent, thought: bool)
      requires |entries| > 0 && entries[|entries| - 1].AssistantMessage?
      modifies this`entries, this`markdown
      ensures var s := old(Snapshot());
              var g := Grow(s.markdown, s.entries[|s.entries| - 1], id, c, thought);
              Snapshot() == s.(markdown := g.markdown, entries := WithLast(s.entries, g.entry))
    {
      var n := |entries|;
      var chunks := AddToChunks(entries[n - 1], id, c, thought);
      entries := entries[n - 1 := entries[n - 1].(chunks := chunks)];
    }

    /** The last chunk takes the content in, or a new chunk does. */
    method AddToChunks(message: Entry, id: Option<nat>, c: AcpContent, thought: bool) returns (chunks: seq<Chunk>)
      requires message.AssistantMessage?
      modifies this`markdown
      ensures Grown(markdown, message.(chunks := chunks)) == Grow(old(markdown), message, id, c, thought)
    {
      chunks := message.chunks;
      if |chunks| > 0 && chunks[|chunks| - 1].thought == thought && CanMerge(chunks[|chunks| - 1].id, id) {
        var last := chunks[|chunks| - 1];
        if last.id.None? {
          last := last.(id := id);
        }
        var block := AppendContent(last.block, c);
        chunks := chunks[|chunks| - 1 := last.(block := block)];
      } else {
        var block := AppendContent(Empty, c);
        chunks := chunks + [Chunk(thought, id, block)];
      }
    }

    method PushUserContentBlock(clientId: Option<nat>, optimistic: bool, protocolId: Option<nat>, c: AcpContent, indented: bool)
      requires Valid()
      modifies this`entries, this`markdown, this`buffer
      ensures Valid() && Snapshot() == PushUser(old(Snapshot()), clientId, optimistic, protocolId, c, indented)
    {
      if JoinsUser(entries, protocolId, optimistic, indented) {
        FlushStreamingText();
        GrowUserMessage(clientId, optimistic, protocolId, c);
      } else {
        StartUserMessage(clientId, optimistic, protocolId, c, indented);
      }
    }

    method GrowUserMessage(clientId: Option<nat>, optimistic: bool, protocolId: Option<nat>, c: AcpContent)
      requires |entries| > 0 && entries[|entries| - 1].UserMessage?
      modifies this`entries, this`markdown
      ensures var s := old(Snapshot());
              var g := GrowUser(s.markdown, s.entries[|s.entries| - 1].message, clientId, optimistic, protocolId, c);
              Snapshot() == s.(markdown := g.markdown, entries := WithLast(s.entries, g.entry))
    {
      var n := |entries| - 1;
      var m := AddToUserMessage(entries[n].message, clientId, optimistic, protocolId, c);
      entries := entries[n := UserMessage(m)];
    }

    method AddToUserMessage(was: UserText, clientId: Option<nat>, optimistic: bool, protocolId: Option<nat>, c: AcpContent)
      returns (m: UserText)
      modifies this`markdown
      ensures Grown(markdown, UserMessage(m)) == GrowUser(old(markdown), was, clientId, optimistic, protocolId, c)
    {
      m := was;
      if clientId.Some? {
        m := m.(clientId := clientId);
      }
      m := m.(optimistic := m.optimistic || optimistic);
      if m.protocolId.None? {
        m := m.(protocolId := protocolId);
      }
      var block := AppendContent(m.content, c);
      m := m.(content := block, chunks := m.chunks + [c]);
    }

    method StartUserMessage(clientId: Option<nat>, optimistic: bool, protocolId: Option<nat>, c: AcpContent, indented: bool)
      requires Valid()
      modifies this`entries, this`markdown, this`buffer
      ensures Valid()
      ensures var s := old(Snapshot());
              var a := Absorb(s.markdown, Empty, c);
              Snapshot() == PushEntry(s.(markdown := a.markdown),
                                      UserMessage(UserText(protocolId, clientId, optimistic, a.block, [c], indented)))
    {
      var block := AppendContent(Empty, c);
      PushNewEntry(UserMessage(UserText(protocolId, clientId, optimistic, block, [c], indented)));
    }

    /** Recognises an echo of the user's own prompt, recording its message id. */
    method AlreadyInUserMessage(protocolId: Option<nat>, c: AcpContent) returns (already: bool)
      modifies this`entries
      ensures already == Echo(old(entries), protocolId, c)
      ensures entries == if already then UserChunk(old(Snapshot()), protocolId, c).entries else old(entries)
    {
      already := false;
      var n := |entries|;
      if n > 0 && entries[n - 1].UserMessage? {
        var m := entries[n - 1].message;
        already := m.optimistic && c in m.chunks && CanMerge(m.protocolId, protocolId);
        if already && m.protocolId.None? {
          entries := entries[n - 1 := UserMessage(m.(protocolId := protocolId))];
        }
      }
    }

    method HandleUserMessageChunk(protocolId: Option<nat>, c: AcpContent)
      requires Valid()
      modifies this`entries, this`markdown, this`buffer
      ensures Valid() && Snapshot() == UserChunk(old(Snapshot()), protocolId, c)
    {
      var already := AlreadyInUserMessage(protocolId, c);
      if !already {
        PushUserContentBlock(None, false, protocolId, c, false);
      }
    }

    /** The prompt's bubble: all its blocks folded into one. */
    method PushPromptMessage(clientId: Option<nat>, prompt: seq<AcpContent>)
      requires Valid()
      modifies this`entries, this`markdown, this`buffer
      ensures Valid() && Snapshot() == PushPrompt(old(Snapshot()), clientId, prompt)
    {
      var block: ContentBlock<nat> := Empty;
      var k := 0;
      while k < |prompt|
        invariant k <= |prompt|
        invariant Combined(markdown, block, prompt[k..]) == Combined(old(markdown), Empty, prompt)
        invariant entries == old(entries) && buffer == old(buffer)
      {
        assert prompt[k..][1..] == prompt[k + 1..];
        block := AppendContent(block, prompt[k]);
        k := k + 1;
      }
      PushNewEntry(UserMessage(UserText(None, clientId, true, block, prompt, false)));
    }

    // ---------- cancelling ----------

    method MarkPendingEntriesAsCanceled()
      modifies this`entries
      ensures entries == MarkCanceled(old(entries))
    {
      var ix := 0;
      while ix < |entries|
        invariant ix <= |entries| == |old(entries)|
        invariant forall j :: 0 <= j < |entries| ==> entries[j] == if j < ix then CanceledEntry(old(entries)[j]) else old(entries)[j]
      {
        match entries[ix] {
          case ToolCall(call) =>
            if call.status.Pending? || call.status.WaitingForConfirmation? || call.status.InProgress? {
              entries := entries[ix := ToolCall(call.(status := T.Canceled))];
            }
          case ContextCompaction(id, status, summary) =>
            if status == CompactionInProgress {
              entries := entries[ix := ContextCompaction(id, CompactionCanceled, summary)];
            }
          case _ =>
        }
        ix := ix + 1;
      }
    }

    /** One by one, as the timeline shows them; what the timeline does not show is not reached. */
    method CancelOutstandingElicitations()
      requires Valid()
      modifies elicitations
      ensures Valid() && Snapshot() == CancelOutstanding(old(Snapshot()))
    {
      ghost var was := elicitations.State();
      var ix := 0;
      E.CancelWhereNone(was, InTimeline([]));
      while ix < |entries|
        invariant ix <= |entries|
        invariant elicitations.Valid() && elicitations.State() == E.CancelWhere(was, InTimeline(entries[..ix]))
      {
        CancelAtEntry(was, ix);
        ix := ix + 1;
      }
      assert entries[..ix] == entries;
    }

    method CancelAtEntry(ghost was: E.Store, ix: nat)
      requires Valid() && ix < |entries|
      requires E.Inv(was) && elicitations.State() == E.CancelWhere(was, InTimeline(entries[..ix]))
      modifies elicitations
      ensures Valid() && elicitations.State() == E.CancelWhere(was, InTimeline(entries[..ix + 1]))
    {
      assert entries[..ix + 1] == entries[..ix] + [entries[ix]];
      if entries[ix].Elicitation? {
        var id := entries[ix].elicitation;
        E.CancelOneById(was, InTimeline(entries[..ix]), InTimeline(entries[..ix + 1]), id);
        var _ := elicitations.CancelById(id);
      } else {
        E.CancelWhereAgrees(was, InTimeline(entries[..ix]), InTimeline(entries[..ix + 1]));
      }
    }

    method CancelPendingTurn()
      requires Valid()
      modifies this`entries, elicitations
      ensures Valid() && Snapshot() == CancelPendingTurnEntries(old(Snapshot()))
    {
      MarkPendingEntriesAsCanceled();
      CancelOutstandingElicitations();
    }

    method CancelTurn() returns (wasRunning: bool)
      requires Valid()
      modifies this, elicitations
      ensures Valid() && Snapshot() == Cancel(old(Snapshot())) && wasRunning == old(running).Some?
    {
      FlushStreamingText();
      CancelOutstandingElicitations();
      wasRunning := running.Some?;
      running := None;
      if wasRunning {
        MarkPendingEntriesAsCanceled();
      }
    }

    // ---------- the plan ----------

    method ClearCompletedPlanEntries()
      modifies this`plan
      ensures plan == Unfinished(old(plan))
    {
      var kept := [];
      var k := 0;
      while k < |plan|
        invariant k <= |plan| && plan == old(plan)
        invariant kept + Unfinished(plan[k..]) == Unfinished(plan)
      {
        assert plan[k..][1..] == plan[k + 1..];
        if !plan[k].status.PlanCompleted? {
          kept := kept + [plan[k]];
        }
        k := k + 1;
      }
      plan := kept;
    }

    /** Reuse entry by entry, extend, truncate: exactly the requested entries remain. */
    method UpdatePlan(request: seq<PlanEntry>)
      modifies this`plan
      ensures plan == request
    {
      var k := 0;
      while k < |plan| && k < |request|
        invariant k <= |request| && k <= |plan| == |old(plan)|
        invariant plan[..k] == request[..k]
      {
        var entry := plan[k].(content := request[k].content);
        entry := entry.(priority := request[k].priority);
        entry := entry.(status := request[k].status);
        plan := plan[k := entry];
        k := k + 1;
      }
      while k < |request|
        invariant k <= |request| && k <= |plan|
        invariant k < |request| ==> |plan| == k
        invariant plan[..k] == request[..k]
      {
        plan := plan + [request[k]];
        k := k + 1;
      }
      plan := plan[..|request|];
    }

    method PendingPlanEntries() returns (pending: nat)
      ensures pending == 0 <==> AllDone(plan)
    {
      pending := 0;
      for k := 0 to |plan|
        invariant pending == 0 <==> AllDone(plan[..k])
      {
        assert forall i :: 0 <= i < k ==> plan[..k + 1][i] == plan[..k][i];
        assert plan[..k + 1][k] == plan[k];
        match plan[k].status {
          case PlanPending | PlanInProgress =>
            pending := pending + 1;
          case _ =>
            if AllDone(plan[..k]) {
              assert AllDone(plan[..k + 1]);
            } else {
              var i :| 0 <= i < k && (plan[..k][i].status.PlanPending? || plan[..k][i].status.PlanInProgress?);
              assert plan[..k + 1][i] == plan[..k][i];
            }
        }
      }
      assert plan[..|plan|] == plan;
    }

    method SnapshotPlan()
      requires Valid()
      modifies this`plan, this`entries, this`markdown, this`buffer
      ensures Valid() && Snapshot() == SnapshotCompletedPlan(old(Snapshot()))
    {
      if plan != [] {
        var pending := PendingPlanEntries();
        if pending == 0 {
          var completed := plan;
          plan := [];
          PushNewEntry(CompletedPlan(completed));
        }
      }
    }

    // ---------- turns ----------

    method Preempt()
      requires Valid()
      modifies this, elicitations
      ensures Valid() && Snapshot() == Cancel(old(Snapshot()).(plan := Unfinished(old(plan)), hadError := false))
    {
      ghost var s := Snapshot();
      ClearCompletedPlanEntries();
      hadError := false;
      assert Snapshot() == s.(plan := Unfinished(old(plan)), hadError := false);
      var _ := CancelTurn();
    }

    /** Starts a turn, pre-empting the running one, and returns the new task. */
    method StartTurn() returns (k: nat)
      requires Valid()
      modifies this, elicitations
      ensures Valid() && Snapshot() == RunTurn(old(Snapshot())) && k == |old(tasks)|
    {
      Preempt();
      turnId := (turnId + 1) % TURN_ID_LIMIT;
      k := |tasks|;
      running := Some(turnId);
      tasks := tasks + [Working];
    }

    method LastUserMessage() returns (ix: Option<nat>)
      ensures ix == LastUser(entries)
    {
      var k := |entries|;
      assert entries[..k] == entries;
      while k > 0
        invariant k <= |entries| && LastUser(entries) == LastUser(entries[..k])
      {
        k := k - 1;
        assert entries[..k + 1][..k] == entries[..k];
        if entries[k].UserMessage? {
          return Some(k);
        }
      }
      ix := None;
    }

    method RefuseTurn()
      modifies this`entries, this`hadError
      ensures Snapshot() == Refuse(old(Snapshot()))
    {
      hadError := true;
      var user := LastUserMessage();
      if user.None? {
        return;
      }
      var k := user.value + 1;
      while k < |entries|
        invariant user.value < k <= |entries| && entries == old(entries)
        invariant !HasToolOutputAfter(entries[..k], user.value)
      {
        if entries[k].ToolCall? && entries[k].call.status.Completed? && entries[k].call.hasOutput {
          return;
        }
        k := k + 1;
      }
      assert entries[..k] == entries;
      entries := entries[..user.value];
    }

    /** The finishing closure of one turn; another turn may have started since. */
    method FinishTurn(k: nat)
      requires Valid() && CanFinish(Snapshot(), k)
      modifies this, elicitations
      ensures Valid() && Snapshot() == Finish(old(Snapshot()), k)
    {
      var response := tasks[k];
      tasks := tasks[k := Finished];
      var isSame := running == Some(IdOfTurn(k));
      if !isSame && response == Replied(Response(MaxTurnRequests)) {
        return;
      }
      if isSame {
        running := None;
      }
      if response.SenderDropped? {
        return;
      }
      FlushStreamingText();
      match response.answer
      case Response(stop) =>
        HandleStop(stop, isSame);
      case Failure =>
        if isSame {
          CancelPendingTurn();
        }
        hadError := true;
    }

    method HandleStop(stop: StopReason, isSame: bool)
      requires Valid()
      modifies this, elicitations
      ensures Valid() && Snapshot() == FinishResponse(old(Snapshot()), stop, isSame)
    {
      if stop == MaxTokens || stop == MaxTurnRequests {
        if isSame {
          CancelPendingTurn();
        }
        hadError := true;
        return;
      }
      var canceled := stop == Cancelled;
      if canceled && isSame {
        CancelPendingTurn();
      }
      if !canceled {
        SnapshotPlan();
      }
      if stop == Refusal {
        RefuseTurn();
      }
    }

    // ---------- tool calls ----------

    method IndexForToolCall(id: nat) returns (ix: Option<nat>)
      ensures ix == FindCall(entries, id)
    {
      var k := |entries|;
      assert entries[..k] == entries;
      while k > 0
        invariant k <= |entries| && FindCall(entries, id) == FindCall(entries[..k], id)
      {
        k := k - 1;
        assert entries[..k + 1][..k] == entries[..k];
        if entries[k].ToolCall? && entries[k].call.id == id {
          return Some(k);
        }
      }
      ix := None;
    }

    /** Updates the call's fields where it stands. */
    method UpdateFieldsAt(ix: nat, fields: T.Fields) returns (ok: bool)
      requires ix < |entries| && entries[ix].ToolCall?
      modifies this`entries
      ensures var u := T.WithFields(old(entries)[ix].call, fields, terminals.live.Keys);
              ok == u.ok && entries == old(entries)[ix := ToolCall(u.call)]
    {
      var call := new T.ToolCall(entries[ix].call);
      ok := call.UpdateFields(fields, terminals.live.Keys);
      entries := entries[ix := ToolCall(call.State())];
    }

    method UpsertToolCall(id: nat, fields: T.Fields, hasTitle: bool, status: T.Status) returns (ok: bool)
      requires Valid()
      modifies this`entries, this`markdown, this`buffer
      ensures Valid() && Result(ok, Snapshot()) == Upsert(old(Snapshot()), id, fields, hasTitle, status)
    {
      var ix := IndexForToolCall(id);
      if ix.Some? {
        ok := UpdateFieldsAt(ix.value, fields);
        if !ok {
          return;
        }
        var call := entries[ix.value].call;
        entries := entries[ix.value := ToolCall(call.(status := T.WithStatus(call.status, status)))];
      } else {
        var call := T.NewCall(id, fields, hasTitle, status, terminals.live.Keys);
        if call.None? {
          return false;
        }
        PushNewEntry(ToolCall(call.value));
        ok := true;
      }
    }

    method UpdateToolCall(id: nat, fields: T.Fields) returns (ok: bool)
      requires Valid()
      modifies this`entries, this`markdown, this`buffer
      ensures Valid() && Result(ok, Snapshot()) == UpdateCall(old(Snapshot()), id, fields)
    {
      var ix := IndexForToolCall(id);
      if ix.None? {
        PushNewEntry(ToolCall(UnknownCall(id)));
        return true;
      }
      ok := UpdateFieldsAt(ix.value, fields);
    }

    /** A new diff or terminal takes the place of all content. */
    method ReplaceToolCallContent(id: nat, item: T.Item)
      requires Valid()
      modifies this`entries, this`markdown, this`buffer
      ensures Valid() && Snapshot() == ReplaceContent(old(Snapshot()), id, item)
    {
      var ix := IndexForToolCall(id);
      if ix.None? {
        PushNewEntry(ToolCall(UnknownCall(id)));
        return;
      }
      var call := entries[ix.value].call.(content := []);
      call := call.(content := call.content + [item]);
      assert call.content == [item];
      entries := entries[ix.value := ToolCall(call)];
    }

    method AppendToolCallText(id: nat, text: Text) returns (ok: bool)
      modifies this`entries
      ensures Snapshot() == AppendCallText(old(Snapshot()), id, text) && (ok <==> FindCall(old(entries), id).Some?)
    {
      var ix := IndexForToolCall(id);
      ok := ix.Some?;
      if ok {
        var call := entries[ix.value].call;
        entries := entries[ix.value := ToolCall(call.(content := call.content + [T.Block(Markdown(text))]))];
      }
    }

    /** Opens a prompt; `tx` names its channel, whose receiver the caller holds. */
    method RequestToolCallAuthorization(id: nat, fields: T.Fields, hasTitle: bool, kind: T.AuthorizationKind)
      returns (ok: bool, tx: nat)
      requires Valid()
      modifies this
      ensures Valid() && tx == |old(permissions)|
      ensures Result(ok, Snapshot()) == RequestAuthorization(old(Snapshot()), id, fields, hasTitle, kind)
    {
      tx := |permissions|;
      permissions := permissions + [[]];
      var ix := IndexForToolCall(id);
      var current := None;
      if ix.Some? {
        current := T.AsAcp(entries[ix.value].call.status);
      }
      if current.None? {
        current := fields.status;
      }
      if current.None? {
        current := Some(T.AcpPending);
      }
      ok := UpsertToolCall(id, fields, hasTitle, T.WaitingForConfirmation(current.value, tx, kind));
    }

    method CancelToolCallAuthorization(id: nat)
      modifies this`entries
      ensures Snapshot() == CancelAuthorization(old(Snapshot()), id)
    {
      var ix := IndexForToolCall(id);
      if ix.None? || !entries[ix.value].call.status.WaitingForConfirmation? {
        return;
      }
      entries := entries[ix.value := ToolCall(entries[ix.value].call.(status := T.Canceled))];
    }

    /** The new status takes the place of the old one, whose sender, if it owned one, is used up. */
    method AuthorizeToolCall(id: nat, outcome: Choice)
      modifies this`entries, this`permissions
      ensures Snapshot() == Authorize(old(Snapshot()), id, outcome)
    {
      var ix := IndexForToolCall(id);
      if ix.None? {
        return;
      }
      var call := entries[ix.value].call;
      var reject := outcome.kind.RejectOnce? || outcome.kind.RejectAlways?;
      var status;
      if call.status.WaitingForConfirmation? && call.status.kind.ActionChoice? {
        status := T.InProgress;
      } else if call.status.WaitingForConfirmation? {
        status := if reject then T.Rejected else T.StatusAfterPermissionGrant(call.status.current);
      } else {
        status := if reject then T.Rejected else T.InProgress;
      }
      entries := entries[ix.value := ToolCall(call.(status := status))];
      if call.status.WaitingForConfirmation? {
        var tx := call.status.respondTx;
        if tx < |permissions| {
          permissions := permissions[tx := permissions[tx] + [outcome]];
        }
      }
    }

    // ---------- elicitations ----------

    method ElicitationEntryIx(id: nat) returns (ix: Option<nat>)
      ensures ix.Some? <==> Elicitation(id) in entries
      ensures ix.Some? ==> ix.value < |entries| && entries[ix.value] == Elicitation(id)
    {
      var k := |entries|;
      while k > 0
        invariant 0 <= k <= |entries| && forall j :: k <= j < |entries| ==> entries[j] != Elicitation(id)
      {
        k := k - 1;
        if entries[k] == Elicitation(id) {
          return Some(k);
        }
      }
      ix := None;
    }

    method OpenElicitation(mode: E.Mode, requestId: Option<nat>) returns (id: nat)
      requires Valid()
      modifies this`entries, this`markdown, this`buffer, elicitations
      ensures Valid() && id == |old(elicitations.delivered)|
      ensures Snapshot() == RequestElicitation(old(Snapshot()), mode, requestId)
    {
      id := elicitations.InsertPending(mode, requestId);
      PushNewEntry(Elicitation(id));
    }

    method RespondToElicitation(id: nat, action: E.Action)
      requires Valid()
      modifies elicitations
      ensures Valid() && Snapshot() == Respond(old(Snapshot()), id, action)
    {
      var ix := ElicitationEntryIx(id);
      if ix.Some? {
        var _ := elicitations.RespondById(id, action);
      }
    }

    method CompleteUrlElicitation(urlId: nat)
      requires Valid()
      modifies elicitations
      ensures Valid() && Snapshot() == CompleteUrl(old(Snapshot()), urlId)
    {
      var u := elicitations.FindUrl(urlId);
      if u.None? {
        return;
      }
      var id := elicitations.elicitations[u.value].id;
      var ix := ElicitationEntryIx(id);
      if ix.Some? {
        E.IndexIs(elicitations.elicitations, u.value);
        var _ := elicitations.CompleteById(id);
      }
    }

    method CancelOneElicitation(id: nat)
      requires Valid()
      modifies elicitations
      ensures Valid() && Snapshot() == CancelElicitation(old(Snapshot()), id)
    {
      var ix := ElicitationEntryIx(id);
      if ix.Some? {
        var _ := elicitations.CancelById(id);
      }
    }

    // ---------- compactions ----------

    method IndexForCompaction(id: nat) returns (ix: Option<nat>)
      ensures ix == FindCompaction(entries, id)
    {
      var k := |entries|;
      assert entries[..k] == entries;
      while k > 0
        invariant k <= |entries| && FindCompaction(entries, id) == FindCompaction(entries[..k], id)
      {
        k := k - 1;
        assert entries[..k + 1][..k] == entries[..k];
        if entries[k].ContextCompaction? && entries[k].compaction == id {
          return Some(k);
        }
      }
      ix := None;
    }

    method PushContextCompaction(id: nat, status: CompactionStatus, summary: Option<Text>)
      requires Valid()
      modifies this`entries, this`markdown, this`buffer
      ensures Valid() && Snapshot() == PushCompaction(old(Snapshot()), id, status, summary)
    {
      var document := None;
      if summary.Some? {
        var m := NewDocument(summary.value);
        document := Some(m);
      }
      var ix := IndexForCompaction(id);
      if ix.Some? {
        entries := entries[ix.value := ContextCompaction(id, status, document)];
      } else {
        PushNewEntry(ContextCompaction(id, status, document));
      }
    }

    method UpdateContextCompaction(id: nat, delta: Text, status: Option<CompactionStatus>)
      modifies this`entries, this`markdown
      ensures Snapshot() == UpdateCompaction(old(Snapshot()), id, delta, status)
    {
      var ix := IndexForCompaction(id);
      if ix.None? {
        return;
      }
      var compaction := entries[ix.value];
      if delta != [] {
        if compaction.summary.None? {
          var m := NewDocument(delta);
          compaction := compaction.(summary := Some(m));
        } else {
          AppendMarkdown(compaction.summary.value, delta);
        }
      }
      if status.Some? {
        compaction := compaction.(status := status.value);
      }
      entries := entries[ix.value := compaction];
    }

    // ---------- rewinding ----------

    method UserMessageIx(clientId: nat) returns (ix: Option<nat>)
      ensures ix == FindUser(entries, clientId)
    {
      var k := 0;
      while k < |entries|
        invariant k <= |entries|
        invariant forall j :: 0 <= j < k && entries[j].UserMessage? ==> entries[j].message.clientId != Some(clientId)
      {
        if entries[k].UserMessage? && entries[k].message.clientId == Some(clientId) {
          return Some(k);
        }
        k := k + 1;
      }
      ix := None;
    }

    /** The second half of a rewind, once the agent has agreed: cut the timeline and its terminals. */
    method RewindTo(clientId: nat)
      modifies this`entries, terminals
      ensures Snapshot() == Rewind(old(Snapshot()), clientId)
    {
      var ix := UserMessageIx(clientId);
      if ix.None? {
        return;
      }
      var removed := entries[ix.value..];
      entries := entries[..ix.value];
      RemoveShown(removed);
      RemovedAreShown(old(entries), ix.value);
    }

    method RemoveShown(removed: seq<Entry>)
      modifies terminals
      ensures terminals.Snapshot() == old(terminals.Snapshot()).(live := Hidden(old(terminals.live), removed))
    {
      var k := 0;
      while k < |removed|
        invariant k <= |removed|
        invariant terminals.Snapshot() == old(terminals.Snapshot()).(live := Hidden(old(terminals.live), removed[..k]))
      {
        ghost var before := Hidden(old(terminals.live), removed[..k]);
        var items := if removed[k].ToolCall? then removed[k].call.content else [];
        var j := 0;
        while j < |items|
          invariant j <= |items|
          invariant terminals.Snapshot() == old(terminals.Snapshot()).(live := terminals.live)
          invariant terminals.live == map t | t in before && T.Terminal(t) !in items[..j] :: before[t]
        {
          assert items[..j + 1] == items[..j] + [items[j]];
          if items[j].Terminal? {
            var _ := terminals.ReleaseTerminal(items[j].terminalId);
          }
          j := j + 1;
        }
        assert items[..j] == items;
        assert removed[..k + 1] == removed[..k] + [removed[k]];
        ShownInMore(removed[..k], removed[k]);
        k := k + 1;
      }
      assert removed[..k] == removed;
    }

    // ---------- events ----------

    method HandleTurn(e: TurnEvent)
      requires Valid()
      modifies this, elicitations
      ensures Valid() && Snapshot() == TurnStep(old(Snapshot()), e)
    {
      match e
      case Send =>
        var _ := StartTurn();
      case CancelTurn =>
        var _ := CancelTurn();
      case FinishTurn(k) =>
        if k < |tasks| && (tasks[k].Replied? || tasks[k].SenderDropped?) {
          FinishTurn(k);
        }
    }

    method HandleBody(e: BodyEvent)
      requires Valid()
      modifies this`entries, this`markdown, this`buffer, this`tasks
      ensures Valid() && Snapshot() == BodyStep(old(Snapshot()), e)
    {
      match e
      case PromptPushed(k, clientId, prompt) =>
        if k < |tasks| {
          PushPromptMessage(clientId, prompt);
        }
      case BodyDone(k, answer) =>
        if k < |tasks| && tasks[k].Working? {
          tasks := tasks[k := Replied(answer)];
        }
      case BodyDropped(k) =>
        if k < |tasks| && tasks[k].Working? {
          tasks := tasks[k := SenderDropped];
        }
      case AbandonTurn(k) =>
        if k < |tasks| && (tasks[k].Working? || tasks[k].Replied? || tasks[k].SenderDropped?) {
          tasks := tasks[k := Abandoned];
        }
    }

    method HandleMessage(e: MessageEvent)
      requires Valid() && ThreadText.ValidMessage(e)
      modifies this`entries, this`markdown, this`buffer
      ensures Valid() && Snapshot() == MessageStep(old(Snapshot()), e)
    {
      match e
      case AgentChunk(id, c, thought, indented) => PushAssistantContentBlock(id, c, thought, indented);
      case UserPush(clientId, c, indented) => PushUserContentBlock(clientId, clientId.Some?, None, c, indented);
      case UserEcho(protocolId, c) => HandleUserMessageChunk(protocolId, c);
    }

    method HandleCall(e: CallEvent)
      requires Valid()
      modifies this
      ensures Valid() && Snapshot() == CallStep(old(Snapshot()), e)
    {
      match e
      case Upserted(id, fields, hasTitle, status) =>
        var _ := UpsertToolCall(id, fields.(status := Some(status)), hasTitle, T.FromAcp(status));
      case Updated(id, fields) =>
        var _ := UpdateToolCall(id, fields);
      case ContentReplaced(id, item) => ReplaceToolCallContent(id, item);
      case TextAppended(id, text) =>
        var _ := AppendToolCallText(id, text);
      case AuthorizationRequested(id, fields, hasTitle, kind) =>
        var _, _ := RequestToolCallAuthorization(id, fields, hasTitle, kind);
      case AuthorizationCanceled(id) => CancelToolCallAuthorization(id);
      case AuthorizationAnswered(id, choice) => AuthorizeToolCall(id, choice);
    }

    method HandleElicitation(e: ElicitationEvent)
      requires Valid()
      modifies this`entries, this`markdown, this`buffer, elicitations
      ensures Valid() && Snapshot() == ElicitationStep(old(Snapshot()), e)
    {
      match e
      case Requested(mode, requestId, valid) =>
        if valid {
          var _ := OpenElicitation(mode, requestId);
        }
      case Answered(id, action) => RespondToElicitation(id, action);
      case UrlCompleted(urlId) => CompleteUrlElicitation(urlId);
      case Canceled(id) => CancelOneElicitation(id);
    }

    method HandleCompaction(e: CompactionEvent)
      requires Valid()
      modifies this`entries, this`markdown, this`buffer
      ensures Valid() && Snapshot() == CompactionStep(old(Snapshot()), e)
    {
      match e
      case Pushed(id, status, summary) => PushContextCompaction(id, status, summary);
      case SummaryExtended(id, delta, status) => UpdateContextCompaction(id, delta, status);
    }

    /** Whatever happens next, the object takes the machine's step. */
    method Handle(e: Event)
      requires Valid() && ThreadText.ValidEvent(e)
      modifies this, elicitations, terminals
      ensures Valid() && Snapshot() == Step(old(Snapshot()), e)
    {
      match e
      case Turn(t) => HandleTurn(t);
      case Body(b) => HandleBody(b);
      case Message(m) => HandleMessage(m);
      case TimerTick =>
        var _ := Reveal();
      case Call(c) => HandleCall(c);
      case Elicit(x) => HandleElicitation(x);
      case Compaction(c) => HandleCompaction(c);
      case PlanUpdated(request) => UpdatePlan(request);
      case RewindStarted => FlushStreamingText();
      case RewindDone(clientId) => RewindTo(clientId);
      case TerminalEvent(t) =>
        if t.Release? {
          var _ := terminals.ReleaseTerminal(t.id);
        } else {
          terminals.OnProviderEvent(t);
        }
    }
  }

  /** So every run of the machine is what a new thread goes through, and all that is proved of runs holds of it. */
  method Replay(events: seq<Event>) returns (thread: AcpThread)
    requires forall i :: 0 <= i < |events| ==> ThreadText.ValidEvent(events[i])
    ensures thread.Valid() && thread.Snapshot() == Run(events)
  {
    thread := new AcpThread();
    for k := 0 to |events|
      invariant fresh(thread) && fresh(thread.elicitations) && fresh(thread.terminals)
      invariant thread.Valid() && thread.Snapshot() == Run(events[..k])
    {
      assert events[..k + 1][..k] == events[..k];
      thread.Handle(events[k]);
    }
    assert events[..|events|] == events;
  }

  predicate ShownIn(removed: seq<Entry>, t: nat) {
    exists i :: 0 <= i < |removed| && Shows(removed[i], t)
  }

  lemma {:induction false} ShownInMore(removed: seq<Entry>, e: Entry)
    ensures forall t :: ShownIn(removed + [e], t) <==> ShownIn(removed, t) || Shows(e, t)
  {
    forall t ensures ShownIn(removed + [e], t) <==> ShownIn(removed, t) || Shows(e, t) {
      var more := removed + [e];
      if ShownIn(removed, t) {
        var i :| 0 <= i < |removed| && Shows(removed[i], t);
        assert more[i] == removed[i];
      }
      assert more[|removed|] == e;
    }
  }

  lemma {:induction false} RemovedAreShown(entries: seq<Entry>, from: nat)
    requires from <= |entries|
    ensures forall t :: ShownIn(entries[from..], t) <==> exists i :: from <= i < |entries| && Shows(entries[i], t)
  {
    var removed := entries[from..];
    forall t ensures ShownIn(removed, t) <==> exists i :: from <= i < |entries| && Shows(entries[i], t) {
      if i :| from <= i < |entries| && Shows(entries[i], t) {
        assert removed[i - from] == entries[i];
      }
      if i :| 0 <= i < |removed| && Shows(removed[i], t) {
        assert entries[from + i] == removed[i];
      }
    }
  }

  function Hidden(live: map<nat, Tm.Terminal>, removed: seq<Entry>): map<nat, Tm.Terminal> {
    map t | t in live && !ShownIn(removed, t) :: live[t]
  }
}
