/** What every step of the thread keeps, and so every run. */
module ThreadInvariants {
  import opened Prelude
  import opened Content
  import opened ThreadModel
  import T = ToolCalls
  import E = Elicitations

  // ---------- turns ----------

  /** The turn id counts the turns, modulo its width, and a running turn is the newest one. */
  predicate TurnsOk(s: State) {
    && s.turnId == |s.tasks| % TURN_ID_LIMIT
    && (s.running.Some? ==> |s.tasks| > 0 && s.running.value == s.turnId)
  }

  lemma {:induction false} NextTurnId(n: nat)
    ensures (n % TURN_ID_LIMIT + 1) % TURN_ID_LIMIT == (n + 1) % TURN_ID_LIMIT
  {
  }

  /** Only sending, cancelling and finishing touch the turn. */
  predicate SameTurn(s: State, t: State) {
    t.turnId == s.turnId && t.running == s.running && |t.tasks| == |s.tasks|
  }

  lemma {:induction false} CallsLeaveTurns(s: State, e: CallEvent)
    ensures SameTurn(s, CallStep(s, e)) && CallStep(s, e).tasks == s.tasks
  {
  }

  lemma {:induction false} MessagesLeaveTurns(s: State, e: MessageEvent)
    ensures SameTurn(s, MessageStep(s, e)) && MessageStep(s, e).tasks == s.tasks
  {
  }

  lemma {:induction false} OtherStepsLeaveTurns(s: State, e: Event)
    requires !e.Turn?
    ensures SameTurn(s, Step(s, e))
    ensures !e.Body? ==> Step(s, e).tasks == s.tasks
  {
    match e
    case Message(m) => MessagesLeaveTurns(s, m);
    case Call(c) => CallsLeaveTurns(s, c);
    case _ =>
  }

  lemma {:induction false} FinishLeavesOrEnds(s: State, k: nat)
    requires CanFinish(s, k)
    ensures var t := Finish(s, k);
            && t.turnId == s.turnId && t.tasks == s.tasks[k := Finished]
            && t.running == (if IsSame(s, k) then None else s.running)
  {
    if s.tasks[k].Replied? && s.tasks[k].answer.Response? {
      var u := (if IsSame(s, k) then s.(running := None) else s).(tasks := s.tasks[k := Finished]);
      ResponseLeavesTurns(Flushed(u), s.tasks[k].answer.stop, IsSame(s, k));
    }
  }

  lemma {:induction false} ResponseLeavesTurns(s: State, stop: StopReason, same: bool)
    ensures SameTurn(s, FinishResponse(s, stop, same)) && FinishResponse(s, stop, same).tasks == s.tasks
  {
    if stop.EndTurn? || stop.Refusal? {
      SnapshotLeavesTurns(s);
      RefusalLeavesTurns(SnapshotCompletedPlan(s));
    }
  }

  lemma {:induction false} SnapshotLeavesTurns(s: State)
    ensures SameTurn(s, SnapshotCompletedPlan(s)) && SnapshotCompletedPlan(s).tasks == s.tasks
  {
  }

  lemma {:induction false} RefusalLeavesTurns(s: State)
    ensures SameTurn(s, Refuse(s)) && Refuse(s).tasks == s.tasks
  {
  }

  lemma {:induction false} StepKeepsTurns(s: State, e: Event)
    requires TurnsOk(s)
    ensures TurnsOk(Step(s, e))
  {
    if !e.Turn? {
      OtherStepsLeaveTurns(s, e);
    } else if e.turn.Send? {
      NextTurnId(|s.tasks|);
    } else if e.turn.FinishTurn? && CanFinish(s, e.turn.turn) {
      FinishLeavesOrEnds(s, e.turn.turn);
    }
  }

  // ---------- tool calls and permission channels ----------

  /** The permission channel whose sender the entry owns. */
  function ChannelOf(e: Entry): Option<nat> {
    if e.ToolCall? && e.call.status.WaitingForConfirmation? then Some(e.call.status.respondTx) else None
  }

  predicate Unanswered(permissions: seq<seq<Choice>>, c: nat) {
    c < |permissions| && permissions[c] == []
  }

  /**
   Tool-call ids are unique; every waiting call owns the sender of a channel of its own on
   which nothing has been sent; and nothing is ever sent twice.
   */
  ghost predicate CallsOk(entries: seq<Entry>, permissions: seq<seq<Choice>>) {
    && (forall i, j :: 0 <= i < j < |entries| && entries[i].ToolCall? && entries[j].ToolCall? ==>
          entries[i].call.id != entries[j].call.id)
    && (forall i :: 0 <= i < |entries| && ChannelOf(entries[i]).Some? ==>
          Unanswered(permissions, ChannelOf(entries[i]).value))
    && (forall i, j :: 0 <= i < j < |entries| && ChannelOf(entries[i]).Some? ==>
          ChannelOf(entries[j]) != ChannelOf(entries[i]))
    && (forall c :: 0 <= c < |permissions| ==> |permissions[c]| <= 1)
  }

  /** Nobody owns the sender of `c`, and nothing was sent on it. */
  ghost predicate FreshChannel(entries: seq<Entry>, permissions: seq<seq<Choice>>, c: nat) {
    Unanswered(permissions, c) && forall i :: 0 <= i < |entries| ==> ChannelOf(entries[i]) != Some(c)
  }

  lemma {:induction false} CallsOkPush(entries: seq<Entry>, permissions: seq<seq<Choice>>, e: Entry)
    requires CallsOk(entries, permissions)
    requires e.ToolCall? ==> FindCall(entries, e.call.id).None?
    requires ChannelOf(e).Some? ==> FreshChannel(entries, permissions, ChannelOf(e).value)
    ensures CallsOk(entries + [e], permissions)
  {
  }

  lemma {:induction false} CallsOkPut(entries: seq<Entry>, permissions: seq<seq<Choice>>, i: nat, e: Entry)
    requires CallsOk(entries, permissions) && i < |entries|
    requires e.ToolCall? ==> entries[i].ToolCall? && entries[i].call.id == e.call.id
    requires ChannelOf(e).Some? ==> ChannelOf(e) == ChannelOf(entries[i]) || FreshChannel(entries, permissions, ChannelOf(e).value)
    ensures CallsOk(entries[i := e], permissions)
  {
  }

  lemma {:induction false} CallsOkPrefix(entries: seq<Entry>, permissions: seq<seq<Choice>>, n: nat)
    requires CallsOk(entries, permissions) && n <= |entries|
    ensures CallsOk(entries[..n], permissions)
  {
  }

  lemma {:induction false} CallsOkMarked(entries: seq<Entry>, permissions: seq<seq<Choice>>)
    requires CallsOk(entries, permissions)
    ensures CallsOk(MarkCanceled(entries), permissions)
  {
  }

  lemma {:induction false} CallsOkNewChannel(entries: seq<Entry>, permissions: seq<seq<Choice>>)
    requires CallsOk(entries, permissions)
    ensures CallsOk(entries, permissions + [[]]) && FreshChannel(entries, permissions + [[]], |permissions|)
  {
  }

  /** An update from the agent keeps the sender a call owns, or drops it. */
  lemma {:induction false} FieldsKeepSender(call: T.CallState, fields: T.Fields, terminals: set<nat>)
    ensures var u := T.WithFields(call, fields, terminals).call;
            u.id == call.id && (ChannelOf(ToolCall(u)).Some? ==> ChannelOf(ToolCall(u)) == ChannelOf(ToolCall(call)))
  {
  }

  lemma {:induction false} UpsertKeepsCalls(s: State, id: nat, fields: T.Fields, hasTitle: bool, status: T.Status)
    requires CallsOk(s.entries, s.permissions)
    requires status.WaitingForConfirmation? ==> FreshChannel(s.entries, s.permissions, status.respondTx)
    ensures var t := Upsert(s, id, fields, hasTitle, status).state;
            CallsOk(t.entries, t.permissions) && t.permissions == s.permissions
  {
    var i := FindCall(s.entries, id);
    if i.Some? {
      var call := s.entries[i.value].call;
      var u := T.WithFields(call, fields, Registered(s));
      var e := ToolCall(if u.ok then u.call.(status := T.WithStatus(u.call.status, status)) else u.call);
      FieldsKeepSender(call, fields, Registered(s));
      CallsOkPut(s.entries, s.permissions, i.value, e);
    } else {
      var c := T.NewCall(id, fields, hasTitle, status, Registered(s));
      if c.Some? {
        CallsOkPush(s.entries, s.permissions, ToolCall(c.value));
      }
    }
  }

  lemma {:induction false} UpdateCallKeepsCalls(s: State, id: nat, fields: T.Fields)
    requires CallsOk(s.entries, s.permissions)
    ensures var t := UpdateCall(s, id, fields).state;
            CallsOk(t.entries, t.permissions) && t.permissions == s.permissions
  {
    var i := FindCall(s.entries, id);
    if i.Some? {
      var call := s.entries[i.value].call;
      var u := T.WithFields(call, fields, Registered(s)).call;
      FieldsKeepSender(call, fields, Registered(s));
      CallsOkPut(s.entries, s.permissions, i.value, ToolCall(u));
    } else {
      CallsOkPush(s.entries, s.permissions, ToolCall(UnknownCall(id)));
    }
  }

  lemma {:induction false} AuthorizeKeepsCalls(s: State, id: nat, choice: Choice)
    requires CallsOk(s.entries, s.permissions)
    ensures var t := Authorize(s, id, choice); CallsOk(t.entries, t.permissions)
  {
    var i := FindCall(s.entries, id);
    if i.Some? {
      var call := s.entries[i.value].call;
      var e := ToolCall(call.(status := T.Authorized(call.status, choice.kind)));
      CallsOkPut(s.entries, s.permissions, i.value, e);
      if call.status.WaitingForConfirmation? {
        SendKeepsCalls(s.entries[i.value := e], s.permissions, call.status.respondTx, choice);
      }
    }
  }

  lemma {:induction false} SendKeepsCalls(entries: seq<Entry>, permissions: seq<seq<Choice>>, c: nat, choice: Choice)
    requires CallsOk(entries, permissions) && FreshChannel(entries, permissions, c)
    ensures CallsOk(entries, Sent(permissions, c, choice))
  {
  }

  lemma {:induction false} FinishKeepsCalls(s: State, k: nat)
    requires CallsOk(s.entries, s.permissions) && CanFinish(s, k)
    ensures var t := Finish(s, k); CallsOk(t.entries, t.permissions) && t.permissions == s.permissions
  {
    CallsOkMarked(s.entries, s.permissions);
    if s.tasks[k].Replied? && s.tasks[k].answer.Response? {
      var u := Flushed((if IsSame(s, k) then s.(running := None) else s).(tasks := s.tasks[k := Finished]));
      assert u.entries == s.entries && u.permissions == s.permissions;
      ResponseKeepsCalls(u, s.tasks[k].answer.stop, IsSame(s, k));
    }
  }

  lemma {:induction false} ResponseKeepsCalls(s: State, stop: StopReason, same: bool)
    requires CallsOk(s.entries, s.permissions)
    ensures var t := FinishResponse(s, stop, same); CallsOk(t.entries, t.permissions) && t.permissions == s.permissions
  {
    CallsOkMarked(s.entries, s.permissions);
    SnapshotKeepsCalls(s);
    var v := SnapshotCompletedPlan(s);
    var l := LastUser(v.entries);
    if l.Some? { CallsOkPrefix(v.entries, v.permissions, l.value); }
  }

  lemma {:induction false} SnapshotKeepsCalls(s: State)
    requires CallsOk(s.entries, s.permissions)
    ensures CallsOk(SnapshotCompletedPlan(s).entries, s.permissions) && SnapshotCompletedPlan(s).permissions == s.permissions
  {
    CallsOkPush(s.entries, s.permissions, CompletedPlan(s.plan));
  }

  /** The last entry is changed, staying an assistant message, or one is added. */
  predicate OnlyLastEntry(entries: seq<Entry>, after: seq<Entry>, indented: bool) {
    if LastIsAssistant(entries, indented) then
      && |after| == |entries|
      && after[|after| - 1].AssistantMessage?
      && after == WithLast(entries, after[|after| - 1])
    else
      && |after| == |entries| + 1
      && after[|entries|].AssistantMessage?
      && after == entries + [after[|entries|]]
  }

  lemma {:induction false} AppendTouchesLastEntry(s: State, id: Option<nat>, c: AcpContent, thought: bool, indented: bool)
    ensures var t := AppendChunk(s, id, c, thought, indented);
            t.permissions == s.permissions && OnlyLastEntry(s.entries, t.entries, indented)
  {
  }

  lemma {:induction false} ChunkTouchesLastEntry(s: State, id: Option<nat>, c: AcpContent, thought: bool, indented: bool)
    ensures var t := PushAssistant(s, id, c, thought, indented);
            t.permissions == s.permissions && OnlyLastEntry(s.entries, t.entries, indented)
  {
    AppendTouchesLastEntry(s, id, c, thought, indented);
    var target := StreamingTarget(s, id, thought, indented);
    if c.TextContent? && target.Some? {
      var t := BufferedText(s.(entries := AdoptedId(s.entries, id)), target.value, c.text);
      assert t.entries == AdoptedId(s.entries, id) && t.permissions == s.permissions;
    }
  }

  lemma {:induction false} ChunksKeepCalls(s: State, id: Option<nat>, c: AcpContent, thought: bool, indented: bool)
    requires CallsOk(s.entries, s.permissions)
    ensures var t := PushAssistant(s, id, c, thought, indented);
            CallsOk(t.entries, t.permissions) && t.permissions == s.permissions
  {
    var t := PushAssistant(s, id, c, thought, indented);
    ChunkTouchesLastEntry(s, id, c, thought, indented);
    if LastIsAssistant(s.entries, indented) {
      CallsOkPut(s.entries, s.permissions, |s.entries| - 1, t.entries[|s.entries| - 1]);
    } else {
      CallsOkPush(s.entries, s.permissions, t.entries[|s.entries|]);
    }
  }

  lemma {:induction false} UserKeepsCalls(s: State, clientId: Option<nat>, optimistic: bool, protocolId: Option<nat>, c: AcpContent, indented: bool)
    requires CallsOk(s.entries, s.permissions)
    ensures var t := PushUser(s, clientId, optimistic, protocolId, c, indented);
            CallsOk(t.entries, t.permissions) && t.permissions == s.permissions
  {
    var t := PushUser(s, clientId, optimistic, protocolId, c, indented);
    if JoinsUser(s.entries, protocolId, optimistic, indented) {
      CallsOkPut(s.entries, s.permissions, |s.entries| - 1, t.entries[|s.entries| - 1]);
    } else {
      CallsOkPush(s.entries, s.permissions, t.entries[|s.entries|]);
    }
  }

  lemma {:induction false} CompactionsKeepCalls(s: State, e: CompactionEvent)
    requires CallsOk(s.entries, s.permissions)
    ensures var t := CompactionStep(s, e); CallsOk(t.entries, t.permissions) && t.permissions == s.permissions
  {
    var t := CompactionStep(s, e);
    var i := FindCompaction(s.entries, e.id);
    if i.Some? {
      CallsOkPut(s.entries, s.permissions, i.value, t.entries[i.value]);
    } else if e.Pushed? {
      CallsOkPush(s.entries, s.permissions, t.entries[|s.entries|]);
    }
  }

  lemma {:induction false} TurnsKeepCalls(s: State, e: TurnEvent)
    requires CallsOk(s.entries, s.permissions)
    ensures var t := TurnStep(s, e); CallsOk(t.entries, t.permissions) && t.permissions == s.permissions
  {
    CallsOkMarked(s.entries, s.permissions);
    if e.FinishTurn? && CanFinish(s, e.turn) {
      FinishKeepsCalls(s, e.turn);
    }
  }

  lemma {:induction false} MessagesKeepCalls(s: State, e: MessageEvent)
    requires CallsOk(s.entries, s.permissions)
    ensures var t := MessageStep(s, e); CallsOk(t.entries, t.permissions) && t.permissions == s.permissions
  {
    match e
    case AgentChunk(id, c, thought, indented) => ChunksKeepCalls(s, id, c, thought, indented);
    case UserPush(clientId, c, indented) => UserKeepsCalls(s, clientId, clientId.Some?, None, c, indented);
    case UserEcho(protocolId, c) =>
      if Echo(s.entries, protocolId, c) {
        CallsOkPut(s.entries, s.permissions, |s.entries| - 1, MessageStep(s, e).entries[|s.entries| - 1]);
      } else {
        UserKeepsCalls(s, None, false, protocolId, c, false);
      }
  }

  lemma {:induction false} CallEventsKeepCalls(s: State, e: CallEvent)
    requires CallsOk(s.entries, s.permissions)
    ensures CallsOk(CallStep(s, e).entries, CallStep(s, e).permissions)
  {
    match e
    case Upserted(id, fields, hasTitle, status) =>
      UpsertKeepsCalls(s, id, fields.(status := Some(status)), hasTitle, T.FromAcp(status));
    case Updated(id, fields) => UpdateCallKeepsCalls(s, id, fields);
    case AuthorizationRequested(id, fields, hasTitle, kind) =>
      CallsOkNewChannel(s.entries, s.permissions);
      UpsertKeepsCalls(s.(permissions := s.permissions + [[]]), id, fields, hasTitle,
                       T.WaitingForConfirmation(CurrentStatus(s, id, fields), |s.permissions|, kind));
    case AuthorizationAnswered(id, choice) => AuthorizeKeepsCalls(s, id, choice);
    case _ => ContentKeepsCalls(s, e);
  }

  lemma {:induction false} ContentKeepsCalls(s: State, e: CallEvent)
    requires CallsOk(s.entries, s.permissions)
    requires e.ContentReplaced? || e.TextAppended? || e.AuthorizationCanceled?
    ensures CallsOk(CallStep(s, e).entries, CallStep(s, e).permissions)
  {
    var i := FindCall(s.entries, e.id);
    var t := CallStep(s, e);
    if i.Some? {
      if t != s { CallsOkPut(s.entries, s.permissions, i.value, t.entries[i.value]); }
    } else if e.ContentReplaced? {
      CallsOkPush(s.entries, s.permissions, ToolCall(UnknownCall(e.id)));
    }
  }

  lemma {:induction false} RestKeepsCalls(s: State, e: Event)
    requires CallsOk(s.entries, s.permissions)
    requires !e.Turn? && !e.Message? && !e.Call? && !e.Compaction?
    ensures CallsOk(Step(s, e).entries, Step(s, e).permissions)
  {
    match e
    case Body(PromptPushed(k, clientId, prompt)) =>
      if k < |s.tasks| { CallsOkPush(s.entries, s.permissions, Step(s, e).entries[|s.entries|]); }
    case Elicit(Requested(_, _, valid)) =>
      if valid { CallsOkPush(s.entries, s.permissions, Elicitation(|s.elicitations.delivered|)); }
    case RewindDone(clientId) =>
      var i := FindUser(s.entries, clientId);
      if i.Some? { CallsOkPrefix(s.entries, s.permissions, i.value); }
    case _ =>
  }

  lemma {:induction false} StepKeepsCalls(s: State, e: Event)
    requires CallsOk(s.entries, s.permissions)
    ensures CallsOk(Step(s, e).entries, Step(s, e).permissions)
  {
    match e
    case Turn(t) => TurnsKeepCalls(s, t);
    case Message(m) => MessagesKeepCalls(s, m);
    case Call(c) => CallEventsKeepCalls(s, c);
    case Compaction(c) => CompactionsKeepCalls(s, c);
    case _ => RestKeepsCalls(s, e);
  }

  // ---------- elicitations ----------

  /** The thread's store keeps its invariant and never loses an entry; the timeline refers into it. */
  ghost predicate ElicitationsOk(s: State) {
    E.Inv(s.elicitations) && AllPresent(s.elicitations) && RefersWithin(s.entries, |s.elicitations.delivered|)
  }

  ghost predicate AllPresent(st: E.Store) {
    forall id :: 0 <= id < |st.delivered| ==> E.Present(st.items, id)
  }

  predicate RefersWithin(entries: seq<Entry>, n: nat) {
    forall i :: 0 <= i < |entries| && entries[i].Elicitation? ==> entries[i].elicitation < n
  }

  lemma {:induction false} StoreStepKeepsAll(st: E.Store, op: E.Op)
    requires E.Inv(st) && AllPresent(st) && !op.OpClear? && !op.OpClearResolved?
    ensures E.Inv(E.Step(st, op)) && AllPresent(E.Step(st, op)) && |st.delivered| <= |E.Step(st, op).delivered|
  {
    E.StepKeepsInv(st, op);
    E.IdsStay(st, op);
    var st' := E.Step(st, op);
    E.SameIdsSamePresence(st.items, st'.items);
    if |st'.items| > |st.items| {
      assert st'.items[|st.items|].id == |st.delivered|;
    }
  }

  lemma {:induction false} CancelWhereKeepsAll(st: E.Store, selected: E.Elicitation -> bool)
    requires E.Inv(st) && AllPresent(st)
    ensures E.Inv(E.CancelWhere(st, selected)) && AllPresent(E.CancelWhere(st, selected))
    ensures |E.CancelWhere(st, selected).delivered| == |st.delivered|
  {
    E.CancelWhereKeepsInv(st, selected);
    E.SameIdsSamePresence(st.items, E.CancelWhere(st, selected).items);
  }

  /** The store's own operation behind an operation of the thread. */
  function StoreOp(e: ElicitationEvent): E.Op {
    match e
    case Requested(mode, requestId, valid) => E.OpRequest(mode, requestId, valid)
    case Answered(id, action) => E.OpRespond(id, action)
    case UrlCompleted(urlId) => E.OpCompleteUrl(urlId)
    case Canceled(id) => E.OpCancel(id)
  }

  /** The thread lets an operation through exactly when the timeline shows the entry. */
  lemma {:induction false} ElicitationEventsAreStoreSteps(s: State, e: ElicitationEvent)
    ensures var t := ElicitationStep(s, e);
            t.elicitations == E.Step(s.elicitations, StoreOp(e)) || t.elicitations == s.elicitations
    ensures e.Answered? || e.Canceled? ==>
              ElicitationStep(s, e).elicitations
              == if Elicitation(e.id) in s.entries then E.Step(s.elicitations, StoreOp(e)) else s.elicitations
  {
  }

  lemma {:induction false} ElicitationEventsKeepElicitations(s: State, e: ElicitationEvent)
    requires ElicitationsOk(s)
    ensures ElicitationsOk(ElicitationStep(s, e))
  {
    StoreStepKeepsAll(s.elicitations, StoreOp(e));
    ElicitationEventsAreStoreSteps(s, e);
    var t := ElicitationStep(s, e);
    if e.Requested? && e.valid {
      assert t.entries == s.entries + [Elicitation(|s.elicitations.delivered|)];
      assert |t.elicitations.delivered| == |s.elicitations.delivered| + 1;
    } else {
      assert t.entries == s.entries;
    }
  }

  lemma {:induction false} MarkedRefers(entries: seq<Entry>, n: nat)
    requires RefersWithin(entries, n)
    ensures RefersWithin(MarkCanceled(entries), n)
  {
  }

  /** What turns do to elicitations: nothing, or cancel those the timeline shows. */
  ghost predicate TurnsTreatElicitations(s: State, t: State) {
    && (|| t.elicitations == s.elicitations
        || t.elicitations == E.CancelWhere(s.elicitations, InTimeline(s.entries))
        || t.elicitations == E.CancelWhere(s.elicitations, InTimeline(MarkCanceled(s.entries))))
    && (|| t.entries <= s.entries || t.entries == MarkCanceled(s.entries)
        || (|t.entries| == |s.entries| + 1 && t.entries[..|s.entries|] == s.entries && t.entries[|s.entries|].CompletedPlan?))
  }

  lemma {:induction false} FinishTreatsElicitations(s: State, k: nat)
    requires CanFinish(s, k)
    ensures TurnsTreatElicitations(s, Finish(s, k))
  {
    if s.tasks[k].Replied? && s.tasks[k].answer.Response? {
      var u := Flushed((if IsSame(s, k) then s.(running := None) else s).(tasks := s.tasks[k := Finished]));
      assert u.entries == s.entries && u.elicitations == s.elicitations;
      ResponseTreatsElicitations(u, s.tasks[k].answer.stop, IsSame(s, k));
    }
  }

  lemma {:induction false} ResponseTreatsElicitations(s: State, stop: StopReason, same: bool)
    ensures TurnsTreatElicitations(s, FinishResponse(s, stop, same))
  {
    if stop.EndTurn? || stop.Refusal? {
      SnapshotAddsPlan(s);
      RefusalCuts(s);
      RefusalCuts(SnapshotCompletedPlan(s));
      var u := LastUser(SnapshotCompletedPlan(s).entries);
      if stop.Refusal? && u.Some? {
        assert u.value < |s.entries|;
      }
    }
  }

  lemma {:induction false} SnapshotAddsPlan(s: State)
    ensures var v := SnapshotCompletedPlan(s);
            && v.elicitations == s.elicitations && v.hadError == s.hadError && SameTurn(s, v)
            && (v.entries == s.entries || v.entries == s.entries + [CompletedPlan(s.plan)])
  {
  }

  /** A refusal only cuts the timeline before its newest user message, if at all. */
  lemma {:induction false} RefusalCuts(s: State)
    ensures var t := Refuse(s);
            && t.elicitations == s.elicitations
            && (t.entries == s.entries || (LastUser(s.entries).Some? && t.entries == s.entries[..LastUser(s.entries).value]))
  {
  }

  lemma {:induction false} CancelTreatsElicitations(s: State)
    ensures TurnsTreatElicitations(s, Cancel(s)) && TurnsTreatElicitations(s, RunTurn(s))
  {
  }

  lemma {:induction false} TreatmentKeepsElicitations(s: State, t: State)
    requires ElicitationsOk(s) && TurnsTreatElicitations(s, t)
    ensures ElicitationsOk(t)
  {
    var n := |s.elicitations.delivered|;
    MarkedRefers(s.entries, n);
    assert RefersWithin(t.entries, n);
    CancelWhereKeepsAll(s.elicitations, InTimeline(s.entries));
    CancelWhereKeepsAll(s.elicitations, InTimeline(MarkCanceled(s.entries)));
  }

  lemma {:induction false} TurnsKeepElicitations(s: State, e: TurnEvent)
    requires ElicitationsOk(s)
    ensures ElicitationsOk(TurnStep(s, e))
  {
    if e.FinishTurn? {
      if CanFinish(s, e.turn) {
        FinishTreatsElicitations(s, e.turn);
        TreatmentKeepsElicitations(s, Finish(s, e.turn));
      }
    } else {
      CancelTreatsElicitations(s);
      TreatmentKeepsElicitations(s, TurnStep(s, e));
    }
  }

  /** Nothing changed, one entry was added or replaced by one that is no elicitation, or the end was cut off. */
  ghost predicate PlainEdit(entries: seq<Entry>, after: seq<Entry>) {
    || after <= entries
    || (|after| == |entries| + 1 && after == entries + [after[|entries|]] && !after[|entries|].Elicitation?)
    || (|after| == |entries| && exists i :: 0 <= i < |entries| && after == entries[i := after[i]] && !after[i].Elicitation?)
  }

  lemma {:induction false} PutIsPlain(entries: seq<Entry>, i: nat, e: Entry)
    requires i < |entries| && !e.Elicitation?
    ensures PlainEdit(entries, entries[i := e])
  {
  }

  lemma {:induction false} MessagesEditPlainly(s: State, e: MessageEvent)
    ensures PlainEdit(s.entries, MessageStep(s, e).entries) && MessageStep(s, e).elicitations == s.elicitations
  {
    var t := MessageStep(s, e).entries;
    if e.AgentChunk? {
      ChunkTouchesLastEntry(s, e.id, e.content, e.thought, e.indented);
    }
    if |t| == |s.entries| > 0 {
      PutIsPlain(s.entries, |t| - 1, t[|t| - 1]);
    }
  }

  lemma {:induction false} CallsEditPlainly(s: State, e: CallEvent)
    ensures PlainEdit(s.entries, CallStep(s, e).entries) && CallStep(s, e).elicitations == s.elicitations
  {
    var t := CallStep(s, e).entries;
    var i := FindCall(s.entries, e.id);
    if i.Some? && t != s.entries {
      PutIsPlain(s.entries, i.value, t[i.value]);
    }
  }

  lemma {:induction false} CompactionsEditPlainly(s: State, e: CompactionEvent)
    ensures PlainEdit(s.entries, CompactionStep(s, e).entries) && CompactionStep(s, e).elicitations == s.elicitations
  {
  }

  lemma {:induction false} RestEditsPlainly(s: State, e: Event)
    requires !e.Turn? && !e.Message? && !e.Call? && !e.Compaction? && !e.Elicit?
    ensures PlainEdit(s.entries, Step(s, e).entries) && Step(s, e).elicitations == s.elicitations
  {
  }

  lemma {:induction false} PlainEditKeepsReferences(entries: seq<Entry>, after: seq<Entry>, n: nat)
    requires PlainEdit(entries, after) && RefersWithin(entries, n)
    ensures RefersWithin(after, n)
  {
  }

  lemma {:induction false} StepKeepsElicitations(s: State, e: Event)
    requires ElicitationsOk(s)
    ensures ElicitationsOk(Step(s, e))
  {
    match e
    case Turn(t) => TurnsKeepElicitations(s, t);
    case Elicit(x) => ElicitationEventsKeepElicitations(s, x);
    case _ =>
      match e {
        case Message(m) => MessagesEditPlainly(s, m);
        case Call(c) => CallsEditPlainly(s, c);
        case Compaction(c) => CompactionsEditPlainly(s, c);
        case _ => RestEditsPlainly(s, e);
      }
      PlainEditKeepsReferences(s.entries, Step(s, e).entries, |s.elicitations.delivered|);
  }

  // ---------- over whole runs ----------

  lemma {:induction false} RunKeepsCalls(events: seq<Event>)
    ensures CallsOk(Run(events).entries, Run(events).permissions)
  {
    if events != [] {
      RunKeepsCalls(events[..|events| - 1]);
      StepKeepsCalls(Run(events[..|events| - 1]), events[|events| - 1]);
    }
  }

  lemma {:induction false} RunKeepsElicitations(events: seq<Event>)
    ensures ElicitationsOk(Run(events))
  {
    if events != [] {
      RunKeepsElicitations(events[..|events| - 1]);
      StepKeepsElicitations(Run(events[..|events| - 1]), events[|events| - 1]);
    }
  }
}
