/**
 Permission prompts over whole runs: each sender is owned by one waiting tool call until it is
 used once or dropped, for good; and a prompt does not disturb what the agent reports meanwhile.
 */
module ThreadPermissions {
  import opened Prelude
  import opened Content
  import opened ThreadModel
  import opened ThreadInvariants
  import opened ThreadCancel
  import T = ToolCalls

  // ---------- senders are linear ----------

  /** The channels whose senders the timeline owns. */
  function Senders(entries: seq<Entry>): set<nat> {
    set i | 0 <= i < |entries| && ChannelOf(entries[i]).Some? :: ChannelOf(entries[i]).value
  }

  lemma {:induction false} OwnedIsSender(entries: seq<Entry>, c: nat)
    ensures Owned(entries, c) <==> c in Senders(entries)
  {
  }

  /** A step moves no sender except to drop it or to make the one of a new channel. */
  ghost predicate SendersFlow(s: State, t: State) {
    && Senders(t.entries) <= Senders(s.entries) + (if |t.permissions| > |s.permissions| then {|s.permissions|} else {})
    && |s.permissions| <= |t.permissions| <= |s.permissions| + 1
    && t.permissions[..|s.permissions|] == s.permissions
  }

  lemma {:induction false} SendersPut(entries: seq<Entry>, i: nat, e: Entry, extra: set<nat>)
    requires i < |entries|
    requires ChannelOf(e).Some? ==> ChannelOf(e) == ChannelOf(entries[i]) || ChannelOf(e).value in extra
    ensures Senders(entries[i := e]) <= Senders(entries) + extra
  {
  }

  lemma {:induction false} SendersPush(entries: seq<Entry>, e: Entry, extra: set<nat>)
    requires ChannelOf(e).Some? ==> ChannelOf(e).value in extra
    ensures Senders(entries + [e]) <= Senders(entries) + extra
  {
  }

  lemma {:induction false} SendersPrefix(entries: seq<Entry>, after: seq<Entry>)
    requires after <= entries
    ensures Senders(after) <= Senders(entries)
  {
  }

  lemma {:induction false} UpsertFlows(s: State, id: nat, fields: T.Fields, hasTitle: bool, status: T.Status, extra: set<nat>)
    requires status.WaitingForConfirmation? ==> status.respondTx in extra
    ensures Senders(Upsert(s, id, fields, hasTitle, status).state.entries) <= Senders(s.entries) + extra
    ensures Upsert(s, id, fields, hasTitle, status).state.permissions == s.permissions
  {
    var t := Upsert(s, id, fields, hasTitle, status).state;
    var i := FindCall(s.entries, id);
    if i.Some? {
      FieldsKeepSender(s.entries[i.value].call, fields, Registered(s));
      SendersPut(s.entries, i.value, t.entries[i.value], extra);
    } else if t.entries != s.entries {
      SendersPush(s.entries, t.entries[|s.entries|], extra);
    }
  }

  lemma {:induction false} CallsFlow(s: State, e: CallEvent)
    requires !e.AuthorizationAnswered?
    ensures SendersFlow(s, CallStep(s, e))
  {
    var t := CallStep(s, e);
    match e
    case Upserted(id, fields, hasTitle, status) =>
      UpsertFlows(s, id, fields.(status := Some(status)), hasTitle, T.FromAcp(status), {});
    case AuthorizationRequested(id, fields, hasTitle, kind) =>
      UpsertFlows(s.(permissions := s.permissions + [[]]), id, fields, hasTitle,
                  T.WaitingForConfirmation(CurrentStatus(s, id, fields), |s.permissions|, kind), {|s.permissions|});
    case _ => EditsFlow(s, e);
  }

  lemma {:induction false} EditsFlow(s: State, e: CallEvent)
    requires e.Updated? || e.ContentReplaced? || e.TextAppended? || e.AuthorizationCanceled?
    ensures SendersFlow(s, CallStep(s, e))
  {
    var t := CallStep(s, e);
    var i := FindCall(s.entries, e.id);
    if i.Some? {
      if e.Updated? { FieldsKeepSender(s.entries[i.value].call, e.fields, Registered(s)); }
      if t.entries != s.entries { SendersPut(s.entries, i.value, t.entries[i.value], {}); }
    } else if e.Updated? || e.ContentReplaced? {
      SendersPush(s.entries, ToolCall(UnknownCall(e.id)), {});
    }
  }

  lemma {:induction false} FinishFlows(s: State, k: nat)
    requires CanFinish(s, k)
    ensures SendersFlow(s, Finish(s, k))
  {
    FinishTreatsElicitations(s, k);
    FinishKeepsPermissions(s, k);
    TreatmentFlows(s, Finish(s, k));
  }

  lemma {:induction false} TreatmentFlows(s: State, t: State)
    requires TurnsTreatElicitations(s, t) && t.permissions == s.permissions
    ensures SendersFlow(s, t)
  {
  }

  lemma {:induction false} TurnsFlow(s: State, e: TurnEvent)
    ensures SendersFlow(s, TurnStep(s, e))
  {
    if e.FinishTurn? {
      if CanFinish(s, e.turn) { FinishFlows(s, e.turn); }
    } else {
      CancelTreatsElicitations(s);
      TreatmentFlows(s, TurnStep(s, e));
    }
  }

  lemma {:induction false} MessagesFlow(s: State, e: MessageEvent)
    ensures SendersFlow(s, MessageStep(s, e))
  {
    var t := MessageStep(s, e);
    if e.AgentChunk? {
      ChunkTouchesLastEntry(s, e.id, e.content, e.thought, e.indented);
    }
    if |t.entries| == |s.entries| > 0 {
      SendersPut(s.entries, |s.entries| - 1, t.entries[|s.entries| - 1], {});
    } else {
      SendersPush(s.entries, t.entries[|s.entries|], {});
    }
  }

  lemma {:induction false} CompactionsFlow(s: State, e: CompactionEvent)
    ensures SendersFlow(s, CompactionStep(s, e))
  {
    var t := CompactionStep(s, e);
    var i := FindCompaction(s.entries, e.id);
    if i.Some? {
      SendersPut(s.entries, i.value, t.entries[i.value], {});
    } else if e.Pushed? {
      SendersPush(s.entries, t.entries[|s.entries|], {});
    }
  }

  lemma {:induction false} RestFlows(s: State, e: Event)
    requires !e.Turn? && !e.Message? && !e.Call? && !e.Compaction?
    ensures SendersFlow(s, Step(s, e))
  {
    var t := Step(s, e);
    if |t.entries| > |s.entries| {
      SendersPush(s.entries, t.entries[|s.entries|], {});
    } else {
      SendersPrefix(s.entries, t.entries);
    }
  }

  lemma {:induction false} StepFlows(s: State, e: Event)
    requires !(e.Call? && e.call.AuthorizationAnswered?)
    ensures SendersFlow(s, Step(s, e))
  {
    match e
    case Turn(t) => TurnsFlow(s, t);
    case Message(m) => MessagesFlow(s, m);
    case Call(c) => CallsFlow(s, c);
    case Compaction(c) => CompactionsFlow(s, c);
    case _ => RestFlows(s, e);
  }

  /** What an answer does: it sends the choice to the call it names, if that still waits, and drops nothing. */
  lemma {:induction false} AnswerSendsOnce(s: State, id: nat, choice: Choice, c: nat)
    requires CallsOk(s.entries, s.permissions) && c < |s.permissions|
    ensures var t := Authorize(s, id, choice);
            var i := FindCall(s.entries, id);
            && |t.permissions| == |s.permissions|
            && FateOf(t, c) == (if i.Some? && ChannelOf(s.entries[i.value]) == Some(c) then Selected(choice) else FateOf(s, c))
  {
    var t := Authorize(s, id, choice);
    var i := FindCall(s.entries, id);
    if i.Some? {
      assert t.entries == s.entries[i.value := t.entries[i.value]];
      if ChannelOf(s.entries[i.value]) == Some(c) {
        assert Unanswered(s.permissions, c);
      } else {
        assert t.permissions[c] == s.permissions[c];
        if Owned(s.entries, c) {
          var j :| 0 <= j < |s.entries| && ChannelOf(s.entries[j]) == Some(c);
          assert ChannelOf(t.entries[j]) == Some(c);
        }
        if Owned(t.entries, c) {
          var j :| 0 <= j < |t.entries| && ChannelOf(t.entries[j]) == Some(c);
          assert ChannelOf(s.entries[j]) == Some(c);
        }
      }
    }
  }

  /**
   A prompt's fate is sealed once: a choice that was sent, or a sender that was dropped, stays;
   an open prompt stays open, is dropped, or is answered by the user, with the user's choice.
   */
  lemma {:induction false} FateIsSealed(s: State, e: Event, c: nat)
    requires CallsOk(s.entries, s.permissions) && c < |s.permissions|
    ensures var t := Step(s, e);
            && c < |t.permissions|
            && (!FateOf(s, c).Open? ==> FateOf(t, c) == FateOf(s, c))
            && (FateOf(s, c).Open? && FateOf(t, c).Selected? ==>
                  e.Call? && e.call.AuthorizationAnswered? && FateOf(t, c) == Selected(e.call.choice)
                  && FindCall(s.entries, e.call.id).Some?
                  && ChannelOf(s.entries[FindCall(s.entries, e.call.id).value]) == Some(c))
  {
    OwnedIsSender(s.entries, c);
    if e.Call? && e.call.AuthorizationAnswered? {
      AnswerSendsOnce(s, e.call.id, e.call.choice, c);
      var i := FindCall(s.entries, e.call.id);
      if i.Some? && ChannelOf(s.entries[i.value]) == Some(c) {
        assert Owned(s.entries, c) && Unanswered(s.permissions, c);
      }
    } else {
      StepFlows(s, e);
      OwnedIsSender(Step(s, e).entries, c);
      assert Step(s, e).permissions[..|s.permissions|][c] == s.permissions[c];
    }
  }

  /** In every run each channel got at most one choice, has at most one owner, and is owned only while nothing was sent. */
  lemma {:induction false} SendersAreLinear(events: seq<Event>, c: nat)
    requires c < |Run(events).permissions|
    ensures var s := Run(events);
            && |s.permissions[c]| <= 1
            && (forall i, j :: 0 <= i < j < |s.entries| && ChannelOf(s.entries[i]) == Some(c) ==> ChannelOf(s.entries[j]) != Some(c))
            && (Owned(s.entries, c) ==> FateOf(s, c).Open?)
  {
    RunKeepsCalls(events);
  }

  /** And in every run tool-call ids are unique in the timeline, so the search finds the only one. */
  lemma {:induction false} CallIdsAreUnique(events: seq<Event>, i: nat)
    requires i < |Run(events).entries| && Run(events).entries[i].ToolCall?
    ensures FindCall(Run(events).entries, Run(events).entries[i].call.id) == Some(i)
  {
    RunKeepsCalls(events);
  }

  // ---------- prompts are transparent ----------

  function ErasedEntry(e: Entry): Entry {
    if e.ToolCall? then ToolCall(e.call.(status := T.WithoutPrompt(e.call.status))) else e
  }

  function ErasedEntries(entries: seq<Entry>): (r: seq<Entry>)
    ensures |r| == |entries| && forall i :: 0 <= i < |r| ==> r[i] == ErasedEntry(entries[i])
  {
    seq(|entries|, i requires 0 <= i < |entries| => ErasedEntry(entries[i]))
  }

  /** The thread as it would be had no prompt been shown: every waiting call has the status the agent gave it. */
  function Erased(s: State): State {
    s.(entries := ErasedEntries(s.entries), permissions := [])
  }

  /** What the agent sends while the user is thinking. */
  predicate IsAgentUpdate(e: Event) {
    match e
    case Message(_) | TimerTick | Compaction(_) | PlanUpdated(_) | TerminalEvent(_) => true
    case Call(c) => c.Upserted? || c.Updated? || c.ContentReplaced? || c.TextAppended?
    case _ => false
  }

  lemma {:induction false} ErasedSearch(entries: seq<Entry>, id: nat)
    ensures FindCall(ErasedEntries(entries), id) == FindCall(entries, id)
    ensures FindCompaction(ErasedEntries(entries), id) == FindCompaction(entries, id)
  {
  }

  lemma {:induction false} ErasedPut(entries: seq<Entry>, i: nat, e: Entry)
    requires i < |entries|
    ensures ErasedEntries(entries[i := e]) == ErasedEntries(entries)[i := ErasedEntry(e)]
  {
  }

  lemma {:induction false} ErasedPush(entries: seq<Entry>, e: Entry)
    ensures ErasedEntries(entries + [e]) == ErasedEntries(entries) + [ErasedEntry(e)]
  {
  }

  /** The update a waiting call remembers is the update the unprompted call shows. */
  lemma {:induction false} FieldsErase(call: T.CallState, fields: T.Fields, terminals: set<nat>)
    ensures var u := T.WithFields(call, fields, terminals);
            var v := T.WithFields(call.(status := T.WithoutPrompt(call.status)), fields, terminals);
            v.ok == u.ok && v.call == u.call.(status := T.WithoutPrompt(u.call.status))
  {
  }

  lemma {:induction false} UpsertErases(s: State, id: nat, fields: T.Fields, hasTitle: bool, status: T.AcpStatus)
    ensures Erased(Upsert(s, id, fields, hasTitle, T.FromAcp(status)).state)
            == Upsert(Erased(s), id, fields, hasTitle, T.FromAcp(status)).state
  {
    ErasedSearch(s.entries, id);
    var i := FindCall(s.entries, id);
    var t := Upsert(s, id, fields, hasTitle, T.FromAcp(status)).state;
    if i.Some? {
      var call := s.entries[i.value].call;
      FieldsErase(call, fields, Registered(s));
      var u := T.WithFields(call, fields, Registered(s)).call;
      T.PromptIsTransparent(u.status, T.FromAcp(status));
      ErasedPut(s.entries, i.value, t.entries[i.value]);
    } else if t.entries != s.entries {
      ErasedPush(s.entries, t.entries[|s.entries|]);
    }
  }

  lemma {:induction false} CallUpdateErases(s: State, e: CallEvent)
    requires e.Updated? || e.ContentReplaced? || e.TextAppended?
    ensures Erased(CallStep(s, e)) == CallStep(Erased(s), e)
  {
    ErasedSearch(s.entries, e.id);
    var i := FindCall(s.entries, e.id);
    var t := CallStep(s, e);
    if i.Some? {
      if e.Updated? { FieldsErase(s.entries[i.value].call, e.fields, Registered(s)); }
      ErasedPut(s.entries, i.value, t.entries[i.value]);
    } else if !e.TextAppended? {
      ErasedPush(s.entries, t.entries[|s.entries|]);
    }
  }

  lemma {:induction false} CompactionErases(s: State, e: CompactionEvent)
    ensures Erased(CompactionStep(s, e)) == CompactionStep(Erased(s), e)
  {
    ErasedSearch(s.entries, e.id);
    var t := CompactionStep(s, e);
    var i := FindCompaction(s.entries, e.id);
    if i.Some? {
      assert t.entries == s.entries[i.value := t.entries[i.value]];
      ErasedPut(s.entries, i.value, t.entries[i.value]);
      assert ErasedEntries(s.entries)[i.value] == s.entries[i.value];
    } else if e.Pushed? {
      ErasedPush(s.entries, t.entries[|s.entries|]);
    }
  }

  /** A message changes the last entry, a message itself, or adds one; calls before it play no part. */
  lemma {:induction false} ErasedLast(entries: seq<Entry>, indented: bool)
    ensures LastIsAssistant(ErasedEntries(entries), indented) <==> LastIsAssistant(entries, indented)
    ensures |entries| > 0 && !entries[|entries| - 1].ToolCall? ==>
              ErasedEntries(entries)[|entries| - 1] == entries[|entries| - 1]
  {
  }

  lemma {:induction false} AppendErases(s: State, id: Option<nat>, c: AcpContent, thought: bool, indented: bool)
    ensures Erased(AppendChunk(s, id, c, thought, indented)) == AppendChunk(Erased(s), id, c, thought, indented)
  {
    ErasedLast(s.entries, indented);
    var t := AppendChunk(s, id, c, thought, indented);
    if LastIsAssistant(s.entries, indented) {
      ErasedPut(s.entries, |s.entries| - 1, t.entries[|s.entries| - 1]);
    } else {
      ErasedPush(s.entries, t.entries[|s.entries|]);
    }
  }

  lemma {:induction false} AdoptErases(entries: seq<Entry>, id: Option<nat>)
    ensures ErasedEntries(AdoptedId(entries, id)) == AdoptedId(ErasedEntries(entries), id)
  {
  }

  lemma {:induction false} ChunkErases(s: State, id: Option<nat>, c: AcpContent, thought: bool, indented: bool)
    ensures Erased(PushAssistant(s, id, c, thought, indented)) == PushAssistant(Erased(s), id, c, thought, indented)
  {
    ErasedLast(s.entries, indented);
    AppendErases(s, id, c, thought, indented);
    AdoptErases(s.entries, id);
    assert StreamingTarget(Erased(s), id, thought, indented) == StreamingTarget(s, id, thought, indented);
  }

  lemma {:induction false} ErasedJoinsUser(entries: seq<Entry>, protocolId: Option<nat>, optimistic: bool, indented: bool)
    ensures JoinsUser(ErasedEntries(entries), protocolId, optimistic, indented) <==> JoinsUser(entries, protocolId, optimistic, indented)
  {
  }

  lemma {:induction false} UserPushErases(s: State, clientId: Option<nat>, optimistic: bool, protocolId: Option<nat>, c: AcpContent, indented: bool)
    ensures Erased(PushUser(s, clientId, optimistic, protocolId, c, indented))
            == PushUser(Erased(s), clientId, optimistic, protocolId, c, indented)
  {
    ErasedJoinsUser(s.entries, protocolId, optimistic, indented);
    var t := PushUser(s, clientId, optimistic, protocolId, c, indented);
    if JoinsUser(s.entries, protocolId, optimistic, indented) {
      ErasedLast(s.entries, indented);
      ErasedPut(s.entries, |s.entries| - 1, t.entries[|s.entries| - 1]);
    } else {
      ErasedPush(s.entries, t.entries[|s.entries|]);
    }
  }

  lemma {:induction false} MessageErases(s: State, e: MessageEvent)
    ensures Erased(MessageStep(s, e)) == MessageStep(Erased(s), e)
  {
    match e
    case AgentChunk(id, c, thought, indented) => ChunkErases(s, id, c, thought, indented);
    case UserPush(clientId, c, indented) => UserPushErases(s, clientId, clientId.Some?, None, c, indented);
    case UserEcho(protocolId, c) =>
      UserPushErases(s, None, false, protocolId, c, false);
      if |s.entries| > 0 {
        assert ErasedEntries(s.entries)[|s.entries| - 1] == ErasedEntry(s.entries[|s.entries| - 1]);
        ErasedPut(s.entries, |s.entries| - 1, MessageStep(s, e).entries[|s.entries| - 1]);
      }
  }

  lemma {:induction false} UpdateErases(s: State, e: Event)
    requires IsAgentUpdate(e)
    ensures Erased(Step(s, e)) == Step(Erased(s), e)
  {
    match e
    case Message(m) => MessageErases(s, m);
    case Call(c) =>
      if c.Upserted? {
        UpsertErases(s, c.id, c.fields.(status := Some(c.status)), c.hasTitle, c.status);
      } else {
        CallUpdateErases(s, c);
      }
    case Compaction(c) => CompactionErases(s, c);
    case _ =>
  }

  function RunFrom(s: State, events: seq<Event>): State {
    if events == [] then s else Step(RunFrom(s, events[..|events| - 1]), events[|events| - 1])
  }

  /** A run of agent updates does the same with prompts open as it would without them. */
  lemma {:induction false} PromptsAreTransparent(s: State, updates: seq<Event>)
    requires forall i :: 0 <= i < |updates| ==> IsAgentUpdate(updates[i])
    ensures Erased(RunFrom(s, updates)) == RunFrom(Erased(s), updates)
  {
    if updates != [] {
      var before := updates[..|updates| - 1];
      PromptsAreTransparent(s, before);
      UpdateErases(RunFrom(s, before), updates[|updates| - 1]);
    }
  }

  /**
   Granting a permission after any agent updates leaves the status those updates alone would
   have given, pending raised to in progress; rejecting leaves the call rejected.
   */
  lemma {:induction false} AnswerAfterUpdates(s: State, updates: seq<Event>, id: nat, choice: Choice)
    requires forall i :: 0 <= i < |updates| ==> IsAgentUpdate(updates[i])
    requires var a := RunFrom(s, updates);
             var i := FindCall(a.entries, id);
             i.Some? && a.entries[i.value].call.status.WaitingForConfirmation?
             && a.entries[i.value].call.status.kind.PermissionGrant?
    ensures var a, b := RunFrom(s, updates), RunFrom(Erased(s), updates);
            var i := FindCall(a.entries, id);
            && FindCall(b.entries, id) == i
            && Authorize(a, id, choice).entries[i.value].call.status
               == if choice.kind.RejectOnce? || choice.kind.RejectAlways? then T.Rejected else T.Raised(b.entries[i.value].call.status)
  {
    PromptsAreTransparent(s, updates);
    ErasedSearch(RunFrom(s, updates).entries, id);
  }
}
