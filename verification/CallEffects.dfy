/**
 What the agent's and the user's operations on tool calls do to the thread: which entry changes,
 what its status becomes, and what the receiver of a permission prompt sees.
 */
module CallEffects {
  import opened Prelude
  import Utf8
  import Content
  import opened ThreadModel
  import opened ThreadInvariants
  import opened ThreadCancel
  import T = ToolCalls

  // ---------- where a call is ----------

  /** The newest entry of the call; in every run it is the only one. */
  predicate CallAt(entries: seq<Entry>, id: nat, i: nat) {
    && i < |entries| && entries[i].ToolCall? && entries[i].call.id == id
    && forall j :: i < j < |entries| && entries[j].ToolCall? ==> entries[j].call.id != id
  }

  predicate NoCall(entries: seq<Entry>, id: nat) {
    forall j :: 0 <= j < |entries| && entries[j].ToolCall? ==> entries[j].call.id != id
  }

  lemma {:induction false} FoundAt(entries: seq<Entry>, id: nat, i: nat)
    requires CallAt(entries, id, i)
    ensures FindCall(entries, id) == Some(i)
  {
  }

  /** Only the entry at `i` changed, and only the call in it. */
  predicate OnlyCallChanged(s: State, t: State, i: nat) {
    && i < |s.entries| == |t.entries| && t.entries[i].ToolCall?
    && t == s.(entries := s.entries[i := t.entries[i]])
  }

  /** One call was added at the end, after the pending text was shown. */
  predicate OnlyCallAdded(s: State, t: State) {
    && |t.entries| == |s.entries| + 1 && t.entries[|s.entries|].ToolCall?
    && t == Flushed(s).(entries := s.entries + [t.entries[|s.entries|]])
  }

  /** The entry's call shows what an update of `was` with these fields shows; its status is another matter. */
  predicate ShowsUpdate(e: Entry, was: T.CallState, fields: T.Fields, terminals: set<nat>) {
    e.ToolCall? && T.WithFields(was, fields, terminals).call.(status := e.call.status) == e.call
  }

  /** The entry's call is new, and shows all that the fields hold. */
  predicate ShowsNew(e: Entry, id: nat, fields: T.Fields, terminals: set<nat>) {
    && e.ToolCall? && e.call.id == id && (e.call.hasOutput <==> fields.rawOutput.Some?)
    && e.call.content == if fields.content.Some? then T.Rebuilt(fields.content.value, terminals) else []
  }

  // ---------- the agent's updates ----------

  /**
   An update to a known call changes that call alone, as its fields say; one to an unknown call
   adds a failed call that says so.
   */
  lemma {:induction false} UpdateReachesCall(s: State, id: nat, fields: T.Fields, i: nat)
    ensures var t := Step(s, Call(Updated(id, fields)));
            && (CallAt(s.entries, id, i) ==>
                  OnlyCallChanged(s, t, i)
                  && t.entries[i].call == T.WithFields(s.entries[i].call, fields, s.terminals.live.Keys).call)
            && (NoCall(s.entries, id) ==>
                  && OnlyCallAdded(s, t)
                  && t.entries[|s.entries|].call
                     == T.CallState(id, T.Failed, [T.Block(Content.Markdown(Content.Ascii("Tool call not found")))], false))
  {
    if CallAt(s.entries, id, i) { FoundAt(s.entries, id, i); }
    NotFoundMessage();
  }

  lemma NotFoundMessage()
    ensures NOT_FOUND_MESSAGE == Content.Ascii("Tool call not found")
  {
    var words := ["Tool ", "call ", "not ", "found"];
    assert words[0] + words[1] + words[2] + words[3] == "Tool call not found";
  }

  /** A new diff or terminal takes the place of a known call's content. */
  lemma {:induction false} ReplacementReachesCall(s: State, id: nat, item: T.Item, i: nat)
    requires CallAt(s.entries, id, i)
    ensures var t := Step(s, Call(ContentReplaced(id, item)));
            OnlyCallChanged(s, t, i) && t.entries[i].call == s.entries[i].call.(content := [item])
  {
    FoundAt(s.entries, id, i);
  }

  /** Text for a known call is added as a block of its own; for an unknown call it is lost. */
  lemma {:induction false} TextReachesCall(s: State, id: nat, text: Utf8.Text, i: nat)
    ensures var t := Step(s, Call(TextAppended(id, text)));
            && (CallAt(s.entries, id, i) ==>
                  && OnlyCallChanged(s, t, i)
                  && t.entries[i].call
                     == s.entries[i].call.(content := s.entries[i].call.content + [T.Block(Content.Markdown(text))]))
            && (NoCall(s.entries, id) ==> t == s)
  {
    if CallAt(s.entries, id, i) { FoundAt(s.entries, id, i); }
  }

  /** A known call that is announced again takes the announced status as it takes any update's, and shows the rest. */
  lemma {:induction false} AnnouncementReachesCall(s: State, id: nat, fields: T.Fields, hasTitle: bool, status: T.AcpStatus, i: nat)
    requires CallAt(s.entries, id, i)
    ensures var t := Step(s, Call(Upserted(id, fields, hasTitle, status)));
            && OnlyCallChanged(s, t, i)
            && ShowsUpdate(t.entries[i], s.entries[i].call, fields, s.terminals.live.Keys)
            && t.entries[i].call.status == T.WithAcpStatus(s.entries[i].call.status, status)
  {
    FoundAt(s.entries, id, i);
    StatusTwice(s.entries[i].call, fields, status, Registered(s));
  }

  /** The status comes with the fields and once more after them, which makes no difference. */
  lemma {:induction false} StatusTwice(call: T.CallState, fields: T.Fields, status: T.AcpStatus, terminals: set<nat>)
    ensures var u := T.WithFields(call, fields.(status := Some(status)), terminals);
            && u.call == T.WithFields(call, fields, terminals).call.(status := T.WithAcpStatus(call.status, status))
            && T.WithStatus(u.call.status, T.FromAcp(status)) == u.call.status
  {
  }

  /** A new call is added with the announced status, if it has a title and all its terminals are registered. */
  lemma {:induction false} AnnouncementAddsCall(s: State, id: nat, fields: T.Fields, hasTitle: bool, status: T.AcpStatus)
    requires NoCall(s.entries, id)
    ensures var t := Step(s, Call(Upserted(id, fields, hasTitle, status)));
            if hasTitle && T.NamesRegistered(fields, s.terminals.live.Keys) then
              && OnlyCallAdded(s, t) && ShowsNew(t.entries[|s.entries|], id, fields, s.terminals.live.Keys)
              && t.entries[|s.entries|].call.status == T.WithAcpStatus(T.Pending, status)
            else t == s
  {
    T.NewCallShows(id, fields.(status := Some(status)), hasTitle, T.FromAcp(status), Registered(s));
  }

  // ---------- permission prompts ----------

  /** What a prompt remembers: the status of the call, or of its open prompt, if the agent gave it; else the request's; else pending. */
  function Remembered(own: Option<T.Status>, requested: Option<T.AcpStatus>): T.AcpStatus {
    match own
    case Some(Pending) => T.AcpPending
    case Some(InProgress) => T.AcpInProgress
    case Some(Completed) => T.AcpCompleted
    case Some(Failed) => T.AcpFailed
    case Some(WaitingForConfirmation(current, _, _)) => current
    case _ => if requested.Some? then requested.value else T.AcpPending
  }

  lemma {:induction false} NewChannelFate(s: State, t: State, c: nat)
    requires c < |t.permissions| && t.permissions[c] == []
    ensures FateOf(t, c) == if Owned(t.entries, c) then Open else Dropped
  {
  }

  /** For a known call a permission request opens a prompt on a new channel, if the update that comes with it succeeds. */
  lemma {:induction false} RequestOpensPrompt(s: State, id: nat, fields: T.Fields, hasTitle: bool, kind: T.AuthorizationKind, i: nat)
    requires CallsOk(s.entries, s.permissions) && CallAt(s.entries, id, i)
    ensures var t := Step(s, Call(AuthorizationRequested(id, fields, hasTitle, kind)));
            var c := |s.permissions|;
            && t.permissions == s.permissions + [[]] && OnlyCallChanged(s.(permissions := t.permissions), t, i)
            && ShowsUpdate(t.entries[i], s.entries[i].call, fields, s.terminals.live.Keys)
            && if T.NamesRegistered(fields, s.terminals.live.Keys) then
                 && t.entries[i].call.status
                    == T.WaitingForConfirmation(Remembered(Some(s.entries[i].call.status), fields.status), c, kind)
                 && FateOf(t, c) == Open
               else FateOf(t, c) == Dropped
  {
    var t := Step(s, Call(AuthorizationRequested(id, fields, hasTitle, kind)));
    FoundAt(s.entries, id, i);
    T.UpdateChanges(s.entries[i].call, fields, Registered(s));
    FieldsKeepSender(s.entries[i].call, fields, Registered(s));
    NewChannelFate(s, t, |s.permissions|);
    if T.NamesRegistered(fields, s.terminals.live.Keys) {
      assert ChannelOf(t.entries[i]) == Some(|s.permissions|);
    } else {
      NobodyOwnsNext(s, t, i);
    }
  }

  lemma {:induction false} NobodyOwnsNext(s: State, t: State, i: nat)
    requires CallsOk(s.entries, s.permissions) && i < |s.entries| == |t.entries| && t.entries == s.entries[i := t.entries[i]]
    requires ChannelOf(t.entries[i]).Some? ==> ChannelOf(t.entries[i]) == ChannelOf(s.entries[i])
    ensures !Owned(t.entries, |s.permissions|)
  {
    forall j | 0 <= j < |t.entries| ensures ChannelOf(t.entries[j]) != Some(|s.permissions|) {
      assert ChannelOf(s.entries[j]).Some? ==> Unanswered(s.permissions, ChannelOf(s.entries[j]).value);
    }
  }

  /** For a new call it adds the call with its prompt, if the call has a title and registered terminals. */
  lemma {:induction false} RequestAddsPrompt(s: State, id: nat, fields: T.Fields, hasTitle: bool, kind: T.AuthorizationKind)
    requires CallsOk(s.entries, s.permissions) && NoCall(s.entries, id)
    ensures var t := Step(s, Call(AuthorizationRequested(id, fields, hasTitle, kind)));
            var c := |s.permissions|;
            && t.permissions == s.permissions + [[]]
            && if hasTitle && T.NamesRegistered(fields, s.terminals.live.Keys) then
                 && OnlyCallAdded(s.(permissions := t.permissions), t)
                 && ShowsNew(t.entries[|s.entries|], id, fields, s.terminals.live.Keys)
                 && t.entries[|s.entries|].call.status == T.WaitingForConfirmation(Remembered(None, fields.status), c, kind)
                 && FateOf(t, c) == Open
               else t == s.(permissions := t.permissions) && FateOf(t, c) == Dropped
  {
    var t := Step(s, Call(AuthorizationRequested(id, fields, hasTitle, kind)));
    var prompt := T.WaitingForConfirmation(CurrentStatus(s, id, fields), |s.permissions|, kind);
    T.NewCallShows(id, fields, hasTitle, prompt, Registered(s));
    NewChannelFate(s, t, |s.permissions|);
    if hasTitle && T.NamesRegistered(fields, s.terminals.live.Keys) {
      assert ChannelOf(t.entries[|s.entries|]) == Some(|s.permissions|);
    } else {
      forall j | 0 <= j < |t.entries| ensures ChannelOf(t.entries[j]) != Some(|s.permissions|) {
        assert ChannelOf(s.entries[j]).Some? ==> Unanswered(s.permissions, ChannelOf(s.entries[j]).value);
      }
    }
  }

  /** The user's choice: what becomes of the call, and that the choice is sent exactly if the call was waiting. */
  lemma {:induction false} ChoiceReachesCall(s: State, id: nat, choice: Choice, i: nat)
    requires CallsOk(s.entries, s.permissions) && CallAt(s.entries, id, i)
    ensures var t := Step(s, Call(AuthorizationAnswered(id, choice)));
            var was, now := s.entries[i].call.status, t.entries[i].call.status;
            && OnlyCallChanged(s.(permissions := t.permissions), t, i)
            && t.entries[i].call == s.entries[i].call.(status := now)
            && (if was.WaitingForConfirmation? && was.kind.ActionChoice? then now.InProgress?
                else if choice.kind.RejectOnce? || choice.kind.RejectAlways? then now.Rejected?
                else if was.WaitingForConfirmation? && was.current.AcpCompleted? then now.Completed?
                else if was.WaitingForConfirmation? && was.current.AcpFailed? then now.Failed?
                else now.InProgress?)
            && (if was.WaitingForConfirmation? then FateOf(t, was.respondTx) == Selected(choice) else t.permissions == s.permissions)
  {
    FoundAt(s.entries, id, i);
    T.ChoiceDecides(s.entries[i].call.status, choice.kind);
    var was := s.entries[i].call.status;
    if was.WaitingForConfirmation? {
      assert ChannelOf(s.entries[i]) == Some(was.respondTx);
      assert Unanswered(s.permissions, was.respondTx);
    }
  }

  /** Taking a request back cancels a waiting call and drops its prompt, and leaves any other call alone. */
  lemma {:induction false} WithdrawalReachesCall(s: State, id: nat, i: nat)
    requires CallsOk(s.entries, s.permissions) && CallAt(s.entries, id, i)
    ensures var t := Step(s, Call(AuthorizationCanceled(id)));
            var was := s.entries[i].call.status;
            if was.WaitingForConfirmation? then
              && OnlyCallChanged(s, t, i) && t.entries[i].call == s.entries[i].call.(status := T.Canceled)
              && FateOf(t, was.respondTx) == Dropped
            else t == s
  {
    FoundAt(s.entries, id, i);
    var was := s.entries[i].call.status;
    if was.WaitingForConfirmation? {
      var t := Step(s, Call(AuthorizationCanceled(id)));
      assert ChannelOf(s.entries[i]) == Some(was.respondTx) && Unanswered(s.permissions, was.respondTx);
      forall j | 0 <= j < |t.entries| ensures ChannelOf(t.entries[j]) != Some(was.respondTx) {
        if j < i { assert ChannelOf(s.entries[j]).Some? ==> ChannelOf(s.entries[i]) != ChannelOf(s.entries[j]); }
        if j > i { assert ChannelOf(s.entries[j]) != ChannelOf(s.entries[i]); }
      }
    }
  }

  /** Choices and withdrawals for unknown calls do nothing. */
  lemma {:induction false} UnknownCallIsIgnored(s: State, id: nat, choice: Choice)
    requires NoCall(s.entries, id)
    ensures Step(s, Call(AuthorizationAnswered(id, choice))) == s && Step(s, Call(AuthorizationCanceled(id))) == s
  {
  }
}
