/**
 One tool call: its status under the agent's updates and under a permission prompt, and its
 content, which a snapshot from the agent updates where it stands.
 */
module ToolCalls {
  import opened Prelude
  import opened Utf8
  import opened Content

  // ---------- status ----------

  /** The agent's own statuses; the protocol may add more, read as pending. */
  datatype AcpStatus = AcpPending | AcpInProgress | AcpCompleted | AcpFailed | AcpOther

  datatype AuthorizationKind = PermissionGrant | ActionChoice

  datatype OptionKind = AllowOnce | AllowAlways | RejectOnce | RejectAlways | OtherOption

  /** `respondTx` names the one-shot channel whose sender this status owns. */
  datatype Status =
    | Pending
    | WaitingForConfirmation(current: AcpStatus, respondTx: nat, kind: AuthorizationKind)
    | InProgress
    | Completed
    | Failed
    | Rejected
    | Canceled

  function FromAcp(s: AcpStatus): Status {
    match s
    case AcpPending => Pending
    case AcpInProgress => InProgress
    case AcpCompleted => Completed
    case AcpFailed => Failed
    case AcpOther => Pending
  }

  function AsAcp(s: Status): Option<AcpStatus> {
    match s
    case Pending => Some(AcpPending)
    case WaitingForConfirmation(current, _, _) => Some(current)
    case InProgress => Some(AcpInProgress)
    case Completed => Some(AcpCompleted)
    case Failed => Some(AcpFailed)
    case Rejected | Canceled => None
  }

  function StatusAfterPermissionGrant(s: AcpStatus): Status {
    match FromAcp(s)
    case Pending => InProgress
    case other => other
  }

  /** An update from the agent is remembered behind an open prompt unless it ends the call. */
  function WithAcpStatus(s: Status, update: AcpStatus): Status {
    if s.WaitingForConfirmation? && (update.AcpPending? || update.AcpInProgress?) then s.(current := update)
    else FromAcp(update)
  }

  function WithStatus(s: Status, update: Status): Status {
    match update
    case Pending => WithAcpStatus(s, AcpPending)
    case InProgress => WithAcpStatus(s, AcpInProgress)
    case Completed => WithAcpStatus(s, AcpCompleted)
    case Failed => WithAcpStatus(s, AcpFailed)
    case WaitingForConfirmation(_, _, _) | Rejected | Canceled => update
  }

  predicate Cancelable(s: Status) {
    s.Pending? || s.WaitingForConfirmation? || s.InProgress?
  }

  predicate IsReject(k: OptionKind) {
    k.RejectOnce? || k.RejectAlways?
  }

  /** The status after the user picks an option. */
  function Authorized(s: Status, choice: OptionKind): Status {
    match s
    case WaitingForConfirmation(current, _, kind) =>
      if kind.ActionChoice? then InProgress
      else if IsReject(choice) then Rejected
      else StatusAfterPermissionGrant(current)
    case _ => if IsReject(choice) then Rejected else InProgress
  }

  /** The status the agent's updates alone would show. */
  function WithoutPrompt(s: Status): Status {
    if s.WaitingForConfirmation? then FromAcp(s.current) else s
  }

  function Raised(s: Status): Status {
    if s.Pending? then InProgress else s
  }

  /** A prompt is transparent to one update from the agent ... */
  lemma {:induction false} PromptIsTransparent(s: Status, update: Status)
    requires update.Pending? || update.InProgress? || update.Completed? || update.Failed?
    ensures WithoutPrompt(WithStatus(s, update)) == WithStatus(WithoutPrompt(s), update)
  {
  }

  function AfterUpdates(s: Status, updates: seq<AcpStatus>): Status
    decreases updates
  {
    if updates == [] then s else AfterUpdates(WithAcpStatus(s, updates[0]), updates[1..])
  }

  /**
   ... and to any run of them: a prompt left open ends, when granted, in what the updates alone
   would have given, pending raised to in progress; it is left open exactly when no update
   other than pending and in progress came.
   */
  lemma {:induction false} GrantIsTransparent(s: Status, updates: seq<AcpStatus>, choice: OptionKind)
    requires s.WaitingForConfirmation? && s.kind.PermissionGrant?
    ensures var after := AfterUpdates(s, updates);
            && WithoutPrompt(after) == AfterUpdates(WithoutPrompt(s), updates)
            && (after.WaitingForConfirmation? <==>
                  forall i :: 0 <= i < |updates| ==> updates[i].AcpPending? || updates[i].AcpInProgress?)
            && (after.WaitingForConfirmation? ==>
                  && after.respondTx == s.respondTx && after.kind == s.kind
                  && Authorized(after, choice)
                     == if choice.RejectOnce? || choice.RejectAlways? then Rejected else Raised(AfterUpdates(WithoutPrompt(s), updates)))
    decreases updates
  {
    if updates != [] {
      var s1 := WithAcpStatus(s, updates[0]);
      if s1.WaitingForConfirmation? {
        GrantIsTransparent(s1, updates[1..], choice);
        assert (forall i :: 0 <= i < |updates| ==> updates[i].AcpPending? || updates[i].AcpInProgress?)
               <==> (forall i :: 0 <= i < |updates[1..]| ==> updates[1..][i].AcpPending? || updates[1..][i].AcpInProgress?);
      } else {
        ClosedStaysClosed(s1, updates[1..]);
      }
    }
  }

  lemma {:induction false} ClosedStaysClosed(s: Status, updates: seq<AcpStatus>)
    requires !s.WaitingForConfirmation?
    ensures !AfterUpdates(s, updates).WaitingForConfirmation?
    decreases updates
  {
    if updates != [] {
      ClosedStaysClosed(WithAcpStatus(s, updates[0]), updates[1..]);
    }
  }

  /**
   A choice that arrives after the prompt was closed overrides the status: a call the agent
   completed goes back to in progress. So granting agrees with the agent's own status exactly
   when the prompt is still open or that status is pending or in progress.
   */
  lemma {:induction false} GrantAgreesExactlyWhen(s: Status, choice: OptionKind)
    requires !choice.RejectOnce? && !choice.RejectAlways? && (s.WaitingForConfirmation? ==> s.kind.PermissionGrant?)
    ensures Authorized(s, choice) == Raised(WithoutPrompt(s))
            <==> s.WaitingForConfirmation? || s.Pending? || s.InProgress?
    ensures Authorized(Completed, AllowOnce) == InProgress != Raised(WithoutPrompt(Completed))
  {
  }

  /** Nothing but pending and in progress, the statuses of a call that goes on. */
  predicate GoesOn(u: AcpStatus) {
    u.AcpPending? || u.AcpInProgress?
  }

  /**
   What one update from the agent does, status by status: an open prompt stays open, and remembers
   it, exactly when it says that the call goes on; otherwise the call shows it, a status that the
   protocol may add being shown as pending.
   */
  lemma {:induction false} AgentUpdateShows(s: Status, u: AcpStatus)
    ensures var t := WithAcpStatus(s, u);
            if s.WaitingForConfirmation? && GoesOn(u) then t == WaitingForConfirmation(u, s.respondTx, s.kind)
            else
              && (u.AcpPending? || u.AcpOther? ==> t.Pending?)
              && (u.AcpInProgress? ==> t.InProgress?)
              && (u.AcpCompleted? ==> t.Completed?)
              && (u.AcpFailed? ==> t.Failed?)
  {
  }

  /**
   What each choice of the user does: any choice lets an action go on; a rejection of either kind
   rejects the call, also when it no longer waits; anything else grants, and a granted call goes
   on unless the agent completed or failed it while it waited.
   */
  lemma {:induction false} ChoiceDecides(s: Status, choice: OptionKind)
    ensures var t := Authorized(s, choice);
            if s.WaitingForConfirmation? && s.kind.ActionChoice? then t.InProgress?
            else if choice.RejectOnce? || choice.RejectAlways? then t.Rejected?
            else if s.WaitingForConfirmation? && s.current.AcpCompleted? then t.Completed?
            else if s.WaitingForConfirmation? && s.current.AcpFailed? then t.Failed?
            else t.InProgress?
  {
  }

  // ---------- content ----------

  /** Diffs are kept as their two texts; Markdown by value, since a tool call shares it with nobody. */
  datatype Item =
    | Block(block: ContentBlock<Text>)
    | Diff(path: Text, base: Text, current: Text)
    | Terminal(terminalId: nat)

  datatype AcpItem =
    | ContentItem(content: AcpContent)
    | DiffItem(newPath: Text, oldText: Option<Text>, newText: Text)
    | TerminalItem(id: nat)
    | UnknownItem

  datatype Conversion = Converted(item: Item) | Unrecognised | TerminalNotFound

  function NewBlock(c: AcpContent): ContentBlock<Text> {
    match NewEffect(c)
    case BecomeLink(uri, link) => ResourceLink(uri, link)
    case BecomeImage(image) => Image(image)
    case NewMarkdown(text) => Markdown(text)
  }

  function ToolContentBlock(c: AcpContent): ContentBlock<Text> {
    match c
    case ResourceContent(r) =>
      if r.image.Some? then Image(r.image.value)
      else EmbeddedResource(r, if r.isText then Some(r.markdown) else None)
    case _ => NewBlock(c)
  }

  function Convert(incoming: AcpItem, terminals: set<nat>): Conversion {
    match incoming
    case ContentItem(c) => Converted(Block(ToolContentBlock(c)))
    case DiffItem(path, oldText, newText) => Converted(Diff(path, if oldText.Some? then oldText.value else [], newText))
    case TerminalItem(id) => if id in terminals then Converted(Terminal(id)) else TerminalNotFound
    case UnknownItem => Unrecognised
  }

  /** What each kind of content is shown as. */
  lemma {:induction false} ConversionShows(incoming: AcpItem, terminals: set<nat>)
    ensures var c := Convert(incoming, terminals);
            match incoming
            case TerminalItem(id) => if id in terminals then c == Converted(Terminal(id)) else c.TerminalNotFound?
            case DiffItem(path, oldText, newText) =>
              && c.Converted? && c.item.Diff? && c.item.path == path && c.item.current == newText
              && c.item.base == (match oldText case None => [] case Some(t) => t)
            case UnknownItem => c.Unrecognised?
            case ContentItem(TextContent(text)) => c == Converted(Block(Markdown(text)))
            case ContentItem(LinkContent(uri, link)) => c == Converted(Block(ResourceLink(uri, link)))
            case ContentItem(ImageContent(Some(image))) => c == Converted(Block(Image(image)))
            case ContentItem(ImageContent(None)) => c == Converted(Block(Markdown(Ascii("`Image`"))))
            case ContentItem(ResourceContent(Resource(_, _, Some(image), _))) => c == Converted(Block(Image(image)))
            case ContentItem(ResourceContent(r)) =>
              c == Converted(Block(EmbeddedResource(r, if r.isText then Some(r.markdown) else None)))
            case ContentItem(OtherContent) => c == Converted(Block(Markdown([])))
  {
    assert IMAGE_MARKDOWN == Ascii("`Image`");
  }

  /** Text streamed into Markdown extends or resets it where it stands. */
  function InPlaceText(existing: Item, incoming: AcpItem): Option<Text> {
    if existing.Block? && existing.block.Markdown? && incoming.ContentItem? && incoming.content.TextContent? then
      var current, text := existing.block.markdown, incoming.content.text;
      Some(if current <= text then current + text[|current|..] else text)
    else None
  }

  /** One item updated where it stands; an item of an unrecognised kind leaves the old one. */
  function Updated(existing: Item, incoming: AcpItem, terminals: set<nat>): Item {
    var text := InPlaceText(existing, incoming);
    if text.Some? then Block(Markdown(text.value))
    else
      match Convert(incoming, terminals)
      case Converted(item) =>
        if existing.Diff? && item.Diff? && existing.base == item.base && existing.current == item.current then existing else item
      case Unrecognised | TerminalNotFound => existing
  }

  /** The position of the first item that names an unregistered terminal. */
  function FirstBad(incoming: seq<AcpItem>, terminals: set<nat>): (n: nat)
    ensures n <= |incoming|
    ensures forall i :: 0 <= i < n ==> !Convert(incoming[i], terminals).TerminalNotFound?
    ensures n < |incoming| ==> Convert(incoming[n], terminals).TerminalNotFound?
  {
    if incoming == [] || Convert(incoming[0], terminals).TerminalNotFound? then 0 else 1 + FirstBad(incoming[1..], terminals)
  }

  /** What a rebuild from the new list alone gives. */
  function Rebuilt(incoming: seq<AcpItem>, terminals: set<nat>): (r: seq<Item>)
    ensures |r| <= |incoming|
  {
    if incoming == [] then []
    else
      var first := Convert(incoming[0], terminals);
      (if first.Converted? then [first.item] else []) + Rebuilt(incoming[1..], terminals)
  }

  function Recognised(incoming: seq<AcpItem>): (n: nat)
    ensures n <= |incoming|
  {
    if incoming == [] then 0 else (if incoming[0].UnknownItem? then 0 else 1) + Recognised(incoming[1..])
  }

  datatype ContentUpdate = ContentUpdate(ok: bool, content: seq<Item>)

  /** The overlapping part updated in place, then what remains of the old or new list. */
  function Overlaid(existing: seq<Item>, incoming: seq<AcpItem>, terminals: set<nat>): (r: seq<Item>)
    ensures |r| >= |existing|
  {
    if existing == [] then Rebuilt(incoming, terminals)
    else if incoming == [] then existing
    else [Updated(existing[0], incoming[0], terminals)] + Overlaid(existing[1..], incoming[1..], terminals)
  }

  function UpdatedContent(existing: seq<Item>, incoming: seq<AcpItem>, terminals: set<nat>): ContentUpdate {
    var bad := FirstBad(incoming, terminals);
    if bad < |incoming| then ContentUpdate(false, Overlaid(existing, incoming[..bad], terminals))
    else
      RebuiltLength(incoming, terminals);
      OverlaidLength(existing, incoming, terminals);
      ContentUpdate(true, Overlaid(existing, incoming, terminals)[..Recognised(incoming)])
  }

  lemma {:induction false} RebuiltLength(incoming: seq<AcpItem>, terminals: set<nat>)
    requires forall i :: 0 <= i < |incoming| ==> !Convert(incoming[i], terminals).TerminalNotFound?
    ensures |Rebuilt(incoming, terminals)| == Recognised(incoming)
  {
    if incoming != [] { RebuiltLength(incoming[1..], terminals); }
  }

  lemma {:induction false} OverlaidLength(existing: seq<Item>, incoming: seq<AcpItem>, terminals: set<nat>)
    requires AllRegistered(incoming, terminals)
    ensures Recognised(incoming) <= |Overlaid(existing, incoming, terminals)|
  {
    if existing == [] {
      RebuiltLength(incoming, terminals);
    } else if incoming != [] {
      OverlaidLength(existing[1..], incoming[1..], terminals);
    }
  }

  /** Equal up to the path of a diff, which an unchanged diff keeps. */
  predicate Same(a: Item, b: Item) {
    a == b || (a.Diff? && b.Diff? && a.base == b.base && a.current == b.current)
  }

  predicate AllSame(a: seq<Item>, b: seq<Item>) {
    |a| == |b| && forall i :: 0 <= i < |a| ==> Same(a[i], b[i])
  }

  lemma {:induction false} UpdatedMatchesConversion(existing: Item, incoming: AcpItem, terminals: set<nat>)
    requires Convert(incoming, terminals).Converted?
    ensures Same(Updated(existing, incoming, terminals), Convert(incoming, terminals).item)
  {
    if InPlaceText(existing, incoming).Some? {
      var current, text := existing.block.markdown, incoming.content.text;
      if current <= text { assert current + text[|current|..] == text; }
    }
  }

  /** A diff that stays the same is kept, its path included; every other item is what it is converted to. */
  lemma {:induction false} UnchangedDiffStays(existing: Item, incoming: AcpItem, terminals: set<nat>)
    ensures var c, u := Convert(incoming, terminals), Updated(existing, incoming, terminals);
            if !c.Converted? then u == existing
            else if existing.Diff? && c.item.Diff? && existing.base == c.item.base && existing.current == c.item.current
            then u == existing
            else u == c.item
  {
    if InPlaceText(existing, incoming).Some? { UpdatedMatchesConversion(existing, incoming, terminals); }
  }

  predicate AllRegistered(incoming: seq<AcpItem>, terminals: set<nat>) {
    forall i :: 0 <= i < |incoming| ==> !Convert(incoming[i], terminals).TerminalNotFound?
  }

  /**
   The unrecognised items do no harm: none lies where an existing item stands, or nothing
   recognised follows the first of them.
   */
  predicate Harmless(oldLength: nat, incoming: seq<AcpItem>) {
    forall i, j :: 0 <= i < j < |incoming| && i < oldLength && incoming[i].UnknownItem? ==> incoming[j].UnknownItem?
  }

  /**
   Updating in place gives item for item what a rebuild gives, whatever was there before,
   exactly when the unrecognised items do no harm; so always when every kind is recognised.
   */
  lemma {:induction false} InPlaceMatchesRebuild(oldLength: nat, incoming: seq<AcpItem>, terminals: set<nat>)
    requires AllRegistered(incoming, terminals)
    ensures Harmless(oldLength, incoming)
            <==> forall existing: seq<Item> :: |existing| == oldLength ==>
                   UpdatedContent(existing, incoming, terminals).ok
                   && AllSame(UpdatedContent(existing, incoming, terminals).content, Rebuilt(incoming, terminals))
    ensures (forall i :: 0 <= i < |incoming| ==> !incoming[i].UnknownItem?) ==> Harmless(oldLength, incoming)
  {
    if Harmless(oldLength, incoming) {
      forall existing: seq<Item> | |existing| == oldLength
        ensures UpdatedContent(existing, incoming, terminals).ok
                && AllSame(UpdatedContent(existing, incoming, terminals).content, Rebuilt(incoming, terminals))
      {
        OverlaidLength(existing, incoming, terminals);
        HarmlessMatches(existing, incoming, terminals);
      }
    } else {
      var i, j :| 0 <= i < j < |incoming| && i < oldLength && incoming[i].UnknownItem? && !incoming[j].UnknownItem?;
      HarmWitness(oldLength, incoming, terminals, i, j);
    }
  }

  lemma {:induction false} HarmlessMatches(existing: seq<Item>, incoming: seq<AcpItem>, terminals: set<nat>)
    requires AllRegistered(incoming, terminals) && Harmless(|existing|, incoming)
    ensures Recognised(incoming) <= |Overlaid(existing, incoming, terminals)|
    ensures AllSame(Overlaid(existing, incoming, terminals)[..Recognised(incoming)], Rebuilt(incoming, terminals))
  {
    OverlaidLength(existing, incoming, terminals);
    if existing == [] {
      RebuiltLength(incoming, terminals);
    } else if incoming == [] {
    } else if incoming[0].UnknownItem? {
      NoneRecognised(incoming, terminals);
    } else {
      HarmlessMatches(existing[1..], incoming[1..], terminals);
      UpdatedMatchesConversion(existing[0], incoming[0], terminals);
      var rest := Overlaid(existing[1..], incoming[1..], terminals);
      assert Overlaid(existing, incoming, terminals)[..Recognised(incoming)]
          == [Updated(existing[0], incoming[0], terminals)] + rest[..Recognised(incoming[1..])];
    }
  }

  lemma {:induction false} NoneRecognised(incoming: seq<AcpItem>, terminals: set<nat>)
    requires forall i :: 0 <= i < |incoming| ==> incoming[i].UnknownItem?
    ensures Recognised(incoming) == 0 && Rebuilt(incoming, terminals) == []
  {
    if incoming != [] {
      NoneRecognised(incoming[1..], terminals);
    }
  }

  function FirstUnknown(incoming: seq<AcpItem>): (n: nat)
    ensures n <= |incoming|
    ensures forall i :: 0 <= i < n ==> !incoming[i].UnknownItem?
    ensures n < |incoming| ==> incoming[n].UnknownItem?
  {
    if incoming == [] || incoming[0].UnknownItem? then 0 else 1 + FirstUnknown(incoming[1..])
  }

  /** A recognised item after an unrecognised one in the overlap: the old item shows through. */
  lemma {:induction false} HarmWitness(oldLength: nat, incoming: seq<AcpItem>, terminals: set<nat>, i: nat, j: nat)
    requires AllRegistered(incoming, terminals)
    requires i < j < |incoming| && i < oldLength && incoming[i].UnknownItem? && !incoming[j].UnknownItem?
    ensures exists existing: seq<Item> ::
              |existing| == oldLength && !AllSame(UpdatedContent(existing, incoming, terminals).content, Rebuilt(incoming, terminals))
  {
    var n := FirstUnknown(incoming);
    assert n <= i;
    MoreRecognisedThan(incoming, n, j);
    RebuiltLength(incoming, terminals);
    var rebuilt := Rebuilt(incoming, terminals);
    var other := if rebuilt[n] == Terminal(0) then Terminal(1) else Terminal(0);
    var existing := seq(oldLength, k => other);
    assert !Same(other, rebuilt[n]);
    OverlaidLength(existing, incoming, terminals);
    OldItemShows(existing, incoming, terminals, n);
  }

  lemma {:induction false} OldItemShows(existing: seq<Item>, incoming: seq<AcpItem>, terminals: set<nat>, n: nat)
    requires n < |existing| && n < |incoming| && incoming[n].UnknownItem?
    ensures Overlaid(existing, incoming, terminals)[n] == existing[n]
  {
    if n > 0 {
      OldItemShows(existing[1..], incoming[1..], terminals, n - 1);
    }
  }

  lemma {:induction false} MoreRecognisedThan(incoming: seq<AcpItem>, n: nat, j: nat)
    requires n <= j < |incoming| && !incoming[j].UnknownItem?
    requires forall i :: 0 <= i < n ==> !incoming[i].UnknownItem?
    ensures Recognised(incoming) > n
  {
    if j > 0 {
      MoreRecognisedThan(incoming[1..], if n > 0 then n - 1 else 0, j - 1);
    }
  }

  lemma {:induction false} OverlaidAt(existing: seq<Item>, incoming: seq<AcpItem>, terminals: set<nat>, i: nat)
    requires i < |existing|
    ensures Overlaid(existing, incoming, terminals)[i]
            == if i < |incoming| then Updated(existing[i], incoming[i], terminals) else existing[i]
  {
    if i > 0 && incoming != [] { OverlaidAt(existing[1..], incoming[1..], terminals, i - 1); }
  }

  /**
   An update that names an unregistered terminal stops there: old items before it are updated, old
   items from there on stay, and nothing is cut off.
   */
  lemma {:induction false} FailedUpdateStops(existing: seq<Item>, incoming: seq<AcpItem>, terminals: set<nat>, n: nat, i: nat)
    requires n < |incoming| && i < |existing|
    requires incoming[n].TerminalItem? && incoming[n].id !in terminals
    requires forall j :: 0 <= j < n && incoming[j].TerminalItem? ==> incoming[j].id in terminals
    ensures var u := UpdatedContent(existing, incoming, terminals);
            && !u.ok && |u.content| >= |existing|
            && u.content[i] == if i < n then Updated(existing[i], incoming[i], terminals) else existing[i]
  {
    FirstBadIs(incoming, terminals, n);
    OverlaidAt(existing, incoming[..n], terminals, i);
  }

  // ---------- a whole call ----------

  /** `rawOutput` is what an update carries as output, with its rendering as Markdown if it has one. */
  datatype Fields = Fields(status: Option<AcpStatus>, content: Option<seq<AcpItem>>, rawOutput: Option<Option<Text>>)

  datatype CallState = CallState(id: nat, status: Status, content: seq<Item>, hasOutput: bool)

  datatype CallUpdate = CallUpdate(ok: bool, call: CallState)

  function ContentAfter(call: CallState, fields: Fields, terminals: set<nat>): ContentUpdate {
    if fields.content.Some? then UpdatedContent(call.content, fields.content.value, terminals)
    else ContentUpdate(true, call.content)
  }

  /** An update that names an unregistered terminal fails half way: status and some content stay updated. */
  function WithFields(call: CallState, fields: Fields, terminals: set<nat>): CallUpdate {
    var status := if fields.status.Some? then WithAcpStatus(call.status, fields.status.value) else call.status;
    var c := ContentAfter(call, fields, terminals);
    if !c.ok then CallUpdate(false, call.(status := status, content := c.content))
    else if fields.rawOutput.None? then CallUpdate(true, call.(status := status, content := c.content))
    else
      var rendered := fields.rawOutput.value;
      var content := if c.content == [] && rendered.Some? then [Block(Markdown(rendered.value))] else c.content;
      CallUpdate(true, CallState(call.id, status, content, true))
  }

  /** A call built from an update: it needs a title, and every terminal it shows must be registered. */
  function NewCall(id: nat, fields: Fields, hasTitle: bool, status: Status, terminals: set<nat>): Option<CallState> {
    var content := if fields.content.Some? then fields.content.value else [];
    if !hasTitle || FirstBad(content, terminals) < |content| then None
    else Some(CallState(id, status, Rebuilt(content, terminals), fields.rawOutput.Some?))
  }

  /** All terminals that the content names are registered. */
  predicate NamesRegistered(fields: Fields, terminals: set<nat>) {
    fields.content.Some? ==>
      forall i :: 0 <= i < |fields.content.value| && fields.content.value[i].TerminalItem? ==> fields.content.value[i].id in terminals
  }

  lemma {:induction false} NamesRegisteredExactlyWhen(fields: Fields, terminals: set<nat>)
    ensures fields.content.Some? ==>
              (FirstBad(fields.content.value, terminals) == |fields.content.value| <==> NamesRegistered(fields, terminals))
  {
  }

  /**
   What an update does to a call: it succeeds exactly when it names registered terminals only; the
   status comes first, in any case; content that is not part of the update stays; and output that
   comes while no content is shown is shown as content.
   */
  lemma {:induction false} UpdateChanges(call: CallState, fields: Fields, terminals: set<nat>)
    ensures var u := WithFields(call, fields, terminals);
            var content := if fields.content.Some? then UpdatedContent(call.content, fields.content.value, terminals).content
                           else call.content;
            && (u.ok <==> NamesRegistered(fields, terminals))
            && u.call.id == call.id
            && u.call.status == (if fields.status.Some? then WithAcpStatus(call.status, fields.status.value) else call.status)
            && (u.call.hasOutput <==> call.hasOutput || (u.ok && fields.rawOutput.Some?))
            && (if u.ok && content == [] && fields.rawOutput.Some? && fields.rawOutput.value.Some?
                then u.call.content == [Block(Markdown(fields.rawOutput.value.value))]
                else u.call.content == content)
  {
    NamesRegisteredExactlyWhen(fields, terminals);
  }

  /** A new call needs a title and registered terminals, and shows the whole content. */
  lemma {:induction false} NewCallShows(id: nat, fields: Fields, hasTitle: bool, status: Status, terminals: set<nat>)
    ensures var c := NewCall(id, fields, hasTitle, status, terminals);
            && (c.Some? <==> hasTitle && NamesRegistered(fields, terminals))
            && (c.Some? ==> c.value.id == id && c.value.status == status && (c.value.hasOutput <==> fields.rawOutput.Some?))
            && (c.Some? && fields.content.None? ==> c.value.content == [])
            && (c.Some? && fields.content.Some? ==> c.value.content == Rebuilt(fields.content.value, terminals))
  {
    NamesRegisteredExactlyWhen(fields, terminals);
  }

  class ToolCall {
    const id: nat
    var status: Status
    var content: seq<Item>
    var hasOutput: bool

    function State(): CallState
      reads this
    {
      CallState(id, status, content, hasOutput)
    }

    constructor (call: CallState)
      ensures State() == call
    {
      id, status, content, hasOutput := call.id, call.status, call.content, call.hasOutput;
    }

    method UpdateAcpStatus(update: AcpStatus)
      modifies this`status
      ensures status == WithAcpStatus(old(status), update)
    {
      if status.WaitingForConfirmation? && (update == AcpPending || update == AcpInProgress) {
        status := status.(current := update);
      } else {
        status := FromAcp(update);
      }
    }

    method UpdateStatus(update: Status)
      modifies this`status
      ensures status == WithStatus(old(status), update)
    {
      match update
      case Pending => UpdateAcpStatus(AcpPending);
      case InProgress => UpdateAcpStatus(AcpInProgress);
      case Completed => UpdateAcpStatus(AcpCompleted);
      case Failed => UpdateAcpStatus(AcpFailed);
      case WaitingForConfirmation(_, _, _) | Rejected | Canceled => status := update;
    }

    /** One item where it stands; `valid` is false for an unrecognised kind. */
    method UpdateItem(i: nat, incoming: AcpItem, terminals: set<nat>) returns (ok: bool, valid: bool)
      requires i < |content|
      modifies this`content
      ensures ok <==> !Convert(incoming, terminals).TerminalNotFound?
      ensures content == if ok then old(content)[i := Updated(old(content)[i], incoming, terminals)] else old(content)
      ensures ok ==> (valid <==> !incoming.UnknownItem?)
    {
      var text := InPlaceText(content[i], incoming);
      if text.Some? {
        content := content[i := Block(Markdown(text.value))];
        return true, true;
      }
      match Convert(incoming, terminals)
      case TerminalNotFound =>
        ok, valid := false, false;
      case Unrecognised =>
        ok, valid := true, false;
      case Converted(item) =>
        var needsUpdate := !(content[i].Diff? && item.Diff? && content[i].base == item.base && content[i].current == item.current);
        if needsUpdate {
          content := content[i := item];
        }
        ok, valid := true, true;
    }

    /** The overlap updated item by item; `valid` counts the recognised items, `reused` all of them. */
    method Reuse(incoming: seq<AcpItem>, terminals: set<nat>) returns (ok: bool, reused: nat, valid: nat)
      modifies this`content
      ensures reused <= |incoming| && content == Overlaid(old(content), incoming[..reused], terminals)
      ensures forall j :: 0 <= j < reused ==> !Convert(incoming[j], terminals).TerminalNotFound?
      ensures valid == Recognised(incoming[..reused])
      ensures if ok then reused == |incoming| || reused >= |old(content)|
              else reused < |incoming| && Convert(incoming[reused], terminals).TerminalNotFound?
    {
      ghost var was := content;
      reused, valid, ok := 0, 0, true;
      while reused < |content| && reused < |incoming|
        invariant reused <= |incoming| && reused <= |was| == |content|
        invariant forall j :: reused <= j < |was| ==> content[j] == was[j]
        invariant forall j :: 0 <= j < reused ==> !Convert(incoming[j], terminals).TerminalNotFound?
        invariant valid == Recognised(incoming[..reused])
        invariant content == Overlaid(was, incoming[..reused], terminals)
      {
        var fine, recognised := UpdateItem(reused, incoming[reused], terminals);
        if !fine {
          ok := false;
          return;
        }
        OverlaidNext(was, incoming, reused, terminals);
        RecognisedNext(incoming, reused);
        if recognised {
          valid := valid + 1;
        }
        reused := reused + 1;
      }
    }

    /** What is left of the new list is converted and added. */
    method Extend(ghost was: seq<Item>, incoming: seq<AcpItem>, from: nat, already: nat, terminals: set<nat>)
      returns (ok: bool, valid: nat)
      requires from <= |incoming| && already == Recognised(incoming[..from])
      requires from == |incoming| || |was| <= from
      requires forall j :: 0 <= j < from ==> !Convert(incoming[j], terminals).TerminalNotFound?
      requires content == Overlaid(was, incoming[..from], terminals)
      modifies this`content
      ensures ok <==> FirstBad(incoming, terminals) == |incoming|
      ensures content == Overlaid(was, incoming[..FirstBad(incoming, terminals)], terminals)
      ensures ok ==> valid == Recognised(incoming)
    {
      var i := from;
      valid := already;
      ok := true;
      while i < |incoming|
        invariant from <= i <= |incoming|
        invariant forall j :: 0 <= j < i ==> !Convert(incoming[j], terminals).TerminalNotFound?
        invariant valid == Recognised(incoming[..i])
        invariant content == Overlaid(was, incoming[..i], terminals)
      {
        var converted := Convert(incoming[i], terminals);
        if converted.TerminalNotFound? {
          FirstBadIs(incoming, terminals, i);
          ok := false;
          return;
        }
        OverlaidMore(was, incoming, i, terminals);
        RecognisedNext(incoming, i);
        if converted.Converted? {
          content := content + [converted.item];
          valid := valid + 1;
        }
        i := i + 1;
      }
      assert incoming[..i] == incoming;
    }

    /** Reuse, then extend, then truncate; an unregistered terminal stops the update where it is. */
    method UpdateContent(incoming: seq<AcpItem>, terminals: set<nat>) returns (ok: bool)
      modifies this`content
      ensures ContentUpdate(ok, content) == UpdatedContent(old(content), incoming, terminals)
    {
      ghost var was := content;
      var reused, valid;
      ok, reused, valid := Reuse(incoming, terminals);
      if !ok {
        FirstBadIs(incoming, terminals, reused);
        return;
      }
      ok, valid := Extend(was, incoming, reused, valid, terminals);
      if !ok {
        return;
      }
      assert incoming[..|incoming|] == incoming;
      OverlaidLength(was, incoming, terminals);
      content := content[..valid];
    }

    method UpdateFields(fields: Fields, terminals: set<nat>) returns (ok: bool)
      modifies this
      ensures CallUpdate(ok, State()) == WithFields(old(State()), fields, terminals)
    {
      if fields.status.Some? {
        UpdateAcpStatus(fields.status.value);
      }
      if fields.content.Some? {
        ok := UpdateContent(fields.content.value, terminals);
        if !ok {
          return;
        }
      }
      ok := true;
      if fields.rawOutput.Some? {
        if content == [] && fields.rawOutput.value.Some? {
          content := [Block(Markdown(fields.rawOutput.value.value))];
        }
        hasOutput := true;
      }
    }
  }

  lemma {:induction false} FirstBadIs(incoming: seq<AcpItem>, terminals: set<nat>, n: nat)
    requires n < |incoming| && Convert(incoming[n], terminals).TerminalNotFound?
    requires forall j :: 0 <= j < n ==> !Convert(incoming[j], terminals).TerminalNotFound?
    ensures FirstBad(incoming, terminals) == n
  {
  }

  lemma {:induction false} RecognisedNext(incoming: seq<AcpItem>, i: nat)
    requires i < |incoming|
    ensures Recognised(incoming[..i + 1]) == Recognised(incoming[..i]) + (if incoming[i].UnknownItem? then 0 else 1)
  {
    if i > 0 {
      RecognisedNext(incoming[1..], i - 1);
      assert incoming[..i + 1][1..] == incoming[1..][..i];
      assert incoming[..i][1..] == incoming[1..][..i - 1];
    }
  }

  lemma {:induction false} OverlaidNext(existing: seq<Item>, incoming: seq<AcpItem>, i: nat, terminals: set<nat>)
    requires i < |incoming| && i < |existing|
    ensures |Overlaid(existing, incoming[..i], terminals)| == |existing|
    ensures Overlaid(existing, incoming[..i + 1], terminals)
            == Overlaid(existing, incoming[..i], terminals)[i := Updated(existing[i], incoming[i], terminals)]
  {
    assert incoming[..i + 1][0] == incoming[0];
    if i == 0 {
      assert incoming[..1][1..] == [];
      assert Overlaid(existing[1..], [], terminals) == existing[1..];
    } else {
      OverlaidNext(existing[1..], incoming[1..], i - 1, terminals);
      assert incoming[..i + 1][1..] == incoming[1..][..i];
      assert incoming[..i][1..] == incoming[1..][..i - 1];
    }
  }

  lemma {:induction false} OverlaidMore(existing: seq<Item>, incoming: seq<AcpItem>, i: nat, terminals: set<nat>)
    requires |existing| <= i < |incoming|
    ensures Overlaid(existing, incoming[..i + 1], terminals)
            == Overlaid(existing, incoming[..i], terminals)
               + (if Convert(incoming[i], terminals).Converted? then [Convert(incoming[i], terminals).item] else [])
  {
    assert incoming[..i + 1][0] == incoming[0];
    if existing == [] {
      RebuiltMore(incoming, i, terminals);
    } else {
      OverlaidMore(existing[1..], incoming[1..], i - 1, terminals);
      assert incoming[..i + 1][1..] == incoming[1..][..i];
      assert incoming[..i][1..] == incoming[1..][..i - 1];
    }
  }

  lemma {:induction false} RebuiltMore(incoming: seq<AcpItem>, i: nat, terminals: set<nat>)
    requires i < |incoming|
    ensures Rebuilt(incoming[..i + 1], terminals)
            == Rebuilt(incoming[..i], terminals)
               + (if Convert(incoming[i], terminals).Converted? then [Convert(incoming[i], terminals).item] else [])
  {
    assert incoming[..i + 1][0] == incoming[0];
    if i == 0 {
      assert incoming[..1][1..] == [];
    } else {
      RebuiltMore(incoming[1..], i - 1, terminals);
      assert incoming[..i + 1][1..] == incoming[1..][..i];
      assert incoming[..i][1..] == incoming[1..][..i - 1];
    }
  }
}
