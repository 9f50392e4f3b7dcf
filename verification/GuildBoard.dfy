/**
 The guild board's stale sweep: a quiet assignee is asked once, and loses the assignment only
 after staying quiet. Times are whole seconds, as the service reports them; the part of a
 second that the sweep's own clock has never changes a number of whole days.
 */
module GuildBoard {
  import opened Prelude

  const CHECK_IN_AFTER_DAYS: nat := 14
  const AUTO_CLEAR_AFTER_DAYS: nat := 7
  const DAY: nat := 86400

  /** Whole days in a time difference, rounded down also when it is negative. */
  function Days(seconds: int): int {
    seconds / DAY
  }

  /** `marker` says whether the body holds the bot's check-in marker. */
  datatype Comment = Comment(author: nat, at: int, marker: bool)

  datatype Assignment = Assignment(who: nat, at: int)

  // ---------- what the sweep measures ----------

  function Later(a: Option<int>, t: int): Option<int> {
    if a.None? || t > a.value then Some(t) else a
  }

  function LatestAssignment(timeline: seq<Assignment>, who: nat): Option<int> {
    if timeline == [] then None
    else
      var before := LatestAssignment(timeline[..|timeline| - 1], who);
      var last := timeline[|timeline| - 1];
      if last.who == who then Later(before, last.at) else before
  }

  function LatestCheckIn(comments: seq<Comment>): Option<int> {
    if comments == [] then None
    else
      var before := LatestCheckIn(comments[..|comments| - 1]);
      var last := comments[|comments| - 1];
      if last.marker then Later(before, last.at) else before
  }

  /** The assignee's latest sign of life: the assignment, or a later comment that is no check-in. */
  function LastActivity(since: int, comments: seq<Comment>, who: nat): (t: int)
    ensures t >= since
  {
    if comments == [] then since
    else
      var before := LastActivity(since, comments[..|comments| - 1], who);
      var last := comments[|comments| - 1];
      if !last.marker && last.author == who && last.at > before then last.at else before
  }

  datatype Verdict = Wait | CheckIn | Clear

  function Judge(now: int, active: int, checkIn: Option<int>): Verdict {
    if checkIn.None? || checkIn.value < active then
      if Days(now - active) < CHECK_IN_AFTER_DAYS then Wait else CheckIn
    else if Days(now - checkIn.value) < AUTO_CLEAR_AFTER_DAYS then Wait
    else Clear
  }

  // ---------- one sweep over the board ----------

  datatype Item = Item(archived: bool, isIssue: bool, inProgress: bool, assignees: seq<nat>, held: bool, hasClosingPr: bool,
                       comments: seq<Comment>, timeline: seq<Assignment>)

  /** `Skipped` items are not guild work to be swept; a missing assignment event stops the whole sweep. */
  datatype Decision = Skipped | NoAssignmentEvent | Judged(verdict: Verdict, assignee: nat, guild: seq<nat>)

  function Members(assignees: seq<nat>, isMember: nat -> bool): (g: seq<nat>)
    ensures forall a :: a in g <==> a in assignees && isMember(a)
  {
    if assignees == [] then []
    else if isMember(assignees[0]) then [assignees[0]] + Members(assignees[1..], isMember)
    else Members(assignees[1..], isMember)
  }

  function Decide(item: Item, now: int, isMember: nat -> bool): Decision {
    var guild := Members(item.assignees, isMember);
    if item.archived || !item.isIssue || !item.inProgress || guild == [] || item.held || item.hasClosingPr then Skipped
    else
      var since := LatestAssignment(item.timeline, guild[0]);
      if since.None? then NoAssignmentEvent
      else Judged(Judge(now, LastActivity(since.value, item.comments, guild[0]), LatestCheckIn(item.comments)), guild[0], guild)
  }

  // ---------- what the measurements mean ----------

  /** The latest of the check-ins, if there is one. */
  lemma {:induction false} CheckInIsLatest(comments: seq<Comment>)
    ensures LatestCheckIn(comments).None? <==> forall i :: 0 <= i < |comments| ==> !comments[i].marker
    ensures LatestCheckIn(comments).Some? ==>
              && (forall i :: 0 <= i < |comments| && comments[i].marker ==> comments[i].at <= LatestCheckIn(comments).value)
              && exists i :: 0 <= i < |comments| && comments[i].marker && comments[i].at == LatestCheckIn(comments).value
  {
    if comments != [] {
      var before, last := comments[..|comments| - 1], comments[|comments| - 1];
      CheckInIsLatest(before);
      assert forall i :: 0 <= i < |before| ==> comments[i] == before[i];
      if !last.marker || LatestCheckIn(comments) != Some(last.at) {
        if i :| 0 <= i < |before| && before[i].marker && before[i].at == LatestCheckIn(before).value { assert comments[i] == before[i]; }
      }
    }
  }

  /** The latest of the person's assignments, if there is one. */
  lemma {:induction false} AssignmentIsLatest(timeline: seq<Assignment>, who: nat)
    ensures LatestAssignment(timeline, who).None? <==> forall i :: 0 <= i < |timeline| ==> timeline[i].who != who
    ensures LatestAssignment(timeline, who).Some? ==>
              && (forall i :: 0 <= i < |timeline| && timeline[i].who == who ==> timeline[i].at <= LatestAssignment(timeline, who).value)
              && Assignment(who, LatestAssignment(timeline, who).value) in timeline
  {
    if timeline != [] { AssignmentIsLatest(timeline[..|timeline| - 1], who); }
  }

  /** A comment of the person's own that is no check-in. */
  predicate IsReply(c: Comment, who: nat) {
    c.author == who && !c.marker
  }

  /** The latest of the assignment and the person's own comments that are no check-ins. */
  lemma {:induction false} ActivityIsLatest(since: int, comments: seq<Comment>, who: nat)
    ensures var t := LastActivity(since, comments, who);
            && since <= t && (forall i :: 0 <= i < |comments| && IsReply(comments[i], who) ==> comments[i].at <= t)
            && (t == since || exists i :: 0 <= i < |comments| && IsReply(comments[i], who) && comments[i].at == t)
  {
    if comments != [] {
      var before, last := comments[..|comments| - 1], comments[|comments| - 1];
      ActivityIsLatest(since, before, who);
      assert forall i :: 0 <= i < |before| ==> comments[i] == before[i];
      var t := LastActivity(since, before, who);
      if LastActivity(since, comments, who) == t != since {
        var i :| 0 <= i < |before| && IsReply(before[i], who) && before[i].at == t;
        assert comments[i] == before[i];
      } else if LastActivity(since, comments, who) != t {
        assert IsReply(comments[|comments| - 1], who);
      }
    }
  }

  lemma {:induction false} MembersSelects(assignees: seq<nat>, isMember: nat -> bool)
    ensures Selects(Members(assignees, isMember), assignees, isMember)
  {
    if assignees != [] {
      MembersSelects(assignees[1..], isMember);
      assert ([assignees[0]] + Members(assignees[1..], isMember))[1..] == Members(assignees[1..], isMember);
    }
  }

  lemma {:induction false} FirstMember(assignees: seq<nat>, isMember: nat -> bool, i: nat)
    requires i < |assignees| && isMember(assignees[i]) && forall j :: 0 <= j < i ==> !isMember(assignees[j])
    ensures Members(assignees, isMember) != [] && Members(assignees, isMember)[0] == assignees[i]
  {
    if i > 0 { FirstMember(assignees[1..], isMember, i - 1); }
  }

  /** Not an unarchived issue in progress with a guild member on it, or held, or with a pull request. */
  predicate IsNoCase(item: Item, isMember: nat -> bool) {
    || item.archived || !item.isIssue || !item.inProgress || item.held || item.hasClosingPr
    || forall i :: 0 <= i < |item.assignees| ==> !isMember(item.assignees[i])
  }

  /**
   What a sweep does to one item. It leaves alone what is no case for it. Otherwise it measures the
   first guild member, and stops the whole sweep when their assignment is not on record: it asks after
   14 days without a sign of life, and clears all guild members 7 days after a check-in that they
   have not been heard of since; until then it waits.
   */
  lemma {:induction false} SweepDecides(item: Item, now: int, isMember: nat -> bool, i: nat)
    ensures var d := Decide(item, now, isMember);
            && (d.Skipped? <==> IsNoCase(item, isMember))
            && (!d.Skipped? && i < |item.assignees| && isMember(item.assignees[i])
                && (forall j :: 0 <= j < i ==> !isMember(item.assignees[j])) ==>
                  var who := item.assignees[i];
                  var since, checkIn := LatestAssignment(item.timeline, who), LatestCheckIn(item.comments);
                  if since.None? then d.NoAssignmentEvent?
                  else
                    var active := LastActivity(since.value, item.comments, who);
                    && d.Judged? && d.assignee == who && Selects(d.guild, item.assignees, isMember)
                    && (d.verdict.CheckIn? <==> (checkIn.None? || checkIn.value < active) && now - active >= 1209600)
                    && (d.verdict.Clear? <==> checkIn.Some? && checkIn.value >= active && now - checkIn.value >= 604800))
  {
    NoMembersExactlyWhen(item.assignees, isMember);
    MembersSelects(item.assignees, isMember);
    if i < |item.assignees| && isMember(item.assignees[i]) && forall j :: 0 <= j < i ==> !isMember(item.assignees[j]) {
      FirstMember(item.assignees, isMember, i);
      var who := item.assignees[i];
      var since := LatestAssignment(item.timeline, who);
      if since.Some? { JudgeMeans(now, LastActivity(since.value, item.comments, who), LatestCheckIn(item.comments)); }
    }
  }

  lemma {:induction false} NoMembersExactlyWhen(assignees: seq<nat>, isMember: nat -> bool)
    ensures Members(assignees, isMember) == [] <==> forall i :: 0 <= i < |assignees| ==> !isMember(assignees[i])
  {
    var guild := Members(assignees, isMember);
    if guild != [] { assert guild[0] in guild; }
    forall i | 0 <= i < |assignees| && isMember(assignees[i]) ensures guild != [] { assert assignees[i] in guild; }
  }

  lemma {:induction false} JudgeMeans(now: int, active: int, checkIn: Option<int>)
    ensures var v := Judge(now, active, checkIn);
            && (v.CheckIn? <==> (checkIn.None? || checkIn.value < active) && now - active >= 1209600)
            && (v.Clear? <==> checkIn.Some? && checkIn.value >= active && now - checkIn.value >= 604800)
  {
  }

  /** Both measurements in a single walk over the comments. */
  method Measure(since: int, comments: seq<Comment>, who: nat) returns (active: int, checkIn: Option<int>)
    ensures active == LastActivity(since, comments, who) && checkIn == LatestCheckIn(comments)
  {
    active, checkIn := since, None;
    for k := 0 to |comments|
      invariant active == LastActivity(since, comments[..k], who) && checkIn == LatestCheckIn(comments[..k])
    {
      assert comments[..k + 1][..k] == comments[..k];
      var c := comments[k];
      if c.marker {
        if checkIn.None? || c.at > checkIn.value {
          checkIn := Some(c.at);
        }
      } else if c.author == who {
        if c.at > active {
          active := c.at;
        }
      }
    }
    assert comments[..|comments|] == comments;
  }

  /** What the sweep does, up to the first item without an assignment event. */
  function Swept(items: seq<Item>, now: int, isMember: nat -> bool): seq<Decision> {
    if items == [] then []
    else
      var d := Decide(items[0], now, isMember);
      if d.NoAssignmentEvent? then [d] else [d] + Swept(items[1..], now, isMember)
  }

  function Count(decisions: seq<Decision>, v: Verdict): nat {
    if decisions == [] then 0
    else Count(decisions[..|decisions| - 1], v)
         + (if decisions[|decisions| - 1].Judged? && decisions[|decisions| - 1].verdict == v then 1 else 0)
  }

  lemma {:induction false} CountMore(done: seq<Decision>, d: Decision)
    ensures Count(done + [d], CheckIn) == Count(done, CheckIn) + (if d.Judged? && d.verdict == CheckIn then 1 else 0)
    ensures Count(done + [d], Clear) == Count(done, Clear) + (if d.Judged? && d.verdict == Clear then 1 else 0)
  {
  }

  /** What is done up to item `k` and what is to be done from there on make the whole sweep. */
  predicate SweptTo(items: seq<Item>, k: nat, done: seq<Decision>, now: int, isMember: nat -> bool) {
    k <= |items| && done + Swept(items[k..], now, isMember) == Swept(items, now, isMember)
  }

  lemma {:induction false} SweptMore(items: seq<Item>, k: nat, done: seq<Decision>, d: Decision, now: int, isMember: nat -> bool)
    requires SweptTo(items, k, done, now, isMember) && k < |items| && d == Decide(items[k], now, isMember)
    ensures if d.NoAssignmentEvent? then done + [d] == Swept(items, now, isMember)
            else SweptTo(items, k + 1, done + [d], now, isMember)
  {
    assert items[k..][0] == items[k] && items[k..][1..] == items[k + 1..];
    var rest := Swept(items[k + 1..], now, isMember);
    assert done + ([d] + rest) == (done + [d]) + rest;
  }

  method RunStale(items: seq<Item>, now: int, isMember: nat -> bool)
    returns (done: seq<Decision>, checkedIn: nat, cleared: nat)
    ensures done == Swept(items, now, isMember)
    ensures checkedIn == Count(done, CheckIn) && cleared == Count(done, Clear)
  {
    done, checkedIn, cleared := [], 0, 0;
    var k := 0;
    while k < |items|
      invariant SweptTo(items, k, done, now, isMember)
      invariant checkedIn == Count(done, CheckIn) && cleared == Count(done, Clear)
    {
      var d := SweepItem(items[k], now, isMember);
      CountMore(done, d);
      SweptMore(items, k, done, d, now, isMember);
      done := done + [d];
      if d.NoAssignmentEvent? {
        return;
      }
      if d.Judged? && d.verdict.CheckIn? {
        checkedIn := checkedIn + 1;
      } else if d.Judged? && d.verdict.Clear? {
        cleared := cleared + 1;
      }
      k := k + 1;
    }
  }

  method SweepItem(item: Item, now: int, isMember: nat -> bool) returns (d: Decision)
    ensures d == Decide(item, now, isMember)
  {
    if item.archived || !item.isIssue || !item.inProgress {
      return Skipped;
    }
    var guild := Members(item.assignees, isMember);
    if guild == [] || item.held || item.hasClosingPr {
      return Skipped;
    }
    var since := LatestAssignment(item.timeline, guild[0]);
    if since.None? {
      return NoAssignmentEvent;
    }
    var active, checkIn := Measure(since.value, item.comments, guild[0]);
    if checkIn.None? || checkIn.value < active {
      if Days(now - active) < CHECK_IN_AFTER_DAYS {
        return Judged(Wait, guild[0], guild);
      }
      return Judged(CheckIn, guild[0], guild);
    }
    if Days(now - checkIn.value) < AUTO_CLEAR_AFTER_DAYS {
      return Judged(Wait, guild[0], guild);
    }
    d := Judged(Clear, guild[0], guild);
  }

  // ---------- one issue over time ----------

  /** An issue and its guild assignees; `clock` is the time of the last thing that happened. */
  datatype State = State(assignees: seq<nat>, timeline: seq<Assignment>, comments: seq<Comment>, clock: int)

  /**
   Each event happens `after` the one before. Someone assigned takes some `place` among the
   assignees. A sweep read its clock `lag` before it acts, and may find the issue held, out of
   progress or with a linked pull request.
   */
  datatype Event =
    | Assigned(after: nat, who: nat, place: nat)
    | Unassigned(after: nat, who: nat)
    | Commented(after: nat, author: nat, marker: bool)
    | Sweep(after: nat, lag: nat, bot: nat, skipped: bool)

  const START := State([], [], [], 0)

  function ItemOf(s: State, skipped: bool): Item {
    Item(skipped, true, true, s.assignees, false, false, s.comments, s.timeline)
  }

  predicate Anyone(who: nat) {
    true
  }

  function DecisionAt(s: State, now: int): Decision {
    Decide(ItemOf(s, false), now, Anyone)
  }

  function Without(assignees: seq<nat>, gone: seq<nat>): (r: seq<nat>)
    ensures forall a :: a in r <==> a in assignees && a !in gone
  {
    if assignees == [] then []
    else if assignees[0] in gone then Without(assignees[1..], gone)
    else [assignees[0]] + Without(assignees[1..], gone)
  }

  function Placed(assignees: seq<nat>, who: nat, place: nat): (r: seq<nat>)
    ensures forall a :: a in r <==> a in assignees || a == who
  {
    var others := Without(assignees, [who]);
    var k := if place <= |others| then place else |others|;
    assert others == others[..k] + others[k..];
    others[..k] + [who] + others[k..]
  }

  function Step(s: State, e: Event): State {
    var at := s.clock + e.after;
    match e
    case Assigned(_, who, place) =>
      s.(assignees := Placed(s.assignees, who, place), timeline := s.timeline + [Assignment(who, at)], clock := at)
    case Unassigned(_, who) => s.(assignees := Without(s.assignees, [who]), clock := at)
    case Commented(_, author, marker) => s.(comments := s.comments + [Comment(author, at, marker)], clock := at)
    case Sweep(_, lag, bot, skipped) =>
      var d := Decide(ItemOf(s, skipped), at - lag, Anyone);
      if d.Judged? && d.verdict.CheckIn? then s.(comments := s.comments + [Comment(bot, at, true)], clock := at)
      else if d.Judged? && d.verdict.Clear? then s.(assignees := Without(s.assignees, d.guild), clock := at)
      else s.(clock := at)
  }

  function RunFrom(s: State, events: seq<Event>): State {
    if events == [] then s else Step(RunFrom(s, events[..|events| - 1]), events[|events| - 1])
  }

  function Run(events: seq<Event>): State {
    RunFrom(START, events)
  }

  predicate MarkersOnlyByBot(events: seq<Event>) {
    forall i :: 0 <= i < |events| && events[i].Commented? ==> !events[i].marker
  }

  /** A person's last sign of life, if they were ever assigned. */
  function ActivityOf(s: State, who: nat): Option<int> {
    var since := LatestAssignment(s.timeline, who);
    if since.None? then None else Some(LastActivity(since.value, s.comments, who))
  }

  /** The last sign of life of the assignee whom a sweep measures. */
  function Active(s: State): Option<int> {
    if s.assignees == [] then None else ActivityOf(s, s.assignees[0])
  }

  predicate Clears(s: State, now: int) {
    DecisionAt(s, now).Judged? && DecisionAt(s, now).verdict.Clear?
  }

  predicate ChecksIn(s: State, now: int) {
    DecisionAt(s, now).Judged? && DecisionAt(s, now).verdict.CheckIn?
  }

  lemma {:induction false} EveryoneIsMember(assignees: seq<nat>)
    ensures Members(assignees, Anyone) == assignees
  {
    if assignees != [] { EveryoneIsMember(assignees[1..]); }
  }

  lemma {:induction false} DecisionIsJudgement(s: State, now: int)
    ensures Clears(s, now) <==> Active(s).Some? && Judge(now, Active(s).value, LatestCheckIn(s.comments)).Clear?
    ensures ChecksIn(s, now) <==> Active(s).Some? && Judge(now, Active(s).value, LatestCheckIn(s.comments)).CheckIn?
    ensures Clears(s, now) ==> DecisionAt(s, now).guild == s.assignees
  {
    EveryoneIsMember(s.assignees);
  }

  /** A sweep asks in a comment, or takes assignees off, or changes nothing. */
  lemma {:induction false} SweepDoes(s: State, e: Event)
    requires e.Sweep?
    ensures var t, at := Step(s, e), s.clock + e.after;
            && t.timeline == s.timeline && t.clock == at
            && (forall a :: a in t.assignees ==> a in s.assignees)
            && (t.comments == s.comments
                || (ChecksIn(s, at - e.lag) && t == s.(comments := s.comments + [Comment(e.bot, at, true)], clock := at)))
  {
    assert !e.skipped ==> ItemOf(s, e.skipped) == ItemOf(s, false);
  }

  // ---------- what every run keeps ----------

  /** Nothing is dated later than the clock, and every assignee was once assigned. */
  predicate Dated(s: State) {
    && (forall i :: 0 <= i < |s.comments| ==> s.comments[i].at <= s.clock)
    && (forall i :: 0 <= i < |s.timeline| ==> s.timeline[i].at <= s.clock)
    && (forall a :: a in s.assignees ==> LatestAssignment(s.timeline, a).Some?)
  }

  /** A check-in after the last sign of life of the assignee who is measured waited for two weeks of silence. */
  predicate Waited(s: State) {
    var checkIn, active := LatestCheckIn(s.comments), Active(s);
    checkIn.Some? && active.Some? && checkIn.value > active.value ==> checkIn.value - active.value >= 1209600
  }

  lemma {:induction false} NothingIsLater(s: State, who: nat)
    requires Dated(s)
    ensures LatestCheckIn(s.comments).Some? ==> LatestCheckIn(s.comments).value <= s.clock
    ensures ActivityOf(s, who).Some? ==> ActivityOf(s, who).value <= s.clock
  {
    CheckInIsLatest(s.comments);
    AssignmentIsLatest(s.timeline, who);
    var since := LatestAssignment(s.timeline, who);
    if since.Some? { ActivityIsLatest(since.value, s.comments, who); }
  }

  lemma {:induction false} CommentAdds(s: State, c: Comment, who: nat)
    ensures var t := s.(comments := s.comments + [c], clock := c.at);
            && LatestCheckIn(t.comments) == (if c.marker then Later(LatestCheckIn(s.comments), c.at) else LatestCheckIn(s.comments))
            && (ActivityOf(s, who).Some? <==> ActivityOf(t, who).Some?)
            && (ActivityOf(s, who).Some? ==>
                  ActivityOf(t, who).value == if !c.marker && c.author == who && c.at > ActivityOf(s, who).value
                                              then c.at else ActivityOf(s, who).value)
  {
  }

  lemma {:induction false} AssigningIsActivity(s: State, who: nat, at: int)
    requires Dated(s) && at >= s.clock
    ensures var t := s.(timeline := s.timeline + [Assignment(who, at)]);
            && ActivityOf(t, who).Some? && ActivityOf(t, who).value >= at
            && forall a :: LatestAssignment(s.timeline, a).Some? ==> LatestAssignment(t.timeline, a).Some?
  {
  }

  lemma {:induction false} StepKeepsDated(s: State, e: Event)
    requires Dated(s)
    ensures Dated(Step(s, e))
  {
    if e.Assigned? { AssigningIsActivity(s, e.who, s.clock + e.after); }
    if e.Sweep? { SweepDoes(s, e); }
  }

  lemma {:induction false} RunKeepsDated(events: seq<Event>)
    ensures Dated(Run(events))
  {
    if events != [] {
      RunKeepsDated(events[..|events| - 1]);
      StepKeepsDated(Run(events[..|events| - 1]), events[|events| - 1]);
    }
  }

  predicate IsActivity(e: Event, who: nat) {
    (e.Assigned? && e.who == who) || (e.Commented? && e.author == who && !e.marker)
  }

  lemma {:induction false} StepOfOther(s: State, e: Event, who: nat)
    requires !IsActivity(e, who)
    ensures ActivityOf(Step(s, e), who) == ActivityOf(s, who)
  {
    if e.Commented? { CommentAdds(s, Comment(e.author, s.clock + e.after, e.marker), who); }
    if e.Sweep? {
      SweepDoes(s, e);
      CommentAdds(s, Comment(e.bot, s.clock + e.after, true), who);
    }
  }

  /** Whoever comes to be measured was measured before, or has just been assigned. */
  predicate ComesFirst(s: State, e: Event) {
    var t := Step(s, e);
    || t.assignees == []
    || (s.assignees != [] && t.assignees[0] == s.assignees[0])
    || (e.Assigned? && e.who == t.assignees[0])
  }

  /** Nobody comes to be measured because the assignee before them left. */
  predicate NobodyMovesUp(events: seq<Event>) {
    events == []
    || (NobodyMovesUp(events[..|events| - 1]) && ComesFirst(Run(events[..|events| - 1]), events[|events| - 1]))
  }

  lemma {:induction false} StepKeepsWaited(s: State, e: Event)
    requires Dated(s) && Waited(s) && ComesFirst(s, e) && (e.Commented? ==> !e.marker)
    ensures Waited(Step(s, e))
  {
    var t, at := Step(s, e), s.clock + e.after;
    if t.assignees != [] {
      var who := t.assignees[0];
      NothingIsLater(s, who);
      if e.Sweep? {
        SweepKeepsWaited(s, e);
      } else if !IsActivity(e, who) {
        StepOfOther(s, e, who);
        if e.Commented? { CommentAdds(s, Comment(e.author, at, false), who); }
      } else if e.Assigned? {
        AssigningIsActivity(s, who, at);
      } else {
        CommentAdds(s, Comment(who, at, false), who);
      }
    }
  }

  lemma {:induction false} SweepKeepsWaited(s: State, e: Event)
    requires Dated(s) && Waited(s) && ComesFirst(s, e) && e.Sweep? && Step(s, e).assignees != []
    ensures Waited(Step(s, e))
  {
    var at, who := s.clock + e.after, Step(s, e).assignees[0];
    SweepDoes(s, e);
    StepOfOther(s, e, who);
    NothingIsLater(s, who);
    CommentAdds(s, Comment(e.bot, at, true), who);
    DecisionIsJudgement(s, at - e.lag);
  }

  lemma {:induction false} RunKeepsWaited(events: seq<Event>)
    requires MarkersOnlyByBot(events) && NobodyMovesUp(events)
    ensures Waited(Run(events))
  {
    if events != [] {
      RunKeepsWaited(events[..|events| - 1]);
      RunKeepsDated(events[..|events| - 1]);
      StepKeepsWaited(Run(events[..|events| - 1]), events[|events| - 1]);
    }
  }

  // ---------- clearing needs three weeks of silence ----------

  // In seconds: three weeks are 1814400, two are 1209600, and one is 604800.

  /** No sign of life for at least this long. */
  predicate SilentFor(s: State, who: nat, time: nat, now: int) {
    ActivityOf(s, who).Some? && now - ActivityOf(s, who).value >= time
  }

  /** The assignee who is measured has been asked and has not been heard of since. */
  predicate Asked(s: State) {
    Active(s).Some? && LatestCheckIn(s.comments).Some? && LatestCheckIn(s.comments).value >= Active(s).value
  }

  lemma {:induction false} ClearsExactlyWhen(s: State, now: int)
    ensures Clears(s, now) <==> Asked(s) && now - LatestCheckIn(s.comments).value >= 604800
  {
    DecisionIsJudgement(s, now);
  }

  /**
   After any run, all whom a sweep takes off the issue have been silent for 21 days, whenever it
   comes, exactly when no check-in is unanswered, or every assignee, and not only the one who was
   measured, was silent for the 14 days before the latest check-in.
   */
  lemma {:induction false} ClearsTheSilentExactlyWhen(events: seq<Event>)
    ensures var s := Run(events);
            (forall now, a :: Clears(s, now) && a in DecisionAt(s, now).guild ==> SilentFor(s, a, 1814400, now))
            <==> (Asked(s) ==> forall a :: a in s.assignees ==>
                                 SilentFor(s, a, 1209600, LatestCheckIn(s.comments).value))
  {
    var s := Run(events);
    RunKeepsDated(events);
    forall now ensures Clears(s, now) <==> Asked(s) && now - LatestCheckIn(s.comments).value >= 604800
      ensures Clears(s, now) ==> DecisionAt(s, now).guild == s.assignees
    {
      ClearsExactlyWhen(s, now);
      DecisionIsJudgement(s, now);
    }
    if Asked(s) {
      var early := LatestCheckIn(s.comments).value + 604800;
      assert Clears(s, early);
    }
  }

  /**
   As long as nobody moves up, a sweep clears the assignment only after 21 days without a sign of
   life from the assignee it measures, whenever it comes, exactly when that last sign of life is
   not dated in the very second of the latest check-in.
   */
  lemma {:induction false} ClearsAfterSilenceExactlyWhen(events: seq<Event>)
    requires MarkersOnlyByBot(events) && NobodyMovesUp(events)
    ensures var s := Run(events);
            (forall now :: Clears(s, now) ==> now - Active(s).value >= 1814400)
            <==> !(Active(s).Some? && LatestCheckIn(s.comments) == Active(s))
  {
    RunKeepsWaited(events);
    var s := Run(events);
    forall now | Clears(s, now)
      ensures Active(s).Some? && LatestCheckIn(s.comments).Some?
      ensures LatestCheckIn(s.comments) != Active(s) ==> now - Active(s).value >= 1814400
    {
      ClearsExactlyWhen(s, now);
    }
    if Active(s).Some? && LatestCheckIn(s.comments) == Active(s) {
      var early := Active(s).value + 604800;
      ClearsExactlyWhen(s, early);
      assert Clears(s, early) && early - Active(s).value < 1814400;
    }
  }

  // ---------- two ways to lose an assignment too soon ----------

  lemma {:induction false} RunMore(events: seq<Event>, e: Event)
    ensures Run(events + [e]) == Step(Run(events), e)
    ensures NobodyMovesUp(events) && ComesFirst(Run(events), e) ==> NobodyMovesUp(events + [e])
  {
    assert (events + [e])[..|events|] == events;
  }

  /** Assigned at the start, with no comments yet. */
  lemma {:induction false} AssignedAtStart(s: State, who: nat)
    requires s.comments == [] && s.timeline != [] && Assignment(who, 0) in s.timeline
    requires forall i :: 0 <= i < |s.timeline| ==> s.timeline[i].at == 0
    ensures ActivityOf(s, who) == Some(0)
  {
    AllAtStart(s.timeline, who);
  }

  lemma {:induction false} AllAtStart(timeline: seq<Assignment>, who: nat)
    requires forall i :: 0 <= i < |timeline| ==> timeline[i].at == 0
    ensures LatestAssignment(timeline, who) == if Assignment(who, 0) in timeline then Some(0) else None
  {
    if timeline != [] {
      AllAtStart(timeline[..|timeline| - 1], who);
      var last := timeline[|timeline| - 1];
      assert Assignment(who, 0) in timeline <==> Assignment(who, 0) in timeline[..|timeline| - 1] || last == Assignment(who, 0);
    }
  }

  lemma {:induction false} PlacedLast(first: nat, second: nat)
    requires first != second
    ensures Placed([first], second, 1) == [first, second]
  {
    assert [first][1..] == [] && first !in [second];
    assert Without([first], [second]) == [first];
  }

  lemma {:induction false} CheckedInAfterTwoWeeks(s: State, bot: nat)
    requires s.comments == [] && s.clock == 0 && Active(s) == Some(0)
    ensures var t := Step(s, Sweep(1209600, 0, bot, false));
            && t == s.(comments := [Comment(bot, 1209600, true)], clock := 1209600)
            && Active(t) == Some(0) && LatestCheckIn(t.comments) == Some(1209600)
  {
    DecisionIsJudgement(s, 1209600);
    CommentAdds(s, Comment(bot, 1209600, true), s.assignees[0]);
  }

  /** A reply in the very second of the check-in does not stop the clearing seven days on. */
  lemma {:induction false} ReplyInTheSameSecond(who: nat, bot: nat)
    ensures var events := [Assigned(0, who, 0)] + [Sweep(1209600, 0, bot, false)] + [Commented(0, who, false)];
            && MarkersOnlyByBot(events) && NobodyMovesUp(events)
            && Active(Run(events)) == Some(1209600) && Clears(Run(events), 1814400)
  {
    var e0, e1, e2 := Assigned(0, who, 0), Sweep(1209600, 0, bot, false), Commented(0, who, false);
    assert [] + [e0] == [e0];
    RunMore([], e0);
    var s0 := State([who], [Assignment(who, 0)], [], 0);
    assert Run([e0]) == s0;
    AssignedAtStart(s0, who);
    RunMore([e0], e1);
    CheckedInAfterTwoWeeks(s0, bot);
    var s1 := Step(s0, e1);
    RunMore([e0] + [e1], e2);
    CommentAdds(s1, Comment(who, 1209600, false), who);
    ClearsExactlyWhen(Step(s1, e2), 1814400);
  }

  lemma {:induction false} TwoAssigned(first: nat, second: nat)
    requires first != second
    ensures var events := [Assigned(0, first, 0)] + [Assigned(0, second, 1)];
            var s := State([first, second], [Assignment(first, 0), Assignment(second, 0)], [], 0);
            && Run(events) == s && NobodyMovesUp(events)
            && ActivityOf(s, first) == Some(0) && ActivityOf(s, second) == Some(0)
  {
    var e0, e1 := Assigned(0, first, 0), Assigned(0, second, 1);
    assert [] + [e0] == [e0];
    RunMore([], e0);
    assert Run([e0]) == State([first], [Assignment(first, 0)], [], 0);
    RunMore([e0], e1);
    PlacedLast(first, second);
    var s := State([first, second], [Assignment(first, 0), Assignment(second, 0)], [], 0);
    AssignedAtStart(s, first);
    AssignedAtStart(s, second);
  }

  /** Asked after 14 days, and the other heard of six days later: a day after that all are cleared. */
  lemma {:induction false} ClearedWithTheFirst(s: State, first: nat, second: nat, bot: nat)
    requires first != second && s.assignees == [first, second] && s.comments == [] && s.clock == 0
    requires ActivityOf(s, first) == Some(0) == ActivityOf(s, second)
    ensures var asked := Step(s, Sweep(1209600, 0, bot, false));
            var heard := Step(asked, Commented(518400, second, false));
            && asked.assignees == heard.assignees == s.assignees
            && ActivityOf(heard, second) == Some(1728000)
            && Clears(heard, 1814400) && second in DecisionAt(heard, 1814400).guild
  {
    CheckedInAfterTwoWeeks(s, bot);
    CommentAdds(s, Comment(bot, 1209600, true), second);
    var asked := Step(s, Sweep(1209600, 0, bot, false));
    var heard := Step(asked, Commented(518400, second, false));
    CommentAdds(asked, Comment(second, 1728000, false), first);
    CommentAdds(asked, Comment(second, 1728000, false), second);
    ClearsExactlyWhen(heard, 1814400);
    DecisionIsJudgement(heard, 1814400);
    assert heard.assignees[1] == second;
  }

  /** Of two assignees one is asked; the other, heard of a day ago, is cleared along with them. */
  lemma {:induction false} SecondAssigneeIsClearedToo(first: nat, second: nat, bot: nat)
    requires first != second
    ensures var events := [Assigned(0, first, 0)] + [Assigned(0, second, 1)] + [Sweep(1209600, 0, bot, false)]
                          + [Commented(518400, second, false)];
            && MarkersOnlyByBot(events) && NobodyMovesUp(events)
            && ActivityOf(Run(events), second) == Some(1728000)
            && Clears(Run(events), 1814400) && second in DecisionAt(Run(events), 1814400).guild
  {
    var both := [Assigned(0, first, 0)] + [Assigned(0, second, 1)];
    var sweep := Sweep(1209600, 0, bot, false);
    TwoAssigned(first, second);
    ClearedWithTheFirst(Run(both), first, second, bot);
    RunMore(both, sweep);
    RunMore(both + [sweep], Commented(518400, second, false));
  }

  // ---------- one check-in per silent stretch, and replies restart the wait ----------

  lemma {:induction false} SilenceChangesNothing(s: State, events: seq<Event>, who: nat)
    requires forall i :: 0 <= i < |events| ==> !IsActivity(events[i], who)
    ensures ActivityOf(RunFrom(s, events), who) == ActivityOf(s, who)
  {
    if events != [] {
      var before, e := events[..|events| - 1], events[|events| - 1];
      SilenceChangesNothing(s, before, who);
      StepOfOther(RunFrom(s, before), e, who);
    }
  }

  lemma {:induction false} CheckInStays(s: State, e: Event, t: int)
    requires LatestCheckIn(s.comments).Some? && LatestCheckIn(s.comments).value >= t
    ensures var u := Step(s, e); LatestCheckIn(u.comments).Some? && LatestCheckIn(u.comments).value >= t
  {
    if e.Commented? { CommentAdds(s, Comment(e.author, s.clock + e.after, e.marker), 0); }
    if e.Sweep? {
      SweepDoes(s, e);
      CommentAdds(s, Comment(e.bot, s.clock + e.after, true), 0);
    }
  }

  lemma {:induction false} CheckInsStay(s: State, events: seq<Event>, t: int)
    requires LatestCheckIn(s.comments).Some? && LatestCheckIn(s.comments).value >= t
    ensures var u := RunFrom(s, events); LatestCheckIn(u.comments).Some? && LatestCheckIn(u.comments).value >= t
  {
    if events != [] {
      CheckInsStay(s, events[..|events| - 1], t);
      CheckInStays(RunFrom(s, events[..|events| - 1]), events[|events| - 1], t);
    }
  }

  /** The state in which a sweep leaves an issue when it asks: the check-in is the latest thing. */
  lemma {:induction false} AskingIsLatest(s: State, e: Event, who: nat)
    requires Dated(s) && e.Sweep? && !e.skipped && ChecksIn(s, s.clock + e.after - e.lag)
    ensures var t, at := Step(s, e), s.clock + e.after;
            && LatestCheckIn(t.comments).Some? && LatestCheckIn(t.comments).value >= at
            && (ActivityOf(t, who).Some? ==> ActivityOf(t, who).value <= at)
  {
    AskingAdds(s, e);
    CheckInIsLast(s, Comment(e.bot, s.clock + e.after, true), who);
  }

  lemma {:induction false} AskingAdds(s: State, e: Event)
    requires e.Sweep? && !e.skipped && ChecksIn(s, s.clock + e.after - e.lag)
    ensures var at := s.clock + e.after;
            Step(s, e) == s.(comments := s.comments + [Comment(e.bot, at, true)], clock := at)
  {
    assert ItemOf(s, e.skipped) == ItemOf(s, false);
  }

  lemma {:induction false} CheckInIsLast(s: State, c: Comment, who: nat)
    requires Dated(s) && c.marker && c.at >= s.clock
    ensures var t := s.(comments := s.comments + [c], clock := c.at);
            && LatestCheckIn(t.comments).Some? && LatestCheckIn(t.comments).value >= c.at
            && (ActivityOf(t, who).Some? ==> ActivityOf(t, who).value <= c.at)
  {
    CommentAdds(s, c, who);
    NothingIsLater(s, who);
  }

  /** Between two check-ins the person who is asked the second time has shown a sign of life. */
  lemma {:induction false} OneCheckInPerSilence(events: seq<Event>, first: Event, between: seq<Event>, now: int)
    requires first.Sweep? && !first.skipped
    requires ChecksIn(Run(events), Run(events).clock + first.after - first.lag)
    requires var t := RunFrom(Step(Run(events), first), between); ChecksIn(t, now) && t.assignees != []
    ensures var t := RunFrom(Step(Run(events), first), between);
            exists i :: 0 <= i < |between| && IsActivity(between[i], t.assignees[0])
  {
    RunKeepsDated(events);
    var s, asked := Run(events), Step(Run(events), first);
    var t := RunFrom(asked, between);
    var who := t.assignees[0];
    AskingIsLatest(s, first, who);
    CheckInsStay(asked, between, s.clock + first.after);
    DecisionIsJudgement(t, now);
    if forall i :: 0 <= i < |between| ==> !IsActivity(between[i], who) {
      SilenceChangesNothing(asked, between, who);
    }
  }

  lemma {:induction false} ActivityGrows(s: State, e: Event, who: nat)
    requires ActivityOf(s, who).Some?
    ensures var u := Step(s, e); ActivityOf(u, who).Some? && ActivityOf(u, who).value >= ActivityOf(s, who).value
  {
    if !IsActivity(e, who) {
      StepOfOther(s, e, who);
    } else if e.Commented? {
      CommentAdds(s, Comment(who, s.clock + e.after, false), who);
    } else {
      NewAssignmentOnlyRaises(s.timeline, s.comments, who, s.clock + e.after);
    }
  }

  lemma {:induction false} ActivityOnlyGrows(s: State, events: seq<Event>, who: nat)
    requires ActivityOf(s, who).Some?
    ensures var u := RunFrom(s, events); ActivityOf(u, who).Some? && ActivityOf(u, who).value >= ActivityOf(s, who).value
  {
    if events != [] {
      ActivityOnlyGrows(s, events[..|events| - 1], who);
      ActivityGrows(RunFrom(s, events[..|events| - 1]), events[|events| - 1], who);
    }
  }

  lemma {:induction false} NewAssignmentOnlyRaises(timeline: seq<Assignment>, comments: seq<Comment>, who: nat, at: int)
    requires LatestAssignment(timeline, who).Some?
    ensures var more := LatestAssignment(timeline + [Assignment(who, at)], who);
            && more.Some? && more.value >= LatestAssignment(timeline, who).value
            && LastActivity(more.value, comments, who) >= LastActivity(LatestAssignment(timeline, who).value, comments, who)
  {
    assert (timeline + [Assignment(who, at)])[..|timeline|] == timeline;
    LaterStart(LatestAssignment(timeline, who).value, LatestAssignment(timeline + [Assignment(who, at)], who).value, comments, who);
  }

  lemma {:induction false} LaterStart(a: int, b: int, comments: seq<Comment>, who: nat)
    requires a <= b
    ensures LastActivity(a, comments, who) <= LastActivity(b, comments, who)
  {
    if comments != [] { LaterStart(a, b, comments[..|comments| - 1], who); }
  }

  lemma {:induction false} ReplyCounts(events: seq<Event>, reply: Event, rest: seq<Event>)
    requires reply.Commented? && !reply.marker && ActivityOf(Run(events), reply.author).Some?
    ensures var activity := ActivityOf(Run(events + [reply] + rest), reply.author);
            activity.Some? && activity.value >= Run(events).clock + reply.after
  {
    var s := Run(events);
    RunMore(events, reply);
    CommentAdds(s, Comment(reply.author, s.clock + reply.after, false), reply.author);
    ActivityOnlyGrows(Run(events + [reply]), rest, reply.author);
    RunInTwo(START, events + [reply], rest);
  }

  /**
   A reply restarts the whole wait: whatever happens after it, as long as nobody moves up, a sweep
   that measures who replied clears the assignment only 21 days after the reply or later, and after
   a new check-in at least 14 days after the reply, unless the last sign of life and the latest
   check-in fall in the same second.
   */
  lemma {:induction false} ReplyRestartsTheWait(events: seq<Event>, reply: Event, rest: seq<Event>, now: int)
    requires var all := events + [reply] + rest; MarkersOnlyByBot(all) && NobodyMovesUp(all)
    requires reply.Commented? && reply.author in Run(events).assignees
    requires var t := Run(events + [reply] + rest);
             && t.assignees != [] && t.assignees[0] == reply.author
             && LatestCheckIn(t.comments) != Active(t) && Clears(t, now)
    ensures var replied, t := Run(events).clock + reply.after, Run(events + [reply] + rest);
            && now - replied >= 1814400
            && LatestCheckIn(t.comments).Some? && LatestCheckIn(t.comments).value - replied >= 1209600
  {
    var all := events + [reply] + rest;
    assert reply == all[|events|];
    RunKeepsDated(events);
    RunKeepsWaited(all);
    ReplyCounts(events, reply, rest);
    ClearsExactlyWhen(Run(all), now);
  }

  lemma {:induction false} RunInTwo(s: State, a: seq<Event>, b: seq<Event>)
    ensures RunFrom(s, a + b) == RunFrom(RunFrom(s, a), b)
  {
    if b == [] {
      assert a + b == a;
    } else {
      var init, e := b[..|b| - 1], b[|b| - 1];
      RunInTwo(s, a, init);
      RunInTwoMore(s, RunFrom(s, a), a, init, e);
      assert init + [e] == b;
    }
  }

  lemma {:induction false} RunInTwoMore(s: State, t: State, a: seq<Event>, b: seq<Event>, e: Event)
    requires RunFrom(s, a + b) == RunFrom(t, b)
    ensures RunFrom(s, a + (b + [e])) == RunFrom(t, b + [e])
  {
    assert a + (b + [e]) == (a + b) + [e];
    OneMoreStep(s, a + b, e);
    OneMoreStep(t, b, e);
  }

  lemma {:induction false} OneMoreStep(s: State, events: seq<Event>, e: Event)
    ensures RunFrom(s, events + [e]) == Step(RunFrom(s, events), e)
  {
    assert (events + [e])[..|events|] == events;
  }
}
