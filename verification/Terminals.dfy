/**
 Terminals announced by a provider whose events may arrive out of order: output and exit of a
 terminal that does not exist yet are kept until it is created.
 */
module Terminals {
  import opened Prelude
  import opened Utf8

  /** What has been written to a terminal, its last title, and whether its buffer was shrunk on exit. */
  datatype Terminal = Terminal(output: seq<Byte>, title: Option<Text>, shrunk: bool)

  datatype State = State(live: map<nat, Terminal>, pendingOutput: map<nat, seq<seq<Byte>>>, pendingExit: map<nat, int>)

  datatype Event =
    | Created(id: nat)
    | Output(id: nat, data: seq<Byte>)
    | TitleChanged(id: nat, title: Text)
    | Exit(id: nat, status: int)
    | Release(id: nat)

  const EMPTY := State(map[], map[], map[])

  function Concat(chunks: seq<seq<Byte>>): seq<Byte> {
    if chunks == [] then [] else Concat(chunks[..|chunks| - 1]) + chunks[|chunks| - 1]
  }

  function Buffered(s: State, id: nat): seq<seq<Byte>> {
    if id in s.pendingOutput then s.pendingOutput[id] else []
  }

  function Step(s: State, e: Event): State {
    match e
    case Created(id) =>
      State(s.live[id := Terminal(Concat(Buffered(s, id)), None, id in s.pendingExit)],
            s.pendingOutput - {id}, s.pendingExit - {id})
    case Output(id, data) =>
      if id in s.live then s.(live := s.live[id := s.live[id].(output := s.live[id].output + data)])
      else s.(pendingOutput := s.pendingOutput[id := Buffered(s, id) + [data]])
    case TitleChanged(id, title) =>
      if id in s.live then s.(live := s.live[id := s.live[id].(title := Some(title))]) else s
    case Exit(id, status) =>
      if id in s.live then s.(live := s.live[id := s.live[id].(shrunk := true)])
      else s.(pendingExit := s.pendingExit[id := status])
    case Release(id) => s.(live := s.live - {id})
  }

  function Run(s: State, events: seq<Event>): State {
    if events == [] then s else Step(Run(s, events[..|events| - 1]), events[|events| - 1])
  }

  /** No terminal is both live and buffered. */
  predicate Separate(s: State) {
    s.live.Keys !! s.pendingOutput.Keys && s.live.Keys !! s.pendingExit.Keys
  }

  lemma {:induction false} RunKeepsSeparate(s: State, events: seq<Event>)
    requires Separate(s)
    ensures Separate(Run(s, events))
  {
    if events != [] {
      RunKeepsSeparate(s, events[..|events| - 1]);
    }
  }

  // ---------- what a run tells about one terminal ----------

  /** All output for `id`, in arrival order. */
  function OutputOf(events: seq<Event>, id: nat): seq<Byte> {
    if events == [] then []
    else
      var e := events[|events| - 1];
      OutputOf(events[..|events| - 1], id) + (if e.Output? && e.id == id then e.data else [])
  }

  predicate Exited(events: seq<Event>, id: nat) {
    exists i :: 0 <= i < |events| && events[i].Exit? && events[i].id == id
  }

  /** The last title given to `id`. */
  function LastTitle(events: seq<Event>, id: nat): Option<Text> {
    if events == [] then None
    else
      var e := events[|events| - 1];
      if e.TitleChanged? && e.id == id then Some(e.title) else LastTitle(events[..|events| - 1], id)
  }

  /** `Created(id)` is at `c` and nowhere else, and `id` is never released. */
  predicate CreatedOnceAt(events: seq<Event>, id: nat, c: nat) {
    && c < |events| && events[c] == Created(id)
    && forall i :: 0 <= i < |events| && events[i].id == id ==> !events[i].Release? && (events[i].Created? ==> i == c)
  }

  predicate NotYetCreated(events: seq<Event>, id: nat) {
    forall i :: 0 <= i < |events| && events[i].id == id ==> !events[i].Release? && !events[i].Created?
  }

  /** Before creation everything but titles is kept. */
  lemma {:induction false} BufferedUntilCreated(events: seq<Event>, id: nat)
    requires NotYetCreated(events, id)
    ensures var s := Run(EMPTY, events);
            && id !in s.live
            && Concat(Buffered(s, id)) == OutputOf(events, id)
            && (id in s.pendingExit <==> Exited(events, id))
  {
    if events != [] {
      var before, e := events[..|events| - 1], events[|events| - 1];
      BufferedUntilCreated(before, id);
      ExitedNext(events, id);
      var s := Run(EMPTY, before);
      ConcatOneMore(Buffered(s, id), if e.Output? then e.data else []);
      BufferedStep(s, e, id);
    }
  }

  lemma {:induction false} BufferedStep(s: State, e: Event, id: nat)
    requires id !in s.live && (e.id == id ==> !e.Created? && !e.Release?)
    ensures var s' := Step(s, e);
            && id !in s'.live
            && Buffered(s', id) == (if e.id == id && e.Output? then Buffered(s, id) + [e.data] else Buffered(s, id))
            && (id in s'.pendingExit <==> id in s.pendingExit || (e.Exit? && e.id == id))
  {
  }

  lemma {:induction false} ConcatOneMore(chunks: seq<seq<Byte>>, data: seq<Byte>)
    ensures Concat(chunks + [data]) == Concat(chunks) + data
  {
  }

  lemma {:induction false} ExitedNext(events: seq<Event>, id: nat)
    requires events != []
    ensures var e := events[|events| - 1];
            Exited(events, id) <==> Exited(events[..|events| - 1], id) || (e.Exit? && e.id == id)
  {
  }

  /**
   Wherever its creation falls, a terminal has been written exactly its output in arrival
   order, and is shrunk exactly when it exited; only titles that came before it are lost.
   */
  lemma {:induction false} CreatedTerminalHasEverything(events: seq<Event>, id: nat, c: nat)
    requires CreatedOnceAt(events, id, c)
    ensures var s := Run(EMPTY, events);
            && id in s.live
            && s.live[id] == Terminal(OutputOf(events, id), LastTitle(events[c..], id), Exited(events, id))
            && id !in s.pendingOutput && id !in s.pendingExit
  {
    var before, e := events[..|events| - 1], events[|events| - 1];
    ExitedNext(events, id);
    if c == |events| - 1 {
      BufferedUntilCreated(before, id);
      assert events[c..] == [e];
      assert LastTitle([e][..0], id) == None;
    } else {
      assert before[c] == events[c];
      CreatedTerminalHasEverything(before, id, c);
      assert events[c..][..|events[c..]| - 1] == before[c..];
    }
  }

  /** The events of a run with the one at `c` taken out. */
  function Without(events: seq<Event>, c: nat): seq<Event>
    requires c < |events|
  {
    events[..c] + events[c + 1..]
  }

  /**
   Creation commutes with output and exit: two runs that differ only in where the terminal is
   created leave it with the same output and the same shrunk state.
   */
  lemma {:induction false} CreationCommutes(a: seq<Event>, b: seq<Event>, id: nat, c: nat, d: nat)
    requires CreatedOnceAt(a, id, c) && CreatedOnceAt(b, id, d) && Without(a, c) == Without(b, d)
    ensures id in Run(EMPTY, a).live && id in Run(EMPTY, b).live
    ensures Run(EMPTY, a).live[id].output == Run(EMPTY, b).live[id].output
    ensures Run(EMPTY, a).live[id].shrunk == Run(EMPTY, b).live[id].shrunk
  {
    CreatedTerminalHasEverything(a, id, c);
    CreatedTerminalHasEverything(b, id, d);
    CreationWritesNothing(a, id, c);
    CreationWritesNothing(b, id, d);
    ExitedWithout(a, id, c);
    ExitedWithout(b, id, d);
  }

  lemma {:induction false} CreationWritesNothing(events: seq<Event>, id: nat, c: nat)
    requires c < |events| && events[c].Created?
    ensures OutputOf(events, id) == OutputOf(Without(events, c), id)
  {
    var before, rest := events[..|events| - 1], Without(events, c);
    if c == |events| - 1 {
      assert rest == before;
    } else {
      CreationWritesNothing(before, id, c);
      assert rest[..|rest| - 1] == Without(before, c);
      assert rest[|rest| - 1] == events[|events| - 1];
    }
  }

  lemma {:induction false} ExitedWithout(events: seq<Event>, id: nat, c: nat)
    requires c < |events| && events[c].Created?
    ensures Exited(events, id) <==> Exited(Without(events, c), id)
  {
    var rest := Without(events, c);
    if Exited(events, id) {
      var i :| 0 <= i < |events| && events[i].Exit? && events[i].id == id;
      assert rest[if i < c then i else i - 1] == events[i];
    }
    if Exited(rest, id) {
      var i :| 0 <= i < |rest| && rest[i].Exit? && rest[i].id == id;
      assert events[if i < c then i else i + 1] == rest[i];
    }
  }

  /**
   Titles do not commute: the title is the one a terminal created first would have exactly
   when no title came before the creation or one came after it.
   */
  lemma {:induction false} TitleCommutesExactlyWhen(events: seq<Event>, id: nat, c: nat)
    requires CreatedOnceAt(events, id, c)
    ensures var first := [Created(id)] + Without(events, c);
            && id in Run(EMPTY, events).live && id in Run(EMPTY, first).live
            && (Run(EMPTY, events).live[id].title == Run(EMPTY, first).live[id].title
                <==> LastTitle(events[..c], id).None? || LastTitle(events[c + 1..], id).Some?)
  {
    var first := [Created(id)] + Without(events, c);
    CreatedTerminalHasEverything(events, id, c);
    forall i | 0 <= i < |first| && first[i].id == id
      ensures !first[i].Release? && (first[i].Created? ==> i == 0)
    {
      if i > 0 { assert first[i] == events[if i - 1 < c then i - 1 else i]; }
    }
    CreatedTerminalHasEverything(first, id, 0);
    assert first[0..] == [Created(id)] + (events[..c] + events[c + 1..]);
    LastTitleConcat([Created(id)], events[..c] + events[c + 1..], id);
    LastTitleConcat(events[..c], events[c + 1..], id);
    assert events[c..] == [Created(id)] + events[c + 1..];
    LastTitleConcat([Created(id)], events[c + 1..], id);
    assert LastTitle([Created(id)][..0], id) == None;
  }

  /** A title that comes before the creation is lost: created first, the terminal would have it. */
  lemma {:induction false} EarlyTitleIsLost(id: nat, title: Text)
    ensures var late, early := Run(EMPTY, [TitleChanged(id, title)] + [Created(id)]), Run(EMPTY, [Created(id)] + [TitleChanged(id, title)]);
            && id in late.live && late.live[id].title == None
            && id in early.live && early.live[id].title == Some(title)
  {
    var late, early := [TitleChanged(id, title)] + [Created(id)], [Created(id)] + [TitleChanged(id, title)];
    assert late[..1] == [TitleChanged(id, title)] && late[..1][..0] == [];
    assert early[..1] == [Created(id)] && early[..1][..0] == [];
  }

  lemma {:induction false} LastTitleConcat(a: seq<Event>, b: seq<Event>, id: nat)
    ensures LastTitle(a + b, id) == if LastTitle(b, id).Some? then LastTitle(b, id) else LastTitle(a, id)
  {
    if b == [] {
      assert a + b == a;
    } else {
      LastTitleConcat(a, b[..|b| - 1], id);
      assert (a + b)[..|a + b| - 1] == a + b[..|b| - 1];
    }
  }

  /** Releasing a terminal forgets it, and creating it again starts afresh. */
  lemma {:induction false} ReleaseForgets(s: State, id: nat)
    requires Separate(s)
    ensures var t := Step(s, Release(id)); id !in t.live && t == s.(live := t.live) && forall j :: j != id ==> ViewOf(t, j) == ViewOf(s, j)
    ensures id in s.live ==> Step(s, Created(id)) == s.(live := s.live[id := Terminal([], None, false)])
  {
    if id in s.live {
      assert id !in s.pendingOutput && id !in s.pendingExit;
      assert s.pendingOutput - {id} == s.pendingOutput && s.pendingExit - {id} == s.pendingExit;
    }
  }

  // ---------- terminals do not disturb each other ----------

  /** Everything a state knows about one terminal. */
  datatype View = View(live: Option<Terminal>, output: Option<seq<seq<Byte>>>, exit: Option<int>)

  function ViewOf(s: State, id: nat): View {
    View(if id in s.live then Some(s.live[id]) else None,
         if id in s.pendingOutput then Some(s.pendingOutput[id]) else None,
         if id in s.pendingExit then Some(s.pendingExit[id]) else None)
  }

  function Only(events: seq<Event>, id: nat): seq<Event> {
    if events == [] then []
    else
      var e := events[|events| - 1];
      Only(events[..|events| - 1], id) + (if e.id == id then [e] else [])
  }

  /** What a run leaves of one terminal depends on that terminal's own events alone. */
  lemma {:induction false} OthersDoNotInterfere(s: State, events: seq<Event>, id: nat)
    ensures ViewOf(Run(s, events), id) == ViewOf(Run(s, Only(events, id)), id)
  {
    if events != [] {
      var before, e := events[..|events| - 1], events[|events| - 1];
      OthersDoNotInterfere(s, before, id);
      if e.id == id {
        var only := Only(events, id);
        assert only[..|only| - 1] == Only(before, id);
        StepSeesOnlyItsView(Run(s, before), Run(s, Only(before, id)), e);
      } else {
        assert Only(events, id) == Only(before, id);
      }
    }
  }

  lemma {:induction false} StepSeesOnlyItsView(s: State, t: State, e: Event)
    requires ViewOf(s, e.id) == ViewOf(t, e.id)
    ensures ViewOf(Step(s, e), e.id) == ViewOf(Step(t, e), e.id)
  {
    assert Buffered(s, e.id) == Buffered(t, e.id);
  }

  // ---------- the table as an object ----------

  class TerminalTable {
    var live: map<nat, Terminal>
    var pendingOutput: map<nat, seq<seq<Byte>>>
    var pendingExit: map<nat, int>

    ghost function Snapshot(): State
      reads this
    {
      State(live, pendingOutput, pendingExit)
    }

    constructor ()
      ensures Snapshot() == EMPTY
    {
      live, pendingOutput, pendingExit := map[], map[], map[];
    }

    method Write(id: nat, data: seq<Byte>)
      requires id in live
      modifies this`live
      ensures live == old(live)[id := old(live)[id].(output := old(live)[id].output + data)]
    {
      live := live[id := live[id].(output := live[id].output + data)];
    }

    /** A created terminal first drains what was kept for it, chunk by chunk. */
    method OnProviderEvent(e: Event)
      requires !e.Release?
      modifies this
      ensures Snapshot() == Step(old(Snapshot()), e)
    {
      match e
      case Created(id) =>
        ghost var s := Snapshot();
        live := live[id := Terminal([], None, false)];
        if id in pendingOutput {
          var chunks := pendingOutput[id];
          pendingOutput := pendingOutput - {id};
          var k := 0;
          while k < |chunks|
            invariant k <= |chunks|
            invariant live == s.live[id := Terminal(Concat(chunks[..k]), None, false)]
            invariant pendingOutput == s.pendingOutput - {id} && pendingExit == s.pendingExit
          {
            assert chunks[..k + 1][..k] == chunks[..k];
            Write(id, chunks[k]);
            k := k + 1;
          }
          assert chunks[..k] == chunks;
        }
        assert live == s.live[id := Terminal(Concat(Buffered(s, id)), None, false)];
        assert pendingOutput == s.pendingOutput - {id};
        if id in pendingExit {
          pendingExit := pendingExit - {id};
          live := live[id := live[id].(shrunk := true)];
        }
        assert pendingExit == s.pendingExit - {id};
      case Output(id, data) =>
        if id in live {
          Write(id, data);
        } else {
          var chunks := if id in pendingOutput then pendingOutput[id] else [];
          pendingOutput := pendingOutput[id := chunks + [data]];
        }
      case TitleChanged(id, title) =>
        if id in live {
          live := live[id := live[id].(title := Some(title))];
        }
      case Exit(id, status) =>
        if id in live {
          live := live[id := live[id].(shrunk := true)];
        } else {
          pendingExit := pendingExit[id := status];
        }
    }

    method ReleaseTerminal(id: nat) returns (found: bool)
      modifies this
      ensures Snapshot() == Step(old(Snapshot()), Release(id)) && (found <==> id in old(live))
    {
      found := id in live;
      if found {
        live := live - {id};
      } else {
        assert live - {id} == live;
      }
    }
  }
}
