/**
 The turn protocol over whole runs: which turn is running, when the thread is generating, what
 a late completion may still do, and what a cancelled or failed turn leaves behind.
 */
module ThreadTurns {
  import opened Prelude
  import opened ThreadModel
  import opened ThreadInvariants

  // ---------- turn ids ----------

  function Sends(events: seq<Event>): nat {
    if events == [] then 0
    else Sends(events[..|events| - 1]) + (if events[|events| - 1] == Turn(Send) then 1 else 0)
  }

  lemma {:induction false} RunKeepsTurns(events: seq<Event>)
    ensures TurnsOk(Run(events)) && |Run(events).tasks| == Sends(events)
  {
    if events != [] {
      var before, e := events[..|events| - 1], events[|events| - 1];
      RunKeepsTurns(before);
      StepKeepsTurns(Run(before), e);
      TasksAreSends(Run(before), e);
    }
  }

  lemma {:induction false} TasksAreSends(s: State, e: Event)
    ensures |Step(s, e).tasks| == |s.tasks| + (if e == Turn(Send) then 1 else 0)
  {
    if !e.Turn? {
      OtherStepsLeaveTurns(s, e);
    } else if e.turn.FinishTurn? && CanFinish(s, e.turn.turn) {
      FinishLeavesOrEnds(s, e.turn.turn);
    }
  }

  /** The id of the newest turn counts the prompts sent, and a running turn is always the newest. */
  lemma {:induction false} TurnIdsCountSends(events: seq<Event>)
    ensures Run(events).turnId == Sends(events) % 0x1_0000_0000
    ensures Run(events).running.Some? ==> Run(events).running.value == Run(events).turnId
  {
    RunKeepsTurns(events);
  }

  /** As long as fewer than 2^32 prompts were sent the count does not wrap, so ids strictly increase. */
  lemma {:induction false} TurnIdsIncrease(events: seq<Event>, more: seq<Event>)
    requires Sends(events + more) < 0x1_0000_0000
    ensures Run(events + more).turnId == Run(events).turnId + Sends(more)
  {
    SendsConcat(events, more);
    assert Run(events).turnId == Sends(events) by {
      TurnIdsCountSends(events);
      NoWrap(Sends(events));
    }
    assert Run(events + more).turnId == Sends(events + more) by {
      TurnIdsCountSends(events + more);
      NoWrap(Sends(events + more));
    }
  }

  lemma {:induction false} NoWrap(n: nat)
    ensures n < 0x1_0000_0000 ==> n % 0x1_0000_0000 == n
  {
  }

  lemma {:induction false} SendsConcat(a: seq<Event>, b: seq<Event>)
    ensures Sends(a + b) == Sends(a) + Sends(b)
  {
    if b == [] {
      assert a + b == a;
    } else {
      SendsConcat(a, b[..|b| - 1]);
      assert (a + b)[..|a + b| - 1] == a + b[..|b| - 1];
    }
  }

  /**
   A completion is taken for the running turn's exactly when a turn is running and the number
   of turns started since is a multiple of 2^32: for fewer turns, exactly when it is its own.
   */
  lemma {:induction false} SameTurnExactlyWhen(s: State, k: nat)
    requires TurnsOk(s) && k < |s.tasks|
    ensures IsSame(s, k) <==> s.running.Some? && (|s.tasks| - 1 - k) % 0x1_0000_0000 == 0
    ensures |s.tasks| - k <= 0x1_0000_0000 ==> (IsSame(s, k) <==> s.running.Some? && k == |s.tasks| - 1)
  {
  }

  // ---------- generating ----------

  /** Event `j` ends the turn whose task is at `n`, if no newer turn has started. */
  predicate Ends(events: seq<Event>, j: nat, n: nat)
    requires j < |events|
  {
    || events[j] == Turn(CancelTurn)
    || (events[j] == Turn(FinishTurn(n)) && CanFinish(Run(events[..j]), n))
  }

  /** The newest turn has been started and since then neither cancelled nor finished. */
  ghost predicate NewestTurnIsLive(events: seq<Event>) {
    exists i :: 0 <= i < |events| && StartsLive(events, i)
  }

  predicate StartsLive(events: seq<Event>, i: nat)
    requires i < |events|
  {
    && events[i] == Turn(Send)
    && forall j :: i < j < |events| ==> events[j] != Turn(Send) && !Ends(events, j, Sends(events[..i]))
  }

  /** The status is generating exactly while the newest turn is live. */
  lemma {:induction false} GeneratingExactlyWhileLive(events: seq<Event>)
    requires Sends(events) < 0x1_0000_0000
    ensures Run(events).running.Some? <==> NewestTurnIsLive(events)
  {
    if events != [] {
      var last := |events| - 1;
      var before, e := events[..last], events[last];
      GeneratingExactlyWhileLive(before);
      RunKeepsTurns(before);
      assert events[..last] == before;
      if e == Turn(Send) {
        assert StartsLive(events, last);
      } else if e == Turn(CancelTurn) {
        assert forall n :: Ends(events, last, n);
      } else {
        LiveExtends(events);
        if NewestTurnIsLive(before) && !e.Turn? {
          OtherStepsLeaveTurns(Run(before), e);
        } else if NewestTurnIsLive(before) {
          EndOfNewest(before, e.turn.turn);
        } else if !e.Turn? {
          OtherStepsLeaveTurns(Run(before), e);
        } else if CanFinish(Run(before), e.turn.turn) {
          FinishLeavesOrEnds(Run(before), e.turn.turn);
        }
      }
    }
  }

  /** The last event, if it starts nothing, keeps a live start live exactly when it does not end it. */
  lemma {:induction false} LiveExtends(events: seq<Event>)
    requires events != [] && events[|events| - 1] != Turn(Send)
    ensures var before := events[..|events| - 1];
            NewestTurnIsLive(events)
            <==> exists i :: 0 <= i < |before| && StartsLive(before, i) && !Ends(events, |events| - 1, Sends(before[..i]))
  {
    var last := |events| - 1;
    var before := events[..last];
    forall i | 0 <= i < last
      ensures StartsLive(events, i) <==> StartsLive(before, i) && !Ends(events, last, Sends(before[..i]))
    {
      assert before[..i] == events[..i];
      forall j | i < j < last ensures Ends(before, j, Sends(before[..i])) == Ends(events, j, Sends(before[..i])) {
        assert before[..j] == events[..j] && before[j] == events[j];
      }
    }
    if NewestTurnIsLive(events) {
      var i :| 0 <= i < |events| && StartsLive(events, i);
      assert i < last;
      assert StartsLive(before, i) && !Ends(events, last, Sends(before[..i]));
    }
  }

  /** The start that is live is the newest one. */
  lemma {:induction false} LiveStartIsNewest(events: seq<Event>, i: nat)
    requires i < |events| && StartsLive(events, i)
    ensures Sends(events) == Sends(events[..i]) + 1
  {
    SendsSince(events, i);
  }

  /** Sends after position `i` are the only ones that may come on top. */
  lemma {:induction false} SendsSince(events: seq<Event>, i: nat)
    requires i < |events| && events[i] == Turn(Send)
    requires forall j :: i < j < |events| ==> events[j] != Turn(Send)
    ensures Sends(events) == Sends(events[..i]) + 1
  {
    var last := |events| - 1;
    if i < last {
      SendsSince(events[..last], i);
      assert events[..last][..i] == events[..i];
    }
  }

  /** While the newest turn is live, finishing a turn ends it exactly when it is that one. */
  lemma {:induction false} EndOfNewest(before: seq<Event>, k: nat)
    requires Sends(before) < 0x1_0000_0000 && NewestTurnIsLive(before) && Run(before).running.Some?
    ensures var events := before + [Turn(FinishTurn(k))];
            Run(events).running.Some?
            <==> exists i :: 0 <= i < |before| && StartsLive(before, i) && !Ends(events, |before|, Sends(before[..i]))
  {
    var events := before + [Turn(FinishTurn(k))];
    assert events[..|before|] == before;
    RunKeepsTurns(before);
    forall i | 0 <= i < |before| && StartsLive(before, i) ensures Sends(before[..i]) == |Run(before).tasks| - 1 {
      LiveStartIsNewest(before, i);
    }
    if CanFinish(Run(before), k) {
      FinishLeavesOrEnds(Run(before), k);
      SameTurnExactlyWhen(Run(before), k);
    }
  }
}
