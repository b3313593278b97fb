/**
 What calls on the cached connection achieve (sdk/src/iroh_transport.rs): why each ends, that a
 dead connection costs a request one retry and no more, and that no call waits for ever.
 */
module ConnectionRuns {
  import opened Prelude
  import opened ConnectionCache

  //-- Why a call ends -------------------------------------------------------------------------

  /** What `open_stream` may end on: a stream, a terminal answer, a failed dial, a failed second attempt. */
  predicate Answers(p: Phase, o: Outcome) {
    || (p.Trying? && !o.Fails?)
    || (p.Trying? && p.attempt.Second?)
    || (p.Dialing? && !o.Succeeds?)
  }

  /** Nothing more will be tried. */
  predicate Final(p: Phase) {
    p.Done? || (p.Failed? && (p.attempt.Second? || p.outcome.FailsForGood?))
  }

  lemma NewCallIsStarted(s: State, e: Event, i: nat)
    requires Good(s) && |s.calls| <= i < |Step(s, e).calls|
    ensures Step(s, e).calls[i].phase.Started?
  {
    hide Good, CallStep;
  }

  /** A call moves by its own steps and its cancellation only. */
  lemma OwnStep(s: State, e: Event, i: nat)
    requires Good(s) && i < |s.calls|
    ensures var s' := Step(s, e);
            && i < |s'.calls|
            && s'.calls[i] == (if e.Advance? && e.call == i then CallStep(s.cache, i, s.calls[i], e.outcome, s.now).1
                               else if e == Cancel(i) then s.calls[i].(phase := Done) else s.calls[i])
  {
    hide GoodCache, CallStep;
  }

  lemma EndsOnAnAnswer(c: Cache, i: nat, t: Call, o: Outcome, now: nat)
    requires GoodCache(c, now) && GoodCall(c, i, t, now) && t.opens && !Final(t.phase)
    requires Final(CallStep(c, i, t, o, now).1.phase)
    ensures Answers(t.phase, o)
  {
    hide GoodCache;
  }

  /** Every `open_stream` that was not cancelled ended on an answer. */
  lemma {:induction false} WhyItEnded(events: seq<Event>, k: nat, i: nat) returns (j: nat)
    requires k <= |events| && i < |At(events, k).calls| && At(events, k).calls[i].opens && Final(At(events, k).calls[i].phase)
    requires forall m :: 0 <= m < k ==> events[m] != Cancel(i)
    ensures j < k && events[j].Advance? && events[j].call == i
    ensures i < |At(events, j).calls| && Answers(At(events, j).calls[i].phase, events[j].outcome)
  {
    hide Step, Good, CallStep, GoodCache, GoodCall;
    assert k > 0;
    hide At;
    var s, e := At(events, k - 1), events[k - 1];
    RunStep(events, k - 1);
    if |s.calls| <= i {
      NewCallIsStarted(s, e, i);
    }
    OwnStep(s, e, i);
    GoodCallOf(s, i);
    if s.calls[i].opens && Final(s.calls[i].phase) {
      j := WhyItEnded(events, k - 1, i);
    } else {
      j := k - 1;
      KindStays(s, e, i);
      EndsOnAnAnswer(s.cache, i, s.calls[i], e.outcome, s.now);
    }
  }

  lemma GoodCallOf(s: State, i: nat)
    requires Good(s) && i < |s.calls|
    ensures GoodCache(s.cache, s.now) && GoodCall(s.cache, i, s.calls[i], s.now)
  {
  }

  lemma KindStays(s: State, e: Event, i: nat)
    requires Good(s) && i < |s.calls|
    ensures i < |Step(s, e).calls| && Step(s, e).calls[i].opens == s.calls[i].opens
  {
    hide GoodCache;
  }

  //-- A failed first attempt is retried -----------------------------------------------------------

  /** The first attempt failed, for want of a live connection; what follows is the retry. */
  predicate Retries(t: Call) {
    && t.opens && |t.used| >= 1 && !t.phase.Started?
    && (t.phase.Trying? ==> t.phase.attempt.Second? && |t.used| == 2)
    && (t.phase.Failed? ==> (t.phase.attempt.First? && t.phase.outcome.Fails?) || (t.phase.attempt.Second? && |t.used| == 2))
    && (t.phase.Done? ==> t.dials == 1 || |t.used| == 2)
  }

  lemma RetriesStep(c: Cache, i: nat, t: Call, o: Outcome, now: nat)
    requires GoodCache(c, now) && GoodCall(c, i, t, now) && Retries(t)
    ensures Retries(CallStep(c, i, t, o, now).1)
  {
    hide GoodCache;
  }

  lemma {:induction false} KeepsRetrying(events: seq<Event>, j: nat, k: nat, i: nat)
    requires j <= k <= |events| && i < |At(events, j).calls| && Retries(At(events, j).calls[i])
    requires forall m :: j <= m < k ==> events[m] != Cancel(i)
    ensures i < |At(events, k).calls| && Retries(At(events, k).calls[i])
    decreases k
  {
    hide At, Step, Good, CallStep, Retries;
    if j < k {
      var s, e := At(events, k - 1), events[k - 1];
      KeepsRetrying(events, j, k - 1, i);
      RunStep(events, k - 1);
      OwnStep(s, e, i);
      GoodCallOf(s, i);
      if e.Advance? {
        RetriesStep(s.cache, i, s.calls[i], e.outcome, s.now);
      }
    }
  }

  /**
   A request that found the cached connection dead, and was not cancelled, does not end before
   it has dialled or used a second connection.
   */
  lemma DeadConnectionIsRetried(events: seq<Event>, j: nat, k: nat, i: nat)
    requires j < k <= |events| && i < |At(events, j).calls|
    requires At(events, j).calls[i].phase.Trying? && At(events, j).calls[i].phase.attempt.First? && events[j] == Advance(i, Fails)
    requires forall m :: j <= m < k ==> events[m] != Cancel(i)
    ensures i < |At(events, k).calls|
    ensures At(events, k).calls[i].phase.Done? ==> At(events, k).calls[i].dials == 1 || |At(events, k).calls[i].used| == 2
  {
    hide At, Step, Good;
    var s := At(events, j);
    RunStep(events, j);
    OwnStep(s, events[j], i);
    GoodCallOf(s, i);
    hide GoodCache;
    assert Retries(At(events, j + 1).calls[i]);
    KeepsRetrying(events, j + 1, k, i);
  }

  /** The cached connection is tried first: looking finds it, or finds none. */
  lemma LooksInTheCacheFirst(events: seq<Event>, j: nat, i: nat)
    requires j < |events| && events[j].Advance? && events[j].call == i
    requires i < |At(events, j).calls| && At(events, j).calls[i].phase.Started?
    ensures var s, t := At(events, j), At(events, j).calls[i];
            && s.cache.current < |s.cache.slots| && i < |At(events, j + 1).calls|
            && var held, t' := s.cache.slots[s.cache.current].held, At(events, j + 1).calls[i];
               && t'.used == (if held.Some? then [held.value] else [])
               && t'.phase == (if held.Some? then (if t.opens then Trying(s.cache.current, First) else Checking(s.cache.current))
                               else if t.opens then NeedsCell else Done)
  {
    hide At, Step, Good;
    RunStep(events, j);
    OwnStep(At(events, j), events[j], i);
    GoodCallOf(At(events, j), i);
  }

  //-- Failures and probes ---------------------------------------------------------------------------

  predicate AboutToEvict(p: Phase) {
    p.Failed? || p.Condemned?
  }

  /** The answer that condemns the connection in the phase's cell. */
  predicate Condemns(p: Phase, o: Outcome, p2: Phase) {
    || (p.Trying? && (o.Fails? || o.FailsForGood?) && p2 == Failed(p.slot, p.attempt, o))
    || (p.Checking? && !o.Succeeds? && p2 == Condemned(p.slot, o))
    || (p.Probing? && !o.Succeeds? && p2 == Condemned(p.slot, o))
  }

  lemma CondemnedForAFailure(c: Cache, i: nat, t: Call, o: Outcome, now: nat)
    requires GoodCache(c, now) && GoodCall(c, i, t, now) && AboutToEvict(CallStep(c, i, t, o, now).1.phase)
    ensures Condemns(t.phase, o, CallStep(c, i, t, o, now).1.phase)
  {
    hide GoodCache;
  }

  /** A call evicts only for a failure it was told of, on the connection in that cell. */
  lemma {:induction false} FailureWasReported(events: seq<Event>, k: nat, i: nat) returns (j: nat)
    requires k <= |events| && i < |At(events, k).calls| && AboutToEvict(At(events, k).calls[i].phase)
    ensures j < k && events[j].Advance? && events[j].call == i
    ensures i < |At(events, j).calls| && Condemns(At(events, j).calls[i].phase, events[j].outcome, At(events, k).calls[i].phase)
  {
    hide Step, Good, CallStep, GoodCache, GoodCall, Condemns;
    assert k > 0;
    hide At;
    var s, e := At(events, k - 1), events[k - 1];
    RunStep(events, k - 1);
    if |s.calls| <= i {
      NewCallIsStarted(s, e, i);
    }
    OwnStep(s, e, i);
    GoodCallOf(s, i);
    if e.Advance? && e.call == i {
      j := k - 1;
      CondemnedForAFailure(s.cache, i, s.calls[i], e.outcome, s.now);
    } else {
      j := FailureWasReported(events, k - 1, i);
    }
  }

  lemma ProbeEnds(c: Cache, i: nat, t: Call, o: Outcome, now: nat)
    requires GoodCache(c, now) && GoodCall(c, i, t, now) && !t.opens && !t.phase.Done?
    requires CallStep(c, i, t, o, now).1.phase.Done?
    ensures || (t.phase.Started? && c.slots[c.current].held.None?)
            || (t.phase.Probing? && o.Succeeds?)
            || t.phase.Condemned?
  {
    hide GoodCache;
  }

  /** A check that was not cancelled found no connection, got its answer, or condemned what it probed. */
  lemma {:induction false} WhyTheCheckEnded(events: seq<Event>, k: nat, i: nat) returns (j: nat)
    requires k <= |events| && i < |At(events, k).calls| && !At(events, k).calls[i].opens && At(events, k).calls[i].phase.Done?
    requires forall m :: 0 <= m < k ==> events[m] != Cancel(i)
    ensures j < k && events[j].Advance? && events[j].call == i && i < |At(events, j).calls|
    ensures var s := At(events, j);
            && s.cache.current < |s.cache.slots|
            && (|| (s.calls[i].phase.Started? && s.cache.slots[s.cache.current].held.None?)
                || (s.calls[i].phase.Probing? && events[j].outcome.Succeeds?)
                || s.calls[i].phase.Condemned?)
  {
    hide Step, Good, CallStep, GoodCache, GoodCall;
    assert k > 0;
    hide At;
    var s, e := At(events, k - 1), events[k - 1];
    RunStep(events, k - 1);
    if |s.calls| <= i {
      NewCallIsStarted(s, e, i);
    }
    OwnStep(s, e, i);
    KindStays(s, e, i);
    GoodCallOf(s, i);
    if s.calls[i].phase.Done? {
      j := WhyTheCheckEnded(events, k - 1, i);
    } else {
      j := k - 1;
      ProbeEnds(s.cache, i, s.calls[i], e.outcome, s.now);
    }
  }

  //-- No call waits for ever --------------------------------------------------------------------------

  /** Whoever has a cell's permit is dialling for it. */
  ghost predicate PermitsHeld(s: State) {
    forall k :: 0 <= k < |s.cache.slots| && s.cache.slots[k].dialer.Some? ==> DialsFor(s, s.cache.slots[k].dialer.value, k)
  }

  predicate DialsFor(s: State, d: nat, slot: nat) {
    d < |s.calls| && s.calls[d].phase.Dialing? && s.calls[d].phase.slot == slot
  }

  lemma PermitChange(c: Cache, i: nat, t: Call, o: Outcome, now: nat, k: nat)
    requires GoodCache(c, now) && GoodCall(c, i, t, now)
    requires var d := CallStep(c, i, t, o, now).0; k < |d.slots| && d.slots[k].dialer.Some?
    ensures var (d, t') := CallStep(c, i, t, o, now);
            || (k < |c.slots| && d.slots[k].dialer == c.slots[k].dialer && !(t.phase.Dialing? && t.phase.slot == k))
            || (d.slots[k].dialer == Some(i) && t'.phase.Dialing? && t'.phase.slot == k)
  {
    hide GoodCache;
  }

  lemma CancelledPermit(c: Cache, p: Phase, k: nat)
    requires k < |Released(c, p).slots| && Released(c, p).slots[k].dialer.Some? && CallSlot(p) < |c.slots|
    ensures k < |c.slots| && Released(c, p).slots[k].dialer == c.slots[k].dialer && !(p.Dialing? && p.slot == k)
  {
  }

  lemma PermitsStep(s: State, e: Event)
    requires Good(s) && PermitsHeld(s)
    ensures PermitsHeld(Step(s, e))
  {
    var s' := Step(s, e);
    hide Good, CallStep;
    forall k | 0 <= k < |s'.cache.slots| && s'.cache.slots[k].dialer.Some?
      ensures DialsFor(s', s'.cache.slots[k].dialer.value, k)
    {
      PermitStep(s, e, k);
    }
  }

  lemma PermitStep(s: State, e: Event, k: nat)
    requires Good(s) && PermitsHeld(s) && k < |Step(s, e).cache.slots| && Step(s, e).cache.slots[k].dialer.Some?
    ensures DialsFor(Step(s, e), Step(s, e).cache.slots[k].dialer.value, k)
  {
    match e
    case Advance(i, o) =>
      if i < |s.calls| {
        GoodCallOf(s, i);
        PermitChange(s.cache, i, s.calls[i], o, s.now, k);
        hide CallStep, Good, GoodCache, GoodCall;
      }
    case Cancel(i) =>
      if i < |s.calls| {
        GoodCallOf(s, i);
        CancelledPermit(s.cache, s.calls[i].phase, k);
        hide Released, Good, GoodCache, GoodCall;
      }
    case _ => hide Good;
  }

  lemma {:induction false} RunHoldsPermits(events: seq<Event>, k: nat)
    requires k <= |events|
    ensures PermitsHeld(At(events, k))
  {
    hide Step, Good;
    if k > 0 {
      hide At, PermitsHeld;
      RunHoldsPermits(events, k - 1);
      RunStep(events, k - 1);
      PermitsStep(At(events, k - 1), events[k - 1]);
    }
  }

  //-- The retry goes through -----------------------------------------------------------------------------

  function End(events: seq<Event>): (s: State)
    ensures Good(s)
  {
    At(events, |events|)
  }

  lemma {:induction false} SamePrefix(a: seq<Event>, b: seq<Event>, k: nat)
    requires a <= b && k <= |a|
    ensures At(a, k) == At(b, k)
  {
    hide Step, Good;
    if k > 0 {
      hide At;
      SamePrefix(a, b, k - 1);
      RunStep(a, k - 1);
      RunStep(b, k - 1);
      assert a[k - 1] == b[k - 1];
    }
  }

  lemma Extend(events: seq<Event>, e: Event)
    ensures End(events + [e]) == Step(End(events), e)
    ensures PermitsHeld(End(events)) && PermitsHeld(End(events + [e]))
  {
    hide At, Step, Good, PermitsHeld;
    SamePrefix(events, events + [e], |events|);
    RunStep(events + [e], |events|);
    RunHoldsPermits(events, |events|);
    RunHoldsPermits(events + [e], |events| + 1);
  }

  /** A step of one call, on the whole state. */
  lemma AdvanceStep(s: State, i: nat, o: Outcome)
    requires Good(s) && i < |s.calls|
    ensures s.cache.current < |s.cache.slots| && CallSlot(s.calls[i].phase) < |s.cache.slots|
    ensures var (d, t) := CallStep(s.cache, i, s.calls[i], o, s.now); Step(s, Advance(i, o)) == State(d, s.calls[i := t], s.now + 1)
  {
    GoodCallOf(s, i);
    hide CallStep;
  }

  /** From any run, a call waiting for a cell's connection can come to use one in that cell. */
  lemma WaiterIsServed(events: seq<Event>, i: nat) returns (run: seq<Event>)
    requires i < |End(events).calls| && End(events).calls[i].phase.Filling?
    ensures events <= run && i < |End(run).calls|
    ensures var t, t' := End(events).calls[i], End(run).calls[i];
            && t'.phase == Trying(t.phase.slot, Second) && |t'.used| == |t.used| + 1
            && t'.used[|t.used|].slot == t.phase.slot && t'.used[..|t.used|] == t.used
  {
    hide At, End, Good;
    var s := End(events);
    var slot := s.calls[i].phase.slot;
    GoodCallOf(s, i);
    hide GoodCache, GoodCall;
    run := events;
    if s.cache.slots[slot].held.None? {
      run := CellIsFilled(events, i, slot);
    }
    TakesIt(End(run), i);
    Extend(run, Advance(i, Succeeds));
    run := run + [Advance(i, Succeeds)];
  }

  lemma TakesIt(s: State, i: nat)
    requires Good(s) && i < |s.calls| && s.calls[i].phase.Filling? && s.calls[i].phase.slot < |s.cache.slots|
    requires s.cache.slots[s.calls[i].phase.slot].held.Some?
    ensures var t, s' := s.calls[i], Step(s, Advance(i, Succeeds));
            && i < |s'.calls| && s'.calls[i].phase == Trying(t.phase.slot, Second)
            && s'.calls[i].used == t.used + [s.cache.slots[t.phase.slot].held.value]
            && s.cache.slots[t.phase.slot].held.value.slot == t.phase.slot
  {
    AdvanceStep(s, i, Succeeds);
    assert GoodSlot(s.cache.slots[s.calls[i].phase.slot], s.calls[i].phase.slot, s.now);
    hide Step, Good, GoodCache;
  }

  /** Whoever dials for the cell, this call if nobody does, can fill it; this call stays where it was. */
  lemma CellIsFilled(events: seq<Event>, i: nat, slot: nat) returns (run: seq<Event>)
    requires i < |End(events).calls| && End(events).calls[i].phase == Filling(slot)
    requires slot < |End(events).cache.slots| && End(events).cache.slots[slot].held.None?
    ensures events <= run && i < |End(run).calls|
    ensures End(run).calls[i].phase == Filling(slot) && End(run).calls[i].used == End(events).calls[i].used
    ensures slot < |End(run).cache.slots| && End(run).cache.slots[slot].held.Some?
  {
    hide At, End, Good, Step;
    var s, d := End(events), i;
    run := events;
    Extend(events, Advance(i, Succeeds));
    if s.cache.slots[slot].dialer.Some? {
      d := s.cache.slots[slot].dialer.value;
      assert DialsFor(s, d, slot);
    } else {
      StartsDialing(s, i);
      run := events + [Advance(i, Succeeds)];
    }
    DialSucceeds(End(run), d);
    Extend(run, Advance(d, Succeeds));
    run := run + [Advance(d, Succeeds)];
  }

  lemma StartsDialing(s: State, i: nat)
    requires Good(s) && i < |s.calls| && s.calls[i].phase.Filling? && s.calls[i].phase.slot < |s.cache.slots|
    requires s.cache.slots[s.calls[i].phase.slot].held.None? && s.cache.slots[s.calls[i].phase.slot].dialer.None?
    ensures var t, s' := s.calls[i], Step(s, Advance(i, Succeeds));
            && i < |s'.calls| && s'.calls[i].phase.Dialing? && s'.calls[i].phase.slot == t.phase.slot && s'.calls[i].used == t.used
            && |s'.cache.slots| == |s.cache.slots|
  {
    AdvanceStep(s, i, Succeeds);
    hide Step, Good;
  }

  lemma DialSucceeds(s: State, d: nat)
    requires Good(s) && d < |s.calls| && s.calls[d].phase.Dialing? && s.calls[d].phase.slot < |s.cache.slots|
    ensures var t, s' := s.calls[d], Step(s, Advance(d, Succeeds));
            && |s'.calls| == |s.calls| && s'.calls == s.calls[d := t.(phase := Filling(t.phase.slot))]
            && |s'.cache.slots| == |s.cache.slots| && s'.cache.slots[t.phase.slot].held.Some?
  {
    AdvanceStep(s, d, Succeeds);
    hide Step, Good;
  }

  /**
   From any run in which a request has just found its connection dead, there is a continuation
   in which it uses a connection in another cell.
   */
  lemma RetryGoesThrough(events: seq<Event>, i: nat) returns (run: seq<Event>)
    requires i < |End(events).calls| && End(events).calls[i].phase.Failed?
    requires End(events).calls[i].phase.attempt.First? && End(events).calls[i].phase.outcome.Fails?
    ensures events <= run && i < |End(run).calls|
    ensures var t, t' := End(events).calls[i], End(run).calls[i];
            && t'.phase.Trying? && t'.phase.attempt.Second? && t'.phase.slot != t.phase.slot
            && |t'.used| == 2 && t'.used[0] == t.used[0] && t'.used[1].slot == t'.phase.slot
  {
    hide At, End, Good, Step;
    run := events + [Advance(i, Fails)];
    Extend(events, Advance(i, Fails));
    EvictsAndLooks(End(events), i);
    Extend(run, Advance(i, Fails));
    TakesTheCell(End(run), i);
    run := run + [Advance(i, Fails)];
    run := WaiterIsServed(run, i);
  }

  lemma EvictsAndLooks(s: State, i: nat)
    requires Good(s) && i < |s.calls| && s.calls[i].phase.Failed?
    requires s.calls[i].phase.attempt.First? && s.calls[i].phase.outcome.Fails?
    ensures var t, s' := s.calls[i], Step(s, Advance(i, Fails));
            && i < |s'.calls| && s'.calls[i] == t.(phase := NeedsCell) && |t.used| == 1
            && s'.cache.current != t.phase.slot
  {
    AdvanceStep(s, i, Fails);
    GoodCallOf(s, i);
    hide Step, Good;
    FailureReplaces(s.cache, i, s.calls[i], Fails, s.now);
    hide GoodCache;
  }

  lemma TakesTheCell(s: State, i: nat)
    requires Good(s) && i < |s.calls| && s.calls[i].phase.NeedsCell?
    ensures var t, s' := s.calls[i], Step(s, Advance(i, Fails));
            i < |s'.calls| && s'.calls[i] == t.(phase := Filling(s.cache.current))
  {
    AdvanceStep(s, i, Fails);
    hide Step, Good;
  }
}
