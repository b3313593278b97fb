/**
 What a guest node gets done (sdk/src/guest_node.rs): a terminal close is recorded, a host's
 verdict on the app's version is written, a request on a live share reaches the transport, and
 one asked for during a probe waits for its verdict.
 */
module GuestRuns {
  import opened Prelude
  import opened GuestSession

  //-- A task past its restore has a node -------------------------------------------------------

  predicate NeedsNode(p: Phase) {
    !p.Looking? && !p.Restoring? && !p.Done?
  }

  ghost predicate Noded(s: State) {
    forall i :: 0 <= i < |s.tasks| && NeedsNode(s.tasks[i].phase) ==> s.node.Some?
  }

  lemma NodedStep(s: State, e: Event)
    requires Noded(s)
    ensures Noded(Step(s, e))
    ensures e != Restart && s.node.Some? ==> Step(s, e).node.Some?
  {
    hide TerminalOf;
    var s' := Step(s, e);
    if e.Advance? && e.task < |s.tasks| {
      OwnNoded(s, e.task, e.outcome, e.flag);
      forall i | 0 <= i < |s'.tasks| && NeedsNode(s'.tasks[i].phase) ensures s'.node.Some? {
        if i != e.task {
          OthersUnmoved(s, e, i);
        }
      }
    }
  }

  lemma OwnNoded(s: State, i: nat, o: Outcome, flag: bool)
    requires i < |s.tasks| && (NeedsNode(s.tasks[i].phase) ==> s.node.Some?)
    ensures var s' := Advanced(s, i, o, flag);
            && (s.node.Some? ==> s'.node.Some?)
            && i < |s'.tasks| && (NeedsNode(s'.tasks[i].phase) ==> s'.node.Some?)
  {
    hide TerminalOf;
  }

  lemma {:induction false} RunIsNoded(events: seq<Event>, k: nat)
    requires k <= |events|
    ensures Noded(At(events, k))
  {
    hide Step;
    if k > 0 {
      hide At, Noded;
      RunIsNoded(events, k - 1);
      RunStep(events, k - 1);
      NodedStep(At(events, k - 1), events[k - 1]);
    }
  }

  //-- A terminal close is recorded ---------------------------------------------------------------

  /** What an answer in the transport does to the call: close codes 1 and 2 go on record. */
  lemma TerminalIsTaken(s: State, i: nat, o: Outcome, flag: bool, state: TerminalState)
    requires i < |s.tasks| && (s.tasks[i].phase.Opening? || s.tasks[i].phase.Probing?)
    requires o == FailsWith(Some(ApplicationClosed(if state.Removed? then 1 else 2)))
    ensures i < |Advanced(s, i, o, flag).tasks| && Advanced(s, i, o, flag).tasks[i].phase == Marking(state)
  {
    OnlyCodesOneAndTwo(o.reason.value);
  }

  lemma CarriedOn(s: State, i: nat, o: Outcome, flag: bool, state: TerminalState)
    requires i < |s.tasks| && s.node.Some? && Carries(s.tasks[i].phase, state)
    ensures var s' := Advanced(s, i, o, flag);
            && i < |s'.tasks|
            && (s.tasks[i].phase.Marking? ==> s'.tasks[i].phase == Recording(state))
            && (s.tasks[i].phase.Recording? ==> s'.tasks[i].phase.Done? && s'.row == s.row.(terminal := Some(state)))
  {
  }

  lemma TaskStays(s: State, e: Event, i: nat)
    requires i < |s.tasks| && e != Restart && !(e.Advance? && e.task == i)
    ensures i < |Step(s, e).tasks| && Step(s, e).tasks[i] == s.tasks[i]
  {
    if e.Advance? {
      OthersUnmoved(s, e, i);
    }
  }

  /** At step `r` task `i` writes `state` to the store. */
  ghost predicate Records(events: seq<Event>, r: nat, i: nat, state: TerminalState)
    requires r < |events|
  {
    events[r].Advance? && events[r].task == i && i < |At(events, r).tasks| && At(events, r).tasks[i].phase == Recording(state)
  }

  /** A task that carries a terminal state has recorded it by the time it is done. */
  lemma {:induction false} CarrierRecords(events: seq<Event>, m: nat, k: nat, i: nat, state: TerminalState) returns (r: nat)
    requires m <= k <= |events| && i < |At(events, m).tasks| && Carries(At(events, m).tasks[i].phase, state)
    requires i < |At(events, k).tasks| && At(events, k).tasks[i].phase.Done?
    requires forall n :: m <= n < k ==> events[n] != Restart
    ensures m <= r < k && Records(events, r, i, state) && At(events, r + 1).row.terminal == Some(state)
    decreases k - m
  {
    hide At, Step, Advanced;
    var s, e := At(events, m), events[m];
    RunStep(events, m);
    RunIsNoded(events, m);
    if e.Advance? && e.task == i {
      CarriedOn(s, i, e.outcome, e.flag, state);
      AdvanceIs(s, e);
      if s.tasks[i].phase.Recording? {
        return m;
      }
    } else {
      TaskStays(s, e, i);
    }
    r := CarrierRecords(events, m + 1, k, i, state);
  }

  lemma AdvanceIs(s: State, e: Event)
    requires e.Advance? && e.task < |s.tasks|
    ensures Step(s, e) == Advanced(s, e.task, e.outcome, e.flag)
  {
    hide Advanced;
  }

  lemma RowStep(s: State, e: Event)
    ensures var s' := Step(s, e);
            s'.row.terminal == s.row.terminal
            || (e.Advance? && e.task < |s.tasks| && s.tasks[e.task].phase.Recording?
                && s'.row.terminal == Some(s.tasks[e.task].phase.state))
  {
    hide TerminalOf;
  }

  /** What is recorded stays unless a task records after it. */
  lemma {:induction false} RecordStays(events: seq<Event>, m: nat, k: nat, state: TerminalState)
    requires m <= k <= |events| && At(events, m).row.terminal == Some(state)
    ensures At(events, k).row.terminal == Some(state)
            || exists n, t, other :: m <= n < k && Records(events, n, t, other) && At(events, k).row.terminal == Some(other)
    decreases k
  {
    hide At, Step, Records;
    if m < k {
      RecordStays(events, m, k - 1, state);
      RunStep(events, k - 1);
      var s, e := At(events, k - 1), events[k - 1];
      RowStep(s, e);
      if At(events, k).row.terminal != s.row.terminal {
        WritesAre(events, k - 1);
      }
    }
  }

  lemma WritesAre(events: seq<Event>, n: nat)
    requires n < |events| && events[n].Advance? && events[n].task < |At(events, n).tasks|
    requires At(events, n).tasks[events[n].task].phase.Recording?
    ensures Records(events, n, events[n].task, At(events, n).tasks[events[n].task].phase.state)
  {
    hide At;
  }

  /**
   A request or probe whose connection the host closed with code 1 or 2 has, by the time it is
   done, made the share removed or revoked for good: the node is dead, the store has a terminal
   state, and it is this one unless another task recorded one later.
   */
  lemma TerminalIsRecorded(events: seq<Event>, j: nat, k: nat, i: nat, state: TerminalState)
    requires j < k <= |events| && events[j].Advance? && events[j].task == i && i < |At(events, j).tasks|
    requires At(events, j).tasks[i].phase.Opening? || At(events, j).tasks[i].phase.Probing?
    requires events[j].outcome == FailsWith(Some(ApplicationClosed(if state.Removed? then 1 else 2)))
    requires i < |At(events, k).tasks| && At(events, k).tasks[i].phase.Done?
    requires forall n :: j <= n < k ==> events[n] != Restart
    ensures At(events, k).node.Some? && At(events, k).node.value.dead.Some?
    ensures At(events, k).row.terminal.Some?
    ensures (ReadShare(At(events, k).row) == if state.Removed? then ShareRemoved else ShareRevoked)
            || exists n, t, other :: j < n < k && t != i && Records(events, n, t, other) && At(events, k).row.terminal == Some(other)
  {
    hide At, Step, Advanced, Records, Carries;
    var s, e := At(events, j), events[j];
    RunStep(events, j);
    AdvanceIs(s, e);
    TerminalIsTaken(s, i, e.outcome, e.flag, state);
    assert Carries(Marking(state), state) by { MarkingCarries(state); }
    var r := CarrierRecords(events, j + 1, k, i, state);
    DeadAtRecord(events, r, k, i, state);
    RecordStays(events, r + 1, k, state);
    if At(events, k).row.terminal == Some(state) {
      TerminalReads(At(events, k).row, state);
    } else {
      var n, t, other :| r + 1 <= n < k && Records(events, n, t, other) && At(events, k).row.terminal == Some(other);
      if t == i {
        RecordsOnce(events, r, n, i, state, other);
      }
    }
  }

  lemma MarkingCarries(state: TerminalState)
    ensures Carries(Marking(state), state)
  {
  }

  lemma TerminalReads(row: Row, state: TerminalState)
    requires row.terminal == Some(state)
    ensures ReadShare(row) == if state.Removed? then ShareRemoved else ShareRevoked
  {
  }

  lemma DeadAtRecord(events: seq<Event>, r: nat, k: nat, i: nat, state: TerminalState)
    requires r < k <= |events| && Records(events, r, i, state)
    requires forall n :: r <= n < k ==> events[n] != Restart
    ensures At(events, k).node.Some? && At(events, k).node.value.dead.Some?
  {
    hide At, Step;
    RunIsGood(events, r);
    assert GoodTask(At(events, r).row, At(events, r).node, At(events, r).tasks[i].phase);
    DeadIsAbsorbing(events, r, k);
  }

  lemma DoneStays(s: State, e: Event, i: nat)
    requires i < |s.tasks| && s.tasks[i].phase.Done? && e != Restart
    ensures i < |Step(s, e).tasks| && Step(s, e).tasks[i].phase.Done?
  {
    if !(e.Advance? && e.task == i) {
      TaskStays(s, e, i);
    }
  }

  /** A task records once: afterwards it is done. */
  lemma {:induction false} DoneForGood(events: seq<Event>, m: nat, n: nat, i: nat)
    requires m <= n <= |events| && i < |At(events, m).tasks| && At(events, m).tasks[i].phase.Done?
    requires forall x :: m <= x < n ==> events[x] != Restart
    ensures i < |At(events, n).tasks| && At(events, n).tasks[i].phase.Done?
    decreases n
  {
    hide At, Step;
    if m < n {
      DoneForGood(events, m, n - 1, i);
      RunStep(events, n - 1);
      DoneStays(At(events, n - 1), events[n - 1], i);
    }
  }

  lemma RecordsOnce(events: seq<Event>, r: nat, n: nat, i: nat, state: TerminalState, other: TerminalState)
    requires r < n < |events| && Records(events, r, i, state) && forall x :: r <= x < n ==> events[x] != Restart
    ensures !Records(events, n, i, other)
  {
    hide At, Step, Advanced;
    var s := At(events, r);
    RunStep(events, r);
    RunIsNoded(events, r);
    AdvanceIs(s, events[r]);
    CarriedOn(s, i, events[r].outcome, events[r].flag, state);
    DoneForGood(events, r + 1, n, i);
  }

  //-- The host's verdict on the version ----------------------------------------------------------

  /** A refresh the host answered has written, by the time it is done, whether the app is too old. */
  lemma {:induction false} VerdictIsWritten(events: seq<Event>, m: nat, k: nat, i: nat, outdated: bool) returns (r: nat)
    requires m < k <= |events| && i < |At(events, m).tasks|
    requires (At(events, m).tasks[i].phase.Fetching? && events[m] == Advance(i, Succeeds, outdated))
             || At(events, m).tasks[i].phase == WritingOutdated(outdated)
    requires i < |At(events, k).tasks| && At(events, k).tasks[i].phase.Done?
    requires forall n :: m <= n < k ==> events[n] != Restart
    ensures m <= r < k && At(events, r + 1).row.outdated == outdated && At(events, r + 1).row.terminal == At(events, r).row.terminal
    ensures events[r].Advance? && events[r].task == i
    decreases k - m
  {
    hide At, Step, Advanced;
    var s, e := At(events, m), events[m];
    RunStep(events, m);
    if e.Advance? && e.task == i {
      AdvanceIs(s, e);
      VerdictStep(s, i, e.outcome, e.flag);
      if s.tasks[i].phase.WritingOutdated? {
        return m;
      }
    } else {
      TaskStays(s, e, i);
    }
    assert m + 1 < k;
    r := VerdictIsWritten(events, m + 1, k, i, outdated);
  }

  lemma VerdictStep(s: State, i: nat, o: Outcome, flag: bool)
    requires i < |s.tasks|
    ensures var s' := Advanced(s, i, o, flag);
            && i < |s'.tasks|
            && (s.tasks[i].phase.Fetching? && o.Succeeds? ==> s'.tasks[i].phase == WritingOutdated(flag))
            && (s.tasks[i].phase.WritingOutdated? ==> s'.row == s.row.(outdated := s.tasks[i].phase.outdated))
  {
  }

  /** The share is shown as outdated exactly while the verdict says so and no terminal state is recorded. */
  lemma OutdatedIsShown(row: Row)
    ensures ReadShare(row).Outdated? <==> row.outdated && row.terminal.None?
    ensures ReadShare(row).Live? <==> !row.outdated && row.terminal.None?
  {
  }

  //-- The gate -----------------------------------------------------------------------------------

  /** Whoever holds the gate is a probe still at work. */
  ghost predicate Gated(s: State) {
    s.node.Some? && s.node.value.gate.Some? ==> AtWork(s, s.node.value.gate.value)
  }

  predicate AtWork(s: State, g: nat) {
    g < |s.tasks| && s.tasks[g].kind.Probe? && ProbesOn(s.tasks[g].phase)
  }

  predicate ProbesOn(p: Phase) {
    p.Probing? || p.Checking? || p.Opening? || p.Marking? || p.Recording?
  }

  lemma OwnGated(s: State, i: nat, o: Outcome, flag: bool)
    requires i < |s.tasks| && Gated(s) && (NeedsNode(s.tasks[i].phase) ==> s.node.Some?)
    ensures var s' := Advanced(s, i, o, flag);
            && i < |s'.tasks|
            && (s'.node.Some? && s'.node.value.gate.Some? ==>
                  && (s'.node.value.gate == Some(i) ==> s'.tasks[i].kind.Probe? && ProbesOn(s'.tasks[i].phase))
                  && (s'.node.value.gate != Some(i) ==> s.node.Some? && s'.node.value.gate == s.node.value.gate))
  {
    hide TerminalOf, Finished, ReadShare;
  }

  lemma GatedStep(s: State, e: Event)
    requires Gated(s) && Noded(s)
    ensures Gated(Step(s, e))
  {
    if e.Advance? && e.task < |s.tasks| {
      OwnGated(s, e.task, e.outcome, e.flag);
      AdvanceIs(s, e);
      var s' := Step(s, e);
      if s'.node.Some? && s'.node.value.gate.Some? && s'.node.value.gate != Some(e.task) {
        OthersUnmoved(s, e, s'.node.value.gate.value);
      }
      hide Advanced;
    }
  }

  lemma {:induction false} RunIsGated(events: seq<Event>, k: nat)
    requires k <= |events|
    ensures Gated(At(events, k))
  {
    hide Step;
    if k > 0 {
      hide At, Gated, Noded;
      RunIsGated(events, k - 1);
      RunIsNoded(events, k - 1);
      RunStep(events, k - 1);
      GatedStep(At(events, k - 1), events[k - 1]);
    }
  }

  /**
   A request asked for during a probe waits: while the gate is held, by a probe still at work,
   no waiting task gets any further.
   */
  lemma WaitsForTheVerdict(events: seq<Event>, k: nat, i: nat, o: Outcome, flag: bool)
    requires k < |events| && events[k] == Advance(i, o, flag)
    requires i < |At(events, k).tasks| && At(events, k).tasks[i].phase.Waiting?
    requires At(events, k).node.Some? && At(events, k).node.value.gate.Some?
    ensures At(events, k + 1) == At(events, k) && AtWork(At(events, k), At(events, k).node.value.gate.value)
  {
    RunIsGated(events, k);
    RunStep(events, k);
    hide At;
  }

  //-- A request on a live share goes out -----------------------------------------------------------

  function End(events: seq<Event>): State {
    At(events, |events|)
  }

  lemma {:induction false} SamePrefix(a: seq<Event>, b: seq<Event>, k: nat)
    requires a <= b && k <= |a|
    ensures At(a, k) == At(b, k)
  {
    hide Step;
    if k > 0 {
      hide At;
      SamePrefix(a, b, k - 1);
      RunStep(a, k - 1);
      RunStep(b, k - 1);
      assert a[k - 1] == b[k - 1];
    }
  }

  lemma Extend(events: seq<Event>, e: Event)
    ensures End(events + [e]) == Step(End(events), e)
  {
    hide At, Step;
    SamePrefix(events, events + [e], |events|);
    RunStep(events + [e], |events|);
  }

  /** The share is neither ended nor being probed. */
  predicate Available(s: State) {
    && s.row.terminal.None?
    && (s.node.Some? ==> s.node.value.dead.None? && s.node.value.gate.None?)
  }

  /** From any run that leaves the share live and unprobed, a request or refresh reaches the transport. */
  lemma RequestReachesTheTransport(events: seq<Event>, kind: Kind) returns (run: seq<Event>)
    requires Available(End(events)) && !kind.Probe?
    ensures events <= run
    ensures var s, s', i := End(events), End(run), |End(events).tasks|;
            && i < |s'.tasks| && s'.tasks[i] == Task(kind, Opening) && s'.opens == s.opens + 1
            && s'.row == s.row && s'.node.Some? && s'.node.value.dead.None?
  {
    hide At, End, Step, Advanced;
    var i := |End(events).tasks|;
    var go := Advance(i, Succeeds, true);
    Extend(events, Start(kind));
    StartStep(End(events), kind);
    run := events + [Start(kind)];
    for n := 0 to 4
      invariant events <= run && i < |End(run).tasks| && Available(End(run)) && End(run).row == End(events).row
      invariant End(run).tasks[i] == Task(kind, [Looking, Restoring, Waiting, Checking, Opening][n])
      invariant n >= 2 ==> End(run).node.Some?
      invariant End(run).opens == if n < 4 then End(events).opens else End(events).opens + 1
    {
      GoesOn(End(run), i);
      AdvanceIs(End(run), go);
      Extend(run, go);
      run := run + [go];
    }
  }

  lemma StartStep(s: State, kind: Kind)
    requires !kind.Probe?
    ensures Step(s, Start(kind)) == s.(tasks := s.tasks + [Task(kind, Looking)])
  {
  }

  lemma GoesOn(s: State, i: nat)
    requires i < |s.tasks| && Available(s) && !s.tasks[i].kind.Probe?
    requires s.tasks[i].phase.Waiting? || s.tasks[i].phase.Checking? ==> s.node.Some?
    ensures var p, s' := s.tasks[i].phase, Advanced(s, i, Succeeds, true);
            p.Looking? || p.Restoring? || p.Waiting? || p.Checking? ==>
              && |s'.tasks| == |s.tasks| && s'.row == s.row && Available(s') && s'.tasks[i].kind == s.tasks[i].kind
              && (p.Looking? ==> s'.tasks[i].phase.Restoring?)
              && (p.Restoring? ==> s'.tasks[i].phase.Waiting?)
              && (p.Waiting? ==> s'.tasks[i].phase.Checking?)
              && (p.Checking? ==> s'.tasks[i].phase.Opening?)
              && (!p.Looking? ==> s'.node.Some?)
              && s'.opens == if p.Checking? then s.opens + 1 else s.opens
  {
  }

  /** A refresh that gets its stream and its answer writes the verdict and ends. */
  lemma RefreshCompletes(events: seq<Event>, outdated: bool) returns (run: seq<Event>)
    requires Available(End(events))
    ensures events <= run
    ensures var i := |End(events).tasks|;
            && i < |End(run).tasks| && End(run).tasks[i] == Task(Refresh, Done)
            && End(run).row == End(events).row.(outdated := outdated)
  {
    hide At, End, Step, Advanced;
    var i := |End(events).tasks|;
    var go := Advance(i, Succeeds, outdated);
    run := RequestReachesTheTransport(events, Refresh);
    for n := 0 to 3
      invariant events <= run && i < |End(run).tasks|
      invariant End(run).tasks[i] == Task(Refresh, [Opening, Fetching, WritingOutdated(outdated), Done][n])
      invariant End(run).row == if n < 3 then End(events).row else End(events).row.(outdated := outdated)
    {
      RefreshGoesOn(End(run), i, outdated);
      AdvanceIs(End(run), go);
      Extend(run, go);
      run := run + [go];
    }
  }

  lemma RefreshGoesOn(s: State, i: nat, outdated: bool)
    requires i < |s.tasks| && s.tasks[i].kind.Refresh?
    ensures var p, s' := s.tasks[i].phase, Advanced(s, i, Succeeds, outdated);
            && |s'.tasks| == |s.tasks| && s'.tasks[i].kind.Refresh?
            && (p.Opening? ==> s'.tasks[i].phase.Fetching? && s'.row == s.row)
            && (p.Fetching? ==> s'.tasks[i].phase == WritingOutdated(outdated) && s'.row == s.row)
            && (p.WritingOutdated? ==> s'.tasks[i].phase.Done? && s'.row == s.row.(outdated := p.outdated))
  {
  }

  /** A probe that learns nothing final redials exactly a share in recent use that is not dead. */
  lemma ProbeRedials(s: State, i: nat, reason: Option<Reason>, recent: bool)
    requires i < |s.tasks| && s.tasks[i].phase.Probing? && TerminalOf(FailsWith(reason)).None? && s.node.Some?
    ensures var s1 := Advanced(s, i, FailsWith(reason), recent);
            && i < |s1.tasks| && (s1.tasks[i].phase.Checking? <==> recent) && (s1.tasks[i].phase.Done? <==> !recent)
            && (recent ==>
                  var s2 := Advanced(s1, i, Succeeds, true);
                  s2.opens == if s.node.value.dead.None? then s.opens + 1 else s.opens)
  {
  }
}
