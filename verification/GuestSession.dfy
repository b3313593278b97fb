/**
 One share on one device over iroh (sdk/src/guest_node.rs, lib.rs, storage.rs,
 iroh_transport.rs): how a terminal close becomes a permanent local state. Stream requests,
 refreshes and probes interleave at every await, and the process may restart at any time.
 Writes to the store succeed.
 */
module GuestSession {
  import opened Prelude
  import H = HostProtocol

  //-- Close codes -----------------------------------------------------------------------------

  datatype TerminalState = Removed | Revoked

  /** Why a connection ended: an application close carries a code, everything else does not. */
  datatype Reason = ApplicationClosed(code: nat) | OtherReason

  function Code(c: H.CloseCode): nat {
    match c
    case Closing => 0
    case Unknown => 1
    case Revoked => 2
  }

  function FromCode(code: nat): Option<H.CloseCode> {
    match code
    case 0 => Some(H.Closing)
    case 1 => Some(H.Unknown)
    case 2 => Some(H.Revoked)
    case _ => None
  }

  function TerminalFromClose(r: Reason): Option<TerminalState> {
    match r
    case ApplicationClosed(code) =>
      (match FromCode(code)
       case Some(Unknown) => Some(Removed)
       case Some(Revoked) => Some(Revoked)
       case _ => None)
    case OtherReason => None
  }

  /** Only an application close with code 1 or 2 is terminal, and a host's close means what it sent. */
  lemma OnlyCodesOneAndTwo(r: Reason)
    ensures TerminalFromClose(r) == Some(Removed) <==> r == ApplicationClosed(1)
    ensures TerminalFromClose(r) == Some(Revoked) <==> r == ApplicationClosed(2)
    ensures forall c: H.CloseCode :: FromCode(Code(c)) == Some(c)
    ensures forall c: H.CloseCode :: TerminalFromClose(ApplicationClosed(Code(c))).Some? <==> c.Unknown? || c.Revoked?
  {
  }

  //-- State -----------------------------------------------------------------------------------

  datatype Row = Row(terminal: Option<TerminalState>, outdated: bool)

  /** The restored guest node: its `dead` mark, and the probe holding the gate. */
  datatype Node = Node(dead: Option<TerminalState>, gate: Option<nat>)

  datatype Kind = Stream | Refresh | Probe

  /** What the network answers; a failure may carry the reason the connection ended. */
  datatype Outcome = Succeeds | FailsWith(reason: Option<Reason>)

  datatype Phase =
    | Looking
    | Restoring
    | Waiting
    | Checking
    | Opening
    | Probing
    | Marking(state: TerminalState)
    | Recording(state: TerminalState)
    | Fetching
    | WritingOutdated(outdated: bool)
    | Done

  datatype Task = Task(kind: Kind, phase: Phase)

  /** `opens` counts the calls that reached the transport's `open_stream`. */
  datatype State = State(row: Row, node: Option<Node>, tasks: seq<Task>, opens: nat)

  datatype Event = Start(kind: Kind) | Advance(task: nat, outcome: Outcome, flag: bool) | Restart

  const JOINED := State(Row(None, false), None, [], 0)

  function TerminalOf(o: Outcome): Option<TerminalState> {
    if o.FailsWith? && o.reason.Some? then TerminalFromClose(o.reason.value) else None
  }

  /** The share's state as the SDK presents it. */
  datatype ShareState = Live | Outdated | ShareRemoved | ShareRevoked

  function ReadShare(row: Row): ShareState {
    match row.terminal
    case None => if row.outdated then Outdated else Live
    case Some(Removed) => ShareRemoved
    case Some(Revoked) => ShareRevoked
  }

  //-- Steps -----------------------------------------------------------------------------------

  function Moved(s: State, i: nat, p: Phase): State
    requires i < |s.tasks|
  {
    s.(tasks := s.tasks[i := s.tasks[i].(phase := p)])
  }

  /** The task ends, giving the gate back if it held it. */
  function Finished(s: State, i: nat): (r: State)
    requires i < |s.tasks|
    ensures |r.tasks| == |s.tasks| && r.tasks[i].phase.Done? && r.row == s.row
    ensures r.node.Some? == s.node.Some? && (r.node.Some? ==> r.node.value.dead == s.node.value.dead)
    ensures r.node.Some? ==> r.node.value.gate == if s.node.value.gate == Some(i) then None else s.node.value.gate
  {
    var t := Moved(s, i, Done);
    if t.node.Some? && t.node.value.gate == Some(i) then t.(node := Some(t.node.value.(gate := None))) else t
  }

  function WithNode(s: State, node: Node): State {
    s.(node := Some(node))
  }

  /** `flag`: whether a restore succeeds, whether the share was used recently, whether the host says 426. */
  function Advanced(s: State, i: nat, o: Outcome, flag: bool): State
    requires i < |s.tasks|
  {
    var t := s.tasks[i];
    match t.phase
    case Looking => if s.row.terminal.Some? then Finished(s, i) else Moved(s, i, Restoring)
    case Restoring =>
      if s.node.Some? then Moved(s, i, Waiting)
      else if flag then Moved(WithNode(s, Node(None, None)), i, Waiting)
      else Finished(s, i)
    case Waiting =>
      if s.node.None? then Finished(s, i)
      else if s.node.value.gate.Some? then s
      else if t.kind.Probe? then Moved(WithNode(s, s.node.value.(gate := Some(i))), i, Probing)
      else Moved(s, i, Checking)
    case Checking =>
      if s.node.None? || s.node.value.dead.Some? then Finished(s, i)
      else Moved(s, i, Opening).(opens := s.opens + 1)
    case Opening =>
      if o.Succeeds? then (if t.kind.Refresh? then Moved(s, i, Fetching) else Finished(s, i))
      else (match TerminalOf(o) case Some(state) => Moved(s, i, Marking(state)) case None => Finished(s, i))
    case Probing =>
      if o.Succeeds? then Finished(s, i)
      else (match TerminalOf(o)
            case Some(state) => Moved(s, i, Marking(state))
            case None => if flag then Moved(s, i, Checking) else Finished(s, i))
    case Marking(state) =>
      if s.node.None? then Finished(s, i)
      else Moved(WithNode(s, s.node.value.(dead := Some(state))), i, Recording(state))
    case Recording(state) => Finished(s.(row := s.row.(terminal := Some(state))), i)
    case Fetching => if o.Succeeds? then Moved(s, i, WritingOutdated(flag)) else Finished(s, i)
    case WritingOutdated(outdated) => Finished(s.(row := s.row.(outdated := outdated)), i)
    case Done => s
  }

  /** A probe only looks at nodes that exist; everything else restores first. */
  function Step(s: State, e: Event): (r: State)
    ensures e.Start? ==> |r.tasks| == |s.tasks| + 1
    ensures e.Advance? ==> |r.tasks| == |s.tasks|
  {
    match e
    case Start(kind) =>
      s.(tasks := s.tasks + [Task(kind, if kind.Probe? then (if s.node.Some? then Waiting else Done) else Looking)])
    case Advance(i, o, flag) => if i < |s.tasks| then Advanced(s, i, o, flag) else s
    case Restart => State(s.row, None, [], s.opens)
  }

  function At(events: seq<Event>, k: nat): State
    requires k <= |events|
  {
    if k == 0 then JOINED else Step(At(events, k - 1), events[k - 1])
  }

  lemma RunStep(events: seq<Event>, k: nat)
    requires k < |events|
    ensures At(events, k + 1) == Step(At(events, k), events[k])
  {
  }

  //-- What every step keeps ---------------------------------------------------------------------

  /** The store never knows of a terminal state that the running node does not. */
  ghost predicate Good(s: State) {
    && (s.row.terminal.Some? && s.node.Some? ==> s.node.value.dead.Some?)
    && (forall i :: 0 <= i < |s.tasks| ==> GoodTask(s.row, s.node, s.tasks[i].phase))
  }

  predicate GoodTask(row: Row, node: Option<Node>, p: Phase) {
    && (p.Recording? ==> node.Some? && node.value.dead.Some?)
    && (p.Restoring? && row.terminal.Some? ==> node.Some?)
  }

  /** Nothing a step does makes another task's situation worse. */
  lemma OthersStay(s: State, e: Event, p: Phase)
    requires Good(s) && e.Advance? && GoodTask(s.row, s.node, p)
    ensures var s' := Step(s, e); GoodTask(s'.row, s'.node, p)
  {
    if e.task < |s.tasks| {
      assert GoodTask(s.row, s.node, s.tasks[e.task].phase);
    }
  }

  lemma OwnStep(s: State, e: Event)
    requires Good(s) && e.Advance? && e.task < |s.tasks|
    ensures var s' := Step(s, e);
            && (s'.row.terminal.Some? && s'.node.Some? ==> s'.node.value.dead.Some?)
            && GoodTask(s'.row, s'.node, s'.tasks[e.task].phase)
  {
    assert GoodTask(s.row, s.node, s.tasks[e.task].phase);
    hide Good;
    GoodTaskKeeps(s, e.task, e.outcome, e.flag);
  }

  lemma GoodTaskKeeps(s: State, i: nat, o: Outcome, flag: bool)
    requires i < |s.tasks| && GoodTask(s.row, s.node, s.tasks[i].phase)
    requires s.row.terminal.Some? && s.node.Some? ==> s.node.value.dead.Some?
    ensures var s' := Advanced(s, i, o, flag);
            && (s'.row.terminal.Some? && s'.node.Some? ==> s'.node.value.dead.Some?)
            && i < |s'.tasks| && GoodTask(s'.row, s'.node, s'.tasks[i].phase)
  {
    hide TerminalOf, Finished;
  }

  /** A step moves no task but its own. */
  lemma OthersUnmoved(s: State, e: Event, i: nat)
    requires e.Advance? && i < |s.tasks| && i != e.task
    ensures i < |Step(s, e).tasks| && Step(s, e).tasks[i] == s.tasks[i]
  {
    hide TerminalOf;
  }

  lemma StepKeepsGood(s: State, e: Event)
    requires Good(s)
    ensures Good(Step(s, e))
  {
    var s' := Step(s, e);
    if e.Advance? && e.task < |s.tasks| {
      OwnStep(s, e);
      hide Step;
      forall i | 0 <= i < |s'.tasks| ensures GoodTask(s'.row, s'.node, s'.tasks[i].phase) {
        if i != e.task {
          OthersUnmoved(s, e, i);
          OthersStay(s, e, s.tasks[i].phase);
        }
      }
    }
  }

  lemma {:induction false} RunIsGood(events: seq<Event>, k: nat)
    requires k <= |events|
    ensures Good(At(events, k))
  {
    if k > 0 {
      hide Good, Step;
      RunIsGood(events, k - 1);
      StepKeepsGood(At(events, k - 1), events[k - 1]);
    }
  }

  lemma TerminalStep(s: State, e: Event)
    requires Good(s) && s.row.terminal.Some?
    ensures var s' := Step(s, e);
            && s'.row.terminal.Some? && s'.opens == s.opens
            && (s.node.None? ==> s'.node.None?)
  {
    if e.Advance? && e.task < |s.tasks| {
      assert GoodTask(s.row, s.node, s.tasks[e.task].phase);
    }
  }

  /**
   A terminal state is absorbing: from the moment the store has it, the share stays removed
   or revoked, never live or outdated again, across refreshes, probes and restarts; and no
   stream request and no probe reaches the transport's dialling again.
   */
  lemma {:induction false} TerminalIsAbsorbing(events: seq<Event>, j: nat, k: nat)
    requires j <= k <= |events| && At(events, j).row.terminal.Some?
    ensures At(events, k).row.terminal.Some?
    ensures ReadShare(At(events, k).row).ShareRemoved? || ReadShare(At(events, k).row).ShareRevoked?
    ensures At(events, k).opens == At(events, j).opens
    ensures At(events, j).node.None? ==> At(events, k).node.None?
    decreases k
  {
    hide At, Step, Good;
    if j < k {
      TerminalIsAbsorbing(events, j, k - 1);
      RunIsGood(events, k - 1);
      RunStep(events, k - 1);
      TerminalStep(At(events, k - 1), events[k - 1]);
    }
  }

  /** A restart after that finds the share dead: no node is ever restored. */
  lemma RestartFindsItDead(events: seq<Event>, j: nat, i: nat, k: nat)
    requires j <= i < k <= |events| && At(events, j).row.terminal.Some? && events[i] == Restart
    ensures At(events, k).node.None?
  {
    TerminalIsAbsorbing(events, j, i);
    RunStep(events, i);
    TerminalIsAbsorbing(events, i + 1, k);
  }

  /** From the moment the node is marked dead, only calls already past the check are still in the transport. */
  lemma DeadStep(s: State, e: Event)
    requires s.node.Some? && s.node.value.dead.Some? && e != Restart
    ensures var s' := Step(s, e); s'.node.Some? && s'.node.value.dead.Some? && s'.opens == s.opens
  {
  }

  lemma {:induction false} DeadIsAbsorbing(events: seq<Event>, j: nat, k: nat)
    requires j <= k <= |events| && At(events, j).node.Some? && At(events, j).node.value.dead.Some?
    requires forall i :: j <= i < k ==> events[i] != Restart
    ensures At(events, k).node.Some? && At(events, k).node.value.dead.Some? && At(events, k).opens == At(events, j).opens
    decreases k
  {
    hide At, Step;
    if j < k {
      DeadIsAbsorbing(events, j, k - 1);
      RunStep(events, k - 1);
      DeadStep(At(events, k - 1), events[k - 1]);
    }
  }

  //-- What can cause it ---------------------------------------------------------------------------

  /** Event `j` brought a close that means `state`. */
  ghost predicate Caused(events: seq<Event>, j: nat, state: TerminalState)
    requires j < |events|
  {
    events[j].Advance? && events[j].outcome.FailsWith?
    && events[j].outcome.reason == Some(ApplicationClosed(if state.Removed? then 1 else 2))
  }

  /** `state` is on its way into the store, or there. */
  ghost predicate Present(s: State, state: TerminalState) {
    || s.row.terminal == Some(state)
    || exists i :: 0 <= i < |s.tasks| && Carries(s.tasks[i].phase, state)
  }

  predicate Carries(p: Phase, state: TerminalState) {
    p == Marking(state) || p == Recording(state)
  }

  lemma CarrierStep(s: State, i: nat, o: Outcome, flag: bool, state: TerminalState)
    requires i < |s.tasks| && !Carries(s.tasks[i].phase, state)
    ensures var s' := Advanced(s, i, o, flag);
            && (s'.row.terminal == Some(state) ==> s.row.terminal == Some(state))
            && (forall j :: 0 <= j < |s.tasks| && j != i ==> s'.tasks[j] == s.tasks[j])
            && |s'.tasks| == |s.tasks|
            && (Carries(s'.tasks[i].phase, state) ==> TerminalOf(o) == Some(state))
  {
  }

  lemma PresentStep(s: State, e: Event, state: TerminalState)
    requires Present(Step(s, e), state) && !Present(s, state)
    ensures e.Advance? && e.outcome.FailsWith? && e.outcome.reason == Some(ApplicationClosed(if state.Removed? then 1 else 2))
  {
    if e.Advance? && e.task < |s.tasks| {
      CarrierStep(s, e.task, e.outcome, e.flag, state);
      hide Advanced;
      assert TerminalOf(e.outcome) == Some(state);
      OnlyCodesOneAndTwo(e.outcome.reason.value);
    }
  }

  lemma {:induction false} CauseOf(events: seq<Event>, k: nat, state: TerminalState) returns (j: nat)
    requires k <= |events| && Present(At(events, k), state)
    ensures j < k && Caused(events, j, state)
  {
    assert k > 0;
    hide At, Step;
    RunStep(events, k - 1);
    if Present(At(events, k - 1), state) {
      j := CauseOf(events, k - 1, state);
    } else {
      j := k - 1;
      PresentStep(At(events, k - 1), events[k - 1], state);
    }
  }

  /** A recorded state was caused by an application close: code 1 for removed, code 2 for revoked. */
  lemma OnlyTheHostEndsAShare(events: seq<Event>, k: nat, state: TerminalState)
    requires k <= |events| && At(events, k).row.terminal == Some(state)
    ensures exists j :: 0 <= j < k && Caused(events, j, state)
  {
    hide At;
    var j := CauseOf(events, k, state);
  }

  //-- The guest node as the program keeps it ----------------------------------------------------------

  class StoredRow {
    var terminal: Option<TerminalState>
    var outdated: bool

    constructor ()
      ensures terminal == None && !outdated
    {
      terminal, outdated := None, false;
    }
  }

  datatype StreamResult = Opened | Terminal(state: TerminalState) | Transient

  class GuestNode {
    const row: StoredRow
    var dead: Option<TerminalState>
    var used: bool
    /** How often the transport's `open_stream` was called. */
    ghost var opens: nat

    ghost predicate Valid()
      reads this, row
    {
      row.terminal.Some? ==> dead.Some?
    }

    constructor (row: StoredRow)
      requires row.terminal.None?
      ensures Valid() && this.row == row && dead.None? && opens == 0
    {
      this.row, dead, used, opens := row, None, false, 0;
    }

    method RecordTerminalError(state: TerminalState)
      modifies this, row
      ensures Valid() && dead == Some(state) && row.terminal == Some(state)
      ensures row.outdated == old(row.outdated) && opens == old(opens) && used == old(used)
    {
      dead := Some(state);
      row.terminal := Some(state);
    }

    /** A dead node answers without the transport; a terminal answer makes it dead and is stored. */
    method OpenStreamUngated(o: Outcome) returns (r: StreamResult)
      requires Valid()
      modifies this, row
      ensures Valid() && row.outdated == old(row.outdated)
      ensures old(dead).Some? ==> r == Terminal(old(dead.value)) && opens == old(opens) && dead == old(dead) && row.terminal == old(row.terminal)
      ensures old(dead).None? ==>
                && opens == old(opens) + 1
                && (r == Opened <==> o.Succeeds?)
                && (forall s :: r == Terminal(s) <==> TerminalOf(o) == Some(s))
                && (r.Terminal? ==> dead == Some(r.state) && row.terminal == Some(r.state))
                && (!r.Terminal? ==> dead.None? && row.terminal == old(row.terminal))
    {
      if dead.Some? {
        return Terminal(dead.value);
      }
      opens := opens + 1;
      var terminal := TerminalOf(o);
      if terminal.Some? {
        RecordTerminalError(terminal.value);
        return Terminal(terminal.value);
      }
      if o.Succeeds? {
        used := true;
        return Opened;
      }
      return Transient;
    }

    /** A probe redials at most once, only a share in use, and never a dead one. */
    method CheckConnection(probe: Outcome, recent: bool, redial: Outcome)
      requires Valid()
      modifies this, row
      ensures Valid() && row.outdated == old(row.outdated)
      ensures opens <= old(opens) + 1
      ensures opens > old(opens) ==> old(dead).None? && old(used) && recent && !probe.Succeeds? && TerminalOf(probe).None?
      ensures old(dead).Some? ==> dead.Some?
      ensures dead != old(dead) ==> (TerminalOf(probe).Some? && dead == TerminalOf(probe)) || (TerminalOf(redial).Some? && dead == TerminalOf(redial))
      ensures row.terminal == old(row.terminal) || row.terminal == dead
    {
      if probe.Succeeds? {
        return;
      }
      var terminal := TerminalOf(probe);
      if terminal.Some? {
        RecordTerminalError(terminal.value);
        return;
      }
      if used && recent {
        var _ := OpenStreamUngated(redial);
      }
    }
  }
}
