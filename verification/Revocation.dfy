/**
 What a revoke reaches (waserver/src/serving.rs, iroh_transport.rs), over every run of the
 host protocol: the database write, the sweep of the registry, the wait, and the window
 between a connection's guest lookup and its registration.
 */
module Revocation {
  import opened Prelude
  import opened HostProtocol
  import L = Ledger

  //-- What the registry, the streams and the close codes have to do with each other ------------

  predicate Unserved(p: Phase) {
    !p.Serving? && !p.Ended?
  }

  ghost predicate TidyConn(registry: map<nat, Registration>, c: nat, conn: Conn) {
    && (Unserved(conn.phase) ==> conn.asked == [])
    && (conn.phase.Serving? ==>
          conn.phase.id in registry && registry[conn.phase.id] == Registration(Wrap32(conn.phase.number), conn.phase.user, c))
  }

  ghost predicate TidyEntry(s: State, id: nat)
    requires id in s.registry
  {
    && id < s.nextId && s.registry[id].conn < |s.conns|
    && s.conns[s.registry[id].conn].phase.Serving? && s.conns[s.registry[id].conn].phase.id == id
  }

  predicate TidyStream(conns: seq<Conn>, st: Stream) {
    && st.conn < |conns|
    && !conns[st.conn].phase.Accepted? && !conns[st.conn].phase.AwaitingStream?
    && (st.user.Some? ==> conns[st.conn].phase.Serving? || conns[st.conn].phase.Ended?)
  }

  /** The registry holds exactly the connections being served, and only those are ever asked to close. */
  ghost predicate Tidy(s: State) {
    && (forall c :: 0 <= c < |s.conns| ==> TidyConn(s.registry, c, s.conns[c]))
    && (forall id :: id in s.registry ==> TidyEntry(s, id))
    && (forall i :: 0 <= i < |s.streams| ==> TidyStream(s.conns, s.streams[i]))
  }

  lemma OnlyServedAreRegistered(s: State, c: nat, number: Option<int>)
    requires Tidy(s) && c < |s.conns|
    ensures Registered(s.registry, c, number) <==>
              s.conns[c].phase.Serving? && (number.None? || Wrap32(s.conns[c].phase.number) == number.value)
  {
    var p := s.conns[c].phase;
    assert TidyConn(s.registry, c, s.conns[c]);
    if Registered(s.registry, c, number) {
      var id :| id in s.registry && s.registry[id].conn == c && (number.None? || s.registry[id].number == number.value);
      assert TidyEntry(s, id);
    } else if p.Serving? {
      assert p.id in s.registry && s.registry[p.id].conn == c;
    }
  }

  /** Asking changes no phase, and only the served are asked. */
  lemma AskingKeeps(s: State, number: Option<int>, code: CloseCode)
    requires Tidy(s)
    ensures Tidy(s.(conns := Asking(s.conns, s.registry, number, code)))
  {
    var conns := Asking(s.conns, s.registry, number, code);
    var s' := s.(conns := conns);
    forall c | 0 <= c < |conns| ensures conns[c].phase == s.conns[c].phase && TidyConn(s.registry, c, conns[c]) {
      OnlyServedAreRegistered(s, c, number);
      assert TidyConn(s.registry, c, s.conns[c]);
    }
    forall id | id in s.registry ensures TidyEntry(s', id) {
      assert TidyEntry(s, id);
    }
    forall i | 0 <= i < |s.streams| ensures TidyStream(conns, s.streams[i]) {
      assert TidyStream(s.conns, s.streams[i]);
    }
  }

  /** A connection that is not registered moves to another unregistered phase. */
  lemma MovingKeeps(s: State, c: nat, conn: Conn)
    requires Tidy(s) && c < |s.conns| && !s.conns[c].phase.Serving? && !conn.phase.Serving?
    requires Unserved(conn.phase) ==> conn.asked == []
    requires conn.phase.Accepted? || conn.phase.AwaitingStream? ==> s.conns[c].phase.Accepted? || s.conns[c].phase.AwaitingStream?
    requires s.conns[c].phase.Ended? ==> conn.phase.Ended?
    ensures Tidy(s.(conns := s.conns[c := conn]))
  {
    var s' := s.(conns := s.conns[c := conn]);
    forall d | 0 <= d < |s'.conns| ensures TidyConn(s'.registry, d, s'.conns[d]) {
      assert TidyConn(s.registry, d, s.conns[d]);
    }
    forall id | id in s.registry ensures TidyEntry(s', id) {
      assert TidyEntry(s, id);
    }
    forall i | 0 <= i < |s.streams| ensures TidyStream(s'.conns, s.streams[i]) {
      assert TidyStream(s.conns, s.streams[i]);
    }
  }

  lemma ConnStepTidy(s: State, c: nat, e: Event)
    requires Tidy(s) && c < |s.conns|
    ensures Tidy(s.(conns := s.conns[c := ConnStep(s.tables, s.conns[c], e, s.now)]))
  {
    var conn := ConnStep(s.tables, s.conns[c], e, s.now);
    assert TidyConn(s.registry, c, s.conns[c]);
    if s.conns[c].phase.Serving? {
      assert conn == s.conns[c].(gone := conn.gone);
      hide ConnStep;
      var s' := s.(conns := s.conns[c := conn]);
      forall d | 0 <= d < |s'.conns| ensures TidyConn(s'.registry, d, s'.conns[d]) {
        assert TidyConn(s.registry, d, s.conns[d]);
      }
      forall id | id in s.registry ensures TidyEntry(s', id) {
        assert TidyEntry(s, id);
      }
      forall i | 0 <= i < |s.streams| ensures TidyStream(s'.conns, s.streams[i]) {
        assert TidyStream(s.conns, s.streams[i]);
      }
    } else {
      assert !conn.phase.Serving? && (Unserved(conn.phase) ==> conn.asked == []);
      MovingKeeps(s, c, conn);
    }
  }

  lemma AddingStream(s: State, st: Stream)
    requires Tidy(s) && TidyStream(s.conns, st)
    ensures Tidy(s.(streams := s.streams + [st]))
  {
    var s' := s.(streams := s.streams + [st]);
    forall id | id in s.registry ensures TidyEntry(s', id) {
      assert TidyEntry(s, id);
    }
  }

  lemma OpensTidy(s: State, c: nat, kind: Kind)
    requires Tidy(s) && c < |s.conns|
    ensures Tidy(Opens(s, c, kind))
  {
    var conn := s.conns[c];
    assert TidyConn(s.registry, c, conn);
    if conn.phase.AwaitingStream? {
      if DataPlane(kind) {
        MovingKeeps(s, c, Close(conn, Unknown));
      } else {
        MovingKeeps(s, c, conn.(phase := Activating));
        AddingStream(s.(conns := s.conns[c := conn.(phase := Activating)]), Stream(c, conn.peer, None, kind, None));
      }
    } else if conn.phase.Serving? {
      AddingStream(s, Stream(c, conn.peer, Some(conn.phase.user), kind, None));
    }
  }

  lemma RegistersTidy(s: State, c: nat)
    requires Tidy(s) && c < |s.conns|
    ensures Tidy(Registers(s, c))
  {
    var s' := Registers(s, c);
    forall id | id in s.registry ensures id < s.nextId {
      assert TidyEntry(s, id);
    }
    forall d | 0 <= d < |s'.conns| ensures TidyConn(s'.registry, d, s'.conns[d]) {
      assert TidyConn(s.registry, d, s.conns[d]);
    }
    forall id | id in s'.registry ensures TidyEntry(s', id) {
      assert id in s.registry ==> TidyEntry(s, id);
    }
    forall i | 0 <= i < |s.streams| ensures TidyStream(s'.conns, s.streams[i]) {
      assert TidyStream(s.conns, s.streams[i]);
    }
  }

  lemma EndsTidy(s: State, c: nat)
    requires Tidy(s) && c < |s.conns|
    ensures Tidy(Ends(s, c))
  {
    var s' := Ends(s, c);
    forall d | 0 <= d < |s'.conns| ensures TidyConn(s'.registry, d, s'.conns[d]) {
      assert TidyConn(s.registry, d, s.conns[d]) && TidyConn(s.registry, c, s.conns[c]);
    }
    forall id | id in s'.registry ensures TidyEntry(s', id) {
      assert TidyEntry(s, id);
    }
    forall i | 0 <= i < |s.streams| ensures TidyStream(s'.conns, s.streams[i]) {
      assert TidyStream(s.conns, s.streams[i]);
    }
  }

  /** Nothing the invariant speaks of has changed. */
  lemma SameTidy(s: State, s': State)
    requires Tidy(s) && s'.conns == s.conns && s'.registry == s.registry && s'.nextId == s.nextId
    requires |s'.streams| == |s.streams|
    requires forall i :: 0 <= i < |s.streams| ==> s'.streams[i] == s.streams[i].(leaving := s'.streams[i].leaving)
    ensures Tidy(s')
  {
    forall id | id in s.registry ensures TidyEntry(s', id) {
      assert TidyEntry(s, id);
    }
    forall i | 0 <= i < |s.streams| ensures TidyStream(s.conns, s'.streams[i]) {
      assert TidyStream(s.conns, s.streams[i]);
    }
  }

  lemma AcceptTidy(s: State, conn: Conn)
    requires Tidy(s) && conn.phase.Accepted? && conn.asked == []
    ensures Tidy(s.(conns := s.conns + [conn]))
  {
    var s' := s.(conns := s.conns + [conn]);
    forall d | 0 <= d < |s'.conns| ensures TidyConn(s'.registry, d, s'.conns[d]) {
      assert d < |s.conns| ==> TidyConn(s.registry, d, s.conns[d]);
    }
    forall id | id in s.registry ensures TidyEntry(s', id) {
      assert TidyEntry(s, id);
    }
    forall i | 0 <= i < |s.streams| ensures TidyStream(s'.conns, s.streams[i]) {
      assert TidyStream(s.conns, s.streams[i]);
    }
  }

  /** Events that touch no connection and no registration. */
  predicate Quiet(e: Event) {
    e.Mint? || e.Post? || e.BeginLeave? || e.FinishLeave? || e.Forward? || e.RevokeWrite? || e.Return?
  }

  lemma QuietTidy(s: State, e: Event)
    requires L.Valid(s.tables) && Tidy(s) && Quiet(e)
    ensures Tidy(Effect(s, e))
  {
    hide Tidy, L.Valid, L.Apply, Recorded, Injected;
    SameTidy(s, Effect(s, e));
  }

  lemma AskingTidy(s: State, e: Event)
    requires L.Valid(s.tables) && Tidy(s) && (e.Sweep? || e.Shutdown?)
    ensures Tidy(Effect(s, e))
  {
    hide Tidy, L.Valid, Asking;
    var s' := Effect(s, e);
    if e.Shutdown? {
      AskingKeeps(s, None, Closing);
    } else if e.revoke < |s.revokes| && s.revokes[e.revoke].phase.Written? {
      AskingKeeps(s, Some(s.revokes[e.revoke].number), Revoked);
      SameTidy(s.(conns := s'.conns), s');
    }
  }

  lemma MovingTidy(s: State, e: Event)
    requires L.Valid(s.tables) && Tidy(s) && !Quiet(e) && !e.Sweep? && !e.Shutdown?
    ensures Tidy(Effect(s, e))
  {
    hide Tidy, L.Valid, ConnStep, Opens, Registers, Ends;
    match e
    case Accept(peer) => AcceptTidy(s, Conn(peer, Accepted, false, [], 0, 0));
    case OpenStream(c, kind) => if c < |s.conns| { OpensTidy(s, c, kind); }
    case Register(c) => if c < |s.conns| { RegistersTidy(s, c); }
    case EndServing(c) => if c < |s.conns| { EndsTidy(s, c); }
    case _ => OwnTidy(s, e);
  }

  lemma OwnTidy(s: State, e: Event)
    requires L.Valid(s.tables) && Tidy(s) && !Quiet(e) && !e.Sweep? && !e.Shutdown?
    requires !e.Accept? && !e.OpenStream? && !e.Register? && !e.EndServing?
    ensures Tidy(Effect(s, e))
  {
    hide Tidy, L.Valid, ConnStep;
    if e.conn < |s.conns| {
      ConnStepTidy(s, e.conn, e);
    }
  }

  lemma EffectTidy(s: State, e: Event)
    requires L.Valid(s.tables) && Tidy(s)
    ensures Tidy(Effect(s, e))
  {
    hide Tidy, L.Valid, Effect;
    if Quiet(e) {
      QuietTidy(s, e);
    } else if e.Sweep? || e.Shutdown? {
      AskingTidy(s, e);
    } else {
      MovingTidy(s, e);
    }
  }

  lemma StepTidy(s: State, e: Event)
    requires L.Valid(s.tables) && Tidy(s)
    ensures Tidy(Step(s, e))
  {
    EffectTidy(s, e);
    hide Tidy, L.Valid, Effect;
    SameTidy(Effect(s, e), Step(s, e));
  }

  lemma {:induction false} RunIsTidy(events: seq<Event>, k: nat)
    requires k <= |events|
    ensures Tidy(At(events, k))
  {
    hide Step, L.Valid;
    if k == 0 {
      assert At(events, k) == INITIAL;
    } else {
      hide At, Tidy;
      RunStep(events, k - 1);
      RunIsTidy(events, k - 1);
      StepTidy(At(events, k - 1), events[k - 1]);
    }
  }

  //-- Lookups after the database write --------------------------------------------------------

  ghost predicate RowKept(events: seq<Event>, n: nat, from: nat, to: nat)
    requires to <= |events|
  {
    forall m :: from <= m <= to ==> n in At(events, m).tables.guests
  }

  lemma RevokedRowStep(s: State, e: Event, n: nat)
    requires L.Valid(s.tables) && n in s.tables.guests && n in Step(s, e).tables.guests
    ensures L.SameBinding(s.tables.guests[n], Step(s, e).tables.guests[n])
    ensures s.tables.guests[n].revokedAt.Some? ==> Step(s, e).tables.guests[n].revokedAt.Some?
  {
    if RequestOf(s, e).Some? {
      var r := RequestOf(s, e).value;
      assert Step(s, e).tables == L.Apply(s.tables, r).0;
      assert r != L.Remove(n);
      hide Step, L.Apply;
      L.RowStep(s.tables, r, n);
    }
  }

  /** While its row is kept, a revoked guest stays revoked. */
  lemma {:induction false} RevokedWhileKept(events: seq<Event>, n: nat, j: nat, i: nat)
    requires j <= i <= |events| && RowKept(events, n, j, i)
    requires At(events, j).tables.guests[n].revokedAt.Some?
    ensures n in At(events, i).tables.guests && n in At(events, j).tables.guests
    ensures At(events, i).tables.guests[n].revokedAt.Some?
    ensures At(events, i).tables.guests[n].peer == At(events, j).tables.guests[n].peer
    decreases i
  {
    hide At, Step, L.Valid;
    if j < i {
      RunStep(events, i - 1);
      RevokedWhileKept(events, n, j, i - 1);
      RevokedRowStep(At(events, i - 1), events[i - 1], n);
    }
  }

  /** `c` was closed with `code` and nothing of it was ever served. */
  ghost predicate ClosedUnserved(s: State, c: nat, code: CloseCode) {
    && c < |s.conns| && s.conns[c].phase.Ended? && s.conns[c].asked == [code]
    && forall i :: 0 <= i < |s.streams| ==> !(s.streams[i].conn == c && s.streams[i].user.Some?)
  }

  /** Neither activation nor service: no stream at all. */
  ghost predicate Untouched(s: State, c: nat) {
    forall i :: 0 <= i < |s.streams| ==> s.streams[i].conn != c
  }

  lemma EndedIsLeftAlone(s: State, e: Event, c: nat)
    requires L.Valid(s.tables) && Tidy(s) && c < |s.conns| && s.conns[c].phase.Ended?
    ensures var s' := Step(s, e);
            && c < |s'.conns| && s'.conns[c] == s.conns[c].(gone := s'.conns[c].gone)
            && (Untouched(s, c) ==> Untouched(s', c))
            && (forall code :: ClosedUnserved(s, c, code) ==> ClosedUnserved(s', c, code))
  {
    var s' := Step(s, e);
    OnlyServedAreRegistered(s, c, None);
    EndedConnStep(s, e, c);
    hide Step, Tidy, L.Valid;
    forall i | 0 <= i < |s'.streams| && s'.streams[i].conn == c
      ensures i < |s.streams| && s'.streams[i] == s.streams[i].(leaving := s'.streams[i].leaving) {
      StreamOrigin(s, e, i);
    }
  }

  /** A connection that is neither served nor waiting for a stream or its registration moves by its own steps only. */
  lemma UnservedStep(s: State, e: Event, c: nat)
    requires L.Valid(s.tables) && Tidy(s) && c < |s.conns|
    requires !s.conns[c].phase.Serving? && !s.conns[c].phase.AwaitingStream? && !s.conns[c].phase.Touched?
    ensures var s' := Step(s, e);
            c < |s'.conns| && (s'.conns[c] == s.conns[c] || s'.conns[c] == ConnStep(s.tables, s.conns[c], e, s.now))
  {
    hide Step, Tidy, L.Valid, ConnStep;
    if e.Sweep? || e.Shutdown? {
      UnservedIsNotAsked(s, e, c);
    } else if Quiet(e) {
      QuietLeavesConns(s, e);
    } else {
      UnservedOwnStep(s, e, c);
    }
  }

  lemma QuietLeavesConns(s: State, e: Event)
    requires L.Valid(s.tables) && Quiet(e)
    ensures Step(s, e).conns == s.conns
  {
    hide L.Valid, L.Apply, Recorded, Injected;
  }

  lemma UnservedIsNotAsked(s: State, e: Event, c: nat)
    requires L.Valid(s.tables) && Tidy(s) && (e.Sweep? || e.Shutdown?) && c < |s.conns| && !s.conns[c].phase.Serving?
    ensures c < |Step(s, e).conns| && Step(s, e).conns[c] == s.conns[c]
  {
    OnlyServedAreRegistered(s, c, None);
    if e.Sweep? && e.revoke < |s.revokes| {
      OnlyServedAreRegistered(s, c, Some(s.revokes[e.revoke].number));
    }
    hide Tidy, L.Valid, L.Apply, Registered;
  }

  lemma UnservedOwnStep(s: State, e: Event, c: nat)
    requires L.Valid(s.tables) && !Quiet(e) && !e.Sweep? && !e.Shutdown? && c < |s.conns|
    requires !s.conns[c].phase.Serving? && !s.conns[c].phase.AwaitingStream? && !s.conns[c].phase.Touched?
    ensures var s' := Step(s, e);
            c < |s'.conns| && (s'.conns[c] == s.conns[c] || s'.conns[c] == ConnStep(s.tables, s.conns[c], e, s.now))
  {
    hide L.Valid, ConnStep, L.Apply;
  }

  lemma EndedConnStep(s: State, e: Event, c: nat)
    requires L.Valid(s.tables) && Tidy(s) && c < |s.conns| && s.conns[c].phase.Ended?
    ensures var s' := Step(s, e); c < |s'.conns| && s'.conns[c] == s.conns[c].(gone := s'.conns[c].gone)
  {
    hide Step, Tidy, L.Valid;
    UnservedStep(s, e, c);
  }

  lemma {:induction false} StaysClosed(events: seq<Event>, i: nat, k: nat, c: nat, code: CloseCode)
    requires i <= k <= |events| && ClosedUnserved(At(events, i), c, code)
    ensures ClosedUnserved(At(events, k), c, code)
    ensures Untouched(At(events, i), c) ==> Untouched(At(events, k), c)
    decreases k
  {
    hide At, Step, Tidy, L.Valid;
    if i < k {
      RunStep(events, k - 1);
      RunIsTidy(events, k - 1);
      StaysClosed(events, i, k - 1, c, code);
      EndedIsLeftAlone(At(events, k - 1), events[k - 1], c);
    }
  }

  lemma LookupTurnsAway(s: State, c: nat, n: nat)
    requires L.Valid(s.tables) && Tidy(s) && c < |s.conns| && s.conns[c].phase.Accepted?
    requires n in s.tables.guests && s.tables.guests[n].peer == s.conns[c].peer && s.tables.guests[n].revokedAt.Some?
    ensures var s' := Step(s, Lookup(c, true)); ClosedUnserved(s', c, Revoked) && Untouched(s', c)
  {
    assert L.GuestOf(s.tables, s.conns[c].peer) == Some(n);
    assert TidyConn(s.registry, c, s.conns[c]);
    forall i | 0 <= i < |s.streams| ensures s.streams[i].conn != c {
      assert TidyStream(s.conns, s.streams[i]);
    }
    hide Tidy, L.Valid;
  }

  /**
   A connection whose guest lookup follows the revoke's database write, while the row is
   kept, is closed with the revoked code, and no stream of it is ever handled.
   */
  lemma RevokedIsTurnedAway(events: seq<Event>, j: nat, i: nat, k: nat, n: nat, c: nat)
    requires j <= i < k <= |events| && RowKept(events, n, j, i)
    requires At(events, j).tables.guests[n].revokedAt.Some?
    requires events[i] == Lookup(c, true)
    requires c < |At(events, i).conns| && At(events, i).conns[c].phase.Accepted?
    requires At(events, i).conns[c].peer == At(events, j).tables.guests[n].peer
    ensures ClosedUnserved(At(events, k), c, Revoked) && Untouched(At(events, k), c)
  {
    hide At, Step, Tidy, L.Valid;
    RevokedWhileKept(events, n, j, i);
    RunIsTidy(events, i);
    RunStep(events, i);
    LookupTurnsAway(At(events, i), c, n);
    StaysClosed(events, i + 1, k, c, Revoked);
  }

  /** The connection was heard out, is not served, and is or will be closed as unknown. */
  ghost predicate HeardOut(s: State, c: nat) {
    || ClosedUnserved(s, c, Unknown)
    || (&& c < |s.conns| && s.conns[c].phase.Refusing? && s.conns[c].asked == []
        && forall i :: 0 <= i < |s.streams| ==> !(s.streams[i].conn == c && s.streams[i].user.Some?))
  }

  lemma RefusingConnStep(s: State, e: Event, c: nat)
    requires L.Valid(s.tables) && Tidy(s) && c < |s.conns| && s.conns[c].phase.Refusing?
    ensures var s', conn := Step(s, e), s.conns[c];
            c < |s'.conns| && (s'.conns[c] == conn.(gone := s'.conns[c].gone) || s'.conns[c] == Close(conn, Unknown))
  {
    hide Step, Tidy, L.Valid;
    UnservedStep(s, e, c);
  }

  lemma HeardOutStep(s: State, e: Event, c: nat)
    requires L.Valid(s.tables) && Tidy(s) && HeardOut(s, c)
    ensures HeardOut(Step(s, e), c)
  {
    if s.conns[c].phase.Ended? {
      EndedIsLeftAlone(s, e, c);
    } else {
      RefusingConnStep(s, e, c);
      hide Step, Tidy, L.Valid;
      var s' := Step(s, e);
      forall i | 0 <= i < |s'.streams| && s'.streams[i].conn == c ensures s'.streams[i].user.None? {
        StreamOrigin(s, e, i);
      }
    }
  }

  lemma DecisionTurnsAway(s: State, c: nat, n: nat)
    requires L.Valid(s.tables) && Tidy(s) && c < |s.conns| && s.conns[c].phase.Deciding?
    requires n in s.tables.guests && s.tables.guests[n].peer == s.conns[c].peer && s.tables.guests[n].revokedAt.Some?
    ensures HeardOut(Step(s, Decide(c, true)), c)
  {
    assert L.GuestOf(s.tables, s.conns[c].peer) == Some(n);
    assert TidyConn(s.registry, c, s.conns[c]);
    forall i | 0 <= i < |s.streams| && s.streams[i].conn == c ensures s.streams[i].user.None? {
      assert TidyStream(s.conns, s.streams[i]);
    }
    hide Tidy, L.Valid;
  }

  /**
   The second lookup, after an activation stream, turns a revoked guest away as well, but
   with the unknown code: a guest revoked between its activation and that lookup never
   sees the revoked one.
   */
  lemma {:induction false} RevokedWhileActivating(events: seq<Event>, j: nat, i: nat, k: nat, n: nat, c: nat)
    requires j <= i < k <= |events| && RowKept(events, n, j, i)
    requires At(events, j).tables.guests[n].revokedAt.Some?
    requires events[i] == Decide(c, true)
    requires c < |At(events, i).conns| && At(events, i).conns[c].phase.Deciding?
    requires At(events, i).conns[c].peer == At(events, j).tables.guests[n].peer
    ensures HeardOut(At(events, k), c)
    decreases k
  {
    hide At, Step, Tidy, L.Valid, HeardOut;
    RunStep(events, k - 1);
    RunIsTidy(events, k - 1);
    if i == k - 1 {
      RevokedWhileKept(events, n, j, i);
      DecisionTurnsAway(At(events, i), c, n);
    } else {
      RevokedWhileActivating(events, j, i, k - 1, n, c);
      HeardOutStep(At(events, k - 1), events[k - 1], c);
    }
  }

  //-- The sweep ---------------------------------------------------------------------------------

  /**
   A sweep reaches exactly the connections whose number, truncated to 32 bits, is the
   revoked one: for a guest whose number fits, all those registered; otherwise none of its own.
   */
  lemma SweepReachesExactly(events: seq<Event>, i: nat, r: nat, c: nat)
    requires i < |events| && events[i] == Sweep(r)
    requires r < |At(events, i).revokes| && At(events, i).revokes[r].phase.Written?
    requires c < |At(events, i).conns|
    ensures var s, s' := At(events, i), At(events, i + 1);
            && c < |s'.conns|
            && s'.conns[c] ==
                 if s.conns[c].phase.Serving? && Wrap32(s.conns[c].phase.number) == s.revokes[r].number
                 then Ask(s.conns[c], Revoked) else s.conns[c]
  {
    var s := At(events, i);
    RunStep(events, i);
    RunIsTidy(events, i);
    hide At, L.Valid;
    OnlyServedAreRegistered(s, c, Some(s.revokes[r].number));
  }

  lemma AskedStays(s: State, e: Event, c: nat, code: CloseCode)
    requires L.Valid(s.tables) && c < |s.conns| && code in s.conns[c].asked
    ensures c < |Step(s, e).conns| && code in Step(s, e).conns[c].asked
  {
    ConnEvolves(s, e, c);
    hide Step;
  }

  lemma {:induction false} AskedForever(events: seq<Event>, i: nat, k: nat, c: nat, code: CloseCode)
    requires i <= k <= |events| && c < |At(events, i).conns| && code in At(events, i).conns[c].asked
    ensures c < |At(events, k).conns| && code in At(events, k).conns[c].asked
    decreases k
  {
    hide At, Step, L.Valid;
    if i < k {
      RunStep(events, k - 1);
      AskedForever(events, i, k - 1, c, code);
      AskedStays(At(events, k - 1), events[k - 1], c, code);
    }
  }

  /** What a revoke call's record says about the run. */
  ghost predicate Faithful(events: seq<Event>, k: nat, r: nat, call: RevokeCall)
    requires k <= |events|
  {
    && call.writtenAt < k && events[call.writtenAt].RevokeWrite? && events[call.writtenAt].number == call.number
    && call.number in At(events, call.writtenAt).tables.guests
    && (!call.phase.Written? ==>
          && call.writtenAt < call.sweptAt < k && events[call.sweptAt] == Sweep(r)
          && r < |At(events, call.sweptAt).revokes|
          && At(events, call.sweptAt).revokes[r] == call.(phase := Written, sweptAt := At(events, call.sweptAt).revokes[r].sweptAt))
  }

  lemma RevokeStep(s: State, e: Event, r: nat)
    requires L.Valid(s.tables) && r < |Step(s, e).revokes|
    ensures var call := Step(s, e).revokes[r];
            || (r < |s.revokes| && call == s.revokes[r])
            || (r < |s.revokes| && s.revokes[r].phase.Swept? && call == s.revokes[r].(phase := Returned))
            || (r < |s.revokes| && s.revokes[r].phase.Written? && e == Sweep(r) && call == s.revokes[r].(phase := Swept, sweptAt := s.now))
            || (e.RevokeWrite? && e.number in s.tables.guests && call == RevokeCall(e.number, Written, s.now, 0))
  {
    hide L.Valid, L.Apply, ConnStep;
  }

  lemma {:induction false} RevokesAreFaithful(events: seq<Event>, k: nat, r: nat)
    requires k <= |events| && r < |At(events, k).revokes|
    ensures Faithful(events, k, r, At(events, k).revokes[r])
  {
    hide Step, L.Valid;
    assert k > 0;
    hide At;
    RunStep(events, k - 1);
    var s := At(events, k - 1);
    RevokeStep(s, events[k - 1], r);
    if r < |s.revokes| {
      RevokesAreFaithful(events, k - 1, r);
    }
  }

  /**
   Before a revoke returns, every connection of that guest registered when the registry was
   swept has been asked to close with the revoked code.
   */
  lemma RevokeReachesRegistered(events: seq<Event>, k: nat, r: nat, c: nat)
    requires k <= |events| && r < |At(events, k).revokes| && !At(events, k).revokes[r].phase.Written?
    ensures var call := At(events, k).revokes[r];
            && call.writtenAt < call.sweptAt < k
            && var swept := At(events, call.sweptAt);
               c < |swept.conns| && swept.conns[c].phase.Serving? && swept.conns[c].phase.number == call.number < 0x8000_0000 ==>
                 c < |At(events, k).conns| && Revoked in At(events, k).conns[c].asked
  {
    hide At, Step, L.Valid;
    RevokesAreFaithful(events, k, r);
    var call := At(events, k).revokes[r];
    var swept := At(events, call.sweptAt);
    if c < |swept.conns| && swept.conns[c].phase.Serving? && swept.conns[c].phase.number == call.number < 0x8000_0000 {
      SweepReachesExactly(events, call.sweptAt, r, c);
      AskedForever(events, call.sweptAt + 1, k, c, Revoked);
    }
  }

  //-- What each close code tells the guest ---------------------------------------------------------

  /** At step `e` the host had a reason to tell `c` that its guest is revoked. */
  ghost predicate ToldRevoked(s: State, e: Event, c: nat) {
    && c < |s.conns|
    && (|| (&& e == Lookup(c, true)
            && exists n :: n in s.tables.guests && s.tables.guests[n].peer == s.conns[c].peer && s.tables.guests[n].revokedAt.Some?)
        || (&& e.Sweep? && e.revoke < |s.revokes| && s.conns[c].phase.Serving?
            && s.revokes[e.revoke].number == Wrap32(s.conns[c].phase.number)))
  }

  lemma RevokedCodeStep(s: State, e: Event, c: nat)
    requires L.Valid(s.tables) && Tidy(s) && c < |s.conns| && Revoked !in s.conns[c].asked
    requires c < |Step(s, e).conns| && Revoked in Step(s, e).conns[c].asked
    ensures ToldRevoked(s, e, c)
  {
    if e.Sweep? && e.revoke < |s.revokes| {
      OnlyServedAreRegistered(s, c, Some(s.revokes[e.revoke].number));
      hide Tidy, L.Valid, L.Apply, ConnStep;
    } else {
      UnsweptStep(s, e, c);
      hide Step, Tidy, L.Apply;
    }
  }

  /** Outside a sweep only the connection's own step adds the revoked code. */
  lemma UnsweptStep(s: State, e: Event, c: nat)
    requires L.Valid(s.tables) && c < |s.conns| && !(e.Sweep? && e.revoke < |s.revokes|)
    ensures var s' := Step(s, e);
            && c < |s'.conns|
            && (|| (Revoked in s'.conns[c].asked ==> Revoked in s.conns[c].asked)
                || (s'.conns[c] == ConnStep(s.tables, s.conns[c], e, s.now) && e.Lookup? && e.conn == c))
  {
    hide L.Valid, L.Apply, LookUp;
  }

  lemma NewConnIsUnasked(s: State, e: Event, c: nat)
    requires L.Valid(s.tables) && c < |Step(s, e).conns| && Step(s, e).conns[c].asked != []
    ensures c < |s.conns|
  {
    hide L.Valid, ConnStep, L.Apply;
  }

  /** A guest is told it is revoked only after a lookup found it so, or by the sweep of a revoke of its number. */
  lemma {:induction false} RevokedCodeIsEarned(events: seq<Event>, k: nat, c: nat) returns (j: nat)
    requires k <= |events| && c < |At(events, k).conns| && Revoked in At(events, k).conns[c].asked
    ensures j < k && ToldRevoked(At(events, j), events[j], c)
  {
    hide Step, L.Valid, Tidy;
    assert k > 0;
    hide At, ToldRevoked;
    RunStep(events, k - 1);
    RunIsTidy(events, k - 1);
    var s := At(events, k - 1);
    NewConnIsUnasked(s, events[k - 1], c);
    if Revoked in s.conns[c].asked {
      j := RevokedCodeIsEarned(events, k - 1, c);
    } else {
      j := k - 1;
      RevokedCodeStep(s, events[j], c);
    }
  }

  lemma UnknownCodeStep(s: State, e: Event, c: nat)
    requires L.Valid(s.tables) && Tidy(s) && c < |s.conns| && Unknown !in s.conns[c].asked
    requires c < |Step(s, e).conns| && Unknown in Step(s, e).conns[c].asked
    ensures ClosedUnserved(Step(s, e), c, Unknown)
  {
    assert TidyConn(s.registry, c, s.conns[c]);
    hide Step, L.Valid, L.Apply;
    ConnEvolves(s, e, c);
    assert s.conns[c].phase.AwaitingStream? || s.conns[c].phase.Refusing?;
    assert Step(s, e).conns[c] == Close(s.conns[c], Unknown);
    NoIdentityYet(s, e, c);
  }

  lemma NoIdentityYet(s: State, e: Event, c: nat)
    requires L.Valid(s.tables) && Tidy(s) && c < |s.conns| && Unserved(s.conns[c].phase)
    ensures var s' := Step(s, e); forall i :: 0 <= i < |s'.streams| ==> !(s'.streams[i].conn == c && s'.streams[i].user.Some?)
  {
    hide Step, L.Valid;
    var s' := Step(s, e);
    forall i | 0 <= i < |s'.streams| && s'.streams[i].conn == c ensures s'.streams[i].user.None? {
      StreamOrigin(s, e, i);
      if i < |s.streams| {
        assert TidyStream(s.conns, s.streams[i]);
      }
    }
  }

  /** A guest is told it is unknown only on a connection that was never served, and told nothing else on it. */
  lemma {:induction false} UnknownCodeMeansUnserved(events: seq<Event>, k: nat, c: nat)
    requires k <= |events| && c < |At(events, k).conns| && Unknown in At(events, k).conns[c].asked
    ensures ClosedUnserved(At(events, k), c, Unknown)
  {
    hide Step, L.Valid, Tidy, ClosedUnserved;
    assert k > 0;
    hide At;
    RunStep(events, k - 1);
    RunIsTidy(events, k - 1);
    var s := At(events, k - 1);
    NewConnIsUnasked(s, events[k - 1], c);
    if Unknown in s.conns[c].asked {
      UnknownCodeMeansUnserved(events, k - 1, c);
      StaysClosed(events, k - 1, k, c, Unknown);
    } else {
      UnknownCodeStep(s, events[k - 1], c);
    }
  }

  //-- The window between lookup and registration ----------------------------------------------

  function NumberOf(p: Phase): Option<nat> {
    match p
    case LookedUp(n, _) => Some(n)
    case Touched(n, _) => Some(n)
    case Serving(n, _, _) => Some(n)
    case _ => None
  }

  lemma NumberStep(s: State, e: Event, c: nat)
    requires L.Valid(s.tables) && c < |Step(s, e).conns| && NumberOf(Step(s, e).conns[c].phase).Some?
    ensures var conn := Step(s, e).conns[c];
            var n := NumberOf(conn.phase).value;
            && c < |s.conns|
            && (|| (NumberOf(s.conns[c].phase) == Some(n) && conn.lookedUpAt == s.conns[c].lookedUpAt)
                || (conn.lookedUpAt == s.now && n in s.tables.guests && s.tables.guests[n].revokedAt.None?))
  {
    hide Step, L.Valid, ConnStep;
    NewConn(s, e, c);
    ConnEvolves(s, e, c);
    NumberOfConnStep(s.tables, s.conns[c], e, s.now);
  }

  lemma NumberOfConnStep(t: L.Tables, c: Conn, e: Event, now: nat)
    ensures var d := ConnStep(t, c, e, now);
            NumberOf(d.phase).Some? ==>
              || (NumberOf(d.phase) == NumberOf(c.phase) && d.lookedUpAt == c.lookedUpAt)
              || (d.lookedUpAt == now && NumberOf(d.phase).value in t.guests && t.guests[NumberOf(d.phase).value].revokedAt.None?)
  {
  }

  /** A connection being served got its number from a row that was not revoked at its lookup. */
  lemma {:induction false} LookedUpThen(events: seq<Event>, k: nat, c: nat)
    requires k <= |events| && c < |At(events, k).conns| && NumberOf(At(events, k).conns[c].phase).Some?
    ensures var conn := At(events, k).conns[c];
            var n := NumberOf(conn.phase).value;
            && conn.lookedUpAt < k
            && n in At(events, conn.lookedUpAt).tables.guests
            && At(events, conn.lookedUpAt).tables.guests[n].revokedAt.None?
  {
    hide Step, L.Valid;
    assert k > 0;
    hide At;
    RunStep(events, k - 1);
    NumberStep(At(events, k - 1), events[k - 1], c);
    var conn, was := At(events, k).conns[c], At(events, k - 1).conns[c];
    if NumberOf(was.phase) == NumberOf(conn.phase) && was.lookedUpAt == conn.lookedUpAt {
      LookedUpThen(events, k - 1, c);
    }
  }

  lemma ServingStep(s: State, e: Event, c: nat)
    requires L.Valid(s.tables) && c < |Step(s, e).conns| && Step(s, e).conns[c].phase.Serving?
    ensures var conn := Step(s, e).conns[c];
            && c < |s.conns|
            && (|| (s.conns[c].phase == conn.phase && conn.registeredAt == s.conns[c].registeredAt)
                || (conn.registeredAt == s.now && e == Register(c)))
  {
    hide Step, L.Valid;
    NewConn(s, e, c);
    ConnEvolves(s, e, c);
  }

  lemma {:induction false} ServedSince(events: seq<Event>, i: nat, k: nat, c: nat)
    requires i <= k <= |events| && c < |At(events, k).conns| && At(events, k).conns[c].phase.Serving?
    ensures var conn := At(events, k).conns[c];
            && conn.registeredAt < k && events[conn.registeredAt] == Register(c)
            && (conn.registeredAt < i ==> c < |At(events, i).conns| && At(events, i).conns[c].phase == conn.phase)
    decreases k
  {
    hide Step, L.Valid;
    assert k > 0;
    hide At;
    RunStep(events, k - 1);
    ServingStep(At(events, k - 1), events[k - 1], c);
    var conn, was := At(events, k).conns[c], At(events, k - 1).conns[c];
    if was.phase == conn.phase && was.registeredAt == conn.registeredAt {
      ServedSince(events, if i < k then i else k - 1, k - 1, c);
    }
  }

  /**
   A connection still served after the sweep and never asked to close with the revoked code
   looked its guest up before the database write and registered after the sweep.
   */
  lemma OnlyTheWindowEscapes(events: seq<Event>, k: nat, r: nat, c: nat)
    requires k <= |events| && r < |At(events, k).revokes| && !At(events, k).revokes[r].phase.Written?
    requires c < |At(events, k).conns| && At(events, k).conns[c].phase.Serving?
    requires var call, conn := At(events, k).revokes[r], At(events, k).conns[c];
             && conn.phase.number == call.number < 0x8000_0000
             && conn.lookedUpAt <= |events| && RowKept(events, call.number, call.writtenAt, conn.lookedUpAt)
    requires Revoked !in At(events, k).conns[c].asked
    ensures var call, conn := At(events, k).revokes[r], At(events, k).conns[c];
            conn.lookedUpAt <= call.writtenAt && call.sweptAt < conn.registeredAt
  {
    hide At, Step, L.Valid;
    var call, conn := At(events, k).revokes[r], At(events, k).conns[c];
    RevokesAreFaithful(events, k, r);
    LookedUpThen(events, k, c);
    if call.writtenAt < conn.lookedUpAt {
      WriteRevokes(events, call.writtenAt);
      RevokedWhileKept(events, call.number, call.writtenAt + 1, conn.lookedUpAt);
    }
    ServedSince(events, call.sweptAt, k, c);
    RevokeReachesRegistered(events, k, r, c);
  }

  lemma WriteRevokes(events: seq<Event>, j: nat)
    requires j < |events| && events[j].RevokeWrite? && events[j].number in At(events, j).tables.guests
    ensures var t := At(events, j + 1).tables; events[j].number in t.guests && t.guests[events[j].number].revokedAt.Some?
  {
    hide L.Valid, At;
    RunStep(events, j);
    WriteMarks(At(events, j), events[j]);
  }

  lemma WriteMarks(s: State, e: Event)
    requires L.Valid(s.tables) && e.RevokeWrite? && e.number in s.tables.guests
    ensures var t := Step(s, e).tables;
            t == s.tables.(guests := t.guests) && t.guests.Keys == s.tables.guests.Keys && t.guests[e.number].revokedAt.Some?
  {
    var r := L.Revoke(e.number, e.at);
    assert RequestOf(s, e) == Some(r);
    assert Step(s, e).tables == L.Apply(s.tables, r).0;
    hide Step, L.Valid;
  }

  //-- Whose revoke a connection is told of -----------------------------------------------------------

  /** Row `n` is the one made from invite `b`; an invite makes at most one. */
  ghost predicate MadeFrom(t: L.Tables, n: nat, b: nat) {
    n in t.guests && t.guests[n].invite == b
  }

  /** The row made from invite `b` is gone, and no other can be made from it. */
  ghost predicate Gone(t: L.Tables, b: nat) {
    && b in t.invites && t.invites[b].consumedAt.Some?
    && forall n :: n in t.guests ==> t.guests[n].invite != b
  }

  lemma RowsOfAnInvite(t: L.Tables, m: nat, n: nat, b: nat)
    requires L.Valid(t) && MadeFrom(t, m, b) && MadeFrom(t, n, b)
    ensures m == n
  {
  }

  lemma GoneApply(t: L.Tables, r: L.Request, b: nat)
    requires L.Valid(t) && Gone(t, b)
    ensures Gone(L.Apply(t, r).0, b)
  {
    var t' := L.Apply(t, r).0;
    L.InvitesOnlyGrow(t, r, b);
    L.CreatingIsConsuming(t, r, b);
    forall n | n in t'.guests ensures t'.guests[n].invite != b {
      RowOrigin(t, r, n);
      hide L.Apply, L.Valid;
    }
  }

  lemma MadeFromApply(t: L.Tables, r: L.Request, n: nat, b: nat)
    requires L.Valid(t) && MadeFrom(t, n, b)
    ensures MadeFrom(L.Apply(t, r).0, n, b) || Gone(L.Apply(t, r).0, b)
  {
    if r == L.Remove(n) {
      assert L.Bound(t, t.guests[n]);
    } else {
      hide L.Apply;
      L.RowStep(t, r, n);
    }
  }

  /** A row lives once: later it is the same row, kept all along, or none made from its invite. */
  lemma {:induction false} RowLivesOnce(events: seq<Event>, i: nat, k: nat, n: nat, b: nat)
    requires i <= k <= |events| && MadeFrom(At(events, i).tables, n, b)
    ensures (RowKept(events, n, i, k) && MadeFrom(At(events, k).tables, n, b)) || Gone(At(events, k).tables, b)
    decreases k
  {
    hide At, Step, L.Valid, L.Apply, Gone;
    if i < k {
      RowLivesOnce(events, i, k - 1, n, b);
      RunStep(events, k - 1);
      RowLifeStep(At(events, k - 1), events[k - 1], n, b);
    }
  }

  lemma RowLifeStep(s: State, e: Event, n: nat, b: nat)
    requires L.Valid(s.tables)
    ensures MadeFrom(s.tables, n, b) ==> MadeFrom(Step(s, e).tables, n, b) || Gone(Step(s, e).tables, b)
    ensures Gone(s.tables, b) ==> Gone(Step(s, e).tables, b)
  {
    assert Step(s, e).tables == TablesAfter(s, e);
    hide Step, L.Valid, L.Apply, Gone, MadeFrom;
    if RequestOf(s, e).Some? {
      var r := RequestOf(s, e).value;
      if Gone(s.tables, b) {
        GoneApply(s.tables, r, b);
      }
      if MadeFrom(s.tables, n, b) {
        MadeFromApply(s.tables, r, n, b);
      }
    }
  }

  lemma {:induction false} KeptIsSame(events: seq<Event>, n: nat, j: nat, i: nat)
    requires j <= i <= |events| && RowKept(events, n, j, i)
    ensures n in At(events, j).tables.guests && n in At(events, i).tables.guests
    ensures At(events, i).tables.guests[n].invite == At(events, j).tables.guests[n].invite
    decreases i
  {
    hide At, Step, L.Valid;
    if j < i {
      RunStep(events, i - 1);
      KeptIsSame(events, n, j, i - 1);
      RevokedRowStep(At(events, i - 1), events[i - 1], n);
    }
  }

  /**
   A sweep tells a connection of the revoke of its own row, the one its lookup found, exactly
   if its number is not a truncated one, its lookup came before the write, and the row was
   kept in between. Otherwise it is told of another guest's: one whose number its own aliases,
   or one that had the number before or after it.
   */
  lemma ToldOfItsOwnExactly(events: seq<Event>, i: nat, r: nat, c: nat)
    requires i < |events| && events[i] == Sweep(r) && r < |At(events, i).revokes| && At(events, i).revokes[r].phase.Written?
    requires c < |At(events, i).conns| && At(events, i).conns[c].phase.Serving?
    ensures var call, conn := At(events, i).revokes[r], At(events, i).conns[c];
            && call.writtenAt < i && conn.lookedUpAt < i
            && call.number in At(events, call.writtenAt).tables.guests
            && conn.phase.number in At(events, conn.lookedUpAt).tables.guests
            && (At(events, call.writtenAt).tables.guests[call.number].invite
                == At(events, conn.lookedUpAt).tables.guests[conn.phase.number].invite <==>
                conn.phase.number == call.number && conn.lookedUpAt <= call.writtenAt
                && RowKept(events, call.number, conn.lookedUpAt, call.writtenAt))
  {
    hide At, Step, L.Valid, RowKept, Gone;
    var call, conn := At(events, i).revokes[r], At(events, i).conns[c];
    RevokesAreFaithful(events, i, r);
    LookedUpThen(events, i, c);
    var n, m, w, l := call.number, conn.phase.number, call.writtenAt, conn.lookedUpAt;
    var b := At(events, l).tables.guests[m].invite;
    if At(events, w).tables.guests[n].invite == b {
      OwnRowWasKept(events, w, l, n, m, b);
    } else if m == n && l <= w && RowKept(events, n, l, w) {
      KeptIsSame(events, n, l, w);
    }
  }

  lemma OwnRowWasKept(events: seq<Event>, w: nat, l: nat, n: nat, m: nat, b: nat)
    requires w < |events| && l < |events| && events[w].RevokeWrite? && events[w].number == n
    requires MadeFrom(At(events, w).tables, n, b) && MadeFrom(At(events, l).tables, m, b)
    requires At(events, l).tables.guests[m].revokedAt.None?
    ensures m == n && l <= w && RowKept(events, n, l, w)
  {
    hide At, Step, L.Valid, RowKept;
    if l <= w {
      RowLivesOnce(events, l, w, m, b);
      RowsOfAnInvite(At(events, w).tables, m, n, b);
    } else {
      WriteRevokes(events, w);
      RunStep(events, w);
      RevokedRowStep(At(events, w), events[w], n);
      RowLivesOnce(events, w + 1, l, n, b);
      RowsOfAnInvite(At(events, l).tables, m, n, b);
      RevokedWhileKept(events, n, w + 1, l);
    }
  }

  //-- The window is real ------------------------------------------------------------------------

  /** A guest was looked up but not registered yet, and neither side has closed. */
  predicate InWindow(s: State, c: nat, n: nat) {
    c < |s.conns| && !s.conns[c].gone && s.conns[c].asked == [] && s.conns[c].phase.LookedUp? && s.conns[c].phase.number == n
  }

  ghost function Revoking(s: State, n: nat, at: L.Time): State
    requires L.Valid(s.tables)
  {
    Step(Step(Step(s, RevokeWrite(n, at)), Sweep(|s.revokes|)), Return(|s.revokes|))
  }

  ghost function GoingOn(s: State, c: nat, at: L.Time): State
    requires L.Valid(s.tables)
  {
    Step(Step(Step(s, TouchGuest(c, true, at)), Register(c)), OpenStream(c, ReverseProxy))
  }

  lemma WriteStep(s: State, n: nat, at: L.Time)
    requires L.Valid(s.tables) && n in s.tables.guests
    ensures var s' := Step(s, RevokeWrite(n, at));
            s'.conns == s.conns && s'.revokes == s.revokes + [RevokeCall(n, Written, s.now, 0)]
  {
  }

  lemma SweepStep(s: State, r: nat, c: nat)
    requires L.Valid(s.tables) && Tidy(s) && c < |s.conns| && !s.conns[c].phase.Serving?
    requires r < |s.revokes| && s.revokes[r].phase.Written?
    ensures var s' := Step(s, Sweep(r));
            && |s'.conns| == |s.conns| && s'.conns[c] == s.conns[c]
            && s'.revokes == s.revokes[r := s.revokes[r].(phase := Swept, sweptAt := s.now)]
  {
    OnlyServedAreRegistered(s, c, Some(s.revokes[r].number));
    hide Tidy, L.Valid;
  }

  lemma ReturnStep(s: State, r: nat)
    requires L.Valid(s.tables) && r < |s.revokes| && s.revokes[r].phase.Swept?
    ensures var s' := Step(s, Return(r));
            s'.conns == s.conns && s'.revokes == s.revokes[r := s.revokes[r].(phase := Returned)]
  {
  }

  lemma RevokeMissesTheWindow(s: State, c: nat, n: nat, at: L.Time)
    requires L.Valid(s.tables) && Tidy(s) && InWindow(s, c, n) && n in s.tables.guests
    ensures var s' := Revoking(s, n, at);
            && L.Valid(s'.tables) && c < |s'.conns| && s'.conns[c] == s.conns[c]
            && |s'.revokes| == |s.revokes| + 1 && s'.revokes[|s.revokes|].phase.Returned? && s'.revokes[|s.revokes|].number == n
  {
    hide Step, Tidy, L.Valid;
    var r := |s.revokes|;
    var s1 := Step(s, RevokeWrite(n, at));
    WriteStep(s, n, at);
    StepTidy(s, RevokeWrite(n, at));
    SweepStep(s1, r, c);
    ReturnStep(Step(s1, Sweep(r)), r);
  }

  lemma WindowIsServed(s: State, c: nat, n: nat, at: L.Time)
    requires L.Valid(s.tables) && InWindow(s, c, n)
    ensures var s' := GoingOn(s, c, at);
            && |s'.streams| == |s.streams| + 1
            && s'.streams[|s.streams|] == Stream(c, s.conns[c].peer, Some(s.conns[c].phase.user), ReverseProxy, None)
            && c < |s'.conns| && s'.conns[c].phase.Serving? && s'.conns[c].asked == []
            && s'.revokes == s.revokes
  {
    var conn := s.conns[c];
    var s1 := Step(s, TouchGuest(c, true, at));
    assert s1.conns[c] == conn.(phase := Touched(n, conn.phase.user)) && s1.streams == s.streams;
    var s2 := Step(s1, Register(c));
    assert s2.conns[c] == s1.conns[c].(phase := Serving(n, conn.phase.user, s1.nextId), registeredAt := s1.now);
  }

  /**
   The window is real: from any state in which a guest has been looked up but not registered,
   its revoke can run to completion and the connection then serve data-plane streams, unasked.
   */
  lemma TheWindowEscapes(s: State, c: nat, n: nat, at: L.Time)
    requires L.Valid(s.tables) && Tidy(s) && InWindow(s, c, n) && n in s.tables.guests
    ensures var revoked := Revoking(s, n, at);
            && L.Valid(revoked.tables)
            && var s' := GoingOn(revoked, c, at);
               && |revoked.revokes| == |s.revokes| + 1 && revoked.revokes[|s.revokes|].phase.Returned?
               && |s'.streams| == |revoked.streams| + 1
               && s'.streams[|revoked.streams|].conn == c && DataPlane(s'.streams[|revoked.streams|].kind)
               && c < |s'.conns| && s'.conns[c].asked == []
  {
    RevokeMissesTheWindow(s, c, n, at);
    hide Revoking, GoingOn;
    WindowIsServed(Revoking(s, n, at), c, n, at);
  }

  //-- Asking and waiting, as the program does them -------------------------------------------------

  const CLOSE_GRACE: nat := 2000
  const CLOSE_POLL: nat := 50

  /** A live connection as its closer reaches it. */
  class Connection {
    var asked: seq<CloseCode>
  }

  class Entry {
    const number: int
    const connection: Connection

    constructor (number: int, connection: Connection)
      ensures this.number == number && this.connection == connection
    {
      this.number, this.connection := number, connection;
    }
  }

  class ServingHandle {
    var connections: map<nat, Entry>
    var nextId: nat

    /** Every id is below the counter, and no connection is registered twice. */
    ghost predicate Valid()
      reads this
    {
      && (forall id :: id in connections ==> id < nextId)
      && (forall i, j :: i in connections && j in connections && i != j ==> connections[i].connection != connections[j].connection)
    }

    constructor ()
      ensures Valid() && connections == map[]
    {
      connections, nextId := map[], 0;
    }

    method RegisterConnection(number: nat, connection: Connection) returns (id: nat)
      requires Valid() && forall i :: i in connections ==> connections[i].connection != connection
      modifies this
      ensures Valid() && id !in old(connections) && id in connections
      ensures connections == old(connections)[id := connections[id]]
      ensures connections[id].number == Wrap32(number) && connections[id].connection == connection
    {
      id := nextId;
      nextId := nextId + 1;
      var entry := new Entry(Wrap32(number), connection);
      connections := connections[id := entry];
    }

    method UnregisterConnection(id: nat)
      requires Valid()
      modifies this
      ensures Valid() && connections == old(connections) - {id}
    {
      connections := connections - {id};
    }

    function Ids(number: int): (r: set<nat>)
      reads this
      ensures forall id :: id in r <==> id in connections && connections[id].number == number
    {
      set id | id in connections && connections[id].number == number
    }

    /** The connections registered under a number. */
    ghost function Under(number: int): (r: set<Connection>)
      reads this
    {
      set id | id in Ids(number) :: connections[id].connection
    }

    /** Each connection registered under `number` is asked once, and no other. */
    method AskToClose(number: int, code: CloseCode) returns (asked: nat)
      requires Valid()
      modifies Under(number)
      ensures forall id :: id in Ids(number) ==> connections[id].connection.asked == old(connections[id].connection.asked) + [code]
      ensures asked == |Ids(number)|
    {
      asked := 0;
      var rest := Ids(number);
      while rest != {}
        invariant rest <= Ids(number) && asked + |rest| == |Ids(number)|
        invariant forall id :: id in Ids(number) ==>
                    connections[id].connection.asked
                    == if id in rest then old(connections[id].connection.asked) else old(connections[id].connection.asked) + [code]
        decreases |rest|
      {
        var id: nat :| id in rest;
        var connection := connections[id].connection;
        assert connection in Under(number);
        connection.asked := connection.asked + [code];
        rest := rest - {id};
        asked := asked + 1;
      }
    }
  }

  function Pending(registry: map<nat, Registration>, number: int): (r: set<nat>)
    ensures forall id :: id in r <==> id in registry && registry[id].number == number
  {
    set id | id in registry && registry[id].number == number
  }

  /**
   The wait after asking, skipped when none were asked. `registry(i)` is the registry at poll
   `i` and `clock(i)` the time then; a sleep lasts at least `CLOSE_POLL`. It ends at the first
   poll that finds none of the number registered or the deadline passed, after at most 40 sleeps.
   */
  method AwaitCloses(asked: nat, number: int, start: nat, registry: nat -> map<nat, Registration>, clock: nat -> nat)
    returns (sleeps: nat, left: set<nat>)
    requires clock(0) >= start && forall i: nat :: clock(i + 1) >= clock(i) + CLOSE_POLL
    ensures asked == 0 ==> sleeps == 0 && left == {}
    ensures asked > 0 ==> left == Pending(registry(sleeps), number)
    ensures left == {} || clock(sleeps) >= start + CLOSE_GRACE
    ensures forall i: nat :: i < sleeps ==> Pending(registry(i), number) != {} && clock(i) < start + CLOSE_GRACE
    ensures sleeps <= CLOSE_GRACE / CLOSE_POLL
  {
    sleeps, left := 0, {};
    if asked == 0 {
      return;
    }
    var deadline := start + CLOSE_GRACE;
    left := Pending(registry(sleeps), number);
    while left != {} && clock(sleeps) < deadline
      invariant left == Pending(registry(sleeps), number) && clock(sleeps) >= start + CLOSE_POLL * sleeps
      invariant forall i: nat :: i < sleeps ==> Pending(registry(i), number) != {} && clock(i) < deadline
      invariant sleeps <= CLOSE_GRACE / CLOSE_POLL
      decreases CLOSE_GRACE / CLOSE_POLL - sleeps
    {
      sleeps := sleeps + 1;
      left := Pending(registry(sleeps), number);
    }
  }
}
