/**
 Runs of the host protocol that reach what the revocation theorems speak of: from any run, a
 stranger with a new invite can be heard, looked up, served, revoked and let in again.
 */
module RevocationRuns {
  import opened Prelude
  import opened HostProtocol
  import opened Revocation
  import L = Ledger

  //-- Extending a run -----------------------------------------------------------------------------

  /** The state a run ends in. */
  ghost function End(events: seq<Event>): (s: State)
    ensures L.Valid(s.tables)
  {
    At(events, |events|)
  }

  lemma {:induction false} SamePrefix(a: seq<Event>, b: seq<Event>, k: nat)
    requires a <= b && k <= |a|
    ensures At(a, k) == At(b, k)
  {
    hide Step, L.Valid;
    if k > 0 {
      hide At;
      SamePrefix(a, b, k - 1);
      RunStep(a, k - 1);
      RunStep(b, k - 1);
      assert a[k - 1] == b[k - 1];
    }
  }

  lemma Extend(events: seq<Event>, e: Event)
    ensures End(events + [e]) == Step(End(events), e)
  {
    hide At, Step, L.Valid;
    SamePrefix(events, events + [e], |events|);
    RunStep(events + [e], |events|);
  }

  //-- Single steps, on the whole state ---------------------------------------------------------------

  /** No guest row is the peer's. */
  predicate Stranger(t: L.Tables, peer: string) {
    forall n :: n in t.guests ==> t.guests[n].peer != peer
  }

  /** No invite has the secret. */
  predicate NewSecret(invites: map<nat, L.Invite>, secret: L.Secret) {
    forall i :: i in invites ==> invites[i].secret != secret
  }

  function Next(s: State): State {
    s.(now := s.now + 1)
  }

  function WithConn(s: State, c: nat, conn: Conn): State
    requires c < |s.conns|
  {
    Next(s).(conns := s.conns[c := conn])
  }

  /** The tables hold an unconsumed invite with the secret, for the user, open until after `at`. */
  predicate Offers(t: L.Tables, secret: L.Secret, user: string, at: L.Time) {
    exists i :: i in t.invites && t.invites[i].secret == secret && t.invites[i].user == user
      && t.invites[i].consumedAt.None? && at < t.invites[i].expiresAt
  }

  lemma MintStep(s: State, secret: L.Secret, user: string, name: string, at: L.Time)
    requires L.Valid(s.tables) && NewSecret(s.tables.invites, secret)
    ensures var s' := Step(s, Mint(secret, user, name, at));
            && s' == Next(s).(tables := s'.tables) && s'.tables.guests == s.tables.guests && L.Valid(s'.tables)
            && Offers(s'.tables, secret, user, at)
            && forall other :: other != secret && NewSecret(s.tables.invites, other) ==> NewSecret(s'.tables.invites, other)
  {
    var r := L.Create(secret, user, name, at + INVITE_VALIDITY, at);
    assert RequestOf(s, Mint(secret, user, name, at)) == Some(r);
    var t' := L.Apply(s.tables, r).0;
    var id := L.NextId(s.tables.invites.Keys);
    assert t'.invites == s.tables.invites[id := L.Invite(secret, user, name, at, at + INVITE_VALIDITY, None)];
    hide L.Valid;
    assert t'.invites[id].secret == secret;
  }

  lemma AcceptStep(s: State, peer: string)
    requires L.Valid(s.tables)
    ensures Step(s, Accept(peer)) == Next(s).(conns := s.conns + [Conn(peer, Accepted, false, [], 0, 0)])
  {
    hide L.Valid, L.Apply;
  }

  lemma LookupStep(s: State, c: nat)
    requires L.Valid(s.tables) && c < |s.conns| && s.conns[c].phase.Accepted? && Stranger(s.tables, s.conns[c].peer)
    ensures Step(s, Lookup(c, true)) == WithConn(s, c, s.conns[c].(phase := AwaitingStream))
  {
    hide L.Valid, L.Apply;
  }

  lemma OpenCtrlStep(s: State, c: nat)
    requires L.Valid(s.tables) && c < |s.conns| && s.conns[c].phase.AwaitingStream?
    ensures var conn := s.conns[c];
            Step(s, OpenStream(c, Ctrl)) ==
            WithConn(s, c, conn.(phase := Activating)).(streams := s.streams + [Stream(c, conn.peer, None, Ctrl, None)])
  {
    hide L.Valid, L.Apply;
  }

  lemma ServedStreamStep(s: State, c: nat, kind: Kind)
    requires L.Valid(s.tables) && c < |s.conns| && s.conns[c].phase.Serving?
    ensures var conn := s.conns[c];
            Step(s, OpenStream(c, kind)) == Next(s).(streams := s.streams + [Stream(c, conn.peer, Some(conn.phase.user), kind, None)])
  {
    hide L.Valid, L.Apply;
  }

  /** The new guest's row, as an activation leaves it. */
  predicate Joined(t: L.Tables, t': L.Tables, n: nat, peer: string, user: string) {
    && n !in t.guests && n in t'.guests && t'.guests == t.guests[n := t'.guests[n]]
    && t'.guests[n].peer == peer && t'.guests[n].user == user && t'.guests[n].revokedAt.None?
  }

  lemma PostStep(s: State, i: nat, secret: L.Secret, user: string, at: L.Time)
    requires L.Valid(s.tables) && i < |s.streams| && s.streams[i].kind.Ctrl?
    requires Stranger(s.tables, s.streams[i].peer) && Offers(s.tables, secret, user, at)
    ensures var s', n := Step(s, Post(i, secret, at)), L.NextId(s.tables.guests.Keys);
            && s' == Next(s).(tables := s'.tables, redeemed := s'.redeemed) && L.Valid(s'.tables)
            && Joined(s.tables, s'.tables, n, s.streams[i].peer, user)
            && forall other :: NewSecret(s.tables.invites, other) ==> NewSecret(s'.tables.invites, other)
  {
    var e := Post(i, secret, at);
    var r := L.Redeem(secret, s.streams[i].peer, at);
    assert RequestOf(s, e) == Some(r);
    var id :| id in s.tables.invites && s.tables.invites[id].secret == secret && s.tables.invites[id].user == user
              && s.tables.invites[id].consumedAt.None? && at < s.tables.invites[id].expiresAt;
    PostTables(s.tables, r, id);
    hide L.Valid, L.Apply, Recorded;
    assert Step(s, e).tables == L.Apply(s.tables, r).0;
  }

  lemma PostTables(t: L.Tables, r: L.Request, id: nat)
    requires L.Valid(t) && r.Redeem? && Stranger(t, r.peer) && id in t.invites && t.invites[id].secret == r.secret
    requires t.invites[id].consumedAt.None? && r.now < t.invites[id].expiresAt
    ensures var t', n := L.Apply(t, r).0, L.NextId(t.guests.Keys);
            && Joined(t, t', n, r.peer, t.invites[id].user)
            && t'.invites == t.invites[id := t.invites[id].(consumedAt := Some(r.now))]
  {
    assert L.InviteWith(t, r.secret) == Some(id);
    hide L.Valid;
  }

  lemma FinishStep(s: State, c: nat)
    requires L.Valid(s.tables) && c < |s.conns| && s.conns[c].phase.Activating?
    ensures Step(s, FinishActivation(c)) == WithConn(s, c, s.conns[c].(phase := Deciding))
  {
    hide L.Valid, L.Apply;
  }

  lemma DecideStep(s: State, c: nat, n: nat)
    requires L.Valid(s.tables) && c < |s.conns| && s.conns[c].phase.Deciding?
    requires n in s.tables.guests && s.tables.guests[n].peer == s.conns[c].peer
    ensures var conn, row := s.conns[c], s.tables.guests[n];
            Step(s, Decide(c, true)) ==
            WithConn(s, c, if row.revokedAt.Some? then conn.(phase := Refusing)
                           else conn.(phase := LookedUp(n, row.user), lookedUpAt := s.now))
  {
    assert L.GuestOf(s.tables, s.conns[c].peer) == Some(n);
    hide L.Valid, L.Apply;
  }

  lemma CloseRefusedStep(s: State, c: nat)
    requires L.Valid(s.tables) && c < |s.conns| && s.conns[c].phase.Refusing?
    ensures Step(s, CloseRefused(c)) == WithConn(s, c, Close(s.conns[c], Unknown))
  {
    hide L.Valid, L.Apply;
  }

  /** Recording that the guest was seen is skipped here; it may fail. */
  lemma TouchStep(s: State, c: nat)
    requires L.Valid(s.tables) && c < |s.conns| && s.conns[c].phase.LookedUp?
    ensures var conn := s.conns[c];
            Step(s, TouchGuest(c, false, 0)) == WithConn(s, c, conn.(phase := Touched(conn.phase.number, conn.phase.user)))
  {
    hide L.Valid, L.Apply;
  }

  lemma RegisterStep(s: State, c: nat)
    requires L.Valid(s.tables) && c < |s.conns| && s.conns[c].phase.Touched?
    ensures var conn := s.conns[c];
            var served := conn.(phase := Serving(conn.phase.number, conn.phase.user, s.nextId), registeredAt := s.now);
            var s' := Step(s, Register(c));
            s' == WithConn(s, c, served).(registry := s'.registry, nextId := s'.nextId)
  {
    hide L.Valid, L.Apply;
  }

  lemma RevokeWriteStep(s: State, n: nat, at: L.Time)
    requires L.Valid(s.tables) && n in s.tables.guests && s.tables.guests[n].revokedAt.None?
    ensures var s', row := Step(s, RevokeWrite(n, at)), s.tables.guests[n].(revokedAt := Some(at));
            s' == Next(s).(tables := s.tables.(guests := s.tables.guests[n := row]),
                           revokes := s.revokes + [RevokeCall(n, Written, s.now, 0)])
  {
    var e, r := RevokeWrite(n, at), L.Revoke(n, at);
    assert RequestOf(s, e) == Some(r);
    assert L.Apply(s.tables, r).0 == s.tables.(guests := s.tables.guests[n := s.tables.guests[n].(revokedAt := Some(at))]);
    hide L.Valid, L.Apply;
  }

  lemma BeginLeaveStep(s: State, i: nat, n: nat)
    requires L.Valid(s.tables) && i < |s.streams| && s.streams[i].kind.Ctrl? && s.streams[i].user.Some?
    requires n in s.tables.guests && s.tables.guests[n].peer == s.streams[i].peer
    ensures Step(s, BeginLeave(i)) == Next(s).(streams := s.streams[i := s.streams[i].(leaving := Some(n))])
  {
    assert L.GuestOf(s.tables, s.streams[i].peer) == Some(n);
    hide L.Valid, L.Apply;
  }

  lemma FinishLeaveStep(s: State, i: nat, n: nat)
    requires L.Valid(s.tables) && i < |s.streams| && s.streams[i].leaving == Some(n) && n in s.tables.guests
    ensures Step(s, FinishLeave(i)) ==
            Next(s).(tables := s.tables.(guests := s.tables.guests - {n}), streams := s.streams[i := s.streams[i].(leaving := None)])
  {
    assert RequestOf(s, FinishLeave(i)) == Some(L.Remove(n));
    assert L.Apply(s.tables, L.Remove(n)).0 == s.tables.(guests := s.tables.guests - {n});
    hide L.Valid, L.Apply;
  }

  //-- A stranger with a new invite ------------------------------------------------------------------

  /** Who joins, with what. */
  datatype Newcomer = Newcomer(peer: string, secret: L.Secret, user: string, name: string, at: L.Time)

  ghost predicate CanJoin(s: State, who: Newcomer) {
    Stranger(s.tables, who.peer) && NewSecret(s.tables.invites, who.secret)
  }

  /** Between `s` and `s'` only the newcomer came in, on connection `c`, as guest `n`. */
  ghost predicate CameIn(s: State, s': State, who: Newcomer, c: nat, n: nat) {
    && c == |s.conns| && |s'.conns| == c + 1 && s'.conns == s.conns + [s'.conns[c]]
    && s'.conns[c].peer == who.peer && !s'.conns[c].gone && s'.conns[c].asked == []
    && n == L.NextId(s.tables.guests.Keys) && Joined(s.tables, s'.tables, n, who.peer, who.user)
    && s.streams < s'.streams && s'.revokes == s.revokes
    && forall other :: other != who.secret && NewSecret(s.tables.invites, other) ==> NewSecret(s'.tables.invites, other)
  }

  /** The host minted the invite and accepted the connection, which now waits for its stream. */
  lemma Arrives(events: seq<Event>, who: Newcomer) returns (run: seq<Event>)
    requires CanJoin(End(events), who)
    ensures events <= run
    ensures var s, s' := End(events), End(run);
            && s'.conns == s.conns + [Conn(who.peer, AwaitingStream, false, [], 0, 0)]
            && s'.streams == s.streams && s'.revokes == s.revokes && s'.tables.guests == s.tables.guests
            && Offers(s'.tables, who.secret, who.user, who.at)
            && forall other :: other != who.secret && NewSecret(s.tables.invites, other) ==> NewSecret(s'.tables.invites, other)
  {
    hide Step, At, End, L.Valid, Offers, NewSecret;
    var s, c := End(events), |End(events).conns|;
    run := events + [Mint(who.secret, who.user, who.name, who.at)];
    Extend(events, Mint(who.secret, who.user, who.name, who.at));
    MintStep(s, who.secret, who.user, who.name, who.at);
    Extend(run, Accept(who.peer));
    AcceptStep(End(run), who.peer);
    run := run + [Accept(who.peer)];
    Extend(run, Lookup(c, true));
    LookupStep(End(run), c);
    run := run + [Lookup(c, true)];
    assert End(run).conns == s.conns + [Conn(who.peer, AwaitingStream, false, [], 0, 0)];
  }

  /** From any run, a stranger with a new invite can activate: its row exists, its connection is not identified yet. */
  lemma Activates(events: seq<Event>, who: Newcomer) returns (run: seq<Event>, c: nat, n: nat)
    requires CanJoin(End(events), who)
    ensures events <= run && CameIn(End(events), End(run), who, c, n) && End(run).conns[c].phase.Activating?
  {
    hide Step, At, End, L.Valid, Offers, NewSecret;
    var s := End(events);
    c, n := |s.conns|, L.NextId(s.tables.guests.Keys);
    run := Arrives(events, who);
    Extend(run, OpenStream(c, Ctrl));
    OpenCtrlStep(End(run), c);
    run := run + [OpenStream(c, Ctrl)];
    var i := |s.streams|;
    Extend(run, Post(i, who.secret, who.at));
    PostStep(End(run), i, who.secret, who.user, who.at);
    run := run + [Post(i, who.secret, who.at)];
    assert End(run).conns == s.conns + [Conn(who.peer, Activating, false, [], 0, 0)];
  }

  /** From any run, such a stranger can come to be looked up but not registered. */
  lemma WindowIsReachable(events: seq<Event>, who: Newcomer) returns (run: seq<Event>, c: nat, n: nat)
    requires CanJoin(End(events), who)
    ensures events <= run && CameIn(End(events), End(run), who, c, n)
    ensures InWindow(End(run), c, n) && n in End(run).tables.guests && End(run).conns[c].phase.user == who.user
  {
    hide Step, At, End, L.Valid, NewSecret;
    run, c, n := Activates(events, who);
    Extend(run, FinishActivation(c));
    FinishStep(End(run), c);
    run := run + [FinishActivation(c)];
    Extend(run, Decide(c, true));
    DecideStep(End(run), c, n);
    run := run + [Decide(c, true)];
    assert End(run).conns == End(events).conns + [End(run).conns[c]];
  }

  /** And then to be served. */
  lemma IsServed(events: seq<Event>, who: Newcomer) returns (run: seq<Event>, c: nat, n: nat)
    requires CanJoin(End(events), who)
    ensures events <= run && CameIn(End(events), End(run), who, c, n)
    ensures End(run).conns[c].phase.Serving? && End(run).conns[c].phase.number == n && End(run).conns[c].phase.user == who.user
  {
    hide Step, At, End, L.Valid, NewSecret;
    run, c, n := WindowIsReachable(events, who);
    Extend(run, TouchGuest(c, false, 0));
    TouchStep(End(run), c);
    run := run + [TouchGuest(c, false, 0)];
    Extend(run, Register(c));
    RegisterStep(End(run), c);
    run := run + [Register(c)];
    assert End(run).conns == End(events).conns + [End(run).conns[c]];
  }

  //-- Runs that show the limits of a revoke -----------------------------------------------------------

  /**
   From any run, a stranger can activate, be revoked before its second lookup, and be closed
   with the unknown code while its revoked row is kept.
   */
  lemma RevokedButToldUnknown(events: seq<Event>, who: Newcomer) returns (run: seq<Event>, c: nat, n: nat)
    requires CanJoin(End(events), who)
    ensures var s' := End(run);
            && c < |s'.conns| && s'.conns[c].peer == who.peer && s'.conns[c].phase.Ended? && s'.conns[c].asked == [Unknown]
            && n in s'.tables.guests && s'.tables.guests[n].peer == who.peer && s'.tables.guests[n].revokedAt == Some(who.at)
  {
    hide Step, At, End, L.Valid, NewSecret;
    run, c, n := Activates(events, who);
    Extend(run, RevokeWrite(n, who.at));
    RevokeWriteStep(End(run), n, who.at);
    run := run + [RevokeWrite(n, who.at)];
    Extend(run, FinishActivation(c));
    FinishStep(End(run), c);
    run := run + [FinishActivation(c)];
    Extend(run, Decide(c, true));
    DecideStep(End(run), c, n);
    run := run + [Decide(c, true)];
    Extend(run, CloseRefused(c));
    CloseRefusedStep(End(run), c);
    run := run + [CloseRefused(c)];
  }

  /** The guest is served, its revoke is written, and it removes its own row on a stream of its own. */
  lemma RevokedLeaves(events: seq<Event>, who: Newcomer) returns (run: seq<Event>, j: nat, c: nat, n: nat)
    requires CanJoin(End(events), who)
    ensures events <= run && j <= |run| && c == |End(events).conns| && n == L.NextId(End(events).tables.guests.Keys)
    ensures var t := At(run, j).tables; n in t.guests && t.guests[n].peer == who.peer && t.guests[n].revokedAt == Some(who.at)
    ensures var s, s' := End(events), End(run);
            && s'.tables.guests == s.tables.guests && |s'.conns| == c + 1
            && |s'.revokes| == |s.revokes| + 1 && s'.revokes[|s.revokes|].number == n && s'.revokes[|s.revokes|].phase.Written?
            && forall other :: other != who.secret && NewSecret(s.tables.invites, other) ==> NewSecret(s'.tables.invites, other)
  {
    hide Step, At, L.Valid, NewSecret;
    run, c, n := IsServed(events, who);
    var i := |End(run).streams|;
    Extend(run, OpenStream(c, Ctrl));
    ServedStreamStep(End(run), c, Ctrl);
    run := run + [OpenStream(c, Ctrl)];
    Extend(run, RevokeWrite(n, who.at));
    RevokeWriteStep(End(run), n, who.at);
    run := run + [RevokeWrite(n, who.at)];
    j := |run|;
    var revoked := run;
    Extend(run, BeginLeave(i));
    BeginLeaveStep(End(run), i, n);
    run := run + [BeginLeave(i)];
    Extend(run, FinishLeave(i));
    FinishLeaveStep(End(run), i, n);
    run := run + [FinishLeave(i)];
    SamePrefix(revoked, run, j);
    assert End(run).tables.guests == End(events).tables.guests;
  }

  /** From any run, a guest that is revoked and removes its own row is let in again by another invite. */
  lemma RevokedComesBack(events: seq<Event>, who: Newcomer, again: Newcomer) returns (run: seq<Event>, j: nat, n: nat)
    requires CanJoin(End(events), who) && CanJoin(End(events), again)
    requires again.peer == who.peer && again.secret != who.secret
    ensures j <= |run|
    ensures var t := At(run, j).tables; n in t.guests && t.guests[n].peer == who.peer && t.guests[n].revokedAt.Some?
    ensures var t := End(run).tables; n in t.guests && t.guests[n].peer == who.peer && t.guests[n].revokedAt.None?
  {
    hide Step, At, End, L.Valid, NewSecret;
    var c;
    run, j, c, n := RevokedLeaves(events, who);
    var before := run;
    run, c, n := IsServed(before, again);
    SamePrefix(before, run, j);
  }

  /**
   Numbers are handed out again: from any run, a guest that did nothing is told it is revoked,
   because between the write and the sweep of a revoke the row was removed and its number
   given to it.
   */
  lemma AnotherIsToldRevoked(events: seq<Event>, who: Newcomer, other: Newcomer) returns (run: seq<Event>, c: nat, n: nat)
    requires CanJoin(End(events), who) && CanJoin(End(events), other)
    requires other.peer != who.peer && other.secret != who.secret
    requires L.NextId(End(events).tables.guests.Keys) < 0x8000_0000
    ensures var s' := End(run);
            && c < |s'.conns| && s'.conns[c].peer == other.peer && s'.conns[c].asked == [Revoked]
            && n in s'.tables.guests && s'.tables.guests[n].peer == other.peer && s'.tables.guests[n].revokedAt.None?
  {
    hide Step, At, L.Valid, NewSecret;
    var j, r := 0, |End(events).revokes|;
    run, j, c, n := RevokedLeaves(events, who);
    var before := run;
    run, c, n := IsServed(before, other);
    var served := run;
    Extend(served, Sweep(r));
    run := served + [Sweep(r)];
    SamePrefix(served, run, |served|);
    SweepReachesExactly(run, |served|, r, c);
    SweepKeepsTables(End(served), r);
  }

  lemma SweepKeepsTables(s: State, r: nat)
    requires L.Valid(s.tables)
    ensures Step(s, Sweep(r)).tables == s.tables
  {
    hide L.Valid, L.Apply;
  }

  /** A sweep misses every connection of a guest whose number is 2^31 or more. */
  lemma LargeNumbersAreMissed(events: seq<Event>, i: nat, r: nat, c: nat)
    requires i < |events| && events[i] == Sweep(r)
    requires r < |At(events, i).revokes| && At(events, i).revokes[r].phase.Written?
    requires c < |At(events, i).conns| && At(events, i).conns[c].phase.Serving?
    requires At(events, i).conns[c].phase.number == At(events, i).revokes[r].number >= 0x8000_0000
    ensures c < |At(events, i + 1).conns| && At(events, i + 1).conns[c] == At(events, i).conns[c]
  {
    hide At;
    SweepReachesExactly(events, i, r, c);
  }
}
