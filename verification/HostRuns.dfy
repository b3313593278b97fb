/**
 Whom the host serves and whom it turns away, over every run: what each lookup decides, that a
 returning guest is served and its requests forwarded, and what closing, leaving and shutting
 down do.
 */
module HostRuns {
  import opened Prelude
  import opened HostProtocol
  import opened Revocation
  import opened RevocationRuns
  import L = Ledger

  //-- What a lookup decides ------------------------------------------------------------------------

  /** Row `n` is the peer's and is not revoked. */
  predicate ActiveRow(t: L.Tables, peer: string, n: nat) {
    n in t.guests && t.guests[n].peer == peer && t.guests[n].revokedAt.None?
  }

  predicate RevokedRow(t: L.Tables, peer: string, n: nat) {
    n in t.guests && t.guests[n].peer == peer && t.guests[n].revokedAt.Some?
  }

  lemma RowIsFound(t: L.Tables, peer: string, n: nat)
    requires L.Valid(t) && n in t.guests && t.guests[n].peer == peer
    ensures L.GuestOf(t, peer) == Some(n)
  {
  }

  /**
   The first lookup serves a guest in good standing as its row says, turns a revoked one away
   with that code, hears a stranger out, and closes without a verdict if the database fails.
   */
  lemma LookupDecides(s: State, c: nat, n: nat)
    requires L.Valid(s.tables) && c < |s.conns| && s.conns[c].phase.Accepted?
    ensures var conn, peer := s.conns[c], s.conns[c].peer;
            var s', failed := Step(s, Lookup(c, true)), Step(s, Lookup(c, false));
            && |s'.conns| == |s.conns| && |failed.conns| == |s.conns|
            && failed.conns[c] == conn.(phase := Ended, asked := conn.asked + [Closing])
            && (ActiveRow(s.tables, peer, n) ==>
                  s'.conns[c] == conn.(phase := LookedUp(n, s.tables.guests[n].user), lookedUpAt := s.now))
            && (RevokedRow(s.tables, peer, n) ==> s'.conns[c] == conn.(phase := Ended, asked := conn.asked + [Revoked]))
            && (Stranger(s.tables, peer) ==> s'.conns[c] == conn.(phase := AwaitingStream))
  {
    if n in s.tables.guests && s.tables.guests[n].peer == s.conns[c].peer {
      RowIsFound(s.tables, s.conns[c].peer, n);
    }
    hide L.Valid, L.Apply;
  }

  /** The lookup after an activation stream serves a guest in good standing and nobody else. */
  lemma DecisionDecides(s: State, c: nat, n: nat)
    requires L.Valid(s.tables) && c < |s.conns| && s.conns[c].phase.Deciding?
    ensures var conn, peer := s.conns[c], s.conns[c].peer;
            var s', failed := Step(s, Decide(c, true)), Step(s, Decide(c, false));
            && |s'.conns| == |s.conns| && |failed.conns| == |s.conns|
            && failed.conns[c] == conn.(phase := Ended, asked := conn.asked + [Closing])
            && (ActiveRow(s.tables, peer, n) ==>
                  s'.conns[c] == conn.(phase := LookedUp(n, s.tables.guests[n].user), lookedUpAt := s.now))
            && (RevokedRow(s.tables, peer, n) || Stranger(s.tables, peer) ==> s'.conns[c] == conn.(phase := Refusing))
  {
    if n in s.tables.guests && s.tables.guests[n].peer == s.conns[c].peer {
      RowIsFound(s.tables, s.conns[c].peer, n);
    }
    hide L.Valid, L.Apply;
  }

  //-- Who is told that it is unknown ----------------------------------------------------------------

  /** The connection is or was handled as a stranger's. */
  predicate AsStranger(c: Conn) {
    c.phase.AwaitingStream? || c.phase.Activating? || c.phase.Deciding? || c.phase.Refusing? || Unknown in c.asked
  }

  lemma StrangerStep(s: State, e: Event, c: nat)
    requires L.Valid(s.tables) && c < |s.conns| && !AsStranger(s.conns[c])
    requires c < |Step(s, e).conns| && AsStranger(Step(s, e).conns[c])
    ensures e == Lookup(c, true) && s.conns[c].phase.Accepted? && Stranger(s.tables, s.conns[c].peer)
  {
    hide Step, L.Valid, L.Apply;
    ConnEvolves(s, e, c);
    LookupStepIsOwn(s, e, c);
  }

  lemma LookupStepIsOwn(s: State, e: Event, c: nat)
    requires L.Valid(s.tables) && c < |s.conns| && c < |Step(s, e).conns| && Step(s, e).conns[c].phase.AwaitingStream?
    requires !s.conns[c].phase.AwaitingStream?
    ensures e.Lookup? && e.conn == c
  {
    hide L.Valid, L.Apply, LookUp;
  }

  lemma {:induction false} UnknownCodeIsEarned(events: seq<Event>, k: nat, c: nat) returns (j: nat)
    requires k <= |events| && c < |At(events, k).conns| && AsStranger(At(events, k).conns[c])
    ensures j < k && events[j] == Lookup(c, true) && c < |At(events, j).conns|
    ensures At(events, j).conns[c].phase.Accepted? && Stranger(At(events, j).tables, At(events, j).conns[c].peer)
    ensures At(events, j).conns[c].peer == At(events, k).conns[c].peer
  {
    hide Step, L.Valid, AsStranger;
    assert k > 0;
    hide At;
    RunStep(events, k - 1);
    var s, e := At(events, k - 1), events[k - 1];
    AlreadyThere(s, e, c);
    if AsStranger(s.conns[c]) {
      j := UnknownCodeIsEarned(events, k - 1, c);
    } else {
      j := k - 1;
      StrangerStep(s, e, c);
    }
    PeerStays(s, e, c);
  }

  lemma AlreadyThere(s: State, e: Event, c: nat)
    requires L.Valid(s.tables) && c < |Step(s, e).conns| && AsStranger(Step(s, e).conns[c])
    ensures c < |s.conns|
  {
    hide L.Valid, ConnStep, L.Apply;
  }

  lemma PeerStays(s: State, e: Event, c: nat)
    requires L.Valid(s.tables) && c < |s.conns|
    ensures c < |Step(s, e).conns| && Step(s, e).conns[c].peer == s.conns[c].peer
  {
    hide Step, L.Valid, ConnStep;
    ConnEvolves(s, e, c);
    OwnStepKeepsPeer(s.tables, s.conns[c], e, s.now);
  }

  lemma OwnStepKeepsPeer(t: L.Tables, c: Conn, e: Event, now: nat)
    ensures ConnStep(t, c, e, now).peer == c.peer
  {
  }

  lemma DecidedStep(s: State, e: Event, c: nat)
    requires L.Valid(s.tables) && c < |s.conns| && c < |Step(s, e).conns| && Step(s, e).conns[c] != s.conns[c] && e.Decide?
    ensures e.conn == c
  {
    hide L.Valid, L.Apply, DecideOn;
  }

  lemma RefusingStep(s: State, e: Event, c: nat)
    requires L.Valid(s.tables) && c < |s.conns| && !s.conns[c].phase.Refusing?
    requires c < |Step(s, e).conns| && Step(s, e).conns[c].phase.Refusing?
    ensures e == Decide(c, true) && forall n :: !ActiveRow(s.tables, s.conns[c].peer, n)
  {
    hide L.Valid, L.Apply;
    ConnEvolves(s, e, c);
    DecidedStep(s, e, c);
    hide Step;
    forall n | n in s.tables.guests && s.tables.guests[n].peer == s.conns[c].peer
      ensures L.GuestOf(s.tables, s.conns[c].peer) == Some(n) {
      RowIsFound(s.tables, s.conns[c].peer, n);
    }
  }

  /** A guest is refused after its activation stream only if it had no row in good standing. */
  lemma {:induction false} RefusalIsEarned(events: seq<Event>, k: nat, c: nat) returns (j: nat)
    requires k <= |events| && c < |At(events, k).conns| && At(events, k).conns[c].phase.Refusing?
    ensures j < k && events[j] == Decide(c, true) && c < |At(events, j).conns|
    ensures forall n :: !ActiveRow(At(events, j).tables, At(events, k).conns[c].peer, n)
  {
    hide Step, L.Valid, ActiveRow;
    assert k > 0;
    hide At;
    RunStep(events, k - 1);
    var s, e := At(events, k - 1), events[k - 1];
    AlreadyThere(s, e, c);
    PeerStays(s, e, c);
    if s.conns[c].phase.Refusing? {
      j := RefusalIsEarned(events, k - 1, c);
    } else {
      j := k - 1;
      RefusingStep(s, e, c);
    }
  }

  //-- A guest that comes back -----------------------------------------------------------------------------

  /** From any run, a guest in good standing can come back on a new connection and be served as its row says. */
  lemma ReturningGuestIsServed(events: seq<Event>, n: nat) returns (run: seq<Event>, c: nat)
    requires n in End(events).tables.guests && End(events).tables.guests[n].revokedAt.None?
    ensures events <= run && c == |End(events).conns| && |End(run).conns| == c + 1
    ensures var s, s' := End(events), End(run);
            && s'.conns[c].peer == s.tables.guests[n].peer && s'.conns[c].asked == [] && !s'.conns[c].gone
            && s'.conns[c].phase.Serving? && s'.conns[c].phase.number == n && s'.conns[c].phase.user == s.tables.guests[n].user
            && s'.tables == s.tables && s'.streams == s.streams && s'.forwarded == s.forwarded
  {
    hide Step, At, End, L.Valid;
    var s := End(events);
    var peer := s.tables.guests[n].peer;
    c := |s.conns|;
    run := events + [Accept(peer)];
    Extend(events, Accept(peer));
    AcceptStep(s, peer);
    Extend(run, Lookup(c, true));
    KnownLookup(End(run), c, n);
    run := run + [Lookup(c, true)];
    Extend(run, TouchGuest(c, false, 0));
    TouchStep(End(run), c);
    run := run + [TouchGuest(c, false, 0)];
    Extend(run, Register(c));
    RegisterStep(End(run), c);
    run := run + [Register(c)];
  }

  lemma KnownLookup(s: State, c: nat, n: nat)
    requires L.Valid(s.tables) && c < |s.conns| && s.conns[c].phase.Accepted?
    requires ActiveRow(s.tables, s.conns[c].peer, n)
    ensures Step(s, Lookup(c, true)) ==
            WithConn(s, c, s.conns[c].(phase := LookedUp(n, s.tables.guests[n].user), lookedUpAt := s.now))
  {
    RowIsFound(s.tables, s.conns[c].peer, n);
    hide L.Valid, L.Apply;
  }

  lemma ForwardStep(s: State, i: nat, headers: Headers, taken: bool)
    requires L.Valid(s.tables) && i < |s.streams| && s.streams[i].kind.ReverseProxy? && s.streams[i].user.Some?
    ensures var s' := Step(s, Forward(i, headers, taken));
            && |s'.forwarded| == |s.forwarded| + 1
            && s'.forwarded[..|s.forwarded|] == s.forwarded
            && s'.forwarded[|s.forwarded|] == Forwarded(i, Injected(headers, s.streams[i].user.value, taken), taken)
  {
    hide L.Valid, L.Apply, Injected;
  }

  /**
   And its request is forwarded with its own identity, whatever identity it claimed, and its
   other headers as it sent them.
   */
  lemma ReturningGuestIsForwarded(events: seq<Event>, n: nat, headers: Headers, taken: bool) returns (run: seq<Event>, f: Forwarded)
    requires n in End(events).tables.guests && End(events).tables.guests[n].revokedAt.None?
    ensures events <= run && |End(run).forwarded| == |End(events).forwarded| + 1
    ensures f == End(run).forwarded[|End(events).forwarded|] && f.taken == taken
    ensures Identifies(f.headers, End(events).tables.guests[n].user, taken)
    ensures forall h :: h != IDENTITY_HEADER ==> (h in f.headers <==> h in headers)
    ensures forall h :: h != IDENTITY_HEADER && h in headers ==> f.headers[h] == headers[h]
  {
    hide Step, At, End, L.Valid, Injected, Identifies;
    var c;
    run, c := ReturningGuestIsServed(events, n);
    var i, user := |End(run).streams|, End(events).tables.guests[n].user;
    Extend(run, OpenStream(c, ReverseProxy));
    ServedStreamStep(End(run), c, ReverseProxy);
    run := run + [OpenStream(c, ReverseProxy)];
    Extend(run, Forward(i, headers, taken));
    ForwardStep(End(run), i, headers, taken);
    run := run + [Forward(i, headers, taken)];
    f := Forwarded(i, Injected(headers, user, taken), taken);
    InjectedIdentifies(headers, user, taken);
  }

  //-- Strangers and closes -----------------------------------------------------------------------------------

  /** A stranger that opens a data-plane stream, or none in time, is closed as unknown for good. */
  lemma StrangerIsClosed(events: seq<Event>, i: nat, k: nat, c: nat)
    requires i < k <= |events| && c < |At(events, i).conns| && At(events, i).conns[c].phase.AwaitingStream?
    requires events[i] == ActivationTimeout(c) || (events[i].OpenStream? && events[i].conn == c && DataPlane(events[i].kind))
    ensures ClosedUnserved(At(events, k), c, Unknown)
  {
    hide At, Step, Tidy, L.Valid;
    RunStep(events, i);
    RunIsTidy(events, i);
    StrangerCloses(At(events, i), events[i], c);
    StaysClosed(events, i + 1, k, c, Unknown);
  }

  lemma StrangerCloses(s: State, e: Event, c: nat)
    requires L.Valid(s.tables) && Tidy(s) && c < |s.conns| && s.conns[c].phase.AwaitingStream?
    requires e == ActivationTimeout(c) || (e.OpenStream? && e.conn == c && DataPlane(e.kind))
    ensures ClosedUnserved(Step(s, e), c, Unknown)
  {
    assert TidyConn(s.registry, c, s.conns[c]);
    NoIdentityYet(s, e, c);
    hide Tidy, L.Valid, L.Apply;
  }

  /** A connection either side has closed is taken off the registry, alone. */
  lemma ClosedIsUnregistered(events: seq<Event>, i: nat, c: nat)
    requires i < |events| && events[i] == EndServing(c) && c < |At(events, i).conns|
    requires At(events, i).conns[c].phase.Serving? && (At(events, i).conns[c].gone || At(events, i).conns[c].asked != [])
    ensures var s, s' := At(events, i), At(events, i + 1);
            && c < |s'.conns| && s'.conns[c] == s.conns[c].(phase := Ended) && s'.registry == s.registry - {s.conns[c].phase.id}
            && !Registered(s'.registry, c, None)
  {
    hide At, L.Valid;
    RunStep(events, i);
    RunIsTidy(events, i + 1);
    OnlyServedAreRegistered(At(events, i + 1), c, None);
    hide Tidy, Registered;
  }

  /** A shutdown asks every connection being served to close, and no other. */
  lemma ShutdownReachesExactly(events: seq<Event>, i: nat, c: nat)
    requires i < |events| && events[i] == Shutdown && c < |At(events, i).conns|
    ensures var s, s' := At(events, i), At(events, i + 1);
            && c < |s'.conns|
            && s'.conns[c] == if s.conns[c].phase.Serving? then Ask(s.conns[c], Closing) else s.conns[c]
  {
    hide At, L.Valid;
    RunStep(events, i);
    RunIsTidy(events, i);
    OnlyServedAreRegistered(At(events, i), c, None);
    hide Tidy;
  }

  /** A guest being served is seen: the time goes on its row, and on no other. */
  lemma ServedIsSeen(s: State, c: nat, n: nat, at: L.Time)
    requires L.Valid(s.tables) && c < |s.conns| && s.conns[c].phase.LookedUp?
    requires n in s.tables.guests && s.tables.guests[n].peer == s.conns[c].peer
    ensures Step(s, TouchGuest(c, true, at)).tables ==
            s.tables.(guests := s.tables.guests[n := s.tables.guests[n].(lastSeen := Some(at))])
  {
    RowIsFound(s.tables, s.conns[c].peer, n);
    assert RequestOf(s, TouchGuest(c, true, at)) == Some(L.Touch(s.conns[c].peer, at));
    hide L.Valid;
  }

  /** An invite can be redeemed for a day from its minting. */
  lemma InvitesLastADay(s: State, secret: L.Secret, user: string, name: string, at: L.Time, peer: string, now: L.Time)
    requires L.Valid(s.tables) && NewSecret(s.tables.invites, secret) && Stranger(s.tables, peer)
    ensures var t := Step(s, Mint(secret, user, name, at)).tables;
            && L.Valid(t)
            && var a := L.Apply(t, L.Redeem(secret, peer, now)).1;
               && a.Redeemed? && (a.outcome.Activated? <==> now < at + 86400)
               && (a.outcome.Activated? ==> a.outcome.guest.row.user == user && a.outcome.guest.row.name == name)
  {
    var r := L.Create(secret, user, name, at + INVITE_VALIDITY, at);
    assert RequestOf(s, Mint(secret, user, name, at)) == Some(r);
    var t := L.Apply(s.tables, r).0;
    L.ApplyKeeps(s.tables, r);
    var id := L.NextId(s.tables.invites.Keys);
    assert t == s.tables.(invites := s.tables.invites[id := L.Invite(secret, user, name, at, at + INVITE_VALIDITY, None)]);
    L.InvitesAreUnique(t);
    hide L.Valid;
    assert L.InviteWith(t, t.invites[id].secret) == Some(id);
    assert L.GuestOf(t, peer) == None;
  }

  /** A peer that closes is gone, and stays so. */
  lemma PeerIsGone(s: State, c: nat)
    requires L.Valid(s.tables) && c < |s.conns|
    ensures c < |Step(s, PeerCloses(c)).conns| && Step(s, PeerCloses(c)).conns[c].gone
    ensures s.conns[c].phase.AwaitingStream? ==> Step(s, PeerCloses(c)).conns[c].phase.Ended?
  {
    hide L.Valid, L.Apply;
  }

  //-- What a stream may do ------------------------------------------------------------------------------------

  /** Only an identified stream can ask to leave, and only a reverse-proxy stream has requests forwarded. */
  ghost predicate Entitled(s: State) {
    && (forall i :: 0 <= i < |s.streams| && s.streams[i].leaving.Some? ==> s.streams[i].user.Some? && s.streams[i].kind.Ctrl?)
    && (forall i :: 0 <= i < |s.forwarded| ==>
          s.forwarded[i].stream < |s.streams| && s.streams[s.forwarded[i].stream].kind.ReverseProxy?)
  }

  lemma LeaveOrigin(s: State, e: Event, i: nat)
    requires L.Valid(s.tables) && i < |Step(s, e).streams| && Step(s, e).streams[i].leaving.Some?
    ensures var st := Step(s, e).streams[i];
            && i < |s.streams|
            && (s.streams[i] == st || (s.streams[i].user.Some? && s.streams[i].kind.Ctrl? && st == s.streams[i].(leaving := st.leaving)))
  {
    hide L.Valid, L.Apply, ConnStep;
  }

  lemma ForwardKind(s: State, e: Event, i: nat)
    requires L.Valid(s.tables) && i < |Step(s, e).forwarded|
    ensures var f := Step(s, e).forwarded[i];
            || (i < |s.forwarded| && f == s.forwarded[i])
            || (f.stream < |s.streams| && s.streams[f.stream].kind.ReverseProxy?)
  {
    hide L.Valid, L.Apply, ConnStep;
  }

  lemma EntitledStep(s: State, e: Event)
    requires L.Valid(s.tables) && Entitled(s)
    ensures Entitled(Step(s, e))
  {
    hide Step, L.Valid;
    var s' := Step(s, e);
    forall i | 0 <= i < |s'.streams| && s'.streams[i].leaving.Some?
      ensures s'.streams[i].user.Some? && s'.streams[i].kind.Ctrl? {
      LeaveOrigin(s, e, i);
    }
    forall i | 0 <= i < |s'.forwarded|
      ensures s'.forwarded[i].stream < |s'.streams| && s'.streams[s'.forwarded[i].stream].kind.ReverseProxy? {
      ForwardKind(s, e, i);
      StreamsStay(s, e, s'.forwarded[i].stream);
    }
  }

  lemma {:induction false} RunIsEntitled(events: seq<Event>, k: nat)
    requires k <= |events|
    ensures Entitled(At(events, k))
  {
    hide Step, L.Valid;
    if k > 0 {
      hide At, Entitled;
      RunIsEntitled(events, k - 1);
      RunStep(events, k - 1);
      EntitledStep(At(events, k - 1), events[k - 1]);
    }
  }

  //-- Leaving -----------------------------------------------------------------------------------------------

  /** Two looks at a number find the same row exactly if it was kept in between. */
  lemma SameRowExactly(events: seq<Event>, n: nat, b: nat, f: nat)
    requires b <= f <= |events| && n in At(events, b).tables.guests && n in At(events, f).tables.guests
    ensures At(events, f).tables.guests[n].invite == At(events, b).tables.guests[n].invite <==> RowKept(events, n, b, f)
  {
    hide At, L.Valid;
    RowLivesOnce(events, b, f, n, At(events, b).tables.guests[n].invite);
    if RowKept(events, n, b, f) {
      KeptIsSame(events, n, b, f);
    }
  }

  /**
   A guest that asks to leave twice can remove another's row: between the two, its number was
   given to somebody else, who asked for nothing.
   */
  lemma LeavingTwiceRemovesAnother(events: seq<Event>, who: Newcomer, other: Newcomer) returns (run: seq<Event>, j: nat, n: nat)
    requires CanJoin(End(events), who) && CanJoin(End(events), other)
    requires other.peer != who.peer && other.secret != who.secret
    ensures j <= |run| && ActiveRow(At(run, j).tables, other.peer, n) && n !in End(run).tables.guests
    ensures forall k :: j <= k < |run| ==> !run[k].RevokeWrite? && !run[k].BeginLeave?
  {
    hide Step, At, End, L.Valid, NewSecret, RowKept;
    var c, i;
    run, c, i, n := LeavesOnce(events, who);
    run, c, n := Activates(run, other);
    j := |run|;
    var before := run;
    Extend(before, FinishLeave(i + 1));
    FinishLeaveStep(End(before), i + 1, n);
    run := before + [FinishLeave(i + 1)];
    SamePrefix(before, run, j);
    assert At(run, j) == End(before) by { EndIs(before); }
  }

  lemma EndIs(events: seq<Event>)
    ensures End(events) == At(events, |events|)
  {
    hide At;
  }

  /** The guest asks to leave on two streams, and the first request is carried out. */
  lemma LeavesOnce(events: seq<Event>, who: Newcomer) returns (run: seq<Event>, c: nat, i: nat, n: nat)
    requires CanJoin(End(events), who)
    ensures events <= run && n == L.NextId(End(events).tables.guests.Keys)
    ensures var s, s' := End(events), End(run);
            && s'.tables.guests == s.tables.guests && i + 1 < |s'.streams| && s'.streams[i + 1].leaving == Some(n)
            && forall secret :: secret != who.secret && NewSecret(s.tables.invites, secret) ==> NewSecret(s'.tables.invites, secret)
  {
    hide Step, At, End, L.Valid, NewSecret;
    run, c, n := IsServed(events, who);
    i := |End(run).streams|;
    Extend(run, OpenStream(c, Ctrl));
    ServedStreamStep(End(run), c, Ctrl);
    run := run + [OpenStream(c, Ctrl)];
    Extend(run, OpenStream(c, Ctrl));
    ServedStreamStep(End(run), c, Ctrl);
    run := run + [OpenStream(c, Ctrl)];
    Extend(run, BeginLeave(i));
    BeginLeaveStep(End(run), i, n);
    run := run + [BeginLeave(i)];
    Extend(run, BeginLeave(i + 1));
    BeginLeaveStep(End(run), i + 1, n);
    run := run + [BeginLeave(i + 1)];
    Extend(run, FinishLeave(i));
    FinishLeaveStep(End(run), i, n);
    run := run + [FinishLeave(i)];
    assert End(run).tables.guests == End(events).tables.guests;
  }
}
