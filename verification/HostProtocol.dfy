/**
 The host's side of the membership protocol over iroh (waserver/src/iroh_transport.rs,
 serving.rs, protocol.rs, guest_api.rs, reverse_proxy.rs) as one state machine: accepting,
 activating, serving and revoking interleave at every await. What the network, the clock and
 the database do is chosen by the environment.
 */
module HostProtocol {
  import opened Prelude
  import L = Ledger

  /** The close codes of the wire contract, numbered in this order from 0. */
  datatype CloseCode = Closing | Unknown | Revoked

  /** What a stream's first byte announces; `Other` is an unknown byte or none at all. */
  datatype Kind = Ctrl | ReverseProxy | ForwardProxy | Other

  predicate DataPlane(kind: Kind) {
    kind.ReverseProxy? || kind.ForwardProxy?
  }

  /** How far the handling of one connection has got. */
  datatype Phase =
    | Accepted
    | AwaitingStream
    | Activating
    | Deciding
    | Refusing
    | LookedUp(number: nat, user: string)
    | Touched(number: nat, user: string)
    | Serving(number: nat, user: string, id: nat)
    | Ended

  /** `asked` lists the close codes the host passed to the connection; the first is what the guest sees. */
  datatype Conn = Conn(peer: string, phase: Phase, gone: bool, asked: seq<CloseCode>, lookedUpAt: nat, registeredAt: nat)

  /** A stream being handled, with the identity fixed when it was accepted. */
  datatype Stream = Stream(conn: nat, peer: string, user: Option<string>, kind: Kind, leaving: Option<nat>)

  datatype Registration = Registration(number: int, user: string, conn: nat)

  /** That `peer` redeemed the invite with this secret, which was minted for `user`. */
  datatype Redeemed = Redeemed(peer: string, secret: L.Secret, user: string)

  type Headers = map<string, seq<string>>

  /** A request sent upstream for a stream; `taken` is whether the HTTP library took the user id as a header value. */
  datatype Forwarded = Forwarded(stream: nat, headers: Headers, taken: bool)

  datatype RevokePhase = Written | Swept | Returned

  datatype RevokeCall = RevokeCall(number: nat, phase: RevokePhase, writtenAt: nat, sweptAt: nat)

  datatype State = State(
    tables: L.Tables,
    redeemed: set<Redeemed>,
    conns: seq<Conn>,
    registry: map<nat, Registration>,
    nextId: nat,
    streams: seq<Stream>,
    forwarded: seq<Forwarded>,
    revokes: seq<RevokeCall>,
    now: nat)

  datatype Event =
    | Mint(secret: L.Secret, user: string, name: string, at: L.Time)
    | Accept(peer: string)
    | Lookup(conn: nat, ok: bool)
    | OpenStream(conn: nat, kind: Kind)
    | ActivationTimeout(conn: nat)
    | FinishActivation(conn: nat)
    | Decide(conn: nat, ok: bool)
    | CloseRefused(conn: nat)
    | TouchGuest(conn: nat, ok: bool, at: L.Time)
    | Register(conn: nat)
    | PeerCloses(conn: nat)
    | EndServing(conn: nat)
    | Post(stream: nat, secret: L.Secret, at: L.Time)
    | BeginLeave(stream: nat)
    | FinishLeave(stream: nat)
    | Forward(stream: nat, headers: Headers, taken: bool)
    | RevokeWrite(number: nat, at: L.Time)
    | Sweep(revoke: nat)
    | Return(revoke: nat)
    | Shutdown

  const INVITE_VALIDITY: L.Time := 24 * 60 * 60

  const INITIAL := State(L.EMPTY, {}, [], map[], 0, [], [], [], 0)

  //-- Identity headers ----------------------------------------------------------------------

  const IDENTITY_HEADER := "x-wispers-access-user"

  /** `taken` is the HTTP library's verdict on the user id as a header value. */
  function Injected(headers: Headers, user: string, taken: bool): Headers {
    var stripped := headers - {IDENTITY_HEADER};
    if taken then stripped[IDENTITY_HEADER := [user]] else stripped
  }

  /** At most one identity header: the user's if the library took it, otherwise none. */
  predicate Identifies(headers: Headers, user: string, taken: bool) {
    && (IDENTITY_HEADER in headers <==> taken)
    && (IDENTITY_HEADER in headers ==> headers[IDENTITY_HEADER] == [user])
  }

  //-- Steps -----------------------------------------------------------------------------------

  /** `as i32`. */
  function Wrap32(n: int): (r: int)
    ensures -0x8000_0000 <= r < 0x8000_0000
    ensures r == n <==> -0x8000_0000 <= n < 0x8000_0000
  {
    (n + 0x8000_0000) % 0x1_0000_0000 - 0x8000_0000
  }

  function Ask(c: Conn, code: CloseCode): Conn {
    c.(asked := c.asked + [code])
  }

  function Close(c: Conn, code: CloseCode): Conn {
    Ask(c, code).(phase := Ended)
  }

  /** The first lookup, which decides whether the peer is served, turned away or heard out. */
  ghost function LookUp(t: L.Tables, c: Conn, ok: bool, now: nat): Conn {
    if !ok then Close(c, Closing)
    else
      match L.GuestOf(t, c.peer)
      case None => c.(phase := AwaitingStream)
      case Some(n) =>
        if t.guests[n].revokedAt.Some? then Close(c, Revoked)
        else c.(phase := LookedUp(n, t.guests[n].user), lookedUpAt := now)
  }

  /** The lookup after an activation stream. */
  ghost function DecideOn(t: L.Tables, c: Conn, ok: bool, now: nat): Conn {
    if !ok then Close(c, Closing)
    else
      match L.GuestOf(t, c.peer)
      case None => c.(phase := Refusing)
      case Some(n) =>
        if t.guests[n].revokedAt.Some? then c.(phase := Refusing)
        else c.(phase := LookedUp(n, t.guests[n].user), lookedUpAt := now)
  }

  /** A connection's own steps that touch nothing else. */
  ghost function ConnStep(t: L.Tables, c: Conn, e: Event, now: nat): Conn {
    match (e, c.phase)
    case (Lookup(_, ok), Accepted) => LookUp(t, c, ok, now)
    case (ActivationTimeout(_), AwaitingStream) => Close(c, Unknown)
    case (FinishActivation(_), Activating) => c.(phase := Deciding)
    case (Decide(_, ok), Deciding) => DecideOn(t, c, ok, now)
    case (CloseRefused(_), Refusing) => Close(c, Unknown)
    case (TouchGuest(_, _, _), LookedUp(n, user)) => c.(phase := Touched(n, user))
    case (PeerCloses(_), AwaitingStream) => c.(gone := true, phase := Ended)
    case (PeerCloses(_), _) => c.(gone := true)
    case _ => c
  }

  /**
   A stream is accepted: an unknown peer's data-plane stream ends its connection. Streams
   received before a close may still be handed out after it.
   */
  function Opens(s: State, c: nat, kind: Kind): State
    requires c < |s.conns|
  {
    var conn := s.conns[c];
    match conn.phase
    case AwaitingStream =>
      if DataPlane(kind) then s.(conns := s.conns[c := Close(conn, Unknown)])
      else
        s.(conns := s.conns[c := conn.(phase := Activating)],
           streams := s.streams + [Stream(c, conn.peer, None, kind, None)])
    case Serving(_, user, _) => s.(streams := s.streams + [Stream(c, conn.peer, Some(user), kind, None)])
    case _ => s
  }

  function Registers(s: State, c: nat): State
    requires c < |s.conns|
  {
    var conn := s.conns[c];
    if !conn.phase.Touched? then s
    else
      var n, user := conn.phase.number, conn.phase.user;
      s.(registry := s.registry[s.nextId := Registration(Wrap32(n), user, c)],
         conns := s.conns[c := conn.(phase := Serving(n, user, s.nextId), registeredAt := s.now)],
         nextId := s.nextId + 1)
  }

  /** `accept_bi` can fail once either side has closed. */
  function Ends(s: State, c: nat): State
    requires c < |s.conns|
  {
    var conn := s.conns[c];
    if conn.phase.Serving? && (conn.gone || conn.asked != []) then
      s.(registry := s.registry - {conn.phase.id}, conns := s.conns[c := conn.(phase := Ended)])
    else s
  }

  /** Some registration of connection `c` is under `number`, or under any for `None`. */
  ghost predicate Registered(registry: map<nat, Registration>, c: nat, number: Option<int>) {
    exists id :: id in registry && registry[id].conn == c && (number.None? || registry[id].number == number.value)
  }

  /** One pass of `close_connections` over the registry. */
  ghost function Asking(conns: seq<Conn>, registry: map<nat, Registration>, number: Option<int>, code: CloseCode): (r: seq<Conn>)
    ensures |r| == |conns|
    ensures forall c :: 0 <= c < |conns| ==>
              r[c] == if Registered(registry, c, number) then Ask(conns[c], code) else conns[c]
  {
    seq(|conns|, c requires 0 <= c < |conns| => if Registered(registry, c, number) then Ask(conns[c], code) else conns[c])
  }

  /** The invite the answered redemption was for, as a record of who redeemed what. */
  ghost function Recorded(t: L.Tables, t': L.Tables, e: Event, peer: string, redeemed: set<Redeemed>): set<Redeemed>
    requires L.Valid(t) && e.Post?
  {
    var r := L.Redeem(e.secret, peer, e.at);
    match L.InviteWith(t', e.secret)
    case Some(i) =>
      if L.Apply(t, r).1.Redeemed? && L.Apply(t, r).1.outcome.Activated?
      then redeemed + {Redeemed(peer, e.secret, t'.invites[i].user)} else redeemed
    case None => redeemed
  }

  /** The database request an event makes, if any. */
  ghost function RequestOf(s: State, e: Event): Option<L.Request> {
    match e
    case Mint(secret, user, name, at) => Some(L.Create(secret, user, name, at + INVITE_VALIDITY, at))
    case TouchGuest(c, ok, at) =>
      if ok && c < |s.conns| && s.conns[c].phase.LookedUp? then Some(L.Touch(s.conns[c].peer, at)) else None
    case Post(i, secret, at) =>
      if i < |s.streams| && s.streams[i].kind.Ctrl? then Some(L.Redeem(secret, s.streams[i].peer, at)) else None
    case FinishLeave(i) =>
      if i < |s.streams| && s.streams[i].leaving.Some? then Some(L.Remove(s.streams[i].leaving.value)) else None
    case RevokeWrite(n, at) => Some(L.Revoke(n, at))
    case _ => None
  }

  ghost function TablesAfter(s: State, e: Event): (t: L.Tables)
    requires L.Valid(s.tables)
    ensures L.Valid(t)
  {
    match RequestOf(s, e)
    case None => s.tables
    case Some(r) =>
      L.ApplyKeeps(s.tables, r);
      L.Apply(s.tables, r).0
  }

  /** What an event does besides its database request. */
  ghost function Effect(s: State, e: Event): State
    requires L.Valid(s.tables)
  {
    match e
    case Mint(_, _, _, _) => s
    case Accept(peer) => s.(conns := s.conns + [Conn(peer, Accepted, false, [], 0, 0)])
    case OpenStream(c, kind) => if c < |s.conns| then Opens(s, c, kind) else s
    case Register(c) => if c < |s.conns| then Registers(s, c) else s
    case EndServing(c) => if c < |s.conns| then Ends(s, c) else s
    case Post(i, _, _) =>
      if RequestOf(s, e).Some? then
        s.(redeemed := Recorded(s.tables, TablesAfter(s, e), e, s.streams[i].peer, s.redeemed))
      else s
    case BeginLeave(i) =>
      if i < |s.streams| && s.streams[i].kind.Ctrl? && s.streams[i].user.Some? then
        s.(streams := s.streams[i := s.streams[i].(leaving := L.GuestOf(s.tables, s.streams[i].peer))])
      else s
    case FinishLeave(i) =>
      if i < |s.streams| then s.(streams := s.streams[i := s.streams[i].(leaving := None)]) else s
    case Forward(i, headers, taken) =>
      if i < |s.streams| && s.streams[i].kind.ReverseProxy? && s.streams[i].user.Some? then
        s.(forwarded := s.forwarded + [Forwarded(i, Injected(headers, s.streams[i].user.value, taken), taken)])
      else s
    case RevokeWrite(n, _) =>
      if n in s.tables.guests then s.(revokes := s.revokes + [RevokeCall(n, Written, s.now, 0)]) else s
    case Sweep(r) =>
      if r < |s.revokes| && s.revokes[r].phase.Written? then
        s.(conns := Asking(s.conns, s.registry, Some(s.revokes[r].number), Revoked),
           revokes := s.revokes[r := s.revokes[r].(phase := Swept, sweptAt := s.now)])
      else s
    case Return(r) =>
      if r < |s.revokes| && s.revokes[r].phase.Swept? then s.(revokes := s.revokes[r := s.revokes[r].(phase := Returned)]) else s
    case Shutdown => s.(conns := Asking(s.conns, s.registry, None, Closing))
    case _ =>
      if e.conn < |s.conns| then s.(conns := s.conns[e.conn := ConnStep(s.tables, s.conns[e.conn], e, s.now)]) else s
  }

  ghost function Step(s: State, e: Event): (r: State)
    requires L.Valid(s.tables)
    ensures r.now == s.now + 1 && L.Valid(r.tables)
  {
    Effect(s, e).(tables := TablesAfter(s, e), now := s.now + 1)
  }

  /** The state before event `k` of a run. */
  ghost function At(events: seq<Event>, k: nat): (s: State)
    requires k <= |events|
    ensures L.Valid(s.tables) && s.now == k
  {
    if k == 0 then INITIAL else Step(At(events, k - 1), events[k - 1])
  }

  lemma RunStep(events: seq<Event>, k: nat)
    requires k < |events|
    ensures At(events, k + 1) == Step(At(events, k), events[k])
  {
  }

  //-- Who carries which identity ---------------------------------------------------------------

  ghost predicate Redeemer(redeemed: set<Redeemed>, peer: string, user: string) {
    exists r :: r in redeemed && r.peer == peer && r.user == user
  }

  /** The guest this connection's task has resolved, once it has. */
  function UserOf(p: Phase): Option<string> {
    match p
    case LookedUp(_, user) => Some(user)
    case Touched(_, user) => Some(user)
    case Serving(_, user, _) => Some(user)
    case _ => None
  }

  ghost predicate GoodConn(redeemed: set<Redeemed>, c: Conn) {
    UserOf(c.phase).Some? ==> Redeemer(redeemed, c.peer, UserOf(c.phase).value)
  }

  ghost predicate GoodStream(redeemed: set<Redeemed>, st: Stream) {
    && (st.user.Some? ==> Redeemer(redeemed, st.peer, st.user.value))
    && (DataPlane(st.kind) ==> st.user.Some?)
  }

  predicate GoodForward(streams: seq<Stream>, f: Forwarded) {
    f.stream < |streams| && streams[f.stream].user.Some? && Identifies(f.headers, streams[f.stream].user.value, f.taken)
  }

  /** Every guest row belongs to a peer that redeemed an invite minted for the row's user. */
  ghost predicate GoodRows(t: L.Tables, redeemed: set<Redeemed>) {
    forall n :: n in t.guests ==> Redeemer(redeemed, t.guests[n].peer, t.guests[n].user)
  }

  /** A redemption on record is of an invite the operator minted for that user, now consumed. */
  ghost predicate Genuine(t: L.Tables, r: Redeemed) {
    exists i :: i in t.invites && t.invites[i].secret == r.secret && t.invites[i].user == r.user && t.invites[i].consumedAt.Some?
  }

  ghost predicate Good(s: State) {
    && L.Valid(s.tables)
    && GoodRows(s.tables, s.redeemed)
    && (forall r :: r in s.redeemed ==> Genuine(s.tables, r))
    && (forall c :: 0 <= c < |s.conns| ==> GoodConn(s.redeemed, s.conns[c]))
    && (forall i :: 0 <= i < |s.streams| ==> GoodStream(s.redeemed, s.streams[i]))
    && (forall i :: 0 <= i < |s.forwarded| ==> GoodForward(s.streams, s.forwarded[i]))
  }

  /** Where a row after a request comes from. */
  lemma RowOrigin(t: L.Tables, r: L.Request, n: nat)
    requires L.Valid(t) && n in L.Apply(t, r).0.guests
    ensures var (t', a) := L.Apply(t, r);
            || (n in t.guests && L.SameBinding(t.guests[n], t'.guests[n]))
            || (r.Redeem? && a == L.Redeemed(L.Activated(L.Guest(n, t'.guests[n]))) && t'.guests[n].peer == r.peer)
  {
  }

  lemma GenuineStays(t: L.Tables, r: L.Request, record: Redeemed)
    requires L.Valid(t) && Genuine(t, record)
    ensures Genuine(L.Apply(t, r).0, record)
  {
    var i :| i in t.invites && t.invites[i].secret == record.secret && t.invites[i].user == record.user && t.invites[i].consumedAt.Some?;
    L.InvitesOnlyGrow(t, r, i);
  }

  /** An activation puts on record the user the guest row carries. */
  lemma ActivationRecords(t: L.Tables, e: Event, peer: string, redeemed: set<Redeemed>, g: L.Guest)
    requires L.Valid(t) && e.Post?
    requires var r := L.Redeem(e.secret, peer, e.at); L.Apply(t, r).1 == L.Redeemed(L.Activated(g))
    ensures var t' := L.Apply(t, L.Redeem(e.secret, peer, e.at)).0;
            && Recorded(t, t', e, peer, redeemed) == redeemed + {Redeemed(peer, e.secret, g.row.user)}
            && g.row.peer == peer && Genuine(t', Redeemed(peer, e.secret, g.row.user))
  {
    var r := L.Redeem(e.secret, peer, e.at);
    var t' := L.Apply(t, r).0;
    L.ActivationSettles(t, r, g);
    L.ApplyKeeps(t, r);
    hide L.Apply;
    L.InvitesAreUnique(t');
    assert L.Bound(t', t'.guests[g.number]);
    hide L.Valid;
    assert L.InviteWith(t', e.secret) == Some(g.row.invite);
  }

  lemma RedeemerStays(a: set<Redeemed>, b: set<Redeemed>, peer: string, user: string)
    requires a <= b && Redeemer(a, peer, user)
    ensures Redeemer(b, peer, user)
  {
  }

  lemma PostKeeps(s: State, e: Event)
    requires Good(s) && e.Post? && RequestOf(s, e).Some?
    ensures var s' := Step(s, e);
            && s.redeemed <= s'.redeemed && GoodRows(s'.tables, s'.redeemed)
            && forall r :: r in s'.redeemed ==> Genuine(s'.tables, r)
  {
    var t, peer := s.tables, s.streams[e.stream].peer;
    var r := L.Redeem(e.secret, peer, e.at);
    var (t', a) := L.Apply(t, r);
    var s' := Step(s, e);
    assert s'.tables == t' && s'.redeemed == Recorded(t, t', e, peer, s.redeemed);
    hide Step, L.Valid;
    if a.Redeemed? && a.outcome.Activated? {
      ActivationRecords(t, e, peer, s.redeemed, a.outcome.guest);
    }
    forall record | record in s'.redeemed ensures Genuine(t', record) {
      if record in s.redeemed { GenuineStays(t, r, record); }
    }
    RowsKeep(s, r, s'.redeemed);
  }

  lemma RowsKeep(s: State, r: L.Request, redeemed: set<Redeemed>)
    requires L.Valid(s.tables) && GoodRows(s.tables, s.redeemed) && s.redeemed <= redeemed
    requires var a := L.Apply(s.tables, r).1;
             r.Redeem? && a.Redeemed? && a.outcome.Activated? ==> Redeemer(redeemed, r.peer, a.outcome.guest.row.user)
    ensures GoodRows(L.Apply(s.tables, r).0, redeemed)
  {
    var t, t' := s.tables, L.Apply(s.tables, r).0;
    forall n | n in t'.guests ensures Redeemer(redeemed, t'.guests[n].peer, t'.guests[n].user) {
      RowOrigin(t, r, n);
      hide L.Apply, L.Valid;
      if n in t.guests {
        RedeemerStays(s.redeemed, redeemed, t.guests[n].peer, t.guests[n].user);
      }
    }
  }

  lemma TablesKeep(s: State, e: Event)
    requires Good(s)
    ensures var s' := Step(s, e);
            && s.redeemed <= s'.redeemed && GoodRows(s'.tables, s'.redeemed)
            && forall r :: r in s'.redeemed ==> Genuine(s'.tables, r)
  {
    if e.Post? && RequestOf(s, e).Some? {
      PostKeeps(s, e);
    } else {
      var s' := Step(s, e);
      assert s'.redeemed == s.redeemed;
      if RequestOf(s, e).Some? {
        var r := RequestOf(s, e).value;
        assert s'.tables == L.Apply(s.tables, r).0 && !r.Redeem?;
        hide Step, L.Valid, L.Apply;
        RowsKeep(s, r, s.redeemed);
        forall record | record in s.redeemed ensures Genuine(s'.tables, record) {
          GenuineStays(s.tables, r, record);
        }
      }
    }
  }

  lemma GoodConnStays(a: set<Redeemed>, b: set<Redeemed>, c: Conn)
    requires a <= b && GoodConn(a, c)
    ensures GoodConn(b, c)
  {
  }

  /** A connection's identity only ever comes from the row its lookup found. */
  lemma ConnStepKeeps(s: State, c: Conn, e: Event)
    requires GoodRows(s.tables, s.redeemed) && GoodConn(s.redeemed, c)
    ensures GoodConn(s.redeemed, ConnStep(s.tables, c, e, s.now))
  {
  }

  lemma ConnsKeep(s: State, e: Event)
    requires Good(s)
    ensures var s' := Step(s, e); forall c :: 0 <= c < |s'.conns| ==> GoodConn(s.redeemed, s'.conns[c])
  {
    hide Step, L.Valid, ConnStep;
    var s' := Step(s, e);
    forall c | 0 <= c < |s'.conns| ensures GoodConn(s.redeemed, s'.conns[c]) {
      if !s'.conns[c].phase.Accepted? {
        NewConn(s, e, c);
        ConnStepKeeps(s, s.conns[c], e);
        ConnEvolves(s, e, c);
      }
    }
  }

  lemma NewConn(s: State, e: Event, c: nat)
    requires L.Valid(s.tables) && c < |Step(s, e).conns| && !Step(s, e).conns[c].phase.Accepted?
    ensures c < |s.conns|
  {
    hide L.Valid, ConnStep, L.Apply;
  }

  /** Everything an event can do to connection `c`. */
  ghost predicate Evolves(s: State, e: Event, c: nat, c2: Conn)
    requires c < |s.conns|
  {
    var c1 := s.conns[c];
    || c2 == c1 || c2 == Ask(c1, Closing) || c2 == Ask(c1, Revoked)
    || c2 == ConnStep(s.tables, c1, e, s.now)
    || (c1.phase.AwaitingStream? && (c2 == Close(c1, Unknown) || c2 == c1.(phase := Activating)))
    || (c1.phase.Touched? && e == Register(c)
        && c2 == c1.(phase := Serving(c1.phase.number, c1.phase.user, s.nextId), registeredAt := s.now))
    || (c1.phase.Serving? && c2 == c1.(phase := Ended))
  }

  lemma ConnEvolves(s: State, e: Event, c: nat)
    requires L.Valid(s.tables) && c < |s.conns|
    ensures c < |Step(s, e).conns| && Evolves(s, e, c, Step(s, e).conns[c])
  {
    hide L.Valid, L.Apply, ConnStep;
  }

  /** A new stream comes from its connection: unidentified while activating, or the guest's. */
  lemma StreamOrigin(s: State, e: Event, i: nat)
    requires L.Valid(s.tables) && i < |Step(s, e).streams|
    ensures var st := Step(s, e).streams[i];
            || (i < |s.streams| && st == s.streams[i].(leaving := st.leaving))
            || (&& i == |s.streams| && st.conn < |s.conns| && e == OpenStream(st.conn, st.kind)
                && var c := s.conns[st.conn];
                   && st.peer == c.peer
                   && ((c.phase.AwaitingStream? && st.user.None? && !DataPlane(st.kind))
                       || (c.phase.Serving? && st.user == Some(c.phase.user))))
  {
    hide L.Valid, L.Apply, ConnStep;
  }

  lemma StreamsStay(s: State, e: Event, i: nat)
    requires L.Valid(s.tables) && i < |s.streams|
    ensures i < |Step(s, e).streams| && Step(s, e).streams[i] == s.streams[i].(leaving := Step(s, e).streams[i].leaving)
  {
    hide L.Valid, L.Apply, ConnStep;
  }

  lemma StreamsKeep(s: State, e: Event)
    requires Good(s)
    ensures var s' := Step(s, e); forall i :: 0 <= i < |s'.streams| ==> GoodStream(s.redeemed, s'.streams[i])
  {
    var s' := Step(s, e);
    hide Step, L.Valid;
    forall i | 0 <= i < |s'.streams| ensures GoodStream(s.redeemed, s'.streams[i]) {
      StreamOrigin(s, e, i);
      if i >= |s.streams| {
        assert GoodConn(s.redeemed, s.conns[s'.streams[i].conn]);
      }
    }
  }

  /** Injection strips whatever identity the guest sent. */
  lemma InjectedIdentifies(headers: Headers, user: string, taken: bool)
    ensures Identifies(Injected(headers, user, taken), user, taken)
    ensures forall h :: h != IDENTITY_HEADER ==> (h in Injected(headers, user, taken) <==> h in headers)
    ensures forall h :: h != IDENTITY_HEADER && h in headers ==> Injected(headers, user, taken)[h] == headers[h]
  {
  }

  lemma ForwardOrigin(s: State, e: Event, i: nat)
    requires L.Valid(s.tables) && i < |Step(s, e).forwarded|
    ensures var f := Step(s, e).forwarded[i];
            || (i < |s.forwarded| && f == s.forwarded[i])
            || (&& f.stream < |s.streams| && s.streams[f.stream].user.Some? && e.Forward?
                && f.headers == Injected(e.headers, s.streams[f.stream].user.value, f.taken))
  {
    hide L.Valid, L.Apply, ConnStep;
  }

  lemma ForwardsKeep(s: State, e: Event)
    requires Good(s)
    ensures var s' := Step(s, e); forall i :: 0 <= i < |s'.forwarded| ==> GoodForward(s'.streams, s'.forwarded[i])
  {
    var s' := Step(s, e);
    hide Step, L.Valid;
    forall i | 0 <= i < |s'.forwarded| ensures GoodForward(s'.streams, s'.forwarded[i]) {
      ForwardOrigin(s, e, i);
      var f := s'.forwarded[i];
      StreamsStay(s, e, f.stream);
      InjectedIdentifies(if e.Forward? then e.headers else map[], s.streams[f.stream].user.value, f.taken);
    }
  }

  lemma StepKeepsGood(s: State, e: Event)
    requires Good(s)
    ensures Good(Step(s, e))
  {
    TablesKeep(s, e);
    ConnsKeep(s, e);
    StreamsKeep(s, e);
    ForwardsKeep(s, e);
    var s' := Step(s, e);
    hide Step, L.Valid, GoodRows, Genuine;
    forall c | 0 <= c < |s'.conns| ensures GoodConn(s'.redeemed, s'.conns[c]) {
      GoodConnStays(s.redeemed, s'.redeemed, s'.conns[c]);
    }
    forall i | 0 <= i < |s'.streams| ensures GoodStream(s'.redeemed, s'.streams[i]) {
      if s'.streams[i].user.Some? {
        RedeemerStays(s.redeemed, s'.redeemed, s'.streams[i].peer, s'.streams[i].user.value);
      }
    }
  }

  lemma InitialIsGood()
    ensures Good(INITIAL)
  {
  }

  lemma {:induction false} RunIsGood(events: seq<Event>, k: nat)
    requires k <= |events|
    ensures Good(At(events, k))
  {
    hide Step, Good;
    if k == 0 {
      InitialIsGood();
    } else {
      hide At;
      RunStep(events, k - 1);
      RunIsGood(events, k - 1);
      StepKeepsGood(At(events, k - 1), events[k - 1]);
    }
  }

  /**
   Any request forwarded for a peer carries at most one identity header, whose value is the
   user id of an invite this peer redeemed; the header is missing exactly when the HTTP
   library did not take that id as a header value.
   */
  lemma IdentityIsRedeemed(events: seq<Event>, k: nat, i: nat)
    requires k <= |events| && i < |At(events, k).forwarded|
    ensures var s := At(events, k);
            var f := s.forwarded[i];
            f.stream < |s.streams|
            && exists r :: r in s.redeemed && r.peer == s.streams[f.stream].peer && Genuine(s.tables, r) && Identifies(f.headers, r.user, f.taken)
  {
    RunIsGood(events, k);
    var s := At(events, k);
    hide At;
    assert GoodForward(s.streams, s.forwarded[i]);
    var st := s.streams[s.forwarded[i].stream];
    assert GoodStream(s.redeemed, st);
    var r :| r in s.redeemed && r.peer == st.peer && r.user == st.user.value;
    assert Genuine(s.tables, r);
  }

  /** A peer that redeemed no invite never has a data-plane stream served. */
  lemma NoInviteNoDataPlane(events: seq<Event>, k: nat, peer: string)
    requires k <= |events| && forall r :: r in At(events, k).redeemed ==> r.peer != peer
    ensures var s := At(events, k);
            forall i :: 0 <= i < |s.streams| && s.streams[i].peer == peer ==> !DataPlane(s.streams[i].kind) && s.streams[i].user.None?
  {
    RunIsGood(events, k);
    var s := At(events, k);
    hide At;
    forall i | 0 <= i < |s.streams| && s.streams[i].peer == peer ensures s.streams[i].user.None? && !DataPlane(s.streams[i].kind) {
      assert GoodStream(s.redeemed, s.streams[i]);
    }
  }

  /** Event `j` was an activation by `r.peer` with `r.secret` that the ledger granted. */
  ghost predicate Grants(events: seq<Event>, j: nat, r: Redeemed)
    requires j < |events|
  {
    var s, e := At(events, j), events[j];
    && e.Post? && e.secret == r.secret && e.stream < |s.streams| && s.streams[e.stream].peer == r.peer
    && var a := L.Apply(s.tables, L.Redeem(e.secret, r.peer, e.at)).1;
       a.Redeemed? && a.outcome.Activated? && a.outcome.guest.row.user == r.user
  }

  lemma RecordStep(s: State, e: Event, r: Redeemed)
    requires L.Valid(s.tables) && r in Step(s, e).redeemed && r !in s.redeemed
    ensures && e.Post? && e.secret == r.secret && e.stream < |s.streams| && s.streams[e.stream].peer == r.peer
            && var a := L.Apply(s.tables, L.Redeem(e.secret, r.peer, e.at)).1;
               a.Redeemed? && a.outcome.Activated? && a.outcome.guest.row.user == r.user
  {
    assert e.Post? && RequestOf(s, e).Some?;
    var peer := s.streams[e.stream].peer;
    var a := L.Apply(s.tables, L.Redeem(e.secret, peer, e.at)).1;
    assert r in Recorded(s.tables, TablesAfter(s, e), e, peer, s.redeemed);
    hide Step, L.Apply;
    assert a.Redeemed? && a.outcome.Activated?;
    ActivationRecords(s.tables, e, peer, s.redeemed, a.outcome.guest);
  }

  /** Whatever is on record was redeemed, by that peer, in the run. */
  lemma {:induction false} RecordsAreGrants(events: seq<Event>, k: nat, r: Redeemed) returns (j: nat)
    requires k <= |events| && r in At(events, k).redeemed
    ensures j < k && Grants(events, j, r)
  {
    hide Step, L.Apply, L.Valid;
    assert k > 0;
    hide At;
    RunStep(events, k - 1);
    var s := At(events, k - 1);
    if r in s.redeemed {
      j := RecordsAreGrants(events, k - 1, r);
    } else {
      j := k - 1;
      RecordStep(s, events[j], r);
    }
  }

  //-- The header map as the program changes it ----------------------------------------------------

  class RequestHead {
    var headers: Headers

    method InjectIdentity(user: string, taken: bool)
      modifies this
      ensures headers == Injected(old(headers), user, taken) && Identifies(headers, user, taken)
    {
      headers := headers - {IDENTITY_HEADER};
      if taken {
        headers := headers[IDENTITY_HEADER := [user]];
      }
    }
  }
}
