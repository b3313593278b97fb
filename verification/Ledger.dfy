/**
 The host's ledger of invites and guests (waserver/src/storage.rs): two SQLite tables keyed
 by rowid, with their UNIQUE and NULL rules. A secret stands for its SHA-256 hash, which is
 taken to be injective. Times are Unix seconds, and no order between them is assumed.
 */
module Ledger {
  import opened Prelude

  type Secret = seq<byte>
  type Time = int

  datatype Invite = Invite(
    secret: Secret, user: string, name: string, createdAt: Time, expiresAt: Time, consumedAt: Option<Time>)

  datatype Row = Row(
    peer: string, user: string, name: string, invite: nat, activatedAt: Time, lastSeen: Option<Time>, revokedAt: Option<Time>)

  datatype Tables = Tables(invites: map<nat, Invite>, guests: map<nat, Row>)

  /** A guest as handed to callers: its rowid and its row. */
  datatype Guest = Guest(number: nat, row: Row)

  datatype Refusal = Revoked | AlreadyGuest | InviteUnknown | InviteConsumed | InviteExpired

  datatype Redemption = Activated(guest: Guest) | Refused(why: Refusal)

  datatype Request =
    | Create(secret: Secret, user: string, name: string, expiresAt: Time, now: Time)
    | Redeem(secret: Secret, peer: string, now: Time)
    | Touch(peer: string, now: Time)
    | Remove(number: nat)
    | Revoke(number: nat, now: Time)

  /** What a request answers; `Failed` is a constraint violation or a missing guest. */
  datatype Answer = Created(id: nat) | Redeemed(outcome: Redemption) | Marked | Found(guest: Guest) | Failed

  const EMPTY := Tables(map[], map[])

  //-- Rowids ------------------------------------------------------------------------------

  lemma HasHighest(ids: set<nat>)
    requires ids != {}
    ensures exists x :: x in ids && forall m :: m in ids ==> m <= x
  {
    var x :| x in ids;
    var rest := ids - {x};
    var top := x;
    if rest != {} {
      HasHighest(rest);
      var y :| y in rest && forall m :: m in rest ==> m <= y;
      top := if x < y then y else x;
    }
    forall m | m in ids ensures m <= top {
      assert m in rest || m == x;
    }
  }

  /** A rowid without AUTOINCREMENT: one above the highest row there is now. */
  ghost function NextId(ids: set<nat>): (r: nat)
    ensures r > 0 && r !in ids && forall m :: m in ids ==> m < r
    ensures r == 1 || r - 1 in ids
  {
    if ids == {} then 1
    else
      HasHighest(ids);
      var x :| x in ids && forall m :: m in ids ==> m <= x;
      x + 1
  }

  /** A number can be handed out again exactly when the highest-numbered row was removed. */
  lemma NumberReused(ids: set<nat>, n: nat)
    requires n in ids && n > 0
    ensures NextId(ids - {n}) <= n <==> forall m :: m in ids ==> m <= n
  {
    var rest := ids - {n};
    assert forall m :: m in ids ==> m in rest || m == n;
    if NextId(rest) <= n {
      assert forall m :: m in rest ==> m < NextId(rest);
    } else if NextId(rest) != 1 {
      assert NextId(rest) - 1 in ids && NextId(rest) - 1 != n;
    }
  }

  //-- Requests ----------------------------------------------------------------------------

  ghost function InviteWith(t: Tables, secret: Secret): (r: Option<nat>)
    ensures r.Some? ==> r.value in t.invites && t.invites[r.value].secret == secret
    ensures r.None? ==> forall i :: i in t.invites ==> t.invites[i].secret != secret
  {
    if i: nat :| i in t.invites && t.invites[i].secret == secret then Some(i) else None
  }

  ghost function GuestOf(t: Tables, peer: string): (r: Option<nat>)
    ensures r.Some? ==> r.value in t.guests && t.guests[r.value].peer == peer
    ensures r.None? ==> forall n :: n in t.guests ==> t.guests[n].peer != peer
  {
    if n: nat :| n in t.guests && t.guests[n].peer == peer then Some(n) else None
  }

  /** `create_invite`: the UNIQUE secret hash refuses a second invite with the same secret. */
  ghost function Creating(t: Tables, r: Request): (Tables, Answer)
    requires r.Create?
  {
    if InviteWith(t, r.secret).Some? then (t, Failed)
    else
      var id := NextId(t.invites.Keys);
      (t.(invites := t.invites[id := Invite(r.secret, r.user, r.name, r.now, r.expiresAt, None)]), Created(id))
  }

  /** `redeem_invite`: an existing row decides first, then the invite. */
  ghost function Redeeming(t: Tables, r: Request): (Tables, Answer)
    requires r.Redeem? && Valid(t)
  {
    match GuestOf(t, r.peer)
    case Some(n) =>
      var row := t.guests[n];
      (t, Redeemed(
         if row.revokedAt.Some? then Refused(Revoked)
         else if t.invites[row.invite].secret == r.secret then Activated(Guest(n, row))
         else Refused(AlreadyGuest)))
    case None =>
      match InviteWith(t, r.secret)
      case None => (t, Redeemed(Refused(InviteUnknown)))
      case Some(id) =>
        var invite := t.invites[id];
        if invite.consumedAt.Some? then (t, Redeemed(Refused(InviteConsumed)))
        else if invite.expiresAt <= r.now then (t, Redeemed(Refused(InviteExpired)))
        else
          var n := NextId(t.guests.Keys);
          var row := Row(r.peer, invite.user, invite.name, id, r.now, None, None);
          (Tables(t.invites[id := invite.(consumedAt := Some(r.now))], t.guests[n := row]), Redeemed(Activated(Guest(n, row))))
  }

  ghost function Apply(t: Tables, r: Request): (Tables, Answer)
    requires Valid(t)
  {
    match r
    case Create(_, _, _, _, _) => Creating(t, r)
    case Redeem(_, _, _) => Redeeming(t, r)
    case Touch(peer, now) =>
      (match GuestOf(t, peer)
       case Some(n) => (t.(guests := t.guests[n := t.guests[n].(lastSeen := Some(now))]), Marked)
       case None => (t, Marked))
    case Remove(n) => if n in t.guests then (t.(guests := t.guests - {n}), Marked) else (t, Failed)
    case Revoke(n, now) =>
      if n !in t.guests then (t, Failed)
      else
        var row := t.guests[n];
        var marked := if row.revokedAt.None? then row.(revokedAt := Some(now)) else row;
        (t.(guests := t.guests[n := marked]), Found(Guest(n, marked)))
  }

  //-- What every request keeps ----------------------------------------------------------------

  /** The row is bound to a consumed invite and carries what the operator put in it. */
  predicate Bound(t: Tables, row: Row) {
    && row.invite in t.invites
    && var invite := t.invites[row.invite];
       row.user == invite.user && row.name == invite.name && invite.consumedAt == Some(row.activatedAt)
  }

  ghost predicate Valid(t: Tables) {
    && (forall n :: n in t.guests ==> n > 0 && Bound(t, t.guests[n]))
    && (forall m, n :: m in t.guests && n in t.guests && m != n ==>
          t.guests[m].peer != t.guests[n].peer && t.guests[m].invite != t.guests[n].invite)
    && (forall i, j :: i in t.invites && j in t.invites && i != j ==> t.invites[i].secret != t.invites[j].secret)
  }

  lemma CreatingKeeps(t: Tables, r: Request)
    requires Valid(t) && r.Create?
    ensures Valid(Creating(t, r).0)
  {
  }

  /** Two versions of a row that differ at most in when the guest was seen or revoked. */
  predicate SameBinding(a: Row, b: Row) {
    b == a.(lastSeen := b.lastSeen, revokedAt := b.revokedAt)
  }

  lemma MarkingKeeps(t: Tables, n: nat, row: Row)
    requires Valid(t) && n in t.guests && SameBinding(t.guests[n], row)
    ensures Valid(t.(guests := t.guests[n := row]))
  {
    var t' := t.(guests := t.guests[n := row]);
    assert forall m :: m in t.guests ==> Bound(t, t.guests[m]);
    assert forall m :: m in t'.guests ==> m in t.guests && SameBinding(t.guests[m], t'.guests[m]);
  }

  lemma RemovingKeeps(t: Tables, n: nat)
    requires Valid(t)
    ensures Valid(t.(guests := t.guests - {n}))
  {
    var t' := t.(guests := t.guests - {n});
    assert forall m :: m in t'.guests ==> m in t.guests && t'.guests[m] == t.guests[m] && Bound(t, t.guests[m]);
  }

  /** Consuming an unconsumed invite touches no row there is. */
  lemma ConsumingKeeps(t: Tables, id: nat, now: Time)
    requires Valid(t) && id in t.invites && t.invites[id].consumedAt.None?
    ensures Valid(t.(invites := t.invites[id := t.invites[id].(consumedAt := Some(now))]))
    ensures forall n :: n in t.guests ==> t.guests[n].invite != id
  {
    var t' := t.(invites := t.invites[id := t.invites[id].(consumedAt := Some(now))]);
    assert forall n :: n in t.guests ==> Bound(t, t.guests[n]);
    assert forall n :: n in t.guests ==> Bound(t', t.guests[n]);
  }

  lemma InsertingKeeps(t: Tables, n: nat, row: Row)
    requires Valid(t) && n > 0 && n !in t.guests && Bound(t, row)
    requires forall m :: m in t.guests ==> t.guests[m].peer != row.peer && t.guests[m].invite != row.invite
    ensures Valid(t.(guests := t.guests[n := row]))
  {
    var t' := t.(guests := t.guests[n := row]);
    assert forall m :: m in t.guests ==> Bound(t', t.guests[m]);
  }

  lemma RedeemingKeeps(t: Tables, r: Request)
    requires Valid(t) && r.Redeem?
    ensures Valid(Redeeming(t, r).0)
  {
    if GuestOf(t, r.peer).None? && InviteWith(t, r.secret).Some? {
      var id := InviteWith(t, r.secret).value;
      var invite := t.invites[id];
      if invite.consumedAt.None? && r.now < invite.expiresAt {
        ConsumingKeeps(t, id, r.now);
        var t1 := t.(invites := t.invites[id := invite.(consumedAt := Some(r.now))]);
        hide Valid;
        InsertingKeeps(t1, NextId(t.guests.Keys), Row(r.peer, invite.user, invite.name, id, r.now, None, None));
      }
    }
  }

  lemma ApplyKeeps(t: Tables, r: Request)
    requires Valid(t)
    ensures Valid(Apply(t, r).0)
  {
    hide Valid, Creating, Redeeming;
    match r
    case Create(_, _, _, _, _) => CreatingKeeps(t, r);
    case Redeem(_, _, _) => RedeemingKeeps(t, r);
    case Touch(peer, now) =>
      if GuestOf(t, peer).Some? {
        var n := GuestOf(t, peer).value;
        MarkingKeeps(t, n, t.guests[n].(lastSeen := Some(now)));
      }
    case Remove(n) => RemovingKeeps(t, n);
    case Revoke(n, now) =>
      if n in t.guests {
        var row := t.guests[n];
        MarkingKeeps(t, n, if row.revokedAt.None? then row.(revokedAt := Some(now)) else row);
      }
  }

  /** Every refusal and every failure leaves the tables as they were. */
  lemma RefusalsChangeNothing(t: Tables, r: Request)
    requires Valid(t)
    ensures var (t', a) := Apply(t, r);
            a.Failed? || (a.Redeemed? && a.outcome.Refused?) ==> t' == t
  {
  }

  /** Invites are only ever added or marked consumed, once. */
  lemma InvitesOnlyGrow(t: Tables, r: Request, id: nat)
    requires Valid(t) && id in t.invites
    ensures var t' := Apply(t, r).0;
            && id in t'.invites
            && t'.invites[id] == t.invites[id].(consumedAt := t'.invites[id].consumedAt)
            && (t.invites[id].consumedAt.Some? ==> t'.invites[id] == t.invites[id])
  {
  }

  //-- Every run ------------------------------------------------------------------------------

  /** The tables before request `k` of a run from an empty database. */
  ghost function At(requests: seq<Request>, k: nat): (t: Tables)
    requires k <= |requests|
    ensures Valid(t)
  {
    if k == 0 then EMPTY
    else
      var t := At(requests, k - 1);
      ApplyKeeps(t, requests[k - 1]);
      Apply(t, requests[k - 1]).0
  }

  ghost function AnswerAt(requests: seq<Request>, k: nat): (a: Answer)
    requires k < |requests|
  {
    Apply(At(requests, k), requests[k]).1
  }

  /** The guest request `k` activated, or answered again. */
  ghost predicate Activates(requests: seq<Request>, k: nat, g: Guest)
    requires k < |requests|
  {
    requests[k].Redeem? && AnswerAt(requests, k) == Redeemed(Activated(g))
  }

  /** The invite with `secret` is spent on `g`: no row but its own can be bound to it. */
  ghost predicate Settled(t: Tables, secret: Secret, g: Guest) {
    && g.row.invite in t.invites
    && t.invites[g.row.invite].secret == secret
    && t.invites[g.row.invite].consumedAt.Some?
    && forall n :: n in t.guests && t.guests[n].invite == g.row.invite ==> n == g.number && SameBinding(g.row, t.guests[n])
  }

  lemma ActivationSettles(t: Tables, r: Request, g: Guest)
    requires Valid(t) && r.Redeem? && Apply(t, r).1 == Redeemed(Activated(g))
    ensures Settled(Apply(t, r).0, r.secret, g) && g.row.peer == r.peer && g.row.revokedAt.None?
    ensures g.number in Apply(t, r).0.guests && Apply(t, r).0.guests[g.number] == g.row
  {
    assert forall n :: n in t.guests ==> Bound(t, t.guests[n]);
  }

  lemma SettledStays(t: Tables, r: Request, secret: Secret, g: Guest)
    requires Valid(t) && Settled(t, secret, g)
    ensures Settled(Apply(t, r).0, secret, g)
  {
    InvitesOnlyGrow(t, r, g.row.invite);
  }

  lemma SettledDecides(t: Tables, r: Request, g: Guest, again: Guest)
    requires Valid(t) && r.Redeem? && Settled(t, r.secret, g) && Apply(t, r).1 == Redeemed(Activated(again))
    ensures again.number == g.number && SameBinding(g.row, again.row)
  {
  }

  lemma RunStep(requests: seq<Request>, k: nat)
    requires k < |requests|
    ensures At(requests, k + 1) == Apply(At(requests, k), requests[k]).0
  {
  }

  lemma {:induction false} StaysSettled(requests: seq<Request>, j: nat, k: nat, g: Guest)
    requires j < k <= |requests| && Activates(requests, j, g)
    ensures Settled(At(requests, k), requests[j].secret, g)
    decreases k
  {
    hide At, Apply, Settled, Valid;
    RunStep(requests, k - 1);
    if j == k - 1 {
      ActivationSettles(At(requests, j), requests[j], g);
    } else {
      hide AnswerAt;
      StaysSettled(requests, j, k - 1, g);
      SettledStays(At(requests, k - 1), requests[k - 1], requests[j].secret, g);
    }
  }

  /**
   An invite activates at most one peer ever: any two successful redemptions of the same
   secret name the same guest, with the same peer, number, user, name and activation time.
   */
  lemma OneGuestPerInvite(requests: seq<Request>, j: nat, k: nat, g: Guest, again: Guest)
    requires j < k < |requests| && Activates(requests, j, g) && Activates(requests, k, again)
    requires requests[j].secret == requests[k].secret
    ensures again.number == g.number && SameBinding(g.row, again.row)
    ensures requests[k].peer == requests[j].peer == g.row.peer
  {
    StaysSettled(requests, j, k, g);
    hide At, Settled, Valid, Apply;
    SettledDecides(At(requests, k), requests[k], g, again);
    ActivationSettles(At(requests, k), requests[k], again);
    ActivationSettles(At(requests, j), requests[j], g);
  }

  /** Request `k` created a row from invite `id`, at the time the request gives. */
  ghost predicate Creates(requests: seq<Request>, k: nat, id: nat)
    requires k < |requests|
  {
    && requests[k].Redeem?
    && var t, t' := At(requests, k), At(requests, k + 1);
       exists n :: n in t'.guests && n !in t.guests && t'.guests[n].invite == id
  }

  /** A step creates a row from an invite exactly when it marks the invite consumed. */
  lemma CreatingIsConsuming(t: Tables, r: Request, id: nat)
    requires Valid(t)
    ensures var t' := Apply(t, r).0;
            (exists n :: n in t'.guests && n !in t.guests && t'.guests[n].invite == id) <==>
            (id in t.invites && t.invites[id].consumedAt.None? && id in t'.invites && t'.invites[id].consumedAt.Some?)
    ensures var t' := Apply(t, r).0;
            id in t.invites && t.invites[id].consumedAt.None? && t'.invites[id].consumedAt.Some? ==>
              r.Redeem? && t'.invites[id].consumedAt == Some(r.now) && r.secret == t.invites[id].secret
    ensures id in Apply(t, r).0.invites && id !in t.invites ==> Apply(t, r).0.invites[id].consumedAt.None?
  {
    if r.Redeem? && Redeeming(t, r).0 != t {
      var n := NextId(t.guests.Keys);
      assert n in Redeeming(t, r).0.guests && n !in t.guests;
    }
  }

  /** What request `k` does to invite `id`. */
  lemma InviteStep(requests: seq<Request>, k: nat, id: nat)
    requires k < |requests|
    ensures var t, t', r := At(requests, k), At(requests, k + 1), requests[k];
            && (id in t.invites ==>
                  && id in t'.invites && t'.invites[id].secret == t.invites[id].secret
                  && (t.invites[id].consumedAt.Some? ==> t'.invites[id] == t.invites[id] && !Creates(requests, k, id))
                  && (t.invites[id].consumedAt.None? ==> (t'.invites[id].consumedAt.Some? <==> Creates(requests, k, id))))
            && (id !in t.invites ==> !Creates(requests, k, id) && (id in t'.invites ==> t'.invites[id].consumedAt.None?))
            && (Creates(requests, k, id) ==>
                  r.Redeem? && id in t'.invites && t'.invites[id].consumedAt == Some(r.now) && t'.invites[id].secret == r.secret)
  {
    hide At, Apply, Valid;
    RunStep(requests, k);
    var t := At(requests, k);
    CreatingIsConsuming(t, requests[k], id);
    if id in t.invites {
      InvitesOnlyGrow(t, requests[k], id);
    }
  }

  lemma {:induction false} CreatedMarks(requests: seq<Request>, j: nat, k: nat, id: nat)
    requires j < k <= |requests| && Creates(requests, j, id)
    ensures id in At(requests, k).invites
    ensures At(requests, k).invites[id].consumedAt == Some(requests[j].now)
    ensures At(requests, k).invites[id].secret == requests[j].secret
    decreases k
  {
    hide Creates, At;
    InviteStep(requests, k - 1, id);
    if j < k - 1 {
      CreatedMarks(requests, j, k - 1, id);
    }
  }

  lemma {:induction false} Creator(requests: seq<Request>, k: nat, id: nat) returns (j: nat)
    requires k <= |requests| && id in At(requests, k).invites && At(requests, k).invites[id].consumedAt.Some?
    ensures j < k && Creates(requests, j, id)
  {
    hide Creates, Apply, Valid;
    assert k > 0;
    hide At;
    InviteStep(requests, k - 1, id);
    var t := At(requests, k - 1);
    if id in t.invites && t.invites[id].consumedAt.Some? {
      j := Creator(requests, k - 1, id);
    } else {
      j := k - 1;
    }
  }

  /** An invite is marked consumed exactly when some request created a guest row from it. */
  lemma ConsumedIffCreated(requests: seq<Request>, k: nat, id: nat)
    requires k <= |requests| && id in At(requests, k).invites
    ensures At(requests, k).invites[id].consumedAt.Some? <==> exists j :: 0 <= j < k && Creates(requests, j, id)
  {
    hide Creates, At;
    if At(requests, k).invites[id].consumedAt.Some? {
      var j := Creator(requests, k, id);
    } else if j :| 0 <= j < k && Creates(requests, j, id) {
      CreatedMarks(requests, j, k, id);
    }
  }

  /** No invite creates two rows, and the mark is never taken back. */
  lemma CreatedOnce(requests: seq<Request>, j: nat, k: nat, id: nat)
    requires j < k < |requests| && Creates(requests, j, id)
    ensures !Creates(requests, k, id)
    ensures id in At(requests, k).invites && At(requests, k).invites[id].consumedAt == Some(requests[j].now)
  {
    hide Creates, At;
    InviteStep(requests, k, id);
    CreatedMarks(requests, j, k, id);
  }

  lemma RowStep(t: Tables, r: Request, n: nat)
    requires Valid(t) && n in t.guests && r != Remove(n)
    ensures var t' := Apply(t, r).0;
            && n in t'.guests && SameBinding(t.guests[n], t'.guests[n])
            && (t.guests[n].revokedAt.Some? ==> t'.guests[n].revokedAt == t.guests[n].revokedAt)
  {
  }

  lemma {:induction false} RevokedStays(requests: seq<Request>, j: nat, k: nat, n: nat)
    requires j <= k <= |requests| && n in At(requests, j).guests && At(requests, j).guests[n].revokedAt.Some?
    requires forall i :: j <= i < k ==> requests[i] != Remove(n)
    ensures var was, now := At(requests, j), At(requests, k);
            n in now.guests && SameBinding(was.guests[n], now.guests[n]) && now.guests[n].revokedAt == was.guests[n].revokedAt
    decreases k
  {
    hide At, Apply, Valid;
    if j < k {
      RunStep(requests, k - 1);
      RevokedStays(requests, j, k - 1, n);
      RowStep(At(requests, k - 1), requests[k - 1], n);
    }
  }

  /** While its row is kept, a revoked peer is refused whatever invite it presents. */
  lemma RevokedIsRefused(requests: seq<Request>, j: nat, k: nat, n: nat)
    requires j <= k < |requests| && n in At(requests, j).guests && At(requests, j).guests[n].revokedAt.Some?
    requires forall i :: j <= i < k ==> requests[i] != Remove(n)
    requires requests[k].Redeem? && requests[k].peer == At(requests, j).guests[n].peer
    ensures AnswerAt(requests, k) == Redeemed(Refused(Revoked))
  {
    RevokedStays(requests, j, k, n);
    hide At;
    assert GuestOf(At(requests, k), requests[k].peer) == Some(n);
  }

  /** A redemption succeeds exactly for a peer's own retry, or for a new peer with a live invite. */
  lemma ActivatedExactly(t: Tables, secret: Secret, peer: string, now: Time)
    requires Valid(t)
    ensures var a := Apply(t, Redeem(secret, peer, now)).1;
            && a.Redeemed?
            && (a.outcome.Activated? <==>
                  || (exists n, i :: n in t.guests && i in t.invites && t.guests[n].peer == peer && t.guests[n].invite == i
                        && t.guests[n].revokedAt.None? && t.invites[i].secret == secret)
                  || (&& (forall n :: n in t.guests ==> t.guests[n].peer != peer)
                      && exists i :: i in t.invites && t.invites[i].secret == secret
                           && t.invites[i].consumedAt.None? && now < t.invites[i].expiresAt))
  {
    if n :| n in t.guests && t.guests[n].peer == peer {
      assert GuestOf(t, peer) == Some(n) && Bound(t, t.guests[n]);
    } else if i :| i in t.invites && t.invites[i].secret == secret {
      assert InviteWith(t, secret) == Some(i);
    }
  }

  /** Whether the peer has a row that is revoked or not, bound to this secret or another. */
  ghost predicate HasRow(t: Tables, peer: string, revoked: bool, secret: Option<Secret>) {
    exists n, i :: n in t.guests && i in t.invites && t.guests[n].peer == peer && t.guests[n].invite == i
      && t.guests[n].revokedAt.Some? == revoked && (secret.None? || t.invites[i].secret == secret.value)
  }

  ghost predicate Refuses(t: Tables, secret: Secret, peer: string, now: Time, why: Refusal)
    requires Valid(t)
  {
    Apply(t, Redeem(secret, peer, now)).1 == Redeemed(Refused(why))
  }

  /** Each refusal is given for exactly its reason: first the peer's row decides. */
  lemma RefusedForItsRow(t: Tables, secret: Secret, peer: string, now: Time)
    requires Valid(t)
    ensures Refuses(t, secret, peer, now, Revoked) <==> HasRow(t, peer, true, None)
    ensures Refuses(t, secret, peer, now, AlreadyGuest) <==> HasRow(t, peer, false, None) && !HasRow(t, peer, false, Some(secret))
  {
    RowsAreUnique(t);
    if n :| n in t.guests && t.guests[n].peer == peer {
      HasRowIs(t, peer, n);
      hide Valid, HasRow;
    }
  }

  /** Then, for a peer without one, the invite. */
  lemma RefusedForItsInvite(t: Tables, secret: Secret, peer: string, now: Time)
    requires Valid(t)
    ensures var stranger := forall n :: n in t.guests ==> t.guests[n].peer != peer;
            && (Refuses(t, secret, peer, now, InviteUnknown) <==>
                  stranger && forall i :: i in t.invites ==> t.invites[i].secret != secret)
            && (Refuses(t, secret, peer, now, InviteConsumed) <==>
                  stranger && exists i :: i in t.invites && t.invites[i].secret == secret && t.invites[i].consumedAt.Some?)
            && (Refuses(t, secret, peer, now, InviteExpired) <==>
                  stranger && exists i :: i in t.invites && t.invites[i].secret == secret
                                    && t.invites[i].consumedAt.None? && t.invites[i].expiresAt <= now)
  {
    match GuestOf(t, peer)
    case Some(n) =>
      assert t.guests[n].peer == peer;
    case None =>
      InvitesAreUnique(t);
      hide Valid;
      match InviteWith(t, secret)
      case Some(i) =>
      case None =>
        assert forall i :: i in t.invites ==> t.invites[i].secret != secret;
  }

  lemma HasRowIs(t: Tables, peer: string, n: nat)
    requires Valid(t) && n in t.guests && t.guests[n].peer == peer && t.guests[n].invite in t.invites
    ensures forall revoked, secret ::
              HasRow(t, peer, revoked, secret) <==>
                t.guests[n].revokedAt.Some? == revoked && (secret.None? || t.invites[t.guests[n].invite].secret == secret.value)
  {
  }

  //-- A removed row forgets the revocation -----------------------------------------------------

  const A: Secret := [1]
  const B: Secret := [2]

  const LEAVE_AND_REJOIN: seq<Request> := [
    Create(A, "u", "n", 10, 0), Redeem(A, "p", 1), Revoke(1, 2), Remove(1), Create(B, "v", "m", 10, 3), Redeem(B, "p", 4)]

  lemma FirstJoin()
    ensures var t := At(LEAVE_AND_REJOIN, 2);
            && t.invites == map[1 := Invite(A, "u", "n", 0, 10, Some(1))]
            && t.guests == map[1 := Row("p", "u", "n", 1, 1, None, None)]
  {
    var run := LEAVE_AND_REJOIN;
    assert At(run, 0) == EMPTY;
    RunStep(run, 0);
    assert At(run, 1) == Tables(map[1 := Invite(A, "u", "n", 0, 10, None)], map[]);
    RunStep(run, 1);
    hide At;
    assert InviteWith(At(run, 1), A) == Some(1);
  }

  lemma RemovingTheOnlyRow(t: Tables)
    requires Valid(t) && t.guests.Keys == {1}
    ensures Apply(t, Remove(1)).0 == Tables(t.invites, map[])
  {
  }

  lemma Rejoin(t: Tables)
    requires t.invites == map[1 := Invite(A, "u", "n", 0, 10, Some(1))] && t.guests == map[] && Valid(t)
    ensures var t' := Apply(t, Create(B, "v", "m", 10, 3)).0;
            && Valid(t')
            && Apply(t', Redeem(B, "p", 4)).1 == Redeemed(Activated(Guest(1, Row("p", "v", "m", 2, 4, None, None))))
  {
    var t' := Apply(t, Create(B, "v", "m", 10, 3)).0;
    ApplyKeeps(t, Create(B, "v", "m", 10, 3));
    assert A[0] != B[0];
    assert InviteWith(t, B).None?;
    assert t.invites.Keys == {1} && NextId({1}) == 2;
    assert t'.invites == t.invites[2 := Invite(B, "v", "m", 3, 10, None)];
    assert t'.invites[1].secret == A && t'.invites[2].secret == B;
    assert InviteWith(t', B) == Some(2);
    assert t'.guests.Keys == {};
  }

  /** A revoked peer whose row is removed (it can ask for that itself) is activated by another invite. */
  lemma RemovalForgetsRevocation()
    ensures var run := LEAVE_AND_REJOIN;
            && 1 in At(run, 3).guests && At(run, 3).guests[1].peer == "p" && At(run, 3).guests[1].revokedAt == Some(2)
            && Activates(run, 5, Guest(1, Row("p", "v", "m", 2, 4, None, None)))
  {
    var run := LEAVE_AND_REJOIN;
    hide At, Valid;
    FirstJoin();
    RunStep(run, 2);
    RunStep(run, 3);
    RunStep(run, 4);
    assert At(run, 3).guests == map[1 := Row("p", "u", "n", 1, 1, None, Some(2))];
    hide Apply;
    RemovingTheOnlyRow(At(run, 3));
    Rejoin(At(run, 4));
  }

  //-- The database as the program keeps it -----------------------------------------------------

  class StateDb {
    var invites: map<nat, Invite>
    var guests: map<nat, Row>

    ghost function View(): Tables
      reads this
    {
      Tables(invites, guests)
    }

    constructor ()
      ensures View() == EMPTY && Valid(View())
    {
      invites, guests := map[], map[];
    }

    method CreateInvite(secret: Secret, user: string, name: string, expiresAt: Time, now: Time) returns (a: Answer)
      requires Valid(View())
      modifies this
      ensures (View(), a) == Apply(old(View()), Create(secret, user, name, expiresAt, now)) && Valid(View())
    {
      ghost var r := Create(secret, user, name, expiresAt, now);
      ApplyKeeps(View(), r);
      hide Valid;
      if i: nat :| i in invites && invites[i].secret == secret {
        return Failed;
      }
      var id := Above(invites.Keys);
      invites := invites[id := Invite(secret, user, name, now, expiresAt, None)];
      return Created(id);
    }

    /** One transaction: a refusal returns before anything is written. */
    method RedeemInvite(secret: Secret, peer: string, now: Time) returns (a: Redemption)
      requires Valid(View())
      modifies this
      ensures (View(), Redeemed(a)) == Apply(old(View()), Redeem(secret, peer, now)) && Valid(View())
    {
      ApplyKeeps(View(), Redeem(secret, peer, now));
      RowsAreUnique(View());
      InvitesAreUnique(View());
      hide Valid;
      if n: nat :| n in guests && guests[n].peer == peer {
        var row := guests[n];
        if row.revokedAt.Some? {
          return Refused(Revoked);
        }
        return if invites[row.invite].secret == secret then Activated(Guest(n, row)) else Refused(AlreadyGuest);
      }
      if id: nat :| id in invites && invites[id].secret == secret {
        var invite := invites[id];
        if invite.consumedAt.Some? {
          return Refused(InviteConsumed);
        }
        if invite.expiresAt <= now {
          return Refused(InviteExpired);
        }
        var number := Above(guests.Keys);
        var row := Row(peer, invite.user, invite.name, id, now, None, None);
        guests := guests[number := row];
        invites := invites[id := invite.(consumedAt := Some(now))];
        return Activated(Guest(number, row));
      }
      return Refused(InviteUnknown);
    }

    method GuestByPeer(peer: string) returns (g: Option<Guest>)
      requires Valid(View())
      ensures g.Some? ==> g.value.number in guests && guests[g.value.number] == g.value.row && g.value.row.peer == peer
      ensures g.None? ==> forall n :: n in guests ==> guests[n].peer != peer
    {
      if n: nat :| n in guests && guests[n].peer == peer {
        return Some(Guest(n, guests[n]));
      }
      return None;
    }

    method TouchGuest(peer: string, now: Time)
      requires Valid(View())
      modifies this
      ensures View() == Apply(old(View()), Touch(peer, now)).0 && Valid(View())
    {
      ApplyKeeps(View(), Touch(peer, now));
      RowsAreUnique(View());
      hide Valid;
      if n: nat :| n in guests && guests[n].peer == peer {
        guests := guests[n := guests[n].(lastSeen := Some(now))];
      }
    }

    method RemoveGuest(number: nat) returns (a: Answer)
      requires Valid(View())
      modifies this
      ensures (View(), a) == Apply(old(View()), Remove(number)) && Valid(View())
    {
      ApplyKeeps(View(), Remove(number));
      hide Valid;
      if number !in guests {
        return Failed;
      }
      guests := guests - {number};
      return Marked;
    }

    method RevokeGuest(number: nat, now: Time) returns (a: Answer)
      requires Valid(View())
      modifies this
      ensures (View(), a) == Apply(old(View()), Revoke(number, now)) && Valid(View())
    {
      ApplyKeeps(View(), Revoke(number, now));
      hide Valid;
      if number in guests && guests[number].revokedAt.None? {
        guests := guests[number := guests[number].(revokedAt := Some(now))];
      }
      if number !in guests {
        return Failed;
      }
      assert guests[number := guests[number]] == guests;
      return Found(Guest(number, guests[number]));
    }
  }

  /** The rowid an INSERT picks. */
  method Above(ids: set<nat>) returns (r: nat)
    ensures r == NextId(ids)
  {
    if ids == {} {
      return 1;
    }
    HasHighest(ids);
    var top: nat :| top in ids && forall m :: m in ids ==> m <= top;
    return top + 1;
  }

  lemma RowsAreUnique(t: Tables)
    requires Valid(t)
    ensures forall n :: n in t.guests ==> GuestOf(t, t.guests[n].peer) == Some(n) && t.guests[n].invite in t.invites
  {
    forall n | n in t.guests ensures GuestOf(t, t.guests[n].peer) == Some(n) && t.guests[n].invite in t.invites {
      assert Bound(t, t.guests[n]);
    }
  }

  lemma InvitesAreUnique(t: Tables)
    requires Valid(t)
    ensures forall i :: i in t.invites ==> InviteWith(t, t.invites[i].secret) == Some(i)
  {
  }
}
