/**
 One-time pairing tokens (sdk/src/pairing.rs): a table purged on every mint, against the
 whole history of what was minted and presented.
 */
module Pairing {
  import opened Prelude
  import opened Secrets

  type Instant = nat

  /** How long tokens live, and the last instant the clock can represent. */
  datatype Policy = Policy(lifetime: nat, endOfTime: Instant)

  /** `None` for a token that never expires. */
  type Table = map<string, Option<Instant>>

  datatype Event = Mint(token: string, now: Instant) | Present(token: string, now: Instant)

  /** `now.checked_add(lifetime)`. */
  function Expiry(p: Policy, now: Instant): Option<Instant> {
    if now + p.lifetime <= p.endOfTime then Some(now + p.lifetime) else None
  }

  predicate Live(expiry: Option<Instant>, now: Instant) {
    expiry.None? || expiry.value > now
  }

  function Purged(table: Table, now: Instant): (r: Table)
    ensures forall t :: t in r <==> t in table && Live(table[t], now)
    ensures forall t :: t in r ==> r[t] == table[t]
  {
    map t | t in table && Live(table[t], now) :: table[t]
  }

  function After(p: Policy, table: Table, e: Event): (r: Table) {
    match e
    case Mint(token, now) => Purged(table, now)[token := Expiry(p, now)]
    case Present(token, _) => table - {token}
  }

  predicate Accepted(table: Table, token: string, now: Instant) {
    token in table && Live(table[token], now)
  }

  function TableAfter(p: Policy, history: seq<Event>): (r: Table) {
    if history == [] then map[]
    else After(p, TableAfter(p, history[..|history| - 1]), history[|history| - 1])
  }

  predicate Monotone(history: seq<Event>) {
    forall i, j :: 0 <= i < j < |history| ==> history[i].now <= history[j].now
  }

  /** The last mint of `token` with no presentation after it, in a record that forgets nothing. */
  ghost predicate Unspent(history: seq<Event>, token: string, i: nat) {
    && i < |history|
    && history[i].Mint? && history[i].token == token
    && forall j :: i < j < |history| ==> history[j].token != token
  }

  /** Every table entry is an unspent mint, and an unspent mint is missing only once expired. */
  ghost predicate Faithful(p: Policy, history: seq<Event>, table: Table, clock: Instant) {
    && (forall t :: t in table ==> exists i: nat :: Unspent(history, t, i) && table[t] == Expiry(p, history[i].now))
    && (forall t, i: nat :: Unspent(history, t, i) && t !in table ==> !Live(Expiry(p, history[i].now), clock))
  }

  lemma UnspentUnique(history: seq<Event>, t: string, i: nat, j: nat)
    requires Unspent(history, t, i) && Unspent(history, t, j)
    ensures i == j
  {
  }

  lemma UnspentExtends(history: seq<Event>, e: Event, t: string, i: nat)
    ensures i < |history| ==> (Unspent(history + [e], t, i) <==> Unspent(history, t, i) && e.token != t)
    ensures i >= |history| ==>
              (Unspent(history + [e], t, i) <==> i == |history| && e.Mint? && e.token == t)
  {
    var longer := history + [e];
    if i < |history| {
      assert longer[i] == history[i] && longer[|history|] == e;
      if Unspent(longer, t, i) {
        forall j | i < j < |history| ensures history[j].token != t {
          assert longer[j] == history[j];
        }
      }
    }
  }

  lemma EntriesAreUnspent(p: Policy, history: seq<Event>, table: Table, clock: Instant, e: Event, t: string)
    requires Faithful(p, history, table, clock) && t in After(p, table, e)
    ensures exists i: nat :: Unspent(history + [e], t, i) && After(p, table, e)[t] == Expiry(p, (history + [e])[i].now)
  {
    if e.token == t {
      UnspentExtends(history, e, t, |history|);
      assert Unspent(history + [e], t, |history|);
    } else {
      var i: nat :| Unspent(history, t, i) && table[t] == Expiry(p, history[i].now);
      UnspentExtends(history, e, t, i);
      assert (history + [e])[i] == history[i];
    }
  }

  lemma MissingAreExpired(p: Policy, history: seq<Event>, table: Table, clock: Instant, e: Event, t: string, i: nat)
    requires Faithful(p, history, table, clock) && clock <= e.now
    requires Unspent(history + [e], t, i) && t !in After(p, table, e)
    ensures !Live(Expiry(p, (history + [e])[i].now), e.now)
  {
    UnspentExtends(history, e, t, i);
    assert i < |history| && (history + [e])[i] == history[i] && e.token != t;
    if t in table {
      var k: nat :| Unspent(history, t, k) && table[t] == Expiry(p, history[k].now);
      UnspentUnique(history, t, i, k);
    }
  }

  lemma FaithfulStep(p: Policy, history: seq<Event>, table: Table, clock: Instant, e: Event)
    requires Faithful(p, history, table, clock) && clock <= e.now
    ensures Faithful(p, history + [e], After(p, table, e), e.now)
  {
    hide After, Live, Expiry;
    var longer := history + [e];
    forall t | t in After(p, table, e)
      ensures exists i: nat :: Unspent(longer, t, i) && After(p, table, e)[t] == Expiry(p, longer[i].now)
    {
      EntriesAreUnspent(p, history, table, clock, e, t);
    }
    forall t, i: nat | Unspent(longer, t, i) && t !in After(p, table, e)
      ensures !Live(Expiry(p, longer[i].now), e.now)
    {
      MissingAreExpired(p, history, table, clock, e, t, i);
    }
  }

  lemma MonotonePrefix(history: seq<Event>)
    requires history != [] && Monotone(history)
    ensures var before := history[..|history| - 1];
            Monotone(before) && (before != [] ==> before[|before| - 1].now <= history[|history| - 1].now)
  {
  }

  lemma {:induction false} TableIsFaithful(p: Policy, history: seq<Event>)
    requires Monotone(history)
    ensures Faithful(p, history, TableAfter(p, history), if history == [] then 0 else history[|history| - 1].now)
  {
    if history != [] {
      var before, e := history[..|history| - 1], history[|history| - 1];
      MonotonePrefix(history);
      hide Faithful, After, Monotone;
      TableIsFaithful(p, before);
      assert before + [e] == history;
      FaithfulStep(p, before, TableAfter(p, before), if before == [] then 0 else before[|before| - 1].now, e);
    }
  }

  /**
   A token is accepted exactly if it was minted, was not presented since, and has not
   expired: the purging is never observed.
   */
  lemma AcceptedExactly(p: Policy, history: seq<Event>, token: string, now: Instant)
    requires Monotone(history + [Present(token, now)])
    ensures Accepted(TableAfter(p, history), token, now) <==>
            exists i: nat :: Unspent(history, token, i)
                             && (now < history[i].now + p.lifetime || history[i].now + p.lifetime > p.endOfTime)
  {
    var all, table := history + [Present(token, now)], TableAfter(p, history);
    assert forall i :: 0 <= i < |history| ==> history[i] == all[i];
    assert history != [] ==> history[|history| - 1].now <= all[|history|].now;
    TableIsFaithful(p, history);
    assert forall m: Instant :: LivesUntil(p, m, now) <==> Live(Expiry(p, m), now);
    hide TableAfter, Unspent, Monotone;
    if i: nat :| Unspent(history, token, i) && LivesUntil(p, history[i].now, now) {
      if token in table {
        var k: nat :| Unspent(history, token, k) && table[token] == Expiry(p, history[k].now);
        UnspentUnique(history, token, i, k);
      }
    }
  }

  /** A token lives for the policy's lifetime, for ever if the clock cannot represent its end. */
  predicate LivesUntil(p: Policy, minted: Instant, now: Instant) {
    now < minted + p.lifetime || minted + p.lifetime > p.endOfTime
  }

  /** No token is accepted twice without being minted again in between. */
  lemma SpentOnFirstUse(p: Policy, history: seq<Event>, token: string, earlier: Instant, now: Instant)
    ensures !Accepted(TableAfter(p, history + [Present(token, earlier)]), token, now)
  {
    var all := history + [Present(token, earlier)];
    assert all[..|all| - 1] == history;
  }

  class CookieIssuer {
    const policy: Policy
    var tokens: Table

    constructor (policy: Policy)
      ensures this.policy == policy && tokens == TableAfter(policy, [])
    {
      this.policy := policy;
      tokens := map[];
    }

    /** `token` is the secret just drawn. */
    method MintToken(token: string, now: Instant)
      modifies this
      ensures tokens == After(policy, old(tokens), Mint(token, now))
    {
      tokens := map t | t in tokens && Live(tokens[t], now) :: tokens[t];
      tokens := tokens[token := Expiry(policy, now)];
    }

    method ConsumeToken(token: string, now: Instant) returns (accepted: bool)
      modifies this
      ensures accepted <==> Accepted(old(tokens), token, now)
      ensures tokens == After(policy, old(tokens), Present(token, now))
    {
      forall t | t in tokens ensures ConstantTimeEq(t, token) <==> t == token {
        ConstantTimeEqIsEquality(t, token);
      }
      hide ConstantTimeEq;
      if t :| t in tokens && ConstantTimeEq(t, token) {
        var expiry := tokens[t];
        tokens := tokens - {t};
        accepted := expiry.None? || expiry.value > now;
      } else {
        assert token !in tokens;
        accepted := false;
      }
    }
  }
}
