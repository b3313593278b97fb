/**
 The hostname labels of joined shares (sdk/src/storage.rs). A label is at most 63 bytes,
 as in section 2.3.4 of RFC 1035, and the column is UNIQUE, NULLs aside.
 */
module Hostnames {
  import opened Prelude

  const MAX_LABEL: nat := 63

  datatype Row = Row(shareId: string, hostname: Option<string>)

  type Rows = map<int, Row>

  datatype StoreError = NoSuchRow | UniqueViolation

  ghost predicate Distinct(rows: Rows) {
    forall a, b :: a in rows && b in rows && a != b && rows[a].hostname.Some? ==> rows[a].hostname != rows[b].hostname
  }

  /** The hostnames of the rows other than `id`. */
  function TakenBesides(rows: Rows, id: int): (taken: set<string>) {
    set a | a in rows && a != id && rows[a].hostname.Some? :: rows[a].hostname.value
  }

  /** `hostname`, then `hostname-2`, `hostname-3`, … */
  function Candidate(hostname: string, n: nat): string
    requires n >= 1
  {
    if n == 1 then hostname else hostname + "-" + Decimal(n)
  }

  predicate Fits(name: string) { |Utf8(name)| <= MAX_LABEL }

  /** `n` names the first candidate that fits and is free. */
  ghost predicate FirstFree(taken: set<string>, hostname: string, n: nat) {
    && n >= 1
    && Fits(Candidate(hostname, n)) && Candidate(hostname, n) !in taken
    && forall m :: 1 <= m < n ==> !Fits(Candidate(hostname, m)) || Candidate(hostname, m) in taken
  }

  ghost predicate NoneFree(taken: set<string>, hostname: string) {
    forall n :: n >= 1 ==> !Fits(Candidate(hostname, n)) || Candidate(hostname, n) in taken
  }

  /** The first fitting free candidate; the share id if there is none and it is free. */
  ghost predicate Chosen(taken: set<string>, hostname: string, shareId: string, r: Result<string, StoreError>) {
    || (exists n :: FirstFree(taken, hostname, n) && r == Ok(Candidate(hostname, n)))
    || (NoneFree(taken, hostname) && r == if shareId in taken then Err(UniqueViolation) else Ok(shareId))
  }

  //-- Candidates --------------------------------------------------------------------------

  lemma CandidatesDiffer(hostname: string, m: nat, n: nat)
    requires 1 <= m < n
    ensures Candidate(hostname, m) != Candidate(hostname, n)
  {
    hide Decimal;
    if m > 1 && Candidate(hostname, m) == Candidate(hostname, n) {
      assert Candidate(hostname, m)[|hostname| + 1..] == Decimal(m);
      assert Candidate(hostname, n)[|hostname| + 1..] == Decimal(n);
      DecimalInjective(m, n);
    }
  }

  function FirstCandidates(hostname: string, k: nat): (r: set<string>) {
    if k == 0 then {} else FirstCandidates(hostname, k - 1) + {Candidate(hostname, k)}
  }

  lemma {:induction false} FirstCandidatesAre(hostname: string, k: nat)
    ensures forall c :: c in FirstCandidates(hostname, k) <==> exists n :: 1 <= n <= k && c == Candidate(hostname, n)
    ensures |FirstCandidates(hostname, k)| == k
  {
    hide Candidate;
    if k > 0 {
      FirstCandidatesAre(hostname, k - 1);
      forall n | 1 <= n < k ensures Candidate(hostname, n) != Candidate(hostname, k) {
        CandidatesDiffer(hostname, n, k);
      }
    }
  }

  lemma {:induction false} SubsetIsSmaller(a: set<string>, b: set<string>)
    requires a <= b
    ensures |a| <= |b|
  {
    if a != {} {
      var x :| x in a;
      SubsetIsSmaller(a - {x}, b - {x});
    }
  }

  /** Pigeonhole: as many candidates can be taken as there are taken names. */
  lemma TakenCandidatesAreFew(taken: set<string>, hostname: string, k: nat)
    requires forall n :: 1 <= n <= k ==> Candidate(hostname, n) in taken
    ensures k <= |taken|
  {
    FirstCandidatesAre(hostname, k);
    SubsetIsSmaller(FirstCandidates(hostname, k), taken);
  }

  lemma {:induction false} AsciiLength(s: string)
    requires forall i :: 0 <= i < |s| ==> s[i] as int < 0x80
    ensures |Utf8(s)| == |s|
  {
    if s != [] {
      AsciiLength(s[1..]);
    }
  }

  lemma CandidateLength(hostname: string, n: nat)
    requires n > 1
    ensures |Utf8(Candidate(hostname, n))| == |Utf8(hostname)| + 1 + |Decimal(n)|
  {
    var suffix := "-" + Decimal(n);
    assert Candidate(hostname, n) == hostname + suffix;
    assert forall i :: 0 <= i < |suffix| ==> suffix[i] as int < 0x80;
    hide Utf8, Decimal;
    Utf8Concat(hostname, suffix);
    AsciiLength(suffix);
  }

  /** Candidates never get shorter, so the first that is too long ends the search. */
  lemma TooLongStaysTooLong(hostname: string, m: nat, n: nat)
    requires 1 <= m <= n && !Fits(Candidate(hostname, m))
    ensures !Fits(Candidate(hostname, n))
  {
    hide Utf8, Decimal;
    if m < n {
      CandidateLength(hostname, n);
      if m > 1 {
        CandidateLength(hostname, m);
        DecimalLengthMonotone(m, n);
      }
    }
  }

  /** The specification leaves no choice. */
  lemma ChosenIsUnique(
    taken: set<string>, hostname: string, shareId: string, r: Result<string, StoreError>, q: Result<string, StoreError>)
    requires Chosen(taken, hostname, shareId, r) && Chosen(taken, hostname, shareId, q)
    ensures r == q
  {
    hide Candidate, Fits;
    if n :| FirstFree(taken, hostname, n) && r == Ok(Candidate(hostname, n)) {
      if m :| FirstFree(taken, hostname, m) && q == Ok(Candidate(hostname, m)) {
        assert m == n;
      }
    }
  }

  //-- The store ---------------------------------------------------------------------------

  lemma ClaimKeepsDistinct(rows: Rows, id: int, name: string)
    requires Distinct(rows) && id in rows && name !in TakenBesides(rows, id)
    ensures Distinct(rows[id := rows[id].(hostname := Some(name))])
  {
    var rows' := rows[id := rows[id].(hostname := Some(name))];
    forall a, b | a in rows' && b in rows' && a != b && rows'[a].hostname.Some?
      ensures rows'[a].hostname != rows'[b].hostname
    {
      if a == id && rows'[b].hostname.Some? {
        assert rows[b].hostname.value in TakenBesides(rows, id);
      } else if b == id {
        assert rows[a].hostname.value in TakenBesides(rows, id);
      }
    }
  }

  class Store {
    var rows: Rows

    constructor ()
      ensures rows == map[] && Distinct(rows)
    {
      rows := map[];
    }

    method NewRow(id: int, shareId: string)
      requires Distinct(rows) && id !in rows
      modifies this
      ensures rows == old(rows)[id := Row(shareId, None)] && Distinct(rows)
    {
      rows := rows[id := Row(shareId, None)];
    }

    method DeleteRow(id: int)
      requires Distinct(rows)
      modifies this
      ensures rows == old(rows) - {id} && Distinct(rows)
    {
      rows := rows - {id};
    }

    /** `UPDATE shares SET hostname = ?1 WHERE id = ?2`, refused where the UNIQUE column would clash. */
    method UpdateHostname(id: int, name: string) returns (ok: bool)
      requires Distinct(rows) && id in rows
      modifies this
      ensures Distinct(rows)
      ensures ok <==> name !in TakenBesides(old(rows), id)
      ensures rows == if ok then old(rows)[id := old(rows)[id].(hostname := Some(name))] else old(rows)
    {
      if name in TakenBesides(rows, id) {
        return false;
      }
      ClaimKeepsDistinct(rows, id, name);
      rows := rows[id := rows[id].(hostname := Some(name))];
      ok := true;
    }

    /** Claims a label, in at most one attempt more than there are taken names. */
    method WriteDedupedHostname(id: int, hostname: string) returns (r: Result<string, StoreError>, attempts: nat)
      requires Distinct(rows)
      modifies this
      ensures Distinct(rows)
      ensures id !in old(rows) ==> r == Err(NoSuchRow)
      ensures id in old(rows) ==> Chosen(TakenBesides(old(rows), id), hostname, old(rows)[id].shareId, r)
      ensures rows == if r.Ok? then old(rows)[id := old(rows)[id].(hostname := Some(r.value))] else old(rows)
      ensures attempts <= |TakenBesides(old(rows), id)| + 1
    {
      attempts := 0;
      if id !in rows {
        return Err(NoSuchRow), 0;
      }
      hide Candidate, Fits, Distinct, NoneFree;
      var shareId := rows[id].shareId;
      ghost var taken := TakenBesides(rows, id);
      var n := 1;
      while Fits(Candidate(hostname, n))
        invariant n >= 1 && attempts == n - 1
        invariant rows == old(rows) && Distinct(rows)
        invariant forall m :: 1 <= m < n ==> Candidate(hostname, m) in taken
        invariant n - 1 <= |taken|
        decreases |taken| + 1 - n
      {
        attempts := attempts + 1;
        var ok := UpdateHostname(id, Candidate(hostname, n));
        if ok {
          assert FirstFree(taken, hostname, n);
          return Ok(Candidate(hostname, n)), attempts;
        }
        TakenCandidatesAreFew(taken, hostname, n);
        n := n + 1;
      }
      assert NoneFree(taken, hostname) by { SearchIsOver(taken, hostname, n); }
      attempts := attempts + 1;
      var ok := UpdateHostname(id, shareId);
      r := if ok then Ok(shareId) else Err(UniqueViolation);
    }
  }

  lemma SearchIsOver(taken: set<string>, hostname: string, n: nat)
    requires n >= 1 && !Fits(Candidate(hostname, n))
    requires forall m :: 1 <= m < n ==> Candidate(hostname, m) in taken
    ensures NoneFree(taken, hostname)
  {
    hide Candidate, Fits;
    forall m | m >= n ensures !Fits(Candidate(hostname, m)) {
      TooLongStaysTooLong(hostname, n, m);
    }
  }

  /** A label that can be claimed: at most 63 bytes long and free. */
  predicate Usable(taken: set<string>, name: string) {
    |Utf8(name)| <= 63 && name !in taken
  }

  predicate Numbered(hostname: string, n: nat, name: string) {
    (n == 1 && name == hostname) || (n >= 2 && name == hostname + "-" + Decimal(n))
  }

  /**
   What is claimed, spelled out: the label itself if usable, else with a dash and the first
   number from 2 on that makes it so, and the share id only if no number does.
   */
  lemma ClaimSpelledOut(taken: set<string>, hostname: string, shareId: string, r: Result<string, StoreError>)
    requires Chosen(taken, hostname, shareId, r)
    ensures forall n: nat, name :: Numbered(hostname, n, name) && Usable(taken, name)
                                   && (forall m: nat, earlier :: m < n && Numbered(hostname, m, earlier) ==> !Usable(taken, earlier)) ==>
              r == Ok(name)
    ensures (forall n: nat, name :: Numbered(hostname, n, name) ==> !Usable(taken, name)) ==>
              r == if shareId in taken then Err(UniqueViolation) else Ok(shareId)
  {
    hide Utf8, Decimal;
    assert forall n: nat :: n >= 1 ==> Numbered(hostname, n, Candidate(hostname, n));
    assert forall n: nat, name :: Numbered(hostname, n, name) ==> n >= 1 && name == Candidate(hostname, n);
    assert forall name :: Usable(taken, name) <==> Fits(name) && name !in taken;
    hide Candidate, Numbered, Usable, Fits;
    forall n: nat, name | Numbered(hostname, n, name) && Usable(taken, name)
                          && (forall m: nat, earlier :: m < n && Numbered(hostname, m, earlier) ==> !Usable(taken, earlier))
      ensures r == Ok(name)
    {
      forall m | 1 <= m < n ensures !Fits(Candidate(hostname, m)) || Candidate(hostname, m) in taken {
        assert Numbered(hostname, m, Candidate(hostname, m));
      }
      assert FirstFree(taken, hostname, n);
      ChosenIsUnique(taken, hostname, shareId, r, Ok(name));
    }
    if forall n: nat, name :: Numbered(hostname, n, name) ==> !Usable(taken, name) {
      forall n: nat | n >= 1 ensures !Fits(Candidate(hostname, n)) || Candidate(hostname, n) in taken {
        assert Numbered(hostname, n, Candidate(hostname, n));
      }
    }
  }
}
