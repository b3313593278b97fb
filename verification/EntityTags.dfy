/**
 The config hash in text (wire/src/lib.rs): sixteen hex digits, a strong entity tag, and the
 `If-None-Match` test of section 13.1.2 of RFC 9110 as the host performs it.
 */
module EntityTags {
  import opened Prelude
  import opened InviteCodes
  import Fnv1a

  /** The low `k` hex digits of `h`, most significant first. */
  function Digits(h: nat, k: nat): (r: string)
    ensures |r| == k
  {
    if k == 0 then "" else Digits(h / 16, k - 1) + [HexDigit(h % 16)]
  }

  /** `{:016x}`. */
  function HashText(h: Fnv1a.word): (r: string)
    ensures |r| == 16
  {
    Digits(h, 16)
  }

  function HexNumber(s: string): (r: Option<nat>) {
    if s == [] then Some(0)
    else
      match (HexNumber(s[..|s| - 1]), HexValue(s[|s| - 1]))
      case (Some(n), Some(d)) => Some(16 * n + d)
      case _ => None
  }

  /** `u64::from_str_radix(s, 16)`: a leading plus is allowed, overflow is not. */
  function ParseHash(s: string): (r: Option<Fnv1a.word>) {
    var digits := if |s| > 0 && s[0] == '+' then s[1..] else s;
    match HexNumber(digits)
    case Some(n) => if digits != [] && n < 0x1_0000_0000_0000_0000 then Some(n) else None
    case None => None
  }

  function Pow16(k: nat): (r: nat)
    ensures r > 0
  {
    if k == 0 then 1 else 16 * Pow16(k - 1)
  }

  lemma HexDigitReads(n: nat)
    requires n < 16
    ensures HexValue(HexDigit(n)) == Some(n) && HexDigit(n) != '+' && HexDigit(n) != ',' && HexDigit(n) != '"'
  {
  }

  lemma {:induction false} DigitsRead(h: nat, k: nat)
    requires h < Pow16(k)
    ensures HexNumber(Digits(h, k)) == Some(h)
    ensures forall i :: 0 <= i < k ==> Digits(h, k)[i] != '+' && Digits(h, k)[i] != ','
  {
    if k > 0 {
      DigitsRead(h / 16, k - 1);
      HexDigitReads(h % 16);
      var s := Digits(h, k);
      assert s[..|s| - 1] == Digits(h / 16, k - 1) && s[|s| - 1] == HexDigit(h % 16);
      assert 16 * (h / 16) + h % 16 == h;
    }
  }

  lemma SixteenDigits(h: Fnv1a.word)
    ensures h < Pow16(16)
  {
    assert Pow16(4) == 0x1_0000;
    assert Pow16(8) == 0x1_0000_0000;
    assert Pow16(12) == 0x1_0000_0000_0000;
    assert Pow16(16) == 0x1_0000_0000_0000_0000;
  }

  /** What is stored and sent as text reads back as the same hash. */
  lemma HashTextReads(h: Fnv1a.word)
    ensures ParseHash(HashText(h)) == Some(h) && ',' !in HashText(h)
  {
    SixteenDigits(h);
    DigitsRead(h, 16);
  }

  function Etag(h: Fnv1a.word): string {
    "\"" + HashText(h) + "\""
  }

  /** One entity tag of the header, weak or strong, or the wildcard. */
  predicate TagMatches(h: Fnv1a.word, tag: string) {
    tag == "*" || tag == Etag(h) || (|tag| >= 2 && tag[..2] == "W/" && tag[2..] == Etag(h))
  }

  predicate MatchesIfNoneMatch(h: Fnv1a.word, header: string) {
    var tags := Split(header, ',');
    exists i :: 0 <= i < |tags| && TagMatches(h, Trim(tags[i]))
  }

  lemma EtagInjective(h: Fnv1a.word, k: Fnv1a.word)
    requires Etag(h) == Etag(k)
    ensures h == k
  {
    hide HashText, ParseHash;
    assert Etag(h)[1..17] == HashText(h) && Etag(k)[1..17] == HashText(k);
    HashTextReads(h);
    HashTextReads(k);
  }

  /** A guest that sends the tag of the hash it knows is told "unchanged" exactly if the hash is the host's. */
  lemma ConditionalIsEquality(h: Fnv1a.word, known: Fnv1a.word)
    ensures MatchesIfNoneMatch(h, Etag(known)) <==> h == known
  {
    hide HashText, Split, Trim;
    var tag := Etag(known);
    HashTextReads(known);
    assert ',' !in tag;
    SplitSingle(tag, ',');
    assert tag[0] == '"' && tag[|tag| - 1] == '"';
    TrimIdentity(tag);
    if h != known && TagMatches(h, tag) {
      EtagInjective(h, known);
    }
    assert Split(tag, ',') == [tag];
    if h == known {
      assert TagMatches(h, Trim(Split(tag, ',')[0]));
    }
  }

  //-- The other forms of the header ----------------------------------------------------------

  /** The wildcard matches any hash, and a weak tag matches as a strong one. */
  lemma WildcardAndWeak(h: Fnv1a.word, known: Fnv1a.word)
    ensures MatchesIfNoneMatch(h, "*")
    ensures MatchesIfNoneMatch(h, "W/" + Etag(known)) <==> h == known
  {
    hide HashText, Split, Trim;
    SplitSingle("*", ',');
    TrimIdentity("*");
    assert TagMatches(h, Trim(Split("*", ',')[0]));
    var tag := "W/" + Etag(known);
    HashTextReads(known);
    assert ',' !in tag && tag[0] == 'W' && tag[|tag| - 1] == '"';
    SplitSingle(tag, ',');
    TrimIdentity(tag);
    assert Etag(h)[0] == '"' && tag[..2] == "W/" && tag[2..] == Etag(known);
    if h != known && TagMatches(h, tag) {
      EtagInjective(h, known);
    }
    assert TagMatches(h, Trim(Split(tag, ',')[0])) <==> TagMatches(h, tag);
  }

  /** A list of tags matches exactly if one of them does. */
  lemma ListMatches(h: Fnv1a.word, first: string, rest: string)
    requires ',' !in first
    ensures MatchesIfNoneMatch(h, first + [','] + rest) <==> MatchesIfNoneMatch(h, first) || MatchesIfNoneMatch(h, rest)
  {
    hide Split, TagMatches, Trim;
    SplitFirst(first, rest, ',');
    SplitSingle(first, ',');
    var all, tail := Split(first + [','] + rest, ','), Split(rest, ',');
    assert all == [first] + tail;
    assert forall i :: 0 <= i < |tail| ==> all[i + 1] == tail[i];
    if i :| 0 <= i < |tail| && TagMatches(h, Trim(tail[i])) {
      assert TagMatches(h, Trim(all[i + 1]));
    }
    if TagMatches(h, Trim(first)) {
      assert TagMatches(h, Trim(all[0])) && TagMatches(h, Trim(Split(first, ',')[0]));
    }
    if i :| 0 <= i < |all| && TagMatches(h, Trim(all[i])) {
      assert i == 0 || TagMatches(h, Trim(tail[i - 1]));
    }
  }

  lemma DigitsAre(h: nat, k: nat, front: string, d: nat)
    requires k > 0 && Digits(h, k - 1) == front && d < 16
    ensures Digits(16 * h + d, k) == front + [HexDigit(d)]
  {
    assert (16 * h + d) / 16 == h;
  }

  /** Sixteen lowercase digits, padded with zeros, in double quotes. */
  lemma TextForm()
    ensures HashText(0xab) == "00000000000000ab" && Etag(0xab) == "\"00000000000000ab\""
  {
    hide Digits;
    assert Digits(0, 14) == "00000000000000" by { ZeroDigits(14); }
    DigitsAre(0, 15, "00000000000000", 0xa);
    DigitsAre(0xa, 16, "00000000000000a", 0xb);
  }

  lemma {:induction false} ZeroDigits(k: nat)
    ensures forall i :: 0 <= i < k ==> Digits(0, k)[i] == '0'
  {
    if k > 0 {
      ZeroDigits(k - 1);
    }
  }
}
