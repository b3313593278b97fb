/**
 Cookies at a loopback proxy (sdk/src/loopback.rs): the check for a required cookie, and
 the removal of cookies before a request goes to the shared app.
 */
module Cookies {
  import opened Prelude
  import opened Secrets

  /** A `Cookie` header value: text of visible ASCII, or bytes `to_str` refuses. */
  datatype Value = Text(text: string) | NotText(bytes: seq<byte>)

  predicate IsVisible(s: string) {
    forall i :: 0 <= i < |s| ==> ' ' <= s[i] <= '~' || s[i] == '\t'
  }

  predicate WellFormed(headers: seq<Value>) {
    forall i :: 0 <= i < |headers| && headers[i].Text? ==> IsVisible(headers[i].text)
  }

  /** `HeaderValue::from_str`. */
  function FromStr(s: string): Option<Value> {
    if IsVisible(s) then Some(Text(s)) else None
  }

  function TrimAll(parts: seq<string>): (r: seq<string>)
    ensures |r| == |parts|
    ensures forall i :: 0 <= i < |parts| ==> r[i] == Trim(parts[i])
  {
    seq(|parts|, i requires 0 <= i < |parts| => Trim(parts[i]))
  }

  /** The `;`-separated parts of one header, trimmed. */
  function Parts(v: Value): seq<string> {
    match v
    case Text(text) => TrimAll(Split(text, ';'))
    case NotText(_) => []
  }

  function NameOf(part: string): string { part[..Until(part, "=")] }

  function ValueOf(part: string): string
    requires '=' in part
  {
    UntilFinds(part);
    part[Until(part, "=") + 1..]
  }

  lemma UntilFinds(part: string)
    ensures '=' in part <==> Until(part, "=") < |part|
  {
  }

  /** The parts that are `name=value`, in order. */
  function Pairs(parts: seq<string>): (r: seq<string>)
    ensures forall i :: 0 <= i < |r| ==> '=' in r[i]
  {
    if parts == [] then []
    else (if '=' in parts[0] then [parts[0]] else []) + Pairs(parts[1..])
  }

  function PairsIn(headers: seq<Value>): (r: seq<string>)
    ensures forall i :: 0 <= i < |r| ==> '=' in r[i]
  {
    if headers == [] then [] else Pairs(Parts(headers[0])) + PairsIn(headers[1..])
  }

  /** `RequiredCookie::is_presented_in`. */
  predicate IsPresentedIn(name: string, value: string, headers: seq<Value>) {
    var pairs := PairsIn(headers);
    exists i :: 0 <= i < |pairs| && NameOf(pairs[i]) == name && ConstantTimeEq(ValueOf(pairs[i]), value)
  }

  predicate Passes(criterion: string -> bool, part: string) {
    '=' in part && criterion(NameOf(part))
  }

  function Kept(criterion: string -> bool, parts: seq<string>): (r: seq<string>) {
    if parts == [] then []
    else (if Passes(criterion, parts[0]) then [] else [parts[0]]) + Kept(criterion, parts[1..])
  }

  function JoinParts(parts: seq<string>): string {
    if parts == [] then [] else if |parts| == 1 then parts[0] else parts[0] + "; " + JoinParts(parts[1..])
  }

  function WithoutStripped(criterion: string -> bool, v: Value): Option<Value> {
    if v.NotText? then None
    else
      var rest := JoinParts(Kept(criterion, Parts(v)));
      if rest == [] then None else FromStr(rest)
  }

  function Stripped(criterion: string -> bool, headers: seq<Value>): (r: seq<Value>) {
    if headers == [] then []
    else (match WithoutStripped(criterion, headers[0])
          case Some(v) => [v]
          case None => []) + Stripped(criterion, headers[1..])
  }

  //-- One header ------------------------------------------------------------------------

  predicate Clean(part: string) {
    ';' !in part && Trim(part) == part
  }

  predicate AllClean(parts: seq<string>) {
    forall i :: 0 <= i < |parts| ==> Clean(parts[i])
  }

  lemma TrimIsClean(s: string)
    requires ';' !in s
    ensures Clean(Trim(s))
  {
    TrimIdentity(Trim(s));
  }

  lemma PartsAreClean(v: Value)
    ensures AllClean(Parts(v))
  {
    if v.Text? {
      var pieces := Split(v.text, ';');
      hide Trim, Split, Clean;
      forall i | 0 <= i < |pieces| ensures Clean(Trim(pieces[i])) {
        TrimIsClean(pieces[i]);
      }
    }
  }

  lemma {:induction false} KeptAreClean(criterion: string -> bool, parts: seq<string>)
    requires AllClean(parts)
    ensures AllClean(Kept(criterion, parts))
  {
    hide Clean, Passes;
    if parts != [] {
      KeptAreClean(criterion, parts[1..]);
    }
  }

  lemma TrimLead(lead: string, part: string)
    requires (lead == "" || lead == " ") && Clean(part)
    ensures Trim(lead + part) == part
  {
    hide Trim;
    TrimPadded(lead, part, "");
    assert lead + part + "" == lead + part;
  }

  lemma Regroup(lead: string, a: string, b: string)
    ensures lead + (a + "; " + b) == (lead + a) + [';'] + (" " + b)
  {
  }

  lemma JoinSplits(lead: string, parts: seq<string>)
    requires |parts| > 1
    ensures lead + JoinParts(parts) == (lead + parts[0]) + [';'] + (" " + JoinParts(parts[1..]))
  {
    var b := JoinParts(parts[1..]);
    assert JoinParts(parts) == parts[0] + "; " + b;
    hide JoinParts;
    Regroup(lead, parts[0], b);
  }

  /** Joined parts, split and trimmed again, are the same parts. */
  lemma {:induction false} PartsOfJoined(lead: string, parts: seq<string>)
    requires (lead == "" || lead == " ") && parts != [] && AllClean(parts)
    ensures TrimAll(Split(lead + JoinParts(parts), ';')) == parts
    decreases |parts|
  {
    hide Split, Trim;
    TrimLead(lead, parts[0]);
    if |parts| == 1 {
      SplitSingle(lead + parts[0], ';');
    } else {
      var rest := " " + JoinParts(parts[1..]);
      PartsOfJoined(" ", parts[1..]);
      JoinSplits(lead, parts);
      SplitFirst(lead + parts[0], rest, ';');
      var all := [lead + parts[0]] + Split(rest, ';');
      assert TrimAll(all) == [Trim(lead + parts[0])] + TrimAll(Split(rest, ';'));
      assert parts == [parts[0]] + parts[1..];
    }
  }

  lemma {:induction false} JoinedIsVisible(parts: seq<string>)
    requires forall i :: 0 <= i < |parts| ==> IsVisible(parts[i])
    ensures IsVisible(JoinParts(parts))
  {
    if |parts| > 1 {
      JoinedIsVisible(parts[1..]);
    }
  }

  lemma {:induction false} KeptComeFrom(criterion: string -> bool, parts: seq<string>)
    ensures forall p :: p in Kept(criterion, parts) ==> p in parts
  {
    if parts != [] {
      KeptComeFrom(criterion, parts[1..]);
    }
  }

  lemma {:induction false} SplitIsVisible(s: string)
    requires IsVisible(s)
    ensures forall i :: 0 <= i < |Split(s, ';')| ==> IsVisible(Split(s, ';')[i])
  {
    if s != [] {
      SplitIsVisible(s[1..]);
    }
  }

  lemma TrimIsVisible(s: string)
    requires IsVisible(s)
    ensures IsVisible(Trim(s))
  {
  }

  lemma PartsAreVisible(v: Value)
    requires v.Text? && IsVisible(v.text)
    ensures forall p :: p in Parts(v) ==> IsVisible(p)
  {
    var pieces := Split(v.text, ';');
    hide Split, Trim, IsVisible;
    SplitIsVisible(v.text);
    forall i | 0 <= i < |pieces| ensures IsVisible(Trim(pieces[i])) {
      TrimIsVisible(pieces[i]);
    }
  }

  /** What is left of a header is exactly its kept parts, or nothing with a name in it. */
  lemma StrippedHeader(criterion: string -> bool, v: Value)
    requires v.Text? ==> IsVisible(v.text)
    ensures var kept := Kept(criterion, Parts(v));
            match WithoutStripped(criterion, v)
            case Some(w) => w == Text(JoinParts(kept)) && Parts(w) == kept
            case None => Pairs(kept) == []
  {
    hide Split, Trim, TrimAll, IsVisible, Clean, Passes;
    if v.NotText? {
    } else {
      var parts := Parts(v);
      var kept := Kept(criterion, parts);
      PartsAreClean(v);
      KeptAreClean(criterion, parts);
      PartsAreVisible(v);
      KeptComeFrom(criterion, parts);
      JoinedIsVisible(kept);
      if JoinParts(kept) != [] {
        PartsOfJoined("", kept);
        assert "" + JoinParts(kept) == JoinParts(kept);
      } else {
        EmptyJoin(kept);
      }
    }
  }

  lemma EmptyJoin(parts: seq<string>)
    requires JoinParts(parts) == []
    ensures Pairs(parts) == []
  {
    if |parts| == 1 {
      assert parts[1..] == [];
    }
  }

  lemma {:induction false} PairsOfKept(criterion: string -> bool, parts: seq<string>)
    ensures Pairs(Kept(criterion, parts)) == Kept(criterion, Pairs(parts))
  {
    hide Passes;
    if parts != [] {
      PairsOfKept(criterion, parts[1..]);
      var head, rest := parts[0], Kept(criterion, parts[1..]);
      if Passes(criterion, head) {
        NamedPasses(criterion, head);
        assert ([head] + Pairs(parts[1..]))[1..] == Pairs(parts[1..]);
        assert Kept(criterion, parts) == rest && Pairs(parts) == [head] + Pairs(parts[1..]);
      } else {
        assert ([head] + rest)[1..] == rest;
        if '=' in head {
          assert ([head] + Pairs(parts[1..]))[1..] == Pairs(parts[1..]);
        } else {
          assert Pairs(parts) == Pairs(parts[1..]) && Pairs([head] + rest) == Pairs(rest);
        }
      }
    }
  }

  lemma NamedPasses(criterion: string -> bool, part: string)
    requires Passes(criterion, part)
    ensures '=' in part
  {
  }

  lemma {:induction false} KeptSplits(criterion: string -> bool, a: seq<string>, b: seq<string>)
    ensures Kept(criterion, a + b) == Kept(criterion, a) + Kept(criterion, b)
  {
    hide Passes;
    if a == [] {
      assert a + b == b;
    } else {
      assert (a + b)[1..] == a[1..] + b;
      KeptSplits(criterion, a[1..], b);
    }
  }

  //-- All headers -----------------------------------------------------------------------

  /** The surviving pairs are the pairs that fail the criterion, in their order. */
  lemma {:induction false} StrippedPairs(criterion: string -> bool, headers: seq<Value>)
    requires WellFormed(headers)
    ensures PairsIn(Stripped(criterion, headers)) == Kept(criterion, PairsIn(headers))
  {
    if headers != [] {
      hide WithoutStripped, Parts, Pairs, Passes, IsVisible;
      var head, rest := headers[0], Stripped(criterion, headers[1..]);
      StrippedPairs(criterion, headers[1..]);
      StrippedHeader(criterion, head);
      PairsOfKept(criterion, Parts(head));
      KeptSplits(criterion, Pairs(Parts(head)), PairsIn(headers[1..]));
      match WithoutStripped(criterion, head) {
        case Some(w) => assert ([w] + rest)[1..] == rest;
        case None => assert [] + rest == rest;
      }
    }
  }

  lemma {:induction false} KeptMembers(criterion: string -> bool, parts: seq<string>, p: string)
    ensures p in Kept(criterion, parts) <==> p in parts && !Passes(criterion, p)
  {
    hide Passes;
    if parts != [] {
      KeptMembers(criterion, parts[1..], p);
      assert parts == [parts[0]] + parts[1..];
    }
  }

  /** A cookie is presented after stripping exactly if it was before and its name fails the criterion. */
  lemma StrippedPresents(criterion: string -> bool, headers: seq<Value>, name: string, value: string)
    requires WellFormed(headers)
    ensures IsPresentedIn(name, value, Stripped(criterion, headers)) <==>
            IsPresentedIn(name, value, headers) && !criterion(name)
  {
    var before, after := PairsIn(headers), PairsIn(Stripped(criterion, headers));
    StrippedPairs(criterion, headers);
    hide PairsIn, Stripped, Kept, NameOf, ValueOf, ConstantTimeEq, WellFormed;
    if IsPresentedIn(name, value, Stripped(criterion, headers)) {
      var i :| 0 <= i < |after| && NameOf(after[i]) == name && ConstantTimeEq(ValueOf(after[i]), value);
      KeptMembers(criterion, before, after[i]);
      assert after[i] in before;
    }
    if IsPresentedIn(name, value, headers) && !criterion(name) {
      var i :| 0 <= i < |before| && NameOf(before[i]) == name && ConstantTimeEq(ValueOf(before[i]), value);
      KeptMembers(criterion, before, before[i]);
      assert before[i] in after;
    }
  }

  predicate HasPair(pairs: seq<string>, name: string, value: string)
    requires forall i :: 0 <= i < |pairs| ==> '=' in pairs[i]
  {
    exists i :: 0 <= i < |pairs| && NameOf(pairs[i]) == name && ValueOf(pairs[i]) == value
  }

  /** Presenting a cookie is carrying the pair `name=value`. */
  lemma PresentedIsEquality(name: string, value: string, headers: seq<Value>)
    ensures IsPresentedIn(name, value, headers) <==> HasPair(PairsIn(headers), name, value)
  {
    var pairs := PairsIn(headers);
    hide PairsIn, NameOf, ValueOf, ConstantTimeEq;
    if IsPresentedIn(name, value, headers) {
      var i :| 0 <= i < |pairs| && NameOf(pairs[i]) == name && ConstantTimeEq(ValueOf(pairs[i]), value);
      ConstantTimeEqIsEquality(ValueOf(pairs[i]), value);
    } else if HasPair(pairs, name, value) {
      var i :| 0 <= i < |pairs| && NameOf(pairs[i]) == name && ValueOf(pairs[i]) == value;
      ConstantTimeEqIsEquality(ValueOf(pairs[i]), value);
    }
  }

  lemma {:induction false} KeptTwice(criterion: string -> bool, parts: seq<string>)
    ensures Kept(criterion, Kept(criterion, parts)) == Kept(criterion, parts)
  {
    hide Passes;
    if parts != [] {
      KeptTwice(criterion, parts[1..]);
      var rest := Kept(criterion, parts[1..]);
      if Passes(criterion, parts[0]) {
        assert Kept(criterion, parts) == rest;
      } else {
        assert ([parts[0]] + rest)[1..] == rest;
      }
    }
  }

  lemma StrippedHeaderTwice(criterion: string -> bool, v: Value)
    requires v.Text? ==> IsVisible(v.text)
    requires WithoutStripped(criterion, v).Some?
    ensures WithoutStripped(criterion, WithoutStripped(criterion, v).value) == WithoutStripped(criterion, v)
  {
    hide Parts, Kept, IsVisible;
    var w := WithoutStripped(criterion, v).value;
    StrippedHeader(criterion, v);
    KeptTwice(criterion, Parts(v));
  }

  /** Stripping twice equals stripping once. */
  lemma {:induction false} StrippedTwice(criterion: string -> bool, headers: seq<Value>)
    requires WellFormed(headers)
    ensures Stripped(criterion, Stripped(criterion, headers)) == Stripped(criterion, headers)
  {
    if headers != [] {
      hide WithoutStripped, IsVisible;
      StrippedTwice(criterion, headers[1..]);
      var rest := Stripped(criterion, headers[1..]);
      match WithoutStripped(criterion, headers[0]) {
        case None => assert [] + rest == rest;
        case Some(w) =>
          StrippedHeaderTwice(criterion, headers[0]);
          assert ([w] + rest)[1..] == rest;
      }
    }
  }

  /** The first pass: what is left of each header, in order. */
  method RemainingHeaders(criterion: string -> bool, headers: seq<Value>) returns (kept: seq<Value>)
    ensures kept == Stripped(criterion, headers)
  {
    hide WithoutStripped;
    kept := [];
    assert headers[0..] == headers;
    hide Stripped;
    for n := 0 to |headers|
      invariant kept + Stripped(criterion, headers[n..]) == Stripped(criterion, headers)
    {
      StrippedNext(criterion, headers, n, kept);
      match WithoutStripped(criterion, headers[n]) {
        case Some(v) => kept := kept + [v];
        case None =>
      }
    }
    StrippedNothing(criterion, headers[|headers|..]);
  }

  lemma StrippedNothing(criterion: string -> bool, headers: seq<Value>)
    requires headers == []
    ensures Stripped(criterion, headers) == []
  {
  }

  lemma StrippedNext(criterion: string -> bool, headers: seq<Value>, n: nat, kept: seq<Value>)
    requires n < |headers|
    ensures var left := WithoutStripped(criterion, headers[n]);
            kept + Stripped(criterion, headers[n..]) ==
            (if left.Some? then kept + [left.value] else kept) + Stripped(criterion, headers[n + 1..])
  {
    hide WithoutStripped;
    assert headers[n..][1..] == headers[n + 1..];
  }

  class HeaderMap {
    var cookies: seq<Value>

    method StripCookies(criterion: string -> bool)
      modifies this
      ensures cookies == Stripped(criterion, old(cookies))
    {
      hide Stripped;
      var kept := RemainingHeaders(criterion, cookies);
      cookies := [];
      for n := 0 to |kept|
        invariant cookies == kept[..n]
      {
        cookies := cookies + [kept[n]];
      }
    }
  }

  //-- A header as it is written ------------------------------------------------------------

  /** A part is the pair of a name without `=` and a value exactly if it is their text. */
  lemma PairIsItsText(part: string, name: string, value: string)
    requires '=' in part && '=' !in name
    ensures NameOf(part) == name && ValueOf(part) == value <==> part == name + "=" + value
  {
    UntilFinds(part);
    var n := Until(part, "=");
    assert part == part[..n] + "=" + part[n + 1..];
    if part == name + "=" + value {
      UntilIs(part, "=", |name|);
    }
  }

  lemma {:induction false} PairsAre(parts: seq<string>)
    ensures forall p :: p in Pairs(parts) <==> p in parts && '=' in p
  {
    if parts != [] {
      PairsAre(parts[1..]);
    }
  }

  /** A cookie header whose parts are joined by "; " presents `name=value` exactly if that is one of them. */
  lemma HeaderPresents(parts: seq<string>, name: string, value: string)
    requires parts != [] && AllClean(parts) && '=' !in name
    ensures IsPresentedIn(name, value, [Text(JoinParts(parts))]) <==> name + "=" + value in parts
  {
    var header := [Text(JoinParts(parts))];
    hide JoinParts, Clean, Pairs, NameOf, ValueOf, IsPresentedIn, HasPair;
    PartsOfJoined("", parts);
    assert "" + JoinParts(parts) == JoinParts(parts);
    assert header[1..] == [] && PairsIn([]) == [];
    assert PairsIn(header) == Pairs(parts) + [];
    PairsAre(parts);
    PresentedIsEquality(name, value, header);
    hide PairsIn;
    HasPairIs(PairsIn(header), name, value);
    assert '=' in name + "=" + value;
  }

  lemma HasPairIs(pairs: seq<string>, name: string, value: string)
    requires (forall i :: 0 <= i < |pairs| ==> '=' in pairs[i]) && '=' !in name
    ensures HasPair(pairs, name, value) <==> name + "=" + value in pairs
  {
    hide NameOf, ValueOf;
    forall i | 0 <= i < |pairs|
      ensures NameOf(pairs[i]) == name && ValueOf(pairs[i]) == value <==> pairs[i] == name + "=" + value {
      PairIsItsText(pairs[i], name, value);
    }
  }
}
