/**
 Invite codes (wire/src/lib.rs): hex as in section 8 of RFC 4648, unpadded base32 as in
 section 6, and the `wax1_…` form built from them.
 */
module InviteCodes {
  import opened Prelude
  import opened BitOps

  datatype Invite =
    | WispersConnect(token: string, code: string, backend: Option<string>)
    | Iroh(endpointId: seq<byte>, secret: seq<byte>)

  datatype Problem =
    | MissingToken
    | MissingCode
    | BackendNotBase32
    | BackendNotHttps
    | BadEndpointId
    | BadSecret

  datatype InviteError =
    | NotAnInvite
    | UnsupportedTransport(tag: string)
    | Malformed(problem: Problem)

  //-- Hex ------------------------------------------------------------------------

  function HexDigit(n: nat): (c: char)
    requires n < 16
  {
    if n < 10 then ('0' as int + n) as char else ('a' as int + n - 10) as char
  }

  /** Digits of either case. */
  function HexValue(c: char): (r: Option<nat>)
    ensures r.Some? ==> r.value < 16
  {
    if '0' <= c <= '9' then Some(c as int - '0' as int)
    else if 'a' <= c <= 'f' then Some(c as int - 'a' as int + 10)
    else if 'A' <= c <= 'F' then Some(c as int - 'A' as int + 10)
    else None
  }

  function EncodeHex(b: seq<byte>): (r: string)
    ensures |r| == 2 * |b|
  {
    if b == [] then [] else [HexDigit(b[0] / 16), HexDigit(b[0] % 16)] + EncodeHex(b[1..])
  }

  function DecodeHex(s: string): (r: Option<seq<byte>>)
    decreases |s|
  {
    if s == [] then Some([])
    else if |s| == 1 then None
    else
      match (HexValue(s[0]), HexValue(s[1]), DecodeHex(s[2..]))
      case (Some(h), Some(l), Some(rest)) => Some([16 * h + l] + rest)
      case _ => None
  }

  lemma HexDigitOf(c: char, n: nat)
    requires n < 16
    ensures HexValue(c) == Some(n) <==> LowerChar(c) == HexDigit(n)
  {
  }

  lemma LowerSplits(s: string, k: nat)
    requires k <= |s|
    ensures Lower(s) == Lower(s[..k]) + Lower(s[k..])
  {
  }

  lemma HexStep(s: string, b: seq<byte>)
    requires |s| >= 2 && b != []
    ensures Lower(s) == EncodeHex(b) <==>
            && HexValue(s[0]) == Some(b[0] / 16) && HexValue(s[1]) == Some(b[0] % 16)
            && Lower(s[2..]) == EncodeHex(b[1..])
  {
    hide HexDigit, HexValue, LowerChar;
    HexDigitOf(s[0], b[0] / 16);
    HexDigitOf(s[1], b[0] % 16);
    LowerSplits(s, 2);
    assert Lower(s[..2]) == [LowerChar(s[0]), LowerChar(s[1])];
    var x, y := Lower(s), EncodeHex(b);
    assert x[..2] == Lower(s[..2]) && x[2..] == Lower(s[2..]) && x == x[..2] + x[2..];
    assert y[0] == HexDigit(b[0] / 16) && y[1] == HexDigit(b[0] % 16) && y[2..] == EncodeHex(b[1..]);
  }

  /** Decoding accepts exactly the texts that are the encoding in either case. */
  lemma {:induction false} HexRoundTrip(s: string, b: seq<byte>)
    ensures DecodeHex(s) == Some(b) <==> Lower(s) == EncodeHex(b)
    decreases |s|
  {
    hide EncodeHex, HexValue, Lower;
    if |s| >= 2 && b != [] {
      HexStep(s, b);
      HexRoundTrip(s[2..], b[1..]);
      assert b == [b[0]] + b[1..];
    }
  }

  lemma EncodedHexIsLower(b: seq<byte>)
    ensures Lower(EncodeHex(b)) == EncodeHex(b)
  {
    assert forall n: nat :: n < 16 ==> LowerChar(HexDigit(n)) == HexDigit(n);
    EncodedHexChars(b);
  }

  lemma {:induction false} EncodedHexChars(b: seq<byte>)
    ensures forall i :: 0 <= i < |EncodeHex(b)| ==>
              var c := EncodeHex(b)[i]; '0' <= c <= '9' || 'a' <= c <= 'f'
  {
    if b != [] {
      EncodedHexChars(b[1..]);
    }
  }

  //-- Base32 ---------------------------------------------------------------------

  /** The lowest `k` bits of `n`, highest first. */
  function Bits(n: nat, k: nat): (r: seq<bool>)
    ensures |r| == k
    decreases k
  {
    if k == 0 then [] else Bits(n / 2, k - 1) + [n % 2 == 1]
  }

  function Number(bits: seq<bool>): (n: nat)
    ensures n < Pow2(|bits|)
  {
    if bits == [] then 0
    else 2 * Number(bits[..|bits| - 1]) + (if bits[|bits| - 1] then 1 else 0)
  }

  lemma {:induction false} NumberOfBits(n: nat, k: nat)
    requires n < Pow2(k)
    ensures Number(Bits(n, k)) == n
  {
    if k > 0 {
      NumberOfBits(n / 2, k - 1);
      var r := Bits(n, k);
      assert r[..|r| - 1] == Bits(n / 2, k - 1);
    }
  }

  lemma {:induction false} BitsOfNumber(bits: seq<bool>)
    ensures Bits(Number(bits), |bits|) == bits
  {
    if bits != [] {
      var front := bits[..|bits| - 1];
      BitsOfNumber(front);
      assert Number(bits) / 2 == Number(front);
      assert bits == front + [bits[|bits| - 1]];
    }
  }

  predicate AllBelow(data: seq<nat>, bound: nat) {
    forall i :: 0 <= i < |data| ==> data[i] < bound
  }

  /** The bit stream of numbers of `k` bits each. */
  function AllBits(data: seq<nat>, k: nat): (r: seq<bool>)
    ensures |r| == |data| * k
  {
    if data == [] then []
    else
      assert |data| * k == k + (|data| - 1) * k;
      Bits(data[0], k) + AllBits(data[1..], k)
  }

  function Group(bits: seq<bool>, k: nat): (r: seq<nat>)
    requires k > 0
    ensures AllBelow(r, Pow2(k))
    decreases |bits|
  {
    if |bits| < k then [] else [Number(bits[..k])] + Group(bits[k..], k)
  }

  lemma {:induction false} GroupAllBits(data: seq<nat>, k: nat)
    requires k > 0 && AllBelow(data, Pow2(k))
    ensures Group(AllBits(data, k), k) == data
  {
    hide Bits, Number, Pow2;
    if data != [] {
      var rest := AllBits(data[1..], k);
      assert AllBits(data, k) == Bits(data[0], k) + rest;
      assert (Bits(data[0], k) + rest)[..k] == Bits(data[0], k);
      assert (Bits(data[0], k) + rest)[k..] == rest;
      NumberOfBits(data[0], k);
      GroupAllBits(data[1..], k);
      assert [data[0]] + data[1..] == data;
    }
  }

  lemma {:induction false} AllBitsGroup(bits: seq<bool>, k: nat, m: nat)
    requires k > 0 && |bits| == m * k
    ensures AllBits(Group(bits, k), k) == bits
    decreases m
  {
    hide Bits, Number, Pow2;
    if m > 0 {
      assert m * k == k + (m - 1) * k;
      BitsOfNumber(bits[..k]);
      AllBitsGroup(bits[k..], k, m - 1);
      var g := Group(bits, k);
      assert g[1..] == Group(bits[k..], k);
      assert bits == bits[..k] + bits[k..];
    }
  }

  function Zeros(n: nat): (r: seq<bool>)
    ensures |r| == n
    ensures forall i :: 0 <= i < n ==> !r[i]
  {
    seq(n, _ => false)
  }

  lemma FillsUp(n: nat)
    ensures (n + (5 - n % 5) % 5) % 5 == 0
  {
    var q, r := n / 5, n % 5;
    assert n + (5 - r) % 5 == if r == 0 then 5 * q else 5 * (q + 1);
  }

  /** The bit stream filled up with zeros to whole groups of five. */
  function PaddedBits(data: seq<byte>): (r: seq<bool>)
    ensures |r| % 5 == 0 && 8 * |data| <= |r| < 8 * |data| + 5
  {
    var bits := AllBits(data, 8);
    var missing := (5 - |bits| % 5) % 5;
    assert (|bits| + missing) % 5 == 0 by { FillsUp(|bits|); }
    bits + Zeros(missing)
  }

  function EncodeBase32(data: seq<byte>): (r: seq<nat>) {
    Group(PaddedBits(data), 5)
  }

  /** Refuses a leftover of five or more bits, or one that is not all zeros. */
  function DecodeBase32(symbols: seq<nat>): (r: Option<seq<byte>>) {
    var bits := AllBits(symbols, 5);
    var whole := |bits| / 8 * 8;
    if |bits| - whole >= 5 || (exists i :: whole <= i < |bits| && bits[i]) then None
    else
      var data := Group(bits[..whole], 8);
      assert Pow2(8) == 256;
      Some(data)
  }

  lemma Base32RoundTrip(data: seq<byte>)
    ensures DecodeBase32(EncodeBase32(data)) == Some(data)
  {
    assert Pow2(8) == 256;
    var bits, padded := AllBits(data, 8), PaddedBits(data);
    assert padded[..8 * |data|] == bits;
    assert forall i :: 8 * |data| <= i < |padded| ==> !padded[i];
    hide Pow2, Group, AllBits, PaddedBits;
    AllBitsGroup(padded, 5, |padded| / 5);
    GroupAllBits(data, 8);
    DecodesTo(EncodeBase32(data), padded, data);
  }

  lemma DecodesTo(symbols: seq<nat>, bits: seq<bool>, data: seq<byte>)
    requires AllBits(symbols, 5) == bits && 8 * |data| <= |bits| < 8 * |data| + 5
    requires forall i :: 8 * |data| <= i < |bits| ==> !bits[i]
    requires Group(bits[..8 * |data|], 8) == data
    ensures DecodeBase32(symbols) == Some(data)
  {
    hide Group, AllBits;
    assert |bits| / 8 == |data|;
  }

  function Base32Char(n: nat): (c: char)
    requires n < 32
  {
    if n < 26 then ('A' as int + n) as char else ('2' as int + n - 26) as char
  }

  function Base32Value(c: char): (r: Option<nat>)
    ensures r.Some? ==> r.value < 32
  {
    if 'A' <= c <= 'Z' then Some(c as int - 'A' as int)
    else if '2' <= c <= '7' then Some(c as int - '2' as int + 26)
    else None
  }

  function Base32Text(symbols: seq<nat>): (r: string)
    requires AllBelow(symbols, 32)
    ensures |r| == |symbols|
  {
    seq(|symbols|, i requires 0 <= i < |symbols| => Base32Char(symbols[i]))
  }

  function Base32Symbols(text: string): (r: Option<seq<nat>>) {
    if text == [] then Some([])
    else
      match (Base32Value(text[0]), Base32Symbols(text[1..]))
      case (Some(n), Some(rest)) => Some([n] + rest)
      case _ => None
  }

  lemma {:induction false} Base32TextRoundTrip(symbols: seq<nat>)
    requires AllBelow(symbols, 32)
    ensures Base32Symbols(Base32Text(symbols)) == Some(symbols)
  {
    if symbols != [] {
      Base32TextRoundTrip(symbols[1..]);
      assert Base32Text(symbols)[1..] == Base32Text(symbols[1..]);
      assert [symbols[0]] + symbols[1..] == symbols;
    }
  }

  function EncodeUrl(url: string): (r: string) {
    var symbols := EncodeBase32(Utf8(url));
    assert Pow2(5) == 32;
    Lower(Base32Text(symbols))
  }

  function DecodeUrl(field: string): (r: Option<string>) {
    match Base32Symbols(Upper(field))
    case None => None
    case Some(symbols) =>
      match DecodeBase32(symbols)
      case None => None
      case Some(data) => FromUtf8(data)
  }

  lemma UpperLowerText(symbols: seq<nat>)
    requires AllBelow(symbols, 32)
    ensures Upper(Lower(Base32Text(symbols))) == Base32Text(symbols)
  {
    assert forall n: nat :: n < 32 ==> UpperChar(LowerChar(Base32Char(n))) == Base32Char(n);
  }

  /** A URL comes back from its lowercase base32, whatever its length. */
  lemma UrlRoundTrip(url: string)
    ensures DecodeUrl(EncodeUrl(url)) == Some(url)
  {
    var data := Utf8(url);
    var symbols := EncodeBase32(data);
    assert Pow2(5) == 32;
    hide *;
    UpperLowerText(symbols);
    Base32TextRoundTrip(symbols);
    Base32RoundTrip(data);
    Utf8RoundTrip(url);
    UrlSteps(url, symbols, data);
  }

  lemma UrlSteps(url: string, symbols: seq<nat>, data: seq<byte>)
    requires AllBelow(symbols, 32)
    requires symbols == EncodeBase32(Utf8(url))
    requires Base32Symbols(Upper(Lower(Base32Text(symbols)))) == Some(symbols)
    requires DecodeBase32(symbols) == Some(data)
    ensures DecodeUrl(EncodeUrl(url)) == FromUtf8(data)
  {
    hide Base32Symbols, Upper, Lower, Base32Text, DecodeBase32, EncodeBase32, FromUtf8, Utf8;
  }

  lemma EncodedUrlChars(url: string)
    ensures forall i :: 0 <= i < |EncodeUrl(url)| ==>
              var c := EncodeUrl(url)[i]; 'a' <= c <= 'z' || '2' <= c <= '7'
    ensures url != [] ==> EncodeUrl(url) != []
  {
    hide Utf8, AllBits, Number;
    var data := Utf8(url);
    assert |PaddedBits(data)| >= 8 * |data|;
  }

  //-- Codes ------------------------------------------------------------------------

  function FieldAt(fields: seq<string>, i: nat): string {
    if i < |fields| then fields[i] else []
  }

  function ParseWispersConnect(fields: seq<string>): (r: Result<Invite, InviteError>) {
    var token, code := FieldAt(fields, 0), FieldAt(fields, 1);
    if token == [] then Err(Malformed(MissingToken))
    else if code == [] then Err(Malformed(MissingCode))
    else if |fields| <= 2 then Ok(WispersConnect(token, code, None))
    else
      match DecodeUrl(fields[2])
      case None => Err(Malformed(BackendNotBase32))
      case Some(url) =>
        if "https://" <= url then Ok(WispersConnect(token, code, Some(url)))
        else Err(Malformed(BackendNotHttps))
  }

  function ParseIroh(fields: seq<string>): (r: Result<Invite, InviteError>) {
    var id, secret := DecodeHex(FieldAt(fields, 0)), DecodeHex(FieldAt(fields, 1));
    if id.None? || |id.value| != 32 then Err(Malformed(BadEndpointId))
    else if secret.None? || |secret.value| != 16 then Err(Malformed(BadSecret))
    else Ok(Iroh(id.value, secret.value))
  }

  function ParseTagged(fields: seq<string>): (r: Result<Invite, InviteError>)
    requires |fields| >= 1
  {
    if fields[0] == [] then Err(NotAnInvite)
    else if fields[0] == "wc" then ParseWispersConnect(fields[1..])
    else if fields[0] == "iroh" then ParseIroh(fields[1..])
    else Err(UnsupportedTransport(fields[0]))
  }

  function ParseTrimmed(code: string): (r: Result<Invite, InviteError>) {
    if "wax1_" <= code then ParseTagged(Split(code[5..], '_'))
    else if "wax_" <= code then ParseWispersConnect(Split(code[4..], '_'))
    else Err(NotAnInvite)
  }

  function Parse(code: string): (r: Result<Invite, InviteError>) {
    ParseTrimmed(Trim(code))
  }

  function ToCode(invite: Invite): (r: string) {
    match invite
    case WispersConnect(token, code, backend) =>
      "wax1_wc_" + token + "_" + code + (if backend.None? then [] else "_" + EncodeUrl(backend.value))
    case Iroh(endpointId, secret) =>
      "wax1_iroh_" + EncodeHex(endpointId) + "_" + EncodeHex(secret)
  }

  /** The invites whose code gives them back. */
  predicate Encodable(invite: Invite) {
    match invite
    case WispersConnect(token, code, backend) =>
      && token != [] && '_' !in token
      && code != [] && '_' !in code
      && (backend.None? ==> !IsWhitespace(code[|code| - 1]))
      && (backend.Some? ==> "https://" <= backend.value)
    case Iroh(endpointId, secret) => |endpointId| == 32 && |secret| == 16
  }

  lemma {:induction false} LastPieceEndsTheText(s: string, sep: char)
    ensures var pieces := Split(s, sep);
            var last := pieces[|pieces| - 1];
            last != [] ==> s != [] && last[|last| - 1] == s[|s| - 1]
  {
    if s != [] {
      LastPieceEndsTheText(s[1..], sep);
    }
  }

  lemma ParsedWispersConnect(fields: seq<string>)
    requires ParseWispersConnect(fields).Ok?
    requires forall i :: 0 <= i < |fields| ==> '_' !in fields[i]
    ensures ParseWispersConnect(fields).value.WispersConnect?
    ensures var p := ParseWispersConnect(fields).value;
            && p.token != [] && '_' !in p.token && p.code != [] && '_' !in p.code
            && (p.backend.Some? ==> "https://" <= p.backend.value)
            && (p.backend.None? ==> |fields| == 2 && p.code == fields[1])
  {
    hide DecodeUrl;
  }

  /** Whatever parses is encodable. */
  lemma ParsedIsEncodable(code: string)
    requires Parse(code).Ok?
    ensures Encodable(Parse(code).value)
  {
    var c := Trim(code);
    hide Trim, Split, ParseWispersConnect, ParseIroh, DecodeHex;
    var fields := Split(if "wax1_" <= c then c[5..] else c[4..], '_');
    LastPieceEndsTheText(if "wax1_" <= c then c[5..] else c[4..], '_');
    if "wax1_" <= c && fields[0] == "iroh" {
      IrohSizes(fields[1..]);
    } else {
      ParsedWispersConnect(if "wax1_" <= c then fields[1..] else fields);
    }
  }

  lemma IrohSizes(fields: seq<string>)
    requires ParseIroh(fields).Ok?
    ensures Encodable(ParseIroh(fields).value)
  {
    hide DecodeHex;
  }

  lemma SplitTwo(tag: string, a: string, b: string)
    requires '_' !in tag && '_' !in a && '_' !in b
    ensures Split(tag + "_" + a + "_" + b, '_') == [tag, a, b]
  {
    hide Split;
    assert tag + "_" + a + "_" + b == tag + "_" + (a + "_" + b);
    SplitFirst(tag, a + "_" + b, '_');
    SplitFirst(a, b, '_');
    SplitSingle(b, '_');
  }

  lemma SplitMore(tag: string, a: string, b: string, more: string)
    requires '_' !in tag && '_' !in a && '_' !in b
    ensures Split(tag + "_" + a + "_" + b + "_" + more, '_') == [tag, a, b] + Split(more, '_')
  {
    hide Split;
    SplitAppend(tag + "_" + a + "_" + b, more, '_');
    SplitTwo(tag, a, b);
  }

  lemma HexFieldReads(b: seq<byte>)
    ensures DecodeHex(EncodeHex(b)) == Some(b) && '_' !in EncodeHex(b)
  {
    hide DecodeHex, EncodeHex;
    EncodedHexIsLower(b);
    HexRoundTrip(EncodeHex(b), b);
    EncodedHexChars(b);
  }

  lemma IrohFieldsParse(endpointId: seq<byte>, secret: seq<byte>, more: seq<string>)
    requires |endpointId| == 32 && |secret| == 16
    ensures ParseTagged(["iroh", EncodeHex(endpointId), EncodeHex(secret)] + more) == Ok(Iroh(endpointId, secret))
  {
    hide DecodeHex, EncodeHex;
    HexFieldReads(endpointId);
    HexFieldReads(secret);
    var fields := ["iroh", EncodeHex(endpointId), EncodeHex(secret)] + more;
    assert fields[1..] == [EncodeHex(endpointId), EncodeHex(secret)] + more;
  }

  lemma IrohCodeShape(endpointId: seq<byte>, secret: seq<byte>)
    requires |secret| == 16
    ensures var code := ToCode(Iroh(endpointId, secret));
            && code == "wax1_" + ("iroh" + "_" + EncodeHex(endpointId) + "_" + EncodeHex(secret))
            && !IsWhitespace(code[0]) && !IsWhitespace(code[|code| - 1])
  {
    EncodedHexChars(secret);
    hide EncodeHex;
    var code := ToCode(Iroh(endpointId, secret));
    assert code[|code| - 1] == EncodeHex(secret)[31];
  }

  lemma IrohTrimmedParses(endpointId: seq<byte>, secret: seq<byte>, more: Option<string>)
    requires |endpointId| == 32 && |secret| == 16
    ensures var code := ToCode(Iroh(endpointId, secret));
            ParseTrimmed(code + (if more.None? then [] else "_" + more.value)) == Ok(Iroh(endpointId, secret))
  {
    hide *;
    var id, key := EncodeHex(endpointId), EncodeHex(secret);
    var code, body := ToCode(Iroh(endpointId, secret)), "iroh" + "_" + id + "_" + key;
    IrohCodeShape(endpointId, secret);
    HexFieldReads(endpointId);
    HexFieldReads(secret);
    if more.None? {
      SplitTwo("iroh", id, key);
      VersionOne(body);
      assert code + [] == code;
      IrohFieldsParse(endpointId, secret, []);
      assert ["iroh", id, key] + [] == ["iroh", id, key];
    } else {
      var tail := "_" + more.value;
      SplitMore("iroh", id, key, more.value);
      Reassociate("wax1_", body, tail);
      Reassociate(body, "_", more.value);
      VersionOne(body + tail);
      IrohFieldsParse(endpointId, secret, Split(more.value, '_'));
    }
  }

  lemma VersionOne(body: string)
    ensures ParseTrimmed("wax1_" + body) == ParseTagged(Split(body, '_'))
  {
    hide Split, ParseTagged;
    assert ("wax1_" + body)[5..] == body;
  }

  /** An iroh code parses back, with any fields appended and any whitespace pasted around it. */
  lemma IrohRoundTrip(endpointId: seq<byte>, secret: seq<byte>, appended: Option<string>, before: string, after: string)
    requires |endpointId| == 32 && |secret| == 16
    requires forall i :: 0 <= i < |before| ==> IsWhitespace(before[i])
    requires forall i :: 0 <= i < |after| ==> IsWhitespace(after[i])
    ensures var code := ToCode(Iroh(endpointId, secret));
            Parse(before + (code + (if appended.None? then [] else "_" + appended.value)) + after)
            == Ok(Iroh(endpointId, secret))
  {
    var code := ToCode(Iroh(endpointId, secret));
    IrohCodeShape(endpointId, secret);
    hide Trim, ToCode, IsWhitespace, ParseTrimmed;
    if appended.None? {
      TrimPadded(before, code + [], after);
      IrohTrimmedParses(endpointId, secret, None);
    } else {
      var more := TrimEnd(appended.value);
      var text, cut := code + ("_" + more), appended.value[|more|..] + after;
      assert before + (code + ("_" + appended.value)) + after == before + text + cut;
      assert !IsWhitespace(text[|text| - 1]) by { UnderscoreIsVisible(); }
      TrimPadded(before, text, cut);
      IrohTrimmedParses(endpointId, secret, Some(more));
    }
  }

  lemma UnderscoreIsVisible()
    ensures !IsWhitespace('_')
  {
  }

  lemma WispersConnectParses(token: string, code: string, backend: Option<string>)
    requires Encodable(WispersConnect(token, code, backend))
    ensures Parse(ToCode(WispersConnect(token, code, backend))) == Ok(WispersConnect(token, code, backend))
  {
    var text := ToCode(WispersConnect(token, code, backend));
    var body := "wc" + "_" + token + "_" + code;
    hide Trim, Split, EncodeUrl, DecodeUrl;
    if backend.None? {
      assert text == "wax1_" + body;
      assert text[5..] == body;
      TrimIdentity(text);
      SplitTwo("wc", token, code);
      assert ["wc", token, code][1..] == [token, code];
    } else {
      var e := EncodeUrl(backend.value);
      EncodedUrlChars(backend.value);
      assert text == "wax1_" + body + "_" + e;
      assert text[5..] == body + "_" + e;
      TrimIdentity(text);
      SplitMore("wc", token, code, e);
      SplitSingle(e, '_');
      assert (["wc", token, code] + [e])[1..] == [token, code, e];
      UrlRoundTrip(backend.value);
    }
  }

  /** An invite comes back from its code exactly if it is encodable. */
  lemma CodeRoundTrip(invite: Invite)
    ensures Parse(ToCode(invite)) == Ok(invite) <==> Encodable(invite)
  {
    hide Parse, ToCode;
    if Parse(ToCode(invite)) == Ok(invite) {
      ParsedIsEncodable(ToCode(invite));
    }
    if Encodable(invite) {
      match invite
      case WispersConnect(token, code, backend) => WispersConnectParses(token, code, backend);
      case Iroh(endpointId, secret) =>
        IrohRoundTrip(endpointId, secret, None, [], []);
        assert [] + (ToCode(invite) + []) + [] == ToCode(invite);
    }
  }

  //-- Codes as they are written --------------------------------------------------------------

  /** The digits of section 8 of RFC 4648, lowercase, two a byte. */
  lemma HexVectors()
    ensures EncodeHex([0x00, 0x9a, 0xbc, 0xdf]) == "009abcdf"
  {
    var b: seq<byte> := [0x00, 0x9a, 0xbc, 0xdf];
    assert b[1..] == [0x9a, 0xbc, 0xdf] && b[1..][1..] == [0xbc, 0xdf] && b[1..][1..][1..] == [0xdf];
    assert b[1..][1..][1..][1..] == [];
  }

  /** An iroh code: its tag, the key and the secret, each in hex. */
  lemma IrohCodeIs(endpointId: seq<byte>, secret: seq<byte>)
    ensures "wax1_iroh_" <= ToCode(Iroh(endpointId, secret))
    ensures |ToCode(Iroh(endpointId, secret))| == 10 + 2 * |endpointId| + 1 + 2 * |secret|
  {
  }

  /** The alphabet of section 6 of RFC 4648. */
  lemma Base32Alphabet(n: nat)
    requires n < 32
    ensures Base32Char(n) == "ABCDEFGHIJKLMNOPQRSTUVWXYZ234567"[n]
  {
    var alphabet := "ABCDEFGHIJKLMNOPQRSTUVWXYZ234567";
    assert forall i :: 0 <= i < 26 ==> alphabet[i] as int == 'A' as int + i;
    assert forall i :: 26 <= i < 32 ==> alphabet[i] as int == '2' as int + i - 26;
  }

  lemma BitsOfF()
    ensures Bits(0x66, 8) == [false, true, true, false, false, true, true, false]
  {
    assert Bits(1, 2) == [false, true] && Bits(3, 3) == [false, true, true];
    assert Bits(6, 4) == [false, true, true, false];
    assert Bits(12, 5) == [false, true, true, false, false];
    assert Bits(25, 6) == [false, true, true, false, false, true];
    assert Bits(51, 7) == [false, true, true, false, false, true, true];
  }

  lemma OneByteBits(b: byte)
    ensures AllBits([b], 8) == Bits(b, 8)
  {
    hide Bits;
    var data: seq<byte> := [b];
    assert data[1..] == [];
    assert Bits(b, 8) + [] == Bits(b, 8);
  }

  lemma PaddedOfF()
    ensures PaddedBits([0x66]) == [false, true, true, false, false] + [true, true, false, false, false]
  {
    BitsOfF();
    OneByteBits(0x66);
    hide AllBits, Bits;
    assert Zeros(2) == [false, false];
  }

  /** The first test vector of section 10 of RFC 4648, without its padding: "f" is MY. */
  lemma Base32Vector()
    ensures EncodeBase32([0x66]) == [12, 24]
  {
    hide PaddedBits, Number, Zeros;
    PaddedOfF();
    NumberOfFive(false, true, true, false, false);
    NumberOfFive(true, true, false, false, false);
    TwoGroups([false, true, true, false, false], [true, true, false, false, false]);
  }

  lemma TwoGroups(a: seq<bool>, b: seq<bool>)
    requires |a| == 5 && |b| == 5
    ensures Group(a + b, 5) == [Number(a), Number(b)]
  {
    hide Number;
    assert (a + b)[..5] == a && (a + b)[5..] == b && b[..5] == b && b[5..] == [];
    assert Group(b, 5) == [Number(b)] + Group([], 5);
  }

  lemma NumberOfFive(a: bool, b: bool, c: bool, d: bool, e: bool)
    ensures var bit := (x: bool) => if x then 1 else 0;
            Number([a, b, c, d, e]) == 16 * bit(a) + 8 * bit(b) + 4 * bit(c) + 2 * bit(d) + bit(e)
  {
    assert [a, b, c, d, e][..4] == [a, b, c, d] && [a, b, c, d][..3] == [a, b, c];
    assert [a, b, c][..2] == [a, b] && [a, b][..1] == [a] && [a][..0] == [];
    assert Number([a]) == if a then 1 else 0;
    assert Number([a, b, c]) == 4 * Number([a]) + (if b then 2 else 0) + (if c then 1 else 0);
  }

  /** Codes of the version before transports were tagged are still read. */
  lemma VersionZeroParses(token: string, code: string)
    requires token != [] && '_' !in token && code != [] && '_' !in code && !IsWhitespace(code[|code| - 1])
    ensures Parse("wax_" + (token + ['_'] + code)) == Ok(WispersConnect(token, code, None))
  {
    hide Split, Trim, DecodeUrl;
    var text := "wax_" + (token + ['_'] + code);
    assert text[|text| - 1] == code[|code| - 1] && text[4..] == token + ['_'] + code;
    TrimIdentity(text);
    SplitFirst(token, code, '_');
    SplitSingle(code, '_');
    assert text[3] == '_' && "wax1_"[3] == '1';
  }
}
