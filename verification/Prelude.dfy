/**
 Text and byte helpers shared by the models. Strings are sequences of Unicode
 scalar values, as Rust's `str` is, and `Utf8` gives the bytes the program hashes,
 compares and sends.
 */
module Prelude {

  type byte = x: int | 0 <= x < 256

  datatype Option<+T> = None | Some(value: T)

  datatype Result<+T, +E> = Ok(value: T) | Err(error: E)

  //-- UTF-8 -------------------------------------------------------------------

  function EncodeChar(c: char): (r: seq<byte>)
    ensures 1 <= |r| <= 4
    ensures c != '\0' ==> 0 !in r
  {
    var n := c as int;
    if n < 0x80 then [n]
    else if n < 0x800 then [0xC0 + n / 64, 0x80 + n % 64]
    else if n < 0x1_0000 then [0xE0 + n / 4096, 0x80 + n / 64 % 64, 0x80 + n % 64]
    else [0xF0 + n / 262144, 0x80 + n / 4096 % 64, 0x80 + n / 64 % 64, 0x80 + n % 64]
  }

  function Utf8(s: string): (r: seq<byte>)
    ensures |s| <= |r|
    ensures '\0' !in s ==> 0 !in r
  {
    if s == [] then [] else EncodeChar(s[0]) + Utf8(s[1..])
  }

  /** How many bytes the scalar starting with `lead` takes, 0 for a byte that starts none. */
  function SequenceLength(lead: byte): (k: nat)
    ensures k <= 4
  {
    if lead < 0x80 then 1
    else if lead < 0xC0 then 0
    else if lead < 0xE0 then 2
    else if lead < 0xF0 then 3
    else if lead < 0xF8 then 4
    else 0
  }

  /** The number the first `k` bytes spell, whether or not it is a scalar value. */
  function SequenceValue(b: seq<byte>, k: nat): (n: int)
    requires 1 <= k <= 4 && k <= |b|
  {
    var at := (i: int) requires 0 <= i < k => b[i] as int;
    if k == 1 then at(0)
    else if k == 2 then (at(0) - 0xC0) * 64 + (at(1) - 0x80)
    else if k == 3 then (at(0) - 0xE0) * 4096 + (at(1) - 0x80) * 64 + (at(2) - 0x80)
    else (at(0) - 0xF0) * 262144 + (at(1) - 0x80) * 4096 + (at(2) - 0x80) * 64 + (at(3) - 0x80)
  }

  /** Strict decoding: only the shortest form of a scalar value is accepted. */
  function FromUtf8(b: seq<byte>): (r: Option<string>)
    decreases |b|
  {
    if b == [] then Some([])
    else
      var k := SequenceLength(b[0]);
      if k == 0 || |b| < k then None
      else
        var n := SequenceValue(b, k);
        if !(0 <= n < 0xD800 || 0xE000 <= n < 0x11_0000) then None
        else if EncodeChar(n as char) != b[..k] then None
        else
          match FromUtf8(b[k..])
          case None => None
          case Some(rest) => Some([n as char] + rest)
  }

  lemma EncodedCharReads(c: char, rest: seq<byte>)
    ensures SequenceLength(EncodeChar(c)[0]) == |EncodeChar(c)|
    ensures SequenceValue(EncodeChar(c) + rest, |EncodeChar(c)|) == c as int
  {
    var n := c as int;
    if n < 0x80 {
    } else if n < 0x800 {
      assert n / 64 * 64 + n % 64 == n;
    } else if n < 0x1_0000 {
      assert n / 4096 == n / 64 / 64;
      assert n / 4096 * 4096 + n / 64 % 64 * 64 + n % 64 == n;
    } else {
      assert n / 4096 == n / 64 / 64 && n / 262144 == n / 4096 / 64;
      assert n / 262144 * 262144 + n / 4096 % 64 * 4096 + n / 64 % 64 * 64 + n % 64 == n;
    }
  }

  lemma {:induction false} Utf8RoundTrip(s: string)
    ensures FromUtf8(Utf8(s)) == Some(s)
  {
    if s != [] {
      Utf8RoundTrip(s[1..]);
      var e, rest := EncodeChar(s[0]), Utf8(s[1..]);
      EncodedCharReads(s[0], rest);
      assert (e + rest)[..|e|] == e && (e + rest)[|e|..] == rest;
      assert [s[0]] + s[1..] == s;
    }
  }

  lemma Utf8Injective(s: string, t: string)
    requires Utf8(s) == Utf8(t)
    ensures s == t
  {
    Utf8RoundTrip(s);
    Utf8RoundTrip(t);
  }

  lemma Utf8Unfolds(s: string)
    ensures Utf8(s) == if s == [] then [] else EncodeChar(s[0]) + Utf8(s[1..])
  {
  }

  lemma Reassociate<T>(a: seq<T>, b: seq<T>, c: seq<T>)
    ensures a + (b + c) == a + b + c
  {
  }

  lemma {:induction false} Utf8Concat(s: string, t: string)
    ensures Utf8(s + t) == Utf8(s) + Utf8(t)
  {
    hide EncodeChar, Utf8;
    Utf8Unfolds(s);
    if s == [] {
      assert s + t == t;
    } else {
      Utf8Concat(s[1..], t);
      Utf8Unfolds(s + t);
      assert (s + t)[1..] == s[1..] + t;
      Reassociate(EncodeChar(s[0]), Utf8(s[1..]), Utf8(t));
    }
  }

  //-- Characters --------------------------------------------------------------

  /** Unicode White_Space, what `str::trim` strips. */
  predicate IsWhitespace(c: char) {
    var n := c as int;
    9 <= n <= 13 || n == 0x20 || n == 0x85 || n == 0xA0 || n == 0x1680 || 0x2000 <= n <= 0x200A
    || n == 0x2028 || n == 0x2029 || n == 0x202F || n == 0x205F || n == 0x3000
  }

  predicate IsDigit(c: char) { '0' <= c <= '9' }

  function LowerChar(c: char): char {
    if 'A' <= c <= 'Z' then (c as int + 32) as char else c
  }

  function UpperChar(c: char): char {
    if 'a' <= c <= 'z' then (c as int - 32) as char else c
  }

  function Lower(s: string): (r: string)
    ensures |r| == |s|
  {
    seq(|s|, i requires 0 <= i < |s| => LowerChar(s[i]))
  }

  function Upper(s: string): (r: string)
    ensures |r| == |s|
  {
    seq(|s|, i requires 0 <= i < |s| => UpperChar(s[i]))
  }

  predicate IsLower(s: string) { Lower(s) == s }

  //-- Trimming ----------------------------------------------------------------

  function TrimStart(s: string): (r: string)
    ensures r != [] ==> !IsWhitespace(r[0])
    ensures |r| <= |s| && r == s[|s| - |r|..]
  {
    if s != [] && IsWhitespace(s[0]) then TrimStart(s[1..]) else s
  }

  function TrimEnd(s: string): (r: string)
    ensures r != [] ==> !IsWhitespace(r[|r| - 1])
    ensures r <= s
    ensures forall i :: |r| <= i < |s| ==> IsWhitespace(s[i])
  {
    if s != [] && IsWhitespace(s[|s| - 1]) then TrimEnd(s[..|s| - 1]) else s
  }

  function Trim(s: string): (r: string)
    ensures r != [] ==> !IsWhitespace(r[0]) && !IsWhitespace(r[|r| - 1])
  {
    TrimEnd(TrimStart(s))
  }

  lemma {:induction false} TrimEndKeeps(s: string, w: string)
    requires s != [] ==> !IsWhitespace(s[|s| - 1])
    requires forall i :: 0 <= i < |w| ==> IsWhitespace(w[i])
    ensures TrimEnd(s + w) == s
  {
    if w == [] {
      assert s + w == s;
    } else {
      assert (s + w)[..|s + w| - 1] == s + w[..|w| - 1];
      TrimEndKeeps(s, w[..|w| - 1]);
    }
  }

  lemma {:induction false} TrimStartKeeps(w: string, s: string)
    requires s != [] ==> !IsWhitespace(s[0])
    requires forall i :: 0 <= i < |w| ==> IsWhitespace(w[i])
    ensures TrimStart(w + s) == s
  {
    if w == [] {
      assert w + s == s;
    } else {
      assert (w + s)[1..] == w[1..] + s;
      TrimStartKeeps(w[1..], s);
    }
  }

  /** Whitespace around a text that has none at its ends is all that trimming removes. */
  lemma TrimPadded(w: string, s: string, v: string)
    requires s != [] ==> !IsWhitespace(s[0]) && !IsWhitespace(s[|s| - 1])
    requires forall i :: 0 <= i < |w| ==> IsWhitespace(w[i])
    requires forall i :: 0 <= i < |v| ==> IsWhitespace(v[i])
    ensures Trim(w + s + v) == s
  {
    if s == [] {
      assert w + s + v == (w + v) + [];
      TrimStartKeeps(w + v, []);
    } else {
      assert w + s + v == w + (s + v);
      TrimStartKeeps(w, s + v);
      TrimEndKeeps(s, v);
    }
  }

  lemma TrimIdentity(s: string)
    requires s != [] ==> !IsWhitespace(s[0]) && !IsWhitespace(s[|s| - 1])
    ensures Trim(s) == s
  {
  }

  //-- Splitting ---------------------------------------------------------------

  /** `str::split` on one character: always at least one piece. */
  function Split<T(==)>(s: seq<T>, sep: T): (r: seq<seq<T>>)
    ensures |r| >= 1
    ensures forall i :: 0 <= i < |r| ==> sep !in r[i]
  {
    if s == [] then [[]]
    else
      var rest := Split(s[1..], sep);
      if s[0] == sep then [[]] + rest
      else [[s[0]] + rest[0]] + rest[1..]
  }

  lemma {:induction false} SplitSingle<T>(s: seq<T>, sep: T)
    requires sep !in s
    ensures Split(s, sep) == [s]
  {
    if s != [] {
      SplitSingle(s[1..], sep);
      assert [s[0]] + s[1..] == s;
    }
  }

  lemma SplitUnfolds<T>(s: seq<T>, sep: T)
    ensures Split(s, sep) ==
            if s == [] then [[]]
            else if s[0] == sep then [[]] + Split(s[1..], sep)
            else [[s[0]] + Split(s[1..], sep)[0]] + Split(s[1..], sep)[1..]
  {
  }

  lemma {:induction false} SplitAppend<T>(a: seq<T>, b: seq<T>, sep: T)
    ensures Split(a + [sep] + b, sep) == Split(a, sep) + Split(b, sep)
  {
    hide Split;
    var whole := a + [sep] + b;
    SplitUnfolds(whole, sep);
    SplitUnfolds(a, sep);
    if a == [] {
      assert whole[1..] == b;
    } else {
      assert whole[1..] == a[1..] + [sep] + b;
      SplitAppend(a[1..], b, sep);
      var rest := Split(a[1..], sep);
      assert (rest + Split(b, sep))[1..] == rest[1..] + Split(b, sep);
    }
  }

  lemma SplitFirst<T>(a: seq<T>, b: seq<T>, sep: T)
    requires sep !in a
    ensures Split(a + [sep] + b, sep) == [a] + Split(b, sep)
  {
    SplitAppend(a, b, sep);
    SplitSingle(a, sep);
  }

  /** The length of the longest prefix of `s` without a character of `stop`. */
  function Until(s: string, stop: string): (n: nat)
    ensures n <= |s|
    ensures forall i :: 0 <= i < n ==> s[i] !in stop
    ensures n < |s| ==> s[n] in stop
  {
    if s == [] || s[0] in stop then 0
    else
      var m := Until(s[1..], stop);
      assert forall i :: 1 <= i < m + 1 ==> s[i] == s[1..][i - 1];
      m + 1
  }

  lemma UntilIs(s: string, stop: string, n: nat)
    requires n <= |s|
    requires forall i :: 0 <= i < n ==> s[i] !in stop
    requires n < |s| ==> s[n] in stop
    ensures Until(s, stop) == n
  {
  }

  //-- Decimal numbers ---------------------------------------------------------

  function DigitChar(d: nat): (c: char)
    requires d < 10
    ensures IsDigit(c)
  {
    ('0' as int + d) as char
  }

  function Decimal(n: nat): (r: string)
    ensures |r| >= 1
    ensures forall i :: 0 <= i < |r| ==> IsDigit(r[i])
  {
    if n < 10 then [DigitChar(n)] else Decimal(n / 10) + [DigitChar(n % 10)]
  }

  function DecimalValue(s: string): (n: nat)
    requires forall i :: 0 <= i < |s| ==> IsDigit(s[i])
  {
    if s == [] then 0
    else
      var last := s[|s| - 1];
      assert IsDigit(last);
      DecimalValue(s[..|s| - 1]) * 10 + (last as int - '0' as int)
  }

  lemma {:induction false} DecimalRoundTrip(n: nat)
    ensures DecimalValue(Decimal(n)) == n
  {
    if n >= 10 {
      DecimalRoundTrip(n / 10);
      var r := Decimal(n);
      assert r[..|r| - 1] == Decimal(n / 10);
    } else {
      assert Decimal(n)[..0] == [];
    }
  }

  lemma DecimalInjective(m: nat, n: nat)
    requires Decimal(m) == Decimal(n)
    ensures m == n
  {
    DecimalRoundTrip(m);
    DecimalRoundTrip(n);
  }

  lemma {:induction false} DecimalLengthMonotone(m: nat, n: nat)
    requires m <= n
    ensures |Decimal(m)| <= |Decimal(n)|
  {
    if m >= 10 {
      DecimalLengthMonotone(m / 10, n / 10);
    }
  }

  //-- Sequences ---------------------------------------------------------------

  function Flatten<T>(parts: seq<seq<T>>): (r: seq<T>) {
    if parts == [] then [] else parts[0] + Flatten(parts[1..])
  }

  lemma {:induction false} FlattenAppend<T>(a: seq<seq<T>>, b: seq<seq<T>>)
    ensures Flatten(a + b) == Flatten(a) + Flatten(b)
  {
    if a == [] {
      assert a + b == b;
    } else {
      assert (a + b)[1..] == a[1..] + b;
      FlattenAppend(a[1..], b);
    }
  }

  lemma FlattenPush<T>(a: seq<seq<T>>, x: seq<T>)
    ensures Flatten(a + [x]) == Flatten(a) + x
  {
    FlattenAppend(a, [x]);
    assert [x][1..] == [];
  }
}
