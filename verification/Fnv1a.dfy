/**
 The 64-bit FNV-1a hash of a share's config (waserver/src/config.rs). The 64-bit word
 is an integer below 2^64 and the multiplication wraps explicitly. 
 */
module Fnv1a {
  import opened Prelude
  import opened BitOps

  const MODULUS: int := 0x1_0000_0000_0000_0000
  const PRIME: int := 0x100000001b3
  /** PRIME * PRIME_INVERSE == 1 + INVERSE_CARRY * MODULUS. */
  const PRIME_INVERSE: int := 0xce965057aff6957b
  const INVERSE_CARRY: int := 887285111055

  type word = x: int | 0 <= x < 0x1_0000_0000_0000_0000

  const OFFSET_BASIS: word := 0xcbf29ce484222325

  lemma WordXorBound(h: word, b: word)
    ensures Xor(h, b) < MODULUS
  {
    assert Pow2(2) == 4;
    hide Pow2, Xor;
    Pow2Add(2, 2);
    assert Pow2(4) == 16;
    Pow2Add(4, 4);
    assert Pow2(8) == 256;
    Pow2Add(8, 8);
    assert Pow2(16) == 65536;
    Pow2Add(16, 16);
    assert Pow2(32) == 0x1_0000_0000;
    Pow2Add(32, 32);
    assert Pow2(64) == MODULUS;
    XorBound(h, b, 64);
  }

  function XorWord(h: word, b: word): (r: word) {
    WordXorBound(h, b);
    Xor(h, b)
  }

  function Step(h: word, b: byte): (r: word) {
    XorWord(h, b) * PRIME % MODULUS
  }

  /** The state before `b` was mixed in. */
  function Unstep(h: word, b: byte): word {
    XorWord(h * PRIME_INVERSE % MODULUS, b)
  }

  function Fold(h: word, s: seq<byte>): word
    decreases |s|
  {
    if s == [] then h else Fold(Step(h, s[0]), s[1..])
  }

  function Hash(s: seq<byte>): word {
    Fold(OFFSET_BASIS, s)
  }

  lemma RemainderUnique(a: int, x: word, k: int)
    requires a == x + MODULUS * k
    ensures a % MODULUS == x
  {
  }

  lemma MultiplyUndone(x: word, p: int, q: int)
    requires p * q == 1 + INVERSE_CARRY * MODULUS
    ensures x * p % MODULUS * q % MODULUS == x
  {
    var quotient, r := x * p / MODULUS, x * p % MODULUS;
    calc {
      r * q;
      (x * p - MODULUS * quotient) * q;
      x * (p * q) - MODULUS * (quotient * q);
      x + MODULUS * (x * INVERSE_CARRY - quotient * q);
    }
    RemainderUnique(r * q, x, x * INVERSE_CARRY - quotient * q);
  }

  /** For each byte the step is a bijection of the 64-bit state, with `Unstep` its inverse. */
  lemma StepIsBijection(h: word, b: byte)
    ensures Unstep(Step(h, b), b) == h
    ensures Step(Unstep(h, b), b) == h
  {
    assert PRIME * PRIME_INVERSE == 1 + INVERSE_CARRY * MODULUS;
    MultiplyUndone(XorWord(h, b), PRIME, PRIME_INVERSE);
    XorInvolution(h, b);
    var back := h * PRIME_INVERSE % MODULUS;
    XorInvolution(back, b);
    MultiplyUndone(h, PRIME_INVERSE, PRIME);
  }

  /** For each state, different bytes lead to different states. */
  lemma StepInjectiveInByte(h: word, a: byte, b: byte)
    requires Step(h, a) == Step(h, b)
    ensures a == b
  {
    assert PRIME * PRIME_INVERSE == 1 + INVERSE_CARRY * MODULUS;
    MultiplyUndone(XorWord(h, a), PRIME, PRIME_INVERSE);
    MultiplyUndone(XorWord(h, b), PRIME, PRIME_INVERSE);
    XorCommutes(h, a);
    XorCommutes(h, b);
    XorInvolution(a, h);
    XorInvolution(b, h);
  }

  lemma {:induction false} FoldConcat(h: word, s: seq<byte>, t: seq<byte>)
    ensures Fold(h, s + t) == Fold(Fold(h, s), t)
    decreases |s|
  {
    if s == [] {
      assert s + t == t;
    } else {
      assert (s + t)[1..] == s[1..] + t;
      FoldConcat(Step(h, s[0]), s[1..], t);
    }
  }

  /** The bytes that follow neither create nor remove a collision. */
  lemma {:induction false} FoldInjective(g: word, h: word, s: seq<byte>)
    ensures Fold(g, s) == Fold(h, s) <==> g == h
    decreases |s|
  {
    if s != [] {
      FoldInjective(Step(g, s[0]), Step(h, s[0]), s[1..]);
      StepIsBijection(g, s[0]);
      StepIsBijection(h, s[0]);
    }
  }

  lemma CommonSuffix(s: seq<byte>, t: seq<byte>, suffix: seq<byte>)
    ensures Hash(s + suffix) == Hash(t + suffix) <==> Hash(s) == Hash(t)
  {
    FoldConcat(OFFSET_BASIS, s, suffix);
    FoldConcat(OFFSET_BASIS, t, suffix);
    FoldInjective(Hash(s), Hash(t), suffix);
  }

  /** Streams of one length that differ in exactly one byte never collide. */
  lemma OneByteChangesTheHash(s: seq<byte>, t: seq<byte>, k: nat)
    requires |s| == |t| && k < |s| && s[k] != t[k]
    requires forall i :: 0 <= i < |s| && i != k ==> s[i] == t[i]
    ensures Hash(s) != Hash(t)
  {
    var head, tail := s[..k], s[k + 1..];
    assert s == head + ([s[k]] + tail) && t == head + ([t[k]] + tail);
    FoldConcat(OFFSET_BASIS, head, [s[k]] + tail);
    FoldConcat(OFFSET_BASIS, head, [t[k]] + tail);
    var h := Hash(head);
    assert ([s[k]] + tail)[1..] == tail && ([t[k]] + tail)[1..] == tail;
    if Hash(s) == Hash(t) {
      FoldInjective(Step(h, s[k]), Step(h, t[k]), tail);
      StepInjectiveInByte(h, s[k], t[k]);
    }
  }

  class Hasher {
    var state: word

    constructor ()
      ensures state == OFFSET_BASIS
    {
      state := OFFSET_BASIS;
    }

    /** Mixes in the field's bytes and the NUL that ends it. */
    method Write(bytes: seq<byte>)
      modifies this
      ensures state == Fold(old(state), bytes + [0])
    {
      var fed := bytes + [0];
      for i := 0 to |fed|
        invariant state == Fold(old(state), fed[..i])
      {
        FoldConcat(old(state), fed[..i], [fed[i]]);
        assert fed[..i] + [fed[i]] == fed[..i + 1];
        state := XorWord(state, fed[i]);
        state := state * PRIME % MODULUS;
      }
      assert fed[..|fed|] == fed;
    }
  }

  /** The published value for the one byte "a". */
  lemma Vector()
    ensures Hash([]) == 0xcbf29ce484222325 && Hash([0x61]) == 0xaf63dc4c8601ec8c
  {
    hide Xor, Step;
    OneStep();
    var s: seq<byte> := [0x61];
    assert s[1..] == [];
    assert Fold(OFFSET_BASIS, s) == Fold(Step(OFFSET_BASIS, 0x61), []);
  }

  lemma OneStep()
    ensures Step(OFFSET_BASIS, 0x61) == 0xaf63dc4c8601ec8c
  {
    hide Xor;
    XorOfLowByte();
    assert 0xcbf29ce484222344 * 0x100000001b3 % 0x1_0000_0000_0000_0000 == 0xaf63dc4c8601ec8c;
  }

  lemma XorOfLowByte()
    ensures Xor(0xcbf29ce484222325, 0x61) == 0xcbf29ce484222344
  {
    var high := 0xcbf29ce4842223;
    assert 0xcbf29ce484222325 == 256 * high + 0x25;
    XorIsIdentity(high);
    XorOfBits(high, 0, 0, 0);
    XorOfBits(2 * high, 0, 0, 1);
    XorOfBits(4 * high, 1, 1, 1);
    XorOfBits(8 * high + 1, 3, 0, 0);
    XorOfBits(16 * high + 2, 6, 0, 0);
    XorOfBits(32 * high + 4, 12, 1, 0);
    XorOfBits(64 * high + 9, 24, 0, 0);
    XorOfBits(128 * high + 18, 48, 1, 1);
  }

  lemma {:induction false} XorIsIdentity(x: nat)
    ensures Xor(x, 0) == x
  {
    if x > 0 {
      XorIsIdentity(x / 2);
    }
  }
}
