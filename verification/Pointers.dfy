/** CreatePointerKey: the first 8 bytes of a recipient's digest, shifted right so that only a prefix
    of their bits is left; pointers for recipients that share the prefix meet at one key. */
module Pointers {
  newtype byte = b: int | 0 <= b < 256

  const WORD_BITS := 64
  const WORD := 0x1_0000_0000_0000_0000
  const HALF_WORD := 0x8000_0000_0000_0000

  // ---------- bytes as bits and as a number ----------

  /** The k low bits of n, most significant first. */
  function LowBits(n: nat, k: nat): (bits: seq<bool>)
    ensures |bits| == k
  {
    if k == 0 then [] else LowBits(n / 2, k - 1) + [n % 2 == 1]
  }

  function Bits(bytes: seq<byte>): (bits: seq<bool>)
    ensures |bits| == 8 * |bytes|
  {
    if bytes == [] then [] else Bits(bytes[..|bytes| - 1]) + LowBits(bytes[|bytes| - 1] as nat, 8)
  }

  /** The number a bit sequence denotes, most significant bit first. */
  function Numeral(bits: seq<bool>): nat {
    if bits == [] then 0
    else 2 * Numeral(bits[..|bits| - 1]) + if bits[|bits| - 1] then 1 else 0
  }

  function Pow2(n: nat): (p: nat)
    ensures p >= 1
  {
    if n == 0 then 1 else 2 * Pow2(n - 1)
  }

  /** binary.BigEndian.Uint64, on any number of bytes. */
  function Decode(bytes: seq<byte>): nat {
    if bytes == [] then 0 else 256 * Decode(bytes[..|bytes| - 1]) + bytes[|bytes| - 1] as nat
  }

  /** The big-endian bytes of x; x is below 256^n where it matters. */
  function Encode(x: nat, n: nat): (bytes: seq<byte>)
    ensures |bytes| == n
  {
    if n == 0 then [] else Encode(x / 256, n - 1) + [(x % 256) as byte]
  }

  lemma {:induction false} QuotientNotNegative(x: nat, d: nat)
    requires d >= 1
    ensures x / d >= 0
  {
  }

  /** x >> s on a 64-bit word: a shift by the word's width or more leaves nothing. */
  function ShiftRight(x: nat, s: nat): nat {
    if s >= WORD_BITS then 0
    else
      QuotientNotNegative(x, Pow2(s));
      x / Pow2(s)
  }

  /** uint(64 - prefixLen): a negative difference wraps to a huge shift count. */
  function ShiftCount(prefixLen: int): nat {
    (WORD_BITS - prefixLen) % WORD
  }

  function PointerBytes(prefix: seq<byte>, prefixLen: int): seq<byte> {
    Encode(ShiftRight(Decode(prefix), ShiftCount(prefixLen)), 8)
  }

  /** The 8 bytes whose SHA-256 becomes the key, written into a buffer in place. */
  method TruncatePrefix(digest: seq<byte>, prefixLen: int) returns (truncated: array<byte>)
    requires |digest| >= 8
    ensures fresh(truncated) && truncated[..] == PointerBytes(digest[..8], prefixLen)
  {
    var x: nat := 0;
    for i := 0 to 8
      invariant x == Decode(digest[..i])
    {
      assert digest[..i + 1][..i] == digest[..i];
      x := 256 * x + digest[i] as nat;
    }
    x := ShiftRight(x, ShiftCount(prefixLen));
    ghost var shifted := x;
    truncated := new byte[8](_ => 0);
    for i := 8 downto 0
      invariant Encode(shifted, 8) == Encode(x, i) + truncated[i..]
    {
      ghost var tail := truncated[i + 1..];
      truncated[i] := (x % 256) as byte;
      assert truncated[i..] == [(x % 256) as byte] + tail;
      x := x / 256;
    }
    assert truncated[0..] == truncated[..];
  }

  // ---------- how the two views agree ----------

  lemma {:induction false} MulDouble(x: int, p: int)
    ensures x * (2 * p) == 2 * (x * p)
  {
  }

  lemma {:induction false} NumeralConcat(a: seq<bool>, b: seq<bool>)
    ensures Numeral(a + b) == Numeral(a) * Pow2(|b|) + Numeral(b)
  {
    if b == [] {
      assert a + b == a;
    } else {
      NumeralConcat(a, b[..|b| - 1]);
      assert (a + b)[..|a + b| - 1] == a + b[..|b| - 1];
      MulDouble(Numeral(a), Pow2(|b| - 1));
    }
  }

  lemma {:induction false} NumeralBound(a: seq<bool>)
    ensures Numeral(a) < Pow2(|a|)
  {
    if a != [] { NumeralBound(a[..|a| - 1]); }
  }

  lemma {:induction false} NumeralInjective(a: seq<bool>, b: seq<bool>)
    requires |a| == |b| && Numeral(a) == Numeral(b)
    ensures a == b
  {
    if a != [] {
      NumeralInjective(a[..|a| - 1], b[..|b| - 1]);
      assert a == a[..|a| - 1] + [a[|a| - 1]] && b == b[..|b| - 1] + [b[|b| - 1]];
    }
  }

  /** Shifting right by s drops the last s bits. */
  lemma {:induction false} NumeralShift(a: seq<bool>, s: nat)
    requires s <= |a|
    ensures Numeral(a) / Pow2(s) == Numeral(a[..|a| - s])
  {
    var hi, lo := a[..|a| - s], a[|a| - s..];
    assert a == hi + lo;
    NumeralConcat(hi, lo);
    NumeralBound(lo);
    DivOfSum(Numeral(hi), Pow2(s), Numeral(lo));
  }

  lemma {:induction false} DivOfSum(q: nat, d: nat, r: nat)
    requires r < d
    ensures (q * d + r) / d == q
  {
    var m := (q * d + r) / d;
    assert m * d <= q * d + r < (m + 1) * d;
    if m < q { MulMono(m + 1, q, d); }
    if m > q { MulMono(q + 1, m, d); }
  }

  lemma {:induction false} MulMono(a: int, b: int, d: nat)
    requires a <= b
    ensures a * d <= b * d
  {
  }

  lemma {:induction false} LowBitsNumeral(n: nat, k: nat)
    requires n < Pow2(k)
    ensures Numeral(LowBits(n, k)) == n
  {
    if k > 0 {
      LowBitsNumeral(n / 2, k - 1);
      assert LowBits(n, k)[..k - 1] == LowBits(n / 2, k - 1);
    }
  }

  lemma {:induction false} Pow2Eight()
    ensures Pow2(8) == 256
  {
    assert Pow2(4) == 16 && Pow2(8) == 16 * Pow2(4);
  }

  lemma {:induction false} NumeralOfByte(bits: seq<bool>, last: nat)
    requires last < 256
    ensures Numeral(bits + LowBits(last, 8)) == 256 * Numeral(bits) + last
  {
    Pow2Eight();
    LowBitsNumeral(last, 8);
    NumeralConcat(bits, LowBits(last, 8));
  }

  /** Big-endian decoding reads the bytes' bits as one numeral. */
  lemma {:induction false} DecodeIsNumeral(bytes: seq<byte>)
    ensures Decode(bytes) == Numeral(Bits(bytes))
  {
    if bytes != [] {
      var front, last := bytes[..|bytes| - 1], bytes[|bytes| - 1];
      DecodeIsNumeral(front);
      NumeralOfByte(Bits(front), last as nat);
    }
  }

  lemma {:induction false} DecodeEncode(x: nat, n: nat)
    requires x < Pow2(8 * n)
    ensures Decode(Encode(x, n)) == x
  {
    if n > 0 {
      assert Pow2(8 * n) == 256 * Pow2(8 * n - 8) by {
        var m := 8 * n - 8;
        assert Pow2(m + 2) == 4 * Pow2(m) && Pow2(m + 4) == 4 * Pow2(m + 2);
        assert Pow2(m + 6) == 4 * Pow2(m + 4) && Pow2(m + 8) == 4 * Pow2(m + 6);
      }
      DecodeEncode(x / 256, n - 1);
      assert Encode(x, n)[..n - 1] == Encode(x / 256, n - 1);
    }
  }

  /** How many leading bits the pre-hash bytes depend on. A length outside 0..64 leaves none. */
  function EffectiveBits(prefixLen: int): nat {
    if 0 <= prefixLen <= WORD_BITS then prefixLen else 0
  }

  lemma {:induction false} ShiftCountOf(prefixLen: int)
    requires -HALF_WORD <= prefixLen < HALF_WORD
    ensures EffectiveBits(prefixLen) > 0 ==> ShiftCount(prefixLen) == WORD_BITS - EffectiveBits(prefixLen) < WORD_BITS
    ensures EffectiveBits(prefixLen) == 0 ==> ShiftCount(prefixLen) >= WORD_BITS
  {
  }

  lemma {:induction false} ShiftedIsPrefix(prefix: seq<byte>, prefixLen: int)
    requires |prefix| == 8 && -HALF_WORD <= prefixLen < HALF_WORD
    ensures ShiftRight(Decode(prefix), ShiftCount(prefixLen)) == Numeral(Bits(prefix)[..EffectiveBits(prefixLen)])
  {
    var k := EffectiveBits(prefixLen);
    ShiftCountOf(prefixLen);
    if k > 0 {
      DecodeIsNumeral(prefix);
      NumeralShift(Bits(prefix), WORD_BITS - k);
    }
  }

  lemma {:induction false} PointerBytesDecode(prefix: seq<byte>, prefixLen: int)
    requires |prefix| == 8 && -HALF_WORD <= prefixLen < HALF_WORD
    ensures Decode(PointerBytes(prefix, prefixLen)) == Numeral(Bits(prefix)[..EffectiveBits(prefixLen)])
  {
    var n := Numeral(Bits(prefix)[..EffectiveBits(prefixLen)]);
    NumeralBound(Bits(prefix)[..EffectiveBits(prefixLen)]);
    Pow2Mono(EffectiveBits(prefixLen), 8 * 8);
    DecodeEncode(n, 8);
    ShiftedIsPrefix(prefix, prefixLen);
  }

  lemma {:induction false} Pow2Mono(m: nat, n: nat)
    requires m <= n
    ensures Pow2(m) <= Pow2(n)
  {
    if m < n { Pow2Mono(m, n - 1); }
  }

  /** Two recipients get the same pre-hash bytes exactly when the first prefixLen bits of their
      digests' first 8 bytes agree; with a length outside 0..64 everybody gets the same bytes. */
  lemma {:induction false} SamePointerIffSamePrefix(p: seq<byte>, q: seq<byte>, prefixLen: int)
    requires |p| == 8 && |q| == 8 && -HALF_WORD <= prefixLen < HALF_WORD
    ensures PointerBytes(p, prefixLen) == PointerBytes(q, prefixLen) <==>
            Bits(p)[..EffectiveBits(prefixLen)] == Bits(q)[..EffectiveBits(prefixLen)]
  {
    PointerBytesDecode(p, prefixLen);
    PointerBytesDecode(q, prefixLen);
    ShiftedIsPrefix(p, prefixLen);
    ShiftedIsPrefix(q, prefixLen);
    var k := EffectiveBits(prefixLen);
    if PointerBytes(p, prefixLen) == PointerBytes(q, prefixLen) {
      NumeralInjective(Bits(p)[..k], Bits(q)[..k]);
    }
  }
}
