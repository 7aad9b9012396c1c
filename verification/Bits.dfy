/** Octets as bits, most significant first, and the bitwise operators on u8. */
module Bits {
  import opened Octets

  type BitSeq = seq<bool>

  function Ones(n: nat): (s: BitSeq)
    ensures |s| == n && forall i :: 0 <= i < n ==> s[i]
  {
    seq(n, i => true)
  }

  function Zeros(n: nat): (s: BitSeq)
    ensures |s| == n && forall i :: 0 <= i < n ==> !s[i]
  {
    seq(n, i => false)
  }

  /** The number a bit string denotes. */
  function Value(s: BitSeq): (v: nat)
    ensures v < Pow2(|s|)
  {
    if s == [] then 0
    else 2 * Value(s[..|s| - 1]) + (if s[|s| - 1] then 1 else 0)
  }

  /** The low `n` bits of `v`. */
  function LowBits(v: nat, n: nat): (s: BitSeq)
    ensures |s| == n
  {
    if n == 0 then [] else LowBits(v / 2, n - 1) + [v % 2 == 1]
  }

  lemma {:induction false} LowBitsValue(s: BitSeq)
    ensures LowBits(Value(s), |s|) == s
  {
    if s != [] {
      LowBitsValue(s[..|s| - 1]);
    }
  }

  lemma {:induction false} ValueLowBits(v: nat, n: nat)
    requires v < Pow2(n)
    ensures Value(LowBits(v, n)) == v
  {
    if n > 0 {
      ValueLowBits(v / 2, n - 1);
      assert LowBits(v, n)[..n - 1] == LowBits(v / 2, n - 1);
    }
  }

  lemma {:induction false} ValueConcat(a: BitSeq, b: BitSeq)
    ensures Value(a + b) == Shl(Value(a), |b|) + Value(b)
  {
    if b == [] {
      assert a + b == a;
    } else {
      var c := b[..|b| - 1];
      assert (a + b)[..|a + b| - 1] == a + c;
      ValueConcat(a, c);
    }
  }

  lemma {:induction false} LowBitsDrop(v: nat, m: nat, n: nat)
    ensures LowBits(v, m + n)[m..] == LowBits(v, n)
  {
    if n > 0 {
      LowBitsDrop(v / 2, m, n - 1);
      assert LowBits(v, m + n)[m..] == LowBits(v / 2, m + n - 1)[m..] + [v % 2 == 1];
    }
  }

  // ------------------------------------------------------------------- octets

  function ToBits(b: byte): (s: BitSeq)
    ensures |s| == 8
  {
    LowBits(b, 8)
  }

  function FromBits(s: BitSeq): (b: byte)
    requires |s| == 8
    ensures ToBits(b) == s
  {
    LowBitsValue(s);
    ShlByte(1);
    Value(s)
  }

  /** `a | b` on u8. */
  function Or(a: byte, b: byte): (r: byte)
    ensures forall i :: 0 <= i < 8 ==> ToBits(r)[i] == (ToBits(a)[i] || ToBits(b)[i])
  {
    FromBits(seq(8, i requires 0 <= i < 8 => ToBits(a)[i] || ToBits(b)[i]))
  }

  /** `a & b` on u8. */
  function And(a: byte, b: byte): (r: byte)
    ensures forall i :: 0 <= i < 8 ==> ToBits(r)[i] == (ToBits(a)[i] && ToBits(b)[i])
  {
    FromBits(seq(8, i requires 0 <= i < 8 => ToBits(a)[i] && ToBits(b)[i]))
  }

  /** `a << n` on u8: bits shifted out at the top are lost. */
  function ShlOctet(a: byte, n: nat): (r: byte)
    requires n <= 8
  {
    FromBits(ToBits(a)[n..] + Zeros(n))
  }

  /** `a >> n` on u8. */
  function ShrOctet(a: byte, n: nat): (r: byte)
    requires n <= 8
  {
    FromBits(Zeros(n) + ToBits(a)[..8 - n])
  }

  lemma {:induction false} ValueLeadingZeros(n: nat, s: BitSeq)
    ensures Value(Zeros(n) + s) == Value(s)
  {
    ValueConcat(Zeros(n), s);
    ValueZeros(n);
    ShlZero(|s|);
  }

  lemma {:induction false} ValueZeros(n: nat)
    ensures Value(Zeros(n)) == 0
  {
    if n > 0 {
      assert Zeros(n)[..n - 1] == Zeros(n - 1);
      ValueZeros(n - 1);
    }
  }

  /** All-ones strings are the only ones that denote the largest value. */
  lemma {:induction false} ValueOnes(s: BitSeq)
    ensures Value(s) == Pow2(|s|) - 1 <==> s == Ones(|s|)
  {
    if s != [] {
      var t := s[..|s| - 1];
      ValueOnes(t);
      assert s == t + [s[|s| - 1]];
      if s[|s| - 1] && t == Ones(|t|) {
        assert s == Ones(|s|);
      }
    }
  }

  lemma SliceOfSlice<T>(s: seq<T>, i: nat, j: nat, a: nat, b: nat)
    requires i <= j <= |s| && a <= b <= j - i
    ensures s[i..j][a..b] == s[i + a..i + b]
  {
    var (x, y) := (s[i..j][a..b], s[i + a..i + b]);
    forall k | 0 <= k < b - a ensures x[k] == y[k] {
      assert s[i..j][a + k] == s[i + a + k];
    }
    assert x == y;
  }

  /** Part of a known part. */
  lemma SliceWithin<T>(s: seq<T>, a: nat, part: seq<T>, i: nat, n: nat)
    requires a + |part| <= |s| && s[a..a + |part|] == part && i + n <= |part|
    ensures s[a + i..a + i + n] == part[i..i + n]
  {
    SliceOfSlice(s, a, a + |part|, i, i + n);
  }

  /** The bits of a buffer. */
  function Stream(s: Bytes): (bits: BitSeq)
    ensures |bits| == 8 * |s|
  {
    if s == [] then [] else ToBits(s[0]) + Stream(s[1..])
  }

  lemma {:induction false} StreamConcat(a: Bytes, b: Bytes)
    ensures Stream(a + b) == Stream(a) + Stream(b)
  {
    if a == [] {
      assert a + b == b;
    } else {
      assert (a + b)[1..] == a[1..] + b;
      StreamConcat(a[1..], b);
    }
  }

  lemma MiddleSlice<T>(a: seq<T>, x: seq<T>, c: seq<T>)
    ensures (a + x + c)[|a|..|a| + |x|] == x && a + (x + c) == a + x + c
  {
  }

  lemma StreamHead(s: Bytes)
    requires s != []
    ensures Stream(s) == ToBits(s[0]) + Stream(s[1..])
  {
    hide ToBits;
  }

  lemma StreamAt(s: Bytes, i: nat)
    requires i < |s|
    ensures Stream(s)[8 * i..8 * i + 8] == ToBits(s[i])
    ensures Stream(s) == Stream(s[..i]) + ToBits(s[i]) + Stream(s[i + 1..])
  {
    hide Stream, ToBits;
    assert s == s[..i] + s[i..];
    StreamConcat(s[..i], s[i..]);
    StreamHead(s[i..]);
    assert s[i..][1..] == s[i + 1..];
    MiddleSlice(Stream(s[..i]), ToBits(s[i]), Stream(s[i + 1..]));
  }
}
