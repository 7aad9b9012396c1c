/** Octets, shifts and the result of reading a value off the front of a buffer. */
module Octets {

  type byte = b: int | 0 <= b < 256
  type Bytes = seq<byte>

  /** The outcome of a decoder: a value and the unread bytes, or an error. */
  datatype Parsed<+T, +E> = Ok(value: T, rest: Bytes) | Err(error: E)

  datatype Option<+T> = None | Some(value: T)

  datatype Result<+T, +E> = Success(value: T) | Failure(error: E)

  function Flatten(pieces: seq<Bytes>): Bytes {
    if pieces == [] then [] else pieces[0] + Flatten(pieces[1..])
  }

  lemma {:induction false} FlattenConcat(a: seq<Bytes>, b: seq<Bytes>)
    ensures Flatten(a + b) == Flatten(a) + Flatten(b)
  {
    if a == [] {
      assert a + b == b;
    } else {
      assert (a + b)[1..] == a[1..] + b;
      FlattenConcat(a[1..], b);
    }
  }

  function Min(a: nat, b: nat): nat {
    if a <= b then a else b
  }

  function Max(a: nat, b: nat): nat {
    if a >= b then a else b
  }

  /** `x << n` without a width. */
  function Shl(x: nat, n: nat): (r: nat)
    ensures r >= x
    decreases n
  {
    if n == 0 then x else 2 * Shl(x, n - 1)
  }

  /** `x >> n`. */
  function Shr(x: nat, n: nat): (r: nat)
    ensures r <= x
    decreases n
  {
    if n == 0 then x else Shr(x / 2, n - 1)
  }

  function Pow2(n: nat): (p: nat)
    ensures p >= 1
  {
    Shl(1, n)
  }

  lemma {:induction false} ShlSum(x: nat, y: nat, n: nat)
    ensures Shl(x + y, n) == Shl(x, n) + Shl(y, n)
  {
    if n > 0 {
      ShlSum(x, y, n - 1);
    }
  }

  lemma {:induction false} ShlShl(x: nat, m: nat, n: nat)
    ensures Shl(Shl(x, m), n) == Shl(x, m + n)
  {
    if n > 0 {
      ShlShl(x, m, n - 1);
    }
  }

  lemma {:induction false} ShlZero(n: nat)
    ensures Shl(0, n) == 0
  {
    if n > 0 {
      ShlZero(n - 1);
    }
  }

  lemma {:induction false} ShlMonotone(x: nat, y: nat, m: nat, n: nat)
    requires x <= y && m <= n
    ensures Shl(x, m) <= Shl(y, n)
  {
    if m < n {
      ShlMonotone(x, y, m, n - 1);
    } else if n > 0 {
      ShlMonotone(x, y, m - 1, n - 1);
    }
  }

  /** Shifting back drops exactly the low bits. */
  lemma {:induction false} ShrShl(x: nat, low: nat, n: nat)
    requires low < Pow2(n)
    ensures Shr(Shl(x, n) + low, n) == x
  {
    if n > 0 {
      assert (Shl(x, n) + low) / 2 == Shl(x, n - 1) + low / 2;
      ShrShl(x, low / 2, n - 1);
    }
  }

  /** A number is its high bits shifted up plus its low bits. */
  lemma {:induction false} ShrBounds(x: nat, n: nat)
    ensures Shl(Shr(x, n), n) <= x < Shl(Shr(x, n), n) + Pow2(n)
  {
    if n > 0 {
      ShrBounds(x / 2, n - 1);
    }
  }

  lemma ShlByte(x: nat)
    ensures Shl(x, 0) == x && Shl(x, 1) == 2 * x && Shl(x, 2) == 4 * x && Shl(x, 3) == 8 * x
    ensures Shl(x, 4) == 16 * x && Shl(x, 5) == 32 * x && Shl(x, 6) == 64 * x
    ensures Shl(x, 7) == 128 * x && Shl(x, 8) == 256 * x
  {
  }

  lemma ShlSeven(x: nat, n: nat)
    ensures Shl(128 * x, n) == Shl(x, n + 7)
  {
    ShlByte(x);
    ShlShl(x, 7, n);
  }

  lemma Pow2Eight()
    ensures Pow2(0) == 1 && Pow2(1) == 2 && Pow2(2) == 4 && Pow2(3) == 8 && Pow2(4) == 16
    ensures Pow2(5) == 32 && Pow2(6) == 64 && Pow2(7) == 128 && Pow2(8) == 256
  {
  }

  lemma MulMonotone(d: nat, a: int, b: int)
    requires a <= b
    ensures d * a <= d * b
  {
  }

  /** The remainder of d * q + r. */
  lemma ModUnique(d: nat, q: int, r: nat)
    requires r < d
    ensures (d * q + r) % d == r
  {
    var x := d * q + r;
    var e := q - x / d;
    assert d * e == x % d - r by {
      assert x == d * (x / d) + x % d;
      assert d * (q - x / d) == d * q - d * (x / d);
    }
    if e >= 1 {
      MulMonotone(d, 1, e);
    } else if e <= -1 {
      MulMonotone(d, e, -1);
    }
  }
}
