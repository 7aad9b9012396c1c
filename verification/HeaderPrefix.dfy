/** The encoded field section prefix (h3/src/qpack/block.rs), section 4.5.1 of RFC 9204. */
module HeaderPrefix {
  import opened Octets
  import PrefixInt

  datatype HeaderPrefix = HeaderPrefix(encodedInsertCount: nat, signNegative: bool, deltaBase: nat)

  /** What `Get` computes; ArithmeticFault is a division by zero or a subtraction below zero. */
  datatype Counts =
    | Counts(required: nat, base: nat)
    | InvalidBase(value: int)
    | ArithmeticFault

  function New(required: nat, base: nat, totalInserted: nat, maxTableSize: nat): (p: HeaderPrefix)
    requires maxTableSize != 0 && required != 0 ==> required <= totalInserted && maxTableSize >= 32
  {
    if maxTableSize == 0 || required == 0 then HeaderPrefix(0, false, 0) else
    var maxEntries := maxTableSize / 32;
    if required > base then HeaderPrefix(required % (2 * maxEntries) + 1, true, required - base - 1)
    else HeaderPrefix(required % (2 * maxEntries) + 1, false, base - required)
  }

  /** The insert count a non-zero encoding stands for, given the decoder's own count. */
  function Reconstruct(encoded: nat, totalInserted: nat, maxEntries: nat): (r: Option<nat>)
    requires encoded > 0
  {
    if maxEntries == 0 then None else
    var insertCount := encoded - 1;
    var wrapped := totalInserted % (2 * maxEntries);
    if wrapped >= insertCount + maxEntries then
      Some(insertCount + 2 * maxEntries + totalInserted - wrapped)
    else
      var wrapped' := if wrapped + maxEntries < insertCount then wrapped + 2 * maxEntries else wrapped;
      if insertCount + totalInserted < wrapped' then None
      else Some(insertCount + totalInserted - wrapped')
  }

  function Get(p: HeaderPrefix, totalInserted: nat, maxTableSize: nat): (r: Counts) {
    if maxTableSize == 0 || p.encodedInsertCount == 0 then Counts(0, 0) else
    match Reconstruct(p.encodedInsertCount, totalInserted, maxTableSize / 32)
    case None => ArithmeticFault
    case Some(required) =>
      if required == 0 then Counts(0, 0)
      else if !p.signNegative then Counts(required, required + p.deltaBase)
      else if p.deltaBase + 1 > required then InvalidBase(required - p.deltaBase - 1)
      else Counts(required, required - p.deltaBase - 1)
  }

  // ------------------------------------------------------------- wire format

  function Encode(p: HeaderPrefix): (s: Bytes) {
    PrefixInt.Encode(8, 0, p.encodedInsertCount)
    + PrefixInt.Encode(7, if p.signNegative then 1 else 0, p.deltaBase)
  }

  function Decode(s: Bytes): (r: Parsed<HeaderPrefix, PrefixInt.Error>) {
    match PrefixInt.Decode(8, s)
    case Err(e) => Err(e)
    case Ok(count, rest) =>
      match PrefixInt.Decode(7, rest)
      case Err(e) => Err(e)
      case Ok(delta, rest') => Ok(HeaderPrefix(count.value, delta.flags == 1, delta.value), rest')
  }

  lemma WireRoundTrip(p: HeaderPrefix, rest: Bytes)
    requires p.encodedInsertCount < PrefixInt.PAYLOAD_LIMIT && p.deltaBase < PrefixInt.PAYLOAD_LIMIT
    ensures Decode(Encode(p) + rest) == Ok(p, rest)
  {
    hide PrefixInt.Encode, PrefixInt.Decode;
    var sign := if p.signNegative then 1 else 0;
    var (a, b) := (PrefixInt.Encode(8, 0, p.encodedInsertCount), PrefixInt.Encode(7, sign, p.deltaBase));
    assert Encode(p) + rest == a + (b + rest);
    PrefixInt.RoundTrip(8, 0, p.encodedInsertCount, b + rest);
    PrefixInt.RoundTrip(7, sign, p.deltaBase, rest);
  }

  // ---------------------------------------------- required insert count window

  /** The counts a decoder at `total` can tell apart: the 2 * M values around its own count. */
  predicate InWindow(r: int, total: nat, m: nat) {
    total - m < r <= total + m
  }

  /** Multiples of d that are less than 2 * d apart are at most d apart. */
  lemma MultiplesApart(d: nat, p: int, q: int)
    requires d > 0 && -2 * d < d * p - d * q < 2 * d
    ensures var apart := d * p - d * q; apart == 0 - d || apart == 0 || apart == d
  {
    MulDifference(d, p, q);
    UnitMultiples(d, p - q);
  }

  lemma MulDifference(d: int, p: int, q: int)
    ensures d * (p - q) == d * p - d * q
  {
  }

  lemma UnitMultiples(d: nat, k: int)
    requires d > 0 && -2 * d < d * k < 2 * d
    ensures d * k == 0 - d || d * k == 0 || d * k == d
  {
    if k >= 2 {
      MulMonotone(d, 2, k);
    } else if k <= -2 {
      MulMonotone(d, k, -2);
    } else {
      assert k == -1 || k == 0 || k == 1;
    }
  }

  lemma ReconstructAligned(required: nat, total: nat, m: nat, low: nat)
    requires m >= 1 && InWindow(required, total, m) && low < 2 * m
    requires var apart := required - low - (total - total % (2 * m));
             apart == -2 * m || apart == 0 || apart == 2 * m
    ensures Reconstruct(low + 1, total, m) == Some(required)
  {
  }

  /** Every count in the window survives the modular encoding. */
  lemma WindowRoundTrip(required: nat, total: nat, m: nat)
    requires m >= 1 && InWindow(required, total, m)
    ensures Reconstruct(required % (2 * m) + 1, total, m) == Some(required)
  {
    hide Reconstruct;
    var d := 2 * m;
    assert required == d * (required / d) + required % d && total == d * (total / d) + total % d;
    MultiplesApart(d, required / d, total / d);
    ReconstructAligned(required, total, m, required % d);
  }

  lemma MulSum(d: nat, a: int, b: int, c: int)
    ensures d * (a + b + c) == d * a + d * b + d * c
  {
  }

  /** How far a reconstructed count is shifted by whole turns. */
  lemma ReconstructShift(encoded: nat, total: nat, m: nat) returns (turns: int)
    requires encoded > 0 && m >= 1
    ensures Reconstruct(encoded, total, m).Some? ==>
              Reconstruct(encoded, total, m).value == encoded - 1 + total - total % (2 * m) + 2 * m * turns
  {
    var w := total % (2 * m);
    if w >= encoded - 1 + m {
      turns := 1;
    } else if w + m < encoded - 1 {
      turns := -1;
    } else {
      turns := 0;
    }
  }

  /** Whatever is reconstructed has the encoded residue. */
  lemma ReconstructResidue(encoded: nat, total: nat, m: nat)
    requires encoded > 0 && m >= 1
    ensures var r := Reconstruct(encoded, total, m);
            r.Some? ==> r.value % (2 * m) == (encoded - 1) % (2 * m)
  {
    hide Reconstruct;
    var d := 2 * m;
    var (q, k, low) := (total / d, (encoded - 1) / d, (encoded - 1) % d);
    assert total == d * q + total % d && encoded - 1 == d * k + low;
    var turns := ReconstructShift(encoded, total, m);
    MulSum(d, q, k, turns);
    if Reconstruct(encoded, total, m).Some? {
      assert Reconstruct(encoded, total, m).value == d * (q + k + turns) + low;
      ModUnique(d, q + k + turns, low);
    }
  }

  /** It lies in the window exactly when the encoding is not too large for the decoder's position.
      (Section 4.5.1.1 of RFC 9204 rejects encodings above 2 * M; this code does not.) */
  lemma ReconstructInWindow(encoded: nat, total: nat, m: nat)
    requires encoded > 0 && m >= 1 && Reconstruct(encoded, total, m).Some?
    ensures InWindow(Reconstruct(encoded, total, m).value, total, m)
            <==> encoded - 1 <= total % (2 * m) + 3 * m
  {
  }

  /** The arithmetic faults exactly when the table holds no entry, or when the count would be negative. */
  lemma ReconstructFault(encoded: nat, total: nat, m: nat)
    requires encoded > 0
    ensures Reconstruct(encoded, total, m).None? <==> m == 0 || total + m < encoded - 1 < 2 * m
  {
    if m > 0 {
      var d := 2 * m;
      var (q, w) := (total / d, total % d);
      assert total == d * q + w;
      if q >= 1 {
        MulMonotone(d, 1, q);
      }
      if total < d {
        SmallQuotient(total, d);
      }
    }
  }

  lemma SmallQuotient(x: nat, d: nat)
    requires x < d
    ensures x / d == 0 && x % d == x
  {
  }

  /** A reconstructed count is the only number in the window with the encoded residue. */
  lemma ReconstructUnique(encoded: nat, total: nat, m: nat, other: nat)
    requires m >= 1 && 0 < encoded <= 2 * m
    requires InWindow(other, total, m) && other % (2 * m) == encoded - 1
    ensures Reconstruct(encoded, total, m) == Some(other)
  {
    WindowRoundTrip(other, total, m);
  }

  /** An encoding above the window: the decoder accepts it and reconstructs a count it cannot mean. */
  lemma OversizedCountLeavesWindow()
    ensures Reconstruct(100, 10, 1) == Some(107) && !InWindow(107, 10, 1)
  {
  }

  /** When the capacity changed between encoding and decoding, a count in the decoder's window is read
      back exactly under this condition. The capacity a connection agreed on should be used on both sides;
      this code uses the current one. */
  lemma CapacityChange(required: nat, total: nat, m: nat, m': nat)
    requires m >= 1 && m' >= 1 && InWindow(required, total, m')
    ensures Reconstruct(required % (2 * m) + 1, total, m') == Some(required)
            <==> && required % (2 * m) % (2 * m') == required % (2 * m')
                 && required % (2 * m) <= total % (2 * m') + 3 * m'
  {
    hide Reconstruct;
    var encoded := required % (2 * m) + 1;
    var r := Reconstruct(encoded, total, m');
    ReconstructResidue(encoded, total, m');
    ReconstructFault(encoded, total, m');
    if r.Some? {
      ReconstructInWindow(encoded, total, m');
      if InWindow(r.value, total, m') && r.value % (2 * m') == required % (2 * m') {
        ReconstructUnique(required % (2 * m') + 1, total, m', required);
        ReconstructUnique(required % (2 * m') + 1, total, m', r.value);
      }
    } else if required % (2 * m) % (2 * m') == required % (2 * m') {
      SmallQuotient(encoded - 1, 2 * m');
      RemainderBelow(required, 2 * m');
    }
  }

  lemma RemainderBelow(x: nat, d: nat)
    requires d > 0
    ensures x % d <= x
  {
    if x < d {
      SmallQuotient(x, d);
    }
  }

  /** Encoded for two entries, read with room for three: the fourth insertion is taken for the sixth. */
  lemma CapacityChangeMisleads()
    ensures Get(New(4, 4, 4, 64), 4, 96) == Counts(6, 6)
  {
  }

  /** Whatever base a peer chooses: a delta with a sign counts down from one below the required count, one
      without counts up from it, and a base below zero is refused with its value. */
  lemma BaseExact(required: nat, delta: nat, negative: bool, maxTableSize: nat, total: nat)
    requires 0 < required && maxTableSize >= 32 && InWindow(required, total, maxTableSize / 32)
    ensures var encoded := required % (2 * (maxTableSize / 32)) + 1;
            var base: int := if negative then required - 1 - delta else required + delta;
            Get(HeaderPrefix(encoded, negative, delta), total, maxTableSize)
              == if base < 0 then InvalidBase(base) else Counts(required, base)
  {
    hide Reconstruct;
    WindowRoundTrip(required, total, maxTableSize / 32);
  }

  /** The prefix of a section with references gives back its required count and its base. */
  lemma PrefixRoundTrip(required: nat, base: nat, inserted: nat, maxTableSize: nat, total: nat)
    requires 0 < required <= inserted && maxTableSize >= 32
    requires InWindow(required, total, maxTableSize / 32)
    ensures Get(New(required, base, inserted, maxTableSize), total, maxTableSize) == Counts(required, base)
  {
    hide Reconstruct;
    WindowRoundTrip(required, total, maxTableSize / 32);
  }

  /** A section without references needs nothing, whatever the capacities. */
  lemma EmptyPrefix(base: nat, inserted: nat, maxTableSize: nat, total: nat, decoderSize: nat)
    ensures Get(New(0, base, inserted, maxTableSize), total, decoderSize) == Counts(0, 0)
  {
  }
}
