/** Prefix integers (h3/src/qpack/prefix_int.rs), section 5.1 of RFC 7541. */
module PrefixInt {
  import opened Octets

  datatype Error = Overflow | UnexpectedEnd

  datatype Flagged = Flagged(flags: nat, value: nat)

  // A decoded integer may use at most this many bits of continuation payload.
  const MAX_POWER := 63
  // 2^MAX_POWER
  const PAYLOAD_LIMIT := 0x8000_0000_0000_0000

  function Mask(size: nat): (m: nat) {
    Pow2(size) - 1
  }

  // ----------------------------------------------------------------- encoding

  function Continuation(remaining: nat): (s: Bytes)
    ensures |s| >= 1
  {
    if remaining >= 128 then [remaining % 128 + 128] + Continuation(remaining / 128) else [remaining]
  }

  /** The flags fit above the prefix bits of the first byte. */
  lemma HeadFits(size: nat, flags: nat)
    requires 1 <= size <= 8 && flags < Pow2(8 - size)
    ensures Shl(flags, size) + Mask(size) < 256
  {
    ShlSum(flags, 1, size);
    ShlMonotone(flags + 1, Pow2(8 - size), size, size);
    ShlShl(1, 8 - size, size);
    ShlByte(1);
  }

  function Encode(size: nat, flags: nat, value: nat): (s: Bytes)
    requires 1 <= size <= 8 && flags < Pow2(8 - size)
    ensures |s| >= 1
  {
    HeadFits(size, flags);
    if value < Mask(size) then [Shl(flags, size) + value]
    else [Shl(flags, size) + Mask(size)] + Continuation(value - Mask(size))
  }

  lemma ContinuationStep(out: Bytes, remaining: nat)
    ensures out + Continuation(remaining)
         == if remaining >= 128 then out + [remaining % 128 + 128] + Continuation(remaining / 128) else out + [remaining]
  {
  }

  /** The encoder as written: a mask, a head byte and a loop over seven-bit groups. */
  method EncodeInto(size: nat, flags: nat, value: nat, buf: Bytes) returns (out: Bytes)
    requires 1 <= size <= 8 && flags < Pow2(8 - size)
    ensures out == buf + Encode(size, flags, value)
  {
    hide Shl, Mask, Continuation;
    HeadFits(size, flags);
    var mask, head := Mask(size), Shl(flags, size);
    if value < mask {
      return buf + [head + value];
    }
    assert buf + ([head + mask] + Continuation(value - mask)) == buf + [head + mask] + Continuation(value - mask);
    out := buf + [head + mask];
    var remaining := value - mask;
    while remaining >= 128
      invariant remaining >= 0 && out + Continuation(remaining) == buf + Encode(size, flags, value)
    {
      ContinuationStep(out, remaining);
      out := out + [remaining % 128 + 128];
      remaining := remaining / 128;
    }
    ContinuationStep(out, remaining);
    out := out + [remaining];
  }

  // ----------------------------------------------------------------- decoding

  /** The prefix bits of the first byte. */
  function Low(b: nat, size: nat): (low: nat)
    ensures low <= Mask(size)
  {
    ShrBounds(b, size);
    b - Shl(Shr(b, size), size)
  }

  function DecodeTail(s: Bytes, power: nat, value: nat): (r: Parsed<nat, Error>)
  {
    if s == [] then Err(UnexpectedEnd) else
    var value' := value + Shl(s[0] % 128, power);
    if s[0] < 128 then Ok(value', s[1..])
    else if power + 7 >= MAX_POWER then Err(Overflow)
    else DecodeTail(s[1..], power + 7, value')
  }

  function Decode(size: nat, s: Bytes): (r: Parsed<Flagged, Error>)
    requires 1 <= size <= 8
  {
    if s == [] then Err(UnexpectedEnd) else
    var flags := Shr(s[0], size);
    var first := Low(s[0], size);
    if first < Mask(size) then Ok(Flagged(flags, first), s[1..]) else
    match DecodeTail(s[1..], 0, Mask(size))
    case Ok(value, rest) => Ok(Flagged(flags, value), rest)
    case Err(e) => Err(e)
  }

  /** The values the accumulator takes after each addition, however the decoding ends. */
  function TailSums(s: Bytes, power: nat, value: nat): (sums: seq<nat>) {
    if s == [] then [] else
    var value' := value + Shl(s[0] % 128, power);
    [value'] + if s[0] < 128 || power + 7 >= MAX_POWER then [] else TailSums(s[1..], power + 7, value')
  }

  function Sums(size: nat, s: Bytes): (sums: seq<nat>) {
    if s == [] || Low(s[0], size) < Mask(size) then [] else TailSums(s[1..], 0, Mask(size))
  }

  /** How many octets are taken off the buffer: one, and one for each addition. */
  function OctetsRead(size: nat, s: Bytes): (n: nat) {
    if s == [] then 0 else 1 + |Sums(size, s)|
  }

  lemma TailStep(s: Bytes, power: nat, value: nat, done: seq<nat>)
    ensures s == [] ==> DecodeTail(s, power, value) == Err(UnexpectedEnd) && done + TailSums(s, power, value) == done
    ensures s != [] ==>
              var value' := value + Shl(s[0] % 128, power);
              var more := s[0] >= 128 && power + 7 < MAX_POWER;
              && DecodeTail(s, power, value) == (if more then DecodeTail(s[1..], power + 7, value')
                                                 else if s[0] < 128 then Ok(value', s[1..]) else Err(Overflow))
              && done + TailSums(s, power, value)
                 == done + [value'] + if more then TailSums(s[1..], power + 7, value') else []
  {
    hide Shl;
  }

  /** The decoder as written: a loop over `value` and `power`. `sums` are the values of the accumulator. */
  method DecodeFrom(size: nat, buf: Bytes) returns (r: Parsed<Flagged, Error>, ghost sums: seq<nat>)
    requires 1 <= size <= 8
    ensures r == Decode(size, buf) && sums == Sums(size, buf)
  {
    hide Shl, Shr, Low, Mask, DecodeTail, TailSums;
    sums := [];
    if |buf| == 0 {
      return Err(UnexpectedEnd), sums;
    }
    var flags, first := Shr(buf[0], size), Low(buf[0], size);
    var mask := Mask(size);
    if first < mask {
      return Ok(Flagged(flags, first), buf[1..]), sums;
    }
    var value: nat, power: nat, pos := mask, 0, 1;
    while true
      invariant 1 <= pos <= |buf|
      invariant DecodeTail(buf[1..], 0, mask) == DecodeTail(buf[pos..], power, value)
      invariant TailSums(buf[1..], 0, mask) == sums + TailSums(buf[pos..], power, value)
      decreases |buf| - pos
    {
      TailStep(buf[pos..], power, value, sums);
      if pos == |buf| {
        return Err(UnexpectedEnd), sums;
      }
      var b := buf[pos];
      assert buf[pos..][1..] == buf[pos + 1..];
      pos := pos + 1;
      value := value + Shl(b % 128, power);
      sums := sums + [value];
      power := power + 7;
      if b < 128 {
        break;
      }
      if power >= MAX_POWER {
        return Err(Overflow), sums;
      }
    }
    return Ok(Flagged(flags, value), buf[pos..]), sums;
  }

  // --------------------------------------------------------------- properties

  lemma PayloadLimit()
    ensures Pow2(MAX_POWER) == PAYLOAD_LIMIT
  {
    ShlByte(1);
    ShlShl(1, 8, 8);
    ShlByte(0x100);
    ShlShl(1, 16, 8);
    ShlByte(0x1_0000);
    ShlShl(1, 24, 8);
    ShlByte(0x100_0000);
    ShlShl(1, 32, 8);
    ShlByte(0x1_0000_0000);
    ShlShl(1, 40, 8);
    ShlByte(0x100_0000_0000);
    ShlShl(1, 48, 8);
    ShlByte(0x1_0000_0000_0000);
    ShlShl(1, 56, 7);
    ShlByte(0x100_0000_0000_0000);
  }

  lemma GroupSplit(r: nat, power: nat)
    ensures Shl(r % 128, power) + Shl(r / 128, power + 7) == Shl(r, power)
  {
    ShlSum(r % 128, 128 * (r / 128), power);
    ShlSeven(r / 128, power);
  }

  /** A continued value leaves room for its next seven-bit group. */
  lemma NextGroup(r: nat, power: nat)
    requires r >= 128 && Shl(r, power) < PAYLOAD_LIMIT
    ensures power + 7 < MAX_POWER && Shl(r / 128, power + 7) < PAYLOAD_LIMIT
  {
    PayloadLimit();
    GroupSplit(r, power);
    ShlMonotone(1, r / 128, power + 7, power + 7);
    if power + 7 >= MAX_POWER {
      ShlMonotone(1, 1, MAX_POWER, power + 7);
      assert false;
    }
  }

  lemma {:induction false} TailRoundTrip(remaining: nat, power: nat, value: nat, rest: Bytes)
    requires Shl(remaining, power) < PAYLOAD_LIMIT
    ensures DecodeTail(Continuation(remaining) + rest, power, value)
         == Ok(value + Shl(remaining, power), rest)
    decreases remaining
  {
    var s := Continuation(remaining) + rest;
    if remaining >= 128 {
      NextGroup(remaining, power);
      assert s[1..] == Continuation(remaining / 128) + rest;
      TailRoundTrip(remaining / 128, power + 7, value + Shl(remaining % 128, power), rest);
      GroupSplit(remaining, power);
    } else {
      assert s[1..] == rest;
    }
  }

  /** The first byte gives back the flags and the prefix bits. */
  lemma HeadSplit(size: nat, flags: nat, low: nat)
    requires 1 <= size <= 8 && flags < Pow2(8 - size) && low <= Mask(size)
    ensures var b := Shl(flags, size) + low; b < 256 && Shr(b, size) == flags && Low(b, size) == low
  {
    HeadFits(size, flags);
    ShrShl(flags, low, size);
  }

  /** The flags decide the range of the first byte. */
  lemma FirstByte(size: nat, flags: nat, value: nat)
    requires 1 <= size <= 8 && flags < Pow2(8 - size)
    ensures Shl(flags, size) <= Encode(size, flags, value)[0] < Shl(flags, size) + Pow2(size)
  {
    hide Shl, Continuation;
    HeadFits(size, flags);
  }

  /** Decoding inverts encoding and leaves the following bytes untouched. */
  lemma RoundTrip(size: nat, flags: nat, value: nat, rest: Bytes)
    requires 1 <= size <= 8 && flags < Pow2(8 - size)
    requires value - Mask(size) < PAYLOAD_LIMIT
    ensures Decode(size, Encode(size, flags, value) + rest) == Ok(Flagged(flags, value), rest)
  {
    hide Shl, Shr, Low, Mask, Continuation, DecodeTail;
    var s := Encode(size, flags, value) + rest;
    var mask := Mask(size);
    if value < mask {
      HeadSplit(size, flags, value);
      assert s == [Shl(flags, size) + value] + rest;
    } else {
      HeadSplit(size, flags, mask);
      assert s == [Shl(flags, size) + mask] + (Continuation(value - mask) + rest);
      ShlByte(value - mask);
      TailRoundTrip(value - mask, 0, mask, rest);
    }
  }

  // ------------------------------------------- integers as any peer writes them

  type Group = g: nat | g < 128

  /** Groups of seven bits, least significant first, all but the last marked as continued. There may be more
      of them than the value needs. */
  function Groups(groups: seq<Group>): (s: Bytes)
    requires groups != []
  {
    var low: byte := groups[0];
    if |groups| == 1 then [low] else [low + 128] + Groups(groups[1..])
  }

  function GroupsValue(groups: seq<Group>): (v: nat) {
    if groups == [] then 0 else groups[0] + 128 * GroupsValue(groups[1..])
  }

  lemma {:induction false} TailGroups(groups: seq<Group>, power: nat, value: nat, rest: Bytes)
    requires groups != [] && power + 7 * |groups| <= MAX_POWER
    ensures DecodeTail(Groups(groups) + rest, power, value) == Ok(value + Shl(GroupsValue(groups), power), rest)
    decreases |groups|
  {
    hide Shl;
    var s := Groups(groups) + rest;
    var (low, high) := (groups[0], GroupsValue(groups[1..]));
    ShlSum(low, 128 * high, power);
    ShlSeven(high, power);
    if |groups| == 1 {
      ShlZero(power);
      assert s[1..] == rest;
    } else {
      assert s[1..] == Groups(groups[1..]) + rest;
      TailGroups(groups[1..], power + 7, value + Shl(low, power), rest);
    }
  }

  lemma {:induction false} TailOverflows(groups: seq<Group>, power: nat, value: nat, rest: Bytes)
    requires power % 7 == 0 && power < MAX_POWER < power + 7 * |groups|
    ensures DecodeTail(Groups(groups) + rest, power, value) == Err(Overflow)
    decreases |groups|
  {
    hide Shl;
    var s := Groups(groups) + rest;
    assert |groups| >= 2;
    if power + 7 < MAX_POWER {
      assert s[1..] == Groups(groups[1..]) + rest;
      TailOverflows(groups[1..], power + 7, value + Shl(groups[0], power), rest);
    }
  }

  lemma TailAny(groups: seq<Group>, value: nat, rest: Bytes)
    requires groups != []
    ensures DecodeTail(Groups(groups) + rest, 0, value)
         == if |groups| <= 9 then Ok(value + GroupsValue(groups), rest) else Err(Overflow)
  {
    hide Shl, DecodeTail, Groups, GroupsValue;
    if |groups| <= 9 {
      TailGroups(groups, 0, value, rest);
      ShlByte(GroupsValue(groups));
    } else {
      TailOverflows(groups, 0, value, rest);
    }
  }

  /** An integer in up to nine continuation octets, whether or not it needs them all, is the mask plus what
      its groups denote; in more it is an overflow. */
  lemma AnyContinuation(size: nat, flags: nat, groups: seq<Group>, rest: Bytes)
    requires 1 <= size <= 8 && flags < Pow2(8 - size) && groups != []
    ensures Shl(flags, size) + Mask(size) < 256
    ensures Decode(size, [Shl(flags, size) + Mask(size)] + Groups(groups) + rest)
         == if |groups| <= 9 then Ok(Flagged(flags, Mask(size) + GroupsValue(groups)), rest) else Err(Overflow)
  {
    hide Shl, Shr, Low, Mask, DecodeTail, Groups, GroupsValue, Pow2;
    HeadSplit(size, flags, Mask(size));
    TailAny(groups, Mask(size), rest);
    var s := [Shl(flags, size) + Mask(size)] + Groups(groups) + rest;
    assert s == [Shl(flags, size) + Mask(size)] + (Groups(groups) + rest);
  }

  lemma {:induction false} TailPrefix(remaining: nat, power: nat, value: nat, k: nat)
    requires Shl(remaining, power) < PAYLOAD_LIMIT
    requires k < |Continuation(remaining)|
    ensures DecodeTail(Continuation(remaining)[..k], power, value) == Err(UnexpectedEnd)
    decreases k
  {
    if k > 0 {
      NextGroup(remaining, power);
      assert Continuation(remaining)[..k][1..] == Continuation(remaining / 128)[..k - 1];
      TailPrefix(remaining / 128, power + 7, value + Shl(remaining % 128, power), k - 1);
    }
  }

  /** Every strict prefix of an encoded integer asks for more input. */
  lemma StrictPrefix(size: nat, flags: nat, value: nat, k: nat)
    requires 1 <= size <= 8 && flags < Pow2(8 - size)
    requires value - Mask(size) < PAYLOAD_LIMIT
    requires k < |Encode(size, flags, value)|
    ensures Decode(size, Encode(size, flags, value)[..k]) == Err(UnexpectedEnd)
  {
    hide Shl;
    hide Shr;
    hide Low;
    if k > 0 {
      var s := Encode(size, flags, value);
      ShlByte(value - Mask(size));
      HeadSplit(size, flags, Mask(size));
      assert s[..k][1..] == Continuation(value - Mask(size))[..k - 1];
      TailPrefix(value - Mask(size), 0, Mask(size), k - 1);
    }
  }

  lemma {:induction false} TailBounds(s: Bytes, power: nat, value: nat)
    requires power % 7 == 0 && power < MAX_POWER
    ensures var (r, sums) := (DecodeTail(s, power, value), TailSums(s, power, value));
            && 7 * |sums| <= MAX_POWER - power
            && (forall v :: v in sums ==> v - value + Pow2(power) <= PAYLOAD_LIMIT)
            && (r.Ok? ==> && r.value in sums && |s| - |r.rest| == |sums| > 0
                          && r.rest == s[|s| - |r.rest|..])
    decreases |s|
  {
    hide Shl, Pow2;
    if s != [] {
      GroupBound(s[0] % 128, power);
      if s[0] >= 128 && power + 7 < MAX_POWER {
        var value' := value + Shl(s[0] % 128, power);
        TailBounds(s[1..], power + 7, value');
      }
    }
  }

  lemma GroupBound(group: nat, power: nat)
    requires group < 128 && power % 7 == 0 && power < MAX_POWER
    ensures Shl(group, power) + Pow2(power) <= Pow2(power + 7) <= PAYLOAD_LIMIT
  {
    PayloadLimit();
    ShlSum(group, 1, power);
    ShlMonotone(group + 1, 128, power, power);
    ShlSeven(1, power);
    ShlMonotone(1, 1, power + 7, MAX_POWER);
  }

  /** No input, however it ends, makes the 64-bit accumulator overflow or reads more than ten bytes. What
      is read without an error fits, and the unread rest is a suffix. */
  lemma DecodeBounds(size: nat, s: Bytes)
    requires 1 <= size <= 8
    ensures (forall v :: v in Sums(size, s) ==> v < 0x1_0000_0000_0000_0000) && OctetsRead(size, s) <= 10
    ensures var r := Decode(size, s);
            r.Ok? ==> && r.value.value < PAYLOAD_LIMIT + Mask(size) < 0x1_0000_0000_0000_0000
                      && r.value.flags < Pow2(8 - size)
                      && |s| - |r.rest| == OctetsRead(size, s) >= 1 && r.rest == s[|s| - |r.rest|..]
  {
    Pow2Eight();
    ShlMonotone(1, 1, size, 8);
    if s != [] {
      TailBounds(s[1..], 0, Mask(size));
      FlagsBound(size, s[0]);
    }
  }

  lemma FlagsBound(size: nat, b: byte)
    requires 1 <= size <= 8
    ensures Shr(b, size) < Pow2(8 - size)
  {
    ShrBounds(b, size);
    ShlByte(1);
    if Shr(b, size) >= Pow2(8 - size) {
      ShlMonotone(Pow2(8 - size), Shr(b, size), size, size);
      ShlShl(1, 8 - size, size);
      assert false;
    }
  }

  lemma {:induction false} TailExtend(s: Bytes, power: nat, value: nat, more: Bytes)
    ensures match DecodeTail(s, power, value)
            case Ok(v, rest) => DecodeTail(s + more, power, value) == Ok(v, rest + more)
            case Err(Overflow) => DecodeTail(s + more, power, value) == Err(Overflow)
            case Err(UnexpectedEnd) => true
    decreases |s|
  {
    if s != [] {
      assert (s + more)[1..] == s[1..] + more;
      if s[0] >= 128 && power + 7 < MAX_POWER {
        TailExtend(s[1..], power + 7, value + Shl(s[0] % 128, power), more);
      }
    }
  }

  /** Bytes that arrive later never change a verdict other than UnexpectedEnd. */
  lemma Extend(size: nat, s: Bytes, more: Bytes)
    requires 1 <= size <= 8
    ensures match Decode(size, s)
            case Ok(v, rest) => Decode(size, s + more) == Ok(v, rest + more)
            case Err(Overflow) => Decode(size, s + more) == Err(Overflow)
            case Err(UnexpectedEnd) => true
  {
    if s != [] {
      assert (s + more)[1..] == s[1..] + more;
      TailExtend(s[1..], 0, Mask(size), more);
    }
  }
}
