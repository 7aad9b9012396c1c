/** QUIC variable-length integers (h3/src/proto/varint.rs), section 16 of RFC 9000. */
module VarInts {
  import opened Octets

  /** Values below 2^62 can be encoded. */
  const LIMIT := 0x4000_0000_0000_0000

  /** The number of octets an error of the decoder mentions: not always how many are missing. */
  datatype UnexpectedEnd = UnexpectedEnd(mentioned: nat)

  /** The lengths there are. */
  type Width = n: nat | n == 1 || n == 2 || n == 4 || n == 8 witness 1

  /** What fits. */
  function Limit(n: Width): (limit: nat) {
    match n case 1 => 0x40 case 2 => 0x4000 case 4 => 0x4000_0000 case _ => LIMIT
  }

  function Size(x: nat): (n: Width)
    requires x < LIMIT
    ensures x < Limit(n)
  {
    if x < 0x40 then 1 else if x < 0x4000 then 2 else if x < 0x4000_0000 then 4 else 8
  }

  function EncodedSize(first: byte): (n: Width) {
    if first / 64 == 0 then 1 else if first / 64 == 1 then 2 else if first / 64 == 2 then 4 else 8
  }

  /** The low n octets of x, most significant first. */
  function BigEndian(x: nat, n: nat): (s: Bytes)
    ensures |s| == n
  {
    if n == 0 then [] else BigEndian(x / 256, n - 1) + [x % 256]
  }

  function FromBigEndian(s: Bytes): (x: nat) {
    if s == [] then 0 else 256 * FromBigEndian(s[..|s| - 1]) + s[|s| - 1]
  }

  function Tag(n: Width): (t: nat) {
    match n case 1 => 0 case 2 => 0x40 case 4 => 0x80 case _ => 0xc0
  }

  /** x in n octets, with the length in the two high bits. */
  function EncodeIn(x: nat, n: Width): (s: Bytes)
    requires x < Limit(n)
    ensures |s| == n
  {
    BigEndian(x + Shl(Tag(n), 8 * (n - 1)), n)
  }

  /** x in as many octets as it needs. */
  function Encode(x: nat): (s: Bytes)
    requires x < LIMIT
    ensures |s| == Size(x)
  {
    EncodeIn(x, Size(x))
  }

  function Decode(s: Bytes): (r: Parsed<nat, UnexpectedEnd>)
  {
    if s == [] then Err(UnexpectedEnd(0)) else
    var n := EncodedSize(s[0]);
    if |s| < n then Err(UnexpectedEnd(s[0] / 64))
    else Ok(FromBigEndian([s[0] % 64] + s[1..n]), s[n..])
  }

  lemma {:induction false} BigEndianRoundTrip(x: nat, n: nat)
    requires x < Pow2(8 * n)
    ensures FromBigEndian(BigEndian(x, n)) == x
  {
    if n > 0 {
      ShlByte(1);
      ShlShl(1, 8 * (n - 1), 8);
      ShlByte(Pow2(8 * (n - 1)));
      BigEndianRoundTrip(x / 256, n - 1);
      assert BigEndian(x, n)[..n - 1] == BigEndian(x / 256, n - 1);
    }
  }

  lemma AddMultiple(x: nat, y: nat)
    ensures (x + 256 * y) / 256 == x / 256 + y && (x + 256 * y) % 256 == x % 256
  {
  }

  lemma BigEndianStep(x: nat, y: nat, n: nat)
    requires n > 0
    ensures BigEndian(x, n) == BigEndian(x / 256, n - 1) + [x % 256]
    ensures BigEndian(x + 256 * y, n) == BigEndian(x / 256 + y, n - 1) + [x % 256]
  {
    AddMultiple(x, y);
  }

  /** Adding to the top octet changes only the top octet. */
  lemma {:induction false} AddTop(x: nat, top: nat, n: nat)
    requires n >= 1 && x < Shl(64, 8 * (n - 1)) && top <= 192
    ensures BigEndian(x, n)[0] < 64
    ensures BigEndian(x + Shl(top, 8 * (n - 1)), n) == [BigEndian(x, n)[0] + top] + BigEndian(x, n)[1..]
  {
    hide Shl;
    if n > 1 {
      hide BigEndian;
      var k := 8 * (n - 2);
      ShlShl(top, k, 8);
      ShlShl(64, k, 8);
      ShlByte(Shl(top, k));
      ShlByte(Shl(64, k));
      AddTop(x / 256, top, n - 1);
      BigEndianStep(x, Shl(top, k), n);
    } else {
      ShlByte(64);
      ShlByte(top);
      assert BigEndian(x, 1) == [x];
      assert BigEndian(x + top, 1) == [x + top];
    }
  }

  lemma TopBits()
    ensures Shl(64, 0) == 64 && Shl(64, 8) == 0x4000 && Shl(64, 16) == 0x40_0000 && Shl(64, 24) == 0x4000_0000
    ensures Shl(64, 32) == 0x40_0000_0000 && Shl(64, 40) == 0x4000_0000_0000
    ensures Shl(64, 48) == 0x40_0000_0000_0000 && Shl(64, 56) == LIMIT
  {
    hide Shl;
    ShlByte(64);
    ShlShl(64, 8, 8);
    ShlByte(Shl(64, 8));
    ShlShl(64, 16, 8);
    ShlByte(Shl(64, 16));
    ShlShl(64, 24, 8);
    ShlByte(Shl(64, 24));
    ShlShl(64, 32, 8);
    ShlByte(Shl(64, 32));
    ShlShl(64, 40, 8);
    ShlByte(Shl(64, 40));
    ShlShl(64, 48, 8);
    ShlByte(Shl(64, 48));
  }

  lemma LimitBound(x: nat, n: Width)
    requires x < Limit(n)
    ensures x < Shl(64, 8 * (n - 1)) && x < Pow2(8 * n) && Tag(n) <= 192
  {
    hide Shl;
    TopBits();
    var low := 8 * (n - 1);
    ShlByte(1);
    ShlShl(1, 8, low);
    ShlMonotone(64, 256, low, low);
  }

  /** Every value comes back from any length that has room for it, whether it needs that length or not, and
      what follows it is left unread. */
  lemma RoundTripIn(x: nat, n: Width, rest: Bytes)
    requires x < Limit(n)
    ensures Decode(EncodeIn(x, n) + rest) == Ok(x, rest)
  {
    hide BigEndian, FromBigEndian, Shl;
    LimitBound(x, n);
    AddTop(x, Tag(n), n);
    BigEndianRoundTrip(x, n);
    var plain := BigEndian(x, n);
    var s := EncodeIn(x, n) + rest;
    assert s[0] == plain[0] + Tag(n);
    assert s[1..n] == plain[1..];
    assert [plain[0]] + plain[1..] == plain;
    assert s[n..] == rest;
  }

  /** So does every encodable value from the length this encoder chooses. */
  lemma RoundTrip(x: nat, rest: Bytes)
    requires x < LIMIT
    ensures Decode(Encode(x) + rest) == Ok(x, rest)
  {
    hide EncodeIn, Decode;
    RoundTripIn(x, Size(x), rest);
  }

  /** A strict prefix is never taken for a value, whatever the length. */
  lemma StrictPrefixIn(x: nat, n: Width, k: nat)
    requires x < Limit(n) && k < n
    ensures Decode(EncodeIn(x, n)[..k]).Err?
  {
    hide BigEndian, FromBigEndian, Shl;
    LimitBound(x, n);
    AddTop(x, Tag(n), n);
  }

  lemma StrictPrefix(x: nat, k: nat)
    requires x < LIMIT && k < |Encode(x)|
    ensures Decode(Encode(x)[..k]).Err?
  {
    hide EncodeIn, Decode;
    StrictPrefixIn(x, Size(x), k);
  }

  /** 37 in two octets. */
  lemma LongerThanNeeded()
    ensures Decode([0x40, 0x25]) == Ok(37, [])
  {
    hide Decode, BigEndian;
    RoundTripIn(37, 2, []);
    TwoOctets();
    assert EncodeIn(37, 2) + [] == EncodeIn(37, 2);
  }

  lemma TwoOctets()
    ensures EncodeIn(37, 2) == [0x40, 0x25]
  {
    ShlByte(0x40);
    assert BigEndian(0x4025, 2) == BigEndian(0x40, 1) + [0x25] && BigEndian(0x40, 1) == BigEndian(0, 0) + [0x40];
  }

  /** A value that was read is read the same whatever more arrives. */
  lemma Extend(s: Bytes, more: Bytes)
    ensures Decode(s).Ok? ==> Decode(s + more) == Ok(Decode(s).value, Decode(s).rest + more)
  {
    hide FromBigEndian;
    if Decode(s).Ok? {
      var n := EncodedSize(s[0]);
      assert (s + more)[1..n] == s[1..n] && (s + more)[n..] == s[n..] + more;
    }
  }

  /** What is read is below 2^62, takes at least one octet, and is followed by the unread rest. */
  lemma DecodeBounds(s: Bytes)
    ensures Decode(s).Ok? ==> 1 <= |s| - |Decode(s).rest| <= 8 && Decode(s).rest == s[|s| - |Decode(s).rest|..]
    ensures Decode(s).Ok? ==> Decode(s).value < LIMIT
    ensures Decode(s).Err? ==> Decode(s).error.mentioned <= 3 && (s == [] ==> Decode(s).error.mentioned == 0)
  {
    hide FromBigEndian;
    if Decode(s).Ok? {
      FromBigEndianBound(s[0] % 64, s[1..EncodedSize(s[0])]);
    }
  }

  lemma FromBigEndianBound(top: byte, s: Bytes)
    requires top < 64 && |s| <= 7
    ensures FromBigEndian([top] + s) < LIMIT
  {
    hide Shl;
    FromBigEndianGrowth(top, s);
    ShlMonotone(64, 64, 8 * |s|, 56);
    TopBits();
  }

  lemma {:induction false} FromBigEndianGrowth(top: byte, s: Bytes)
    requires top < 64
    ensures FromBigEndian([top] + s) < Shl(64, 8 * |s|)
    decreases |s|
  {
    var t := [top] + s;
    if s == [] {
      assert t == [top] && t[..0] == [];
    } else {
      var front := s[..|s| - 1];
      assert t[..|t| - 1] == [top] + front;
      FromBigEndianGrowth(top, front);
      ShlShl(64, 8 * |front|, 8);
      ShlByte(Shl(64, 8 * |front|));
    }
  }

  /** A first octet below 64 is the value. */
  lemma SmallValue(s: Bytes)
    requires s != [] && s[0] < 64
    ensures Decode(s) == Ok(s[0], s[1..])
  {
    var t: Bytes := [s[0] % 64] + s[1..1];
    assert EncodedSize(s[0]) == 1 && t == [s[0]] && t[..|t| - 1] == [];
    assert FromBigEndian(t) == s[0];
  }

  lemma OneOctet(s: Bytes)
    requires Decode(s).Ok? && |Decode(s).rest| == |s| - 1
    ensures Decode(s).value < 64
  {
    hide FromBigEndian;
    assert s[1..1] == [];
    FromBigEndianGrowth(s[0] % 64, []);
  }
}
