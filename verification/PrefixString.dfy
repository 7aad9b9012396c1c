/** String literals (h3/src/qpack/prefix_string/mod.rs), section 5.2 of RFC 7541. */
module PrefixString {
  import opened Octets
  import PrefixInt
  import Huffman

  datatype Error =
    | UnexpectedEnd
    | Integer(error: PrefixInt.Error)
    | HuffmanDecoding(huffman: Huffman.HuffmanError)

  function FromInteger(e: PrefixInt.Error): Error {
    if e == PrefixInt.UnexpectedEnd then UnexpectedEnd else Integer(e)
  }

  /** A string whose encoding has a length that a prefix integer can carry. */
  predicate Encodable(value: Bytes) {
    |Huffman.HpackEncode(value)| < PrefixInt.PAYLOAD_LIMIT
  }

  /** A length with the Huffman flag set, then the Huffman encoding. */
  function Encode(size: nat, flags: nat, value: Bytes): (s: Bytes)
    requires 2 <= size <= 8 && flags < Pow2(8 - size)
    ensures |s| >= 1
  {
    var encoded := Huffman.HpackEncode(value);
    HuffmanFlagFits(size, flags);
    PrefixInt.Encode(size - 1, 2 * flags + 1, |encoded|) + encoded
  }

  lemma HuffmanFlagFits(size: nat, flags: nat)
    requires 2 <= size <= 8 && flags < Pow2(8 - size)
    ensures 2 * flags < 2 * flags + 1 < Pow2(8 - (size - 1))
  {
  }

  /** The octets as they are: this encoder never writes them so, but peers may. */
  function EncodePlain(size: nat, flags: nat, value: Bytes): (s: Bytes)
    requires 2 <= size <= 8 && flags < Pow2(8 - size)
    ensures |s| >= 1
  {
    HuffmanFlagFits(size, flags);
    PrefixInt.Encode(size - 1, 2 * flags, |value|) + value
  }

  /** A string in either of its forms. */
  function EncodeAs(plain: bool, size: nat, flags: nat, value: Bytes): (s: Bytes)
    requires 2 <= size <= 8 && flags < Pow2(8 - size)
    ensures |s| >= 1
  {
    if plain then EncodePlain(size, flags, value) else Encode(size, flags, value)
  }

  predicate EncodableAs(plain: bool, value: Bytes) {
    if plain then |value| < PrefixInt.PAYLOAD_LIMIT else Encodable(value)
  }

  function Decode(size: nat, s: Bytes): (r: Parsed<Bytes, Error>)
    requires 2 <= size <= 8
  {
    match PrefixInt.Decode(size - 1, s)
    case Err(e) => Err(FromInteger(e))
    case Ok(Flagged(flags, len), rest) =>
      if |rest| < len then Err(UnexpectedEnd)
      else if flags % 2 == 0 then Ok(rest[..len], rest[len..])
      else
        match Huffman.HpackDecode(rest[..len])
        case Success(value) => Ok(value, rest[len..])
        case Failure(e) => Err(HuffmanDecoding(e))
  }

  method EncodeInto(size: nat, flags: nat, value: Bytes, buf: Bytes) returns (out: Bytes)
    requires 2 <= size <= 8 && flags < Pow2(8 - size)
    ensures out == buf + Encode(size, flags, value)
  {
    hide PrefixInt.Encode, Huffman.HpackEncode, Pow2;
    var encoded := Huffman.HpackEncodeInto(value);
    HuffmanFlagFits(size, flags);
    out := PrefixInt.EncodeInto(size - 1, 2 * flags + 1, |encoded|, buf);
    ghost var start := out;
    for i := 0 to |encoded|
      invariant out == start + encoded[..i]
    {
      out := out + [encoded[i]];
      assert encoded[..i + 1] == encoded[..i] + [encoded[i]];
    }
    assert encoded[..|encoded|] == encoded;
  }

  method DecodeFrom(size: nat, buf: Bytes) returns (r: Parsed<Bytes, Error>)
    requires 2 <= size <= 8
    ensures r == Decode(size, buf)
  {
    hide PrefixInt.Decode, Huffman.HpackDecode;
    var head, _ := PrefixInt.DecodeFrom(size - 1, buf);
    match head {
      case Err(e) =>
        return Err(FromInteger(e));
      case Ok(Flagged(flags, len), rest) =>
        if |rest| < len {
          return Err(UnexpectedEnd);
        }
        var payload := rest[..len];
        if flags % 2 == 0 {
          return Ok(payload, rest[len..]);
        }
        var decoded := Huffman.HpackDecodeFrom(payload);
        match decoded {
          case Success(value) => return Ok(value, rest[len..]);
          case Failure(e) => return Err(HuffmanDecoding(e));
        }
    }
  }

  /** Decoding inverts encoding and leaves the following bytes untouched. */
  lemma RoundTrip(size: nat, flags: nat, value: Bytes, rest: Bytes)
    requires 2 <= size <= 8 && flags < Pow2(8 - size) && Encodable(value)
    ensures Decode(size, Encode(size, flags, value) + rest) == Ok(value, rest)
  {
    hide PrefixInt.Encode, PrefixInt.Decode, Huffman.HpackEncode, Huffman.HpackDecode, Pow2;
    var encoded := Huffman.HpackEncode(value);
    HuffmanFlagFits(size, flags);
    var head := PrefixInt.Encode(size - 1, 2 * flags + 1, |encoded|);
    PrefixInt.RoundTrip(size - 1, 2 * flags + 1, |encoded|, encoded + rest);
    assert Encode(size, flags, value) + rest == head + (encoded + rest);
    assert (encoded + rest)[..|encoded|] == encoded && (encoded + rest)[|encoded|..] == rest;
    Huffman.HuffmanRoundTrip(value);
  }

  /** A plain literal is its octets. */
  lemma PlainRoundTrip(size: nat, flags: nat, value: Bytes, rest: Bytes)
    requires 2 <= size <= 8 && flags < Pow2(8 - size) && |value| < PrefixInt.PAYLOAD_LIMIT
    ensures Decode(size, EncodePlain(size, flags, value) + rest) == Ok(value, rest)
  {
    hide PrefixInt.Encode, PrefixInt.Decode, Huffman.HpackDecode, Pow2;
    HuffmanFlagFits(size, flags);
    var head := PrefixInt.Encode(size - 1, 2 * flags, |value|);
    PrefixInt.RoundTrip(size - 1, 2 * flags, |value|, value + rest);
    assert EncodePlain(size, flags, value) + rest == head + (value + rest);
    assert (value + rest)[..|value|] == value && (value + rest)[|value|..] == rest;
  }

  /** The two forms of a string decode to the same. */
  lemma RoundTripAs(plain: bool, size: nat, flags: nat, value: Bytes, rest: Bytes)
    requires 2 <= size <= 8 && flags < Pow2(8 - size) && EncodableAs(plain, value)
    ensures Decode(size, EncodeAs(plain, size, flags, value) + rest) == Ok(value, rest)
  {
    hide Decode, EncodePlain, Encode, Pow2;
    if plain {
      PlainRoundTrip(size, flags, value, rest);
    } else {
      RoundTrip(size, flags, value, rest);
    }
  }

  /** The flags, and the form, decide the range of the first octet. */
  lemma FirstOctet(plain: bool, size: nat, flags: nat, value: Bytes)
    requires 2 <= size <= 8 && flags < Pow2(8 - size)
    ensures var low := Shl(if plain then 2 * flags else 2 * flags + 1, size - 1);
            low <= EncodeAs(plain, size, flags, value)[0] < low + Pow2(size - 1)
  {
    hide PrefixInt.Encode, Huffman.HpackEncode, Pow2, Shl;
    HuffmanFlagFits(size, flags);
    if plain {
      PrefixInt.FirstByte(size - 1, 2 * flags, |value|);
    } else {
      PrefixInt.FirstByte(size - 1, 2 * flags + 1, |Huffman.HpackEncode(value)|);
    }
  }

  /** Every strict prefix of an encoded string asks for more input. */
  lemma StrictPrefix(size: nat, flags: nat, value: Bytes, k: nat)
    requires 2 <= size <= 8 && flags < Pow2(8 - size) && Encodable(value)
    requires k < |Encode(size, flags, value)|
    ensures Decode(size, Encode(size, flags, value)[..k]) == Err(UnexpectedEnd)
  {
    hide PrefixInt.Encode, PrefixInt.Decode, Huffman.HpackEncode, Huffman.HpackDecode, Pow2;
    var encoded := Huffman.HpackEncode(value);
    HuffmanFlagFits(size, flags);
    var head := PrefixInt.Encode(size - 1, 2 * flags + 1, |encoded|);
    var s := Encode(size, flags, value);
    if k < |head| {
      assert s[..k] == head[..k];
      PrefixInt.StrictPrefix(size - 1, 2 * flags + 1, |encoded|, k);
    } else {
      var tail := encoded[..k - |head|];
      assert s[..k] == head + tail;
      PrefixInt.RoundTrip(size - 1, 2 * flags + 1, |encoded|, tail);
    }
  }

  lemma PlainStrictPrefix(size: nat, flags: nat, value: Bytes, k: nat)
    requires 2 <= size <= 8 && flags < Pow2(8 - size) && |value| < PrefixInt.PAYLOAD_LIMIT
    requires k < |EncodePlain(size, flags, value)|
    ensures Decode(size, EncodePlain(size, flags, value)[..k]) == Err(UnexpectedEnd)
  {
    hide PrefixInt.Encode, PrefixInt.Decode, Huffman.HpackDecode, Pow2;
    HuffmanFlagFits(size, flags);
    var head := PrefixInt.Encode(size - 1, 2 * flags, |value|);
    var s := EncodePlain(size, flags, value);
    if k < |head| {
      assert s[..k] == head[..k];
      PrefixInt.StrictPrefix(size - 1, 2 * flags, |value|, k);
    } else {
      var tail := value[..k - |head|];
      assert s[..k] == head + tail;
      PrefixInt.RoundTrip(size - 1, 2 * flags, |value|, tail);
    }
  }

  lemma StrictPrefixAs(plain: bool, size: nat, flags: nat, value: Bytes, k: nat)
    requires 2 <= size <= 8 && flags < Pow2(8 - size) && EncodableAs(plain, value)
    requires k < |EncodeAs(plain, size, flags, value)|
    ensures Decode(size, EncodeAs(plain, size, flags, value)[..k]) == Err(UnexpectedEnd)
  {
    hide Decode, EncodePlain, Encode, Pow2;
    if plain {
      PlainStrictPrefix(size, flags, value, k);
    } else {
      StrictPrefix(size, flags, value, k);
    }
  }

  /** A string that decodes leaves a strictly shorter suffix of its input unread. */
  lemma DecodeSuffix(size: nat, s: Bytes)
    requires 2 <= size <= 8
    ensures var r := Decode(size, s);
            r.Ok? ==> |r.rest| < |s| && r.rest == s[|s| - |r.rest|..]
  {
    hide PrefixInt.Sums, PrefixInt.OctetsRead, PrefixInt.Decode, Huffman.HpackDecode;
    PrefixInt.DecodeBounds(size - 1, s);
    match PrefixInt.Decode(size - 1, s)
    case Ok(Flagged(_, len), rest) =>
      if len <= |rest| {
        assert rest[len..] == s[|s| - |rest| + len..];
      }
    case Err(_) =>
  }
}
