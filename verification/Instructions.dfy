/** Encoder and decoder stream instructions (h3/src/qpack/stream.rs), sections 4.3 and 4.4 of RFC 9204. */
module Instructions {
  import opened Octets
  import opened FieldLines
  import PrefixInt
  import PrefixString
  import Huffman

  datatype EncoderInstruction =
    | SizeUpdate(size: nat)
    | InsertStaticName(index: nat, value: Bytes)
    | InsertDynamicName(index: nat, value: Bytes)
    | InsertLiteralName(name: Bytes, value: Bytes)
    | Duplicate(index: nat)

  datatype DecoderInstruction =
    | InsertCountIncrement(increment: nat)
    | HeaderAck(streamId: nat)
    | StreamCancel(streamId: nat)

  /** The largest increment the parser accepts. */
  const MAX_INCREMENT := 64

  /** Parsing the front of a stream: more bytes are needed, an instruction and the rest, or an error. */
  datatype Step<+T> = Incomplete | Parsed(value: T, rest: Bytes) | Failed(error: ParseError)

  function FromInteger<T>(e: PrefixInt.Error): (r: Step<T>) {
    if e == PrefixInt.UnexpectedEnd then Incomplete else Failed(Integer(e))
  }

  function FromString<T>(e: PrefixString.Error): (r: Step<T>) {
    if e == PrefixString.UnexpectedEnd then Incomplete else Failed(String(e))
  }

  // --------------------------------------------------------- encoder stream

  /** An instruction whose strings are written in either form. */
  function EncodeInstructionAs(i: EncoderInstruction, w: Style): (s: Bytes)
    ensures |s| >= 1
  {
    hide PrefixString.EncodeAs, PrefixInt.Encode;
    match i
    case SizeUpdate(size) => PrefixInt.Encode(5, 0x1, size)
    case InsertStaticName(index, value) =>
      PrefixInt.Encode(6, 0x3, index) + PrefixString.EncodeAs(w.plainValue, 8, 0, value)
    case InsertDynamicName(index, value) =>
      PrefixInt.Encode(6, 0x2, index) + PrefixString.EncodeAs(w.plainValue, 8, 0, value)
    case InsertLiteralName(name, value) =>
      PrefixString.EncodeAs(w.plainName, 6, 0x1, name) + PrefixString.EncodeAs(w.plainValue, 8, 0, value)
    case Duplicate(index) => PrefixInt.Encode(5, 0x0, index)
  }

  function EncodeInstruction(i: EncoderInstruction): (s: Bytes)
    ensures |s| >= 1
  {
    EncodeInstructionAs(i, OWN)
  }

  function ParseNameRef(s: Bytes): (r: Step<EncoderInstruction>) {
    match PrefixInt.Decode(6, s)
    case Err(e) => FromInteger(e)
    case Ok(Flagged(flags, index), rest) =>
      if flags / 2 % 2 != 1 then Failed(InvalidPrefix(flags)) else
      match PrefixString.Decode(8, rest)
      case Err(e) => FromString(e)
      case Ok(value, rest') =>
        Parsed(if flags % 2 == 1 then InsertStaticName(index, value) else InsertDynamicName(index, value), rest')
  }

  function ParseLiteralName(s: Bytes): (r: Step<EncoderInstruction>) {
    match PrefixString.Decode(6, s)
    case Err(e) => FromString(e)
    case Ok(name, rest) =>
      match PrefixString.Decode(8, rest)
      case Err(e) => FromString(e)
      case Ok(value, rest') => Parsed(InsertLiteralName(name, value), rest')
  }

  function ParseShort(flags: nat, s: Bytes): (r: Step<EncoderInstruction>) {
    match PrefixInt.Decode(5, s)
    case Err(e) => FromInteger(e)
    case Ok(Flagged(f, x), rest) =>
      if f != flags then Failed(InvalidPrefix(f))
      else Parsed(if flags == 0x0 then Duplicate(x) else SizeUpdate(x), rest)
  }

  function ParseInstruction(s: Bytes): (r: Step<EncoderInstruction>) {
    if s == [] then Incomplete
    else if s[0] >= 0x80 then ParseNameRef(s)
    else if s[0] >= 0x40 then ParseLiteralName(s)
    else if s[0] / 0x20 == 0 then ParseShort(0x0, s)
    else ParseShort(0x1, s)
  }

  predicate EncodableInstructionAs(i: EncoderInstruction, w: Style) {
    match i
    case SizeUpdate(size) => size < PrefixInt.PAYLOAD_LIMIT
    case InsertStaticName(index, value) =>
      index < PrefixInt.PAYLOAD_LIMIT && PrefixString.EncodableAs(w.plainValue, value)
    case InsertDynamicName(index, value) =>
      index < PrefixInt.PAYLOAD_LIMIT && PrefixString.EncodableAs(w.plainValue, value)
    case InsertLiteralName(name, value) =>
      PrefixString.EncodableAs(w.plainName, name) && PrefixString.EncodableAs(w.plainValue, value)
    case Duplicate(index) => index < PrefixInt.PAYLOAD_LIMIT
  }

  predicate EncodableInstruction(i: EncoderInstruction) {
    EncodableInstructionAs(i, OWN)
  }

  /** The first octet of a name, in either form. */
  lemma NameOctet(plain: bool, name: Bytes)
    ensures 0x40 <= PrefixString.EncodeAs(plain, 6, 0x1, name)[0] < 0x80
  {
    hide PrefixString.EncodeAs;
    PrefixString.FirstOctet(plain, 6, 0x1, name);
    hide Shl;
    ShlByte(1);
    ShlByte(2);
    ShlByte(3);
  }

  lemma LiteralNameRoundTrip(name: Bytes, value: Bytes, w: Style, rest: Bytes)
    requires PrefixString.EncodableAs(w.plainName, name) && PrefixString.EncodableAs(w.plainValue, value)
    ensures var s := PrefixString.EncodeAs(w.plainName, 6, 0x1, name)
                     + PrefixString.EncodeAs(w.plainValue, 8, 0, value) + rest;
            ParseInstruction(s) == Parsed(InsertLiteralName(name, value), rest)
  {
    hide PrefixInt.Encode, PrefixString.Decode, PrefixString.EncodeAs, PrefixString.EncodableAs;
    var v := PrefixString.EncodeAs(w.plainValue, 8, 0, value);
    var n := PrefixString.EncodeAs(w.plainName, 6, 0x1, name);
    PrefixString.RoundTripAs(w.plainName, 6, 0x1, name, v + rest);
    PrefixString.RoundTripAs(w.plainValue, 8, 0, value, rest);
    assert n + (v + rest) == n + v + rest;
    NameOctet(w.plainName, name);
  }

  lemma NameRefParses(s: Bytes, flags: nat, index: nat, value: Bytes, rest: Bytes)
    requires s != [] && s[0] >= 0x80 && (flags == 0x2 || flags == 0x3)
    requires var d := PrefixInt.Decode(6, s);
             d.Ok? && d.value == PrefixInt.Flagged(flags, index) && PrefixString.Decode(8, d.rest) == Ok(value, rest)
    ensures ParseInstruction(s)
         == Parsed(if flags == 0x3 then InsertStaticName(index, value) else InsertDynamicName(index, value), rest)
  {
    hide PrefixInt.Decode, PrefixString.Decode, ParseLiteralName, ParseShort;
  }

  lemma NameRefInstruction(flags: nat, index: nat, value: Bytes, w: Style, rest: Bytes)
    requires (flags == 0x2 || flags == 0x3) && flags < Pow2(8 - 6)
    requires index < PrefixInt.PAYLOAD_LIMIT && PrefixString.EncodableAs(w.plainValue, value)
    ensures ParseInstruction(PrefixInt.Encode(6, flags, index) + PrefixString.EncodeAs(w.plainValue, 8, 0, value) + rest)
         == Parsed(if flags == 0x3 then InsertStaticName(index, value) else InsertDynamicName(index, value), rest)
  {
    hide PrefixInt.Encode, PrefixInt.Decode, PrefixString.EncodeAs, PrefixString.Decode, Shl, PrefixString.EncodableAs;
    hide ParseInstruction;
    ShlByte(flags);
    ShlByte(1);
    NameRefRoundTrip(w.plainValue, 6, flags, index, value, rest);
    NameRefParses(PrefixInt.Encode(6, flags, index) + PrefixString.EncodeAs(w.plainValue, 8, 0, value) + rest,
                  flags, index, value, rest);
  }

  /** Every encoder instruction parses back to itself, whatever follows it on the stream, and whether its
      strings are plain or Huffman-coded. */
  lemma InstructionRoundTripAs(i: EncoderInstruction, w: Style, rest: Bytes)
    requires EncodableInstructionAs(i, w)
    ensures ParseInstruction(EncodeInstructionAs(i, w) + rest) == Parsed(i, rest)
  {
    hide PrefixInt.Encode, PrefixInt.Decode, PrefixString.EncodeAs, PrefixString.Decode, Shl, ParseNameRef;
    hide PrefixString.EncodableAs;
    ShlByte(0);
    ShlByte(1);
    match i
    case SizeUpdate(size) => IntegerHead(5, 0x1, size, rest);
    case InsertStaticName(index, value) => NameRefInstruction(0x3, index, value, w, rest);
    case InsertDynamicName(index, value) => NameRefInstruction(0x2, index, value, w, rest);
    case InsertLiteralName(name, value) => LiteralNameRoundTrip(name, value, w, rest);
    case Duplicate(index) => IntegerHead(5, 0x0, index, rest);
  }

  /** So does every instruction as this encoder writes it. */
  lemma InstructionRoundTrip(i: EncoderInstruction, rest: Bytes)
    requires EncodableInstruction(i)
    ensures ParseInstruction(EncodeInstruction(i) + rest) == Parsed(i, rest)
  {
    hide EncodeInstructionAs, EncodableInstructionAs, ParseInstruction;
    InstructionRoundTripAs(i, OWN, rest);
  }

  lemma IntegerPrefix(size: nat, flags: nat, x: nat, k: nat)
    requires 1 <= size <= 8 && flags < Pow2(8 - size) && x < PrefixInt.PAYLOAD_LIMIT
    requires 0 < k < |PrefixInt.Encode(size, flags, x)|
    ensures var p := PrefixInt.Encode(size, flags, x)[..k];
            && PrefixInt.Decode(size, p) == Err(PrefixInt.UnexpectedEnd)
            && Shl(flags, size) <= p[0] < Shl(flags, size) + Pow2(size)
  {
    hide PrefixInt.Encode, PrefixInt.Decode, Shl;
    PrefixInt.StrictPrefix(size, flags, x, k);
    PrefixInt.FirstByte(size, flags, x);
  }

  /** Where a name reference is cut off: inside its index, or inside its value. */
  lemma NameRefCut(s: Bytes)
    requires s != [] && s[0] >= 0x80
    requires || PrefixInt.Decode(6, s) == Err(PrefixInt.UnexpectedEnd)
             || (var d := PrefixInt.Decode(6, s);
                 d.Ok? && d.value.flags / 2 % 2 == 1 && PrefixString.Decode(8, d.rest) == Err(PrefixString.UnexpectedEnd))
    ensures ParseInstruction(s) == Incomplete
  {
    hide PrefixInt.Decode, PrefixString.Decode, ParseLiteralName, ParseShort;
  }

  lemma NameRefPrefix(flags: nat, index: nat, value: Bytes, w: Style, k: nat)
    requires (flags == 0x2 || flags == 0x3) && flags < Pow2(8 - 6)
    requires index < PrefixInt.PAYLOAD_LIMIT && PrefixString.EncodableAs(w.plainValue, value)
    requires k < |PrefixInt.Encode(6, flags, index) + PrefixString.EncodeAs(w.plainValue, 8, 0, value)|
    ensures ParseInstruction((PrefixInt.Encode(6, flags, index) + PrefixString.EncodeAs(w.plainValue, 8, 0, value))[..k])
         == Incomplete
  {
    hide PrefixInt.Encode, PrefixInt.Decode, PrefixString.EncodeAs, PrefixString.Decode, Shl, PrefixString.EncodableAs;
    hide ParseLiteralName, ParseShort, ParseNameRef;
    ShlByte(flags);
    ShlByte(1);
    var (n, v) := (PrefixInt.Encode(6, flags, index), PrefixString.EncodeAs(w.plainValue, 8, 0, value));
    if k == 0 {
    } else if k < |n| {
      assert (n + v)[..k] == n[..k];
      IntegerPrefix(6, flags, index, k);
      NameRefCut(n[..k]);
    } else {
      assert (n + v)[..k] == n + v[..k - |n|];
      IntegerHead(6, flags, index, v[..k - |n|]);
      PrefixString.StrictPrefixAs(w.plainValue, 8, 0, value, k - |n|);
      NameRefCut(n + v[..k - |n|]);
    }
  }

  lemma LiteralNamePrefix(name: Bytes, value: Bytes, w: Style, k: nat)
    requires PrefixString.EncodableAs(w.plainName, name) && PrefixString.EncodableAs(w.plainValue, value)
    requires k < |PrefixString.EncodeAs(w.plainName, 6, 0x1, name) + PrefixString.EncodeAs(w.plainValue, 8, 0, value)|
    ensures var (n, v) := (PrefixString.EncodeAs(w.plainName, 6, 0x1, name),
                           PrefixString.EncodeAs(w.plainValue, 8, 0, value));
            ParseInstruction((n + v)[..k]) == Incomplete
  {
    hide PrefixInt.Encode, PrefixString.Decode, PrefixString.EncodeAs, PrefixString.EncodableAs;
    var (n, v) := (PrefixString.EncodeAs(w.plainName, 6, 0x1, name), PrefixString.EncodeAs(w.plainValue, 8, 0, value));
    NameOctet(w.plainName, name);
    if k == 0 {
    } else if k < |n| {
      assert (n + v)[..k] == n[..k];
      PrefixString.StrictPrefixAs(w.plainName, 6, 0x1, name, k);
    } else {
      assert (n + v)[..k] == n + v[..k - |n|];
      PrefixString.RoundTripAs(w.plainName, 6, 0x1, name, v[..k - |n|]);
      PrefixString.StrictPrefixAs(w.plainValue, 8, 0, value, k - |n|);
    }
  }

  /** A strict prefix of an encoder instruction, in whatever form, is never parsed as anything. */
  lemma InstructionPrefixAs(i: EncoderInstruction, w: Style, k: nat)
    requires EncodableInstructionAs(i, w) && k < |EncodeInstructionAs(i, w)|
    ensures ParseInstruction(EncodeInstructionAs(i, w)[..k]) == Incomplete
  {
    hide PrefixInt.Encode, PrefixInt.Decode, PrefixString.EncodeAs, PrefixString.Decode, Shl, PrefixString.EncodableAs;
    if k > 0 {
      ShlByte(0);
      ShlByte(1);
      match i
      case SizeUpdate(size) => IntegerPrefix(5, 0x1, size, k);
      case InsertStaticName(index, value) => NameRefPrefix(0x3, index, value, w, k);
      case InsertDynamicName(index, value) => NameRefPrefix(0x2, index, value, w, k);
      case InsertLiteralName(name, value) => LiteralNamePrefix(name, value, w, k);
      case Duplicate(index) => IntegerPrefix(5, 0x0, index, k);
    }
  }

  lemma InstructionPrefix(i: EncoderInstruction, k: nat)
    requires EncodableInstruction(i) && k < |EncodeInstruction(i)|
    ensures ParseInstruction(EncodeInstruction(i)[..k]) == Incomplete
  {
    hide EncodeInstructionAs, EncodableInstructionAs, ParseInstruction;
    InstructionPrefixAs(i, OWN, k);
  }

  /** A parsed instruction leaves a strictly shorter suffix of the stream unread. */
  lemma ParseSuffix(s: Bytes)
    ensures ParseInstruction(s).Parsed? ==> |ParseInstruction(s).rest| < |s|
  {
    hide PrefixInt.Sums, PrefixInt.OctetsRead, PrefixInt.Decode, PrefixString.Decode;
    PrefixInt.DecodeBounds(6, s);
    PrefixInt.DecodeBounds(5, s);
    PrefixString.DecodeSuffix(6, s);
    if PrefixInt.Decode(6, s).Ok? {
      PrefixString.DecodeSuffix(8, PrefixInt.Decode(6, s).rest);
    }
    if PrefixString.Decode(6, s).Ok? {
      PrefixString.DecodeSuffix(8, PrefixString.Decode(6, s).rest);
    }
  }

  // --------------------------------------------------------- decoder stream

  function EncodeDecoderInstruction(i: DecoderInstruction): (s: Bytes)
    ensures |s| >= 1
  {
    match i
    case InsertCountIncrement(n) => PrefixInt.Encode(6, 0x0, n)
    case HeaderAck(id) => PrefixInt.Encode(7, 0x1, id)
    case StreamCancel(id) => PrefixInt.Encode(6, 0x1, id)
  }

  function ParseDecoderInstruction(s: Bytes): (r: Step<DecoderInstruction>) {
    if s == [] then Incomplete
    else if s[0] / 0x40 == 0 then
      match PrefixInt.Decode(6, s)
      case Err(e) => FromInteger(e)
      case Ok(Flagged(flags, n), rest) =>
        if flags != 0x0 then Failed(InvalidPrefix(flags))
        else if n > MAX_INCREMENT then Failed(Integer(PrefixInt.Overflow))
        else Parsed(InsertCountIncrement(n), rest)
    else if s[0] >= 0x80 then
      match PrefixInt.Decode(7, s)
      case Err(e) => FromInteger(e)
      case Ok(Flagged(flags, id), rest) =>
        if flags == 0x1 then Parsed(HeaderAck(id), rest) else Failed(InvalidPrefix(flags))
    else
      match PrefixInt.Decode(6, s)
      case Err(e) => FromInteger(e)
      case Ok(Flagged(flags, id), rest) =>
        if flags == 0x1 then Parsed(StreamCancel(id), rest) else Failed(InvalidPrefix(flags))
  }

  /** A parsed decoder instruction leaves a strictly shorter suffix of the stream unread. */
  lemma ParseDecoderSuffix(s: Bytes)
    ensures ParseDecoderInstruction(s).Parsed? ==> |ParseDecoderInstruction(s).rest| < |s|
  {
    hide PrefixInt.Sums, PrefixInt.OctetsRead, PrefixInt.Decode;
    PrefixInt.DecodeBounds(6, s);
    PrefixInt.DecodeBounds(7, s);
  }

  function Argument(i: DecoderInstruction): nat {
    match i
    case InsertCountIncrement(n) => n
    case HeaderAck(id) => id
    case StreamCancel(id) => id
  }

  /** A decoder instruction parses back to itself, except for increments above the parser's limit:
      those are refused, although the decoder emits increments of up to 255. */
  lemma DecoderInstructionRoundTrip(i: DecoderInstruction, rest: Bytes)
    requires Argument(i) < PrefixInt.PAYLOAD_LIMIT
    ensures ParseDecoderInstruction(EncodeDecoderInstruction(i) + rest) == Parsed(i, rest)
            <==> (i.InsertCountIncrement? ==> i.increment <= MAX_INCREMENT)
    ensures i.InsertCountIncrement? && i.increment > MAX_INCREMENT ==>
            ParseDecoderInstruction(EncodeDecoderInstruction(i) + rest) == Failed(Integer(PrefixInt.Overflow))
  {
    hide PrefixInt.Encode, PrefixInt.Decode, Shl;
    ShlByte(0);
    ShlByte(1);
    match i
    case InsertCountIncrement(n) => IntegerHead(6, 0x0, n, rest);
    case HeaderAck(id) => IntegerHead(7, 0x1, id, rest);
    case StreamCancel(id) => IntegerHead(6, 0x1, id, rest);
  }
}
