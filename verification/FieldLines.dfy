/** Field line representations (h3/src/qpack/block.rs), section 4.5 of RFC 9204. */
module FieldLines {
  import opened Octets
  import PrefixInt
  import PrefixString
  import Huffman

  datatype FieldLine =
    | IndexedStatic(index: nat)
    | IndexedDynamic(index: nat)
    | IndexedPostBase(index: nat)
    | LiteralStaticName(index: nat, value: Bytes)
    | LiteralDynamicName(index: nat, value: Bytes)
    | LiteralPostBaseName(index: nat, value: Bytes)
    | Literal(name: Bytes, value: Bytes)

  datatype ParseError =
    | Integer(integer: PrefixInt.Error)
    | String(text: PrefixString.Error)
    | InvalidPrefix(flags: nat)

  /** Which representation the first byte announces. */
  datatype Kind = Indexed | IndexedWithPostBase | LiteralWithNameRef | LiteralWithPostBaseNameRef | LiteralName | Unknown

  function Classify(first: byte): Kind {
    if first >= 0x80 then Indexed
    else if first / 0x10 == 0x1 then IndexedWithPostBase
    else if first / 0x40 == 0x1 then LiteralWithNameRef
    else if first / 0x10 == 0x0 then LiteralWithPostBaseNameRef
    else if first / 0x20 == 0x1 then LiteralName
    else Unknown
  }

  /** How a line may be written: its strings in either form, and literals marked never to be indexed. */
  datatype Style = Style(never: bool, plainName: bool, plainValue: bool) {
    function Never(): (bit: nat)
      ensures bit <= 1
    {
      if never then 1 else 0
    }
  }

  /** How this encoder writes every line. */
  const OWN := Style(false, false, false)

  function EncodeAs(line: FieldLine, w: Style): (s: Bytes)
    ensures |s| >= 1
  {
    hide PrefixString.EncodeAs, PrefixInt.Encode;
    match line
    case IndexedStatic(i) => PrefixInt.Encode(6, 0x3, i)
    case IndexedDynamic(i) => PrefixInt.Encode(6, 0x2, i)
    case IndexedPostBase(i) => PrefixInt.Encode(4, 0x1, i)
    case LiteralStaticName(i, value) =>
      PrefixInt.Encode(4, 0x5 + 2 * w.Never(), i) + PrefixString.EncodeAs(w.plainValue, 8, 0, value)
    case LiteralDynamicName(i, value) =>
      PrefixInt.Encode(4, 0x4 + 2 * w.Never(), i) + PrefixString.EncodeAs(w.plainValue, 8, 0, value)
    case LiteralPostBaseName(i, value) =>
      PrefixInt.Encode(3, 0x0 + w.Never(), i) + PrefixString.EncodeAs(w.plainValue, 8, 0, value)
    case Literal(name, value) =>
      NameAs(name, w) + PrefixString.EncodeAs(w.plainValue, 8, 0, value)
  }

  /** The name of a literal, with the mark in front of its form. */
  function NameAs(name: Bytes, w: Style): (s: Bytes)
    ensures |s| >= 1
  {
    PrefixString.EncodeAs(w.plainName, 4, 0x2 + w.Never(), name)
  }

  function Encode(line: FieldLine): (s: Bytes)
    ensures |s| >= 1
  {
    EncodeAs(line, OWN)
  }

  function WithValue(s: Bytes, line: Bytes -> FieldLine): (r: Parsed<FieldLine, ParseError>) {
    match PrefixString.Decode(8, s)
    case Err(e) => Err(String(e))
    case Ok(value, rest) => Ok(line(value), rest)
  }

  function DecodeIndexed(s: Bytes): (r: Parsed<FieldLine, ParseError>) {
    match PrefixInt.Decode(6, s)
    case Err(e) => Err(Integer(e))
    case Ok(Flagged(flags, i), rest) =>
      if flags == 0x3 then Ok(IndexedStatic(i), rest)
      else if flags == 0x2 then Ok(IndexedDynamic(i), rest)
      else Err(InvalidPrefix(flags))
  }

  function DecodePostBase(s: Bytes): (r: Parsed<FieldLine, ParseError>)
    ensures r.Ok? ==> r.value.IndexedPostBase?
  {
    match PrefixInt.Decode(4, s)
    case Err(e) => Err(Integer(e))
    case Ok(Flagged(flags, i), rest) =>
      if flags == 0x1 then Ok(IndexedPostBase(i), rest) else Err(InvalidPrefix(flags))
  }

  function DecodeLiteralNameRef(s: Bytes): (r: Parsed<FieldLine, ParseError>) {
    match PrefixInt.Decode(4, s)
    case Err(e) => Err(Integer(e))
    case Ok(Flagged(flags, i), rest) =>
      if flags % 2 == 1 && flags / 4 % 2 == 1 then WithValue(rest, v => LiteralStaticName(i, v))
      else if flags % 2 == 0 && flags / 4 % 2 == 1 then WithValue(rest, v => LiteralDynamicName(i, v))
      else Err(InvalidPrefix(flags))
  }

  function DecodeLiteralPostBase(s: Bytes): (r: Parsed<FieldLine, ParseError>)
    ensures r.Ok? ==> r.value.LiteralPostBaseName?
  {
    match PrefixInt.Decode(3, s)
    case Err(e) => Err(Integer(e))
    case Ok(Flagged(flags, i), rest) =>
      if flags / 16 == 0 then WithValue(rest, v => LiteralPostBaseName(i, v)) else Err(InvalidPrefix(flags))
  }

  function DecodeLiteral(s: Bytes): (r: Parsed<FieldLine, ParseError>) {
    if s == [] then Err(Integer(PrefixInt.UnexpectedEnd))
    else if s[0] / 0x20 != 0x1 then Err(InvalidPrefix(s[0]))
    else
      match PrefixString.Decode(4, s)
      case Err(e) => Err(String(e))
      case Ok(name, rest) => WithValue(rest, v => Literal(name, v))
  }

  /** The next field line of a block. */
  function Decode(s: Bytes): (r: Parsed<FieldLine, ParseError>)
    requires s != []
  {
    match Classify(s[0])
    case Indexed => DecodeIndexed(s)
    case IndexedWithPostBase => DecodePostBase(s)
    case LiteralWithNameRef => DecodeLiteralNameRef(s)
    case LiteralWithPostBaseNameRef => DecodeLiteralPostBase(s)
    case LiteralName => DecodeLiteral(s)
    case Unknown => Err(InvalidPrefix(s[0]))
  }

  /** Indexes and string lengths that a prefix integer can carry. */
  predicate EncodableAs(line: FieldLine, w: Style) {
    match line
    case IndexedStatic(i) => i < PrefixInt.PAYLOAD_LIMIT
    case IndexedDynamic(i) => i < PrefixInt.PAYLOAD_LIMIT
    case IndexedPostBase(i) => i < PrefixInt.PAYLOAD_LIMIT
    case LiteralStaticName(i, value) => i < PrefixInt.PAYLOAD_LIMIT && PrefixString.EncodableAs(w.plainValue, value)
    case LiteralDynamicName(i, value) => i < PrefixInt.PAYLOAD_LIMIT && PrefixString.EncodableAs(w.plainValue, value)
    case LiteralPostBaseName(i, value) => i < PrefixInt.PAYLOAD_LIMIT && PrefixString.EncodableAs(w.plainValue, value)
    case Literal(name, value) =>
      PrefixString.EncodableAs(w.plainName, name) && PrefixString.EncodableAs(w.plainValue, value)
  }

  predicate Encodable(line: FieldLine) {
    EncodableAs(line, OWN)
  }

  lemma IntegerHead(size: nat, flags: nat, i: nat, rest: Bytes)
    requires 1 <= size <= 8 && flags < Pow2(8 - size) && i < PrefixInt.PAYLOAD_LIMIT
    ensures var s := PrefixInt.Encode(size, flags, i) + rest;
            && PrefixInt.Decode(size, s) == Ok(PrefixInt.Flagged(flags, i), rest)
            && Shl(flags, size) <= s[0] < Shl(flags, size) + Pow2(size)
  {
    hide PrefixInt.Encode, PrefixInt.Decode, Shl;
    PrefixInt.RoundTrip(size, flags, i, rest);
    PrefixInt.FirstByte(size, flags, i);
  }

  lemma NameRefRoundTrip(plain: bool, size: nat, flags: nat, i: nat, value: Bytes, rest: Bytes)
    requires 1 <= size <= 8 && flags < Pow2(8 - size)
    requires i < PrefixInt.PAYLOAD_LIMIT && PrefixString.EncodableAs(plain, value)
    ensures var v := PrefixString.EncodeAs(plain, 8, 0, value);
            var s := PrefixInt.Encode(size, flags, i) + v + rest;
            && PrefixInt.Decode(size, s) == Ok(PrefixInt.Flagged(flags, i), v + rest)
            && PrefixString.Decode(8, v + rest) == Ok(value, rest)
            && Shl(flags, size) <= s[0] < Shl(flags, size) + Pow2(size)
  {
    hide PrefixInt.Encode, PrefixInt.Decode, Shl, PrefixString.EncodeAs, PrefixString.Decode, PrefixString.EncodableAs;
    var v := PrefixString.EncodeAs(plain, 8, 0, value);
    IntegerHead(size, flags, i, v + rest);
    assert PrefixInt.Encode(size, flags, i) + (v + rest) == PrefixInt.Encode(size, flags, i) + v + rest;
    PrefixString.RoundTripAs(plain, 8, 0, value, rest);
  }

  lemma LiteralOctet(name: Bytes, w: Style)
    ensures 0x20 <= NameAs(name, w)[0] < 0x40
  {
    hide PrefixString.EncodeAs;
    var flags := 0x2 + w.Never();
    PrefixString.FirstOctet(w.plainName, 4, flags, name);
    hide Shl;
    ShlByte(1);
    ShlByte(2 * flags);
    ShlByte(2 * flags + 1);
  }

  lemma LiteralRoundTrip(name: Bytes, value: Bytes, w: Style, n: Bytes, v: Bytes, rest: Bytes)
    requires PrefixString.EncodableAs(w.plainName, name) && PrefixString.EncodableAs(w.plainValue, value)
    requires n == NameAs(name, w)
    requires v == PrefixString.EncodeAs(w.plainValue, 8, 0, value)
    ensures PrefixString.Decode(4, n + v + rest) == Ok(name, v + rest)
    ensures PrefixString.Decode(8, v + rest) == Ok(value, rest)
    ensures n != [] && 0x20 <= n[0] < 0x40
  {
    hide PrefixString.Decode, PrefixString.EncodeAs, PrefixString.EncodableAs;
    PrefixString.RoundTripAs(w.plainName, 4, 0x2 + w.Never(), name, v + rest);
    PrefixString.RoundTripAs(w.plainValue, 8, 0, value, rest);
    assert n + (v + rest) == n + v + rest;
    LiteralOctet(name, w);
  }

  /** Every representation parses back to itself, whatever follows it in the block, and however it is
      written: with its strings plain or Huffman-coded, and marked never to be indexed or not. */
  lemma RoundTripAs(line: FieldLine, w: Style, rest: Bytes)
    requires EncodableAs(line, w)
    ensures Decode(EncodeAs(line, w) + rest) == Ok(line, rest)
  {
    hide PrefixInt.Encode, PrefixInt.Decode, PrefixString.EncodeAs, PrefixString.Decode, PrefixString.EncodableAs;
    match line
    case IndexedStatic(i) => IntegerHead(6, 0x3, i, rest);
    case IndexedDynamic(i) => IntegerHead(6, 0x2, i, rest);
    case IndexedPostBase(i) => IntegerHead(4, 0x1, i, rest);
    case _ => RoundTripWithStrings(line, w, rest);
  }

  /** So does every line as this encoder writes it. */
  lemma RoundTrip(line: FieldLine, rest: Bytes)
    requires Encodable(line)
    ensures Decode(Encode(line) + rest) == Ok(line, rest)
  {
    hide EncodeAs, Decode, EncodableAs;
    RoundTripAs(line, OWN, rest);
  }

  lemma RoundTripWithStrings(line: FieldLine, w: Style, rest: Bytes)
    requires EncodableAs(line, w) && !line.IndexedStatic? && !line.IndexedDynamic? && !line.IndexedPostBase?
    ensures Decode(EncodeAs(line, w) + rest) == Ok(line, rest)
  {
    hide Classify, Decode, PrefixInt.Encode, PrefixString.EncodeAs, PrefixString.EncodableAs;
    match line
    case LiteralStaticName(i, value) => NameRefLine(0x5, i, value, w, rest);
    case LiteralDynamicName(i, value) => NameRefLine(0x4, i, value, w, rest);
    case LiteralPostBaseName(i, value) => PostBaseNameLine(i, value, w, rest);
    case Literal(name, value) => NamedLine(name, value, w, rest);
  }

  lemma NameRefLine(flags: nat, i: nat, value: Bytes, w: Style, rest: Bytes)
    requires flags == 0x4 || flags == 0x5
    requires i < PrefixInt.PAYLOAD_LIMIT && PrefixString.EncodableAs(w.plainValue, value)
    ensures Decode(PrefixInt.Encode(4, flags + 2 * w.Never(), i) + PrefixString.EncodeAs(w.plainValue, 8, 0, value) + rest)
         == Ok(if flags == 0x5 then LiteralStaticName(i, value) else LiteralDynamicName(i, value), rest)
  {
    hide PrefixInt.Encode, PrefixInt.Decode, PrefixString.EncodeAs, PrefixString.Decode, Shl, PrefixString.EncodableAs;
    hide DecodeIndexed, DecodePostBase, DecodeLiteralPostBase, DecodeLiteral;
    ShlByte(flags + 2 * w.Never());
    ShlByte(1);
    NameRefRoundTrip(w.plainValue, 4, flags + 2 * w.Never(), i, value, rest);
  }

  lemma PostBaseNameLine(i: nat, value: Bytes, w: Style, rest: Bytes)
    requires i < PrefixInt.PAYLOAD_LIMIT && PrefixString.EncodableAs(w.plainValue, value)
    ensures Decode(PrefixInt.Encode(3, 0x0 + w.Never(), i) + PrefixString.EncodeAs(w.plainValue, 8, 0, value) + rest)
         == Ok(LiteralPostBaseName(i, value), rest)
  {
    hide PrefixInt.Encode, PrefixInt.Decode, PrefixString.EncodeAs, PrefixString.Decode, Shl, PrefixString.EncodableAs;
    hide DecodeIndexed, DecodePostBase, DecodeLiteralNameRef, DecodeLiteral;
    ShlByte(w.Never());
    ShlByte(1);
    NameRefRoundTrip(w.plainValue, 3, w.Never(), i, value, rest);
  }

  lemma NamedLine(name: Bytes, value: Bytes, w: Style, rest: Bytes)
    requires PrefixString.EncodableAs(w.plainName, name) && PrefixString.EncodableAs(w.plainValue, value)
    ensures Decode(NameAs(name, w) + PrefixString.EncodeAs(w.plainValue, 8, 0, value) + rest)
         == Ok(Literal(name, value), rest)
  {
    hide PrefixInt.Encode, PrefixInt.Decode, PrefixString.EncodeAs, PrefixString.Decode, PrefixString.EncodableAs;
    hide DecodeIndexed, DecodePostBase, DecodeLiteralNameRef, DecodeLiteralPostBase;
    var n := NameAs(name, w);
    var v := PrefixString.EncodeAs(w.plainValue, 8, 0, value);
    LiteralRoundTrip(name, value, w, n, v, rest);
  }

  // --------------------------------------------------------- lines of any peer

  /** A line and how it is written. */
  datatype Written = Written(line: FieldLine, style: Style)

  ghost predicate AllWritable(ws: seq<Written>) {
    forall w :: w in ws ==> EncodableAs(w.line, w.style)
  }

  function EncodeWritten(ws: seq<Written>): (s: Bytes) {
    if ws == [] then [] else EncodeAs(ws[0].line, ws[0].style) + EncodeWritten(ws[1..])
  }

  /** A decoded line leaves a strictly shorter suffix of its input unread. */
  lemma DecodeSuffix(s: Bytes)
    requires s != []
    ensures Decode(s).Ok? ==> |Decode(s).rest| < |s|
  {
    hide PrefixInt.Sums, PrefixInt.OctetsRead, PrefixInt.Decode, PrefixString.Decode;
    PrefixInt.DecodeBounds(6, s);
    PrefixInt.DecodeBounds(4, s);
    PrefixInt.DecodeBounds(3, s);
    PrefixString.DecodeSuffix(4, s);
    if PrefixInt.Decode(4, s).Ok? {
      PrefixString.DecodeSuffix(8, PrefixInt.Decode(4, s).rest);
    }
    if PrefixInt.Decode(3, s).Ok? {
      PrefixString.DecodeSuffix(8, PrefixInt.Decode(3, s).rest);
    }
    if PrefixString.Decode(4, s).Ok? {
      PrefixString.DecodeSuffix(8, PrefixString.Decode(4, s).rest);
    }
  }
}
