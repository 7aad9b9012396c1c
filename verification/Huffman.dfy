/** The Huffman string codec (h3/src/qpack/prefix_string), section 5.2 of RFC 7541. */
module Huffman {
  import opened Octets
  import opened Bits
  import opened HuffmanTables
  import opened HuffmanAgreement

  /** A window of `count` bits that starts `bit` bits into octet `byte` (bitwin.rs). */
  datatype BitWindow = BitWindow(octet: nat, bit: nat, count: nat) {

    /** The window of `step` bits that follows this one. */
    function Forwards(step: nat): (w: BitWindow)
      ensures w.Start() == End() && w.count == step && w.bit < 8
    {
      BitWindow(octet + (bit + count) / 8, (bit + count) % 8, step)
    }

    /** The bits from the start of this window to the end of its octet. */
    function Opposite(): BitWindow {
      BitWindow(octet, bit, 8 - bit % 8)
    }

    function Start(): nat {
      8 * octet + bit
    }

    function End(): nat {
      Start() + count
    }
  }

  // ----------------------------------------------------------------- encoding

  function CodeBits(symbol: byte): (s: BitSeq) {
    LowBits(CodeOf(symbol).code, CodeOf(symbol).bits)
  }

  /** The code bits of a string, one symbol after the other. */
  function AllBits(value: Bytes): (s: BitSeq) {
    if value == [] then [] else CodeBits(value[0]) + AllBits(value[1..])
  }

  /** The octets whose bits are `s`, padded with ones to a whole number of octets. */
  function Pack(s: BitSeq): (b: Bytes)
    ensures |b| == (|s| + 7) / 8
    ensures Stream(b) == s + Ones(8 * |b| - |s|)
    decreases |s|
  {
    if s == [] then assert Ones(0) == []; []
    else if |s| <= 8 then
      var o := s + Ones(8 - |s|);
      assert Stream([FromBits(o)]) == ToBits(FromBits(o));
      [FromBits(o)]
    else
      assert s == s[..8] + s[8..];
      [FromBits(s[..8])] + Pack(s[8..])
  }

  /** The encoding of a string: its code bits, packed. */
  function HpackEncode(value: Bytes): (b: Bytes) {
    Pack(AllBits(value))
  }

  // The octets with the `n` low, or the `n` high, bits set.
  function PadRight(n: nat): (b: byte)
    requires n <= 8
  {
    match n case 0 => 0 case 1 => 1 case 2 => 3 case 3 => 7 case 4 => 15
            case 5 => 31 case 6 => 63 case 7 => 127 case _ => 255
  }

  function PadLeft(n: nat): (b: byte)
    requires n <= 8
  {
    match n case 0 => 0 case 1 => 128 case 2 => 192 case 3 => 224 case 4 => 240
            case 5 => 248 case 6 => 252 case 7 => 254 case _ => 255
  }

  function OneOctet(o: byte, bit: nat, count: nat, value: byte): (r: byte)
    requires 0 < count && bit + count <= 8
  {
    var padLeft := Or(o, PadRight(8 - bit));
    var shifted := Or(ShlOctet(value, 8 - bit - count), PadLeft(bit));
    Or(And(padLeft, shifted), PadRight(8 - count - bit))
  }

  function FirstOctet(o: byte, bit: nat, count: nat, value: byte): (r: byte)
    requires bit < 8 && count <= 8 && bit + count > 8
  {
    var split := 8 - bit;
    var padLeft := Or(o, PadRight(split));
    And(padLeft, Or(ShrOctet(value, count - split), PadLeft(bit)))
  }

  function SecondOctet(bit: nat, count: nat, value: byte): (r: byte)
    requires bit < 8 && count <= 8 && bit + count > 8
  {
    var rem := 8 - (count - (8 - bit));
    Or(ShlOctet(value, rem), PadRight(rem))
  }

  /** Write the low `pos.count` bits of `value` at `pos`, in one octet or across two. */
  function WriteBits(out: Bytes, pos: BitWindow, value: byte): (r: Bytes)
    requires pos.bit < 8 && 0 < pos.count <= 8 && pos.End() <= 8 * |out|
    ensures |r| == |out|
  {
    var o := out[pos.octet];
    if pos.bit + pos.count <= 8 then
      out[pos.octet := OneOctet(o, pos.bit, pos.count, value)]
    else
      out[pos.octet := FirstOctet(o, pos.bit, pos.count, value)]
         [pos.octet + 1 := SecondOctet(pos.bit, pos.count, value)]
  }

  lemma {:induction false} PadBits(n: nat)
    requires n <= 8
    ensures ToBits(PadRight(n)) == Zeros(8 - n) + Ones(n)
    ensures ToBits(PadLeft(n)) == Ones(n) + Zeros(8 - n)
  {
    hide PadRight, PadLeft;
    PadValues(n);
    LowOnes(n);
    HighOnes(n);
  }

  lemma {:induction false} LowOnes(n: nat)
    requires n <= 8
    ensures LowBits(Pow2(n) - 1, 8) == Zeros(8 - n) + Ones(n)
  {
    hide LowBits;
    ValueOnes(Ones(n));
    ValueLeadingZeros(8 - n, Ones(n));
    LowBitsValue(Zeros(8 - n) + Ones(n));
  }

  lemma {:induction false} HighOnes(n: nat)
    requires n <= 8
    ensures LowBits(Shl(Pow2(n) - 1, 8 - n), 8) == Ones(n) + Zeros(8 - n)
  {
    hide LowBits, Shl, Value, Ones, Zeros;
    ValueOnes(Ones(n));
    ValueConcat(Ones(n), Zeros(8 - n));
    ValueZeros(8 - n);
    LowBitsValue(Ones(n) + Zeros(8 - n));
  }

  lemma PadValues(n: nat)
    requires n <= 8
    ensures PadRight(n) == Pow2(n) - 1 && PadLeft(n) == Shl(Pow2(n) - 1, 8 - n)
  {
    ShlByte(1);
    ShlByte(Pow2(n) - 1);
  }

  lemma OneOctetBits(o: byte, bit: nat, count: nat, value: byte)
    requires 0 < count && bit + count <= 8 && value < Pow2(count)
    ensures ToBits(OneOctet(o, bit, count, value))
         == ToBits(o)[..bit] + LowBits(value, count) + Ones(8 - bit - count)
  {
    hide LowBits, PadRight, PadLeft;
    PadBits(8 - bit);
    PadBits(bit);
    PadBits(8 - count - bit);
    LowBitsDrop(value, 8 - count, count);
    var target := ToBits(o)[..bit] + LowBits(value, count) + Ones(8 - bit - count);
    var v := ShlOctet(value, 8 - bit - count);
    forall i | 0 <= i < 8
      ensures ToBits(OneOctet(o, bit, count, value))[i] == target[i]
    {
      assert bit <= i < bit + count ==> ToBits(v)[i] == ToBits(value)[i + 8 - bit - count];
    }
  }

  lemma FirstOctetBits(o: byte, bit: nat, count: nat, value: byte)
    requires bit < 8 && count <= 8 && bit + count > 8 && value < Pow2(count)
    ensures ToBits(FirstOctet(o, bit, count, value))
         == ToBits(o)[..bit] + LowBits(value, count)[..8 - bit]
  {
    hide LowBits, PadRight, PadLeft;
    PadBits(8 - bit);
    PadBits(bit);
    HighBitsClear(value, count);
    var v := ShrOctet(value, count - (8 - bit));
    forall i | 0 <= i < 8
      ensures ToBits(FirstOctet(o, bit, count, value))[i]
           == (ToBits(o)[..bit] + LowBits(value, count)[..8 - bit])[i]
    {
      assert bit <= i ==> ToBits(v)[i] == ToBits(value)[i - (count - (8 - bit))];
    }
  }

  lemma HighBitsClear(value: byte, count: nat)
    requires count <= 8 && value < Pow2(count)
    ensures ToBits(value) == Zeros(8 - count) + LowBits(value, count)
  {
    hide LowBits, Value;
    var s := LowBits(value, count);
    ValueLowBits(value, count);
    ValueLeadingZeros(8 - count, s);
    LowBitsValue(Zeros(8 - count) + s);
  }

  lemma SecondOctetBits(bit: nat, count: nat, value: byte)
    requires bit < 8 && count <= 8 && bit + count > 8 && value < Pow2(count)
    ensures ToBits(SecondOctet(bit, count, value))
         == LowBits(value, count)[8 - bit..] + Ones(16 - bit - count)
  {
    hide LowBits, PadRight;
    HighBitsClear(value, count);
    PadBits(16 - bit - count);
  }

  /** Writing over padding puts the bits in place and leaves everything else as it was. */
  lemma WriteBitsStream(out: Bytes, pos: BitWindow, value: byte)
    requires pos.bit < 8 && 0 < pos.count <= 8 && pos.End() <= 8 * |out| && value < Pow2(pos.count)
    requires forall i :: pos.Start() <= i < 8 * |out| ==> Stream(out)[i]
    ensures Stream(WriteBits(out, pos, value))
         == Stream(out)[..pos.Start()] + LowBits(value, pos.count) + Ones(8 * |out| - pos.End())
  {
    hide ToBits, LowBits, OneOctet, FirstOctet, SecondOctet, Stream;
    if pos.bit + pos.count <= 8 {
      WriteInOneOctet(out, pos, value);
    } else {
      WriteAcrossOctets(out, pos, value);
    }
  }

  lemma {:induction false} WriteInOneOctet(out: Bytes, pos: BitWindow, value: byte)
    requires 0 < pos.count && pos.bit + pos.count <= 8 && pos.End() <= 8 * |out| && value < Pow2(pos.count)
    requires forall i :: pos.Start() <= i < 8 * |out| ==> Stream(out)[i]
    ensures Stream(WriteBits(out, pos, value))
         == Stream(out)[..pos.Start()] + LowBits(value, pos.count) + Ones(8 * |out| - pos.End())
  {
    hide ToBits, LowBits, OneOctet, FirstOctet, SecondOctet, Stream;
    var i := pos.octet;
    var r := out[i := OneOctet(out[i], pos.bit, pos.count, value)];
    OneOctetBits(out[i], pos.bit, pos.count, value);
    StreamAt(out, i);
    StreamAt(r, i);
    assert r[..i] == out[..i] && r[i + 1..] == out[i + 1..];
    assert Stream(out[i + 1..]) == Stream(out)[8 * i + 8..];
  }

  lemma {:induction false} WriteAcrossOctets(out: Bytes, pos: BitWindow, value: byte)
    requires pos.bit < 8 && pos.count <= 8 && pos.bit + pos.count > 8 && pos.End() <= 8 * |out|
    requires value < Pow2(pos.count)
    requires forall i :: pos.Start() <= i < 8 * |out| ==> Stream(out)[i]
    ensures Stream(WriteBits(out, pos, value))
         == Stream(out)[..pos.Start()] + LowBits(value, pos.count) + Ones(8 * |out| - pos.End())
  {
    hide ToBits, LowBits, FirstOctet, SecondOctet, Stream, Ones;
    var i, bits := pos.octet, LowBits(value, pos.count);
    var (x, y) := (FirstOctet(out[i], pos.bit, pos.count, value), SecondOctet(pos.bit, pos.count, value));
    FirstOctetBits(out[i], pos.bit, pos.count, value);
    SecondOctetBits(pos.bit, pos.count, value);
    TwoOctetUpdate(out, i, x, y);
    StreamAt(out, i);
    var s := Stream(out);
    var (p, q) := (16 - pos.bit - pos.count, 8 * |out| - 8 * i - 16);
    assert WriteBits(out, pos, value) == out[i := x][i + 1 := y];
    assert s[8 * i + 16..] == Ones(q);
    HeadOfOctet(s, out[i], i, pos.bit);
    assert p + q == 8 * |out| - pos.End();
    Glue(s[..8 * i], ToBits(out[i])[..pos.bit], bits, 8 - pos.bit, p, q, ToBits(x), ToBits(y), s[8 * i + 16..]);
  }

  lemma HeadOfOctet(s: BitSeq, o: byte, i: nat, bit: nat)
    requires bit <= 8 && 8 * i + 8 <= |s| && s[8 * i..8 * i + 8] == ToBits(o)
    ensures s[..8 * i] + ToBits(o)[..bit] == s[..8 * i + bit]
  {
    hide ToBits;
    SliceOfSlice(s, 8 * i, 8 * i + 8, 0, bit);
  }

  /** Two octets, of which the first ends and the second begins with part of the same bits. */
  lemma Glue(a: BitSeq, b: BitSeq, bits: BitSeq, n: nat, p: nat, q: nat, x: BitSeq, y: BitSeq, tail: BitSeq)
    requires n <= |bits| && x == b + bits[..n] && y == bits[n..] + Ones(p) && tail == Ones(q)
    ensures a + x + y + tail == (a + b) + bits + Ones(p + q)
  {
    assert bits == bits[..n] + bits[n..];
    assert Ones(p) + Ones(q) == Ones(p + q);
  }

  lemma {:induction false} TwoOctetUpdate(out: Bytes, i: nat, x: byte, y: byte)
    requires i + 1 < |out|
    ensures Stream(out[i := x][i + 1 := y])
         == Stream(out)[..8 * i] + ToBits(x) + ToBits(y) + Stream(out)[8 * i + 16..]
  {
    hide ToBits, Stream;
    var r := out[i := x][i + 1 := y];
    assert r == out[..i] + [x] + [y] + out[i + 2..];
    assert out == out[..i] + out[i..i + 2] + out[i + 2..];
    StreamConcat(out[..i] + [x] + [y], out[i + 2..]);
    StreamConcat(out[..i] + [x], [y]);
    StreamConcat(out[..i], [x]);
    StreamConcat(out[..i] + out[i..i + 2], out[i + 2..]);
    StreamConcat(out[..i], out[i..i + 2]);
    StreamOne(x);
    StreamOne(y);
  }

  lemma StreamOne(x: byte)
    ensures Stream([x]) == ToBits(x)
  {
    hide ToBits;
  }

  /** The `i`-th octet of a code, as the encoder's table stores it. */
  function Part(c: Code, i: nat): (part: byte)
    requires 8 * i < c.bits
    ensures var n := Min(8, c.bits - 8 * i);
            part < Pow2(n) && LowBits(part, n) == LowBits(c.code, c.bits)[8 * i..8 * i + n]
  {
    var s := LowBits(c.code, c.bits)[8 * i..8 * i + Min(8, c.bits - 8 * i)];
    LowBitsValue(s);
    ShlMonotone(1, 1, |s|, 8);
    ShlByte(1);
    Value(s)
  }

  /** The bits of `b` are `bits` and then ones. */
  predicate Padded(b: Bytes, bits: BitSeq) {
    |bits| <= 8 * |b| && Stream(b) == bits + Ones(8 * |b| - |bits|)
  }

  lemma EmptyPadded()
    ensures Padded([], [])
  {
  }

  class HuffmanEncoder {
    var bufferPos: BitWindow
    var buffer: Bytes

    /** The bits before the write position are `bits`, and all bits after it are ones. */
    ghost predicate Written(bits: BitSeq)
      reads this
    {
      && 8 * bufferPos.octet + bufferPos.bit + bufferPos.count == |bits|
      && Padded(buffer, bits)
    }

    /** The buffer holds exactly `bits`, padded with ones to the end of the last octet. */
    ghost predicate Holds(bits: BitSeq)
      reads this
    {
      Written(bits) && |buffer| == (|bits| + 7) / 8
    }

    constructor ()
      ensures Holds([])
    {
      bufferPos := BitWindow(0, 0, 0);
      buffer := [];
      new;
      hide Padded;
      EmptyPadded();
    }

    method EnsureFreeSpace(bitCount: nat, ghost bits: BitSeq)
      requires Holds(bits)
      modifies `buffer
      ensures Written(bits) && |buffer| == (|bits| + bitCount + 7) / 8
    {
      hide ToBits;
      var endRange := bufferPos.Forwards(bitCount).Forwards(0);
      if |buffer| > endRange.octet {
        return;
      }
      var forward := endRange.octet - |buffer| + if endRange.bit > 0 then 1 else 0;
      for i := 0 to forward
        invariant |buffer| == old(|buffer|) + i
        invariant Written(bits)
      {
        ghost var before := 8 * |buffer| - |bits|;
        StreamPadded(buffer);
        buffer := buffer + [255];
        assert Ones(before) + Ones(8) == Ones(before + 8);
      }
    }

    /** Advance the window by `count` bits and write the low bits of `part` there. */
    method PutPart(part: byte, count: nat, ghost done: BitSeq)
      requires Written(done) && 0 < count <= 8 && part < Pow2(count)
      requires |done| + count <= 8 * |buffer|
      modifies this
      ensures Written(done + LowBits(part, count)) && |buffer| == old(|buffer|)
    {
      hide LowBits, Stream, WriteBits;
      bufferPos := bufferPos.Forwards(count);
      WriteBitsStream(buffer, bufferPos, part);
      assert Stream(buffer)[..|done|] == done;
      buffer := WriteBits(buffer, bufferPos, part);
    }

    method Put(symbol: byte, ghost bits: BitSeq)
      requires Holds(bits)
      modifies this
      ensures Holds(bits + CodeBits(symbol))
    {
      hide LowBits, CodeOf, Stream, Pow2;
      var c := CodeOf(symbol);
      EnsureFreeSpace(c.bits, bits);
      var rest := c.bits;
      ghost var code := CodeBits(symbol);
      assert bits + code[..0] == bits;
      for i := 0 to (c.bits + 7) / 8
        invariant rest == c.bits - Min(8 * i, c.bits)
        invariant |buffer| == (|bits| + c.bits + 7) / 8
        invariant Written(bits + code[..c.bits - rest])
      {
        var part, count := Part(c, i), if rest < 8 then rest else 8;
        PutPart(part, count, bits + code[..c.bits - rest]);
        Join(bits, code, 8 * i, count);
        rest := rest - count;
      }
      assert code[..c.bits] == code;
    }
  }

  lemma Join(bits: BitSeq, code: BitSeq, i: nat, count: nat)
    requires i + count <= |code|
    ensures bits + code[..i] + code[i..i + count] == bits + code[..i + count]
  {
  }

  lemma StreamPadded(s: Bytes)
    ensures Stream(s + [255]) == Stream(s) + Ones(8)
  {
    hide LowBits;
    StreamConcat(s, [255]);
    StreamOne(255);
    PadBits(8);
    assert Zeros(0) + Ones(8) == Ones(8);
  }

  lemma {:induction false} AllBitsAppend(value: Bytes, symbol: byte)
    ensures AllBits(value + [symbol]) == AllBits(value) + CodeBits(symbol)
  {
    hide CodeBits;
    if value == [] {
    } else {
      assert (value + [symbol])[1..] == value[1..] + [symbol];
      AllBitsAppend(value[1..], symbol);
    }
  }

  lemma {:induction false} StreamInjective(a: Bytes, b: Bytes)
    requires Stream(a) == Stream(b)
    ensures a == b
  {
    hide ToBits;
    if a != [] {
      assert ToBits(a[0]) == Stream(a)[..8] == Stream(b)[..8] == ToBits(b[0]);
      assert Stream(a[1..]) == Stream(a)[8..] == Stream(b)[8..] == Stream(b[1..]);
      ToBitsInjective(a[0], b[0]);
      StreamInjective(a[1..], b[1..]);
    }
  }

  lemma ToBitsInjective(a: byte, b: byte)
    requires ToBits(a) == ToBits(b)
    ensures a == b
  {
    ShlByte(1);
    ValueLowBits(a, 8);
    ValueLowBits(b, 8);
  }

  /** The encoder's in-place bit writing produces the packed code bits of the string. */
  method HpackEncodeInto(value: Bytes) returns (b: Bytes)
    ensures b == HpackEncode(value)
  {
    hide CodeBits, Stream;
    var encoder := new HuffmanEncoder();
    for i := 0 to |value|
      invariant encoder.Holds(AllBits(value[..i]))
    {
      encoder.Put(value[i], AllBits(value[..i]));
      AllBitsAppend(value[..i], value[i]);
      assert value[..i + 1] == value[..i] + [value[i]];
    }
    assert value[..|value|] == value;
    StreamInjective(encoder.buffer, HpackEncode(value));
    return encoder.buffer;
  }

  // ----------------------------------------------------------------- decoding

  datatype HuffmanError = MissingBits(at: BitWindow) | Unhandled(at: BitWindow, value: nat)

  /** What the iterator yields: a symbol and where it ended, the end of the string, or an error. */
  datatype Next = Symbol(symbol: byte, window: BitWindow) | End | Failed(error: HuffmanError)

  /** Up to eight bits starting `bit` bits into octet `octet`. */
  function ReadBits(src: Bytes, octet: nat, bit: nat, len: nat): (r: Option<nat>)
    ensures r.Some? <==> 1 <= len <= 8 && 8 * octet + bit + len <= 8 * |src|
  {
    if len == 0 || len > 8 || 8 * |src| < 8 * octet + bit + len then None else
    var (o, b) := (octet + bit / 8, bit % 8);
    if b + len <= 8 then Some(ShrOctet(ShlOctet(src[o], b), 8 - len))
    else Some(Value((ToBits(src[o]) + ToBits(src[o + 1]))[b..b + len]))
  }

  /** Running out of bits is the end of the string only if what is left of the last octet is ones. */
  function CheckEof(w: BitWindow, input: Bytes): (r: Next)
    ensures !r.Symbol?
  {
    if w.octet + 1 > |input| then End
    else if w.octet + 1 == |input| then
      var side := w.Opposite();
      match ReadBits(input, side.octet, side.bit, side.count)
      case None => Failed(MissingBits(side))
      case Some(rest) => if rest == Pow2(side.count) - 1 then End else Failed(MissingBits(w))
    else Failed(MissingBits(w))
  }

  function DecodeNext(node: Node, w: BitWindow, input: Bytes): (r: Next)
    ensures r.Symbol? ==> w.End() < r.window.End() <= 8 * |input|
    decreases 8 * |input| - w.End()
  {
    var next := w.Forwards(Lookup(node));
    match ReadBits(input, next.octet, next.bit, next.count)
    case None => CheckEof(next, input)
    case Some(value) =>
      match At(node, value)
      case Missing => Failed(Unhandled(next, value))
      case Sym(x) => Symbol(x, next)
      case Partial(child) => DecodeNext(child, next, input)
  }

  function DecodeAll(w: BitWindow, input: Bytes): (r: Result<Bytes, HuffmanError>)
    decreases 8 * |input| - w.End()
  {
    match DecodeNext(ROOT, w, input)
    case End => Success([])
    case Failed(e) => Failure(e)
    case Symbol(x, next) =>
      match DecodeAll(next, input)
      case Failure(e) => Failure(e)
      case Success(rest) => Success([x] + rest)
  }

  const START := BitWindow(0, 0, 0)

  function HpackDecode(input: Bytes): (r: Result<Bytes, HuffmanError>) {
    DecodeAll(START, input)
  }

  function Prepend(front: Bytes, r: Result<Bytes, HuffmanError>): Result<Bytes, HuffmanError> {
    match r case Success(rest) => Success(front + rest) case Failure(e) => Failure(e)
  }

  lemma PrependNothing(r: Result<Bytes, HuffmanError>)
    ensures Prepend([], r) == r
  {
    assert r.Success? ==> [] + r.value == r.value;
  }

  lemma PrependTwice(a: Bytes, b: Bytes, r: Result<Bytes, HuffmanError>)
    ensures Prepend(a, Prepend(b, r)) == Prepend(a + b, r)
  {
    assert r.Success? ==> a + (b + r.value) == a + b + r.value;
  }

  /** The decoding loop as written. */
  method HpackDecodeFrom(input: Bytes) returns (r: Result<Bytes, HuffmanError>)
    ensures r == HpackDecode(input)
  {
    r := DecodeLoop(START, input);
  }

  method DecodeLoop(start: BitWindow, input: Bytes) returns (r: Result<Bytes, HuffmanError>)
    ensures r == DecodeAll(start, input)
  {
    hide DecodeNext;
    var decoded: Bytes, w := [], start;
    PrependNothing(DecodeAll(start, input));
    while true
      invariant DecodeAll(start, input) == Prepend(decoded, DecodeAll(w, input))
      decreases 8 * |input| - w.End()
    {
      match DecodeNext(ROOT, w, input) {
        case End =>
          assert decoded + [] == decoded;
          return Success(decoded);
        case Failed(e) =>
          return Failure(e);
        case Symbol(x, next) =>
          PrependTwice(decoded, [x], DecodeAll(next, input));
          decoded := decoded + [x];
          w := next;
      }
    }
  }

  // --------------------------------------------------------------- round trip

  /** Reading a window yields the number its bits denote. */
  lemma ReadBitsValue(src: Bytes, octet: nat, bit: nat, len: nat)
    requires bit < 8 && 1 <= len <= 8 && 8 * octet + bit + len <= 8 * |src|
    ensures ReadBits(src, octet, bit, len)
         == Some(Value(Stream(src)[8 * octet + bit..8 * octet + bit + len]))
  {
    hide ToBits, Stream, Value, ShlOctet, ShrOctet;
    assert bit / 8 == 0 && bit % 8 == bit;
    if bit + len <= 8 {
      WindowInOctet(src[octet], bit, len);
      SliceInOctet(src, octet, bit, len);
    } else {
      SliceAcrossOctets(src, octet, bit, len);
    }
  }

  lemma {:induction false} SliceInOctet(src: Bytes, octet: nat, bit: nat, len: nat)
    requires octet < |src| && bit + len <= 8
    ensures Stream(src)[8 * octet + bit..8 * octet + bit + len] == ToBits(src[octet])[bit..bit + len]
  {
    hide ToBits, Stream;
    StreamAt(src, octet);
    SliceWithin(Stream(src), 8 * octet, ToBits(src[octet]), bit, len);
  }

  lemma SliceAcross(s: BitSeq, a: nat, x: BitSeq, y: BitSeq, bit: nat, len: nat)
    requires |x| == |y| == 8 && a + 16 <= |s| && s[a..a + 16] == x + y && bit + len <= 16
    ensures s[a + bit..a + bit + len] == (x + y)[bit..bit + len]
  {
    SliceWithin(s, a, x + y, bit, len);
  }

  lemma {:induction false} SliceAcrossOctets(src: Bytes, octet: nat, bit: nat, len: nat)
    requires octet + 1 < |src| && bit + len <= 16
    ensures Stream(src)[8 * octet + bit..8 * octet + bit + len]
         == (ToBits(src[octet]) + ToBits(src[octet + 1]))[bit..bit + len]
  {
    hide ToBits, Stream;
    TwoOctets(src, octet);
    SliceAcross(Stream(src), 8 * octet, ToBits(src[octet]), ToBits(src[octet + 1]), bit, len);
  }

  lemma {:induction false} TwoOctets(s: Bytes, i: nat)
    requires i + 1 < |s|
    ensures Stream(s)[8 * i..8 * i + 16] == ToBits(s[i]) + ToBits(s[i + 1])
  {
    hide ToBits, Stream;
    StreamAt(s, i);
    StreamAt(s, i + 1);
  }

  lemma WindowInOctet(o: byte, b: nat, len: nat)
    requires b + len <= 8
    ensures ShrOctet(ShlOctet(o, b), 8 - len) == Value(ToBits(o)[b..b + len])
  {
    hide LowBits, Value;
    var r := ShrOctet(ShlOctet(o, b), 8 - len);
    assert ToBits(r) == Zeros(8 - len) + ToBits(o)[b..b + len];
    ValueLeadingZeros(8 - len, ToBits(o)[b..b + len]);
    ShlByte(1);
    ValueLowBits(r, 8);
  }

  /** One lookup of a path. */
  lemma {:induction false} PathStep(node: Node, bits: BitSeq)
    ensures var n := Lookup(node);
            Path(node, Value(bits), |bits|) ==
              if |bits| < n then -1 else
              match At(node, Value(bits[..n]))
              case Missing => -1
              case Sym(x) => if |bits| == n then x else -1
              case Partial(child) => Path(child, Value(bits[n..]), |bits| - n)
  {
    hide At, Value, Lookup, Shl, Shr;
    if |bits| >= Lookup(node) {
      SplitPath(bits, Lookup(node));
    }
  }

  /** Following the tree along the bits of a path reaches its symbol and stops right behind them. */
  lemma {:induction false} Walk(node: Node, length: nat, symbol: byte, w: BitWindow, input: Bytes)
    requires w.End() + length <= 8 * |input|
    requires Path(node, Value(Stream(input)[w.End()..w.End() + length]), length) == symbol
    ensures var r := DecodeNext(node, w, input);
            r.Symbol? && r.symbol == symbol && r.window.End() == w.End() + length
    decreases length
  {
    hide At, Stream, Value, ReadBits, CheckEof, Lookup, Path;
    var s := Stream(input);
    var (start, n) := (w.End(), Lookup(node));
    var bits := s[start..start + length];
    var next := w.Forwards(n);
    PathStep(node, bits);
    if length >= n {
      ReadBitsValue(input, next.octet, next.bit, n);
      assert bits[..n] == s[start..start + n] && bits[n..] == s[start + n..start + n + (length - n)];
      match At(node, Value(bits[..n])) {
        case Partial(child) => Walk(child, length - n, symbol, next, input);
        case _ =>
      }
    }
  }

  lemma SplitPath(bits: BitSeq, n: nat)
    requires n <= |bits|
    ensures var rest := |bits| - n;
            && Shr(Value(bits), rest) == Value(bits[..n])
            && Value(bits) - Shl(Value(bits[..n]), rest) == Value(bits[n..])
  {
    hide Value, Shl, Shr;
    assert bits == bits[..n] + bits[n..];
    ValueConcat(bits[..n], bits[n..]);
    ShrShl(Value(bits[..n]), Value(bits[n..]), |bits| - n);
  }

  lemma CodeFits(symbol: byte)
    ensures CodeOf(symbol).bits >= 5 && CodeOf(symbol).code < Pow2(CodeOf(symbol).bits)
  {
    hide CodeOf, Shl, Shr;
    var c := CodeOf(symbol);
    TablesAgree(symbol);
    var rest := c.bits - 5;
    ShrBounds(c.code, rest);
    ShlSum(Shr(c.code, rest), 1, rest);
    ShlMonotone(Shr(c.code, rest) + 1, 32, rest, rest);
    ShlByte(1);
    ShlShl(1, 5, rest);
  }

  /** A code at the read position decodes to its symbol. */
  lemma DecodeCode(symbol: byte, w: BitWindow, input: Bytes)
    requires CodeBits(symbol) <= Stream(input)[Min(w.End(), 8 * |input|)..]
    ensures var r := DecodeNext(ROOT, w, input);
            r.Symbol? && r.symbol == symbol && r.window.End() == w.End() + |CodeBits(symbol)|
  {
    hide CodeOf, Stream, LowBits, Path, DecodeNext;
    var c := CodeOf(symbol);
    CodeFits(symbol);
    TablesAgree(symbol);
    ValueLowBits(c.code, c.bits);
    assert w.End() + c.bits <= 8 * |input|;
    assert Stream(input)[w.End()..w.End() + c.bits] == CodeBits(symbol);
    Walk(ROOT, c.bits, symbol, w, input);
  }

  /** The bits of `input` from position `p` on are `pad` ones. */
  predicate OnesFrom(input: Bytes, p: nat, pad: nat) {
    p + pad == 8 * |input| && Stream(input)[p..] == Ones(pad)
  }

  lemma OnesSlice(input: Bytes, p: nat, pad: nat, n: nat)
    requires OnesFrom(input, p, pad) && n <= pad
    ensures Stream(input)[p..p + n] == Ones(n) && OnesFrom(input, p + n, pad - n)
  {
    hide Stream;
    var s := Stream(input);
    assert s[p..p + n] == s[p..][..n] && s[p + n..] == s[p..][n..];
  }

  /** Fewer bits than a lookup needs, all of them ones, end the string. */
  lemma EndOfString(w: BitWindow, input: Bytes, pad: nat)
    requires w.bit < 8 && pad < 8 && pad < w.count && OnesFrom(input, w.Start(), pad)
    ensures ReadBits(input, w.octet, w.bit, w.count) == None && CheckEof(w, input) == End
  {
    hide Stream, Value, ToBits, Ones;
    if w.octet + 1 == |input| {
      assert pad == 8 - w.bit;
      ReadBitsValue(input, w.octet, w.bit, pad);
      OnesSlice(input, w.Start(), pad, pad);
      ValueOnes(Ones(pad));
    }
  }

  /** Up to seven bits of padding end the string, wherever they fall in the tree. */
  lemma DecodePadding(w: BitWindow, input: Bytes, pad: nat)
    requires pad < 8 && OnesFrom(input, w.End(), pad)
    ensures DecodeNext(ROOT, w, input) == End
  {
    hide OnesFrom, ReadBits, CheckEof, At, Lookup;
    var first := w.Forwards(5);
    SpineTables();
    if pad < 5 {
      EndOfString(first, input, pad);
    } else {
      ReadOnes(first, input, pad);
      var second := first.Forwards(2);
      if pad < 7 {
        EndOfString(second, input, pad - 5);
      } else {
        ReadOnes(second, input, 2);
        EndOfString(second.Forwards(1), input, 0);
        assert DecodeNext(26, second, input) == End;
        assert DecodeNext(22, first, input) == End;
      }
    }
  }

  lemma SpineTables()
    ensures Lookup(ROOT) == 5 && At(ROOT, 31) == Partial(22)
    ensures Lookup(22) == 2 && At(22, 3) == Partial(26) && Lookup(26) == 1
  {
  }

  lemma WithinInput(w: BitWindow, input: Bytes, pad: nat)
    requires OnesFrom(input, w.Start(), pad) && w.count <= pad
    ensures w.End() <= 8 * |input|
  {
    hide Stream;
  }

  lemma OnesValue(n: nat)
    ensures Value(Ones(n)) == Pow2(n) - 1
  {
    hide Value, Shl;
    ValueOnes(Ones(n));
  }

  lemma {:induction false} ReadOnes(w: BitWindow, input: Bytes, pad: nat)
    requires w.bit < 8 && 1 <= w.count <= 8 && w.count <= pad && OnesFrom(input, w.Start(), pad)
    ensures ReadBits(input, w.octet, w.bit, w.count) == Some(Pow2(w.count) - 1)
    ensures OnesFrom(input, w.End(), pad - w.count)
  {
    hide Stream, Value, ToBits, Ones, ReadBits, OnesFrom, Shl, Pow2;
    WithinInput(w, input, pad);
    var (start, n) := (w.Start(), w.count);
    assert start == 8 * w.octet + w.bit && w.End() == start + n;
    OnesSlice(input, start, pad, n);
    OnesValue(n);
    ReadBitsValue(input, w.octet, w.bit, n);
  }

  lemma {:induction false} DecodeRest(value: Bytes, w: BitWindow, input: Bytes, pad: nat)
    requires pad < 8 && w.End() <= 8 * |input|
    requires Stream(input)[w.End()..] == AllBits(value) + Ones(pad)
    ensures DecodeAll(w, input) == Success(value)
    decreases |value|
  {
    hide Stream, CodeBits, DecodeNext, Ones;
    var s := Stream(input)[w.End()..];
    if value == [] {
      assert s == Ones(pad);
      DecodePadding(w, input, pad);
    } else {
      var code := CodeBits(value[0]);
      assert code <= s;
      DecodeCode(value[0], w, input);
      var next := DecodeNext(ROOT, w, input).window;
      assert Stream(input)[next.End()..] == s[|code|..];
      assert s[|code|..] == AllBits(value[1..]) + Ones(pad);
      DecodeRest(value[1..], next, input, pad);
      assert value == [value[0]] + value[1..];
    }
  }

  /** The encoding is as long as the code bits rounded up to whole octets, and padded with ones. */
  lemma EncodedShape(value: Bytes)
    ensures var (n, b) := (|AllBits(value)|, HpackEncode(value));
            |b| == (n + 7) / 8 && 0 <= 8 * |b| - n < 8 && Stream(b) == AllBits(value) + Ones(8 * |b| - n)
  {
    hide AllBits, Ones, Stream;
  }

  /** Every octet string survives encoding and decoding. */
  lemma HuffmanRoundTrip(value: Bytes)
    ensures HpackDecode(HpackEncode(value)) == Success(value)
  {
    hide Stream, Pack, DecodeAll, AllBits, Ones, HpackEncode, START, BitWindow.End, BitWindow.Start;
    var b := HpackEncode(value);
    StartsAtZero();
    EncodedShape(value);
    DecodeFromStart(value, START, b, 8 * |b| - |AllBits(value)|);
  }

  lemma StartsAtZero()
    ensures START.End() == 0
  {
  }

  lemma DecodeFromStart(value: Bytes, w: BitWindow, b: Bytes, pad: nat)
    requires pad < 8 && w.End() == 0 && Stream(b) == AllBits(value) + Ones(pad)
    ensures DecodeAll(w, b) == Success(value)
  {
    hide Stream, DecodeAll, AllBits, Ones;
    assert Stream(b)[0..] == Stream(b);
    DecodeRest(value, w, b, pad);
  }
}
