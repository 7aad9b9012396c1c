/** Exactly which octet strings the Huffman decoder accepts, and as what (h3/src/qpack/prefix_string/decode.rs). */
module HuffmanExact {
  import opened Octets
  import opened Bits
  import opened HuffmanTables
  import opened HuffmanAgreement
  import opened HuffmanTree
  import opened Huffman

  /** Bits that stop short of a symbol: they lead from table to table, and at the last one fewer are left than
      it is looked up with, all of them ones. */
  predicate Unfinished(node: Node, bits: BitSeq)
    decreases |bits|
  {
    var n := Lookup(node);
    if |bits| < n then bits == Ones(|bits|)
    else At(node, Value(bits[..n])).Partial? && Unfinished(At(node, Value(bits[..n])).next, bits[n..])
  }

  /** The bits that are left. */
  ghost function Left(w: BitWindow, input: Bytes): (bits: BitSeq)
    requires w.End() <= 8 * |input|
    ensures |bits| == 8 * |input| - w.End()
  {
    Stream(input)[w.End()..]
  }

  /** Running out of bits is the end exactly when what is left is ones. */
  lemma EofExact(w: BitWindow, input: Bytes)
    requires w.bit < 8 && 1 <= w.count <= 8 && w.Start() <= 8 * |input| < w.End()
    ensures var rest := Stream(input)[w.Start()..];
            && ReadBits(input, w.octet, w.bit, w.count) == None
            && !CheckEof(w, input).Symbol?
            && (CheckEof(w, input) == End <==> rest == Ones(|rest|))
  {
    hide Stream, Value, ToBits, Ones, ShlOctet, ShrOctet;
    var rest := Stream(input)[w.Start()..];
    if w.octet + 1 == |input| {
      var n := 8 - w.bit;
      ReadBitsValue(input, w.octet, w.bit, n);
      assert Stream(input)[w.Start()..w.Start() + n] == rest;
      AllOnes(rest);
    } else {
      assert |rest| == 0;
    }
  }

  lemma AllOnes(bits: BitSeq)
    ensures Value(bits) == Pow2(|bits|) - 1 <==> bits == Ones(|bits|)
  {
    hide Value;
    OnesValue(|bits|);
    LowBitsValue(bits);
    LowBitsValue(Ones(|bits|));
  }

  /** One lookup, as the bits that are left see it. */
  lemma LookupBits(node: Node, w: BitWindow, input: Bytes)
    requires w.End() <= 8 * |input|
    ensures var (next, n, rest) := (w.Forwards(Lookup(node)), Lookup(node), Left(w, input));
            && (n <= |rest| ==> ReadBits(input, next.octet, next.bit, next.count) == Some(Value(rest[..n]))
                                && next.End() <= 8 * |input| && Left(next, input) == rest[n..])
            && (n > |rest| ==> && ReadBits(input, next.octet, next.bit, next.count) == None
                               && !CheckEof(next, input).Symbol?
                               && (CheckEof(next, input) == End <==> rest == Ones(|rest|)))
  {
    hide Stream, Value, CheckEof, ReadBits, Lookup, Ones;
    var (next, n, rest) := (w.Forwards(Lookup(node)), Lookup(node), Left(w, input));
    if n <= |rest| {
      ReadBitsValue(input, next.octet, next.bit, n);
      assert rest[..n] == Stream(input)[w.End()..w.End() + n];
      assert rest[n..] == Stream(input)[w.End() + n..];
    } else {
      EofExact(next, input);
    }
  }

  /** A symbol is read off exactly the bits of its code; the end is found exactly at bits that stop short of
      one. */
  lemma {:induction false} NextExact(node: Node, w: BitWindow, input: Bytes)
    requires w.End() <= 8 * |input|
    ensures var (r, rest, p) := (DecodeNext(node, w, input), Left(w, input), PrefixOf(node));
            match r
            case Symbol(x, next) =>
              var len := next.End() - w.End();
              && len <= |rest| && !Unfinished(node, rest)
              && CodeOf(x) == Code(p.bits + len, Shl(p.code, len) + Value(rest[..len]))
            case End => Unfinished(node, rest)
            case Failed(_) => !Unfinished(node, rest)
    decreases 8 * |input| - w.End()
  {
    hide Stream, Value, CheckEof, ReadBits, Lookup, At, PrefixOf, CodeOf, Shl, Left;
    var (n, rest) := (Lookup(node), Left(w, input));
    var next := w.Forwards(n);
    LookupBits(node, w, input);
    if n <= |rest| {
      var value := Value(rest[..n]);
      EntryPlaced(node, value);
      match At(node, value) {
        case Partial(child) =>
          NextExact(child, next, input);
          if DecodeNext(child, next, input).Symbol? {
            var len := DecodeNext(child, next, input).window.End() - next.End();
            CodeContinues(PrefixOf(node).code, rest, n, len);
          }
        case _ =>
      }
    }
  }

  lemma CodeContinues(code: nat, rest: BitSeq, n: nat, len: nat)
    requires n + len <= |rest|
    ensures Shl(Shl(code, n) + Value(rest[..n]), len) + Value(rest[n..][..len])
         == Shl(code, n + len) + Value(rest[..n + len])
  {
    hide Value, Shl;
    assert rest[..n + len] == rest[..n] + rest[n..][..len];
    ValueConcat(rest[..n], rest[n..][..len]);
    ShlSum(Shl(code, n), Value(rest[..n]), len);
    ShlShl(code, n, len);
  }

  /** From the root, a symbol is read off its code bits. */
  lemma SymbolExact(w: BitWindow, input: Bytes)
    requires w.End() <= 8 * |input| && DecodeNext(ROOT, w, input).Symbol?
    ensures var (r, rest) := (DecodeNext(ROOT, w, input), Left(w, input));
            && r.window.End() <= 8 * |input| && CodeBits(r.symbol) <= rest
            && Left(r.window, input) == rest[|CodeBits(r.symbol)|..]
  {
    hide Stream, Value, DecodeNext, CodeOf, Shl, LowBits, Unfinished;
    NextExact(ROOT, w, input);
    RootPrefix();
    var (r, rest) := (DecodeNext(ROOT, w, input), Left(w, input));
    var len := r.window.End() - w.End();
    ShlZero(len);
    LowBitsValue(rest[..len]);
    assert CodeBits(r.symbol) == rest[..len];
    assert rest[len..] == Stream(input)[w.End() + len..];
  }

  lemma RootPrefix()
    ensures PrefixOf(ROOT) == Code(0, 0)
  {
  }

  /** The code bits of a string in front, and behind them bits that stop short of a symbol. */
  ghost predicate Spells(bits: BitSeq, value: Bytes) {
    AllBits(value) <= bits && Unfinished(ROOT, bits[|AllBits(value)|..])
  }

  lemma {:induction false} DecodedSpells(w: BitWindow, input: Bytes)
    requires w.End() <= 8 * |input| && DecodeAll(w, input).Success?
    ensures Spells(Left(w, input), DecodeAll(w, input).value)
    decreases 8 * |input| - w.End()
  {
    hide Stream, DecodeNext, CodeBits, Unfinished, Left;
    NextExact(ROOT, w, input);
    var rest := Left(w, input);
    match DecodeNext(ROOT, w, input)
    case End => assert rest[0..] == rest;
    case Symbol(x, next) =>
      SymbolExact(w, input);
      DecodedSpells(next, input);
      var value := DecodeAll(next, input).value;
      assert ([x] + value)[1..] == value;
      assert AllBits([x] + value) == CodeBits(x) + AllBits(value);
      assert rest == CodeBits(x) + rest[|CodeBits(x)|..];
      assert rest[|AllBits([x] + value)|..] == rest[|CodeBits(x)|..][|AllBits(value)|..];
  }

  lemma {:induction false} SpelledDecodes(w: BitWindow, input: Bytes, value: Bytes)
    requires w.End() <= 8 * |input| && Spells(Left(w, input), value)
    ensures DecodeAll(w, input) == Success(value)
    decreases |value|
  {
    hide Stream, DecodeNext, CodeBits, Unfinished;
    var rest := Left(w, input);
    if value == [] {
      assert rest[0..] == rest;
      NextExact(ROOT, w, input);
    } else {
      var (code, more) := (CodeBits(value[0]), AllBits(value[1..]));
      assert code <= rest by { assert code + more <= rest; }
      DecodeCode(value[0], w, input);
      var next := DecodeNext(ROOT, w, input).window;
      assert rest[|code|..] == Stream(input)[w.End() + |code|..];
      assert rest[|code|..][|more|..] == rest[|AllBits(value)|..];
      assert more <= rest[|code|..] by { assert code + more <= rest; }
      SpelledDecodes(next, input, value[1..]);
      assert value == [value[0]] + value[1..];
    }
  }

  /** An octet string decodes to a value exactly when its bits are the code bits of that value and then bits
      that stop short of a symbol. */
  lemma DecodeExact(input: Bytes, value: Bytes)
    ensures HpackDecode(input) == Success(value) <==> Spells(Stream(input), value)
  {
    hide Stream, DecodeAll, Spells, BitWindow.End;
    StartsAtZero();
    DecodeFromExact(START, input, value);
  }

  lemma DecodeFromExact(w: BitWindow, input: Bytes, value: Bytes)
    requires w.End() == 0
    ensures DecodeAll(w, input) == Success(value) <==> Spells(Stream(input), value)
  {
    hide Stream, DecodeAll, Spells;
    assert Left(w, input) == Stream(input);
    if DecodeAll(w, input) == Success(value) {
      DecodedSpells(w, input);
    }
    if Spells(Stream(input), value) {
      SpelledDecodes(w, input, value);
    }
  }

  /** Bits that no encoder pads with are taken for the end: an octet that breaks off inside a longer code, and
      eight ones, though at most seven pad a string. */
  lemma PaddingUnchecked()
    ensures HpackDecode([0xFE]) == Success([]) && HpackDecode([0xFF]) == Success([])
  {
    hide HpackDecode;
    BrokenOff(0xFE);
    BrokenOff(0xFF);
  }

  lemma BrokenOff(b: byte)
    requires b == 0xFE || b == 0xFF
    ensures HpackDecode([b]) == Success([])
  {
    hide HpackDecode, Unfinished, ROOT;
    var bits := ToBits(b);
    assert Stream([b]) == bits;
    assert bits[..5] == Ones(5) && bits[5..][..2] == Ones(2) by { hide Stream; }
    SevenOnes(bits);
    assert bits[|AllBits([])|..] == bits;
    DecodeExact([b], []);
  }

  /** Seven ones lead through three tables, and the next bit to a fourth. */
  lemma SevenOnes(bits: BitSeq)
    requires |bits| == 8 && bits[..5] == Ones(5) && bits[5..][..2] == Ones(2)
    ensures Unfinished(ROOT, bits)
  {
    hide Ones, Value;
    AllOnes(bits[..5]);
    AllOnes(bits[5..][..2]);
    var last := bits[5..][2..];
    assert Unfinished(22, bits[5..]) by {
      assert Unfinished(26, last) by { EmptyOnes(last[1..]); OneBit(last); }
    }
  }

  lemma OneBit(bits: BitSeq)
    requires |bits| == 1
    ensures bits[..1] == bits && Value(bits) < 2
  {
    hide Value;
  }

  lemma EmptyOnes(bits: BitSeq)
    requires bits == []
    ensures bits == Ones(|bits|)
  {
  }
}
