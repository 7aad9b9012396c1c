/** Every symbol's code leads from the root of the decoder's tree to that symbol. */
module HuffmanAgreement {
  import opened Octets
  import opened HuffmanTables

  /** Where the tree leads when it reads the `length` bits of `v`; -1 when not exactly to a symbol. */
  function Path(node: Node, v: nat, length: nat): (symbol: int)
    decreases length
  {
    if length < Lookup(node) then -1 else
    var rest := length - Lookup(node);
    var index := Shr(v, rest);
    ShrBounds(v, rest);
    match At(node, index)
    case Missing => -1
    case Sym(x) => if rest == 0 then x else -1
    case Partial(next) => Path(next, v - Shl(index, rest), rest)
  }

  predicate Agrees(symbol: byte) {
    Path(ROOT, CodeOf(symbol).code, CodeOf(symbol).bits) == symbol
  }

  /** The bits of `prefix` lead from the root to `node`, whatever follows. */
  ghost predicate Reaches(node: Node, prefix: Code) {
    forall v: nat, rest: nat :: v < Pow2(rest) ==>
      Path(ROOT, Shl(prefix.code, rest) + v, rest + prefix.bits) == Path(node, v, rest)
  }

  /** `prefix` followed by the bits that select entry `index` of a table of `count` bits. */
  function Append(prefix: Code, count: nat, index: nat): (c: Code) {
    Code(prefix.bits + count, Shl(prefix.code, count) + index)
  }

  lemma Step(node: Node, prefix: Code, index: nat, v: nat, rest: nat)
    requires Reaches(node, prefix) && index < Pow2(Lookup(node)) && v < Pow2(rest)
    ensures var p := Append(prefix, Lookup(node), index);
            Path(ROOT, Shl(p.code, rest) + v, rest + p.bits)
            == Path(node, Shl(index, rest) + v, rest + Lookup(node))
    ensures Shr(Shl(index, rest) + v, rest) == index
  {
    hide Shl;
    hide Path;
    hide Lookup;
    var count := Lookup(node);
    ShrShl(index, v, rest);
    ShlSum(index, 1, rest);
    ShlMonotone(index + 1, Pow2(count), rest, rest);
    ShlShl(1, count, rest);
    ShlShl(prefix.code, count, rest);
    ShlSum(Shl(prefix.code, count), index, rest);
  }

  lemma Child(node: Node, prefix: Code, count: nat, index: nat, child: Node)
    requires Reaches(node, prefix) && Lookup(node) == count && At(node, index) == Partial(child)
    requires index < Pow2(count)
    ensures Reaches(child, Append(prefix, count, index))
  {
    hide At;
    hide Lookup;
    hide Shl;
    hide Shr;
    var p := Append(prefix, Lookup(node), index);
    forall v: nat, rest: nat | v < Pow2(rest)
      ensures Path(ROOT, Shl(p.code, rest) + v, rest + p.bits) == Path(child, v, rest)
    {
      Step(node, prefix, index, v, rest);
    }
  }

  lemma Leaf(node: Node, prefix: Code, count: nat, index: nat, symbol: byte)
    requires Reaches(node, prefix) && Lookup(node) == count && At(node, index) == Sym(symbol)
    requires index < Pow2(count) && CodeOf(symbol) == Append(prefix, count, index)
    ensures Agrees(symbol)
  {
    hide At;
    hide CodeOf;
    hide Lookup;
    ShlByte(1);
    ShlByte(index);
    ShlByte(CodeOf(symbol).code);
    Step(node, prefix, index, 0, 0);
  }

  lemma AtRoot()
    ensures Reaches(ROOT, Code(0, 0))
  {
    hide Path;
    forall rest: nat ensures Shl(0, rest) == 0 { ShlZero(rest); }
  }

  // The tree entry by entry, in the order of its tables: a lemma NodeNFromI follows a few entries,
  // beginning with entry I of node N. Nodes that a lemma reaches are the starting points of later ones.

  lemma Node0From0()
    ensures Agrees(48) && Agrees(49) && Agrees(50) && Agrees(97) && Agrees(99)
  {
    hide Agrees, Path, Reaches;
    AtRoot();
    Leaf(0, Code(0, 0x0), 5, 0, 48); Leaf(0, Code(0, 0x0), 5, 1, 49); Leaf(0, Code(0, 0x0), 5, 2, 50);
    Leaf(0, Code(0, 0x0), 5, 3, 97); Leaf(0, Code(0, 0x0), 5, 4, 99);
  }

  lemma Node0From5()
    ensures Agrees(101) && Agrees(105) && Agrees(111) && Agrees(115) && Agrees(116)
  {
    hide Agrees, Path, Reaches;
    AtRoot();
    Leaf(0, Code(0, 0x0), 5, 5, 101); Leaf(0, Code(0, 0x0), 5, 6, 105); Leaf(0, Code(0, 0x0), 5, 7, 111);
    Leaf(0, Code(0, 0x0), 5, 8, 115); Leaf(0, Code(0, 0x0), 5, 9, 116);
  }

  lemma Node0From10()
    ensures Reaches(1, Code(5, 0xa)) && Reaches(2, Code(5, 0xb))
    ensures Reaches(3, Code(5, 0xc)) && Reaches(4, Code(5, 0xd))
    ensures Reaches(5, Code(5, 0xe))
  {
    hide Agrees, Path, Reaches;
    AtRoot();
    Child(0, Code(0, 0x0), 5, 10, 1); Child(0, Code(0, 0x0), 5, 11, 2); Child(0, Code(0, 0x0), 5, 12, 3);
    Child(0, Code(0, 0x0), 5, 13, 4); Child(0, Code(0, 0x0), 5, 14, 5);
  }

  lemma Node0From15()
    ensures Reaches(6, Code(5, 0xf)) && Reaches(7, Code(5, 0x10))
    ensures Reaches(8, Code(5, 0x11)) && Reaches(9, Code(5, 0x12))
    ensures Reaches(10, Code(5, 0x13))
  {
    hide Agrees, Path, Reaches;
    AtRoot();
    Child(0, Code(0, 0x0), 5, 15, 6); Child(0, Code(0, 0x0), 5, 16, 7); Child(0, Code(0, 0x0), 5, 17, 8);
    Child(0, Code(0, 0x0), 5, 18, 9); Child(0, Code(0, 0x0), 5, 19, 10);
  }

  lemma Node0From20()
    ensures Reaches(11, Code(5, 0x14)) && Reaches(12, Code(5, 0x15))
    ensures Reaches(13, Code(5, 0x16)) && Reaches(14, Code(5, 0x17))
    ensures Reaches(15, Code(5, 0x18))
  {
    hide Agrees, Path, Reaches;
    AtRoot();
    Child(0, Code(0, 0x0), 5, 20, 11); Child(0, Code(0, 0x0), 5, 21, 12); Child(0, Code(0, 0x0), 5, 22, 13);
    Child(0, Code(0, 0x0), 5, 23, 14); Child(0, Code(0, 0x0), 5, 24, 15);
  }

  lemma Node0From25()
    ensures Reaches(16, Code(5, 0x19)) && Reaches(17, Code(5, 0x1a))
    ensures Reaches(18, Code(5, 0x1b)) && Reaches(19, Code(5, 0x1c))
    ensures Reaches(20, Code(5, 0x1d))
  {
    hide Agrees, Path, Reaches;
    AtRoot();
    Child(0, Code(0, 0x0), 5, 25, 16); Child(0, Code(0, 0x0), 5, 26, 17); Child(0, Code(0, 0x0), 5, 27, 18);
    Child(0, Code(0, 0x0), 5, 28, 19); Child(0, Code(0, 0x0), 5, 29, 20);
  }

  lemma Node0From30()
    ensures Reaches(21, Code(5, 0x1e)) && Reaches(22, Code(5, 0x1f))
    ensures Agrees(32) && Agrees(37) && Agrees(45)
  {
    hide Agrees, Path, Reaches;
    AtRoot();
    Node0From10();
    Child(0, Code(0, 0x0), 5, 30, 21); Child(0, Code(0, 0x0), 5, 31, 22); Leaf(1, Code(5, 0xa), 1, 0, 32);
    Leaf(1, Code(5, 0xa), 1, 1, 37); Leaf(2, Code(5, 0xb), 1, 0, 45);
  }

  lemma Node2From1()
    ensures Agrees(46) && Agrees(47) && Agrees(51) && Agrees(52) && Agrees(53)
  {
    hide Agrees, Path, Reaches;
    Node0From10();
    Leaf(2, Code(5, 0xb), 1, 1, 46); Leaf(3, Code(5, 0xc), 1, 0, 47); Leaf(3, Code(5, 0xc), 1, 1, 51);
    Leaf(4, Code(5, 0xd), 1, 0, 52); Leaf(4, Code(5, 0xd), 1, 1, 53);
  }

  lemma Node5From0()
    ensures Agrees(54) && Agrees(55) && Agrees(56) && Agrees(57) && Agrees(61)
  {
    hide Agrees, Path, Reaches;
    Node0From10();
    Node0From15();
    Leaf(5, Code(5, 0xe), 1, 0, 54); Leaf(5, Code(5, 0xe), 1, 1, 55); Leaf(6, Code(5, 0xf), 1, 0, 56);
    Leaf(6, Code(5, 0xf), 1, 1, 57); Leaf(7, Code(5, 0x10), 1, 0, 61);
  }

  lemma Node7From1()
    ensures Agrees(65) && Agrees(95) && Agrees(98) && Agrees(100) && Agrees(102)
  {
    hide Agrees, Path, Reaches;
    Node0From15();
    Leaf(7, Code(5, 0x10), 1, 1, 65); Leaf(8, Code(5, 0x11), 1, 0, 95); Leaf(8, Code(5, 0x11), 1, 1, 98);
    Leaf(9, Code(5, 0x12), 1, 0, 100); Leaf(9, Code(5, 0x12), 1, 1, 102);
  }

  lemma Node10From0()
    ensures Agrees(103) && Agrees(104) && Agrees(108) && Agrees(109) && Agrees(110)
  {
    hide Agrees, Path, Reaches;
    Node0From15();
    Node0From20();
    Leaf(10, Code(5, 0x13), 1, 0, 103); Leaf(10, Code(5, 0x13), 1, 1, 104); Leaf(11, Code(5, 0x14), 1, 0, 108);
    Leaf(11, Code(5, 0x14), 1, 1, 109); Leaf(12, Code(5, 0x15), 1, 0, 110);
  }

  lemma Node12From1()
    ensures Agrees(112) && Agrees(114) && Agrees(117) && Agrees(58) && Agrees(66)
  {
    hide Agrees, Path, Reaches;
    Node0From20();
    Leaf(12, Code(5, 0x15), 1, 1, 112); Leaf(13, Code(5, 0x16), 1, 0, 114); Leaf(13, Code(5, 0x16), 1, 1, 117);
    Leaf(14, Code(5, 0x17), 2, 0, 58); Leaf(14, Code(5, 0x17), 2, 1, 66);
  }

  lemma Node14From2()
    ensures Agrees(67) && Agrees(68) && Agrees(69) && Agrees(70) && Agrees(71)
  {
    hide Agrees, Path, Reaches;
    Node0From20();
    Leaf(14, Code(5, 0x17), 2, 2, 67); Leaf(14, Code(5, 0x17), 2, 3, 68); Leaf(15, Code(5, 0x18), 2, 0, 69);
    Leaf(15, Code(5, 0x18), 2, 1, 70); Leaf(15, Code(5, 0x18), 2, 2, 71);
  }

  lemma Node15From3()
    ensures Agrees(72) && Agrees(73) && Agrees(74) && Agrees(75) && Agrees(76)
  {
    hide Agrees, Path, Reaches;
    Node0From20();
    Node0From25();
    Leaf(15, Code(5, 0x18), 2, 3, 72); Leaf(16, Code(5, 0x19), 2, 0, 73); Leaf(16, Code(5, 0x19), 2, 1, 74);
    Leaf(16, Code(5, 0x19), 2, 2, 75); Leaf(16, Code(5, 0x19), 2, 3, 76);
  }

  lemma Node17From0()
    ensures Agrees(77) && Agrees(78) && Agrees(79) && Agrees(80) && Agrees(81)
  {
    hide Agrees, Path, Reaches;
    Node0From25();
    Leaf(17, Code(5, 0x1a), 2, 0, 77); Leaf(17, Code(5, 0x1a), 2, 1, 78); Leaf(17, Code(5, 0x1a), 2, 2, 79);
    Leaf(17, Code(5, 0x1a), 2, 3, 80); Leaf(18, Code(5, 0x1b), 2, 0, 81);
  }

  lemma Node18From1()
    ensures Agrees(82) && Agrees(83) && Agrees(84) && Agrees(85) && Agrees(86)
  {
    hide Agrees, Path, Reaches;
    Node0From25();
    Leaf(18, Code(5, 0x1b), 2, 1, 82); Leaf(18, Code(5, 0x1b), 2, 2, 83); Leaf(18, Code(5, 0x1b), 2, 3, 84);
    Leaf(19, Code(5, 0x1c), 2, 0, 85); Leaf(19, Code(5, 0x1c), 2, 1, 86);
  }

  lemma Node19From2()
    ensures Agrees(87) && Agrees(89) && Agrees(106) && Agrees(107) && Agrees(113)
  {
    hide Agrees, Path, Reaches;
    Node0From25();
    Leaf(19, Code(5, 0x1c), 2, 2, 87); Leaf(19, Code(5, 0x1c), 2, 3, 89); Leaf(20, Code(5, 0x1d), 2, 0, 106);
    Leaf(20, Code(5, 0x1d), 2, 1, 107); Leaf(20, Code(5, 0x1d), 2, 2, 113);
  }

  lemma Node20From3()
    ensures Agrees(118) && Agrees(119) && Agrees(120) && Agrees(121) && Agrees(122)
  {
    hide Agrees, Path, Reaches;
    Node0From25();
    Node0From30();
    Leaf(20, Code(5, 0x1d), 2, 3, 118); Leaf(21, Code(5, 0x1e), 2, 0, 119); Leaf(21, Code(5, 0x1e), 2, 1, 120);
    Leaf(21, Code(5, 0x1e), 2, 2, 121); Leaf(21, Code(5, 0x1e), 2, 3, 122);
  }

  lemma Node22From0()
    ensures Reaches(23, Code(7, 0x7c)) && Reaches(24, Code(7, 0x7d))
    ensures Reaches(25, Code(7, 0x7e)) && Reaches(26, Code(7, 0x7f))
    ensures Agrees(38)
  {
    hide Agrees, Path, Reaches;
    Node0From30();
    Child(22, Code(5, 0x1f), 2, 0, 23); Child(22, Code(5, 0x1f), 2, 1, 24); Child(22, Code(5, 0x1f), 2, 2, 25);
    Child(22, Code(5, 0x1f), 2, 3, 26); Leaf(23, Code(7, 0x7c), 1, 0, 38);
  }

  lemma Node23From1()
    ensures Agrees(42) && Agrees(44) && Agrees(59) && Agrees(88) && Agrees(90)
  {
    hide Agrees, Path, Reaches;
    Node22From0();
    Leaf(23, Code(7, 0x7c), 1, 1, 42); Leaf(24, Code(7, 0x7d), 1, 0, 44); Leaf(24, Code(7, 0x7d), 1, 1, 59);
    Leaf(25, Code(7, 0x7e), 1, 0, 88); Leaf(25, Code(7, 0x7e), 1, 1, 90);
  }

  lemma Node26From0()
    ensures Reaches(27, Code(8, 0xfe)) && Reaches(28, Code(8, 0xff))
    ensures Agrees(33) && Agrees(34) && Agrees(40)
  {
    hide Agrees, Path, Reaches;
    Node22From0();
    Child(26, Code(7, 0x7f), 1, 0, 27); Child(26, Code(7, 0x7f), 1, 1, 28); Leaf(27, Code(8, 0xfe), 2, 0, 33);
    Leaf(27, Code(8, 0xfe), 2, 1, 34); Leaf(27, Code(8, 0xfe), 2, 2, 40);
  }

  lemma Node27From3()
    ensures Reaches(29, Code(9, 0x1fe)) && Reaches(30, Code(9, 0x1ff))
    ensures Reaches(31, Code(10, 0x3fd))
    ensures Agrees(41) && Agrees(63)
  {
    hide Agrees, Path, Reaches;
    Node26From0();
    Leaf(27, Code(8, 0xfe), 2, 3, 41); Child(28, Code(8, 0xff), 1, 0, 29); Child(28, Code(8, 0xff), 1, 1, 30);
    Leaf(29, Code(9, 0x1fe), 1, 0, 63); Child(29, Code(9, 0x1fe), 1, 1, 31);
  }

  lemma Node30From0()
    ensures Reaches(32, Code(11, 0x7fd)) && Reaches(33, Code(11, 0x7fe))
    ensures Reaches(34, Code(11, 0x7ff))
    ensures Agrees(124) && Agrees(39)
  {
    hide Agrees, Path, Reaches;
    Node27From3();
    Leaf(30, Code(9, 0x1ff), 2, 0, 124); Child(30, Code(9, 0x1ff), 2, 1, 32); Child(30, Code(9, 0x1ff), 2, 2, 33);
    Child(30, Code(9, 0x1ff), 2, 3, 34); Leaf(31, Code(10, 0x3fd), 1, 0, 39);
  }

  lemma Node31From1()
    ensures Agrees(43) && Agrees(35) && Agrees(62) && Agrees(0) && Agrees(36)
  {
    hide Agrees, Path, Reaches;
    Node27From3();
    Node30From0();
    Leaf(31, Code(10, 0x3fd), 1, 1, 43); Leaf(32, Code(11, 0x7fd), 1, 0, 35); Leaf(32, Code(11, 0x7fd), 1, 1, 62);
    Leaf(33, Code(11, 0x7fe), 2, 0, 0); Leaf(33, Code(11, 0x7fe), 2, 1, 36);
  }

  lemma Node33From2()
    ensures Reaches(35, Code(13, 0x1ffe))
    ensures Agrees(64) && Agrees(91) && Agrees(93) && Agrees(126)
  {
    hide Agrees, Path, Reaches;
    Node30From0();
    Leaf(33, Code(11, 0x7fe), 2, 2, 64); Leaf(33, Code(11, 0x7fe), 2, 3, 91); Leaf(34, Code(11, 0x7ff), 2, 0, 93);
    Leaf(34, Code(11, 0x7ff), 2, 1, 126); Child(34, Code(11, 0x7ff), 2, 2, 35);
  }

  lemma Node34From3()
    ensures Reaches(36, Code(13, 0x1fff)) && Reaches(37, Code(14, 0x3ffe))
    ensures Reaches(38, Code(14, 0x3fff))
    ensures Agrees(94) && Agrees(125)
  {
    hide Agrees, Path, Reaches;
    Node30From0();
    Node33From2();
    Child(34, Code(11, 0x7ff), 2, 3, 36); Leaf(35, Code(13, 0x1ffe), 1, 0, 94); Leaf(35, Code(13, 0x1ffe), 1, 1, 125);
    Child(36, Code(13, 0x1fff), 1, 0, 37); Child(36, Code(13, 0x1fff), 1, 1, 38);
  }

  lemma Node37From0()
    ensures Reaches(39, Code(15, 0x7fff))
    ensures Agrees(60) && Agrees(96) && Agrees(123) && Agrees(92)
  {
    hide Agrees, Path, Reaches;
    Node34From3();
    Leaf(37, Code(14, 0x3ffe), 1, 0, 60); Leaf(37, Code(14, 0x3ffe), 1, 1, 96); Leaf(38, Code(14, 0x3fff), 1, 0, 123);
    Child(38, Code(14, 0x3fff), 1, 1, 39); Leaf(39, Code(15, 0x7fff), 4, 0, 92);
  }

  lemma Node39From1()
    ensures Reaches(40, Code(19, 0x7fff3)) && Reaches(41, Code(19, 0x7fff4))
    ensures Reaches(42, Code(19, 0x7fff5))
    ensures Agrees(195) && Agrees(208)
  {
    hide Agrees, Path, Reaches;
    Node37From0();
    Leaf(39, Code(15, 0x7fff), 4, 1, 195); Leaf(39, Code(15, 0x7fff), 4, 2, 208);
    Child(39, Code(15, 0x7fff), 4, 3, 40); Child(39, Code(15, 0x7fff), 4, 4, 41);
    Child(39, Code(15, 0x7fff), 4, 5, 42);
  }

  lemma Node39From6()
    ensures Reaches(43, Code(19, 0x7fff6)) && Reaches(44, Code(19, 0x7fff7))
    ensures Reaches(45, Code(19, 0x7fff8)) && Reaches(46, Code(19, 0x7fff9))
    ensures Reaches(47, Code(19, 0x7fffa))
  {
    hide Agrees, Path, Reaches;
    Node37From0();
    Child(39, Code(15, 0x7fff), 4, 6, 43); Child(39, Code(15, 0x7fff), 4, 7, 44);
    Child(39, Code(15, 0x7fff), 4, 8, 45); Child(39, Code(15, 0x7fff), 4, 9, 46);
    Child(39, Code(15, 0x7fff), 4, 10, 47);
  }

  lemma Node39From11()
    ensures Reaches(48, Code(19, 0x7fffb)) && Reaches(49, Code(19, 0x7fffc))
    ensures Reaches(50, Code(19, 0x7fffd)) && Reaches(51, Code(19, 0x7fffe))
    ensures Reaches(52, Code(19, 0x7ffff))
  {
    hide Agrees, Path, Reaches;
    Node37From0();
    Child(39, Code(15, 0x7fff), 4, 11, 48); Child(39, Code(15, 0x7fff), 4, 12, 49);
    Child(39, Code(15, 0x7fff), 4, 13, 50); Child(39, Code(15, 0x7fff), 4, 14, 51);
    Child(39, Code(15, 0x7fff), 4, 15, 52);
  }

  lemma Node40From0()
    ensures Agrees(128) && Agrees(130) && Agrees(131) && Agrees(162) && Agrees(184)
  {
    hide Agrees, Path, Reaches;
    Node39From1();
    Leaf(40, Code(19, 0x7fff3), 1, 0, 128); Leaf(40, Code(19, 0x7fff3), 1, 1, 130);
    Leaf(41, Code(19, 0x7fff4), 1, 0, 131); Leaf(41, Code(19, 0x7fff4), 1, 1, 162);
    Leaf(42, Code(19, 0x7fff5), 1, 0, 184);
  }

  lemma Node42From1()
    ensures Agrees(194) && Agrees(224) && Agrees(226) && Agrees(153) && Agrees(161)
  {
    hide Agrees, Path, Reaches;
    Node39From1();
    Node39From6();
    Leaf(42, Code(19, 0x7fff5), 1, 1, 194); Leaf(43, Code(19, 0x7fff6), 1, 0, 224);
    Leaf(43, Code(19, 0x7fff6), 1, 1, 226); Leaf(44, Code(19, 0x7fff7), 2, 0, 153);
    Leaf(44, Code(19, 0x7fff7), 2, 1, 161);
  }

  lemma Node44From2()
    ensures Agrees(167) && Agrees(172) && Agrees(176) && Agrees(177) && Agrees(179)
  {
    hide Agrees, Path, Reaches;
    Node39From6();
    Leaf(44, Code(19, 0x7fff7), 2, 2, 167); Leaf(44, Code(19, 0x7fff7), 2, 3, 172);
    Leaf(45, Code(19, 0x7fff8), 2, 0, 176); Leaf(45, Code(19, 0x7fff8), 2, 1, 177);
    Leaf(45, Code(19, 0x7fff8), 2, 2, 179);
  }

  lemma Node45From3()
    ensures Agrees(209) && Agrees(216) && Agrees(217) && Agrees(227) && Agrees(229)
  {
    hide Agrees, Path, Reaches;
    Node39From6();
    Leaf(45, Code(19, 0x7fff8), 2, 3, 209); Leaf(46, Code(19, 0x7fff9), 2, 0, 216);
    Leaf(46, Code(19, 0x7fff9), 2, 1, 217); Leaf(46, Code(19, 0x7fff9), 2, 2, 227);
    Leaf(46, Code(19, 0x7fff9), 2, 3, 229);
  }

  lemma Node47From0()
    ensures Reaches(53, Code(21, 0x1fffe9)) && Reaches(54, Code(21, 0x1fffea))
    ensures Reaches(55, Code(21, 0x1fffeb))
    ensures Agrees(230) && Agrees(154)
  {
    hide Agrees, Path, Reaches;
    Node39From6();
    Node39From11();
    Leaf(47, Code(19, 0x7fffa), 2, 0, 230); Child(47, Code(19, 0x7fffa), 2, 1, 53);
    Child(47, Code(19, 0x7fffa), 2, 2, 54); Child(47, Code(19, 0x7fffa), 2, 3, 55);
    Leaf(48, Code(19, 0x7fffb), 3, 0, 154);
  }

  lemma Node48From1()
    ensures Agrees(156) && Agrees(160) && Agrees(163) && Agrees(164) && Agrees(169)
  {
    hide Agrees, Path, Reaches;
    Node39From11();
    Leaf(48, Code(19, 0x7fffb), 3, 1, 156); Leaf(48, Code(19, 0x7fffb), 3, 2, 160);
    Leaf(48, Code(19, 0x7fffb), 3, 3, 163); Leaf(48, Code(19, 0x7fffb), 3, 4, 164);
    Leaf(48, Code(19, 0x7fffb), 3, 5, 169);
  }

  lemma Node48From6()
    ensures Agrees(170) && Agrees(173) && Agrees(178) && Agrees(181) && Agrees(185)
  {
    hide Agrees, Path, Reaches;
    Node39From11();
    Leaf(48, Code(19, 0x7fffb), 3, 6, 170); Leaf(48, Code(19, 0x7fffb), 3, 7, 173);
    Leaf(49, Code(19, 0x7fffc), 3, 0, 178); Leaf(49, Code(19, 0x7fffc), 3, 1, 181);
    Leaf(49, Code(19, 0x7fffc), 3, 2, 185);
  }

  lemma Node49From3()
    ensures Agrees(186) && Agrees(187) && Agrees(189) && Agrees(190) && Agrees(196)
  {
    hide Agrees, Path, Reaches;
    Node39From11();
    Leaf(49, Code(19, 0x7fffc), 3, 3, 186); Leaf(49, Code(19, 0x7fffc), 3, 4, 187);
    Leaf(49, Code(19, 0x7fffc), 3, 5, 189); Leaf(49, Code(19, 0x7fffc), 3, 6, 190);
    Leaf(49, Code(19, 0x7fffc), 3, 7, 196);
  }

  lemma Node50From0()
    ensures Reaches(56, Code(22, 0x3fffec))
    ensures Agrees(198) && Agrees(228) && Agrees(232) && Agrees(233)
  {
    hide Agrees, Path, Reaches;
    Node39From11();
    Leaf(50, Code(19, 0x7fffd), 3, 0, 198); Leaf(50, Code(19, 0x7fffd), 3, 1, 228);
    Leaf(50, Code(19, 0x7fffd), 3, 2, 232); Leaf(50, Code(19, 0x7fffd), 3, 3, 233);
    Child(50, Code(19, 0x7fffd), 3, 4, 56);
  }

  lemma Node50From5()
    ensures Reaches(57, Code(22, 0x3fffed)) && Reaches(58, Code(22, 0x3fffee))
    ensures Reaches(59, Code(22, 0x3fffef))
    ensures Agrees(147) && Agrees(149)
  {
    hide Agrees, Path, Reaches;
    Node39From11();
    Child(50, Code(19, 0x7fffd), 3, 5, 57); Child(50, Code(19, 0x7fffd), 3, 6, 58);
    Child(50, Code(19, 0x7fffd), 3, 7, 59); Leaf(51, Code(19, 0x7fffe), 4, 0, 147);
    Leaf(51, Code(19, 0x7fffe), 4, 1, 149);
  }

  lemma Node51From2()
    ensures Agrees(150) && Agrees(151) && Agrees(152) && Agrees(155) && Agrees(157)
  {
    hide Agrees, Path, Reaches;
    Node39From11();
    Leaf(51, Code(19, 0x7fffe), 4, 2, 150); Leaf(51, Code(19, 0x7fffe), 4, 3, 151);
    Leaf(51, Code(19, 0x7fffe), 4, 4, 152); Leaf(51, Code(19, 0x7fffe), 4, 5, 155);
    Leaf(51, Code(19, 0x7fffe), 4, 6, 157);
  }

  lemma Node51From7()
    ensures Agrees(158) && Agrees(165) && Agrees(166) && Agrees(168) && Agrees(174)
  {
    hide Agrees, Path, Reaches;
    Node39From11();
    Leaf(51, Code(19, 0x7fffe), 4, 7, 158); Leaf(51, Code(19, 0x7fffe), 4, 8, 165);
    Leaf(51, Code(19, 0x7fffe), 4, 9, 166); Leaf(51, Code(19, 0x7fffe), 4, 10, 168);
    Leaf(51, Code(19, 0x7fffe), 4, 11, 174);
  }

  lemma Node51From12()
    ensures Agrees(175) && Agrees(180) && Agrees(182) && Agrees(183) && Agrees(188)
  {
    hide Agrees, Path, Reaches;
    Node39From11();
    Leaf(51, Code(19, 0x7fffe), 4, 12, 175); Leaf(51, Code(19, 0x7fffe), 4, 13, 180);
    Leaf(51, Code(19, 0x7fffe), 4, 14, 182); Leaf(51, Code(19, 0x7fffe), 4, 15, 183);
    Leaf(52, Code(19, 0x7ffff), 4, 0, 188);
  }

  lemma Node52From1()
    ensures Reaches(60, Code(23, 0x7ffff5))
    ensures Agrees(191) && Agrees(197) && Agrees(231) && Agrees(239)
  {
    hide Agrees, Path, Reaches;
    Node39From11();
    Leaf(52, Code(19, 0x7ffff), 4, 1, 191); Leaf(52, Code(19, 0x7ffff), 4, 2, 197);
    Leaf(52, Code(19, 0x7ffff), 4, 3, 231); Leaf(52, Code(19, 0x7ffff), 4, 4, 239);
    Child(52, Code(19, 0x7ffff), 4, 5, 60);
  }

  lemma Node52From6()
    ensures Reaches(61, Code(23, 0x7ffff6)) && Reaches(62, Code(23, 0x7ffff7))
    ensures Reaches(63, Code(23, 0x7ffff8)) && Reaches(64, Code(23, 0x7ffff9))
    ensures Reaches(65, Code(23, 0x7ffffa))
  {
    hide Agrees, Path, Reaches;
    Node39From11();
    Child(52, Code(19, 0x7ffff), 4, 6, 61); Child(52, Code(19, 0x7ffff), 4, 7, 62);
    Child(52, Code(19, 0x7ffff), 4, 8, 63); Child(52, Code(19, 0x7ffff), 4, 9, 64);
    Child(52, Code(19, 0x7ffff), 4, 10, 65);
  }

  lemma Node52From11()
    ensures Reaches(66, Code(23, 0x7ffffb)) && Reaches(67, Code(23, 0x7ffffc))
    ensures Reaches(68, Code(23, 0x7ffffd)) && Reaches(69, Code(23, 0x7ffffe))
    ensures Reaches(70, Code(23, 0x7fffff))
  {
    hide Agrees, Path, Reaches;
    Node39From11();
    Child(52, Code(19, 0x7ffff), 4, 11, 66); Child(52, Code(19, 0x7ffff), 4, 12, 67);
    Child(52, Code(19, 0x7ffff), 4, 13, 68); Child(52, Code(19, 0x7ffff), 4, 14, 69);
    Child(52, Code(19, 0x7ffff), 4, 15, 70);
  }

  lemma Node53From0()
    ensures Agrees(129) && Agrees(132) && Agrees(133) && Agrees(134) && Agrees(136)
  {
    hide Agrees, Path, Reaches;
    Node47From0();
    Leaf(53, Code(21, 0x1fffe9), 1, 0, 129); Leaf(53, Code(21, 0x1fffe9), 1, 1, 132);
    Leaf(54, Code(21, 0x1fffea), 1, 0, 133); Leaf(54, Code(21, 0x1fffea), 1, 1, 134);
    Leaf(55, Code(21, 0x1fffeb), 1, 0, 136);
  }

  lemma Node55From1()
    ensures Agrees(146) && Agrees(1) && Agrees(135) && Agrees(137) && Agrees(138)
  {
    hide Agrees, Path, Reaches;
    Node47From0();
    Node50From0();
    Node50From5();
    Leaf(55, Code(21, 0x1fffeb), 1, 1, 146); Leaf(56, Code(22, 0x3fffec), 1, 0, 1);
    Leaf(56, Code(22, 0x3fffec), 1, 1, 135); Leaf(57, Code(22, 0x3fffed), 1, 0, 137);
    Leaf(57, Code(22, 0x3fffed), 1, 1, 138);
  }

  lemma Node58From0()
    ensures Agrees(139) && Agrees(140) && Agrees(141) && Agrees(143) && Agrees(9)
  {
    hide Agrees, Path, Reaches;
    Node50From5();
    Node52From1();
    Leaf(58, Code(22, 0x3fffee), 1, 0, 139); Leaf(58, Code(22, 0x3fffee), 1, 1, 140);
    Leaf(59, Code(22, 0x3fffef), 1, 0, 141); Leaf(59, Code(22, 0x3fffef), 1, 1, 143);
    Leaf(60, Code(23, 0x7ffff5), 1, 0, 9);
  }

  lemma Node60From1()
    ensures Agrees(142) && Agrees(144) && Agrees(145) && Agrees(148) && Agrees(159)
  {
    hide Agrees, Path, Reaches;
    Node52From1();
    Node52From6();
    Leaf(60, Code(23, 0x7ffff5), 1, 1, 142); Leaf(61, Code(23, 0x7ffff6), 1, 0, 144);
    Leaf(61, Code(23, 0x7ffff6), 1, 1, 145); Leaf(62, Code(23, 0x7ffff7), 1, 0, 148);
    Leaf(62, Code(23, 0x7ffff7), 1, 1, 159);
  }

  lemma Node63From0()
    ensures Agrees(171) && Agrees(206) && Agrees(215) && Agrees(225) && Agrees(236)
  {
    hide Agrees, Path, Reaches;
    Node52From6();
    Leaf(63, Code(23, 0x7ffff8), 1, 0, 171); Leaf(63, Code(23, 0x7ffff8), 1, 1, 206);
    Leaf(64, Code(23, 0x7ffff9), 1, 0, 215); Leaf(64, Code(23, 0x7ffff9), 1, 1, 225);
    Leaf(65, Code(23, 0x7ffffa), 1, 0, 236);
  }

  lemma Node65From1()
    ensures Agrees(237) && Agrees(199) && Agrees(207) && Agrees(234) && Agrees(235)
  {
    hide Agrees, Path, Reaches;
    Node52From6();
    Node52From11();
    Leaf(65, Code(23, 0x7ffffa), 1, 1, 237); Leaf(66, Code(23, 0x7ffffb), 2, 0, 199);
    Leaf(66, Code(23, 0x7ffffb), 2, 1, 207); Leaf(66, Code(23, 0x7ffffb), 2, 2, 234);
    Leaf(66, Code(23, 0x7ffffb), 2, 3, 235);
  }

  lemma Node67From0()
    ensures Agrees(192) && Agrees(193) && Agrees(200) && Agrees(201) && Agrees(202)
  {
    hide Agrees, Path, Reaches;
    Node52From11();
    Leaf(67, Code(23, 0x7ffffc), 3, 0, 192); Leaf(67, Code(23, 0x7ffffc), 3, 1, 193);
    Leaf(67, Code(23, 0x7ffffc), 3, 2, 200); Leaf(67, Code(23, 0x7ffffc), 3, 3, 201);
    Leaf(67, Code(23, 0x7ffffc), 3, 4, 202);
  }

  lemma Node67From5()
    ensures Agrees(205) && Agrees(210) && Agrees(213) && Agrees(218) && Agrees(219)
  {
    hide Agrees, Path, Reaches;
    Node52From11();
    Leaf(67, Code(23, 0x7ffffc), 3, 5, 205); Leaf(67, Code(23, 0x7ffffc), 3, 6, 210);
    Leaf(67, Code(23, 0x7ffffc), 3, 7, 213); Leaf(68, Code(23, 0x7ffffd), 3, 0, 218);
    Leaf(68, Code(23, 0x7ffffd), 3, 1, 219);
  }

  lemma Node68From2()
    ensures Agrees(238) && Agrees(240) && Agrees(242) && Agrees(243) && Agrees(255)
  {
    hide Agrees, Path, Reaches;
    Node52From11();
    Leaf(68, Code(23, 0x7ffffd), 3, 2, 238); Leaf(68, Code(23, 0x7ffffd), 3, 3, 240);
    Leaf(68, Code(23, 0x7ffffd), 3, 4, 242); Leaf(68, Code(23, 0x7ffffd), 3, 5, 243);
    Leaf(68, Code(23, 0x7ffffd), 3, 6, 255);
  }

  lemma Node68From7()
    ensures Reaches(71, Code(26, 0x3ffffef))
    ensures Agrees(211) && Agrees(212) && Agrees(214) && Agrees(221)
  {
    hide Agrees, Path, Reaches;
    Node52From11();
    Child(68, Code(23, 0x7ffffd), 3, 7, 71); Leaf(69, Code(23, 0x7ffffe), 4, 0, 211);
    Leaf(69, Code(23, 0x7ffffe), 4, 1, 212); Leaf(69, Code(23, 0x7ffffe), 4, 2, 214);
    Leaf(69, Code(23, 0x7ffffe), 4, 3, 221);
  }

  lemma Node69From4()
    ensures Agrees(222) && Agrees(223) && Agrees(241) && Agrees(244) && Agrees(245)
  {
    hide Agrees, Path, Reaches;
    Node52From11();
    Leaf(69, Code(23, 0x7ffffe), 4, 4, 222); Leaf(69, Code(23, 0x7ffffe), 4, 5, 223);
    Leaf(69, Code(23, 0x7ffffe), 4, 6, 241); Leaf(69, Code(23, 0x7ffffe), 4, 7, 244);
    Leaf(69, Code(23, 0x7ffffe), 4, 8, 245);
  }

  lemma Node69From9()
    ensures Agrees(246) && Agrees(247) && Agrees(248) && Agrees(250) && Agrees(251)
  {
    hide Agrees, Path, Reaches;
    Node52From11();
    Leaf(69, Code(23, 0x7ffffe), 4, 9, 246); Leaf(69, Code(23, 0x7ffffe), 4, 10, 247);
    Leaf(69, Code(23, 0x7ffffe), 4, 11, 248); Leaf(69, Code(23, 0x7ffffe), 4, 12, 250);
    Leaf(69, Code(23, 0x7ffffe), 4, 13, 251);
  }

  lemma Node69From14()
    ensures Reaches(72, Code(27, 0x7fffff1)) && Reaches(73, Code(27, 0x7fffff2))
    ensures Agrees(252) && Agrees(253) && Agrees(254)
  {
    hide Agrees, Path, Reaches;
    Node52From11();
    Leaf(69, Code(23, 0x7ffffe), 4, 14, 252); Leaf(69, Code(23, 0x7ffffe), 4, 15, 253);
    Leaf(70, Code(23, 0x7fffff), 4, 0, 254); Child(70, Code(23, 0x7fffff), 4, 1, 72);
    Child(70, Code(23, 0x7fffff), 4, 2, 73);
  }

  lemma Node70From3()
    ensures Reaches(74, Code(27, 0x7fffff3)) && Reaches(75, Code(27, 0x7fffff4))
    ensures Reaches(76, Code(27, 0x7fffff5)) && Reaches(77, Code(27, 0x7fffff6))
    ensures Reaches(78, Code(27, 0x7fffff7))
  {
    hide Agrees, Path, Reaches;
    Node52From11();
    Child(70, Code(23, 0x7fffff), 4, 3, 74); Child(70, Code(23, 0x7fffff), 4, 4, 75);
    Child(70, Code(23, 0x7fffff), 4, 5, 76); Child(70, Code(23, 0x7fffff), 4, 6, 77);
    Child(70, Code(23, 0x7fffff), 4, 7, 78);
  }

  lemma Node70From8()
    ensures Reaches(79, Code(27, 0x7fffff8)) && Reaches(80, Code(27, 0x7fffff9))
    ensures Reaches(81, Code(27, 0x7fffffa)) && Reaches(82, Code(27, 0x7fffffb))
    ensures Reaches(83, Code(27, 0x7fffffc))
  {
    hide Agrees, Path, Reaches;
    Node52From11();
    Child(70, Code(23, 0x7fffff), 4, 8, 79); Child(70, Code(23, 0x7fffff), 4, 9, 80);
    Child(70, Code(23, 0x7fffff), 4, 10, 81); Child(70, Code(23, 0x7fffff), 4, 11, 82);
    Child(70, Code(23, 0x7fffff), 4, 12, 83);
  }

  lemma Node70From13()
    ensures Reaches(84, Code(27, 0x7fffffd)) && Reaches(85, Code(27, 0x7fffffe))
    ensures Reaches(86, Code(27, 0x7ffffff))
  {
    hide Agrees, Path, Reaches;
    Node52From11();
    Child(70, Code(23, 0x7fffff), 4, 13, 84); Child(70, Code(23, 0x7fffff), 4, 14, 85);
    Child(70, Code(23, 0x7fffff), 4, 15, 86);
  }

  lemma Node71From0()
    ensures Agrees(203) && Agrees(204)
  {
    hide Agrees, Path, Reaches;
    Node68From7();
    Leaf(71, Code(26, 0x3ffffef), 1, 0, 203); Leaf(71, Code(26, 0x3ffffef), 1, 1, 204);
  }

  lemma Node72From0()
    ensures Agrees(2) && Agrees(3) && Agrees(4) && Agrees(5) && Agrees(6)
  {
    hide Agrees, Path, Reaches;
    Node69From14();
    Node70From3();
    Leaf(72, Code(27, 0x7fffff1), 1, 0, 2); Leaf(72, Code(27, 0x7fffff1), 1, 1, 3);
    Leaf(73, Code(27, 0x7fffff2), 1, 0, 4); Leaf(73, Code(27, 0x7fffff2), 1, 1, 5);
    Leaf(74, Code(27, 0x7fffff3), 1, 0, 6);
  }

  lemma Node74From1()
    ensures Agrees(7) && Agrees(8) && Agrees(11) && Agrees(12) && Agrees(14)
  {
    hide Agrees, Path, Reaches;
    Node70From3();
    Leaf(74, Code(27, 0x7fffff3), 1, 1, 7); Leaf(75, Code(27, 0x7fffff4), 1, 0, 8);
    Leaf(75, Code(27, 0x7fffff4), 1, 1, 11); Leaf(76, Code(27, 0x7fffff5), 1, 0, 12);
    Leaf(76, Code(27, 0x7fffff5), 1, 1, 14);
  }

  lemma Node77From0()
    ensures Agrees(15) && Agrees(16) && Agrees(17) && Agrees(18) && Agrees(19)
  {
    hide Agrees, Path, Reaches;
    Node70From3();
    Node70From8();
    Leaf(77, Code(27, 0x7fffff6), 1, 0, 15); Leaf(77, Code(27, 0x7fffff6), 1, 1, 16);
    Leaf(78, Code(27, 0x7fffff7), 1, 0, 17); Leaf(78, Code(27, 0x7fffff7), 1, 1, 18);
    Leaf(79, Code(27, 0x7fffff8), 1, 0, 19);
  }

  lemma Node79From1()
    ensures Agrees(20) && Agrees(21) && Agrees(23) && Agrees(24) && Agrees(25)
  {
    hide Agrees, Path, Reaches;
    Node70From8();
    Leaf(79, Code(27, 0x7fffff8), 1, 1, 20); Leaf(80, Code(27, 0x7fffff9), 1, 0, 21);
    Leaf(80, Code(27, 0x7fffff9), 1, 1, 23); Leaf(81, Code(27, 0x7fffffa), 1, 0, 24);
    Leaf(81, Code(27, 0x7fffffa), 1, 1, 25);
  }

  lemma Node82From0()
    ensures Agrees(26) && Agrees(27) && Agrees(28) && Agrees(29) && Agrees(30)
  {
    hide Agrees, Path, Reaches;
    Node70From8();
    Node70From13();
    Leaf(82, Code(27, 0x7fffffb), 1, 0, 26); Leaf(82, Code(27, 0x7fffffb), 1, 1, 27);
    Leaf(83, Code(27, 0x7fffffc), 1, 0, 28); Leaf(83, Code(27, 0x7fffffc), 1, 1, 29);
    Leaf(84, Code(27, 0x7fffffd), 1, 0, 30);
  }

  lemma Node84From1()
    ensures Reaches(87, Code(28, 0xfffffff))
    ensures Agrees(31) && Agrees(127) && Agrees(220) && Agrees(249)
  {
    hide Agrees, Path, Reaches;
    Node70From13();
    Leaf(84, Code(27, 0x7fffffd), 1, 1, 31); Leaf(85, Code(27, 0x7fffffe), 1, 0, 127);
    Leaf(85, Code(27, 0x7fffffe), 1, 1, 220); Leaf(86, Code(27, 0x7ffffff), 1, 0, 249);
    Child(86, Code(27, 0x7ffffff), 1, 1, 87);
  }

  lemma Node87From0()
    ensures Agrees(10) && Agrees(13) && Agrees(22)
  {
    hide Agrees, Path, Reaches;
    Node84From1();
    Leaf(87, Code(28, 0xfffffff), 2, 0, 10); Leaf(87, Code(28, 0xfffffff), 2, 1, 13);
    Leaf(87, Code(28, 0xfffffff), 2, 2, 22);
  }

  /** The encoder's table and the decoder's tree describe the same code. */
  lemma TablesAgree(symbol: byte)
    ensures Agrees(symbol)
  {
    hide Agrees;
    hide Reaches;
    Node0From0(); Node0From5(); Node0From10(); Node0From15(); Node0From20(); Node0From25(); Node0From30();
    Node2From1(); Node5From0(); Node7From1(); Node10From0(); Node12From1(); Node14From2(); Node15From3();
    Node17From0(); Node18From1(); Node19From2(); Node20From3(); Node22From0(); Node23From1(); Node26From0();
    Node27From3(); Node30From0(); Node31From1(); Node33From2(); Node34From3(); Node37From0(); Node39From1();
    Node39From6(); Node39From11(); Node40From0(); Node42From1(); Node44From2(); Node45From3(); Node47From0();
    Node48From1(); Node48From6(); Node49From3(); Node50From0(); Node50From5(); Node51From2(); Node51From7();
    Node51From12(); Node52From1(); Node52From6(); Node52From11(); Node53From0(); Node55From1(); Node58From0();
    Node60From1(); Node63From0(); Node65From1(); Node67From0(); Node67From5(); Node68From2(); Node68From7();
    Node69From4(); Node69From9(); Node69From14(); Node70From3(); Node70From8(); Node70From13(); Node71From0();
    Node72From0(); Node74From1(); Node77From0(); Node79From1(); Node82From0(); Node84From1(); Node87From0();
  }
}
