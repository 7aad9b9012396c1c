/** The decoder's tree holds nothing but the code: every entry of every table stands for the bits that lead
    to it. */
module HuffmanTree {
  import opened Octets
  import opened HuffmanTables
  import opened HuffmanAgreement

  function PrefixesFrom00(node: nat): (c: Code) {
    match node
    case 0 => Code(0, 0x0) case 1 => Code(5, 0xa) case 2 => Code(5, 0xb)
    case 3 => Code(5, 0xc) case 4 => Code(5, 0xd) case 5 => Code(5, 0xe)
    case 6 => Code(5, 0xf) case 7 => Code(5, 0x10) case 8 => Code(5, 0x11)
    case 9 => Code(5, 0x12) case 10 => Code(5, 0x13) case 11 => Code(5, 0x14)
    case 12 => Code(5, 0x15) case 13 => Code(5, 0x16) case 14 => Code(5, 0x17)
    case _ => Code(5, 0x18)
  }

  function PrefixesFrom16(node: nat): (c: Code) {
    match node
    case 16 => Code(5, 0x19) case 17 => Code(5, 0x1a) case 18 => Code(5, 0x1b)
    case 19 => Code(5, 0x1c) case 20 => Code(5, 0x1d) case 21 => Code(5, 0x1e)
    case 22 => Code(5, 0x1f) case 23 => Code(7, 0x7c) case 24 => Code(7, 0x7d)
    case 25 => Code(7, 0x7e) case 26 => Code(7, 0x7f) case 27 => Code(8, 0xfe)
    case 28 => Code(8, 0xff) case 29 => Code(9, 0x1fe) case 30 => Code(9, 0x1ff)
    case _ => Code(10, 0x3fd)
  }

  function PrefixesFrom32(node: nat): (c: Code) {
    match node
    case 32 => Code(11, 0x7fd) case 33 => Code(11, 0x7fe) case 34 => Code(11, 0x7ff)
    case 35 => Code(13, 0x1ffe) case 36 => Code(13, 0x1fff) case 37 => Code(14, 0x3ffe)
    case 38 => Code(14, 0x3fff) case 39 => Code(15, 0x7fff) case 40 => Code(19, 0x7fff3)
    case 41 => Code(19, 0x7fff4) case 42 => Code(19, 0x7fff5) case 43 => Code(19, 0x7fff6)
    case 44 => Code(19, 0x7fff7) case 45 => Code(19, 0x7fff8) case 46 => Code(19, 0x7fff9)
    case _ => Code(19, 0x7fffa)
  }

  function PrefixesFrom48(node: nat): (c: Code) {
    match node
    case 48 => Code(19, 0x7fffb) case 49 => Code(19, 0x7fffc) case 50 => Code(19, 0x7fffd)
    case 51 => Code(19, 0x7fffe) case 52 => Code(19, 0x7ffff) case 53 => Code(21, 0x1fffe9)
    case 54 => Code(21, 0x1fffea) case 55 => Code(21, 0x1fffeb) case 56 => Code(22, 0x3fffec)
    case 57 => Code(22, 0x3fffed) case 58 => Code(22, 0x3fffee) case 59 => Code(22, 0x3fffef)
    case 60 => Code(23, 0x7ffff5) case 61 => Code(23, 0x7ffff6) case 62 => Code(23, 0x7ffff7)
    case _ => Code(23, 0x7ffff8)
  }

  function PrefixesFrom64(node: nat): (c: Code) {
    match node
    case 64 => Code(23, 0x7ffff9) case 65 => Code(23, 0x7ffffa) case 66 => Code(23, 0x7ffffb)
    case 67 => Code(23, 0x7ffffc) case 68 => Code(23, 0x7ffffd) case 69 => Code(23, 0x7ffffe)
    case 70 => Code(23, 0x7fffff) case 71 => Code(26, 0x3ffffef) case 72 => Code(27, 0x7fffff1)
    case 73 => Code(27, 0x7fffff2) case 74 => Code(27, 0x7fffff3) case 75 => Code(27, 0x7fffff4)
    case 76 => Code(27, 0x7fffff5) case 77 => Code(27, 0x7fffff6) case 78 => Code(27, 0x7fffff7)
    case _ => Code(27, 0x7fffff8)
  }

  function PrefixesFrom80(node: nat): (c: Code) {
    match node
    case 80 => Code(27, 0x7fffff9) case 81 => Code(27, 0x7fffffa) case 82 => Code(27, 0x7fffffb)
    case 83 => Code(27, 0x7fffffc) case 84 => Code(27, 0x7fffffd) case 85 => Code(27, 0x7fffffe)
    case 86 => Code(27, 0x7ffffff) case 87 => Code(28, 0xfffffff) case _ => Code(30, 0x3fffffff)
  }

  /** The bits that lead from the root to a table. */
  function PrefixOf(node: Node): (c: Code) {
    if node < 16 then PrefixesFrom00(node) else
    if node < 32 then PrefixesFrom16(node) else
    if node < 48 then PrefixesFrom32(node) else
    if node < 64 then PrefixesFrom48(node) else
    if node < 80 then PrefixesFrom64(node) else
    PrefixesFrom80(node)
  }

  /** A symbol's code is the bits of its table and its place there, and so are the bits of a table below. Only
      the table behind the code of the end of a string is empty. */
  predicate Placed(node: Node, index: nat) {
    var c := Append(PrefixOf(node), Lookup(node), index);
    match At(node, index)
    case Sym(x) => CodeOf(x) == c
    case Partial(child) => PrefixOf(child) == c
    case Missing => node == 88
  }

  lemma RootLow(node: Node, index: nat)
    requires 0 <= node < 1 && index < 10
    ensures Placed(node, index)
  {
    hide At, CodeOf, Shl;
    RootSymbols(node, index);
    ShlByte(PrefixOf(node).code);
  }

  lemma RootSymbols(node: Node, index: nat)
    requires 0 <= node < 1 && index < 10
    ensures At(node, index).Sym? && CodeOf(At(node, index).symbol) == Code(5, index)
  {
  }

  lemma RootHigh(node: Node, index: nat)
    requires 0 <= node < 1 && 10 <= index < 32
    ensures Placed(node, index)
  {
    hide At, CodeOf, Shl;
    RootTables(node, index);
    RootChildren(index - 9);
    ShlByte(PrefixOf(node).code);
  }

  lemma RootSize(index: nat)
    requires index < Pow2(Lookup(ROOT))
    ensures index < 32
  {
    ShlByte(1);
  }

  lemma RootTables(node: Node, index: nat)
    requires 0 <= node < 1 && 10 <= index < 32
    ensures At(node, index) == Partial(index - 9)
  {
  }

  lemma RootChildren(node: Node)
    requires 1 <= node < 23
    ensures PrefixOf(node) == Code(5, node + 9)
  {
  }

  lemma PlacedFrom01(node: Node, index: nat)
    requires 1 <= node < 4 && index < Pow2(Lookup(node))
    ensures Placed(node, index)
  {
    ShlByte(1);
    ShlByte(PrefixOf(node).code);
    hide Shl;
  }

  lemma PlacedFrom04(node: Node, index: nat)
    requires 4 <= node < 7 && index < Pow2(Lookup(node))
    ensures Placed(node, index)
  {
    ShlByte(1);
    ShlByte(PrefixOf(node).code);
    hide Shl;
  }

  lemma PlacedFrom07(node: Node, index: nat)
    requires 7 <= node < 10 && index < Pow2(Lookup(node))
    ensures Placed(node, index)
  {
    ShlByte(1);
    ShlByte(PrefixOf(node).code);
    hide Shl;
  }

  lemma PlacedFrom10(node: Node, index: nat)
    requires 10 <= node < 13 && index < Pow2(Lookup(node))
    ensures Placed(node, index)
  {
    ShlByte(1);
    ShlByte(PrefixOf(node).code);
    hide Shl;
  }

  lemma PlacedFrom13(node: Node, index: nat)
    requires 13 <= node < 15 && index < Pow2(Lookup(node))
    ensures Placed(node, index)
  {
    ShlByte(1);
    ShlByte(PrefixOf(node).code);
    hide Shl;
  }

  lemma PlacedFrom15(node: Node, index: nat)
    requires 15 <= node < 16 && index < Pow2(Lookup(node))
    ensures Placed(node, index)
  {
    ShlByte(1);
    ShlByte(PrefixOf(node).code);
    hide Shl;
  }

  lemma PlacedFrom16(node: Node, index: nat)
    requires 16 <= node < 17 && index < Pow2(Lookup(node))
    ensures Placed(node, index)
  {
    ShlByte(1);
    ShlByte(PrefixOf(node).code);
    hide Shl;
  }

  lemma PlacedFrom17(node: Node, index: nat)
    requires 17 <= node < 18 && index < Pow2(Lookup(node))
    ensures Placed(node, index)
  {
    ShlByte(1);
    ShlByte(PrefixOf(node).code);
    hide Shl;
  }

  lemma PlacedFrom18(node: Node, index: nat)
    requires 18 <= node < 19 && index < Pow2(Lookup(node))
    ensures Placed(node, index)
  {
    ShlByte(1);
    ShlByte(PrefixOf(node).code);
    hide Shl;
  }

  lemma PlacedFrom19(node: Node, index: nat)
    requires 19 <= node < 20 && index < Pow2(Lookup(node))
    ensures Placed(node, index)
  {
    ShlByte(1);
    ShlByte(PrefixOf(node).code);
    hide Shl;
  }

  lemma PlacedFrom20(node: Node, index: nat)
    requires 20 <= node < 21 && index < Pow2(Lookup(node))
    ensures Placed(node, index)
  {
    ShlByte(1);
    ShlByte(PrefixOf(node).code);
    hide Shl;
  }

  lemma PlacedFrom21(node: Node, index: nat)
    requires 21 <= node < 22 && index < Pow2(Lookup(node))
    ensures Placed(node, index)
  {
    ShlByte(1);
    ShlByte(PrefixOf(node).code);
    hide Shl;
  }

  lemma PlacedFrom22(node: Node, index: nat)
    requires 22 <= node < 24 && index < Pow2(Lookup(node))
    ensures Placed(node, index)
  {
    ShlByte(1);
    ShlByte(PrefixOf(node).code);
    hide Shl;
  }

  lemma PlacedFrom24(node: Node, index: nat)
    requires 24 <= node < 27 && index < Pow2(Lookup(node))
    ensures Placed(node, index)
  {
    ShlByte(1);
    ShlByte(PrefixOf(node).code);
    hide Shl;
  }

  lemma PlacedFrom27(node: Node, index: nat)
    requires 27 <= node < 29 && index < Pow2(Lookup(node))
    ensures Placed(node, index)
  {
    ShlByte(1);
    ShlByte(PrefixOf(node).code);
    hide Shl;
  }

  lemma PlacedFrom29(node: Node, index: nat)
    requires 29 <= node < 31 && index < Pow2(Lookup(node))
    ensures Placed(node, index)
  {
    ShlByte(1);
    ShlByte(PrefixOf(node).code);
    hide Shl;
  }

  lemma PlacedFrom31(node: Node, index: nat)
    requires 31 <= node < 33 && index < Pow2(Lookup(node))
    ensures Placed(node, index)
  {
    ShlByte(1);
    ShlByte(PrefixOf(node).code);
    hide Shl;
  }

  lemma PlacedFrom33(node: Node, index: nat)
    requires 33 <= node < 34 && index < Pow2(Lookup(node))
    ensures Placed(node, index)
  {
    ShlByte(1);
    ShlByte(PrefixOf(node).code);
    hide Shl;
  }

  lemma PlacedFrom34(node: Node, index: nat)
    requires 34 <= node < 36 && index < Pow2(Lookup(node))
    ensures Placed(node, index)
  {
    ShlByte(1);
    ShlByte(PrefixOf(node).code);
    hide Shl;
  }

  lemma PlacedFrom36(node: Node, index: nat)
    requires 36 <= node < 39 && index < Pow2(Lookup(node))
    ensures Placed(node, index)
  {
    ShlByte(1);
    ShlByte(PrefixOf(node).code);
    hide Shl;
  }

  lemma PlacedFrom39(node: Node, index: nat)
    requires 39 <= node < 40 && index < Pow2(Lookup(node))
    ensures Placed(node, index)
  {
    ShlByte(1);
    ShlByte(PrefixOf(node).code);
    hide Shl;
  }

  lemma PlacedFrom40(node: Node, index: nat)
    requires 40 <= node < 43 && index < Pow2(Lookup(node))
    ensures Placed(node, index)
  {
    ShlByte(1);
    ShlByte(PrefixOf(node).code);
    hide Shl;
  }

  lemma PlacedFrom43(node: Node, index: nat)
    requires 43 <= node < 45 && index < Pow2(Lookup(node))
    ensures Placed(node, index)
  {
    ShlByte(1);
    ShlByte(PrefixOf(node).code);
    hide Shl;
  }

  lemma PlacedFrom45(node: Node, index: nat)
    requires 45 <= node < 46 && index < Pow2(Lookup(node))
    ensures Placed(node, index)
  {
    ShlByte(1);
    ShlByte(PrefixOf(node).code);
    hide Shl;
  }

  lemma PlacedFrom46(node: Node, index: nat)
    requires 46 <= node < 47 && index < Pow2(Lookup(node))
    ensures Placed(node, index)
  {
    ShlByte(1);
    ShlByte(PrefixOf(node).code);
    hide Shl;
  }

  lemma PlacedFrom47(node: Node, index: nat)
    requires 47 <= node < 48 && index < Pow2(Lookup(node))
    ensures Placed(node, index)
  {
    ShlByte(1);
    ShlByte(PrefixOf(node).code);
    hide Shl;
  }

  lemma PlacedFrom48(node: Node, index: nat)
    requires 48 <= node < 49 && index < Pow2(Lookup(node))
    ensures Placed(node, index)
  {
    ShlByte(1);
    ShlByte(PrefixOf(node).code);
    hide Shl;
  }

  lemma PlacedFrom49(node: Node, index: nat)
    requires 49 <= node < 50 && index < Pow2(Lookup(node))
    ensures Placed(node, index)
  {
    ShlByte(1);
    ShlByte(PrefixOf(node).code);
    hide Shl;
  }

  lemma PlacedFrom50(node: Node, index: nat)
    requires 50 <= node < 51 && index < Pow2(Lookup(node))
    ensures Placed(node, index)
  {
    ShlByte(1);
    ShlByte(PrefixOf(node).code);
    hide Shl;
  }

  lemma PlacedFrom51(node: Node, index: nat)
    requires 51 <= node < 52 && index < Pow2(Lookup(node))
    ensures Placed(node, index)
  {
    ShlByte(1);
    ShlByte(PrefixOf(node).code);
    hide Shl;
  }

  lemma PlacedFrom52(node: Node, index: nat)
    requires 52 <= node < 53 && index < Pow2(Lookup(node))
    ensures Placed(node, index)
  {
    ShlByte(1);
    ShlByte(PrefixOf(node).code);
    hide Shl;
  }

  lemma PlacedFrom53(node: Node, index: nat)
    requires 53 <= node < 56 && index < Pow2(Lookup(node))
    ensures Placed(node, index)
  {
    ShlByte(1);
    ShlByte(PrefixOf(node).code);
    hide Shl;
  }

  lemma PlacedFrom56(node: Node, index: nat)
    requires 56 <= node < 59 && index < Pow2(Lookup(node))
    ensures Placed(node, index)
  {
    ShlByte(1);
    ShlByte(PrefixOf(node).code);
    hide Shl;
  }

  lemma PlacedFrom59(node: Node, index: nat)
    requires 59 <= node < 62 && index < Pow2(Lookup(node))
    ensures Placed(node, index)
  {
    ShlByte(1);
    ShlByte(PrefixOf(node).code);
    hide Shl;
  }

  lemma PlacedFrom62(node: Node, index: nat)
    requires 62 <= node < 65 && index < Pow2(Lookup(node))
    ensures Placed(node, index)
  {
    ShlByte(1);
    ShlByte(PrefixOf(node).code);
    hide Shl;
  }

  lemma PlacedFrom65(node: Node, index: nat)
    requires 65 <= node < 67 && index < Pow2(Lookup(node))
    ensures Placed(node, index)
  {
    ShlByte(1);
    ShlByte(PrefixOf(node).code);
    hide Shl;
  }

  lemma PlacedFrom67(node: Node, index: nat)
    requires 67 <= node < 68 && index < Pow2(Lookup(node))
    ensures Placed(node, index)
  {
    ShlByte(1);
    ShlByte(PrefixOf(node).code);
    hide Shl;
  }

  lemma PlacedFrom68(node: Node, index: nat)
    requires 68 <= node < 69 && index < Pow2(Lookup(node))
    ensures Placed(node, index)
  {
    ShlByte(1);
    ShlByte(PrefixOf(node).code);
    hide Shl;
  }

  lemma PlacedFrom69(node: Node, index: nat)
    requires 69 <= node < 70 && index < Pow2(Lookup(node))
    ensures Placed(node, index)
  {
    ShlByte(1);
    ShlByte(PrefixOf(node).code);
    hide Shl;
  }

  lemma PlacedFrom70(node: Node, index: nat)
    requires 70 <= node < 71 && index < Pow2(Lookup(node))
    ensures Placed(node, index)
  {
    ShlByte(1);
    ShlByte(PrefixOf(node).code);
    hide Shl;
  }

  lemma PlacedFrom71(node: Node, index: nat)
    requires 71 <= node < 74 && index < Pow2(Lookup(node))
    ensures Placed(node, index)
  {
    ShlByte(1);
    ShlByte(PrefixOf(node).code);
    hide Shl;
  }

  lemma PlacedFrom74(node: Node, index: nat)
    requires 74 <= node < 77 && index < Pow2(Lookup(node))
    ensures Placed(node, index)
  {
    ShlByte(1);
    ShlByte(PrefixOf(node).code);
    hide Shl;
  }

  lemma PlacedFrom77(node: Node, index: nat)
    requires 77 <= node < 80 && index < Pow2(Lookup(node))
    ensures Placed(node, index)
  {
    ShlByte(1);
    ShlByte(PrefixOf(node).code);
    hide Shl;
  }

  lemma PlacedFrom80(node: Node, index: nat)
    requires 80 <= node < 83 && index < Pow2(Lookup(node))
    ensures Placed(node, index)
  {
    ShlByte(1);
    ShlByte(PrefixOf(node).code);
    hide Shl;
  }

  lemma PlacedFrom83(node: Node, index: nat)
    requires 83 <= node < 86 && index < Pow2(Lookup(node))
    ensures Placed(node, index)
  {
    ShlByte(1);
    ShlByte(PrefixOf(node).code);
    hide Shl;
  }

  lemma PlacedFrom86(node: Node, index: nat)
    requires 86 <= node < 88 && index < Pow2(Lookup(node))
    ensures Placed(node, index)
  {
    ShlByte(1);
    ShlByte(PrefixOf(node).code);
    hide Shl;
  }

  /** Every entry is in its place. */
  lemma EntryPlaced(node: Node, index: nat)
    requires index < Pow2(Lookup(node)) || node == 88
    ensures Placed(node, index)
  {
    hide Placed, Lookup;
    if node == ROOT && index < 10 {
      RootLow(node, index);
    } else if node == ROOT {
      RootSize(index);
      RootHigh(node, index);
    } else if node < 4 {
      PlacedFrom01(node, index);
    } else if node < 7 {
      PlacedFrom04(node, index);
    } else if node < 10 {
      PlacedFrom07(node, index);
    } else if node < 13 {
      PlacedFrom10(node, index);
    } else if node < 15 {
      PlacedFrom13(node, index);
    } else if node < 16 {
      PlacedFrom15(node, index);
    } else if node < 17 {
      PlacedFrom16(node, index);
    } else if node < 18 {
      PlacedFrom17(node, index);
    } else if node < 19 {
      PlacedFrom18(node, index);
    } else if node < 20 {
      PlacedFrom19(node, index);
    } else if node < 21 {
      PlacedFrom20(node, index);
    } else if node < 22 {
      PlacedFrom21(node, index);
    } else if node < 24 {
      PlacedFrom22(node, index);
    } else if node < 27 {
      PlacedFrom24(node, index);
    } else if node < 29 {
      PlacedFrom27(node, index);
    } else if node < 31 {
      PlacedFrom29(node, index);
    } else if node < 33 {
      PlacedFrom31(node, index);
    } else if node < 34 {
      PlacedFrom33(node, index);
    } else if node < 36 {
      PlacedFrom34(node, index);
    } else if node < 39 {
      PlacedFrom36(node, index);
    } else if node < 40 {
      PlacedFrom39(node, index);
    } else if node < 43 {
      PlacedFrom40(node, index);
    } else if node < 45 {
      PlacedFrom43(node, index);
    } else if node < 46 {
      PlacedFrom45(node, index);
    } else if node < 47 {
      PlacedFrom46(node, index);
    } else if node < 48 {
      PlacedFrom47(node, index);
    } else if node < 49 {
      PlacedFrom48(node, index);
    } else if node < 50 {
      PlacedFrom49(node, index);
    } else if node < 51 {
      PlacedFrom50(node, index);
    } else if node < 52 {
      PlacedFrom51(node, index);
    } else if node < 53 {
      PlacedFrom52(node, index);
    } else if node < 56 {
      PlacedFrom53(node, index);
    } else if node < 59 {
      PlacedFrom56(node, index);
    } else if node < 62 {
      PlacedFrom59(node, index);
    } else if node < 65 {
      PlacedFrom62(node, index);
    } else if node < 67 {
      PlacedFrom65(node, index);
    } else if node < 68 {
      PlacedFrom67(node, index);
    } else if node < 69 {
      PlacedFrom68(node, index);
    } else if node < 70 {
      PlacedFrom69(node, index);
    } else if node < 71 {
      PlacedFrom70(node, index);
    } else if node < 74 {
      PlacedFrom71(node, index);
    } else if node < 77 {
      PlacedFrom74(node, index);
    } else if node < 80 {
      PlacedFrom77(node, index);
    } else if node < 83 {
      PlacedFrom80(node, index);
    } else if node < 86 {
      PlacedFrom83(node, index);
    } else if node < 88 {
      PlacedFrom86(node, index);
    } else {
      LastEmpty(index);
    }
  }

  lemma LastEmpty(index: nat)
    ensures Placed(88, index)
  {
  }
}
