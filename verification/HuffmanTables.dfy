/** The Huffman code of Appendix B of RFC 7541 as the encoder's table and the decoder's tree hold it
    (h3/src/qpack/prefix_string/encode.rs, h3/src/qpack/prefix_string/decode.rs). */
module HuffmanTables {
  import opened Octets

  /** The code of a symbol, aligned to the least significant bit, and its length in bits. */
  datatype Code = Code(bits: nat, code: nat)

  function CodesFrom00(symbol: byte): (c: Code) {
    match symbol
    case 0 => Code(13, 0x1ff8) case 1 => Code(23, 0x7fffd8)
    case 2 => Code(28, 0xfffffe2) case 3 => Code(28, 0xfffffe3)
    case 4 => Code(28, 0xfffffe4) case 5 => Code(28, 0xfffffe5)
    case 6 => Code(28, 0xfffffe6) case 7 => Code(28, 0xfffffe7)
    case 8 => Code(28, 0xfffffe8) case 9 => Code(24, 0xffffea)
    case 10 => Code(30, 0x3ffffffc) case 11 => Code(28, 0xfffffe9)
    case 12 => Code(28, 0xfffffea) case 13 => Code(30, 0x3ffffffd)
    case 14 => Code(28, 0xfffffeb) case _ => Code(28, 0xfffffec)
  }

  function CodesFrom10(symbol: byte): (c: Code) {
    match symbol
    case 16 => Code(28, 0xfffffed) case 17 => Code(28, 0xfffffee)
    case 18 => Code(28, 0xfffffef) case 19 => Code(28, 0xffffff0)
    case 20 => Code(28, 0xffffff1) case 21 => Code(28, 0xffffff2)
    case 22 => Code(30, 0x3ffffffe) case 23 => Code(28, 0xffffff3)
    case 24 => Code(28, 0xffffff4) case 25 => Code(28, 0xffffff5)
    case 26 => Code(28, 0xffffff6) case 27 => Code(28, 0xffffff7)
    case 28 => Code(28, 0xffffff8) case 29 => Code(28, 0xffffff9)
    case 30 => Code(28, 0xffffffa) case _ => Code(28, 0xffffffb)
  }

  function CodesFrom20(symbol: byte): (c: Code) {
    match symbol
    case 32 => Code(6, 0x14) case 33 => Code(10, 0x3f8)
    case 34 => Code(10, 0x3f9) case 35 => Code(12, 0xffa)
    case 36 => Code(13, 0x1ff9) case 37 => Code(6, 0x15)
    case 38 => Code(8, 0xf8) case 39 => Code(11, 0x7fa)
    case 40 => Code(10, 0x3fa) case 41 => Code(10, 0x3fb)
    case 42 => Code(8, 0xf9) case 43 => Code(11, 0x7fb)
    case 44 => Code(8, 0xfa) case 45 => Code(6, 0x16)
    case 46 => Code(6, 0x17) case _ => Code(6, 0x18)
  }

  function CodesFrom30(symbol: byte): (c: Code) {
    match symbol
    case 48 => Code(5, 0x0) case 49 => Code(5, 0x1)
    case 50 => Code(5, 0x2) case 51 => Code(6, 0x19)
    case 52 => Code(6, 0x1a) case 53 => Code(6, 0x1b)
    case 54 => Code(6, 0x1c) case 55 => Code(6, 0x1d)
    case 56 => Code(6, 0x1e) case 57 => Code(6, 0x1f)
    case 58 => Code(7, 0x5c) case 59 => Code(8, 0xfb)
    case 60 => Code(15, 0x7ffc) case 61 => Code(6, 0x20)
    case 62 => Code(12, 0xffb) case _ => Code(10, 0x3fc)
  }

  function CodesFrom40(symbol: byte): (c: Code) {
    match symbol
    case 64 => Code(13, 0x1ffa) case 65 => Code(6, 0x21)
    case 66 => Code(7, 0x5d) case 67 => Code(7, 0x5e)
    case 68 => Code(7, 0x5f) case 69 => Code(7, 0x60)
    case 70 => Code(7, 0x61) case 71 => Code(7, 0x62)
    case 72 => Code(7, 0x63) case 73 => Code(7, 0x64)
    case 74 => Code(7, 0x65) case 75 => Code(7, 0x66)
    case 76 => Code(7, 0x67) case 77 => Code(7, 0x68)
    case 78 => Code(7, 0x69) case _ => Code(7, 0x6a)
  }

  function CodesFrom50(symbol: byte): (c: Code) {
    match symbol
    case 80 => Code(7, 0x6b) case 81 => Code(7, 0x6c)
    case 82 => Code(7, 0x6d) case 83 => Code(7, 0x6e)
    case 84 => Code(7, 0x6f) case 85 => Code(7, 0x70)
    case 86 => Code(7, 0x71) case 87 => Code(7, 0x72)
    case 88 => Code(8, 0xfc) case 89 => Code(7, 0x73)
    case 90 => Code(8, 0xfd) case 91 => Code(13, 0x1ffb)
    case 92 => Code(19, 0x7fff0) case 93 => Code(13, 0x1ffc)
    case 94 => Code(14, 0x3ffc) case _ => Code(6, 0x22)
  }

  function CodesFrom60(symbol: byte): (c: Code) {
    match symbol
    case 96 => Code(15, 0x7ffd) case 97 => Code(5, 0x3)
    case 98 => Code(6, 0x23) case 99 => Code(5, 0x4)
    case 100 => Code(6, 0x24) case 101 => Code(5, 0x5)
    case 102 => Code(6, 0x25) case 103 => Code(6, 0x26)
    case 104 => Code(6, 0x27) case 105 => Code(5, 0x6)
    case 106 => Code(7, 0x74) case 107 => Code(7, 0x75)
    case 108 => Code(6, 0x28) case 109 => Code(6, 0x29)
    case 110 => Code(6, 0x2a) case _ => Code(5, 0x7)
  }

  function CodesFrom70(symbol: byte): (c: Code) {
    match symbol
    case 112 => Code(6, 0x2b) case 113 => Code(7, 0x76)
    case 114 => Code(6, 0x2c) case 115 => Code(5, 0x8)
    case 116 => Code(5, 0x9) case 117 => Code(6, 0x2d)
    case 118 => Code(7, 0x77) case 119 => Code(7, 0x78)
    case 120 => Code(7, 0x79) case 121 => Code(7, 0x7a)
    case 122 => Code(7, 0x7b) case 123 => Code(15, 0x7ffe)
    case 124 => Code(11, 0x7fc) case 125 => Code(14, 0x3ffd)
    case 126 => Code(13, 0x1ffd) case _ => Code(28, 0xffffffc)
  }

  function CodesFrom80(symbol: byte): (c: Code) {
    match symbol
    case 128 => Code(20, 0xfffe6) case 129 => Code(22, 0x3fffd2)
    case 130 => Code(20, 0xfffe7) case 131 => Code(20, 0xfffe8)
    case 132 => Code(22, 0x3fffd3) case 133 => Code(22, 0x3fffd4)
    case 134 => Code(22, 0x3fffd5) case 135 => Code(23, 0x7fffd9)
    case 136 => Code(22, 0x3fffd6) case 137 => Code(23, 0x7fffda)
    case 138 => Code(23, 0x7fffdb) case 139 => Code(23, 0x7fffdc)
    case 140 => Code(23, 0x7fffdd) case 141 => Code(23, 0x7fffde)
    case 142 => Code(24, 0xffffeb) case _ => Code(23, 0x7fffdf)
  }

  function CodesFrom90(symbol: byte): (c: Code) {
    match symbol
    case 144 => Code(24, 0xffffec) case 145 => Code(24, 0xffffed)
    case 146 => Code(22, 0x3fffd7) case 147 => Code(23, 0x7fffe0)
    case 148 => Code(24, 0xffffee) case 149 => Code(23, 0x7fffe1)
    case 150 => Code(23, 0x7fffe2) case 151 => Code(23, 0x7fffe3)
    case 152 => Code(23, 0x7fffe4) case 153 => Code(21, 0x1fffdc)
    case 154 => Code(22, 0x3fffd8) case 155 => Code(23, 0x7fffe5)
    case 156 => Code(22, 0x3fffd9) case 157 => Code(23, 0x7fffe6)
    case 158 => Code(23, 0x7fffe7) case _ => Code(24, 0xffffef)
  }

  function CodesFromA0(symbol: byte): (c: Code) {
    match symbol
    case 160 => Code(22, 0x3fffda) case 161 => Code(21, 0x1fffdd)
    case 162 => Code(20, 0xfffe9) case 163 => Code(22, 0x3fffdb)
    case 164 => Code(22, 0x3fffdc) case 165 => Code(23, 0x7fffe8)
    case 166 => Code(23, 0x7fffe9) case 167 => Code(21, 0x1fffde)
    case 168 => Code(23, 0x7fffea) case 169 => Code(22, 0x3fffdd)
    case 170 => Code(22, 0x3fffde) case 171 => Code(24, 0xfffff0)
    case 172 => Code(21, 0x1fffdf) case 173 => Code(22, 0x3fffdf)
    case 174 => Code(23, 0x7fffeb) case _ => Code(23, 0x7fffec)
  }

  function CodesFromB0(symbol: byte): (c: Code) {
    match symbol
    case 176 => Code(21, 0x1fffe0) case 177 => Code(21, 0x1fffe1)
    case 178 => Code(22, 0x3fffe0) case 179 => Code(21, 0x1fffe2)
    case 180 => Code(23, 0x7fffed) case 181 => Code(22, 0x3fffe1)
    case 182 => Code(23, 0x7fffee) case 183 => Code(23, 0x7fffef)
    case 184 => Code(20, 0xfffea) case 185 => Code(22, 0x3fffe2)
    case 186 => Code(22, 0x3fffe3) case 187 => Code(22, 0x3fffe4)
    case 188 => Code(23, 0x7ffff0) case 189 => Code(22, 0x3fffe5)
    case 190 => Code(22, 0x3fffe6) case _ => Code(23, 0x7ffff1)
  }

  function CodesFromC0(symbol: byte): (c: Code) {
    match symbol
    case 192 => Code(26, 0x3ffffe0) case 193 => Code(26, 0x3ffffe1)
    case 194 => Code(20, 0xfffeb) case 195 => Code(19, 0x7fff1)
    case 196 => Code(22, 0x3fffe7) case 197 => Code(23, 0x7ffff2)
    case 198 => Code(22, 0x3fffe8) case 199 => Code(25, 0x1ffffec)
    case 200 => Code(26, 0x3ffffe2) case 201 => Code(26, 0x3ffffe3)
    case 202 => Code(26, 0x3ffffe4) case 203 => Code(27, 0x7ffffde)
    case 204 => Code(27, 0x7ffffdf) case 205 => Code(26, 0x3ffffe5)
    case 206 => Code(24, 0xfffff1) case _ => Code(25, 0x1ffffed)
  }

  function CodesFromD0(symbol: byte): (c: Code) {
    match symbol
    case 208 => Code(19, 0x7fff2) case 209 => Code(21, 0x1fffe3)
    case 210 => Code(26, 0x3ffffe6) case 211 => Code(27, 0x7ffffe0)
    case 212 => Code(27, 0x7ffffe1) case 213 => Code(26, 0x3ffffe7)
    case 214 => Code(27, 0x7ffffe2) case 215 => Code(24, 0xfffff2)
    case 216 => Code(21, 0x1fffe4) case 217 => Code(21, 0x1fffe5)
    case 218 => Code(26, 0x3ffffe8) case 219 => Code(26, 0x3ffffe9)
    case 220 => Code(28, 0xffffffd) case 221 => Code(27, 0x7ffffe3)
    case 222 => Code(27, 0x7ffffe4) case _ => Code(27, 0x7ffffe5)
  }

  function CodesFromE0(symbol: byte): (c: Code) {
    match symbol
    case 224 => Code(20, 0xfffec) case 225 => Code(24, 0xfffff3)
    case 226 => Code(20, 0xfffed) case 227 => Code(21, 0x1fffe6)
    case 228 => Code(22, 0x3fffe9) case 229 => Code(21, 0x1fffe7)
    case 230 => Code(21, 0x1fffe8) case 231 => Code(23, 0x7ffff3)
    case 232 => Code(22, 0x3fffea) case 233 => Code(22, 0x3fffeb)
    case 234 => Code(25, 0x1ffffee) case 235 => Code(25, 0x1ffffef)
    case 236 => Code(24, 0xfffff4) case 237 => Code(24, 0xfffff5)
    case 238 => Code(26, 0x3ffffea) case _ => Code(23, 0x7ffff4)
  }

  function CodesFromF0(symbol: byte): (c: Code) {
    match symbol
    case 240 => Code(26, 0x3ffffeb) case 241 => Code(27, 0x7ffffe6)
    case 242 => Code(26, 0x3ffffec) case 243 => Code(26, 0x3ffffed)
    case 244 => Code(27, 0x7ffffe7) case 245 => Code(27, 0x7ffffe8)
    case 246 => Code(27, 0x7ffffe9) case 247 => Code(27, 0x7ffffea)
    case 248 => Code(27, 0x7ffffeb) case 249 => Code(28, 0xffffffe)
    case 250 => Code(27, 0x7ffffec) case 251 => Code(27, 0x7ffffed)
    case 252 => Code(27, 0x7ffffee) case 253 => Code(27, 0x7ffffef)
    case 254 => Code(27, 0x7fffff0) case _ => Code(26, 0x3ffffee)
  }

  function CodeOf(symbol: byte): (c: Code) {
    if symbol < 0x10 then CodesFrom00(symbol) else
    if symbol < 0x20 then CodesFrom10(symbol) else
    if symbol < 0x30 then CodesFrom20(symbol) else
    if symbol < 0x40 then CodesFrom30(symbol) else
    if symbol < 0x50 then CodesFrom40(symbol) else
    if symbol < 0x60 then CodesFrom50(symbol) else
    if symbol < 0x70 then CodesFrom60(symbol) else
    if symbol < 0x80 then CodesFrom70(symbol) else
    if symbol < 0x90 then CodesFrom80(symbol) else
    if symbol < 0xA0 then CodesFrom90(symbol) else
    if symbol < 0xB0 then CodesFromA0(symbol) else
    if symbol < 0xC0 then CodesFromB0(symbol) else
    if symbol < 0xD0 then CodesFromC0(symbol) else
    if symbol < 0xE0 then CodesFromD0(symbol) else
    if symbol < 0xF0 then CodesFromE0(symbol) else
    CodesFromF0(symbol)
  }

  /** A table of the decoder, numbered in breadth-first order from the root. */
  type Node = n: nat | n < 89

  const ROOT: Node := 0

  datatype Entry = Sym(symbol: byte) | Partial(next: Node) | Missing

  /** How many bits a table is looked up with. */
  function Lookup(node: Node): (bits: nat)
    ensures 1 <= bits <= 8
  {
    match node
    case 0 => 5
    case 39 => 4
    case 51 => 4
    case 52 => 4
    case 69 => 4
    case 70 => 4
    case 48 => 3
    case 49 => 3
    case 50 => 3
    case 67 => 3
    case 68 => 3
    case 14 => 2
    case 15 => 2
    case 16 => 2
    case 17 => 2
    case 18 => 2
    case 19 => 2
    case 20 => 2
    case 21 => 2
    case 22 => 2
    case 27 => 2
    case 30 => 2
    case 33 => 2
    case 34 => 2
    case 44 => 2
    case 45 => 2
    case 46 => 2
    case 47 => 2
    case 66 => 2
    case 87 => 2
    case 88 => 8
    case _ => 1
  }

  function Tables00(node: nat, value: nat): (e: Entry) {
    match node
    case 0 /* ROOT */ => (match value
        case 0 => Sym(48) case 1 => Sym(49) case 2 => Sym(50) case 3 => Sym(97) case 4 => Sym(99)
        case 5 => Sym(101) case 6 => Sym(105) case 7 => Sym(111) case 8 => Sym(115) case 9 => Sym(116)
        case 10 => Partial(1) case 11 => Partial(2) case 12 => Partial(3) case 13 => Partial(4) case 14 => Partial(5)
        case 15 => Partial(6) case 16 => Partial(7) case 17 => Partial(8) case 18 => Partial(9) case 19 => Partial(10)
        case 20 => Partial(11) case 21 => Partial(12) case 22 => Partial(13) case 23 => Partial(14) case 24 => Partial(15)
        case 25 => Partial(16) case 26 => Partial(17) case 27 => Partial(18) case 28 => Partial(19) case 29 => Partial(20)
        case 30 => Partial(21) case 31 => Partial(22)
        case _ => Missing)
    case 1 /* END0_01010 */ => Pair(value, Sym(32), Sym(37))
    case 2 /* END0_01011 */ => Pair(value, Sym(45), Sym(46))
    case 3 /* END0_01100 */ => Pair(value, Sym(47), Sym(51))
    case 4 /* END0_01101 */ => Pair(value, Sym(52), Sym(53))
    case 5 /* END0_01110 */ => Pair(value, Sym(54), Sym(55))
    case 6 /* END0_01111 */ => Pair(value, Sym(56), Sym(57))
    case _ /* END0_10000 */ => Pair(value, Sym(61), Sym(65))
  }

  function Tables08(node: nat, value: nat): (e: Entry) {
    match node
    case 8 /* END0_10001 */ => Pair(value, Sym(95), Sym(98))
    case 9 /* END0_10010 */ => Pair(value, Sym(100), Sym(102))
    case 10 /* END0_10011 */ => Pair(value, Sym(103), Sym(104))
    case 11 /* END0_10100 */ => Pair(value, Sym(108), Sym(109))
    case 12 /* END0_10101 */ => Pair(value, Sym(110), Sym(112))
    case 13 /* END0_10110 */ => Pair(value, Sym(114), Sym(117))
    case 14 /* END0_10111 */ => Quad(value, Sym(58), Sym(66), Sym(67), Sym(68))
    case _ /* END0_11000 */ => Quad(value, Sym(69), Sym(70), Sym(71), Sym(72))
  }

  function Tables16(node: nat, value: nat): (e: Entry) {
    match node
    case 16 /* END0_11001 */ => Quad(value, Sym(73), Sym(74), Sym(75), Sym(76))
    case 17 /* END0_11010 */ => Quad(value, Sym(77), Sym(78), Sym(79), Sym(80))
    case 18 /* END0_11011 */ => Quad(value, Sym(81), Sym(82), Sym(83), Sym(84))
    case 19 /* END0_11100 */ => Quad(value, Sym(85), Sym(86), Sym(87), Sym(89))
    case 20 /* END0_11101 */ => Quad(value, Sym(106), Sym(107), Sym(113), Sym(118))
    case 21 /* END0_11110 */ => Quad(value, Sym(119), Sym(120), Sym(121), Sym(122))
    case 22 /* END0_11111 */ => Quad(value, Partial(23), Partial(24), Partial(25), Partial(26))
    case _ /* END5_00 */ => Pair(value, Sym(38), Sym(42))
  }

  function Tables24(node: nat, value: nat): (e: Entry) {
    match node
    case 24 /* END5_01 */ => Pair(value, Sym(44), Sym(59))
    case 25 /* END5_10 */ => Pair(value, Sym(88), Sym(90))
    case 26 /* END5_11 */ => Pair(value, Partial(27), Partial(28))
    case 27 /* END7_0 */ => Quad(value, Sym(33), Sym(34), Sym(40), Sym(41))
    case 28 /* END7_1 */ => Pair(value, Partial(29), Partial(30))
    case 29 /* END8_0 */ => Pair(value, Sym(63), Partial(31))
    case 30 /* END8_1 */ => Quad(value, Sym(124), Partial(32), Partial(33), Partial(34))
    case _ /* END9A_1 */ => Pair(value, Sym(39), Sym(43))
  }

  function Tables32(node: nat, value: nat): (e: Entry) {
    match node
    case 32 /* END9B_01 */ => Pair(value, Sym(35), Sym(62))
    case 33 /* END9B_10 */ => Quad(value, Sym(0), Sym(36), Sym(64), Sym(91))
    case 34 /* END9B_11 */ => Quad(value, Sym(93), Sym(126), Partial(35), Partial(36))
    case 35 /* END13_10 */ => Pair(value, Sym(94), Sym(125))
    case 36 /* END13_11 */ => Pair(value, Partial(37), Partial(38))
    case 37 /* END14_0 */ => Pair(value, Sym(60), Sym(96))
    case 38 /* END14_1 */ => Pair(value, Sym(123), Partial(39))
    case _ /* END15_1 */ => (match value
        case 0 => Sym(92) case 1 => Sym(195) case 2 => Sym(208) case 3 => Partial(40) case 4 => Partial(41)
        case 5 => Partial(42) case 6 => Partial(43) case 7 => Partial(44) case 8 => Partial(45) case 9 => Partial(46)
        case 10 => Partial(47) case 11 => Partial(48) case 12 => Partial(49) case 13 => Partial(50) case 14 => Partial(51)
        case 15 => Partial(52)
        case _ => Missing)
  }

  function Tables40(node: nat, value: nat): (e: Entry) {
    match node
    case 40 /* END19_0011 */ => Pair(value, Sym(128), Sym(130))
    case 41 /* END19_0100 */ => Pair(value, Sym(131), Sym(162))
    case 42 /* END19_0101 */ => Pair(value, Sym(184), Sym(194))
    case 43 /* END19_0110 */ => Pair(value, Sym(224), Sym(226))
    case 44 /* END19_0111 */ => Quad(value, Sym(153), Sym(161), Sym(167), Sym(172))
    case 45 /* END19_1000 */ => Quad(value, Sym(176), Sym(177), Sym(179), Sym(209))
    case 46 /* END19_1001 */ => Quad(value, Sym(216), Sym(217), Sym(227), Sym(229))
    case _ /* END19_1010 */ => Quad(value, Sym(230), Partial(53), Partial(54), Partial(55))
  }

  function Tables48(node: nat, value: nat): (e: Entry) {
    match node
    case 48 /* END19_1011 */ => (match value
        case 0 => Sym(154) case 1 => Sym(156) case 2 => Sym(160) case 3 => Sym(163) case 4 => Sym(164)
        case 5 => Sym(169) case 6 => Sym(170) case 7 => Sym(173)
        case _ => Missing)
    case 49 /* END19_1100 */ => (match value
        case 0 => Sym(178) case 1 => Sym(181) case 2 => Sym(185) case 3 => Sym(186) case 4 => Sym(187)
        case 5 => Sym(189) case 6 => Sym(190) case 7 => Sym(196)
        case _ => Missing)
    case 50 /* END19_1101 */ => (match value
        case 0 => Sym(198) case 1 => Sym(228) case 2 => Sym(232) case 3 => Sym(233) case 4 => Partial(56)
        case 5 => Partial(57) case 6 => Partial(58) case 7 => Partial(59)
        case _ => Missing)
    case 51 /* END19_1110 */ => (match value
        case 0 => Sym(147) case 1 => Sym(149) case 2 => Sym(150) case 3 => Sym(151) case 4 => Sym(152)
        case 5 => Sym(155) case 6 => Sym(157) case 7 => Sym(158) case 8 => Sym(165) case 9 => Sym(166)
        case 10 => Sym(168) case 11 => Sym(174) case 12 => Sym(175) case 13 => Sym(180) case 14 => Sym(182)
        case 15 => Sym(183)
        case _ => Missing)
    case 52 /* END19_1111 */ => (match value
        case 0 => Sym(188) case 1 => Sym(191) case 2 => Sym(197) case 3 => Sym(231) case 4 => Sym(239)
        case 5 => Partial(60) case 6 => Partial(61) case 7 => Partial(62) case 8 => Partial(63) case 9 => Partial(64)
        case 10 => Partial(65) case 11 => Partial(66) case 12 => Partial(67) case 13 => Partial(68) case 14 => Partial(69)
        case 15 => Partial(70)
        case _ => Missing)
    case 53 /* END19_1010_01 */ => Pair(value, Sym(129), Sym(132))
    case 54 /* END19_1010_10 */ => Pair(value, Sym(133), Sym(134))
    case _ /* END19_1010_11 */ => Pair(value, Sym(136), Sym(146))
  }

  function Tables56(node: nat, value: nat): (e: Entry) {
    match node
    case 56 /* END23A_100 */ => Pair(value, Sym(1), Sym(135))
    case 57 /* END23A_101 */ => Pair(value, Sym(137), Sym(138))
    case 58 /* END23A_110 */ => Pair(value, Sym(139), Sym(140))
    case 59 /* END23A_111 */ => Pair(value, Sym(141), Sym(143))
    case 60 /* END23B_0101 */ => Pair(value, Sym(9), Sym(142))
    case 61 /* END23B_0110 */ => Pair(value, Sym(144), Sym(145))
    case 62 /* END23B_0111 */ => Pair(value, Sym(148), Sym(159))
    case _ /* END23B_1000 */ => Pair(value, Sym(171), Sym(206))
  }

  function Tables64(node: nat, value: nat): (e: Entry) {
    match node
    case 64 /* END23B_1001 */ => Pair(value, Sym(215), Sym(225))
    case 65 /* END23B_1010 */ => Pair(value, Sym(236), Sym(237))
    case 66 /* END23B_1011 */ => Quad(value, Sym(199), Sym(207), Sym(234), Sym(235))
    case 67 /* END23B_1100 */ => (match value
        case 0 => Sym(192) case 1 => Sym(193) case 2 => Sym(200) case 3 => Sym(201) case 4 => Sym(202)
        case 5 => Sym(205) case 6 => Sym(210) case 7 => Sym(213)
        case _ => Missing)
    case 68 /* END23B_1101 */ => (match value
        case 0 => Sym(218) case 1 => Sym(219) case 2 => Sym(238) case 3 => Sym(240) case 4 => Sym(242)
        case 5 => Sym(243) case 6 => Sym(255) case 7 => Partial(71)
        case _ => Missing)
    case 69 /* END23B_1110 */ => (match value
        case 0 => Sym(211) case 1 => Sym(212) case 2 => Sym(214) case 3 => Sym(221) case 4 => Sym(222)
        case 5 => Sym(223) case 6 => Sym(241) case 7 => Sym(244) case 8 => Sym(245) case 9 => Sym(246)
        case 10 => Sym(247) case 11 => Sym(248) case 12 => Sym(250) case 13 => Sym(251) case 14 => Sym(252)
        case 15 => Sym(253)
        case _ => Missing)
    case 70 /* END23B_1111 */ => (match value
        case 0 => Sym(254) case 1 => Partial(72) case 2 => Partial(73) case 3 => Partial(74) case 4 => Partial(75)
        case 5 => Partial(76) case 6 => Partial(77) case 7 => Partial(78) case 8 => Partial(79) case 9 => Partial(80)
        case 10 => Partial(81) case 11 => Partial(82) case 12 => Partial(83) case 13 => Partial(84) case 14 => Partial(85)
        case 15 => Partial(86)
        case _ => Missing)
    case _ /* END27A_111 */ => Pair(value, Sym(203), Sym(204))
  }

  function Tables72(node: nat, value: nat): (e: Entry) {
    match node
    case 72 /* END27B_0001 */ => Pair(value, Sym(2), Sym(3))
    case 73 /* END27B_0010 */ => Pair(value, Sym(4), Sym(5))
    case 74 /* END27B_0011 */ => Pair(value, Sym(6), Sym(7))
    case 75 /* END27B_0100 */ => Pair(value, Sym(8), Sym(11))
    case 76 /* END27B_0101 */ => Pair(value, Sym(12), Sym(14))
    case 77 /* END27B_0110 */ => Pair(value, Sym(15), Sym(16))
    case 78 /* END27B_0111 */ => Pair(value, Sym(17), Sym(18))
    case _ /* END27B_1000 */ => Pair(value, Sym(19), Sym(20))
  }

  function Tables80(node: nat, value: nat): (e: Entry) {
    match node
    case 80 /* END27B_1001 */ => Pair(value, Sym(21), Sym(23))
    case 81 /* END27B_1010 */ => Pair(value, Sym(24), Sym(25))
    case 82 /* END27B_1011 */ => Pair(value, Sym(26), Sym(27))
    case 83 /* END27B_1100 */ => Pair(value, Sym(28), Sym(29))
    case 84 /* END27B_1101 */ => Pair(value, Sym(30), Sym(31))
    case 85 /* END27B_1110 */ => Pair(value, Sym(127), Sym(220))
    case 86 /* END27B_1111 */ => Pair(value, Sym(249), Partial(87))
    case _ /* END31_1 */ => Quad(value, Sym(10), Sym(13), Sym(22), Partial(88))
  }

  function Tables88(node: nat, value: nat): (e: Entry) {
    match node
    case _ /* EOF */ => Missing
  }

  function At(node: Node, value: nat): (e: Entry) {
    if node < 8 then Tables00(node, value) else
    if node < 16 then Tables08(node, value) else
    if node < 24 then Tables16(node, value) else
    if node < 32 then Tables24(node, value) else
    if node < 40 then Tables32(node, value) else
    if node < 48 then Tables40(node, value) else
    if node < 56 then Tables48(node, value) else
    if node < 64 then Tables56(node, value) else
    if node < 72 then Tables64(node, value) else
    if node < 80 then Tables72(node, value) else
    if node < 88 then Tables80(node, value) else
    Tables88(node, value)
  }

  function Pair(value: nat, first: Entry, second: Entry): (e: Entry) {
    match value case 0 => first case 1 => second case _ => Missing
  }

  function Quad(value: nat, first: Entry, second: Entry, third: Entry, fourth: Entry): (e: Entry) {
    match value case 0 => first case 1 => second case 2 => third case 3 => fourth case _ => Missing
  }
}
