/** Header fields and the static table (h3/src/qpack/field.rs, h3/src/qpack/static_.rs),
    Appendix A of RFC 9204. */
module StaticTable {
  import opened Octets

  datatype HeaderField = HeaderField(name: Bytes, value: Bytes) {

    /** The size an entry counts for, section 3.2.1 of RFC 9204. */
    function MemSize(): (size: nat)
      ensures size >= 32
    {
      |name| + |value| + 32
    }

    function WithValue(v: Bytes): HeaderField {
      HeaderField(name, v)
    }
  }

  /** The size of a list of fields, as a table counts it and as a peer limits it (section 4.2.2 of RFC 9114). */
  function SizeOf(fields: seq<HeaderField>): (n: nat)
    ensures n >= 32 * |fields|
  {
    if fields == [] then 0 else fields[0].MemSize() + SizeOf(fields[1..])
  }

  lemma {:induction false} SizeOfConcat(a: seq<HeaderField>, b: seq<HeaderField>)
    ensures SizeOf(a + b) == SizeOf(a) + SizeOf(b)
  {
    if a == [] {
      assert a + b == b;
    } else {
      assert (a + b)[1..] == a[1..] + b;
      SizeOfConcat(a[1..], b);
    }
  }

  lemma SizeOfOne(field: HeaderField)
    ensures SizeOf([field]) == field.MemSize()
  {
    assert [field][1..] == [];
  }

  lemma SizeOfAppend(fields: seq<HeaderField>, field: HeaderField)
    ensures SizeOf(fields + [field]) == SizeOf(fields) + field.MemSize()
  {
    SizeOfConcat(fields, [field]);
    SizeOfOne(field);
  }

  datatype Error = Unknown(index: nat)

  const SIZE := 99

  /** The octets of an ASCII literal. */
  function Ascii(s: string): Bytes {
    if s == [] then [] else [s[0] as int % 256] + Ascii(s[1..])
  }

  function Field(name: string, value: string): HeaderField {
    HeaderField(Ascii(name), Ascii(value))
  }

  function EntriesFrom00(i: nat): HeaderField {
    match i
    case 0 => Field(":authority", "")
    case 1 => Field(":path", "/")
    case 2 => Field("age", "0")
    case 3 => Field("content-disposition", "")
    case 4 => Field("content-length", "0")
    case 5 => Field("cookie", "")
    case 6 => Field("date", "")
    case 7 => Field("etag", "")
    case 8 => Field("if-modified-since", "")
    case 9 => Field("if-none-match", "")
    case _ => Field("last-modified", "")
  }

  function EntriesFrom11(i: nat): HeaderField {
    match i
    case 11 => Field("link", "")
    case 12 => Field("location", "")
    case 13 => Field("referer", "")
    case 14 => Field("set-cookie", "")
    case 15 => Field(":method", "CONNECT")
    case 16 => Field(":method", "DELETE")
    case 17 => Field(":method", "GET")
    case 18 => Field(":method", "HEAD")
    case 19 => Field(":method", "OPTIONS")
    case 20 => Field(":method", "POST")
    case _ => Field(":method", "PUT")
  }

  function EntriesFrom22(i: nat): HeaderField {
    match i
    case 22 => Field(":scheme", "http")
    case 23 => Field(":scheme", "https")
    case 24 => Field(":status", "103")
    case 25 => Field(":status", "200")
    case 26 => Field(":status", "304")
    case 27 => Field(":status", "404")
    case 28 => Field(":status", "503")
    case 29 => Field("accept", "*/*")
    case 30 => Field("accept", "application/dns-message")
    case 31 => Field("accept-encoding", "gzip, deflate, br")
    case _ => Field("accept-ranges", "bytes")
  }

  function EntriesFrom33(i: nat): HeaderField {
    match i
    case 33 => Field("access-control-allow-headers", "cache-control")
    case 34 => Field("access-control-allow-headers", "content-type")
    case 35 => Field("access-control-allow-origin", "*")
    case 36 => Field("cache-control", "max-age=0")
    case 37 => Field("cache-control", "max-age=2592000")
    case 38 => Field("cache-control", "max-age=604800")
    case 39 => Field("cache-control", "no-cache")
    case 40 => Field("cache-control", "no-store")
    case 41 => Field("cache-control", "public, max-age=31536000")
    case 42 => Field("content-encoding", "br")
    case _ => Field("content-encoding", "gzip")
  }

  function EntriesFrom44(i: nat): HeaderField {
    match i
    case 44 => Field("content-type", "application/dns-message")
    case 45 => Field("content-type", "application/javascript")
    case 46 => Field("content-type", "application/json")
    case 47 => Field("content-type", "application/x-www-form-urlencoded")
    case 48 => Field("content-type", "image/gif")
    case 49 => Field("content-type", "image/jpeg")
    case 50 => Field("content-type", "image/png")
    case 51 => Field("content-type", "text/css")
    case 52 => Field("content-type", "text/html; charset=utf-8")
    case 53 => Field("content-type", "text/plain")
    case _ => Field("content-type", "text/plain;charset=utf-8")
  }

  function EntriesFrom55(i: nat): HeaderField {
    match i
    case 55 => Field("range", "bytes=0-")
    case 56 => Field("strict-transport-security", "max-age=31536000")
    case 57 => Field("strict-transport-security", "max-age=31536000; includesubdomains")
    case 58 => Field("strict-transport-security", "max-age=31536000; includesubdomains; preload")
    case 59 => Field("vary", "accept-encoding")
    case 60 => Field("vary", "origin")
    case 61 => Field("x-content-type-options", "nosniff")
    case 62 => Field("x-xss-protection", "1; mode=block")
    case 63 => Field(":status", "100")
    case 64 => Field(":status", "204")
    case _ => Field(":status", "206")
  }

  function EntriesFrom66(i: nat): HeaderField {
    match i
    case 66 => Field(":status", "302")
    case 67 => Field(":status", "400")
    case 68 => Field(":status", "403")
    case 69 => Field(":status", "421")
    case 70 => Field(":status", "425")
    case 71 => Field(":status", "500")
    case 72 => Field("accept-language", "")
    case 73 => Field("access-control-allow-credentials", "FALSE")
    case 74 => Field("access-control-allow-credentials", "TRUE")
    case 75 => Field("access-control-allow-headers", "*")
    case _ => Field("access-control-allow-methods", "get")
  }

  function EntriesFrom77(i: nat): HeaderField {
    match i
    case 77 => Field("access-control-allow-methods", "get, post, options")
    case 78 => Field("access-control-allow-methods", "options")
    case 79 => Field("access-control-expose-headers", "content-length")
    case 80 => Field("access-control-request-headers", "content-type")
    case 81 => Field("access-control-request-method", "get")
    case 82 => Field("access-control-request-method", "post")
    case 83 => Field("alt-svc", "clear")
    case 84 => Field("authorization", "")
    case 85 => Field("content-security-policy", "script-src 'none'; object-src 'none'; base-uri 'none'")
    case 86 => Field("early-data", "1")
    case _ => Field("expect-ct", "")
  }

  function EntriesFrom88(i: nat): HeaderField {
    match i
    case 88 => Field("forwarded", "")
    case 89 => Field("if-range", "")
    case 90 => Field("origin", "")
    case 91 => Field("purpose", "prefetch")
    case 92 => Field("server", "")
    case 93 => Field("timing-allow-origin", "*")
    case 94 => Field("upgrade-insecure-requests", "1")
    case 95 => Field("user-agent", "")
    case 96 => Field("x-forwarded-for", "")
    case 97 => Field("x-frame-options", "deny")
    case _ => Field("x-frame-options", "sameorigin")
  }

  function Entry(i: nat): HeaderField {
    if i < 11 then EntriesFrom00(i) else
    if i < 22 then EntriesFrom11(i) else
    if i < 33 then EntriesFrom22(i) else
    if i < 44 then EntriesFrom33(i) else
    if i < 55 then EntriesFrom44(i) else
    if i < 66 then EntriesFrom55(i) else
    if i < 77 then EntriesFrom66(i) else
    if i < 88 then EntriesFrom77(i) else
    EntriesFrom88(i)
  }

  function Get(index: nat): (r: Result<HeaderField, Error>) {
    if index < SIZE then Success(Entry(index)) else Failure(Unknown(index))
  }

  function FindIn00(field: HeaderField): (r: Option<nat>) {
    hide Ascii, Field;
    if field == Field(":authority", "") then Some(0) else
    if field == Field(":path", "/") then Some(1) else
    if field == Field("age", "0") then Some(2) else
    if field == Field("content-disposition", "") then Some(3) else
    if field == Field("content-length", "0") then Some(4) else
    if field == Field("cookie", "") then Some(5) else
    if field == Field("date", "") then Some(6) else
    if field == Field("etag", "") then Some(7) else
    if field == Field("if-modified-since", "") then Some(8) else
    if field == Field("if-none-match", "") then Some(9) else
    if field == Field("last-modified", "") then Some(10) else
    None
  }

  function FindIn11(field: HeaderField): (r: Option<nat>) {
    hide Ascii, Field;
    if field == Field("link", "") then Some(11) else
    if field == Field("location", "") then Some(12) else
    if field == Field("referer", "") then Some(13) else
    if field == Field("set-cookie", "") then Some(14) else
    if field == Field(":method", "CONNECT") then Some(15) else
    if field == Field(":method", "DELETE") then Some(16) else
    if field == Field(":method", "GET") then Some(17) else
    if field == Field(":method", "HEAD") then Some(18) else
    if field == Field(":method", "OPTIONS") then Some(19) else
    if field == Field(":method", "POST") then Some(20) else
    if field == Field(":method", "PUT") then Some(21) else
    None
  }

  function FindIn22(field: HeaderField): (r: Option<nat>) {
    hide Ascii, Field;
    if field == Field(":scheme", "http") then Some(22) else
    if field == Field(":scheme", "https") then Some(23) else
    if field == Field(":status", "103") then Some(24) else
    if field == Field(":status", "200") then Some(25) else
    if field == Field(":status", "304") then Some(26) else
    if field == Field(":status", "404") then Some(27) else
    if field == Field(":status", "503") then Some(28) else
    if field == Field("accept", "*/*") then Some(29) else
    if field == Field("accept", "application/dns-message") then Some(30) else
    if field == Field("accept-encoding", "gzip, deflate, br") then Some(31) else
    if field == Field("accept-ranges", "bytes") then Some(32) else
    None
  }

  function FindIn33(field: HeaderField): (r: Option<nat>) {
    hide Ascii, Field;
    if field == Field("access-control-allow-headers", "cache-control") then Some(33) else
    if field == Field("access-control-allow-headers", "content-type") then Some(34) else
    if field == Field("access-control-allow-origin", "*") then Some(35) else
    if field == Field("cache-control", "max-age=0") then Some(36) else
    if field == Field("cache-control", "max-age=2592000") then Some(37) else
    if field == Field("cache-control", "max-age=604800") then Some(38) else
    if field == Field("cache-control", "no-cache") then Some(39) else
    if field == Field("cache-control", "no-store") then Some(40) else
    if field == Field("cache-control", "public, max-age=31536000") then Some(41) else
    if field == Field("content-encoding", "br") then Some(42) else
    if field == Field("content-encoding", "gzip") then Some(43) else
    None
  }

  function FindIn44(field: HeaderField): (r: Option<nat>) {
    hide Ascii, Field;
    if field == Field("content-type", "application/dns-message") then Some(44) else
    if field == Field("content-type", "application/javascript") then Some(45) else
    if field == Field("content-type", "application/json") then Some(46) else
    if field == Field("content-type", "application/x-www-form-urlencoded") then Some(47) else
    if field == Field("content-type", "image/gif") then Some(48) else
    if field == Field("content-type", "image/jpeg") then Some(49) else
    if field == Field("content-type", "image/png") then Some(50) else
    if field == Field("content-type", "text/css") then Some(51) else
    if field == Field("content-type", "text/html; charset=utf-8") then Some(52) else
    if field == Field("content-type", "text/plain") then Some(53) else
    if field == Field("content-type", "text/plain;charset=utf-8") then Some(54) else
    None
  }

  function FindIn55(field: HeaderField): (r: Option<nat>) {
    hide Ascii, Field;
    if field == Field("range", "bytes=0-") then Some(55) else
    if field == Field("strict-transport-security", "max-age=31536000") then Some(56) else
    if field == Field("strict-transport-security", "max-age=31536000; includesubdomains") then Some(57) else
    if field == Field("strict-transport-security", "max-age=31536000; includesubdomains; preload") then Some(58) else
    if field == Field("vary", "accept-encoding") then Some(59) else
    if field == Field("vary", "origin") then Some(60) else
    if field == Field("x-content-type-options", "nosniff") then Some(61) else
    if field == Field("x-xss-protection", "1; mode=block") then Some(62) else
    if field == Field(":status", "100") then Some(63) else
    if field == Field(":status", "204") then Some(64) else
    if field == Field(":status", "206") then Some(65) else
    None
  }

  function FindIn66(field: HeaderField): (r: Option<nat>) {
    hide Ascii, Field;
    if field == Field(":status", "302") then Some(66) else
    if field == Field(":status", "400") then Some(67) else
    if field == Field(":status", "403") then Some(68) else
    if field == Field(":status", "421") then Some(69) else
    if field == Field(":status", "425") then Some(70) else
    if field == Field(":status", "500") then Some(71) else
    if field == Field("accept-language", "") then Some(72) else
    if field == Field("access-control-allow-credentials", "FALSE") then Some(73) else
    if field == Field("access-control-allow-credentials", "TRUE") then Some(74) else
    if field == Field("access-control-allow-headers", "*") then Some(75) else
    if field == Field("access-control-allow-methods", "get") then Some(76) else
    None
  }

  function FindIn77(field: HeaderField): (r: Option<nat>) {
    hide Ascii, Field;
    if field == Field("access-control-allow-methods", "get, post, options") then Some(77) else
    if field == Field("access-control-allow-methods", "options") then Some(78) else
    if field == Field("access-control-expose-headers", "content-length") then Some(79) else
    if field == Field("access-control-request-headers", "content-type") then Some(80) else
    if field == Field("access-control-request-method", "get") then Some(81) else
    if field == Field("access-control-request-method", "post") then Some(82) else
    if field == Field("alt-svc", "clear") then Some(83) else
    if field == Field("authorization", "") then Some(84) else
    if field == Field("content-security-policy", "script-src 'none'; object-src 'none'; base-uri 'none'") then Some(85) else
    if field == Field("early-data", "1") then Some(86) else
    if field == Field("expect-ct", "") then Some(87) else
    None
  }

  function FindIn88(field: HeaderField): (r: Option<nat>) {
    hide Ascii, Field;
    if field == Field("forwarded", "") then Some(88) else
    if field == Field("if-range", "") then Some(89) else
    if field == Field("origin", "") then Some(90) else
    if field == Field("purpose", "prefetch") then Some(91) else
    if field == Field("server", "") then Some(92) else
    if field == Field("timing-allow-origin", "*") then Some(93) else
    if field == Field("upgrade-insecure-requests", "1") then Some(94) else
    if field == Field("user-agent", "") then Some(95) else
    if field == Field("x-forwarded-for", "") then Some(96) else
    if field == Field("x-frame-options", "deny") then Some(97) else
    if field == Field("x-frame-options", "sameorigin") then Some(98) else
    None
  }

  /** The entry that is exactly `field`, as the arms of a match list them. */
  function Find(field: HeaderField): (r: Option<nat>) {
    if FindIn00(field).Some? then FindIn00(field) else
    if FindIn11(field).Some? then FindIn11(field) else
    if FindIn22(field).Some? then FindIn22(field) else
    if FindIn33(field).Some? then FindIn33(field) else
    if FindIn44(field).Some? then FindIn44(field) else
    if FindIn55(field).Some? then FindIn55(field) else
    if FindIn66(field).Some? then FindIn66(field) else
    if FindIn77(field).Some? then FindIn77(field) else
    if FindIn88(field).Some? then FindIn88(field) else
    None
  }

  function FindNameIn00(name: Bytes): (r: Option<nat>) {
    hide Ascii;
    if name == Ascii(":authority") then Some(0) else
    if name == Ascii(":path") then Some(1) else
    if name == Ascii("age") then Some(2) else
    if name == Ascii("content-disposition") then Some(3) else
    if name == Ascii("content-length") then Some(4) else
    if name == Ascii("cookie") then Some(5) else
    if name == Ascii("date") then Some(6) else
    if name == Ascii("etag") then Some(7) else
    if name == Ascii("if-modified-since") then Some(8) else
    if name == Ascii("if-none-match") then Some(9) else
    if name == Ascii("last-modified") then Some(10) else
    None
  }

  function FindNameIn11(name: Bytes): (r: Option<nat>) {
    hide Ascii;
    if name == Ascii("link") then Some(11) else
    if name == Ascii("location") then Some(12) else
    if name == Ascii("referer") then Some(13) else
    if name == Ascii("set-cookie") then Some(14) else
    if name == Ascii(":method") then Some(15) else
    None
  }

  function FindNameIn22(name: Bytes): (r: Option<nat>) {
    hide Ascii;
    if name == Ascii(":scheme") then Some(22) else
    if name == Ascii(":status") then Some(24) else
    if name == Ascii("accept") then Some(29) else
    if name == Ascii("accept-encoding") then Some(31) else
    if name == Ascii("accept-ranges") then Some(32) else
    None
  }

  function FindNameIn33(name: Bytes): (r: Option<nat>) {
    hide Ascii;
    if name == Ascii("access-control-allow-headers") then Some(33) else
    if name == Ascii("access-control-allow-origin") then Some(35) else
    if name == Ascii("cache-control") then Some(36) else
    if name == Ascii("content-encoding") then Some(42) else
    None
  }

  function FindNameIn44(name: Bytes): (r: Option<nat>) {
    hide Ascii;
    if name == Ascii("content-type") then Some(44) else
    None
  }

  function FindNameIn55(name: Bytes): (r: Option<nat>) {
    hide Ascii;
    if name == Ascii("range") then Some(55) else
    if name == Ascii("strict-transport-security") then Some(56) else
    if name == Ascii("vary") then Some(59) else
    if name == Ascii("x-content-type-options") then Some(61) else
    if name == Ascii("x-xss-protection") then Some(62) else
    None
  }

  function FindNameIn66(name: Bytes): (r: Option<nat>) {
    hide Ascii;
    if name == Ascii("accept-language") then Some(72) else
    if name == Ascii("access-control-allow-credentials") then Some(73) else
    if name == Ascii("access-control-allow-methods") then Some(76) else
    None
  }

  function FindNameIn77(name: Bytes): (r: Option<nat>) {
    hide Ascii;
    if name == Ascii("access-control-expose-headers") then Some(79) else
    if name == Ascii("access-control-request-headers") then Some(80) else
    if name == Ascii("access-control-request-method") then Some(81) else
    if name == Ascii("alt-svc") then Some(83) else
    if name == Ascii("authorization") then Some(84) else
    if name == Ascii("content-security-policy") then Some(85) else
    if name == Ascii("early-data") then Some(86) else
    if name == Ascii("expect-ct") then Some(87) else
    None
  }

  function FindNameIn88(name: Bytes): (r: Option<nat>) {
    hide Ascii;
    if name == Ascii("forwarded") then Some(88) else
    if name == Ascii("if-range") then Some(89) else
    if name == Ascii("origin") then Some(90) else
    if name == Ascii("purpose") then Some(91) else
    if name == Ascii("server") then Some(92) else
    if name == Ascii("timing-allow-origin") then Some(93) else
    if name == Ascii("upgrade-insecure-requests") then Some(94) else
    if name == Ascii("user-agent") then Some(95) else
    if name == Ascii("x-forwarded-for") then Some(96) else
    if name == Ascii("x-frame-options") then Some(97) else
    None
  }

  /** The first entry with that name, as the arms of another match list them. */
  function FindName(name: Bytes): (r: Option<nat>) {
    if FindNameIn00(name).Some? then FindNameIn00(name) else
    if FindNameIn11(name).Some? then FindNameIn11(name) else
    if FindNameIn22(name).Some? then FindNameIn22(name) else
    if FindNameIn33(name).Some? then FindNameIn33(name) else
    if FindNameIn44(name).Some? then FindNameIn44(name) else
    if FindNameIn55(name).Some? then FindNameIn55(name) else
    if FindNameIn66(name).Some? then FindNameIn66(name) else
    if FindNameIn77(name).Some? then FindNameIn77(name) else
    if FindNameIn88(name).Some? then FindNameIn88(name) else
    None
  }

  lemma FieldsIn00(field: HeaderField, i: nat)
    requires 0 <= i < 11
    ensures FindIn00(field).Some? ==> 0 <= FindIn00(field).value < 11 && EntriesFrom00(FindIn00(field).value) == field
    ensures EntriesFrom00(i) == field ==> FindIn00(field).Some? && FindIn00(field).value <= i
  {
    hide Ascii, Field;
  }

  lemma FieldsIn11(field: HeaderField, i: nat)
    requires 11 <= i < 22
    ensures FindIn11(field).Some? ==> 11 <= FindIn11(field).value < 22 && EntriesFrom11(FindIn11(field).value) == field
    ensures EntriesFrom11(i) == field ==> FindIn11(field).Some? && FindIn11(field).value <= i
  {
    hide Ascii, Field;
  }

  lemma FieldsIn22(field: HeaderField, i: nat)
    requires 22 <= i < 33
    ensures FindIn22(field).Some? ==> 22 <= FindIn22(field).value < 33 && EntriesFrom22(FindIn22(field).value) == field
    ensures EntriesFrom22(i) == field ==> FindIn22(field).Some? && FindIn22(field).value <= i
  {
    hide Ascii, Field;
  }

  lemma FieldsIn33(field: HeaderField, i: nat)
    requires 33 <= i < 44
    ensures FindIn33(field).Some? ==> 33 <= FindIn33(field).value < 44 && EntriesFrom33(FindIn33(field).value) == field
    ensures EntriesFrom33(i) == field ==> FindIn33(field).Some? && FindIn33(field).value <= i
  {
    hide Ascii, Field;
  }

  lemma FieldsIn44(field: HeaderField, i: nat)
    requires 44 <= i < 55
    ensures FindIn44(field).Some? ==> 44 <= FindIn44(field).value < 55 && EntriesFrom44(FindIn44(field).value) == field
    ensures EntriesFrom44(i) == field ==> FindIn44(field).Some? && FindIn44(field).value <= i
  {
    hide Ascii, Field;
  }

  lemma FieldsIn55(field: HeaderField, i: nat)
    requires 55 <= i < 66
    ensures FindIn55(field).Some? ==> 55 <= FindIn55(field).value < 66 && EntriesFrom55(FindIn55(field).value) == field
    ensures EntriesFrom55(i) == field ==> FindIn55(field).Some? && FindIn55(field).value <= i
  {
    hide Ascii, Field;
  }

  lemma FieldsIn66(field: HeaderField, i: nat)
    requires 66 <= i < 77
    ensures FindIn66(field).Some? ==> 66 <= FindIn66(field).value < 77 && EntriesFrom66(FindIn66(field).value) == field
    ensures EntriesFrom66(i) == field ==> FindIn66(field).Some? && FindIn66(field).value <= i
  {
    hide Ascii, Field;
  }

  lemma FieldsIn77(field: HeaderField, i: nat)
    requires 77 <= i < 88
    ensures FindIn77(field).Some? ==> 77 <= FindIn77(field).value < 88 && EntriesFrom77(FindIn77(field).value) == field
    ensures EntriesFrom77(i) == field ==> FindIn77(field).Some? && FindIn77(field).value <= i
  {
    hide Ascii, Field;
  }

  lemma FieldsIn88(field: HeaderField, i: nat)
    requires 88 <= i < 99
    ensures FindIn88(field).Some? ==> 88 <= FindIn88(field).value < 99 && EntriesFrom88(FindIn88(field).value) == field
    ensures EntriesFrom88(i) == field ==> FindIn88(field).Some? && FindIn88(field).value <= i
  {
    hide Ascii, Field;
  }

  lemma NamesIn00(name: Bytes, i: nat)
    requires 0 <= i < 11
    ensures var r := FindNameIn00(name);
            r.Some? ==> 0 <= r.value < 11 && EntriesFrom00(r.value).name == name
    ensures EntriesFrom00(i).name == name ==>
              || (FindNameIn00(name).Some? && FindNameIn00(name).value <= i)
  {
    hide Ascii;
  }

  lemma NamesIn11(name: Bytes, i: nat)
    requires 11 <= i < 22
    ensures var r := FindNameIn11(name);
            r.Some? ==> 11 <= r.value < 22 && EntriesFrom11(r.value).name == name
    ensures EntriesFrom11(i).name == name ==>
              || FindNameIn00(name).Some?
              || (FindNameIn11(name).Some? && FindNameIn11(name).value <= i)
  {
    hide Ascii, FindNameIn00;
  }

  lemma NamesIn22(name: Bytes, i: nat)
    requires 22 <= i < 33
    ensures var r := FindNameIn22(name);
            r.Some? ==> 22 <= r.value < 33 && EntriesFrom22(r.value).name == name
    ensures EntriesFrom22(i).name == name ==>
              || FindNameIn00(name).Some?
              || FindNameIn11(name).Some?
              || (FindNameIn22(name).Some? && FindNameIn22(name).value <= i)
  {
    hide Ascii, FindNameIn00, FindNameIn11;
  }

  lemma NamesIn33(name: Bytes, i: nat)
    requires 33 <= i < 44
    ensures var r := FindNameIn33(name);
            r.Some? ==> 33 <= r.value < 44 && EntriesFrom33(r.value).name == name
    ensures EntriesFrom33(i).name == name ==>
              || FindNameIn00(name).Some?
              || FindNameIn11(name).Some?
              || FindNameIn22(name).Some?
              || (FindNameIn33(name).Some? && FindNameIn33(name).value <= i)
  {
    hide Ascii, FindNameIn00, FindNameIn11, FindNameIn22;
  }

  lemma NamesIn44(name: Bytes, i: nat)
    requires 44 <= i < 55
    ensures var r := FindNameIn44(name);
            r.Some? ==> 44 <= r.value < 55 && EntriesFrom44(r.value).name == name
    ensures EntriesFrom44(i).name == name ==>
              || FindNameIn00(name).Some?
              || FindNameIn11(name).Some?
              || FindNameIn22(name).Some?
              || FindNameIn33(name).Some?
              || (FindNameIn44(name).Some? && FindNameIn44(name).value <= i)
  {
    hide Ascii, FindNameIn00, FindNameIn11, FindNameIn22, FindNameIn33;
  }

  lemma NamesIn55(name: Bytes, i: nat)
    requires 55 <= i < 66
    ensures var r := FindNameIn55(name);
            r.Some? ==> 55 <= r.value < 66 && EntriesFrom55(r.value).name == name
    ensures EntriesFrom55(i).name == name ==>
              || FindNameIn00(name).Some?
              || FindNameIn11(name).Some?
              || FindNameIn22(name).Some?
              || FindNameIn33(name).Some?
              || FindNameIn44(name).Some?
              || (FindNameIn55(name).Some? && FindNameIn55(name).value <= i)
  {
    hide Ascii, FindNameIn00, FindNameIn11, FindNameIn33, FindNameIn44;
  }

  lemma NamesIn66(name: Bytes, i: nat)
    requires 66 <= i < 77
    ensures var r := FindNameIn66(name);
            r.Some? ==> 66 <= r.value < 77 && EntriesFrom66(r.value).name == name
    ensures EntriesFrom66(i).name == name ==>
              || FindNameIn00(name).Some?
              || FindNameIn11(name).Some?
              || FindNameIn22(name).Some?
              || FindNameIn33(name).Some?
              || FindNameIn44(name).Some?
              || FindNameIn55(name).Some?
              || (FindNameIn66(name).Some? && FindNameIn66(name).value <= i)
  {
    hide Ascii, FindNameIn00, FindNameIn11, FindNameIn44, FindNameIn55;
  }

  lemma NamesIn77(name: Bytes, i: nat)
    requires 77 <= i < 88
    ensures var r := FindNameIn77(name);
            r.Some? ==> 77 <= r.value < 88 && EntriesFrom77(r.value).name == name
    ensures EntriesFrom77(i).name == name ==>
              || FindNameIn00(name).Some?
              || FindNameIn11(name).Some?
              || FindNameIn22(name).Some?
              || FindNameIn33(name).Some?
              || FindNameIn44(name).Some?
              || FindNameIn55(name).Some?
              || FindNameIn66(name).Some?
              || (FindNameIn77(name).Some? && FindNameIn77(name).value <= i)
  {
    hide Ascii, FindNameIn00, FindNameIn11, FindNameIn22, FindNameIn33, FindNameIn44, FindNameIn55;
  }

  lemma NamesIn88(name: Bytes, i: nat)
    requires 88 <= i < 99
    ensures var r := FindNameIn88(name);
            r.Some? ==> 88 <= r.value < 99 && EntriesFrom88(r.value).name == name
    ensures EntriesFrom88(i).name == name ==>
              || FindNameIn00(name).Some?
              || FindNameIn11(name).Some?
              || FindNameIn22(name).Some?
              || FindNameIn33(name).Some?
              || FindNameIn44(name).Some?
              || FindNameIn55(name).Some?
              || FindNameIn66(name).Some?
              || FindNameIn77(name).Some?
              || (FindNameIn88(name).Some? && FindNameIn88(name).value <= i)
  {
    hide Ascii, FindNameIn00, FindNameIn11, FindNameIn22, FindNameIn33, FindNameIn44, FindNameIn55, FindNameIn66;
    hide FindNameIn77;
  }

  lemma FieldFound(field: HeaderField, i: nat)
    requires i < SIZE
    ensures Find(field).Some? ==> Find(field).value < SIZE && Entry(Find(field).value) == field
    ensures Entry(i) == field ==> Find(field).Some? && Find(field).value <= i
  {
    hide FindIn00, FindIn11, FindIn22, FindIn33, FindIn44, FindIn55, FindIn66, FindIn77, FindIn88, EntriesFrom00;
    hide EntriesFrom11, EntriesFrom22, EntriesFrom33, EntriesFrom44, EntriesFrom55, EntriesFrom66, EntriesFrom77;
    hide EntriesFrom88;
    FieldsIn00(field, if 0 <= i < 11 then i else 0);
    FieldsIn11(field, if 11 <= i < 22 then i else 11);
    FieldsIn22(field, if 22 <= i < 33 then i else 22);
    FieldsIn33(field, if 33 <= i < 44 then i else 33);
    FieldsIn44(field, if 44 <= i < 55 then i else 44);
    FieldsIn55(field, if 55 <= i < 66 then i else 55);
    FieldsIn66(field, if 66 <= i < 77 then i else 66);
    FieldsIn77(field, if 77 <= i < 88 then i else 77);
    FieldsIn88(field, if 88 <= i < 99 then i else 88);
  }

  lemma NameFound(name: Bytes, i: nat)
    requires i < SIZE
    ensures FindName(name).Some? ==> FindName(name).value < SIZE && Entry(FindName(name).value).name == name
    ensures Entry(i).name == name ==> FindName(name).Some? && FindName(name).value <= i
  {
    hide FindNameIn00, FindNameIn11, FindNameIn22, FindNameIn33, FindNameIn44, FindNameIn55, FindNameIn66;
    hide FindNameIn77, FindNameIn88, EntriesFrom00, EntriesFrom11, EntriesFrom22, EntriesFrom33, EntriesFrom44;
    hide EntriesFrom55, EntriesFrom66, EntriesFrom77, EntriesFrom88;
    NamesIn00(name, if 0 <= i < 11 then i else 0);
    NamesIn11(name, if 11 <= i < 22 then i else 11);
    NamesIn22(name, if 22 <= i < 33 then i else 22);
    NamesIn33(name, if 33 <= i < 44 then i else 33);
    NamesIn44(name, if 44 <= i < 55 then i else 44);
    NamesIn55(name, if 55 <= i < 66 then i else 55);
    NamesIn66(name, if 66 <= i < 77 then i else 66);
    NamesIn77(name, if 77 <= i < 88 then i else 77);
    NamesIn88(name, if 88 <= i < 99 then i else 88);
  }

  /** What the encoder finds is what the decoder gets back. */
  lemma FindSound(field: HeaderField)
    ensures Find(field).Some? ==> Find(field).value < SIZE && Get(Find(field).value) == Success(field)
    ensures FindName(field.name).Some? ==>
              && FindName(field.name).value < SIZE
              && Get(FindName(field.name).value).Success?
              && Get(FindName(field.name).value).value.name == field.name
  {
    hide Entry, Find, FindName;
    FieldFound(field, 0);
    NameFound(field.name, 0);
  }

  /** And whatever is in the table is found, a name by its first entry. */
  lemma FindComplete(field: HeaderField, i: nat)
    requires i < SIZE
    ensures Entry(i) == field ==> Find(field).Some? && Find(field).value <= i
    ensures Entry(i).name == field.name ==> FindName(field.name).Some? && FindName(field.name).value <= i
  {
    hide Entry, Find, FindName;
    FieldFound(field, i);
    NameFound(field.name, i);
  }
}
