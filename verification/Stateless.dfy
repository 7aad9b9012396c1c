/** The stateless codec that live requests use (h3/src/qpack/encoder.rs, h3/src/qpack/decoder.rs). */
module Stateless {
  import opened Octets
  import opened FieldLines
  import opened QpackErrors
  import opened Static = StaticTable
  import HeaderPrefix
  import PrefixInt
  import PrefixString

  datatype Decoded = Decoded(fields: seq<HeaderField>, memSize: nat)

  /** Both strings of every field have encodings whose length fits a prefix integer. */
  predicate Encodable(fields: seq<HeaderField>) {
    forall f :: f in fields ==> PrefixString.Encodable(f.name) && PrefixString.Encodable(f.value)
  }

  // ----------------------------------------------------------------- encoding

  function LineOf(field: HeaderField): (line: FieldLine) {
    match Find(field)
    case Some(i) => IndexedStatic(i)
    case None =>
      match FindName(field.name)
      case Some(i) => LiteralStaticName(i, field.value)
      case None => Literal(field.name, field.value)
  }

  const PREFIX := HeaderPrefix.HeaderPrefix(0, false, 0)

  function EncodeFields(fields: seq<HeaderField>): (s: Bytes) {
    if fields == [] then [] else FieldLines.Encode(LineOf(fields[0])) + EncodeFields(fields[1..])
  }

  function Encode(fields: seq<HeaderField>): (s: Bytes) {
    HeaderPrefix.Encode(PREFIX) + EncodeFields(fields)
  }

  /** The encoding loop: appends the block and adds up the size that is checked against the peer's limit. */
  method EncodeStateless(fields: seq<HeaderField>, buf: Bytes) returns (block: Bytes, size: nat)
    ensures block == buf + Encode(fields) && size == SizeOf(fields)
  {
    hide FieldLines.Encode, HeaderPrefix.Encode, Find, FindName;
    size := 0;
    block := buf + HeaderPrefix.Encode(HeaderPrefix.New(0, 0, 0, 0));
    for i := 0 to |fields|
      invariant block + EncodeFields(fields[i..]) == buf + Encode(fields)
      invariant size == SizeOf(fields[..i])
    {
      var field := fields[i];
      var line;
      if Find(field).Some? {
        line := IndexedStatic(Find(field).value);
      } else if FindName(field.name).Some? {
        line := LiteralStaticName(FindName(field.name).value, field.value);
      } else {
        line := Literal(field.name, field.value);
      }
      assert fields[i..][1..] == fields[i + 1..];
      assert fields[..i + 1] == fields[..i] + [field];
      SizeOfAppend(fields[..i], field);
      assert block + (FieldLines.Encode(line) + EncodeFields(fields[i + 1..]))
          == block + FieldLines.Encode(line) + EncodeFields(fields[i + 1..]);
      block := block + FieldLines.Encode(line);
      size := size + field.MemSize();
    }
    assert fields[..|fields|] == fields;
  }

  // ----------------------------------------------------------------- decoding

  /** The field a line denotes when there is no dynamic table. */
  function Resolve(line: FieldLine): (r: Result<HeaderField, DecoderError>) {
    match line
    case IndexedStatic(i) =>
      (match Get(i) case Success(f) => Success(f) case Failure(_) => Failure(InvalidStaticIndex(i)))
    case LiteralStaticName(i, v) =>
      (match Get(i) case Success(f) => Success(f.WithValue(v)) case Failure(_) => Failure(InvalidStaticIndex(i)))
    case Literal(n, v) => Success(HeaderField(n, v))
    case _ => Failure(MissingRefs(0))
  }

  datatype Next = Field(field: HeaderField, rest: Bytes) | Bad(error: DecoderError)

  function NextField(s: Bytes): (r: Next)
    requires s != []
    ensures r.Field? ==> |r.rest| < |s|
  {
    var kind := Classify(s[0]);
    if kind.IndexedWithPostBase? || kind.LiteralWithPostBaseNameRef? then Bad(MissingRefs(0)) else
    DecodeSuffix(s);
    match FieldLines.Decode(s)
    case Err(e) => Bad(FromParse(e))
    case Ok(line, rest) =>
      match Resolve(line)
      case Failure(e) => Bad(e)
      case Success(field) => Field(field, rest)
  }

  function DecodeFields(s: Bytes, max: nat, done: seq<HeaderField>): (r: Result<Decoded, DecoderError>)
    decreases |s|
  {
    if s == [] then Success(Decoded(done, SizeOf(done))) else
    match NextField(s)
    case Bad(e) => Failure(e)
    case Field(field, rest) =>
      var size := SizeOf(done) + field.MemSize();
      if size > max then Failure(HeaderTooLong(size)) else DecodeFields(rest, max, done + [field])
  }

  function Decode(s: Bytes, max: nat): (r: Result<Decoded, DecoderError>) {
    match HeaderPrefix.Decode(s)
    case Err(e) => Failure(InvalidInteger(e))
    case Ok(p, rest) =>
      match HeaderPrefix.Get(p, 0, 0)
      case InvalidBase(b) => Failure(BadBaseIndex(b))
      case ArithmeticFault => Failure(DecoderError.ArithmeticFault)
      case Counts(required, _) =>
        if required > 0 then Failure(MissingRefs(required)) else DecodeFields(rest, max, [])
  }

  /** The decoding loop, which gives up as soon as the fields so far are too large. */
  method DecodeStateless(buf: Bytes, max: nat) returns (r: Result<Decoded, DecoderError>)
    ensures r == Decode(buf, max)
  {
    hide HeaderPrefix.Decode, HeaderPrefix.Get, NextField;
    var prefix := HeaderPrefix.Decode(buf);
    if prefix.Err? {
      return Failure(InvalidInteger(prefix.error));
    }
    match HeaderPrefix.Get(prefix.value, 0, 0) {
      case InvalidBase(b) => return Failure(BadBaseIndex(b));
      case ArithmeticFault => return Failure(DecoderError.ArithmeticFault);
      case Counts(required, _) =>
        if required > 0 {
          return Failure(MissingRefs(required));
        }
    }
    var rest, memSize, fields := prefix.rest, 0, [];
    while |rest| > 0
      invariant memSize == SizeOf(fields)
      invariant DecodeFields(rest, max, fields) == Decode(buf, max)
      decreases |rest|
    {
      match NextField(rest) {
        case Bad(e) => return Failure(e);
        case Field(field, next) =>
          SizeOfAppend(fields, field);
          memSize := memSize + field.MemSize();
          if memSize > max {
            return Failure(HeaderTooLong(memSize));
          }
          fields := fields + [field];
          rest := next;
      }
    }
    return Success(Decoded(fields, memSize));
  }

  // --------------------------------------------------------------- round trip

  /** The lines, in whatever form they are written, are those of the fields. */
  ghost predicate Denotes(ws: seq<Written>, fields: seq<HeaderField>) {
    && |ws| == |fields|
    && forall i :: 0 <= i < |ws| ==>
         FieldLines.EncodableAs(ws[i].line, ws[i].style) && Resolve(ws[i].line) == Success(fields[i])
  }

  lemma NextLine(line: FieldLine, style: Style, rest: Bytes)
    requires FieldLines.EncodableAs(line, style)
    ensures NextField(FieldLines.EncodeAs(line, style) + rest)
         == match Resolve(line) case Success(field) => Field(field, rest) case Failure(e) => Bad(e)
  {
    hide FieldLines.EncodeAs, FieldLines.EncodableAs;
    RoundTripAs(line, style, rest);
    KindOfLine(line, style, rest);
  }

  /** Only post-base lines announce themselves as such. */
  lemma KindOfLine(line: FieldLine, style: Style, rest: Bytes)
    requires FieldLines.EncodableAs(line, style)
    ensures var kind := Classify((FieldLines.EncodeAs(line, style) + rest)[0]);
            && (kind.IndexedWithPostBase? ==> line.IndexedPostBase?)
            && (kind.LiteralWithPostBaseNameRef? ==> line.LiteralPostBaseName?)
  {
    hide FieldLines.EncodeAs, FieldLines.EncodableAs;
    hide DecodeIndexed, DecodePostBase, DecodeLiteralNameRef, DecodeLiteralPostBase, DecodeLiteral;
    RoundTripAs(line, style, rest);
  }

  /** The size the decoder reports when it gives up: that of the shortest prefix above the limit. */
  ghost predicate FirstAbove(fields: seq<HeaderField>, max: nat, size: nat) {
    exists k :: 0 < k <= |fields| && SizeOf(fields[..k]) == size > max && SizeOf(fields[..k - 1]) <= max
  }

  /** The verdict on a field list under a limit. */
  ghost predicate Expected(r: Result<Decoded, DecoderError>, all: seq<HeaderField>, max: nat) {
    if SizeOf(all) <= max then r == Success(Decoded(all, SizeOf(all)))
    else r.Failure? && r.error.HeaderTooLong? && FirstAbove(all, max, r.error.size)
  }

  /** What is decoded of a block that begins with lines that resolve. */
  lemma {:induction false} DecodeWritten(done: seq<HeaderField>, ws: seq<Written>, fields: seq<HeaderField>,
                                         rest: Bytes, max: nat)
    requires Denotes(ws, fields) && SizeOf(done) <= max
    ensures var (r, all) := (DecodeFields(EncodeWritten(ws) + rest, max, done), done + fields);
            if SizeOf(all) <= max then r == DecodeFields(rest, max, all)
            else r.Failure? && r.error.HeaderTooLong? && FirstAbove(all, max, r.error.size)
    decreases |ws|
  {
    hide NextField, FieldLines.EncodeAs, FieldLines.EncodableAs, Resolve, SizeOf;
    var all := done + fields;
    if ws == [] {
      assert all == done && [] + rest == rest;
    } else {
      var (w, done', more) := (ws[0], done + [fields[0]], EncodeWritten(ws[1..]) + rest);
      assert all == done' + fields[1..] && all[..|done'|] == done' && done'[..|done|] == done;
      assert EncodeWritten(ws) + rest == FieldLines.EncodeAs(w.line, w.style) + more;
      NextLine(w.line, w.style, more);
      SizeOfConcat(done', fields[1..]);
      SizeOfAppend(done, fields[0]);
      if SizeOf(done') <= max {
        DecodeWritten(done', ws[1..], fields[1..], rest, max);
      } else {
        assert all[..|done'| - 1] == done;
      }
    }
  }

  lemma Start(p: HeaderPrefix.HeaderPrefix, body: Bytes, max: nat)
    requires p.encodedInsertCount < PrefixInt.PAYLOAD_LIMIT && p.deltaBase < PrefixInt.PAYLOAD_LIMIT
    ensures Decode(HeaderPrefix.Encode(p) + body, max) == DecodeFields(body, max, [])
  {
    hide HeaderPrefix.Encode, HeaderPrefix.Decode, DecodeFields;
    HeaderPrefix.WireRoundTrip(p, body);
  }

  /** Whatever peer wrote a field section, with whatever choice of representations, plain or Huffman-coded
      strings, marks and prefix: the fields and their size come back exactly if that size is within the
      limit; otherwise the decoder reports the size of the shortest prefix above it. */
  lemma AnyPeerDecodes(p: HeaderPrefix.HeaderPrefix, ws: seq<Written>, fields: seq<HeaderField>, max: nat)
    requires p.encodedInsertCount < PrefixInt.PAYLOAD_LIMIT && p.deltaBase < PrefixInt.PAYLOAD_LIMIT
    requires Denotes(ws, fields)
    ensures Expected(Decode(HeaderPrefix.Encode(p) + EncodeWritten(ws), max), fields, max)
  {
    hide HeaderPrefix.Encode, DecodeFields, EncodeWritten, Denotes, Decode, SizeOf;
    Start(p, EncodeWritten(ws), max);
    NoFields();
    DecodeWritten([], ws, fields, [], max);
    assert [] + fields == fields && EncodeWritten(ws) + [] == EncodeWritten(ws);
    NothingLeft(fields, max);
  }

  lemma NoFields()
    ensures SizeOf([]) == 0
  {
  }

  lemma NothingLeft(fields: seq<HeaderField>, max: nat)
    ensures DecodeFields([], max, fields) == Success(Decoded(fields, SizeOf(fields)))
  {
    hide SizeOf;
  }

  /** A line that refers to the dynamic table, or beyond the static one, makes the section fail, whatever
      follows it. */
  lemma BadLineRefused(p: HeaderPrefix.HeaderPrefix, ws: seq<Written>, fields: seq<HeaderField>, bad: Written,
                       rest: Bytes, max: nat)
    requires p.encodedInsertCount < PrefixInt.PAYLOAD_LIMIT && p.deltaBase < PrefixInt.PAYLOAD_LIMIT
    requires Denotes(ws, fields) && SizeOf(fields) <= max && FieldLines.EncodableAs(bad.line, bad.style)
    requires !bad.line.Literal?
    requires bad.line.IndexedStatic? || bad.line.LiteralStaticName? ==> bad.line.index >= SIZE
    ensures Decode(HeaderPrefix.Encode(p) + EncodeWritten(ws) + FieldLines.EncodeAs(bad.line, bad.style) + rest, max)
         == Failure(if bad.line.IndexedStatic? || bad.line.LiteralStaticName? then InvalidStaticIndex(bad.line.index)
                    else MissingRefs(0))
  {
    hide HeaderPrefix.Encode, EncodeWritten, Denotes, Decode, SizeOf, FieldLines.EncodeAs, FieldLines.EncodableAs;
    hide NextField, Entry;
    var last := FieldLines.EncodeAs(bad.line, bad.style) + rest;
    var (head, body) := (HeaderPrefix.Encode(p), EncodeWritten(ws) + last);
    assert head + EncodeWritten(ws) + FieldLines.EncodeAs(bad.line, bad.style) + rest == head + body;
    Start(p, body, max);
    NoFields();
    DecodeWritten([], ws, fields, last, max);
    assert [] + fields == fields;
    NextLine(bad.line, bad.style, rest);
  }

  // --------------------------------------------------------- this encoder's choice

  lemma LineFits(field: HeaderField)
    requires PrefixString.Encodable(field.name) && PrefixString.Encodable(field.value)
    ensures FieldLines.EncodableAs(LineOf(field), OWN) && Resolve(LineOf(field)) == Success(field)
  {
    hide Find, FindName, Get, PrefixString.Encodable;
    FindSound(field);
  }

  /** A field of the static table costs one index, a name of it one index and a string; everything else is
      written out. */
  lemma LineChosen(field: HeaderField, i: nat)
    requires i < SIZE
    ensures Entry(i) == field ==> LineOf(field).IndexedStatic? && LineOf(field).index <= i
    ensures Entry(i).name == field.name ==> LineOf(field).IndexedStatic? || LineOf(field).LiteralStaticName?
    ensures match LineOf(field)
            case IndexedStatic(k) => k < SIZE && Entry(k) == field
            case LiteralStaticName(k, v) => k < SIZE && Entry(k).name == field.name && v == field.value && Entry(i) != field
            case Literal(n, v) => n == field.name && v == field.value && Entry(i).name != field.name
            case _ => false
  {
    hide Find, FindName, Entry;
    FindSound(field);
    FindComplete(field, i);
  }

  function OwnLines(fields: seq<HeaderField>): seq<Written> {
    if fields == [] then [] else [Written(LineOf(fields[0]), OWN)] + OwnLines(fields[1..])
  }

  lemma {:induction false} OwnWritten(fields: seq<HeaderField>)
    requires Encodable(fields)
    ensures EncodeFields(fields) == EncodeWritten(OwnLines(fields)) && Denotes(OwnLines(fields), fields)
    decreases |fields|
  {
    hide LineOf, FieldLines.EncodeAs, FieldLines.EncodableAs, Resolve, PrefixString.Encodable;
    if fields != [] {
      LineFits(fields[0]);
      OwnWritten(fields[1..]);
      assert OwnLines(fields)[1..] == OwnLines(fields[1..]);
    }
  }

  /** For every field list and limit: the list and the encoder's size come back exactly if that size is
      within the limit; otherwise the decoder reports the size of the shortest prefix above it. */
  lemma StatelessRoundTrip(fields: seq<HeaderField>, max: nat)
    requires Encodable(fields)
    ensures Expected(Decode(Encode(fields), max), fields, max)
  {
    hide HeaderPrefix.Encode, Decode, EncodeFields, PrefixString.Encodable, Denotes, EncodeWritten, OwnLines, Expected;
    OwnWritten(fields);
    AnyPeerDecodes(PREFIX, OwnLines(fields), fields, max);
  }

  /** A sender that compares the encoder's size with the peer's limit is never refused for size. */
  lemma WithinLimitAccepted(fields: seq<HeaderField>, limit: nat)
    requires Encodable(fields)
    ensures Decode(Encode(fields), limit).Success? <==> SizeOf(fields) <= limit
  {
    hide Decode, Encode, PrefixString.Encodable;
    StatelessRoundTrip(fields, limit);
  }
}
