/** Whole runs of a QPACK connection. The encoder encodes blocks, changes its capacity and takes in
    acknowledgements in any order; its instructions wait in one log, of which the decoder has consumed some
    prefix. RFC 9204, sections 2.1 and 2.2. */
module QpackRun {
  import opened Octets
  import opened TableModel
  import opened Bookkeeping
  import opened FieldLines
  import opened Instructions
  import opened QpackErrors
  import opened Sections
  import opened Decoder
  import opened EncoderStream
  import opened Static = StaticTable
  import HeaderPrefix
  import PrefixInt

  // ------------------------------------------------------ decoding one section

  /** Against this table every line of the section resolves to its field. */
  ghost predicate StandsFor(c: Core, s: Section, fields: seq<HeaderField>) {
    && |s.lines| == |fields|
    && forall i :: 0 <= i < |fields| ==>
         Resolve(c, s.base, s.lines[i]) == Success(fields[i]) && (s.required == 0 ==> !IsDynamic(s.lines[i]))
  }

  ghost predicate LinesEncodable(lines: seq<FieldLine>) {
    forall l :: l in lines ==> FieldLines.Encodable(l)
  }

  lemma {:induction false} EncodeLinesHead(lines: seq<FieldLine>)
    requires lines != []
    ensures EncodeLines(lines) == FieldLines.Encode(lines[0]) + EncodeLines(lines[1..])
    decreases |lines|
  {
    hide FieldLines.Encode;
    if |lines| == 1 {
      assert lines[..0] == [] && lines[1..] == [];
    } else {
      var front := lines[..|lines| - 1];
      EncodeLinesHead(front);
      assert front[1..] == lines[1..][..|lines[1..]| - 1];
    }
  }

  lemma EncodeLinesNone()
    ensures EncodeLines([]) == []
  {
  }

  /** The section's lines, in whatever form they are written. */
  ghost predicate Writes(ws: seq<Written>, lines: seq<FieldLine>) {
    && |ws| == |lines|
    && forall i :: 0 <= i < |ws| ==> ws[i].line == lines[i] && FieldLines.EncodableAs(ws[i].line, ws[i].style)
  }

  /** They decode to the section's fields, and what comes behind them is read next. A section without
      references has base zero. */
  lemma {:induction false} DecodeWrittenLines(c: Core, base: nat, s: Section, ws: seq<Written>,
                                              fields: seq<HeaderField>, rest: Bytes, done: seq<HeaderField>)
    requires StandsFor(c, s, fields) && Writes(ws, s.lines)
    requires s.required > 0 ==> base == s.base
    ensures DecodeLines(c, base, EncodeWritten(ws) + rest, done) == DecodeLines(c, base, rest, done + fields)
    decreases |fields|
  {
    hide FieldLines.EncodeAs, FieldLines.Decode, FieldLines.EncodableAs, Resolve, DecodeLines;
    if fields == [] {
      assert done + fields == done && EncodeWritten(ws) + rest == rest;
    } else {
      var more := EncodeWritten(ws[1..]) + rest;
      assert EncodeWritten(ws) + rest == FieldLines.EncodeAs(ws[0].line, ws[0].style) + more;
      BaseIrrelevant(c, base, s.base, s.lines[0]);
      DecodeWrittenLine(c, base, ws[0], more, done);
      DecodeWrittenLines(c, base, s.(lines := s.lines[1..]), ws[1..], fields[1..], rest, done + [fields[0]]);
      assert done + [fields[0]] + fields[1..] == done + fields;
    }
  }

  lemma {:induction false} DecodeWrittenLine(c: Core, base: nat, w: Written, rest: Bytes, done: seq<HeaderField>)
    requires FieldLines.EncodableAs(w.line, w.style)
    ensures DecodeLines(c, base, FieldLines.EncodeAs(w.line, w.style) + rest, done)
         == (match Resolve(c, base, w.line)
             case Failure(e) => Failure(e)
             case Success(field) => DecodeLines(c, base, rest, done + [field]))
  {
    hide FieldLines.EncodeAs, FieldLines.Decode, FieldLines.EncodableAs, Resolve;
    RoundTripAs(w.line, w.style, rest);
  }

  lemma NoLines(c: Core, base: nat, fields: seq<HeaderField>)
    ensures DecodeLines(c, base, [], fields) == Success(fields)
  {
  }

  /** How this encoder writes them. */
  function OwnLines(lines: seq<FieldLine>): seq<Written> {
    if lines == [] then [] else [Written(lines[0], OWN)] + OwnLines(lines[1..])
  }

  lemma {:induction false} OwnWritten(lines: seq<FieldLine>)
    requires LinesEncodable(lines)
    ensures EncodeLines(lines) == EncodeWritten(OwnLines(lines)) && Writes(OwnLines(lines), lines)
    decreases |lines|
  {
    hide FieldLines.EncodeAs, EncodeLines, FieldLines.EncodableAs;
    EncodeLinesNone();
    if lines != [] {
      EncodeLinesHead(lines);
      OwnWritten(lines[1..]);
      assert OwnLines(lines)[1..] == OwnLines(lines[1..]);
      assert lines[0] in lines;
    }
  }

  lemma LineNotEmpty(line: FieldLine)
    ensures |FieldLines.Encode(line)| >= 1
  {
  }

  lemma BaseIrrelevant(c: Core, a: nat, b: nat, line: FieldLine)
    ensures !IsDynamic(line) ==> Resolve(c, a, line) == Resolve(c, b, line)
  {
  }

  /** The counts of a section's prefix fit its origin and the wire. */
  predicate GoodOrigin(o: Origin, s: Section) {
    && s.base <= o.inserted < LIMIT && o.capacity <= MAX_CAPACITY
    && (s.required > 0 ==> s.required <= o.inserted && o.capacity >= 32)
  }

  lemma PrefixOnWire(o: Origin, s: Section, rest: Bytes)
    requires GoodOrigin(o, s)
    ensures var p := HeaderPrefix.New(s.required, s.base, o.inserted, o.capacity);
            HeaderPrefix.Decode(HeaderPrefix.Encode(p) + rest) == Parsed.Ok(p, rest)
  {
    hide HeaderPrefix.Encode, HeaderPrefix.Decode;
    HeaderPrefix.WireRoundTrip(HeaderPrefix.New(s.required, s.base, o.inserted, o.capacity), rest);
  }

  /** A section decodes to its fields wherever its lines resolve to them, in whatever form they are written,
      if the decoder has the entries it requires, the same capacity, and a table that fits it. */
  lemma WrittenSectionDecodes(o: Origin, s: Section, ws: seq<Written>, fields: seq<HeaderField>, c: Core)
    requires GoodOrigin(o, s) && StandsFor(c, s, fields) && Writes(ws, s.lines)
    requires s.required > 0 ==> c.maxSize == o.capacity && Fits(c) && c.dropped < s.required <= c.Inserted()
    ensures DecodeSection(c, HeaderPrefix.Encode(HeaderPrefix.New(s.required, s.base, o.inserted, o.capacity))
                             + EncodeWritten(ws))
         == Success(Decoded(fields, s.required > 0, SizeOf(fields)))
  {
    hide HeaderPrefix.Encode, HeaderPrefix.Decode, HeaderPrefix.New, HeaderPrefix.Get;
    hide StandsFor, Writes, EncodeWritten, DecodeLines, Fits, SizeOf, DecodeSection;
    var base := if s.required > 0 then s.base else 0;
    assert EncodeWritten(ws) + [] == EncodeWritten(ws) && [] + fields == fields;
    SectionStart(o, s, c, EncodeWritten(ws));
    DecodeWrittenLines(c, base, s, ws, fields, [], []);
    NoLines(c, base, fields);
  }

  /** Behind the prefix, the lines are read with the section's base. */
  lemma {:induction false} SectionStart(o: Origin, s: Section, c: Core, body: Bytes)
    requires GoodOrigin(o, s)
    requires s.required > 0 ==> c.maxSize == o.capacity && Fits(c) && c.dropped < s.required <= c.Inserted()
    ensures DecodeSection(c, HeaderPrefix.Encode(HeaderPrefix.New(s.required, s.base, o.inserted, o.capacity)) + body)
         == (match DecodeLines(c, if s.required > 0 then s.base else 0, body, [])
             case Failure(e) => Failure(e)
             case Success(fields) => Success(Decoded(fields, s.required > 0, SizeOf(fields))))
  {
    hide HeaderPrefix.Encode, HeaderPrefix.Decode, HeaderPrefix.New, HeaderPrefix.Get;
    hide DecodeLines, Fits, SizeOf;
    PrefixOnWire(o, s, body);
    if s.required > 0 {
      LiveInWindow(c, s.required);
      HeaderPrefix.PrefixRoundTrip(s.required, s.base, o.inserted, o.capacity, c.Inserted());
    } else {
      HeaderPrefix.EmptyPrefix(s.base, o.inserted, o.capacity, c.Inserted(), c.maxSize);
    }
  }

  /** A line that refers to an entry which is not there makes the section fail, whatever comes before and
      behind it, with the error that `TableModel.ResolveExact` names. */
  lemma BadLineRefused(o: Origin, s: Section, ws: seq<Written>, fields: seq<HeaderField>, c: Core, bad: Written,
                       rest: Bytes)
    requires GoodOrigin(o, s) && StandsFor(c, s, fields) && Writes(ws, s.lines)
    requires s.required > 0 ==> c.maxSize == o.capacity && Fits(c) && c.dropped < s.required <= c.Inserted()
    requires FieldLines.EncodableAs(bad.line, bad.style) && !Refers(c, if s.required > 0 then s.base else 0, bad.line)
    ensures var base := if s.required > 0 then s.base else 0;
            && Resolve(c, base, bad.line).Failure?
            && DecodeSection(c, HeaderPrefix.Encode(HeaderPrefix.New(s.required, s.base, o.inserted, o.capacity))
                                + EncodeWritten(ws) + FieldLines.EncodeAs(bad.line, bad.style) + rest)
            == Failure(Resolve(c, base, bad.line).error)
  {
    hide HeaderPrefix.Encode, HeaderPrefix.New, FieldLines.EncodeAs, FieldLines.EncodableAs;
    hide StandsFor, Writes, EncodeWritten, DecodeLines, Fits, SizeOf, DecodeSection, Resolve;
    var base := if s.required > 0 then s.base else 0;
    var last := FieldLines.EncodeAs(bad.line, bad.style) + rest;
    var head := HeaderPrefix.Encode(HeaderPrefix.New(s.required, s.base, o.inserted, o.capacity));
    assert head + EncodeWritten(ws) + FieldLines.EncodeAs(bad.line, bad.style) + rest == head + (EncodeWritten(ws) + last);
    SectionStart(o, s, c, EncodeWritten(ws) + last);
    DecodeWrittenLines(c, base, s, ws, fields, last, []);
    DecodeWrittenLine(c, base, bad, rest, [] + fields);
    ResolveExact(c, base, bad.line);
  }

  /** So it does as this encoder writes it. */
  lemma SectionDecodes(o: Origin, s: Section, fields: seq<HeaderField>, c: Core)
    requires GoodOrigin(o, s) && StandsFor(c, s, fields) && LinesEncodable(s.lines)
    requires s.required > 0 ==> c.maxSize == o.capacity && Fits(c) && c.dropped < s.required <= c.Inserted()
    ensures DecodeSection(c, BlockBytes(o, s)) == Success(Decoded(fields, s.required > 0, SizeOf(fields)))
  {
    hide HeaderPrefix.Encode, HeaderPrefix.New, DecodeSection, Writes, EncodeWritten, EncodeLines;
    hide StandsFor, LinesEncodable, Fits, SizeOf;
    OwnWritten(s.lines);
    WrittenSectionDecodes(o, s, OwnLines(s.lines), fields, c);
  }

  lemma {:induction false} LinesMissNothing(c: Core, base: nat, s: Bytes, done: seq<HeaderField>)
    ensures var r := DecodeLines(c, base, s, done);
            r.Failure? ==> !r.error.MissingRefs? && !r.error.ArithmeticFault?
    decreases |s|
  {
    hide FieldLines.Decode, Resolve;
    if s != [] {
      DecodeSuffix(s);
      var d := FieldLines.Decode(s);
      if d.Ok? {
        ResolveMissesNothing(c, base, d.value);
        if Resolve(c, base, d.value).Success? {
          LinesMissNothing(c, base, d.rest, done + [Resolve(c, base, d.value).value]);
        }
      }
    }
  }

  lemma ResolveMissesNothing(c: Core, base: nat, line: FieldLine)
    ensures var r := Resolve(c, base, line);
            r.Failure? ==> !r.error.MissingRefs? && !r.error.ArithmeticFault?
  {
    hide Get;
  }

  /** A section that arrives before the entries it requires is reported as missing them exactly when the
      decoder is at most capacity / 32 insertions behind. Further behind, the prefix means something else,
      and near the start of the stream it makes the count go below zero. */
  lemma PrematureSection(o: Origin, s: Section, c: Core)
    requires GoodOrigin(o, s) && s.required > c.Inserted() && c.maxSize == o.capacity
    ensures var (r, m) := (DecodeSection(c, BlockBytes(o, s)), o.capacity / 32);
            && (r == Failure(MissingRefs(s.required)) <==> s.required <= c.Inserted() + m)
            && (r == Failure(ArithmeticFault) <==> c.Inserted() + m < s.required % (2 * m))
  {
    hide HeaderPrefix.Encode, HeaderPrefix.Decode;
    hide EncodeLines, DecodeLines, HeaderPrefix.Reconstruct;
    PrefixOnWire(o, s, EncodeLines(s.lines));
    var (m, total) := (o.capacity / 32, c.Inserted());
    var encoded := s.required % (2 * m) + 1;
    HeaderPrefix.ReconstructFault(encoded, total, m);
    if s.required <= total + m {
      HeaderPrefix.PrefixRoundTrip(s.required, s.base, o.inserted, o.capacity, total);
    } else if HeaderPrefix.Reconstruct(encoded, total, m).Some? {
      HeaderPrefix.ReconstructInWindow(encoded, total, m);
      var counts := HeaderPrefix.Get(HeaderPrefix.New(s.required, s.base, o.inserted, o.capacity), total, o.capacity);
      if counts.Counts? {
        LinesMissNothing(c, counts.base, EncodeLines(s.lines), []);
      }
    }
  }

  /** Room for two entries: the third insertion, at a decoder that has made none. */
  lemma PrematureFault(lines: seq<FieldLine>, base: nat)
    requires base <= 3
    ensures DecodeSection(Core([], 0, 64), BlockBytes(Origin(3, 64), Section(lines, 3, base))) == Failure(ArithmeticFault)
  {
    hide BlockBytes, DecodeSection;
    PrematureSection(Origin(3, 64), Section(lines, 3, base), Core([], 0, 64));
  }

  // ---------------------------------------------------------------------- runs

  /** A block that was sent, kept until it is acknowledged or its stream cancelled. */
  datatype Sent = Sent(fields: seq<HeaderField>, section: Section, refs: Refs, origin: Origin)

  /** The encoder, every instruction it ever emitted, and the blocks still outstanding per stream. */
  datatype System = System(enc: State, log: seq<EncoderInstruction>, pending: map<nat, seq<Sent>>)

  datatype Event =
    | Encode(streamId: nat, fields: seq<HeaderField>, section: Section, refs: Refs, more: seq<EncoderInstruction>)
    | Resize(size: nat)
    | Feedback(instruction: DecoderInstruction)

  const START := Core([], 0, 0)

  ghost predicate Init(s: System) {
    s == System(State(START, map[], map[]), [], map[])
  }

  /** The oldest outstanding block of a stream is settled, if there is one. */
  function Settle(pending: map<nat, seq<Sent>>, streamId: nat): map<nat, seq<Sent>> {
    if streamId in pending && pending[streamId] != [] then Dequeue(pending, streamId) else pending
  }

  function SettledBy(pending: map<nat, seq<Sent>>, i: DecoderInstruction): map<nat, seq<Sent>> {
    match i
    case InsertCountIncrement(_) => pending
    case HeaderAck(id) => Settle(pending, id)
    case StreamCancel(id) => Settle(Settle(pending, id), id)
  }

  /** One step of the encoder's end: a block, an unobstructed change of capacity, or feedback. */
  ghost predicate Next(s: System, e: Event, s': System) {
    match e
    case Encode(streamId, fields, section, refs, more) =>
      && BlockEncoded(s.enc, s'.enc, streamId, fields, section, refs, more)
      && LogEncodable(s'.enc.core, fields, more)
      && (forall f :: f in fields ==> EncodableField(f)) && s'.enc.core.Inserted() < LIMIT
      && s'.log == s.log + more
      && s'.pending == Enqueue(s.pending, streamId,
           Sent(fields, section, refs, Origin(s'.enc.core.Inserted(), s'.enc.core.maxSize)))
    case Resize(size) =>
      && size <= MAX_CAPACITY && Unobstructed(s.enc, size)
      && s' == System(s.enc.(core := AfterResize(s.enc.core, s.enc.tracked, size)), s.log + [SizeUpdate(size)], s.pending)
    case Feedback(i) =>
      && NoEmptyQueue(s.enc) && Acknowledged(s.enc, i).Success?
      && s' == System(Acknowledged(s.enc, i).value.0, s.log, SettledBy(s.pending, i))
  }

  ghost predicate Run(states: seq<System>, events: seq<Event>) {
    && |states| == |events| + 1 && Init(states[0])
    && forall i :: 0 <= i < |events| ==> Next(states[i], events[i], states[i + 1])
  }

  // ----------------------------------------------------------------- invariant

  /** An outstanding block still stands for its fields against the encoder's table of now. */
  ghost predicate Good(c: Core, b: Sent) {
    Encodes(c, b.section, b.fields, b.refs) && GoodOrigin(b.origin, b.section) && LinesEncodable(b.section.lines)
  }

  /** The outstanding blocks are the ones whose references are counted. */
  ghost predicate Aligned(pending: map<nat, seq<Sent>>, blocks: Blocks) {
    && pending.Keys == blocks.Keys
    && forall id :: id in pending ==>
         && |pending[id]| == |blocks[id]| > 0
         && forall i :: 0 <= i < |pending[id]| ==> pending[id][i].refs == blocks[id][i]
  }

  ghost predicate AllGood(c: Core, pending: map<nat, seq<Sent>>) {
    forall id, i :: id in pending && 0 <= i < |pending[id]| ==> Good(c, pending[id][i])
  }

  ghost predicate Inv(s: System) {
    && Sound(s.enc) && Replay(START, s.log) == Success(s.enc.core)
    && AllEncodable(s.log) && s.enc.core.Inserted() < LIMIT && s.enc.core.maxSize <= MAX_CAPACITY
    && Aligned(s.pending, s.enc.blocks) && AllGood(s.enc.core, s.pending)
  }

  lemma AlignedEnqueue(pending: map<nat, seq<Sent>>, blocks: Blocks, streamId: nat, b: Sent)
    requires Aligned(pending, blocks)
    ensures Aligned(Enqueue(pending, streamId, b), Enqueue(blocks, streamId, b.refs))
  {
  }

  lemma AlignedSettle(pending: map<nat, seq<Sent>>, blocks: Blocks, streamId: nat)
    requires Aligned(pending, blocks) && streamId in blocks
    ensures streamId in pending && pending[streamId] != []
    ensures Aligned(Dequeue(pending, streamId), Dequeue(blocks, streamId))
  {
  }

  lemma AllGoodSettle(c: Core, pending: map<nat, seq<Sent>>, streamId: nat)
    requires AllGood(c, pending)
    ensures AllGood(c, Settle(pending, streamId))
  {
    hide Good;
    var after := Settle(pending, streamId);
    forall id, i | id in after && 0 <= i < |after[id]| ensures Good(c, after[id][i]) {
      if id == streamId && pending[id] != [] {
        assert after[id][i] == pending[id][i + 1];
      }
    }
  }

  lemma AllGoodEnqueue(c: Core, pending: map<nat, seq<Sent>>, streamId: nat, b: Sent)
    requires AllGood(c, pending) && Good(c, b)
    ensures AllGood(c, Enqueue(pending, streamId, b))
  {
    hide Good;
  }

  /** Every outstanding block is among those whose references are counted. */
  ghost predicate Counted(pending: map<nat, seq<Sent>>, blocks: Blocks) {
    forall id, i :: id in pending && 0 <= i < |pending[id]| ==>
      id in blocks && i < |blocks[id]| && pending[id][i].refs == blocks[id][i]
  }

  lemma AlignedCounted(pending: map<nat, seq<Sent>>, blocks: Blocks, streamId: nat, refs: Refs)
    requires Aligned(pending, blocks)
    ensures Counted(pending, blocks) && Counted(pending, Enqueue(blocks, streamId, refs))
  {
  }

  /** Outstanding blocks survive every change of the table that keeps tracked entries. */
  lemma AllGoodShift(c: Core, pending: map<nat, seq<Sent>>, log: seq<EncoderInstruction>,
                     c': Core, tracked: Refs, blocks: Blocks)
    requires AllGood(c, pending) && Replay(c, log) == Success(c')
    requires Conserved(c', tracked, blocks, map[]) && Counted(pending, blocks)
    ensures AllGood(c', pending)
  {
    hide Conserved, Encodes, Extends, Replay, GoodOrigin, LinesEncodable;
    ReplayExtends(c, log);
    forall id, i | id in pending && 0 <= i < |pending[id]| ensures Good(c', pending[id][i]) {
      var b := pending[id][i];
      assert Good(c, b);
      forall a | a in b.refs ensures a in b.refs && c'.Live(a) {
        OutstandingTracked(c', tracked, blocks, map[], id, i, a);
      }
      EncodesStable(c, c', b.section, b.fields, b.refs, b.refs);
    }
  }

  lemma EncodesEncodable(c: Core, s: Section, fields: seq<HeaderField>, refs: Refs)
    requires Encodes(c, s, fields, refs) && s.base < LIMIT && c.Inserted() < LIMIT
    requires forall f :: f in fields ==> EncodableField(f)
    ensures LinesEncodable(s.lines)
  {
    hide Resolve, Reference, EncodableField, FieldLines.Encodable;
    forall l | l in s.lines ensures FieldLines.Encodable(l) {
      var i :| 0 <= i < |s.lines| && s.lines[i] == l;
      assert LineOf(c, s, refs, s.lines[i], fields[i]);
      ResolvedEncodable(c, s.base, l, fields[i]);
    }
  }

  lemma EnqueuedLast<T>(blocks: map<nat, seq<T>>, s: nat, item: T)
    ensures var q := Enqueue(blocks, s, item);
            s in q && q[s] != [] && q[s][|q[s]| - 1] == item
  {
  }

  /** A block is good against the table it was encoded with. */
  lemma FreshBlockGood(s: State, s': State, streamId: nat, fields: seq<HeaderField>, section: Section,
                       refs: Refs, log: seq<EncoderInstruction>)
    requires BlockEncoded(s, s', streamId, fields, section, refs, log)
    requires (forall f :: f in fields ==> EncodableField(f)) && s'.core.Inserted() < LIMIT
    requires s'.core.maxSize <= MAX_CAPACITY
    ensures Good(s'.core, Sent(fields, section, refs, Origin(s'.core.Inserted(), s'.core.maxSize)))
  {
    hide Conserved, LineOf, Extends, Replay, LinesEncodable, EncodableField, Enqueue, Fits;
    ReplayInserted(s.core, log);
    EncodesEncodable(s'.core, section, fields, refs);
    if section.required > 0 {
      EnqueuedLast(s.blocks, streamId, refs);
      OutstandingTracked(s'.core, s'.tracked, s'.blocks, map[], streamId, |s'.blocks[streamId]| - 1, section.required);
      LiveInWindow(s'.core, section.required);
    }
  }

  lemma ReplayInserted(c: Core, log: seq<EncoderInstruction>)
    ensures Replay(c, log).Success? ==> Replay(c, log).value.Inserted() >= c.Inserted()
  {
    hide Replay;
    ReplayExtends(c, log);
  }

  lemma EncodeKeepsInv(s: System, e: Event, s': System)
    requires Inv(s) && e.Encode? && Next(s, e, s')
    ensures Inv(s')
  {
    hide Conserved, Encodes, Replay, EncodableInstruction, EncodableField, Fits, Aligned, AllGood, Good, Enqueue;
    var Encode(streamId, fields, section, refs, more) := e;
    var b := Sent(fields, section, refs, Origin(s'.enc.core.Inserted(), s'.enc.core.maxSize));
    ReplayConcat(START, s.log, more);
    AlignedCounted(s.pending, s.enc.blocks, streamId, refs);
    AllGoodShift(s.enc.core, s.pending, more, s'.enc.core, s'.enc.tracked, s'.enc.blocks);
    FreshBlockGood(s.enc, s'.enc, streamId, fields, section, refs, more);
    AllGoodEnqueue(s'.enc.core, s.pending, streamId, b);
    AlignedEnqueue(s.pending, s.enc.blocks, streamId, b);
  }

  lemma ResizeKeepsInv(s: System, e: Event, s': System)
    requires Inv(s) && e.Resize? && Next(s, e, s')
    ensures Inv(s')
  {
    hide Conserved, Encodes, Replay, PrefixInt.Encode, EncodableField, Fits, Aligned, AllGood, Good;
    hide AfterResize, Freeable, TableModel.Resize;
    var size := e.size;
    ResizeFits(s.enc.core, s.enc.tracked, size);
    ConservedResize(s.enc.core, s.enc.tracked, s.enc.blocks, map[], size);
    ResizeReplays(s.enc, size);
    ReplayConcat(START, s.log, [SizeUpdate(size)]);
    AlignedCounted(s.pending, s.enc.blocks, 0, map[]);
    AllGoodShift(s.enc.core, s.pending, [SizeUpdate(size)], s'.enc.core, s.enc.tracked, s.enc.blocks);
    ResizeShape(s.enc.core, s.enc.tracked, size);
  }

  lemma ResizeReplays(s: State, size: nat)
    requires Sound(s) && size <= MAX_CAPACITY && Unobstructed(s, size)
    ensures Replay(s.core, [SizeUpdate(size)]) == Success(AfterResize(s.core, s.tracked, size))
  {
    hide Conserved, Replay, Fits, AfterResize, Freeable, TableModel.Resize;
    ResizeFits(s.core, s.tracked, size);
    ReplayOne(s.core, SizeUpdate(size));
  }

  lemma ResizeShape(c: Core, tracked: Refs, size: nat)
    requires size <= MAX_CAPACITY
    ensures var c' := AfterResize(c, tracked, size); c'.maxSize == size && c'.Inserted() == c.Inserted()
  {
    hide MinEvict;
  }

  lemma FeedbackKeepsInv(s: System, e: Event, s': System)
    requires Inv(s) && e.Feedback? && Next(s, e, s')
    ensures Inv(s')
  {
    hide Conserved, Encodes, Replay, EncodableField, EncodableInstruction, Fits, AllGood, Good, Aligned, Dequeue, Subtract;
    var i := e.instruction;
    AcknowledgedKeeps(s.enc, i);
    match i
    case InsertCountIncrement(_) =>
    case HeaderAck(id) => SettleOnce(s, id);
    case StreamCancel(id) =>
      SettleOnce(s, id);
      var s1 := System(UntrackedIf(s.enc, id), s.log, Settle(s.pending, id));
      SettleOnce(s1, id);
  }

  function UntrackedIf(s: State, id: nat): State
    requires NoEmptyQueue(s)
  {
    if id in s.blocks then Untracked(s, id) else s
  }

  lemma SettleOnce(s: System, id: nat)
    requires Aligned(s.pending, s.enc.blocks) && AllGood(s.enc.core, s.pending) && NoEmptyQueue(s.enc)
    ensures Aligned(Settle(s.pending, id), UntrackedIf(s.enc, id).blocks)
    ensures AllGood(s.enc.core, Settle(s.pending, id))
  {
    hide AllGood, Good, Dequeue;
    AllGoodSettle(s.enc.core, s.pending, id);
    if id in s.enc.blocks {
      AlignedSettle(s.pending, s.enc.blocks, id);
    }
  }

  lemma InitInv(s: System)
    requires Init(s)
    ensures Inv(s)
  {
    assert Fits(START);
    assert forall a :: BlockCount(map[], a) == 0;
  }

  lemma {:induction false} RunInv(states: seq<System>, events: seq<Event>, n: nat)
    requires Run(states, events) && n <= |events|
    ensures |states| == |events| + 1 && Inv(states[n])
  {
    hide Inv, Next, Init;
    if n == 0 {
      InitInv(states[0]);
    } else {
      RunInv(states, events, n - 1);
      var (s, e) := (states[n - 1], events[n - 1]);
      assert Next(s, e, states[n - 1 + 1]);
      match e
      case Encode(_, _, _, _, _) => EncodeKeepsInv(s, e, states[n]);
      case Resize(_) => ResizeKeepsInv(s, e, states[n]);
      case Feedback(_) => FeedbackKeepsInv(s, e, states[n]);
    }
  }

  // ---------------------------------------------------------------- guarantees

  /** A decoder that has consumed the first k instructions. */
  ghost function DecoderAfter(s: System, k: nat): Core
    requires k <= |s.log| && Replay(START, s.log).Success?
  {
    ReplaySplit(START, s.log, k);
    Replay(START, s.log[..k]).value
  }

  /** What resolves against the encoder's table resolves the same against an earlier table that has every
      entry the section requires. */
  lemma StandsForEarlier(c: Core, d: Core, b: Sent)
    requires Good(c, b) && Extends(d, c) && b.section.required <= d.Inserted()
    requires forall a :: a in b.refs ==> c.Live(a)
    ensures StandsFor(d, b.section, b.fields)
  {
    hide Resolve, Reference, GoodOrigin, LinesEncodable;
    var s := b.section;
    forall i | 0 <= i < |b.fields|
      ensures Resolve(d, s.base, s.lines[i]) == Success(b.fields[i]) && (s.required == 0 ==> !IsDynamic(s.lines[i]))
    {
      assert LineOf(c, s, b.refs, s.lines[i], b.fields[i]);
      ResolveStable(c, d, s.base, s.lines[i]);
    }
  }

  /** Every block still outstanding at any point of any run decodes to exactly the fields it was encoded
      from, at every decoder that has consumed some prefix of the instructions emitted so far with all the
      insertions the block requires, whatever else was inserted and evicted in that prefix, provided the
      decoder's capacity then is the one the block was encoded with. */
  lemma OutstandingDecodes(states: seq<System>, events: seq<Event>, n: nat, id: nat, i: nat, k: nat)
    requires Run(states, events) && n <= |events|
    requires id in states[n].pending && i < |states[n].pending[id]| && k <= |states[n].log|
    ensures |states| == |events| + 1 && Inv(states[n])
    ensures var b := states[n].pending[id][i];
            var d := DecoderAfter(states[n], k);
            && GoodOrigin(b.origin, b.section)
            && (d.Inserted() >= b.section.required && (b.section.required > 0 ==> d.maxSize == b.origin.capacity) ==>
                  DecodeSection(d, BlockBytes(b.origin, b.section))
                  == Success(Decoded(b.fields, b.section.required > 0, SizeOf(b.fields))))
  {
    hide Run, Replay, Encodes, LinesEncodable, StandsFor, DecodeSection, Conserved, Extends, AllEncodable, Fits;
    RunInv(states, events, n);
    var s := states[n];
    var b := s.pending[id][i];
    var d := DecoderAfter(s, k);
    assert Good(s.enc.core, b);
    if d.Inserted() >= b.section.required && (b.section.required > 0 ==> d.maxSize == b.origin.capacity) {
      ReplaySplit(START, s.log, k);
      ReplayExtends(d, s.log[k..]);
      StartFits();
      ReplayFits(START, s.log[..k]);
      forall a | a in b.refs ensures s.enc.core.Live(a) {
        OutstandingTracked(s.enc.core, s.enc.tracked, s.enc.blocks, map[], id, i, a);
      }
      StandsForEarlier(s.enc.core, d, b);
      RequiredLive(s.enc.core, d, b);
      SectionDecodes(b.origin, b.section, b.fields, d);
    }
  }

  /** The same from octets to octets: a decoder that has read any number of octets of the encoder stream, even
      in the middle of an instruction, and then reads the octets of an outstanding block whose insertions it
      has, gets the fields that were encoded. */
  lemma OutstandingDecodesFromStream(states: seq<System>, events: seq<Event>, n: nat, id: nat, i: nat, octets: nat)
    requires Run(states, events) && n <= |events|
    requires id in states[n].pending && i < |states[n].pending[id]| && octets <= |EncodeLog(states[n].log)|
    ensures var b := states[n].pending[id][i];
            var received := Receive(START, EncodeLog(states[n].log)[..octets]);
            && received.error == None && GoodOrigin(b.origin, b.section)
            && (received.core.Inserted() >= b.section.required
                && (b.section.required > 0 ==> received.core.maxSize == b.origin.capacity) ==>
                  DecodeSection(received.core, BlockBytes(b.origin, b.section))
                  == Success(Decoded(b.fields, b.section.required > 0, SizeOf(b.fields))))
  {
    hide Run, Replay, Encodes, DecodeSection, Receive, Conserved, EncodeLog, AllEncodable, AllGood, Aligned;
    RunInv(states, events, n);
    ReceivePrefix(START, states[n].log, octets);
    OutstandingDecodes(states, events, n, id, i, Whole(states[n].log, octets));
  }

  lemma StartFits()
    ensures Fits(START)
  {
  }

  lemma RequiredLive(c: Core, d: Core, b: Sent)
    requires Good(c, b) && Extends(d, c) && forall a :: a in b.refs ==> c.Live(a)
    ensures b.section.required > 0 ==> d.dropped < b.section.required
  {
    hide LineOf, GoodOrigin, LinesEncodable;
  }

  lemma {:induction false} LogGrows(states: seq<System>, events: seq<Event>, m: nat, n: nat)
    requires Run(states, events) && m <= n <= |events|
    ensures |states[m].log| <= |states[n].log| && states[n].log[..|states[m].log|] == states[m].log
  {
    hide BlockEncoded, AfterResize, Acknowledged, Unobstructed;
    if m < n {
      LogGrows(states, events, m, n - 1);
      assert Next(states[n - 1], events[n - 1], states[n - 1 + 1]);
    }
  }

  /** Both ends agree: a decoder that has been fed exactly the instructions the encoder had emitted at some
      earlier point of the run, in pieces cut anywhere but none of which inserts more entries than one
      increment can announce, holds the table the encoder held at that point: the same entries, insert and
      drop counts and capacity, although the encoder chose its evictions around the entries it tracks and
      the decoder tracks none. Any other cut is reported as an error. */
  lemma ReplicaAgreement(states: seq<System>, events: seq<Event>, m: nat, n: nat, pieces: seq<Bytes>)
    requires Run(states, events) && m <= n <= |events|
    requires |states[m].log| <= |states[n].log| && Flatten(pieces) == EncodeLog(states[n].log[..|states[m].log|])
    ensures Replay(START, states[m].log).Success?
    ensures var fed := Feed(START, [], pieces);
            if PiecesFit(START, states[m].log, pieces) then
              && fed.error == None && fed.core == states[m].enc.core && fed.unread == []
              && Total(fed.increments) == fed.core.Inserted()
            else fed.error.Some? && fed.error.value.IncrementTooLarge?
    ensures |states[m].log| <= MAX_EMITTED ==> PiecesFit(START, states[m].log, pieces)
  {
    hide Run, Replay, AllEncodable, Conserved, Feed, Flatten, Total, EncodeLog, AllGood, Aligned, InsertedBy;
    RunInv(states, events, m);
    LogGrows(states, events, m, n);
    FragmentationIndependence(START, states[m].log, pieces);
    if |states[m].log| <= MAX_EMITTED {
      ShortStreamFits(START, states[m].log, pieces);
    }
  }

  /** Neither end ever holds more than its capacity, and no entry an outstanding block refers to is gone. */
  lemma NothingOutstandingEvicted(states: seq<System>, events: seq<Event>, n: nat, id: nat, i: nat, a: nat)
    requires Run(states, events) && n <= |events|
    requires id in states[n].pending && i < |states[n].pending[id]| && a in states[n].pending[id][i].refs
    ensures states[n].enc.core.Live(a) && a in states[n].enc.tracked && Fits(states[n].enc.core)
  {
    hide Run, Replay, AllEncodable, Conserved, Fits, AllGood;
    RunInv(states, events, n);
    var s := states[n];
    OutstandingTracked(s.enc.core, s.enc.tracked, s.enc.blocks, map[], id, i, a);
  }
}
