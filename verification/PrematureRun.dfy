/** A run of the encoder that sends a block no decoder still at the start recognises as premature. */
module PrematureRun {
  import opened Octets
  import opened TableModel
  import opened Bookkeeping
  import opened FieldLines
  import opened Instructions
  import opened QpackErrors
  import opened Sections
  import opened Decoder
  import opened QpackRun
  import opened Static = StaticTable
  import HeaderPrefix
  import PrefixString

  /** No entry is referred to. */
  ghost predicate Idle(s: System) {
    s.enc.tracked == map[] && s.enc.blocks == map[] && s.pending == map[]
  }

  /** The base that the encoder uses when no entry is referred to. */
  function BaseOf(c: Core): nat {
    c.Inserted() - c.dropped
  }

  /** A block with one field, which is inserted. */
  function Inserting(c: Core, field: HeaderField): Section {
    Section([IndexedPostBase(c.Inserted() - BaseOf(c))], c.Inserted() + 1, BaseOf(c))
  }

  lemma InsertedResolves(c: Core, field: HeaderField)
    requires field.MemSize() <= c.maxSize
    ensures var (c', n) := (Grown(c, field), c.Inserted() + 1);
            && c'.Inserted() == n && c'.Live(n) && c'.At(n) == field && c'.maxSize == c.maxSize
            && Apply(c, InsertLiteralName(field.name, field.value)) == Success(c')
            && Encodes(c', Inserting(c, field), [field], map[n := 1])
  {
    hide SizeOf, MinEvict;
  }

  /** A block with one inserted field, when no entry is referred to. */
  function InsertEvent(c: Core, id: nat, field: HeaderField): Event {
    Event.Encode(id, [field], Inserting(c, field), map[c.Inserted() + 1 := 1],
                 [InsertLiteralName(field.name, field.value)])
  }

  function SentBlock(c: Core, field: HeaderField): Sent {
    Sent([field], Inserting(c, field), map[c.Inserted() + 1 := 1], Origin(c.Inserted() + 1, c.maxSize))
  }

  /** The state after it. */
  function AfterInsert(s: System, id: nat, field: HeaderField): System
    requires field.MemSize() <= s.enc.core.maxSize
  {
    var refs := map[s.enc.core.Inserted() + 1 := 1];
    System(State(Grown(s.enc.core, field), refs, map[id := [refs]]),
           s.log + [InsertLiteralName(field.name, field.value)], map[id := [SentBlock(s.enc.core, field)]])
  }

  lemma InsertStep(s: System, id: nat, field: HeaderField)
    requires Inv(s) && Idle(s) && field.MemSize() <= s.enc.core.maxSize
    requires EncodableField(field) && s.enc.core.Inserted() + 1 < LIMIT
    ensures Next(s, InsertEvent(s.enc.core, id, field), AfterInsert(s, id, field))
  {
    hide Grown, Encodes, Fits, EncodableField, Apply, Replay, AllGood, Aligned, EncodableInstruction;
    var (c, c', n) := (s.enc.core, Grown(s.enc.core, field), s.enc.core.Inserted() + 1);
    InsertedResolves(c, field);
    GrownShape(c, field);
    ReplayOne(c, InsertLiteralName(field.name, field.value));
    InsertionLogEncodable(c, InsertLiteralName(field.name, field.value), c', field);
    assert Conserved(c', map[], map[], map[]);
    ConservedTrack(c', map[], map[], map[], n);
    ConservedCommit(c', map[n := 1], map[], map[n := 1], id);
    EnqueueFirst(id, map[n := 1]);
    EnqueueFirst(id, SentBlock(c, field));
  }

  lemma EnqueueFirst<T>(id: nat, item: T)
    ensures Enqueue(map[], id, item) == map[id := [item]]
  {
    assert [] + [item] == [item];
  }

  /** The stream of the only outstanding block is cancelled. */
  lemma CancelStep(s: System, id: nat, refs: Refs, b: Sent)
    requires s.enc.tracked == refs && s.enc.blocks == map[id := [refs]] && s.pending == map[id := [b]]
    ensures NoEmptyQueue(s.enc)
    ensures Next(s, Event.Feedback(StreamCancel(id)), System(State(s.enc.core, map[], map[]), s.log, map[]))
  {
    assert Subtract(refs, refs) == map[];
    assert s.enc.blocks - {id} == map[] && s.pending - {id} == map[];
  }

  lemma GrownFirst(c: Core, field: HeaderField)
    requires c.fields == [] && field.MemSize() <= c.maxSize
    ensures Grown(c, field) == Core([field], c.dropped, c.maxSize)
  {
  }

  lemma GrownInPlace(c: Core, field: HeaderField, field': HeaderField)
    requires c.fields == [field] && field'.MemSize() <= c.maxSize < field.MemSize() + field'.MemSize()
    ensures Grown(c, field') == Core([field'], c.dropped + 1, c.maxSize)
  {
    SizeOfOne(field);
    assert c.fields[1..] == [];
  }

  /** With room for one entry only, a section with a required count of two is read, where nothing was
      inserted yet, as one without references. */
  lemma SecondMisread(capacity: nat)
    requires 32 <= capacity < 64
    ensures var (o, s) := (Origin(2, capacity), Section([IndexedPostBase(0)], 2, 1));
            && GoodOrigin(o, s)
            && DecodeSection(Core([], 0, capacity), BlockBytes(o, s)) == Failure(TableFault(BadPostbaseIndex(0)))
  {
    hide HeaderPrefix.Encode, HeaderPrefix.Decode, FieldLines.Encode, FieldLines.Decode, EncodeLines;
    hide DecodeLines, AtStatic, HeaderPrefix.Reconstruct, HeaderPrefix.New, HeaderPrefix.Get;
    var (o, s) := (Origin(2, capacity), Section([IndexedPostBase(0)], 2, 1));
    PrefixOnWire(o, s, EncodeLines(s.lines));
    SecondPrefix(capacity);
    FirstPostBase(capacity);
  }

  lemma SecondPrefix(capacity: nat)
    requires 32 <= capacity < 64
    ensures HeaderPrefix.Get(HeaderPrefix.New(2, 1, 2, capacity), 0, capacity) == HeaderPrefix.Counts(0, 0)
  {
    assert capacity / 32 == 1;
  }

  lemma FirstPostBase(capacity: nat)
    ensures DecodeLines(Core([], 0, capacity), 0, EncodeLines([IndexedPostBase(0)]), [])
         == Failure(TableFault(BadPostbaseIndex(0)))
  {
    hide FieldLines.Encode, FieldLines.Decode, EncodeLines, AtStatic;
    var lines := [IndexedPostBase(0)];
    EncodeLinesNone();
    EncodeLinesHead(lines);
    assert lines[1..] == [];
    RoundTrip(lines[0], []);
    LineNotEmpty(lines[0]);
  }

  lemma ResizeStep(s: System, size: nat)
    requires Init(s) && size <= MAX_CAPACITY
    ensures Next(s, Event.Resize(size), System(State(Core([], 0, size), map[], map[]), [SizeUpdate(size)], map[]))
    ensures Apply(START, SizeUpdate(size)) == Success(Core([], 0, size))
  {
  }

  lemma InvReplays(s: System)
    requires Inv(s)
    ensures Replay(START, s.log) == Success(s.enc.core)
  {
    hide Replay, Conserved, AllGood, Aligned, Fits;
  }

  /** Room for one entry; a block whose stream is cancelled, so that its entry may go although the decoder
      has not acknowledged it; and a block that requires the entry in its place. A decoder that has read
      the capacity and nothing else lacks two insertions, and its window is one wide: it does not find that
      entries are missing, but takes the prefix for that of a block without references. */
  lemma PrematureRun(capacity: nat, first: HeaderField, second: HeaderField)
    returns (states: seq<System>, events: seq<Event>)
    requires first != second && EncodableField(first) && EncodableField(second) && capacity < 64
    requires first.MemSize() <= capacity && second.MemSize() <= capacity
    ensures Run(states, events) && |events| == 4 && |states| == 5
    ensures 4 in states[4].pending && |states[4].pending[4]| == 1 && |states[4].log| == 3
    ensures Replay(START, states[4].log).Success?
    ensures var (b, d) := (states[4].pending[4][0], DecoderAfter(states[4], 1));
            && b.fields == [second] && b.section.required == 2 && d == Core([], 0, capacity)
            && GoodOrigin(b.origin, b.section)
            && DecodeSection(d, BlockBytes(b.origin, b.section)) == Failure(TableFault(BadPostbaseIndex(0)))
  {
    hide Grown, AfterResize, Inv, Next, DecodeSection, BlockBytes, EncodableField, Unobstructed, Apply, Replay;
    var s0 := System(State(START, map[], map[]), [], map[]);
    var empty := Core([], 0, capacity);
    var s1 := System(State(empty, map[], map[]), [SizeUpdate(capacity)], map[]);
    var s2 := AfterInsert(s1, 0, first);
    var s3 := System(State(s2.enc.core, map[], map[]), s2.log, map[]);
    GrownFirst(empty, first);
    var s4 := AfterInsert(s3, 4, second);
    states := [s0, s1, s2, s3, s4];
    events := [Event.Resize(capacity), InsertEvent(empty, 0, first), Event.Feedback(StreamCancel(0)),
               InsertEvent(s3.enc.core, 4, second)];
    GrownInPlace(s2.enc.core, first, second);
    InitInv(s0);
    ResizeStep(s0, capacity);
    ResizeKeepsInv(s0, events[0], s1);
    InsertStep(s1, 0, first);
    EncodeKeepsInv(s1, events[1], s2);
    CancelStep(s2, 0, map[1 := 1], SentBlock(empty, first));
    FeedbackKeepsInv(s2, events[2], s3);
    InsertStep(s3, 4, second);
    assert Run(states, events);
    EncodeKeepsInv(s3, events[3], s4);
    InvReplays(s4);
    assert s4.log[..1] == [SizeUpdate(capacity)];
    ReplayOne(START, SizeUpdate(capacity));
    SecondMisread(capacity);
  }
}
