/** Encoded field sections as values: which fields a section stands for against a table, and why it keeps
    standing for them while the entries it refers to stay in the table. */
module Sections {
  import opened Octets
  import opened AddressSpace
  import opened TableModel
  import opened Bookkeeping
  import opened FieldLines
  import opened Instructions
  import opened QpackErrors
  import opened TableEncoder
  import opened Static = StaticTable
  import HeaderPrefix
  import PrefixInt
  import PrefixString

  datatype Section = Section(lines: seq<FieldLine>, required: nat, base: nat)

  function EncodeLines(lines: seq<FieldLine>): (s: Bytes) {
    if lines == [] then [] else EncodeLines(lines[..|lines| - 1]) + FieldLines.Encode(lines[|lines| - 1])
  }

  function EncodeLog(log: seq<EncoderInstruction>): (s: Bytes) {
    if log == [] then [] else EncodeLog(log[..|log| - 1]) + EncodeInstruction(log[|log| - 1])
  }

  lemma {:induction false} EncodeLogConcat(a: seq<EncoderInstruction>, b: seq<EncoderInstruction>)
    ensures EncodeLog(a + b) == EncodeLog(a) + EncodeLog(b)
  {
    hide EncodeInstruction;
    if b == [] {
      assert a + b == a;
    } else {
      assert (a + b)[..|a + b| - 1] == a + b[..|b| - 1];
      EncodeLogConcat(a, b[..|b| - 1]);
    }
  }

  lemma EncodeLogOne(i: EncoderInstruction)
    ensures EncodeLog([i]) == EncodeInstruction(i)
  {
    hide EncodeInstruction;
    assert [i][..0] == [];
  }

  /** The table after each instruction of a log. */
  ghost predicate Snapshots(c: Core, log: seq<EncoderInstruction>, tables: seq<Core>) {
    && |tables| == |log|
    && forall k :: 0 <= k < |log| ==> Replay(c, log[..k + 1]) == Success(tables[k])
  }

  /** The tables that at most one instruction, ending in `c`, adds. */
  ghost function SnapshotsOf(c: Core, more: seq<EncoderInstruction>): (tables: seq<Core>)
    requires |more| <= 1
  {
    if more == [] then [] else [c]
  }

  lemma SnapshotsConcat(c: Core, log: seq<EncoderInstruction>, tables: seq<Core>,
                        c': Core, more: seq<EncoderInstruction>, moreTables: seq<Core>)
    requires Snapshots(c, log, tables) && Replay(c, log) == Success(c') && Snapshots(c', more, moreTables)
    ensures Snapshots(c, log + more, tables + moreTables)
  {
    hide Replay;
    var (all, allTables) := (log + more, tables + moreTables);
    forall k | 0 <= k < |all| ensures Replay(c, all[..k + 1]) == Success(allTables[k]) {
      if k < |log| {
        assert all[..k + 1] == log[..k + 1];
      } else {
        assert all[..k + 1] == log + more[..k - |log| + 1];
        ReplayConcat(c, log, more[..k - |log| + 1]);
      }
    }
  }

  lemma SnapshotsAppend(c: Core, log: seq<EncoderInstruction>, tables: seq<Core>,
                        c': Core, more: seq<EncoderInstruction>, c'': Core)
    requires Snapshots(c, log, tables) && Replay(c, log) == Success(c')
    requires |more| <= 1 && Replay(c', more) == Success(c'')
    ensures Snapshots(c, log + more, tables + SnapshotsOf(c'', more))
  {
    hide Replay;
    assert more[..|more|] == more;
    assert Snapshots(c', more, SnapshotsOf(c'', more));
    SnapshotsConcat(c, log, tables, c', more, SnapshotsOf(c'', more));
  }

  predicate EncodableField(field: HeaderField) {
    PrefixString.Encodable(field.name) && PrefixString.Encodable(field.value)
  }

  /** The line is the field against the table, and what it refers to is counted and at most `required`. */
  ghost predicate LineOf(c: Core, s: Section, refs: Refs, line: FieldLine, field: HeaderField) {
    && Resolve(c, s.base, line) == Success(field)
    && (IsDynamic(line) ==>
          var a := Reference(s.base, line);
          0 < a <= s.required && a in refs && c.Live(a))
  }

  /** The section is the field list against the table; its required count is itself a counted reference. */
  ghost predicate Encodes(c: Core, s: Section, fields: seq<HeaderField>, refs: Refs) {
    && |s.lines| == |fields|
    && (forall i :: 0 <= i < |fields| ==> LineOf(c, s, refs, s.lines[i], fields[i]))
    && (s.required > 0 ==> s.required in refs)
  }

  /** More insertions and evictions change nothing as long as the counted entries stay. */
  lemma EncodesStable(c: Core, c': Core, s: Section, fields: seq<HeaderField>, refs: Refs, refs': Refs)
    requires Encodes(c, s, fields, refs) && Extends(c, c')
    requires forall a :: a in refs ==> a in refs' && c'.Live(a)
    ensures Encodes(c', s, fields, refs')
  {
    hide Resolve, Reference, Extends;
    forall i | 0 <= i < |fields| ensures LineOf(c', s, refs', s.lines[i], fields[i]) {
      assert LineOf(c, s, refs, s.lines[i], fields[i]);
      ResolveStable(c, c', s.base, s.lines[i]);
    }
  }

  /** What encoding one field adds: a line for it, and the entry the line refers to. */
  ghost predicate LineAdded(c: Core, base: nat, refs: Refs, field: HeaderField, line: FieldLine, reference: Option<nat>) {
    && Resolve(c, base, line) == Success(field)
    && (IsDynamic(line) <==> reference.Some?)
    && (reference.Some? ==>
          0 < reference.value == Reference(base, line) && reference.value in refs && c.Live(reference.value))
  }

  /** The shortest form that the tables allow: an index into the static table, an index of an entry from
      before the block, an insertion, or a literal with a name from one of the tables if it is in one. */
  ghost predicate Chosen(c: Core, base: nat, field: HeaderField, line: FieldLine, log: seq<EncoderInstruction>) {
    && (Static.Find(field).Some? <==> line.IndexedStatic?)
    && (line.IndexedStatic? || line.IndexedDynamic? ==> log == [])
    && (line.IndexedPostBase? <==> log != [])
    && (forall a: nat :: Newest(c, field, a) && a <= base ==> line.IndexedStatic? || line.IndexedDynamic?)
    && (line.LiteralDynamicName? || line.LiteralPostBaseName? || line.Literal? ==> Static.FindName(field.name).None?)
    && (line.Literal? ==> forall a :: c.Live(a) ==> c.At(a).name != field.name)
  }

  ghost predicate Newest(c: Core, field: HeaderField, a: nat) {
    c.Live(a) && c.At(a) == field && forall b: nat :: c.Live(b) && c.At(b) == field ==> b <= a
  }

  ghost predicate Absent(c: Core, field: HeaderField) {
    forall a :: c.Live(a) ==> c.At(a) != field
  }

  /** A field of neither table is inserted exactly when one more block may be blocked and the table accepts it. */
  ghost predicate NewInserted(c: Core, tracked: Refs, field: HeaderField, room: bool, log: seq<EncoderInstruction>) {
    Static.Find(field).None? && Absent(c, field) ==> (log != [] <==> room && Accepts(c, tracked, field))
  }

  lemma FoundOrAbsent(c: Core, base: nat, field: HeaderField, r: Lookup)
    requires FieldLookup(c, base, field, r)
    ensures r.NotFound? <==> Absent(c, field)
    ensures !r.NotFound? ==> !r.Static? && c.Live(r.absolute) && c.At(r.absolute) == field
    ensures r.Relative? ==> r.absolute <= base && r.index == base - r.absolute
  {
  }

  lemma ChosenStatic(c: Core, base: nat, field: HeaderField)
    requires Static.Find(field).Some?
    ensures Chosen(c, base, field, IndexedStatic(Static.Find(field).value), [])
  {
    hide Static.Find, Static.FindName;
  }

  lemma ChosenFound(c: Core, base: nat, field: HeaderField, r: Lookup)
    requires Static.Find(field).None? && FieldLookup(c, base, field, r) && r.Relative?
    ensures Chosen(c, base, field, IndexedDynamic(r.index), [])
  {
    hide Static.Find, Static.FindName;
  }

  /** The newest entry of the field, if there is one, came with this block. */
  lemma NotBefore(c: Core, base: nat, field: HeaderField, r: Lookup)
    requires FieldLookup(c, base, field, r) && !r.Relative?
    ensures forall a: nat :: Newest(c, field, a) ==> a > base
  {
  }

  lemma ChosenLiteral(c: Core, base: nat, field: HeaderField, r: Lookup, name: Lookup)
    requires Static.Find(field).None? && FieldLookup(c, base, field, r) && !r.Relative?
    requires NameLookup(c, base, field.name, name)
    ensures Chosen(c, base, field, LiteralOf(name, field), [])
  {
    hide Static.Find, Static.FindName, FieldLookup, Newest;
    NotBefore(c, base, field, r);
  }

  lemma ChosenInserted(c: Core, base: nat, field: HeaderField, r: Lookup, postbase: nat, log: seq<EncoderInstruction>)
    requires Static.Find(field).None? && FieldLookup(c, base, field, r) && !r.Relative? && log != []
    ensures Chosen(c, base, field, IndexedPostBase(postbase), log)
  {
    hide Static.Find, Static.FindName, FieldLookup, Newest;
    NotBefore(c, base, field, r);
  }

  function Raise(required: nat, reference: Option<nat>): nat {
    match reference case None => required case Some(a) => Max(required, a)
  }

  lemma EncodesAppend(c: Core, s: Section, fields: seq<HeaderField>, refs: Refs,
                      line: FieldLine, field: HeaderField, reference: Option<nat>)
    requires Encodes(c, s, fields, refs) && LineAdded(c, s.base, refs, field, line, reference)
    ensures Encodes(c, Section(s.lines + [line], Raise(s.required, reference), s.base), fields + [field], refs)
  {
    hide Resolve, Reference;
    var s' := Section(s.lines + [line], Raise(s.required, reference), s.base);
    forall i | 0 <= i < |fields| ensures LineOf(c, s', refs, s'.lines[i], (fields + [field])[i]) {
      assert LineOf(c, s, refs, s.lines[i], fields[i]);
    }
    assert LineOf(c, s', refs, line, field);
  }

  // -------------------------------------------- lines for lookups and insertions

  lemma FoundLine(c: Core, base: nat, absolute: nat)
    requires c.Live(absolute) && absolute <= base
    ensures var line := IndexedDynamic(base - absolute);
            Resolve(c, base, line) == Success(c.At(absolute)) && Reference(base, line) == absolute
  {
    NamesOfLiveEntry(c.Vas(), base, absolute);
  }

  lemma InsertedLine(c: Core, base: nat, absolute: nat)
    requires c.Live(absolute) && absolute > base
    ensures var line := IndexedPostBase(absolute - base - 1);
            Resolve(c, base, line) == Success(c.At(absolute)) && Reference(base, line) == absolute
  {
    NamesOfLiveEntry(c.Vas(), base, absolute);
  }

  /** The literal that names its field as far as a lookup allows. */
  function LiteralOf(r: Lookup, field: HeaderField): FieldLine {
    match r
    case Static(i) => LiteralStaticName(i, field.value)
    case Relative(i, _) => LiteralDynamicName(i, field.value)
    case PostBase(i, _) => LiteralPostBaseName(i, field.value)
    case NotFound => Literal(field.name, field.value)
  }

  lemma LiteralLine(c: Core, base: nat, field: HeaderField, r: Lookup)
    requires NameLookup(c, base, field.name, r)
    ensures var line := LiteralOf(r, field);
            && Resolve(c, base, line) == Success(field)
            && (IsDynamic(line) <==> r.Relative? || r.PostBase?)
            && (IsDynamic(line) ==> Reference(base, line) == r.absolute && c.Live(r.absolute))
  {
    hide Get, Static.Find, FindName;
    match r
    case Static(i) => FindSound(field);
    case Relative(i, a) => NamesOfLiveEntry(c.Vas(), base, a);
    case PostBase(i, a) => NamesOfLiveEntry(c.Vas(), base, a);
    case NotFound =>
  }

  lemma StaticLine(c: Core, base: nat, field: HeaderField)
    requires Static.Find(field).Some?
    ensures Resolve(c, base, IndexedStatic(Static.Find(field).value)) == Success(field)
    ensures Static.Find(field).value < SIZE
  {
    hide Get, Static.Find, FindName;
    FindSound(field);
  }

  // --------------------------------------------------------------- encodability

  const LIMIT := PrefixInt.PAYLOAD_LIMIT

  /** Lines that resolve carry indexes and strings that the wire format can carry. */
  lemma ResolvedEncodable(c: Core, base: nat, line: FieldLine, field: HeaderField)
    requires Resolve(c, base, line) == Success(field)
    requires EncodableField(field) && base < LIMIT && c.Inserted() < LIMIT
    ensures FieldLines.Encodable(line)
  {
    hide PrefixString.Encodable, Entry;
  }

  /** So do instructions that insert an encodable field. */
  lemma AppliedEncodable(c: Core, i: EncoderInstruction, c': Core, field: HeaderField)
    requires Apply(c, i) == Success(c') && c'.Inserted() == c.Inserted() + 1 && c'.At(c'.Inserted()) == field
    requires EncodableField(field) && c.Inserted() < LIMIT
    ensures EncodableInstruction(i)
  {
    hide PrefixString.Encodable, Entry, MinEvict, SizeOf;
    if !i.SizeUpdate? {
      assert InsertedField(c, i) == Success(field);
    }
  }

  /** Instructions on behalf of encodable fields are encodable. */
  ghost predicate LogEncodable(c: Core, fields: seq<HeaderField>, log: seq<EncoderInstruction>) {
    (forall f :: f in fields ==> EncodableField(f)) && c.Inserted() < LIMIT ==>
      forall i :: i in log ==> EncodableInstruction(i)
  }

  lemma LogEncodableAppend(c: Core, fields: seq<HeaderField>, log: seq<EncoderInstruction>,
                           c': Core, field: HeaderField, more: seq<EncoderInstruction>)
    requires LogEncodable(c, fields, log) && LogEncodable(c', [field], more) && c.Inserted() <= c'.Inserted()
    ensures LogEncodable(c', fields + [field], log + more)
  {
    hide EncodableField, EncodableInstruction;
    if (forall f :: f in fields + [field] ==> EncodableField(f)) && c'.Inserted() < LIMIT {
      assert forall f :: f in fields ==> f in fields + [field];
      assert field in fields + [field];
    }
  }

  lemma InsertionLogEncodable(c: Core, i: EncoderInstruction, c': Core, field: HeaderField)
    requires Apply(c, i) == Success(c') && c'.Inserted() == c.Inserted() + 1 && c'.At(c'.Inserted()) == field
    ensures LogEncodable(c', [field], [i])
  {
    hide EncodableField, EncodableInstruction, Apply;
    assert field in [field];
    if EncodableField(field) && c'.Inserted() < LIMIT {
      AppliedEncodable(c, i, c', field);
    }
  }

  // -------------------------------------------------------------------- states

  /** What one endpoint's encoder holds that the other end, or a later block, depends on. */
  datatype State = State(core: Core, tracked: Refs, blocks: Blocks)

  ghost predicate Sound(s: State) {
    Fits(s.core) && Conserved(s.core, s.tracked, s.blocks, map[])
  }

  /** A committed block: its section, its references, and the instructions that went with it. */
  ghost predicate BlockEncoded(s: State, s': State, streamId: nat, fields: seq<HeaderField>, section: Section,
                               refs: Refs, log: seq<EncoderInstruction>) {
    && Replay(s.core, log) == Success(s'.core) && s'.core.maxSize == s.core.maxSize
    && Encodes(s'.core, section, fields, refs)
    && section.base == s.core.Inserted() - s.core.dropped
    && s'.blocks == Enqueue(s.blocks, streamId, refs)
    && Sound(s')
  }

  /** Where a section was encoded: the insert count and the capacity its prefix is computed from. */
  datatype Origin = Origin(inserted: nat, capacity: nat)

  /** The octets of a section. */
  function BlockBytes(o: Origin, s: Section): Bytes
    requires o.capacity != 0 && s.required != 0 ==> s.required <= o.inserted && o.capacity >= 32
  {
    HeaderPrefix.Encode(HeaderPrefix.New(s.required, s.base, o.inserted, o.capacity)) + EncodeLines(s.lines)
  }

  /** A required count is the index of a live entry, so the capacity holds at least one. */
  lemma RequiredInWindow(c: Core, tracked: Refs, blocks: Blocks, refs: Refs, s: Section, fields: seq<HeaderField>)
    requires Conserved(c, tracked, blocks, refs) && Fits(c) && Encodes(c, s, fields, refs)
    ensures s.required > 0 ==>
              c.Live(s.required) && c.maxSize >= 32 && c.Inserted() - c.maxSize / 32 < s.required <= c.Inserted()
  {
    hide BlockCount, Fits, LineOf;
    if s.required > 0 {
      WorkingLive(c, tracked, blocks, refs, s.required);
      LiveInWindow(c, s.required);
    }
  }

  /** No tracked entry stands in the way of the new capacity. */
  ghost predicate Unobstructed(s: State, size: nat) {
    size >= s.core.maxSize || Freeable(s.core, s.tracked, s.core.maxSize - size) != Success(None)
  }

  // ------------------------------------------------------------------ feedback

  predicate NoEmptyQueue(s: State) {
    forall id :: id in s.blocks ==> s.blocks[id] != []
  }

  function Untracked(s: State, streamId: nat): (s': State)
    requires NoEmptyQueue(s) && streamId in s.blocks
    ensures NoEmptyQueue(s')
  {
    State(s.core, Subtract(s.tracked, s.blocks[streamId][0]), Dequeue(s.blocks, streamId))
  }

  /** What one decoder instruction does to the tracked blocks, and by how much it raises the count of
      insertions known to have been received. */
  function Acknowledged(s: State, i: DecoderInstruction): (r: Result<(State, nat), EncoderError>)
    requires NoEmptyQueue(s)
    ensures r.Success? ==> NoEmptyQueue(r.value.0)
  {
    hide NoEmptyQueue, Dequeue, Subtract;
    match i
    case InsertCountIncrement(n) => Success((s, n))
    case HeaderAck(id) =>
      if id in s.blocks then Success((Untracked(s, id), 0)) else Failure(TableInsertion(UnknownStreamId(id)))
    case StreamCancel(id) =>
      var s1 := if id in s.blocks then Untracked(s, id) else s;
      Success((if id in s1.blocks then Untracked(s1, id) else s1, 0))
  }

  datatype Feedback = Feedback(state: State, known: nat, rest: Bytes, error: Option<EncoderError>)

  /** What a chunk of the decoder stream does: every whole instruction in order, up to the first error. */
  function OnFeedback(s: State, known: nat, read: Bytes): (f: Feedback)
    requires NoEmptyQueue(s)
    decreases |read|
  {
    hide ParseDecoderInstruction, Acknowledged, NoEmptyQueue;
    ParseDecoderSuffix(read);
    match ParseDecoderInstruction(read)
    case Incomplete => Feedback(s, known, read, None)
    case Failed(e) => Feedback(s, known, read, Some(ToEncoderError(e)))
    case Parsed(i, rest) =>
      match Acknowledged(s, i)
      case Failure(e) => Feedback(s, known, rest, Some(e))
      case Success((s', n)) => OnFeedback(s', known + n, rest)
  }

  // --------------------------------------------- what a list of instructions does

  /** By how much one decoder instruction raises the count of insertions known to have been received. */
  function Raised(i: DecoderInstruction): (n: nat) {
    match i case InsertCountIncrement(n) => n case HeaderAck(_) => 0 case StreamCancel(_) => 0
  }

  function IncrementSum(instructions: seq<DecoderInstruction>): (n: nat) {
    if instructions == [] then 0 else Raised(instructions[0]) + IncrementSum(instructions[1..])
  }

  function EncodeFeedback(instructions: seq<DecoderInstruction>): (s: Bytes) {
    if instructions == [] then [] else EncodeDecoderInstruction(instructions[0]) + EncodeFeedback(instructions[1..])
  }

  /** What the encoder parses. */
  predicate Parsable(i: DecoderInstruction) {
    Argument(i) < PrefixInt.PAYLOAD_LIMIT && (i.InsertCountIncrement? ==> i.increment <= MAX_INCREMENT)
  }

  /** The blocks of a stream without its oldest n, and nothing else changed. */
  ghost predicate OldestGone<T(!new)>(before: map<nat, seq<T>>, after: map<nat, seq<T>>, id: nat, n: nat) {
    && (forall k :: k != id ==> (k in before <==> k in after) && (k in before ==> before[k] == after[k]))
    && (if id in before && |before[id]| > n then id in after && after[id] == before[id][n..] else id !in after)
  }

  /** An acknowledgement gives up the oldest block of its stream and is an error if there is none; a
      cancellation gives up the oldest two, as far as there are any; an increment gives up nothing. */
  lemma AcknowledgedExact(s: State, i: DecoderInstruction)
    requires NoEmptyQueue(s)
    ensures match i
            case InsertCountIncrement(n) => Acknowledged(s, i) == Success((s, n))
            case HeaderAck(id) =>
              if id in s.blocks then
                && Acknowledged(s, i).Success? && Acknowledged(s, i).value.1 == 0
                && OldestGone(s.blocks, Acknowledged(s, i).value.0.blocks, id, 1)
              else Acknowledged(s, i) == Failure(TableInsertion(UnknownStreamId(id)))
            case StreamCancel(id) =>
              && Acknowledged(s, i).Success? && Acknowledged(s, i).value.1 == 0
              && OldestGone(s.blocks, Acknowledged(s, i).value.0.blocks, id, 2)
  {
    hide Subtract;
  }

  /** The instructions of a list, all of which the encoder acts on, end to end. */
  ghost predicate ActsOn(s: State, instructions: seq<DecoderInstruction>, s': State)
    requires NoEmptyQueue(s)
    decreases |instructions|
  {
    hide NoEmptyQueue, Acknowledged;
    if instructions == [] then s' == s
    else
      var r := Acknowledged(s, instructions[0]);
      Parsable(instructions[0]) && r.Success? && ActsOn(r.value.0, instructions[1..], s')
  }

  /** Feeding the octets of such a list raises the known received count by the sum of its increments, reads
      all of them, and goes on with what follows. */
  lemma {:induction false} FeedbackSums(s: State, instructions: seq<DecoderInstruction>, s': State, known: nat, rest: Bytes)
    requires NoEmptyQueue(s) && ActsOn(s, instructions, s')
    ensures NoEmptyQueue(s')
    ensures OnFeedback(s, known, EncodeFeedback(instructions) + rest)
         == OnFeedback(s', known + IncrementSum(instructions), rest)
    decreases |instructions|
  {
    hide ParseDecoderInstruction, EncodeDecoderInstruction, NoEmptyQueue, Acknowledged;
    if instructions == [] {
      assert [] + rest == rest;
    } else {
      var (i, more) := (instructions[0], EncodeFeedback(instructions[1..]) + rest);
      var next := Acknowledged(s, i).value.0;
      assert EncodeFeedback(instructions) + rest == EncodeDecoderInstruction(i) + more;
      DecoderInstructionRoundTrip(i, more);
      AcknowledgedExact(s, i);
      FeedbackSums(next, instructions[1..], s', known + Raised(i), rest);
    }
  }

  /** The instructions of a chunk of the decoder stream that the encoder acts on. */
  function ActedOn(s: State, read: Bytes): (instructions: seq<DecoderInstruction>)
    requires NoEmptyQueue(s)
    decreases |read|
  {
    hide ParseDecoderInstruction, Acknowledged, NoEmptyQueue;
    ParseDecoderSuffix(read);
    match ParseDecoderInstruction(read)
    case Parsed(i, rest) =>
      if Acknowledged(s, i).Failure? then [] else [i] + ActedOn(Acknowledged(s, i).value.0, rest)
    case _ => []
  }

  /** Whatever arrives, the known received count rises by the increments that are acted on. */
  lemma {:induction false} KnownRises(s: State, known: nat, read: Bytes)
    requires NoEmptyQueue(s)
    ensures OnFeedback(s, known, read).known == known + IncrementSum(ActedOn(s, read))
    decreases |read|
  {
    hide ParseDecoderInstruction, Acknowledged, NoEmptyQueue;
    ParseDecoderSuffix(read);
    match ParseDecoderInstruction(read)
    case Parsed(i, rest) =>
      AcknowledgedExact(s, i);
      if Acknowledged(s, i).Success? {
        var next := Acknowledged(s, i).value.0;
        KnownRises(next, known + Raised(i), rest);
        var more := ActedOn(next, rest);
        assert ([i] + more)[1..] == more;
      }
    case _ =>
  }

  /** All of a list is acted on if the encoder acts on each in turn. */
  lemma {:induction false} ListActedOn(s: State, instructions: seq<DecoderInstruction>, s': State)
    requires NoEmptyQueue(s) && ActsOn(s, instructions, s')
    ensures ActedOn(s, EncodeFeedback(instructions)) == instructions
    decreases |instructions|
  {
    hide ParseDecoderInstruction, EncodeDecoderInstruction, NoEmptyQueue, Acknowledged;
    if instructions == [] {
      NothingParses();
    } else {
      DecoderInstructionRoundTrip(instructions[0], EncodeFeedback(instructions[1..]));
      ListActedOn(Acknowledged(s, instructions[0]).value.0, instructions[1..], s');
    }
  }

  lemma NothingParses()
    ensures ParseDecoderInstruction([]) == Incomplete
  {
  }

  lemma AcknowledgedKeeps(s: State, i: DecoderInstruction)
    requires Sound(s)
    ensures NoEmptyQueue(s)
    ensures Acknowledged(s, i).Success? ==> Sound(Acknowledged(s, i).value.0) && Acknowledged(s, i).value.0.core == s.core
  {
    hide Fits, Conserved, Subtract, Covers;
    ConservedParts(s.core, s.tracked, s.blocks, map[]);
    if (i.HeaderAck? || i.StreamCancel?) && i.streamId in s.blocks {
      ConservedUntrack(s.core, s.tracked, s.blocks, map[], i.streamId);
      var s1 := Untracked(s, i.streamId);
      ConservedParts(s1.core, s1.tracked, s1.blocks, map[]);
      if i.streamId in s1.blocks {
        ConservedUntrack(s1.core, s1.tracked, s1.blocks, map[], i.streamId);
      }
    }
  }
}
