/** The stateful encoder (h3/src/qpack/encoder.rs). */
module Encoder {
  import opened Octets
  import opened TableModel
  import opened Bookkeeping
  import opened FieldLines
  import opened Instructions
  import opened QpackErrors
  import opened TableEncoder
  import opened Sections
  import opened Static = StaticTable
  import D = DynamicTable
  import HeaderPrefix

  class Encoder {
    const table: D.DynamicTable

    constructor (table: D.DynamicTable)
      ensures this.table == table
    {
      this.table := table;
    }

    /** Encode one field: append its line to the block, and at most one instruction to the stream. */
    static method EncodeField(enc: TableEncoder, block: Bytes, stream: Bytes, field: HeaderField)
      returns (block': Bytes, stream': Bytes, reference: Option<nat>,
               ghost line: FieldLine, ghost log: seq<EncoderInstruction>)
      requires enc.Valid()
      modifies enc`blockRefs, enc.table`trackMap, enc.table`fields, enc.table`currSize, enc.table`vas,
               enc.table`fieldMap, enc.table`nameMap
      ensures enc.Valid()
      ensures block' == block + FieldLines.Encode(line) && stream' == stream + EncodeLog(log)
      ensures |log| <= 1 && Replay(old(enc.table.Entries()), log) == Success(enc.table.Entries())
      ensures enc.table.maxSize == old(enc.table.maxSize) && LogEncodable(enc.table.Entries(), [field], log)
      ensures LineAdded(enc.table.Entries(), enc.base, enc.blockRefs, field, line, reference)
      ensures forall a :: a in old(enc.blockRefs) ==> a in enc.blockRefs
      ensures Chosen(old(enc.table.Entries()), enc.base, field, line, log)
      ensures NewInserted(old(enc.table.Entries()), old(enc.table.trackMap), field,
                          enc.table.blockedCount < enc.table.blockedMax, log)
    {
      hide SizeOf, IndexesFields, IndexesNames, BlockedExact, BlockCount, Conserved, Fits;
      hide Insertion, NameLookup, CountFor, Static.Find, Static.FindName, Resolve, Reference, Apply, InstructionOf;
      hide FieldLines.Encode, EncodeInstruction, Chosen, FieldLookup, Absent, Accepts, D.DynamicTable.Indexed;
      ghost var before := enc.table.Entries();
      log := [];
      stream' := stream;
      reference := None;
      if Static.Find(field).Some? {
        StaticLine(before, enc.base, field);
        ChosenStatic(before, enc.base, field);
        line := IndexedStatic(Static.Find(field).value);
        block' := block + FieldLines.Encode(IndexedStatic(Static.Find(field).value));
        return;
      }
      var found := enc.Find(field);
      FoundOrAbsent(before, enc.base, field, found);
      if found.Relative? {
        ChosenFound(before, enc.base, field, found);
        FoundLine(before, enc.base, found.absolute);
        line := IndexedDynamic(found.index);
        block' := block + FieldLines.Encode(IndexedDynamic(found.index));
        reference := Some(found.absolute);
        return;
      }
      ghost var refs := enc.blockRefs;
      var r := enc.Insert(field);
      CountForKeeps(refs, r);
      if r.NotInserted? {
        LiteralLine(enc.table.Entries(), enc.base, field, r.lookup);
        ChosenLiteral(before, enc.base, field, found, r.lookup);
        line := LiteralOf(r.lookup, field);
        match r.lookup {
          case Static(index) => block' := block + FieldLines.Encode(LiteralStaticName(index, field.value));
          case Relative(index, absolute) =>
            block' := block + FieldLines.Encode(LiteralDynamicName(index, field.value));
            reference := Some(absolute);
          case PostBase(index, absolute) =>
            block' := block + FieldLines.Encode(LiteralPostBaseName(index, field.value));
            reference := Some(absolute);
          case NotFound => block' := block + FieldLines.Encode(Literal(field.name, field.value));
        }
      } else {
        InsertedLine(enc.table.Entries(), enc.base, r.absolute);
        InsertionLogEncodable(before, InstructionOf(r, field), enc.table.Entries(), field);
        ReplayOne(before, InstructionOf(r, field));
        EncodeLogOne(InstructionOf(r, field));
        log := [InstructionOf(r, field)];
        ChosenInserted(before, enc.base, field, found, r.postbase, log);
        line := IndexedPostBase(r.postbase);
        stream' := stream + EncodeInstruction(InstructionOf(r, field));
        block' := block + FieldLines.Encode(IndexedPostBase(r.postbase));
        reference := Some(r.absolute);
      }
    }

    ghost function State(): Sections.State
      reads table
    {
      Sections.State(table.Entries(), table.trackMap, table.trackBlocks)
    }

    /** Encode a field section: the block, and the instructions appended to the encoder stream.
        It never fails, and the section it writes stands for the fields. */
    method Encode(streamId: nat, fields: seq<HeaderField>, block: Bytes, stream: Bytes)
      returns (block': Bytes, stream': Bytes, required: nat, ghost section: Section,
               ghost refs: Refs, ghost log: seq<EncoderInstruction>, ghost tables: seq<Core>)
      requires table.Valid(map[])
      modifies table`fieldMap, table`nameMap, table`fields, table`currSize, table`vas, table`trackMap,
               table`trackBlocks, table`blockedCount, table`blockedStreams, table`commits
      ensures table.Valid(map[])
      ensures BlockEncoded(old(State()), State(), streamId, fields, section, refs, log)
      ensures Snapshots(old(table.Entries()), log, tables)
      ensures required == section.required && table.commits == old(table.commits) + [required]
      ensures required > 0 ==> table.maxSize >= 32 && required <= table.Inserted()
      ensures block' == block + BlockBytes(Origin(table.Inserted(), table.maxSize), section)
      ensures stream' == stream + EncodeLog(log) && LogEncodable(table.Entries(), fields, log) && |log| <= |fields|
    {
      hide SizeOf, IndexesFields, IndexesNames, BlockedExact, BlockCount, Conserved, Fits, Encodes, LogEncodable;
      hide EncodeLines, EncodeLog, HeaderPrefix.Encode, Replay, Enqueue, D.DynamicTable.Indexed, HeaderPrefix.New;
      hide Partial, Snapshots;
      ghost var before := State();
      var enc := new TableEncoder(table, streamId);
      var blockBuf;
      blockBuf, stream', required, section, log, tables := EncodeFields(enc, fields, stream);
      refs := enc.blockRefs;
      PartialDone(before.core, table.Entries(), table.trackMap, table.trackBlocks, section, fields, refs, log, tables);
      var prefix := HeaderPrefix.New(required, enc.base, table.Inserted(), table.maxSize);
      block' := block + HeaderPrefix.Encode(prefix);
      block' := block' + blockBuf;
      enc.Commit(required);
    }

    /** The loop over the fields: their lines, and the instructions appended to the encoder stream. */
    static method EncodeFields(enc: TableEncoder, fields: seq<HeaderField>, stream: Bytes)
      returns (blockBuf: Bytes, stream': Bytes, required: nat, ghost section: Section,
               ghost log: seq<EncoderInstruction>, ghost tables: seq<Core>)
      requires enc.Valid()
      modifies enc`blockRefs, enc.table`trackMap, enc.table`fields, enc.table`currSize, enc.table`vas,
               enc.table`fieldMap, enc.table`nameMap
      ensures enc.Valid() && section.required == required && section.base == enc.base
      ensures Partial(old(enc.table.Entries()), enc.table.Entries(), section, fields, enc.blockRefs, log, tables)
      ensures blockBuf == EncodeLines(section.lines) && stream' == stream + EncodeLog(log)
    {
      hide SizeOf, IndexesFields, IndexesNames, BlockedExact, BlockCount, Conserved, Fits, LineAdded, LogEncodable;
      hide FieldLines.Encode, Replay, EncodeLog, EncodeLines, Partial, Chosen, NewInserted, Accepts;
      hide D.DynamicTable.Indexed;
      ghost var before := enc.table.Entries();
      required, stream', blockBuf := 0, stream, [];
      log, tables, section := [], [], Section([], 0, enc.base);
      NothingYet(before, enc.base, enc.blockRefs);
      for i := 0 to |fields|
        invariant enc.Valid() && section.required == required && section.base == enc.base
        invariant Partial(before, enc.table.Entries(), section, fields[..i], enc.blockRefs, log, tables)
        invariant blockBuf == EncodeLines(section.lines) && stream' == stream + EncodeLog(log)
      {
        ghost var (core, refsBefore) := (enc.table.Entries(), enc.blockRefs);
        var reference;
        ghost var line, more;
        blockBuf, stream', reference, line, more := EncodeField(enc, blockBuf, stream', fields[i]);
        NextField(before, core, enc.table.Entries(), enc.table.trackMap, enc.table.trackBlocks, section, fields[..i],
                  refsBefore, enc.blockRefs, log, tables, line, fields[i], reference, more);
        assert fields[..i] + [fields[i]] == fields[..i + 1];
        assert stream + EncodeLog(log) + EncodeLog(more) == stream + (EncodeLog(log) + EncodeLog(more));
        section := Section(section.lines + [line], Raise(required, reference), enc.base);
        log, tables := log + more, tables + SnapshotsOf(enc.table.Entries(), more);
        if reference.Some? {
          required := Max(required, reference.value);
        }
      }
      assert fields[..|fields|] == fields;
    }

    /** Apply the decoder's feedback: acknowledgements, cancellations and increments. */
    method OnDecoderRecv(read: Bytes) returns (rest: Bytes, error: Option<EncoderError>)
      requires table.Valid(map[])
      modifies table`trackMap, table`trackBlocks, table`largestKnownReceived, table`blockedCount, table`blockedStreams
      ensures table.Valid(map[])
      ensures old(NoEmptyQueue(State()))
      ensures OnFeedback(old(State()), old(table.largestKnownReceived), read)
           == Feedback(State(), table.largestKnownReceived, rest, error)
      ensures table.largestKnownReceived == old(table.largestKnownReceived) + IncrementSum(ActedOn(old(State()), read))
    {
      hide SizeOf, IndexesFields, IndexesNames, BlockedExact, BlockCount, Conserved, Fits, Subtract;
      hide ParseDecoderInstruction, ActedOn, IncrementSum;
      rest, error := read, None;
      ConservedParts(table.Entries(), table.trackMap, table.trackBlocks, map[]);
      KnownRises(State(), table.largestKnownReceived, read);
      while true
        invariant table.Valid(map[])
        invariant NoEmptyQueue(State())
        invariant OnFeedback(old(State()), old(table.largestKnownReceived), read)
               == OnFeedback(State(), table.largestKnownReceived, rest)
        decreases |rest|
      {
        ParseDecoderSuffix(rest);
        match ParseDecoderInstruction(rest) {
          case Incomplete => return;
          case Failed(e) =>
            error := Some(ToEncoderError(e));
            return;
          case Parsed(instruction, next) =>
            rest := next;
            match instruction {
              case HeaderAck(id) =>
                var failed := table.UntrackBlock(id, map[]);
                if failed.Some? {
                  error := Some(TableInsertion(failed.value));
                  return;
                }
              case StreamCancel(id) =>
                var failed := table.UntrackBlock(id, map[]);
                if failed.None? {
                  var _ := table.UntrackBlock(id, map[]);
                }
              case InsertCountIncrement(n) => table.UpdateLargestReceived(n);
            }
        }
        ConservedParts(table.Entries(), table.trackMap, table.trackBlocks, map[]);
      }
    }

    /** Change the capacity and tell the decoder. */
    method SetDynamicTableSize(size: nat, stream: Bytes) returns (stream': Bytes, error: Option<EncoderError>)
      requires table.Valid(map[])
      modifies table`fields, table`currSize, table`vas, table`fieldMap, table`nameMap, table`maxSize
      ensures table.Consistent(map[]) && table.Entries() == AfterResize(old(table.Entries()), old(table.trackMap), size)
      ensures table.trackMap == old(table.trackMap) && table.trackBlocks == old(table.trackBlocks)
      ensures if size > MAX_CAPACITY then error == Some(TableInsertion(MaximumTableSizeTooLarge)) && stream' == stream
              else error == None && stream' == stream + EncodeLog([SizeUpdate(size)])
      ensures table.Valid(map[]) <==> size > MAX_CAPACITY || Unobstructed(old(State()), size)
    {
      hide SizeOf, IndexesFields, IndexesNames, BlockedExact, Conserved, Fits, EncodeInstruction, AfterResize, Freeable;
      EncodeLogOne(SizeUpdate(size));
      var failed := table.SetMaxSize(size, map[]);
      if failed.Some? {
        return stream, Some(TableInsertion(failed.value));
      }
      return stream + EncodeInstruction(SizeUpdate(size)), None;
    }
  }

  /** What the first fields of a section have come to: its lines so far, and the instructions so far with
      the table after each. */
  ghost predicate Partial(c0: Core, c: Core, section: Section, fields: seq<HeaderField>, refs: Refs,
                          log: seq<EncoderInstruction>, tables: seq<Core>) {
    && Replay(c0, log) == Success(c) && c.maxSize == c0.maxSize && Snapshots(c0, log, tables)
    && Encodes(c, section, fields, refs) && LogEncodable(c, fields, log) && |log| <= |fields|
  }

  lemma NothingYet(c: Core, base: nat, refs: Refs)
    ensures Partial(c, c, Section([], 0, base), [], refs, [], []) && EncodeLog([]) == EncodeLines([]) == []
  {
  }

  lemma EncodeLinesAppend(lines: seq<FieldLine>, line: FieldLine)
    ensures EncodeLines(lines + [line]) == EncodeLines(lines) + FieldLines.Encode(line)
  {
    hide FieldLines.Encode;
    assert (lines + [line])[..|lines|] == lines;
  }

  /** Encoding another field keeps the lines written so far meaning what they meant. */
  lemma NextField(c0: Core, c: Core, c': Core, tracked: Refs, blocks: Blocks, section: Section,
                  fields: seq<HeaderField>, refs: Refs, refs': Refs, log: seq<EncoderInstruction>, tables: seq<Core>,
                  line: FieldLine, field: HeaderField, reference: Option<nat>, more: seq<EncoderInstruction>)
    requires Partial(c0, c, section, fields, refs, log, tables) && Conserved(c', tracked, blocks, refs')
    requires |more| <= 1 && Replay(c, more) == Success(c') && c'.maxSize == c.maxSize
    requires LogEncodable(c', [field], more) && LineAdded(c', section.base, refs', field, line, reference)
    requires forall a :: a in refs ==> a in refs'
    ensures var section' := Section(section.lines + [line], Raise(section.required, reference), section.base);
            && Partial(c0, c', section', fields + [field], refs', log + more, tables + SnapshotsOf(c', more))
            && EncodeLines(section'.lines) == EncodeLines(section.lines) + FieldLines.Encode(line)
    ensures EncodeLog(log + more) == EncodeLog(log) + EncodeLog(more)
  {
    hide Replay, Encodes, Conserved, EncodeLog, LogEncodable, LineAdded, EncodeLines, FieldLines.Encode, Snapshots;
    ReplayConcat(c0, log, more);
    SnapshotsAppend(c0, log, tables, c, more, c');
    EncodeLogConcat(log, more);
    EncodeLinesAppend(section.lines, line);
    ReplayExtends(c, more);
    forall a | a in refs ensures a in refs' && c'.Live(a) {
      WorkingLive(c', tracked, blocks, refs', a);
    }
    EncodesStable(c, c', section, fields, refs, refs');
    LogEncodableAppend(c, fields, log, c', field, more);
    EncodesAppend(c', section, fields, refs', line, field, reference);
  }

  /** All fields are encoded: a required count is the index of a counted, live entry. */
  lemma PartialDone(c0: Core, c: Core, tracked: Refs, blocks: Blocks, section: Section, fields: seq<HeaderField>,
                    refs: Refs, log: seq<EncoderInstruction>, tables: seq<Core>)
    requires Partial(c0, c, section, fields, refs, log, tables)
    requires Conserved(c, tracked, blocks, refs) && Fits(c)
    ensures Replay(c0, log) == Success(c) && c.maxSize == c0.maxSize && Snapshots(c0, log, tables)
    ensures Encodes(c, section, fields, refs) && LogEncodable(c, fields, log) && |log| <= |fields|
    ensures section.required > 0 ==> c.maxSize >= 32 && section.required <= c.Inserted() && section.required in refs
  {
    hide Replay, Conserved, LogEncodable, LineOf, Snapshots, Fits;
    RequiredInWindow(c, tracked, blocks, refs, section, fields);
  }
}
