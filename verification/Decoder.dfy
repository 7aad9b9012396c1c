/** The stateful decoder (h3/src/qpack/decoder.rs). */
module Decoder {
  import opened Octets
  import opened TableModel
  import opened Bookkeeping
  import opened FieldLines
  import opened Instructions
  import opened QpackErrors
  import opened Static = StaticTable
  import D = DynamicTable
  import HeaderPrefix
  import PrefixInt

  // ------------------------------------------------------------ encoder stream

  datatype Received = Received(core: Core, rest: Bytes, error: Option<DecoderError>)

  /** What a piece of the encoder stream does to the table: every whole instruction in order, up to the
      first error. An instruction whose reference is bad stays unread; one that the table refuses is read. */
  function Receive(c: Core, read: Bytes): (r: Received)
    ensures r.core.Inserted() >= c.Inserted()
    decreases |read|
  {
    hide ParseInstruction, Put, Resize, InsertedField, Apply;
    ParseSuffix(read);
    match ParseInstruction(read)
    case Incomplete => Received(c, read, None)
    case Failed(e) => Received(c, read, Some(FromParse(e)))
    case Parsed(i, rest) =>
      if !i.SizeUpdate? && InsertedField(c, i).Failure? then Received(c, read, Some(InsertedField(c, i).error)) else
      match Apply(c, i)
      case Failure(e) => Received(c, rest, Some(e))
      case Success(c') => ApplyExtends(c, i); Receive(c', rest)
  }

  /** The largest increment that fits the octet it is converted to. */
  const MAX_EMITTED := 255

  // ------------------------------------------------------------- field sections

  datatype Decoded = Decoded(fields: seq<HeaderField>, dynRef: bool, memSize: nat)

  function DecodeLines(c: Core, base: nat, s: Bytes, done: seq<HeaderField>): (r: Result<seq<HeaderField>, DecoderError>)
    decreases |s|
  {
    hide FieldLines.Decode, Resolve;
    if s == [] then Success(done) else
    DecodeSuffix(s);
    match FieldLines.Decode(s)
    case Err(e) => Failure(FromParse(e))
    case Ok(line, rest) =>
      match Resolve(c, base, line)
      case Failure(e) => Failure(e)
      case Success(field) => DecodeLines(c, base, rest, done + [field])
  }

  function DecodeSection(c: Core, s: Bytes): (r: Result<Decoded, DecoderError>) {
    match HeaderPrefix.Decode(s)
    case Err(e) => Failure(InvalidInteger(e))
    case Ok(p, rest) =>
      match HeaderPrefix.Get(p, c.Inserted(), c.maxSize)
      case InvalidBase(b) => Failure(BadBaseIndex(b))
      case ArithmeticFault => Failure(DecoderError.ArithmeticFault)
      case Counts(required, base) =>
        if required > c.Inserted() then Failure(MissingRefs(required)) else
        match DecodeLines(c, base, rest, [])
        case Failure(e) => Failure(e)
        case Success(fields) => Success(Decoded(fields, required > 0, SizeOf(fields)))
  }

  class Decoder {
    const table: D.DynamicTable

    constructor (table: D.DynamicTable)
      ensures this.table == table
    {
      this.table := table;
    }

    /** A decoder tracks no references. */
    ghost predicate Valid()
      reads this, table
    {
      table.Valid(map[]) && table.trackMap == map[]
    }

    /** Take in a piece of the encoder stream, and announce how many entries it inserted. */
    method OnEncoderRecv(read: Bytes, write: Bytes) returns (rest: Bytes, write': Bytes, r: Result<nat, DecoderError>)
      requires Valid()
      modifies table`fields, table`currSize, table`vas, table`fieldMap, table`nameMap, table`maxSize
      ensures Valid()
      ensures var received := Receive(old(table.Entries()), read);
              && table.Entries() == received.core && rest == received.rest
              && var inserted := received.core.Inserted() - old(table.Inserted());
              if received.error.Some? then r == Failure(received.error.value) && write' == write
              else if inserted > MAX_EMITTED then r == Failure(IncrementTooLarge(inserted)) && write' == write
              else
                && r == Success(received.core.Inserted())
                && write' == write + if inserted == 0 then [] else EncodeDecoderInstruction(InsertCountIncrement(inserted))
    {
      hide SizeOf, IndexesFields, IndexesNames, BlockedExact, BlockCount, Conserved, Fits;
      hide ParseInstruction, EncodeDecoderInstruction, InsertedField, Insertion, AfterInsertion, AfterResize, Put;
      hide TableModel.Resize, D.DynamicTable.Indexed;
      var insertedOnStart := table.Inserted();
      rest, write' := read, write;
      while true
        invariant Valid() && table.Inserted() >= insertedOnStart
        invariant Receive(old(table.Entries()), read) == Receive(table.Entries(), rest)
        decreases |rest|
      {
        ParseSuffix(rest);
        match ParseInstruction(rest) {
          case Incomplete => break;
          case Failed(e) => return rest, write, Failure(FromParse(e));
          case Parsed(SizeUpdate(size), next) =>
            rest := next;
            ResizeUntracked(table.Entries(), size);
            ApplyExtends(table.Entries(), SizeUpdate(size));
            var error := table.SetMaxSize(size, map[]);
            if error.Some? {
              return rest, write, Failure(TableFault(error.value));
            }
          case Parsed(i, next) =>
            var field := FieldOf(i);
            if field.Failure? {
              return rest, write, Failure(field.error);
            }
            rest := next;
            InsertionUntracked(table.Entries(), field.value);
            ApplyExtends(table.Entries(), i);
            var error := table.Put(field.value, map[]);
            if error.Some? {
              return rest, write, Failure(TableFault(error.value));
            }
        }
      }
      if table.Inserted() != insertedOnStart {
        var increment := table.Inserted() - insertedOnStart;
        if increment > MAX_EMITTED {
          return rest, write, Failure(IncrementTooLarge(increment));
        }
        write' := write + EncodeDecoderInstruction(InsertCountIncrement(increment));
      }
      r := Success(table.Inserted());
    }

    method FieldOf(i: EncoderInstruction) returns (r: Result<HeaderField, DecoderError>)
      requires !i.SizeUpdate? && table.Counted()
      ensures r == InsertedField(table.Entries(), i)
    {
      hide SizeOf, AtPosition, AtStatic;
      match i
      case InsertLiteralName(name, value) => r := Success(HeaderField(name, value));
      case Duplicate(index) => r := table.GetRelative(index);
      case InsertStaticName(index, value) => r := TableModel.WithValue(AtStatic(index), value);
      case InsertDynamicName(index, value) =>
        var named := table.GetRelative(index);
        r := TableModel.WithValue(named, value);
    }

    method DecodeHeader(buf: Bytes) returns (r: Result<Decoded, DecoderError>)
      requires table.Counted()
      ensures r == DecodeSection(table.Entries(), buf)
    {
      hide HeaderPrefix.Decode, HeaderPrefix.Get, FieldLines.Decode, Resolve;
      var prefix := HeaderPrefix.Decode(buf);
      if prefix.Err? {
        return Failure(InvalidInteger(prefix.error));
      }
      var required, base;
      match HeaderPrefix.Get(prefix.value, table.Inserted(), table.maxSize) {
        case InvalidBase(b) => return Failure(BadBaseIndex(b));
        case ArithmeticFault => return Failure(DecoderError.ArithmeticFault);
        case Counts(count, b) => required, base := count, b;
      }
      if required > table.Inserted() {
        return Failure(MissingRefs(required));
      }
      var rest, memSize, fields := prefix.rest, 0, [];
      while |rest| > 0
        invariant memSize == SizeOf(fields)
        invariant DecodeLines(table.Entries(), base, rest, fields) == DecodeLines(table.Entries(), base, prefix.rest, [])
        decreases |rest|
      {
        DecodeSuffix(rest);
        match FieldLines.Decode(rest) {
          case Err(e) => return Failure(FromParse(e));
          case Ok(line, next) =>
            match Resolve(table.Entries(), base, line) {
              case Failure(e) => return Failure(e);
              case Success(field) =>
                SizeOfAppend(fields, field);
                memSize := memSize + field.MemSize();
                fields := fields + [field];
                rest := next;
            }
        }
      }
      return Success(Decoded(fields, required > 0, memSize));
    }
  }

  lemma ResizeUntracked(c: Core, size: nat)
    requires Fits(c)
    ensures Freeable(c, map[], c.maxSize) != Success(None)
    ensures size < c.maxSize ==> Freeable(c, map[], c.maxSize - size) != Success(None)
    ensures Resize(c, size) == if size > MAX_CAPACITY then Failure(MaximumTableSizeTooLarge)
                               else Success(AfterResize(c, map[], size))
    ensures size > MAX_CAPACITY ==> AfterResize(c, map[], size) == c
  {
    hide SizeOf, MinEvict;
    if size <= MAX_CAPACITY {
      ResizeFits(c, map[], size);
    }
  }
}
