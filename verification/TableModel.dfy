/** What both ends of a QPACK stream must agree on: the entries of the dynamic table, how many were
    dropped, and the capacity; and what instructions and field lines mean against it. */
module TableModel {
  import opened Octets
  import opened AddressSpace
  import opened FieldLines
  import opened Instructions
  import opened QpackErrors
  import opened Static = StaticTable

  const MAX_CAPACITY := 1_073_741_823

  /** The live entries, oldest first. The first one has absolute index dropped + 1. */
  datatype Core = Core(fields: seq<HeaderField>, dropped: nat, maxSize: nat) {

    function Inserted(): nat {
      dropped + |fields|
    }

    predicate Live(absolute: nat) {
      dropped < absolute <= Inserted()
    }

    function At(absolute: nat): HeaderField
      requires Live(absolute)
    {
      fields[absolute - dropped - 1]
    }

    function Vas(): VirtualAddressSpace {
      VirtualAddressSpace(Inserted(), dropped, |fields|)
    }
  }

  // ----------------------------------------------------------------- eviction

  /** The length of the shortest oldest prefix whose eviction leaves at most `budget`. */
  function MinEvict(fields: seq<HeaderField>, budget: nat): (n: nat)
    ensures n <= |fields| && SizeOf(fields[n..]) <= budget
    ensures forall k :: 0 <= k < n ==> SizeOf(fields[k..]) > budget
  {
    hide SizeOf;
    if SizeOf(fields) <= budget then assert fields[0..] == fields; 0 else
    NothingToEvict();
    var n := MinEvict(fields[1..], budget);
    OneMore(fields, budget, n);
    n + 1
  }

  lemma NothingToEvict()
    ensures SizeOf([]) == 0
  {
  }

  lemma OneMore(fields: seq<HeaderField>, budget: nat, n: nat)
    requires fields != [] && n < |fields| && SizeOf(fields) > budget
    requires forall k :: 0 <= k < n ==> SizeOf(fields[1..][k..]) > budget
    ensures fields[1..][n..] == fields[n + 1..]
    ensures forall k :: 0 <= k < n + 1 ==> SizeOf(fields[k..]) > budget
  {
    hide SizeOf;
    forall k | 0 <= k < n + 1 ensures SizeOf(fields[k..]) > budget {
      if k > 0 {
        assert fields[1..][k - 1..] == fields[k..];
      } else {
        assert fields[0..] == fields;
      }
    }
  }

  function Evict(c: Core, n: nat): Core
    requires n <= |c.fields|
  {
    Core(c.fields[n..], c.dropped + n, c.maxSize)
  }

  /** The table after an insertion that evicts exactly what it must. */
  function Grown(c: Core, field: HeaderField): (c': Core)
    requires field.MemSize() <= c.maxSize
  {
    var kept := Evict(c, MinEvict(c.fields, c.maxSize - field.MemSize()));
    kept.(fields := kept.fields + [field])
  }

  function Put(c: Core, field: HeaderField): (r: Result<Core, TableError>) {
    if c.maxSize == 0 then Success(c)
    else if field.MemSize() > c.maxSize then Failure(MaxTableSizeReached)
    else Success(Grown(c, field))
  }

  function Resize(c: Core, size: nat): (r: Result<Core, TableError>) {
    if size > MAX_CAPACITY then Failure(MaximumTableSizeTooLarge)
    else if size >= c.maxSize then Success(c.(maxSize := size))
    else Success(Evict(c, MinEvict(c.fields, size)).(maxSize := size))
  }

  // ------------------------------------------------------------- instructions

  function FromVas(e: VasError): TableError {
    match e
    case RelativeIndex(i) => BadRelativeIndex(i)
    case PostbaseIndex(i) => BadPostbaseIndex(i)
    case Index(i) => BadIndex(i)
  }

  function AtPosition(c: Core, position: Result<nat, VasError>): (r: Result<HeaderField, DecoderError>) {
    match position
    case Failure(e) => Failure(TableFault(FromVas(e)))
    case Success(p) => if p < |c.fields| then Success(c.fields[p]) else Failure(TableFault(BadIndex(p)))
  }

  function AtStatic(index: nat): (r: Result<HeaderField, DecoderError>) {
    match Get(index) case Success(f) => Success(f) case Failure(_) => Failure(InvalidStaticIndex(index))
  }

  function WithValue(r: Result<HeaderField, DecoderError>, value: Bytes): Result<HeaderField, DecoderError> {
    match r case Success(f) => Success(f.WithValue(value)) case Failure(e) => Failure(e)
  }

  /** The field an insertion instruction adds, looked up before the insertion. */
  function InsertedField(c: Core, i: EncoderInstruction): (r: Result<HeaderField, DecoderError>)
    requires !i.SizeUpdate?
  {
    match i
    case InsertStaticName(index, value) => WithValue(AtStatic(index), value)
    case InsertDynamicName(index, value) => WithValue(AtPosition(c, c.Vas().Relative(index)), value)
    case InsertLiteralName(name, value) => Success(HeaderField(name, value))
    case Duplicate(index) => AtPosition(c, c.Vas().Relative(index))
  }

  /** An insertion repeats an entry, or takes the name of one, counted back from the newest. A reference to
      anything else is an error that names the index. */
  lemma {:induction false} InsertedExact(c: Core, i: EncoderInstruction)
    requires !i.SizeUpdate?
    ensures InsertedField(c, i) ==
      if i.InsertLiteralName? then Success(HeaderField(i.name, i.value))
      else if i.InsertStaticName? && i.index < SIZE then Success(HeaderField(Entry(i.index).name, i.value))
      else if i.InsertStaticName? then Failure(InvalidStaticIndex(i.index))
      else if i.index >= |c.fields| then Failure(TableFault(BadRelativeIndex(i.index)))
      else if i.Duplicate? then Success(c.At(c.Inserted() - i.index))
      else Success(HeaderField(c.At(c.Inserted() - i.index).name, i.value))
  {
    hide Entry;
  }

  function Lift(r: Result<Core, TableError>): Result<Core, DecoderError> {
    match r case Success(c) => Success(c) case Failure(e) => Failure(TableFault(e))
  }

  /** What the decoder does with one instruction. */
  function Apply(c: Core, i: EncoderInstruction): (r: Result<Core, DecoderError>) {
    match i
    case SizeUpdate(size) => Lift(Resize(c, size))
    case _ =>
      match InsertedField(c, i)
      case Failure(e) => Failure(e)
      case Success(field) => Lift(Put(c, field))
  }

  function Replay(c: Core, log: seq<EncoderInstruction>): (r: Result<Core, DecoderError>)
    decreases |log|
  {
    if log == [] then Success(c) else
    match Apply(c, log[0])
    case Failure(e) => Failure(e)
    case Success(c') => Replay(c', log[1..])
  }

  lemma ReplayOne(c: Core, i: EncoderInstruction)
    ensures Apply(c, i).Success? ==> Replay(c, [i]) == Success(Apply(c, i).value)
  {
    hide Apply;
    assert [i][1..] == [];
  }

  lemma {:induction false} ReplayConcat(c: Core, a: seq<EncoderInstruction>, b: seq<EncoderInstruction>)
    ensures Replay(c, a).Success? ==> Replay(c, a + b) == Replay(Replay(c, a).value, b)
    decreases |a|
  {
    hide Apply;
    if a == [] {
      assert a + b == b;
    } else {
      assert (a + b)[1..] == a[1..] + b;
      if Apply(c, a[0]).Success? {
        ReplayConcat(Apply(c, a[0]).value, a[1..], b);
      }
    }
  }

  lemma {:induction false} ReplaySplit(c: Core, log: seq<EncoderInstruction>, k: nat)
    requires k <= |log| && Replay(c, log).Success?
    ensures Replay(c, log[..k]).Success? && Replay(Replay(c, log[..k]).value, log[k..]) == Replay(c, log)
    decreases |log|
  {
    hide Apply;
    if k > 0 {
      ReplaySplit(Apply(c, log[0]).value, log[1..], k - 1);
      assert log[..k][1..] == log[1..][..k - 1] && log[1..][k - 1..] == log[k..];
    } else {
      assert log[..0] == [] && log[0..] == log;
    }
  }

  // -------------------------------------------------------------- field lines

  /** The field a line denotes against a table and a base. */
  function Resolve(c: Core, base: nat, line: FieldLine): (r: Result<HeaderField, DecoderError>) {
    match line
    case IndexedStatic(i) => AtStatic(i)
    case IndexedDynamic(i) => AtPosition(c, c.Vas().RelativeBase(base, i))
    case IndexedPostBase(i) => AtPosition(c, c.Vas().PostBase(base, i))
    case LiteralStaticName(i, v) => WithValue(AtStatic(i), v)
    case LiteralDynamicName(i, v) => WithValue(AtPosition(c, c.Vas().RelativeBase(base, i)), v)
    case LiteralPostBaseName(i, v) => WithValue(AtPosition(c, c.Vas().PostBase(base, i)), v)
    case Literal(n, v) => Success(HeaderField(n, v))
  }

  /** The absolute index a line refers to, zero when it refers to none. */
  function Reference(base: nat, line: FieldLine): (absolute: int) {
    match line
    case IndexedDynamic(i) => base - i
    case IndexedPostBase(i) => base + i + 1
    case LiteralDynamicName(i, _) => base - i
    case LiteralPostBaseName(i, _) => base + i + 1
    case _ => 0
  }

  predicate IsDynamic(line: FieldLine) {
    line.IndexedDynamic? || line.IndexedPostBase? || line.LiteralDynamicName? || line.LiteralPostBaseName?
  }

  /** The entry a line refers to is there: a live one, or one of the static table. */
  predicate Refers(c: Core, base: nat, line: FieldLine) {
    if IsDynamic(line) then c.dropped < Reference(base, line) <= c.Inserted()
    else line.Literal? || line.index < SIZE
  }

  /** A line denotes the entry it refers to, by its absolute index, or that entry's name with a value of its
      own. A reference to anything else is an error that names the index. */
  lemma ResolveExact(c: Core, base: nat, line: FieldLine)
    ensures !line.Literal? ==>
      var (absolute, r) := (Reference(base, line), Resolve(c, base, line));
      if !Refers(c, base, line) then
        r == Failure(if !IsDynamic(line) then InvalidStaticIndex(line.index)
                     else if line.IndexedPostBase? || line.LiteralPostBaseName? then
                       TableFault(BadPostbaseIndex(line.index))
                     else if c.fields == [] || absolute <= c.dropped then TableFault(BadRelativeIndex(line.index))
                     else TableFault(BadIndex(absolute - c.dropped - 1)))
      else
        var entry := if IsDynamic(line) then c.At(absolute) else Entry(line.index);
        r == Success(if line.IndexedStatic? || line.IndexedDynamic? || line.IndexedPostBase? then entry
                     else HeaderField(entry.name, line.value))
  {
    hide Entry;
  }

  // ------------------------------------------------------ tables of one stream

  /** `later` is `c` after more insertions and evictions: entries they share are the same. */
  ghost predicate Extends(c: Core, later: Core) {
    && c.dropped <= later.dropped && c.Inserted() <= later.Inserted()
    && forall a :: c.Live(a) && later.Live(a) ==> c.At(a) == later.At(a)
  }

  lemma ExtendsTransitive(a: Core, b: Core, c: Core)
    requires Extends(a, b) && Extends(b, c)
    ensures Extends(a, c)
  {
    forall i | a.Live(i) && c.Live(i) ensures a.At(i) == c.At(i) {
      assert b.Live(i);
    }
  }

  lemma PutExtends(c: Core, field: HeaderField)
    ensures Put(c, field).Success? ==>
            Extends(c, Put(c, field).value) && Put(c, field).value.maxSize == c.maxSize
  {
    hide SizeOf, MinEvict;
  }

  lemma ResizeExtends(c: Core, size: nat)
    ensures Resize(c, size).Success? ==> Extends(c, Resize(c, size).value)
  {
    hide SizeOf, MinEvict;
  }

  lemma ApplyExtends(c: Core, i: EncoderInstruction)
    ensures Apply(c, i).Success? ==> Extends(c, Apply(c, i).value)
  {
    hide Put, Resize, InsertedField, Extends;
    match i
    case SizeUpdate(size) => ResizeExtends(c, size);
    case _ =>
      if InsertedField(c, i).Success? {
        PutExtends(c, InsertedField(c, i).value);
      }
  }

  lemma {:induction false} ReplayExtends(c: Core, log: seq<EncoderInstruction>)
    ensures Replay(c, log).Success? ==> Extends(c, Replay(c, log).value)
    decreases |log|
  {
    hide Apply;
    if log == [] {
    } else if Apply(c, log[0]).Success? {
      var next := Apply(c, log[0]).value;
      ApplyExtends(c, log[0]);
      ReplayExtends(next, log[1..]);
      if Replay(next, log[1..]).Success? {
        ExtendsTransitive(c, next, Replay(next, log[1..]).value);
      }
    }
  }

  lemma {:induction false} ReplayInsertsAtMost(c: Core, log: seq<EncoderInstruction>)
    ensures Replay(c, log).Success? ==> Replay(c, log).value.Inserted() <= c.Inserted() + |log|
    decreases |log|
  {
    hide Apply;
    if log != [] {
      ApplyInsertsAtMost(c, log[0]);
      if Apply(c, log[0]).Success? {
        ReplayInsertsAtMost(Apply(c, log[0]).value, log[1..]);
      }
    }
  }

  lemma ApplyInsertsAtMost(c: Core, i: EncoderInstruction)
    ensures Apply(c, i).Success? ==> Apply(c, i).value.Inserted() <= c.Inserted() + 1
  {
    hide InsertedField, MinEvict, SizeOf;
  }

  /** A line means the same against every table of the stream in which its reference is live. */
  lemma ResolveStable(c: Core, later: Core, base: nat, line: FieldLine)
    requires IsDynamic(line) ==>
               var a := Reference(base, line); a > 0 && c.Live(a) && later.Live(a)
    requires Extends(c, later) || Extends(later, c)
    ensures Resolve(c, base, line) == Resolve(later, base, line)
  {
    hide AtStatic;
    if IsDynamic(line) {
      var a := Reference(base, line);
      NamesOfLiveEntry(c.Vas(), base, a);
      NamesOfLiveEntry(later.Vas(), base, a);
      assert c.At(a) == later.At(a);
    }
  }

  // ---------------------------------------------------------------- capacity

  /** The entries fit the capacity. */
  predicate Fits(c: Core) {
    SizeOf(c.fields) <= c.maxSize
  }

  lemma ApplyFits(c: Core, i: EncoderInstruction)
    requires Fits(c)
    ensures Apply(c, i).Success? ==> Fits(Apply(c, i).value)
  {
    hide InsertedField, SizeOf, MinEvict;
    if !i.SizeUpdate? && InsertedField(c, i).Success? && Put(c, InsertedField(c, i).value).Success? {
      var field := InsertedField(c, i).value;
      if c.maxSize != 0 {
        var kept := Evict(c, MinEvict(c.fields, c.maxSize - field.MemSize()));
        SizeOfConcat(kept.fields, [field]);
        SizeOfOne(field);
      }
    }
  }

  lemma {:induction false} ReplayFits(c: Core, log: seq<EncoderInstruction>)
    requires Fits(c)
    ensures Replay(c, log).Success? ==> Fits(Replay(c, log).value)
    decreases |log|
  {
    hide Apply, Fits;
    if log != [] && Apply(c, log[0]).Success? {
      ApplyFits(c, log[0]);
      ReplayFits(Apply(c, log[0]).value, log[1..]);
    }
  }

  /** Entries cost at least 32 octets, so a live reference is within capacity / 32 of the insert count. */
  lemma LiveInWindow(c: Core, absolute: nat)
    requires Fits(c) && c.Live(absolute)
    ensures c.maxSize / 32 >= 1 && c.Inserted() - c.maxSize / 32 < absolute <= c.Inserted()
  {
    assert 32 * |c.fields| <= c.maxSize;
  }
}
