/** The table as one block's encoder sees it: it looks fields up, inserts them, and counts every entry it
    refers to until the block is committed or given up (h3/src/qpack/dynamic.rs). */
module TableEncoder {
  import opened Octets
  import opened AddressSpace
  import opened TableModel
  import opened Bookkeeping
  import opened Instructions
  import opened QpackErrors
  import opened Static = StaticTable
  import D = DynamicTable

  datatype Lookup =
    | Static(index: nat)
    | Relative(index: nat, absolute: nat)
    | PostBase(index: nat, absolute: nat)
    | NotFound

  datatype InsertionResult =
    | Inserted(postbase: nat, absolute: nat)
    | Duplicated(relative: nat, postbase: nat, absolute: nat)
    | InsertedWithNameRef(postbase: nat, relative: nat, absolute: nat)
    | InsertedWithStaticNameRef(postbase: nat, index: nat, absolute: nat)
    | NotInserted(lookup: Lookup)

  /** The answer is the index of `absolute` under `base`, in the form that fits. */
  predicate Names(base: nat, r: Lookup, absolute: nat) {
    r == if absolute <= base then Relative(base - absolute, absolute) else PostBase(absolute - base - 1, absolute)
  }

  /** A lookup of a field: its newest live entry, or NotFound when no live entry holds it. */
  ghost predicate FieldLookup(c: Core, base: nat, field: HeaderField, r: Lookup) {
    if r.NotFound? then forall a :: c.Live(a) ==> c.At(a) != field
    else !r.Static? && c.Live(r.absolute) && c.At(r.absolute) == field && Names(base, r, r.absolute)
         && forall a: nat :: c.Live(a) && c.At(a) == field ==> a <= r.absolute
  }

  /** A lookup of a name: the static table first, then the newest live entry of that name. */
  ghost predicate NameLookup(c: Core, base: nat, name: Bytes, r: Lookup) {
    hide FindName;
    match r
    case Static(i) => FindName(name) == Some(i)
    case NotFound => FindName(name).None? && forall a :: c.Live(a) ==> c.At(a).name != name
    case _ =>
      && FindName(name).None? && c.Live(r.absolute) && c.At(r.absolute).name == name && Names(base, r, r.absolute)
      && forall a: nat :: c.Live(a) && c.At(a).name == name ==> a <= r.absolute
  }

  /** The instruction that tells the decoder of an insertion. */
  function InstructionOf(r: InsertionResult, field: HeaderField): EncoderInstruction
    requires !r.NotInserted?
  {
    match r
    case Inserted(_, _) => InsertLiteralName(field.name, field.value)
    case Duplicated(relative, _, _) => Duplicate(relative)
    case InsertedWithNameRef(_, relative, _) => InsertDynamicName(relative, field.value)
    case InsertedWithStaticNameRef(_, index, _) => InsertStaticName(index, field.value)
  }

  /** An insertion and its instruction have the same effect, and the new entry is named from the base. */
  ghost predicate InsertionSound(c: Core, c': Core, base: nat, field: HeaderField, r: InsertionResult) {
    if r.NotInserted? then c' == c && NameLookup(c, base, field.name, r.lookup) else
    && Apply(c, InstructionOf(r, field)) == Success(c')
    && c'.Live(r.absolute) && c'.At(r.absolute) == field
    && base < r.absolute == c'.Inserted() == c.Inserted() + 1 && r.postbase == r.absolute - base - 1
  }

  /** How the index updates describe a new last entry in terms of the entries before it. */
  ghost predicate Registered(t: Core, base: nat, field: HeaderField, index: nat, r: InsertionResult) {
    hide FindName;
    && base < index == t.Inserted() + 1
    && !r.NotInserted? && r.absolute == index && r.postbase == index - base - 1
    && (r.InsertedWithStaticNameRef? ==> FindName(field.name) == Some(r.index))
    && (r.Duplicated? || r.InsertedWithNameRef? ==> Source(t, r) >= 0 && t.Live(Source(t, r)))
    && (r.Duplicated? ==> t.At(Source(t, r)) == field)
    && (r.InsertedWithNameRef? ==> t.At(Source(t, r)).name == field.name)
  }

  /** The description of a new last entry that the indexes of the entries before it give. */
  function Description(m: map<HeaderField, nat>, n: map<Bytes, nat>, base: nat, field: HeaderField, index: nat):
      InsertionResult
    requires base < index && (field in m ==> m[field] < index) && (field.name in n ==> n[field.name] < index)
  {
    if field in m then Duplicated(index - m[field] - 1, index - base - 1, index)
    else if FindName(field.name).Some? then InsertedWithStaticNameRef(index - base - 1, FindName(field.name).value, index)
    else if field.name in n then InsertedWithNameRef(index - base - 1, index - n[field.name] - 1, index)
    else Inserted(index - base - 1, index)
  }

  lemma DescriptionRegistered(t: Core, m: map<HeaderField, nat>, n: map<Bytes, nat>, base: nat, field: HeaderField)
    requires IndexesFields(t, m) && IndexesNames(t, n) && base <= t.Inserted()
    ensures (field in m ==> t.Live(m[field])) && (field.name in n ==> t.Live(n[field.name]))
    ensures Registered(t, base, field, t.Inserted() + 1, Description(m, n, base, field, t.Inserted() + 1))
    ensures field in m && field.name !in n ==> FindName(field.name).Some?
  {
    hide IndexesFields, IndexesNames, FindName;
    IndexSound(t, m, n, field);
  }

  /** The earlier entry that a result names. */
  function Source(t: Core, r: InsertionResult): int {
    match r
    case Duplicated(relative, _, _) => t.Inserted() - relative
    case InsertedWithNameRef(_, relative, _) => t.Inserted() - relative
    case _ => 0
  }

  lemma InsertionInstruction(c: Core, tracked: Refs, base: nat, field: HeaderField, index: nat, r: InsertionResult)
    requires Insertion(c, tracked, field) == Success(Some(index)) && Fits(c)
    requires var c' := AfterInsertion(c, tracked, field);
             c'.fields != [] && Registered(Trimmed(c'), base, field, index, r)
    ensures InsertionSound(c, AfterInsertion(c, tracked, field), base, field, r)
  {
    hide SizeOf, MinEvict, Fits, Put, FindName, Find, Get, Registered, Freeable;
    InsertionReplays(c, tracked, field);
    GrownShape(c, field);
    RegisteredInserts(c, tracked, base, field, index, r);
  }

  lemma RegisteredInserts(c: Core, tracked: Refs, base: nat, field: HeaderField, index: nat, r: InsertionResult)
    requires Insertion(c, tracked, field) == Success(Some(index))
    requires var c' := AfterInsertion(c, tracked, field);
             c'.fields != [] && Registered(Trimmed(c'), base, field, index, r)
    ensures InsertedField(c, InstructionOf(r, field)) == Success(field)
    ensures !r.NotInserted? && base < r.absolute == index && r.postbase == r.absolute - base - 1
  {
    hide SizeOf, MinEvict, Find, Get, FindName;
    var t := Trimmed(AfterInsertion(c, tracked, field));
    match r
    case Duplicated(relative, _, _) => NamesOfLiveEntry(c.Vas(), base, t.Inserted() - relative);
    case InsertedWithNameRef(_, relative, _) => NamesOfLiveEntry(c.Vas(), base, t.Inserted() - relative);
    case InsertedWithStaticNameRef(_, i, _) => FindSound(field);
    case _ =>
  }

  lemma OnlyCapacityError(c: Core, tracked: Refs, field: HeaderField)
    ensures Accepts(c, tracked, field) <==> Insertion(c, tracked, field) == Success(Some(c.Inserted() + 1))
    ensures !Accepts(c, tracked, field) <==>
              Insertion(c, tracked, field).Failure? || Insertion(c, tracked, field) == Success(None)
    ensures match Insertion(c, tracked, field)
            case Failure(e) => e == MaxTableSizeReached && AfterInsertion(c, tracked, field) == c
            case Success(None) => AfterInsertion(c, tracked, field) == c
            case Success(Some(index)) =>
              && index == c.Inserted() + 1 && field.MemSize() <= c.maxSize
              && AfterInsertion(c, tracked, field) == Grown(c, field)
  {
    hide MinEvict;
  }

  /** The references after an insertion counted its second entry, the one its description names. */
  function CountNamed(refs: Refs, r: InsertionResult): Refs {
    match r
    case Duplicated(relative, _, absolute) => if relative < absolute then Increment(refs, absolute - relative - 1) else refs
    case InsertedWithNameRef(_, relative, absolute) =>
      if relative < absolute then Increment(refs, absolute - relative - 1) else refs
    case _ => refs
  }

  /** The references after an insertion: the new entry and the one it names, or the one that was found. */
  function CountFor(refs: Refs, r: InsertionResult): Refs {
    match r
    case NotInserted(Relative(_, absolute)) => Increment(refs, absolute)
    case NotInserted(PostBase(_, absolute)) => Increment(refs, absolute)
    case NotInserted(_) => refs
    case _ => CountNamed(Increment(refs, r.absolute), r)
  }

  lemma NotInsertedSound(c: Core, base: nat, field: HeaderField, lookup: Lookup, refs: Refs)
    requires NameLookup(c, base, field.name, lookup)
    ensures InsertionSound(c, c, base, field, NotInserted(lookup))
    ensures CountFor(refs, NotInserted(lookup))
         == if lookup.NotFound? || lookup.Static? then refs else Increment(refs, lookup.absolute)
  {
    hide NameLookup, Increment;
  }

  lemma RegisteredCount(t: Core, base: nat, field: HeaderField, index: nat, r: InsertionResult, refs: Refs)
    requires Registered(t, base, field, index, r)
    ensures !r.NotInserted? && CountFor(refs, r) == CountNamed(Increment(refs, index), r)
  {
    hide Increment, CountNamed, FindName;
  }

  lemma CountForKeeps(refs: Refs, r: InsertionResult)
    ensures forall a :: a in refs ==> a in CountFor(refs, r)
    ensures !r.NotInserted? ==> r.absolute in CountFor(refs, r)
    ensures r.NotInserted? && (r.lookup.Relative? || r.lookup.PostBase?) ==> r.lookup.absolute in CountFor(refs, r)
  {
  }

  class TableEncoder {
    const table: D.DynamicTable
    const base: nat
    const streamId: nat
    var committed: bool
    var blockRefs: Refs
    // The table's reference counts when this encoder was made.
    ghost const startTracked: Refs

    ghost predicate Valid()
      reads this, table
    {
      && !committed && table.Valid(blockRefs) && base <= table.Inserted()
      && Positive(startTracked) && forall a :: Count(startTracked, a) == BlockCount(table.trackBlocks, a)
    }

    constructor (table: D.DynamicTable, streamId: nat)
      requires table.Valid(map[])
      modifies table`fieldMap, table`nameMap
      ensures Valid() && this.table == table && this.streamId == streamId && blockRefs == map[]
      ensures base == table.Inserted() - table.vas.dropped && startTracked == table.trackMap
    {
      hide SizeOf, IndexesFields, IndexesNames, BlockedExact, BlockCount;
      this.table := table;
      base := table.vas.LargestRef();
      this.streamId := streamId;
      committed, blockRefs, startTracked := false, map[], table.trackMap;
      new;
      table.Reindex();
    }

    method TrackRef(reference: nat)
      requires Conserved(table.Entries(), table.trackMap, table.trackBlocks, blockRefs)
      requires table.Entries().Live(reference)
      modifies `blockRefs, table`trackMap
      ensures Conserved(table.Entries(), table.trackMap, table.trackBlocks, blockRefs)
      ensures blockRefs == Increment(old(blockRefs), reference)
      ensures table.trackMap == Increment(old(table.trackMap), reference)
    {
      hide Conserved;
      ConservedTrack(table.Entries(), table.trackMap, table.trackBlocks, blockRefs, reference);
      if reference in blockRefs {
        blockRefs := blockRefs[reference := blockRefs[reference] + 1];
      } else {
        blockRefs := blockRefs[reference := 1];
      }
      table.TrackRef(reference);
    }

    method LookupResult(absolute: Option<nat>) returns (r: Lookup)
      requires Valid() && (absolute.Some? ==> table.Entries().Live(absolute.value))
      modifies `blockRefs, table`trackMap
      ensures Valid()
      ensures absolute.None? ==> table.trackMap == old(table.trackMap)
      ensures if absolute.None? then r == NotFound && blockRefs == old(blockRefs)
              else Names(base, r, absolute.value) && blockRefs == Increment(old(blockRefs), absolute.value)
    {
      hide SizeOf, IndexesFields, IndexesNames, BlockedExact, BlockCount, Conserved;
      match absolute {
        case Some(a) =>
          TrackRef(a);
          if a <= base {
            return Relative(base - a, a);
          }
          return PostBase(a - base - 1, a);
        case None => return NotFound;
      }
    }

    method Find(field: HeaderField) returns (r: Lookup)
      requires Valid()
      modifies `blockRefs, table`trackMap
      ensures Valid() && FieldLookup(table.Entries(), base, field, r)
      ensures blockRefs == if r.NotFound? then old(blockRefs) else Increment(old(blockRefs), r.absolute)
      ensures r.NotFound? ==> table.trackMap == old(table.trackMap)
    {
      hide SizeOf, IndexesNames, BlockedExact, BlockCount, Conserved, Fits;
      r := LookupResult(if field in table.fieldMap then Some(table.fieldMap[field]) else None);
    }

    method FindName(name: Bytes) returns (r: Lookup)
      requires Valid()
      modifies `blockRefs, table`trackMap
      ensures Valid() && NameLookup(table.Entries(), base, name, r)
      ensures blockRefs == if r.NotFound? || r.Static? then old(blockRefs) else Increment(old(blockRefs), r.absolute)
    {
      hide SizeOf, IndexesFields, BlockedExact, BlockCount, Conserved, Fits, Static.FindName;
      var index := Static.FindName(name);
      if index.Some? {
        return Static(index.value);
      }
      r := LookupResult(if name in table.nameMap then Some(table.nameMap[name]) else None);
    }

    /** Look the name up instead of inserting the field. */
    method LookUpInstead(field: HeaderField) returns (r: InsertionResult)
      requires Valid()
      modifies `blockRefs, table`trackMap
      ensures Valid() && r.NotInserted? && InsertionSound(table.Entries(), table.Entries(), base, field, r)
      ensures blockRefs == CountFor(old(blockRefs), r)
    {
      hide SizeOf, IndexesFields, IndexesNames, BlockedExact, BlockCount, Conserved, Fits;
      hide NameLookup, Static.FindName, Increment, CountFor, InsertionSound;
      ghost var refs := blockRefs;
      var lookup := FindName(field.name);
      NotInsertedSound(table.Entries(), base, field, lookup, refs);
      r := NotInserted(lookup);
    }

    /** Insert the field unless too many blocks may be blocked already, or there is no room; then only
        look its name up. An insertion fails for no other reason. */
    method Insert(field: HeaderField) returns (r: InsertionResult)
      requires Valid()
      modifies `blockRefs, table`trackMap, table`fields, table`currSize, table`vas, table`fieldMap, table`nameMap
      ensures Valid() && InsertionSound(old(table.Entries()), table.Entries(), base, field, r)
      ensures table.Entries().maxSize == old(table.maxSize)
      ensures r.NotInserted? <==>
                table.blockedCount >= table.blockedMax || !old(Accepts(table.Entries(), table.trackMap, field))
      ensures blockRefs == CountFor(old(blockRefs), r)
    {
      hide SizeOf, IndexesFields, IndexesNames, BlockedExact, BlockCount, Conserved, Fits;
      hide Insertion, AfterInsertion, Accepts, Apply, NameLookup, Static.FindName;
      hide Increment, CountNamed, CountFor, Registered, InsertionSound;
      ghost var (before, tracked, refs) := (table.Entries(), table.trackMap, blockRefs);
      if table.blockedCount >= table.blockedMax {
        r := LookUpInstead(field);
        return;
      }
      ConservedParts(before, tracked, table.trackBlocks, refs);
      ConservedInsertion(before, tracked, table.trackBlocks, refs, field);
      OnlyCapacityError(before, tracked, field);
      var inserted := table.Insert(field);
      match inserted {
        case Failure(MaxTableSizeReached) =>
          r := LookUpInstead(field);
        case Success(None) =>
          r := LookUpInstead(field);
        case Success(Some(index)) =>
          GrownShape(before, field);
          TrackRef(index);
          r := Register(field, index);
          InsertionInstruction(before, tracked, base, field, index, r);
          RegisteredCount(Trimmed(table.Entries()), base, field, index, r, refs);
      }
    }

    /** Index the entry just appended, and answer how it is best described to the decoder; that may refer
        to an earlier entry, which is then counted too. */
    method Register(field: HeaderField, index: nat) returns (r: InsertionResult)
      requires !committed && base < index == table.Inserted()
      requires table.Counted() && Fits(table.Entries())
      requires Conserved(table.Entries(), table.trackMap, table.trackBlocks, blockRefs)
      requires BlockedExact(table.commits, table.largestKnownReceived, table.blockedCount, table.blockedStreams)
      requires Positive(startTracked) && forall a :: Count(startTracked, a) == BlockCount(table.trackBlocks, a)
      requires table.fields != [] && table.fields[|table.fields| - 1] == field
      requires IndexesFields(Trimmed(table.Entries()), table.fieldMap)
      requires IndexesNames(Trimmed(table.Entries()), table.nameMap)
      modifies `blockRefs, table`trackMap, table`fieldMap, table`nameMap
      ensures Valid() && Registered(Trimmed(table.Entries()), base, field, index, r)
      ensures blockRefs == CountNamed(old(blockRefs), r)
    {
      hide SizeOf, IndexesFields, IndexesNames, BlockedExact, BlockCount, Conserved, Fits, Static.FindName, Increment;
      hide Trimmed;
      TrimmedLive(table.Entries());
      r := Describe(field, index);
      match r {
        case Duplicated(relative, _, _) => TrackRef(index - relative - 1);
        case InsertedWithNameRef(_, relative, _) => TrackRef(index - relative - 1);
        case _ =>
      }
    }

    /** The index updates for the entry just appended. */
    method Describe(field: HeaderField, index: nat) returns (r: InsertionResult)
      requires base < index == table.Inserted() && table.Counted()
      requires table.fields != [] && table.fields[|table.fields| - 1] == field
      requires IndexesFields(Trimmed(table.Entries()), table.fieldMap)
      requires IndexesNames(Trimmed(table.Entries()), table.nameMap)
      modifies table`fieldMap, table`nameMap
      ensures table.Indexed() && Registered(Trimmed(table.Entries()), base, field, index, r)
    {
      hide SizeOf, IndexesFields, IndexesNames, Static.FindName, Trimmed, Registered;
      ghost var entries := table.Entries();
      var m, n := table.fieldMap, table.nameMap;
      TrimmedLive(entries);
      DescriptionRegistered(Trimmed(entries), m, n, base, field);
      table.fieldMap := table.fieldMap[field := index];
      if field in m {
        if field.name in table.nameMap {
          table.nameMap := table.nameMap[field.name := index];
        }
        r := Duplicated(index - m[field] - 1, index - base - 1, index);
      } else if Static.FindName(field.name).Some? {
        r := InsertedWithStaticNameRef(index - base - 1, Static.FindName(field.name).value, index);
      } else {
        table.nameMap := table.nameMap[field.name := index];
        if field.name in n {
          r := InsertedWithNameRef(index - base - 1, index - n[field.name] - 1, index);
        } else {
          r := Inserted(index - base - 1, index);
        }
      }
      AppendKeepsIndexes(entries, m, n, field, table.nameMap);
    }

    /** Hand the references over to the block and count it as possibly blocked. */
    method Commit(largest: nat)
      requires Valid()
      modifies `committed, table`trackBlocks, table`blockedCount, table`blockedStreams, table`commits
      ensures table.Valid(map[]) && committed
      ensures table.trackBlocks == Enqueue(old(table.trackBlocks), streamId, blockRefs)
      ensures table.commits == old(table.commits) + [largest]
    {
      hide SizeOf, IndexesFields, IndexesNames, BlockedExact, BlockCount, Conserved, Fits;
      ConservedCommit(table.Entries(), table.trackMap, table.trackBlocks, blockRefs, streamId);
      table.TrackBlock(streamId, blockRefs);
      table.RegisterBlocked(largest);
      committed := true;
    }

    /** An encoder given up before commit leaves the reference counts exactly as it found them. */
    method Drop()
      requires Valid()
      modifies table`trackMap
      ensures table.Valid(map[]) && table.trackMap == startTracked
    {
      hide SizeOf, IndexesFields, IndexesNames, BlockedExact, BlockCount, Fits, Covers, Subtract;
      ConservedDrop(table.Entries(), table.trackMap, table.trackBlocks, blockRefs);
      if !committed {
        var _ := table.TrackCancel(blockRefs);
      }
      CountsDetermine(table.trackMap, startTracked);
    }
  }

  lemma TrimmedLive(c: Core)
    requires c.fields != []
    ensures Trimmed(c).Inserted() == c.Inserted() - 1
    ensures forall a: nat :: Trimmed(c).Live(a) ==> c.Live(a) && a < c.Inserted() && c.At(a) == Trimmed(c).At(a)
  {
  }

  /** What the indexes say about one field. */
  lemma IndexSound(t: Core, m: map<HeaderField, nat>, n: map<Bytes, nat>, field: HeaderField)
    requires IndexesFields(t, m) && IndexesNames(t, n)
    ensures field in m ==> t.Live(m[field]) && t.At(m[field]) == field
    ensures field.name in n ==> t.Live(n[field.name]) && t.At(n[field.name]).name == field.name
    ensures field in m && field.name !in n ==> FindName(field.name).Some?
  {
    hide FindName;
  }
}
