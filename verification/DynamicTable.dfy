/** The dynamic table with its indexes, reference counts and blocked-stream counters
    (h3/src/qpack/dynamic.rs), sections 3.2 and 2.1 of RFC 9204. */
module DynamicTable {
  import opened Octets
  import opened AddressSpace
  import opened TableModel
  import opened Bookkeeping
  import opened QpackErrors
  import opened Static = StaticTable

  const MAX_BLOCKED := 65_535

  class DynamicTable {
    var fields: seq<HeaderField>
    var currSize: nat
    var maxSize: nat
    var vas: VirtualAddressSpace
    var fieldMap: map<HeaderField, nat>
    var nameMap: map<Bytes, nat>
    var trackMap: Refs
    var trackBlocks: Blocks
    var largestKnownReceived: nat
    var blockedMax: nat
    var blockedCount: nat
    var blockedStreams: Refs
    // The largest reference of every block committed so far.
    ghost var commits: seq<nat>

    function Entries(): Core
      reads this
    {
      Core(fields, vas.dropped, maxSize)
    }

    /** The counters agree with the entries. */
    ghost predicate Counted()
      reads this
    {
      vas.inserted == vas.dropped + |fields| && vas.delta == |fields| && currSize == SizeOf(fields)
    }

    ghost predicate Indexed()
      reads this
    {
      IndexesFields(Entries(), fieldMap) && IndexesNames(Entries(), nameMap)
    }

    /** Everything but the capacity; `working` are the references of the encoder at work. */
    ghost predicate Consistent(working: Refs)
      reads this
    {
      && Counted() && Indexed()
      && Conserved(Entries(), trackMap, trackBlocks, working)
      && BlockedExact(commits, largestKnownReceived, blockedCount, blockedStreams)
    }

    /** The invariant between operations. */
    ghost predicate Valid(working: Refs)
      reads this
    {
      Consistent(working) && Fits(Entries())
    }

    constructor ()
      ensures Valid(map[]) && Entries() == Core([], 0, 0)
      ensures trackBlocks == map[] && commits == [] && largestKnownReceived == 0
    {
      fields, currSize, maxSize := [], 0, 0;
      vas := VirtualAddressSpace(0, 0, 0);
      fieldMap, nameMap, trackMap, trackBlocks := map[], map[], map[], map[];
      largestKnownReceived, blockedMax, blockedCount, blockedStreams := 0, 0, 0, map[];
      commits := [];
    }

    predicate IsTracked(reference: nat)
      reads this
    {
      reference in trackMap && trackMap[reference] > 0
    }

    method TrackRef(reference: nat)
      modifies `trackMap
      ensures trackMap == Increment(old(trackMap), reference)
    {
      if reference in trackMap {
        trackMap := trackMap[reference := trackMap[reference] + 1];
      } else {
        trackMap := trackMap[reference := 1];
      }
    }

    /** How many of the oldest entries to evict for `required` octets; None if a tracked entry is in the way. */
    method CanFree(required: nat) returns (r: Result<Option<nat>, TableError>)
      requires Counted() && Fits(Entries()) && Positive(trackMap)
      ensures r == Freeable(Entries(), trackMap, required)
    {
      hide SizeOf, MinEvict;
      if required > maxSize {
        return Failure(MaxTableSizeReached);
      }
      ghost var n := MinEvict(fields, maxSize - required);
      assert fields[0..] == fields;
      if maxSize - currSize >= required {
        return Success(Some(0));
      }
      var lowerBound := maxSize - required;
      var hypotheticMemSize, evictable: nat := currSize, 0;
      while evictable < |fields| && hypotheticMemSize > lowerBound
            && !IsTracked(vas.ContainerIndex(evictable).value)
        invariant evictable <= n
        invariant hypotheticMemSize == SizeOf(fields[evictable..]) <= maxSize
        invariant forall a :: vas.dropped < a <= vas.dropped + evictable ==> a !in trackMap
      {
        SizeOfStep(fields, evictable);
        hypotheticMemSize := hypotheticMemSize - fields[evictable].MemSize();
        evictable := evictable + 1;
      }
      if required <= maxSize - hypotheticMemSize {
        return Success(Some(evictable));
      } else {
        assert evictable < n;
        assert vas.dropped + evictable + 1 in trackMap;
        return Success(None);
      }
    }

    /** Evict the `toEvict` oldest entries and forget their index entries. */
    method Evict(toEvict: nat)
      requires Counted() && toEvict <= |fields|
      requires Indexed()
      modifies `fields, `currSize, `vas, `fieldMap, `nameMap
      ensures Counted() && Entries() == TableModel.Evict(old(Entries()), toEvict)
      ensures Indexed()
    {
      hide SizeOf, IndexesFields, IndexesNames;
      for i := 0 to toEvict
        invariant Counted() && Entries() == TableModel.Evict(old(Entries()), i)
        invariant Indexed()
      {
        ghost var (before, fieldsBefore, namesBefore) := (Entries(), fieldMap, nameMap);
        EvictKeepsFields(before, fieldMap);
        EvictKeepsNames(before, nameMap);
        SizeOfStep(fields, 0);
        assert fields[0..] == fields;
        var field := fields[0];
        fields := fields[1..];
        currSize := currSize - field.MemSize();
        vas := vas.Drop();
        if field.name in nameMap && vas.Evicted(nameMap[field.name]) {
          nameMap := nameMap - {field.name};
        }
        if field in fieldMap && vas.Evicted(fieldMap[field]) {
          fieldMap := fieldMap - {field};
        }
        assert Entries() == TableModel.Evict(before, 1);
        assert nameMap == DropName(namesBefore, field.name, before.dropped + 1);
        assert fieldMap == DropField(fieldsBefore, field, before.dropped + 1);
      }
    }

    /** Make room and append; the indexes still describe the table without the new entry. */
    method Insert(field: HeaderField) returns (r: Result<Option<nat>, TableError>)
      requires Counted() && Indexed() && Fits(Entries()) && Positive(trackMap)
      modifies `fields, `currSize, `vas, `fieldMap, `nameMap
      ensures Counted() && Fits(Entries())
      ensures r == Insertion(old(Entries()), trackMap, field)
      ensures Entries() == AfterInsertion(old(Entries()), trackMap, field)
      ensures if r.Success? && r.value.Some? then
                && fields != [] && fields[|fields| - 1] == field && Inserted() == r.value.value
                && IndexesFields(Trimmed(Entries()), fieldMap) && IndexesNames(Trimmed(Entries()), nameMap)
              else Indexed() && unchanged(this)
    {
      hide SizeOf, MinEvict, IndexesFields, IndexesNames, Insertion, AfterInsertion, Freeable, Fits;
      InsertionCases(Entries(), trackMap, field);
      if maxSize == 0 {
        return Success(None);
      }
      var free := CanFree(field.MemSize());
      match free {
        case Failure(e) => return Failure(e);
        case Success(None) => return Success(None);
        case Success(Some(toEvict)) =>
          GrownShape(Entries(), field);
          GrownAppends(Entries(), field, toEvict);
          hide Grown, Trimmed;
          Evict(toEvict);
          SizeOfConcat(fields, [field]);
          SizeOfOne(field);
          currSize := currSize + field.MemSize();
          fields := fields + [field];
          vas := vas.Add();
          assert Entries() == Grown(old(Entries()), field);
          return Success(Some(vas.inserted));
      }
    }

    function Inserted(): nat
      reads this
    {
      vas.inserted
    }

    /** Insert on behalf of the peer's instruction. */
    method Put(field: HeaderField, ghost working: Refs) returns (error: Option<TableError>)
      requires Valid(working)
      modifies `fields, `currSize, `vas, `fieldMap, `nameMap
      ensures Valid(working)
      ensures Entries() == AfterInsertion(old(Entries()), trackMap, field)
      ensures error == match Insertion(old(Entries()), trackMap, field)
                       case Success(_) => None
                       case Failure(e) => Some(e)
    {
      hide SizeOf, MinEvict, IndexesFields, IndexesNames, Conserved, BlockedExact, Insertion, AfterInsertion;
      hide FindName, Fits, Trimmed;
      ConservedParts(Entries(), trackMap, trackBlocks, working);
      ConservedInsertion(Entries(), trackMap, trackBlocks, working, field);
      var r := Insert(field);
      match r {
        case Failure(e) => return Some(e);
        case Success(None) => return None;
        case Success(Some(index)) =>
          AppendKeepsIndexes(Entries(), fieldMap, nameMap, field,
            if FindName(field.name).Some? then nameMap else nameMap[field.name := index]);
          fieldMap := fieldMap[field := index];
          if FindName(field.name).Some? {
            return None;
          }
          nameMap := nameMap[field.name := index];
          return None;
      }
    }

    /** Change the capacity. The invariant survives exactly when no tracked entry was in the way. */
    method SetMaxSize(size: nat, ghost working: Refs) returns (error: Option<TableError>)
      requires Valid(working)
      modifies `fields, `currSize, `vas, `fieldMap, `nameMap, `maxSize
      ensures error == if size > MAX_CAPACITY then Some(MaximumTableSizeTooLarge) else None
      ensures Entries() == AfterResize(old(Entries()), trackMap, size)
      ensures Consistent(working)
      ensures Valid(working) <==> size > MAX_CAPACITY || size >= old(maxSize)
                                  || Freeable(old(Entries()), trackMap, old(maxSize) - size) != Success(None)
    {
      hide SizeOf, MinEvict, IndexesFields, IndexesNames, Conserved, BlockedExact, Freeable, Fits;
      ConservedParts(Entries(), trackMap, trackBlocks, working);
      if size > MAX_CAPACITY {
        return Some(MaximumTableSizeTooLarge);
      }
      ResizeFits(Entries(), trackMap, size);
      ConservedResize(Entries(), trackMap, trackBlocks, working, size);
      FreeableSucceeds(Entries(), trackMap, size);
      if size < maxSize {
        var free := CanFree(maxSize - size);
        match free {
          case Failure(e) => return Some(e);
          case Success(None) =>
          case Success(Some(toEvict)) => Evict(toEvict);
        }
      }
      ghost var before := Entries();
      maxSize := size;
      IndexesIgnoreSize(before, fieldMap, nameMap, size);
      return None;
    }

    method SetMaxBlocked(max: nat) returns (error: Option<TableError>)
      modifies `blockedMax
      ensures if max >= MAX_BLOCKED then error == Some(MaxBlockedStreamsTooLarge) && blockedMax == old(blockedMax)
              else error == None && blockedMax == max
    {
      if max >= MAX_BLOCKED {
        return Some(MaxBlockedStreamsTooLarge);
      }
      blockedMax := max;
      return None;
    }

    /** The entry a relative index of an instruction names. */
    method GetRelative(index: nat) returns (r: Result<HeaderField, DecoderError>)
      requires Counted()
      ensures r == AtPosition(Entries(), Entries().Vas().Relative(index))
    {
      hide SizeOf;
      match vas.Relative(index) {
        case Failure(e) => return Failure(TableFault(FromVas(e)));
        case Success(position) =>
          if position < |fields| {
            return Success(fields[position]);
          }
          return Failure(TableFault(BadIndex(position)));
      }
    }

    // ------------------------------------------------------ reference tracking

    method TrackBlock(streamId: nat, refs: Refs)
      modifies `trackBlocks
      ensures trackBlocks == Enqueue(old(trackBlocks), streamId, refs)
    {
      if streamId in trackBlocks {
        trackBlocks := trackBlocks[streamId := trackBlocks[streamId] + [refs]];
      } else {
        assert [] + [refs] == [refs];
        trackBlocks := trackBlocks[streamId := [refs]];
      }
    }

    /** Give references back; stops at the first one that was not counted. */
    method TrackCancel(refs: Refs) returns (ok: bool)
      requires Positive(trackMap)
      modifies `trackMap
      ensures ok <==> Covers(old(trackMap), refs)
      ensures ok ==> trackMap == Subtract(old(trackMap), refs)
    {
      var remaining := refs;
      while remaining != map[]
        invariant forall a :: a in remaining ==> a in refs && remaining[a] == refs[a]
        invariant forall a :: a in refs && a !in remaining ==> refs[a] <= Count(old(trackMap), a) && a in old(trackMap)
        invariant forall a ::
          Count(trackMap, a) == Count(old(trackMap), a) - if a in remaining then 0 else Count(refs, a)
        invariant Positive(trackMap)
        decreases |remaining|
      {
        var reference :| reference in remaining;
        var count := remaining[reference];
        assert Count(trackMap, reference) == Count(old(trackMap), reference);
        if reference !in trackMap {
          return false;
        }
        if trackMap[reference] < count {
          return false;
        } else if trackMap[reference] == count {
          trackMap := trackMap - {reference};
        } else {
          trackMap := trackMap[reference := trackMap[reference] - count];
        }
        remaining := remaining - {reference};
      }
      CountsDetermine(trackMap, Subtract(old(trackMap), refs));
      return true;
    }

    /** Forget the oldest outstanding block of a stream. */
    method UntrackBlock(streamId: nat, ghost working: Refs) returns (error: Option<TableError>)
      requires Consistent(working)
      modifies `trackMap, `trackBlocks
      ensures Consistent(working)
      ensures if streamId in old(trackBlocks) then
                && old(trackBlocks)[streamId] != []
                && error == None && trackBlocks == Dequeue(old(trackBlocks), streamId)
                && trackMap == Subtract(old(trackMap), old(trackBlocks)[streamId][0])
              else error == Some(UnknownStreamId(streamId)) && unchanged(this)
    {
      hide SizeOf, IndexesFields, IndexesNames, BlockedExact, Conserved, Subtract, Covers;
      ConservedParts(Entries(), trackMap, trackBlocks, working);
      if streamId !in trackBlocks {
        return Some(UnknownStreamId(streamId));
      }
      ConservedUntrack(Entries(), trackMap, trackBlocks, working, streamId);
      var refs := trackBlocks[streamId][0];
      if |trackBlocks[streamId]| > 1 {
        trackBlocks := trackBlocks[streamId := trackBlocks[streamId][1..]];
      } else {
        trackBlocks := trackBlocks - {streamId};
      }
      var ok := TrackCancel(refs);
      if !ok {
        return Some(InvalidTrackingCount);
      }
      return None;
    }

    // -------------------------------------------------------- blocked streams

    method RegisterBlocked(largest: nat)
      requires BlockedExact(commits, largestKnownReceived, blockedCount, blockedStreams)
      modifies `blockedCount, `blockedStreams, `commits
      ensures commits == old(commits) + [largest]
      ensures BlockedExact(commits, largestKnownReceived, blockedCount, blockedStreams)
    {
      hide Pending;
      PendingAppend(commits, largest, largestKnownReceived);
      commits := commits + [largest];
      if largest <= largestKnownReceived {
        return;
      }
      blockedCount := blockedCount + 1;
      if largest in blockedStreams {
        blockedStreams := blockedStreams[largest := blockedStreams[largest] + 1];
      } else {
        blockedStreams := blockedStreams[largest := 1];
      }
    }

    /** The decoder acknowledged `increment` more insertions. */
    method UpdateLargestReceived(increment: nat)
      requires BlockedExact(commits, largestKnownReceived, blockedCount, blockedStreams)
      modifies `largestKnownReceived, `blockedCount, `blockedStreams
      ensures largestKnownReceived == old(largestKnownReceived) + increment
      ensures BlockedExact(commits, largestKnownReceived, blockedCount, blockedStreams)
    {
      hide Pending, AtMost, Beyond, Sum, Above;
      ghost var (mark, pending) := (largestKnownReceived, blockedStreams);
      largestKnownReceived := largestKnownReceived + increment;
      PendingSum(commits, mark);
      PendingSum(commits, largestKnownReceived);
      PendingRaise(commits, mark, largestKnownReceived);
      SumPartition(pending, largestKnownReceived);
      if blockedCount == 0 {
        AboveZero(commits, mark);
        BeyondEmpty(largestKnownReceived);
        return;
      }
      var acked := AtMost(blockedStreams, largestKnownReceived);
      blockedStreams := Beyond(blockedStreams, largestKnownReceived);
      var totalAcked := Total(acked);
      blockedCount := blockedCount - totalAcked;
    }

    // ------------------------------------------------------------- encoding

    /** Index every entry again, oldest first, before a block is encoded. */
    method Reindex()
      requires Counted() && Indexed()
      modifies `fieldMap, `nameMap
      ensures Indexed() && NamesUpTo(Entries(), nameMap, |fields|)
    {
      hide SizeOf, IndexesFields, IndexesNames, FieldsUpTo, NamesUpTo;
      ghost var c := Entries();
      UpToStart(c, fieldMap, nameMap);
      for i := 0 to |fields|
        invariant FieldsUpTo(c, fieldMap, i) && NamesUpTo(c, nameMap, i)
      {
        UpToNext(c, fieldMap, nameMap, i);
        var absolute := vas.ContainerIndex(i).value;
        nameMap := nameMap[fields[i].name := absolute];
        fieldMap := fieldMap[fields[i] := absolute];
      }
      UpToEnd(c, fieldMap, nameMap);
    }
  }

  /** The fold over the acknowledged counters. */
  method Total(counts: Refs) returns (total: nat)
    ensures total == Sum(counts)
  {
    hide Sum;
    var remaining := counts;
    total := 0;
    while remaining != map[]
      invariant total + Sum(remaining) == Sum(counts)
      decreases |remaining|
    {
      var k :| k in remaining;
      SumSplit(remaining, k);
      total := total + remaining[k];
      remaining := remaining - {k};
    }
    SumEmpty();
  }

  lemma SizeOfStep(fields: seq<HeaderField>, i: nat)
    requires i < |fields|
    ensures SizeOf(fields[i..]) == fields[i].MemSize() + SizeOf(fields[i + 1..])
  {
    assert fields[i..][1..] == fields[i + 1..];
  }
}
