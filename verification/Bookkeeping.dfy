/** The invariants that the dynamic table's hash indexes, reference counts and blocked-stream counters
    keep, stated over the values of those fields (h3/src/qpack/dynamic.rs). */
module Bookkeeping {
  import opened Octets
  import opened TableModel
  import opened QpackErrors
  import opened Static = StaticTable

  // ------------------------------------------------------------ hash indexes

  /** The field index names the newest live entry of every live field, and nothing else. */
  ghost predicate IndexesFields(c: Core, m: map<HeaderField, nat>) {
    && (forall f :: f in m ==> c.Live(m[f]) && c.At(m[f]) == f)
    && (forall a :: c.Live(a) ==> c.At(a) in m && a <= m[c.At(a)])
  }

  /** The name index names a live entry of that name: for names outside the static table, the newest,
      and every live one has an entry. */
  ghost predicate IndexesNames(c: Core, m: map<Bytes, nat>) {
    && (forall n :: n in m ==> c.Live(m[n]) && c.At(m[n]).name == n)
    && (forall a :: c.Live(a) && FindName(c.At(a).name).None? ==>
          c.At(a).name in m && a <= m[c.At(a).name])
  }

  function DropField(m: map<HeaderField, nat>, f: HeaderField, dropped: nat): map<HeaderField, nat> {
    if f in m && m[f] <= dropped then m - {f} else m
  }

  function DropName(m: map<Bytes, nat>, n: Bytes, dropped: nat): map<Bytes, nat> {
    if n in m && m[n] <= dropped then m - {n} else m
  }

  /** The table without its newest entry. */
  function Trimmed(c: Core): Core
    requires c.fields != []
  {
    c.(fields := c.fields[..|c.fields| - 1])
  }

  lemma EvictKeepsFields(c: Core, m: map<HeaderField, nat>)
    requires c.fields != [] && IndexesFields(c, m)
    ensures IndexesFields(Evict(c, 1), DropField(m, c.fields[0], c.dropped + 1))
    ensures forall f :: f in m ==> m[f] > 0
  {
    var e := Evict(c, 1);
    assert forall a :: e.Live(a) ==> c.Live(a) && e.At(a) == c.At(a);
    assert c.At(c.dropped + 1) == c.fields[0];
  }

  lemma EvictKeepsNames(c: Core, m: map<Bytes, nat>)
    requires c.fields != [] && IndexesNames(c, m)
    ensures IndexesNames(Evict(c, 1), DropName(m, c.fields[0].name, c.dropped + 1))
    ensures forall n :: n in m ==> m[n] > 0
  {
    hide FindName;
    var e := Evict(c, 1);
    assert forall a :: e.Live(a) ==> c.Live(a) && e.At(a) == c.At(a);
    assert c.At(c.dropped + 1) == c.fields[0];
  }

  lemma AppendKeepsFields(c: Core, m: map<HeaderField, nat>, f: HeaderField)
    requires IndexesFields(c, m)
    ensures var c' := c.(fields := c.fields + [f]); IndexesFields(c', m[f := c'.Inserted()])
  {
    var c' := c.(fields := c.fields + [f]);
    assert forall a :: c.Live(a) ==> c'.Live(a) && c'.At(a) == c.At(a);
    assert c'.At(c'.Inserted()) == f;
  }

  lemma AppendKeepsNames(c: Core, m: map<Bytes, nat>, f: HeaderField, m': map<Bytes, nat>)
    requires IndexesNames(c, m)
    requires m' == m[f.name := c.Inserted() + 1] || (m' == m && FindName(f.name).Some?)
    ensures IndexesNames(c.(fields := c.fields + [f]), m')
  {
    hide FindName;
    var c' := c.(fields := c.fields + [f]);
    assert forall a :: c.Live(a) ==> c'.Live(a) && c'.At(a) == c.At(a);
    assert c'.At(c'.Inserted()) == f;
  }

  /** Appending an entry, with the index updates of every insertion. */
  lemma AppendKeepsIndexes(c: Core, m: map<HeaderField, nat>, n: map<Bytes, nat>, f: HeaderField, n': map<Bytes, nat>)
    requires c.fields != [] && c.fields[|c.fields| - 1] == f
    requires IndexesFields(Trimmed(c), m) && IndexesNames(Trimmed(c), n)
    requires n' == n[f.name := c.Inserted()] || (n' == n && FindName(f.name).Some?)
    ensures IndexesFields(c, m[f := c.Inserted()]) && IndexesNames(c, n')
  {
    hide IndexesFields, IndexesNames, FindName;
    var t := Trimmed(c);
    assert c == t.(fields := t.fields + [f]);
    AppendKeepsFields(t, m, f);
    AppendKeepsNames(t, n, f, n');
  }

  /** Re-indexing has reached entry number i, oldest first. */
  ghost predicate FieldsUpTo(c: Core, m: map<HeaderField, nat>, i: nat) {
    && (forall f :: f in m ==> c.Live(m[f]) && c.At(m[f]) == f)
    && (forall a: nat :: c.Live(a) && a <= c.dropped + i ==> c.At(a) in m && a <= m[c.At(a)])
  }

  ghost predicate NamesUpTo(c: Core, m: map<Bytes, nat>, i: nat) {
    && (forall n :: n in m ==> c.Live(m[n]) && c.At(m[n]).name == n)
    && (forall a: nat :: c.Live(a) && a <= c.dropped + i ==> c.At(a).name in m && a <= m[c.At(a).name])
  }

  lemma UpToStart(c: Core, m: map<HeaderField, nat>, n: map<Bytes, nat>)
    requires IndexesFields(c, m) && IndexesNames(c, n)
    ensures FieldsUpTo(c, m, 0) && NamesUpTo(c, n, 0)
  {
    hide FindName;
  }

  lemma UpToNext(c: Core, m: map<HeaderField, nat>, n: map<Bytes, nat>, i: nat)
    requires i < |c.fields| && FieldsUpTo(c, m, i) && NamesUpTo(c, n, i)
    ensures FieldsUpTo(c, m[c.fields[i] := c.dropped + i + 1], i + 1)
    ensures NamesUpTo(c, n[c.fields[i].name := c.dropped + i + 1], i + 1)
  {
    assert c.At(c.dropped + i + 1) == c.fields[i];
  }

  lemma UpToEnd(c: Core, m: map<HeaderField, nat>, n: map<Bytes, nat>)
    requires FieldsUpTo(c, m, |c.fields|) && NamesUpTo(c, n, |c.fields|)
    ensures IndexesFields(c, m) && IndexesNames(c, n)
  {
    hide FindName;
  }

  // -------------------------------------------------------- reference counts

  type Refs = map<nat, nat>

  function Count(m: Refs, a: nat): nat {
    if a in m then m[a] else 0
  }

  function Increment(m: Refs, a: nat): Refs {
    m[a := Count(m, a) + 1]
  }

  predicate Positive(m: Refs) {
    forall a :: a in m ==> m[a] > 0
  }

  /** Every reference of `refs` is counted in `m`. */
  ghost predicate Covers(m: Refs, refs: Refs) {
    forall a :: a in refs ==> refs[a] <= Count(m, a) && a in m
  }

  /** `m` without the references of `refs`; counts that reach zero disappear. */
  function Subtract(m: Refs, refs: Refs): Refs {
    map a | a in m && Count(refs, a) < m[a] :: m[a] - Count(refs, a)
  }

  function QueueCount(q: seq<Refs>, a: nat): nat {
    if q == [] then 0 else Count(q[0], a) + QueueCount(q[1..], a)
  }

  type Blocks = map<nat, seq<Refs>>

  /** How often outstanding blocks refer to entry `a`. */
  ghost function BlockCount(blocks: Blocks, a: nat): nat
    decreases |blocks|
  {
    if blocks == map[] then 0 else
    var s :| s in blocks;
    QueueCount(blocks[s], a) + BlockCount(blocks - {s}, a)
  }

  lemma {:induction false} BlockCountSplit(blocks: Blocks, s: nat, a: nat)
    requires s in blocks
    ensures BlockCount(blocks, a) == QueueCount(blocks[s], a) + BlockCount(blocks - {s}, a)
    decreases |blocks|
  {
    var t :| t in blocks && BlockCount(blocks, a) == QueueCount(blocks[t], a) + BlockCount(blocks - {t}, a);
    if t != s {
      BlockCountSplit(blocks - {t}, s, a);
      BlockCountSplit(blocks - {s}, t, a);
      assert blocks - {t} - {s} == blocks - {s} - {t};
    }
  }

  lemma {:induction false} QueueCountConcat(p: seq<Refs>, q: seq<Refs>, a: nat)
    ensures QueueCount(p + q, a) == QueueCount(p, a) + QueueCount(q, a)
  {
    if p == [] {
      assert p + q == q;
    } else {
      assert (p + q)[1..] == p[1..] + q;
      QueueCountConcat(p[1..], q, a);
    }
  }

  /** Append to the queue of a stream. */
  function Enqueue<T>(blocks: map<nat, seq<T>>, s: nat, item: T): map<nat, seq<T>> {
    blocks[s := (if s in blocks then blocks[s] else []) + [item]]
  }

  /** Drop the oldest of a stream's queue, and the queue with its last item. */
  function Dequeue<T>(blocks: map<nat, seq<T>>, s: nat): map<nat, seq<T>>
    requires s in blocks && blocks[s] != []
  {
    if |blocks[s]| > 1 then blocks[s := blocks[s][1..]] else blocks - {s}
  }

  lemma EnqueueCount(blocks: Blocks, s: nat, refs: Refs, a: nat)
    ensures BlockCount(Enqueue(blocks, s, refs), a) == BlockCount(blocks, a) + Count(refs, a)
  {
    var after := Enqueue(blocks, s, refs);
    BlockCountSplit(after, s, a);
    QueueCountConcat(if s in blocks then blocks[s] else [], [refs], a);
    assert after - {s} == blocks - {s};
    if s in blocks {
      BlockCountSplit(blocks, s, a);
    } else {
      assert blocks - {s} == blocks;
    }
  }

  lemma DequeueCount(blocks: Blocks, s: nat, a: nat)
    requires s in blocks && blocks[s] != []
    ensures BlockCount(blocks, a) == Count(blocks[s][0], a) + BlockCount(Dequeue(blocks, s), a)
  {
    var after := Dequeue(blocks, s);
    BlockCountSplit(blocks, s, a);
    if |blocks[s]| > 1 {
      BlockCountSplit(after, s, a);
      assert after - {s} == blocks - {s};
    }
  }

  /** Reference counts are conserved: the table's counts are those of the outstanding blocks plus those
      of the encoder at work; and only live entries are counted. */
  ghost predicate Conserved(c: Core, tracked: Refs, blocks: Blocks, working: Refs) {
    && Positive(tracked) && Positive(working)
    && (forall s :: s in blocks ==> blocks[s] != [] && forall i :: 0 <= i < |blocks[s]| ==> Positive(blocks[s][i]))
    && (forall a :: a in tracked ==> c.Live(a))
    && (forall a :: Count(tracked, a) == BlockCount(blocks, a) + Count(working, a))
  }

  lemma ConservedTrack(c: Core, tracked: Refs, blocks: Blocks, working: Refs, a: nat)
    requires Conserved(c, tracked, blocks, working) && c.Live(a)
    ensures Conserved(c, Increment(tracked, a), blocks, Increment(working, a))
  {
    hide BlockCount;
  }

  /** Committing hands the encoder's references over to the block. */
  lemma ConservedCommit(c: Core, tracked: Refs, blocks: Blocks, working: Refs, s: nat)
    requires Conserved(c, tracked, blocks, working)
    ensures Conserved(c, tracked, Enqueue(blocks, s, working), map[])
  {
    hide BlockCount;
    forall a ensures Count(tracked, a) == BlockCount(Enqueue(blocks, s, working), a) + Count(map[], a) {
      EnqueueCount(blocks, s, working, a);
    }
  }

  /** The references of an uncommitted encoder can always be given back, and that undoes them. */
  lemma ConservedDrop(c: Core, tracked: Refs, blocks: Blocks, working: Refs)
    requires Conserved(c, tracked, blocks, working)
    ensures Covers(tracked, working) && Conserved(c, Subtract(tracked, working), blocks, map[])
  {
    hide BlockCount;
    assert forall a :: a in working ==> Count(tracked, a) == BlockCount(blocks, a) + Count(working, a);
    forall a ensures Count(Subtract(tracked, working), a) == BlockCount(blocks, a) + Count(map[], a) {
      assert Count(tracked, a) == BlockCount(blocks, a) + Count(working, a);
    }
  }

  /** The references of an outstanding block can always be given back. */
  lemma ConservedUntrack(c: Core, tracked: Refs, blocks: Blocks, working: Refs, s: nat)
    requires Conserved(c, tracked, blocks, working) && s in blocks
    ensures Covers(tracked, blocks[s][0])
    ensures Conserved(c, Subtract(tracked, blocks[s][0]), Dequeue(blocks, s), working)
  {
    hide BlockCount;
    var refs := blocks[s][0];
    forall a
      ensures Count(tracked, a) == Count(refs, a) + BlockCount(Dequeue(blocks, s), a) + Count(working, a)
    {
      DequeueCount(blocks, s, a);
    }
    assert forall a :: a in refs ==> Count(tracked, a) >= Count(refs, a);
    forall a
      ensures Count(Subtract(tracked, refs), a) == BlockCount(Dequeue(blocks, s), a) + Count(working, a)
    {
      assert Count(tracked, a) == Count(refs, a) + BlockCount(Dequeue(blocks, s), a) + Count(working, a);
    }
  }

  /** Every entry an outstanding block refers to is tracked. */
  lemma OutstandingTracked(c: Core, tracked: Refs, blocks: Blocks, working: Refs, s: nat, i: nat, a: nat)
    requires Conserved(c, tracked, blocks, working) && s in blocks && i < |blocks[s]| && a in blocks[s][i]
    ensures a in tracked && c.Live(a)
  {
    hide BlockCount;
    BlockCountSplit(blocks, s, a);
    QueueCountAt(blocks[s], i, a);
    assert Count(tracked, a) == BlockCount(blocks, a) + Count(working, a);
  }

  /** Every entry the encoder at work refers to is live. */
  lemma WorkingLive(c: Core, tracked: Refs, blocks: Blocks, working: Refs, a: nat)
    requires Conserved(c, tracked, blocks, working) && a in working
    ensures a in tracked && c.Live(a)
  {
    hide BlockCount;
    assert Count(tracked, a) == BlockCount(blocks, a) + Count(working, a);
  }

  lemma {:induction false} QueueCountAt(q: seq<Refs>, i: nat, a: nat)
    requires i < |q|
    ensures QueueCount(q, a) >= Count(q[i], a)
  {
    if i > 0 {
      QueueCountAt(q[1..], i - 1, a);
    }
  }

  /** Positive counts are determined by how often each entry is counted. */
  lemma CountsDetermine(m: Refs, m': Refs)
    requires Positive(m) && Positive(m') && forall a :: Count(m, a) == Count(m', a)
    ensures m == m'
  {
    assert forall a :: a in m <==> Count(m, a) > 0;
    assert forall a :: a in m' <==> Count(m', a) > 0;
  }

  lemma ConservedShift(c: Core, c': Core, tracked: Refs, blocks: Blocks, working: Refs)
    requires Conserved(c, tracked, blocks, working)
    requires forall a :: a in tracked ==> c'.Live(a)
    ensures Conserved(c', tracked, blocks, working)
  {
    hide BlockCount;
  }

  // ---------------------------------------------------------------- eviction

  /** How many entries must go to make room for `required`, if none of them is tracked. */
  ghost function Freeable(c: Core, tracked: Refs, required: nat): Result<Option<nat>, TableError> {
    if required > c.maxSize then Failure(MaxTableSizeReached) else
    var n := MinEvict(c.fields, c.maxSize - required);
    if exists a :: a in tracked && c.dropped < a <= c.dropped + n then Success(None) else Success(Some(n))
  }

  lemma FreeableBound(c: Core, tracked: Refs, required: nat)
    ensures var r := Freeable(c, tracked, required);
            r.Success? && r.value.Some? ==>
              && r.value.value <= |c.fields|
              && r.value.value == MinEvict(c.fields, c.maxSize - required)
              && forall a :: a in tracked && c.Live(a) ==> Evict(c, r.value.value).Live(a)
  {
    hide MinEvict;
  }

  /** What an insertion answers: the new entry's absolute index, None when there is no room for it now. */
  ghost function Insertion(c: Core, tracked: Refs, field: HeaderField): (r: Result<Option<nat>, TableError>) {
    if c.maxSize == 0 then Success(None) else
    match Freeable(c, tracked, field.MemSize())
    case Failure(e) => Failure(e)
    case Success(None) => Success(None)
    case Success(Some(_)) => Success(Some(c.Inserted() + 1))
  }

  ghost predicate Accepts(c: Core, tracked: Refs, field: HeaderField) {
    Insertion(c, tracked, field).Success? && Insertion(c, tracked, field).value.Some?
  }

  /** An insertion is refused exactly when the capacity is zero, the field is larger than the capacity,
      or one of the oldest entries that must go is tracked. */
  lemma InsertionRefused(c: Core, tracked: Refs, field: HeaderField)
    ensures Accepts(c, tracked, field) <==>
            && c.maxSize != 0 && field.MemSize() <= c.maxSize
            && forall a :: c.dropped < a <= c.dropped + MinEvict(c.fields, c.maxSize - field.MemSize()) ==> a !in tracked
  {
    hide MinEvict;
  }

  /** The table after an attempt to insert. */
  ghost function AfterInsertion(c: Core, tracked: Refs, field: HeaderField): (c': Core) {
    if Insertion(c, tracked, field).Success? && Insertion(c, tracked, field).value.Some? then Grown(c, field) else c
  }

  lemma GrownAppends(c: Core, field: HeaderField, n: nat)
    requires field.MemSize() <= c.maxSize && n <= |c.fields| && n == MinEvict(c.fields, c.maxSize - field.MemSize())
    ensures Grown(c, field) == Evict(c, n).(fields := c.fields[n..] + [field])
    ensures Grown(c, field).fields != [] && Trimmed(Grown(c, field)) == Evict(c, n)
  {
    hide MinEvict;
  }

  lemma InsertionCases(c: Core, tracked: Refs, field: HeaderField)
    ensures c.maxSize == 0 ==> Insertion(c, tracked, field) == Success(None) && AfterInsertion(c, tracked, field) == c
    ensures c.maxSize > 0 ==>
              match Freeable(c, tracked, field.MemSize())
              case Failure(e) => Insertion(c, tracked, field) == Failure(e) && AfterInsertion(c, tracked, field) == c
              case Success(None) => Insertion(c, tracked, field) == Success(None) && AfterInsertion(c, tracked, field) == c
              case Success(Some(n)) =>
                && Insertion(c, tracked, field) == Success(Some(c.Inserted() + 1)) && field.MemSize() <= c.maxSize
                && AfterInsertion(c, tracked, field) == Grown(c, field)
                && n <= |c.fields| && n == MinEvict(c.fields, c.maxSize - field.MemSize())
  {
    hide MinEvict, Grown;
  }

  lemma GrownShape(c: Core, field: HeaderField)
    requires Fits(c) && field.MemSize() <= c.maxSize
    ensures var c' := Grown(c, field);
            Fits(c') && c'.Inserted() == c.Inserted() + 1 && c'.fields != []
    ensures Grown(c, field).At(c.Inserted() + 1) == field
  {
    hide MinEvict, SizeOf;
    var kept := Evict(c, MinEvict(c.fields, c.maxSize - field.MemSize()));
    SizeOfConcat(kept.fields, [field]);
    SizeOfOne(field);
  }

  /** Without tracked entries an insertion does what replaying it does. */
  lemma InsertionUntracked(c: Core, field: HeaderField)
    ensures match Put(c, field)
            case Success(c') => Insertion(c, map[], field).Success? && AfterInsertion(c, map[], field) == c'
            case Failure(e) => Insertion(c, map[], field) == Failure(e) && AfterInsertion(c, map[], field) == c
  {
    hide MinEvict, SizeOf;
  }

  /** With tracked entries it either does what replaying it does, or nothing. */
  lemma InsertionReplays(c: Core, tracked: Refs, field: HeaderField)
    requires Insertion(c, tracked, field) == Success(Some(c.Inserted() + 1))
    ensures Put(c, field) == Success(AfterInsertion(c, tracked, field))
  {
    hide MinEvict, SizeOf;
  }

  /** What a change of capacity leaves behind. When a tracked entry is in the way the capacity is lowered
      all the same, and the entries no longer fit. */
  ghost function AfterResize(c: Core, tracked: Refs, size: nat): (c': Core) {
    if size > MAX_CAPACITY then c
    else if size < c.maxSize && Freeable(c, tracked, c.maxSize - size) != Success(None) then
      Evict(c, MinEvict(c.fields, size)).(maxSize := size)
    else c.(maxSize := size)
  }

  /** The entries fit the new capacity exactly when no tracked entry was in the way, and then the change
      does what replaying it does. */
  lemma ResizeFits(c: Core, tracked: Refs, size: nat)
    requires Fits(c) && size <= MAX_CAPACITY
    ensures var unobstructed := size >= c.maxSize || Freeable(c, tracked, c.maxSize - size) != Success(None);
            && (Fits(AfterResize(c, tracked, size)) <==> unobstructed)
            && (unobstructed ==> Resize(c, size) == Success(AfterResize(c, tracked, size)))
  {
    hide SizeOf;
    assert c.fields[0..] == c.fields;
  }

  /** One tracked entry of 34 octets, and a capacity lowered to zero: the entry stays, and does not fit. */
  lemma LoweredBelowContents()
    ensures var field := HeaderField([97], [98]);
            var c := Core([field], 0, 64);
            Fits(c) && AfterResize(c, map[1 := 1], 0) == Core([field], 0, 0) && !Fits(Core([field], 0, 0))
  {
    var field := HeaderField([97], [98]);
    SizeOfOne(field);
    var c := Core([field], 0, 64);
    assert c.fields[0..] == c.fields;
    assert MinEvict(c.fields, 0) == 1;
    assert 1 in map[1 := 1];
  }

  lemma ResizeLive(c: Core, tracked: Refs, size: nat, a: nat)
    requires a in tracked && c.Live(a)
    ensures AfterResize(c, tracked, size).Live(a)
  {
    hide SizeOf, MinEvict;
  }

  lemma ConservedParts(c: Core, tracked: Refs, blocks: Blocks, working: Refs)
    requires Conserved(c, tracked, blocks, working)
    ensures Positive(tracked) && Positive(working)
    ensures forall s :: s in blocks ==> blocks[s] != []
  {
  }

  lemma ConservedInsertion(c: Core, tracked: Refs, blocks: Blocks, working: Refs, field: HeaderField)
    requires Conserved(c, tracked, blocks, working)
    ensures Conserved(AfterInsertion(c, tracked, field), tracked, blocks, working)
  {
    hide BlockCount, MinEvict;
    FreeableBound(c, tracked, field.MemSize());
    ConservedShift(c, AfterInsertion(c, tracked, field), tracked, blocks, working);
  }

  lemma ConservedResize(c: Core, tracked: Refs, blocks: Blocks, working: Refs, size: nat)
    requires Conserved(c, tracked, blocks, working)
    ensures Conserved(AfterResize(c, tracked, size), tracked, blocks, working)
  {
    hide BlockCount, AfterResize;
    forall a | a in tracked ensures AfterResize(c, tracked, size).Live(a) {
      ResizeLive(c, tracked, size, a);
    }
    ConservedShift(c, AfterResize(c, tracked, size), tracked, blocks, working);
  }

  lemma FreeableSucceeds(c: Core, tracked: Refs, size: nat)
    ensures size <= c.maxSize ==>
              var r := Freeable(c, tracked, c.maxSize - size);
              r.Success? && (r.value.Some? ==> r.value.value == MinEvict(c.fields, size))
  {
    hide MinEvict;
  }

  lemma IndexesIgnoreSize(c: Core, m: map<HeaderField, nat>, n: map<Bytes, nat>, size: nat)
    requires IndexesFields(c, m) && IndexesNames(c, n)
    ensures IndexesFields(c.(maxSize := size), m) && IndexesNames(c.(maxSize := size), n)
  {
    hide FindName;
    var c' := c.(maxSize := size);
    assert forall a :: c.Live(a) <==> c'.Live(a);
    assert forall a :: c.Live(a) ==> c.At(a) == c'.At(a);
  }

  // -------------------------------------------------------- blocked streams

  /** How many committed blocks still refer beyond what the decoder is known to have received. */
  function Above(commits: seq<nat>, mark: nat): (n: nat) {
    if commits == [] then 0
    else Above(commits[..|commits| - 1], mark) + if commits[|commits| - 1] > mark then 1 else 0
  }

  /** The counters per largest reference, kept only above the mark. */
  function Pending(commits: seq<nat>, mark: nat): (m: Refs) {
    map k | k in commits && k > mark :: multiset(commits)[k]
  }

  ghost function Sum(m: Refs): (n: nat)
    decreases |m|
  {
    if m == map[] then 0 else
    var k :| k in m;
    m[k] + Sum(m - {k})
  }

  lemma {:induction false} SumSplit(m: Refs, k: nat)
    requires k in m
    ensures Sum(m) == m[k] + Sum(m - {k})
    decreases |m|
  {
    var t :| t in m && Sum(m) == m[t] + Sum(m - {t});
    if t != k {
      SumSplit(m - {t}, k);
      SumSplit(m - {k}, t);
      assert m - {t} - {k} == m - {k} - {t};
    }
  }

  lemma SumUpdate(m: Refs, k: nat, v: nat)
    ensures Sum(m[k := v]) == Sum(m) - Count(m, k) + v
  {
    SumSplit(m[k := v], k);
    assert m[k := v] - {k} == m - {k};
    if k in m {
      SumSplit(m, k);
    } else {
      assert m - {k} == m;
    }
  }

  lemma PendingAppend(commits: seq<nat>, largest: nat, mark: nat)
    ensures Pending(commits + [largest], mark)
         == if largest > mark then Increment(Pending(commits, mark), largest) else Pending(commits, mark)
  {
    var p := Pending(commits, mark);
    assert multiset(commits + [largest]) == multiset(commits)[largest := multiset(commits)[largest] + 1];
    assert largest > mark ==> Count(p, largest) == multiset(commits)[largest];
  }

  /** The counter is the number of commits above the mark and the sum of the per-reference counters. */
  lemma {:induction false} PendingSum(commits: seq<nat>, mark: nat)
    ensures Sum(Pending(commits, mark)) == Above(commits, mark)
  {
    if commits == [] {
    } else {
      var front, last := commits[..|commits| - 1], commits[|commits| - 1];
      assert commits == front + [last];
      PendingSum(front, mark);
      PendingAppend(front, last, mark);
      if last > mark {
        SumUpdate(Pending(front, mark), last, Count(Pending(front, mark), last) + 1);
      }
    }
  }

  lemma {:induction false} AboveZero(commits: seq<nat>, mark: nat)
    ensures Above(commits, mark) == 0 ==> Pending(commits, mark) == map[]
  {
    PendingSum(commits, mark);
    if Pending(commits, mark) != map[] {
      var k :| k in Pending(commits, mark);
      SumSplit(Pending(commits, mark), k);
    }
  }

  function AtMost(m: Refs, mark: nat): Refs {
    map k | k in m && k <= mark :: m[k]
  }

  function Beyond(m: Refs, mark: nat): Refs {
    map k | k in m && k > mark :: m[k]
  }

  lemma PartitionWithout(m: Refs, mark: nat, k: nat)
    requires k in m
    ensures k <= mark ==> AtMost(m, mark) - {k} == AtMost(m - {k}, mark) && Beyond(m, mark) == Beyond(m - {k}, mark)
    ensures k > mark ==> Beyond(m, mark) - {k} == Beyond(m - {k}, mark) && AtMost(m, mark) == AtMost(m - {k}, mark)
    ensures k <= mark ==> k in AtMost(m, mark) && AtMost(m, mark)[k] == m[k]
    ensures k > mark ==> k in Beyond(m, mark) && Beyond(m, mark)[k] == m[k]
  {
  }

  lemma {:induction false} SumPartition(m: Refs, mark: nat)
    ensures Sum(m) == Sum(AtMost(m, mark)) + Sum(Beyond(m, mark))
    decreases |m|
  {
    if m == map[] {
    } else {
      var k :| k in m;
      SumSplit(m, k);
      SumPartition(m - {k}, mark);
      PartitionWithout(m, mark, k);
      SumSplit(if k <= mark then AtMost(m, mark) else Beyond(m, mark), k);
    }
  }

  lemma PendingRaise(commits: seq<nat>, mark: nat, mark': nat)
    requires mark <= mark'
    ensures Beyond(Pending(commits, mark), mark') == Pending(commits, mark')
  {
  }

  lemma SumEmpty()
    ensures Sum(map[]) == 0
  {
  }

  lemma BeyondEmpty(mark: nat)
    ensures Beyond(map[], mark) == map[] && AtMost(map[], mark) == map[] && Sum(map[]) == 0
  {
  }

  /** The blocked-stream state that a history of commits and a mark determine. */
  ghost predicate BlockedExact(commits: seq<nat>, mark: nat, count: nat, streams: Refs) {
    streams == Pending(commits, mark) && count == Above(commits, mark)
  }
}
