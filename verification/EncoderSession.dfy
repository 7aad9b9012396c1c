/** The encoder in use: every call of it is a step of the runs about which the guarantees are stated. */
module EncoderSession {
  import opened Octets
  import opened TableModel
  import opened Bookkeeping
  import opened Instructions
  import opened QpackErrors
  import opened Sections
  import opened EncoderStream
  import opened QpackRun
  import opened Static = StaticTable
  import D = DynamicTable
  import E = Encoder

  class Session {
    const encoder: E.Encoder
    // Everything emitted on the encoder stream.
    var stream: Bytes
    ghost var states: seq<System>
    ghost var events: seq<Event>
    // The encoder's table right after each instruction it emitted.
    ghost var tables: seq<Core>

    /** The calls so far were a run, and it ended in the encoder's present state. */
    ghost predicate Valid()
      reads this, encoder.table
    {
      && encoder.table.Valid(map[])
      && Run(states, events) && states[|events|].enc == encoder.State()
      && stream == EncodeLog(states[|events|].log) && Snapshots(START, states[|events|].log, tables)
      && Counted()
    }

    /** The known received count is what the increments of the run add up to. */
    ghost predicate Counted()
      reads this, encoder.table
    {
      encoder.table.largestKnownReceived == Announced(events) && encoder.table.commits == Committed(events)
    }

    constructor ()
      ensures Valid() && fresh(encoder) && fresh(encoder.table)
    {
      var table := new D.DynamicTable();
      encoder := new E.Encoder(table);
      stream := [];
      states, events, tables := [System(State(START, map[], map[]), [], map[])], [], [];
      new;
      hide D.DynamicTable.Valid;
      EncodeLogNone();
      StartRun(states[0]);
      assert encoder.State() == State(START, map[], map[]);
    }

    ghost function Now(): System
      reads this
      requires |events| < |states|
    {
      states[|events|]
    }

    /** Encode a field section. It is outstanding from now on, and its octets are those of the block about
        which the guarantees speak. */
    method EncodeBlock(streamId: nat, fields: seq<HeaderField>) returns (block: Bytes)
      requires Valid() && (forall f :: f in fields ==> EncodableField(f))
      requires encoder.table.Inserted() + |fields| < LIMIT
      modifies this, encoder.table
      ensures Valid() && |events| == |old(events)| + 1
      ensures old(states) <= states && old(events) <= events && old(tables) <= tables
      ensures streamId in Now().pending && Now().pending[streamId] != []
      ensures var b := Now().pending[streamId][|Now().pending[streamId]| - 1];
              b.fields == fields && GoodOrigin(b.origin, b.section) && block == BlockBytes(b.origin, b.section)
    {
      hide Announced, Committed;
      hide Run, BlockEncoded, LogEncodable, EncodableField, EncodeLog, Snapshots, EncodeLines, Inv;
      hide D.DynamicTable.Indexed, Conserved, BlockedExact, Fits, SizeOf;
      RunInv(states, events, |events|);
      var required;
      ghost var section, refs, log, more;
      block, stream, required, section, refs, log, more := encoder.Encode(streamId, fields, [], stream);
      states, events := BlockRuns(states, events, encoder.State(), streamId, fields, section, refs, log, tables, more);
      tables := tables + more;
    }

    /** Change the capacity, when no tracked entry stands in the way. */
    method SetCapacity(size: nat)
      requires Valid() && size <= MAX_CAPACITY && Unobstructed(encoder.State(), size)
      modifies this, encoder.table
      ensures Valid() && |events| == |old(events)| + 1
      ensures old(states) <= states && old(events) <= events && old(tables) <= tables
      ensures encoder.table.maxSize == size
    {
      hide Run, EncodeLog, Unobstructed, AfterResize, Snapshots, Inv, Announced, Committed;
      hide D.DynamicTable.Indexed, Conserved, BlockedExact, Fits, SizeOf;
      RunInv(states, events, |events|);
      ghost var before := Now();
      var error;
      stream, error := encoder.SetDynamicTableSize(size, stream);
      ResizeShape(before.enc.core, before.enc.tracked, size);
      states, events := ResizeRuns(states, events, size, tables);
      tables := tables + [encoder.table.Entries()];
    }

    /** Say how many blocks may be blocked; without it nothing is ever inserted. */
    method SetMaxBlocked(max: nat) returns (error: Option<TableError>)
      requires Valid()
      modifies encoder.table`blockedMax
      ensures Valid() && (error == None ==> encoder.table.blockedMax == max)
    {
      hide Run, EncodeLog, IndexesFields, IndexesNames, Conserved, BlockedExact, Fits, SizeOf, Announced, Committed;
      error := encoder.table.SetMaxBlocked(max);
    }

    /** The blocks that may be blocked are the ones of the run that require more than its increments add up
        to, however blocks and feedback were interleaved. */
    lemma BlockedAreBeyond()
      requires Valid()
      ensures encoder.table.blockedCount == Above(Committed(events), Announced(events))
    {
      hide Run, EncodeLog, Snapshots, Announced, Committed, Above, Pending, Conserved, IndexesFields, IndexesNames, Fits;
      hide SizeOf;
    }

    /** Take in what the decoder sent: every instruction the encoder acts on is a step, up to the first
        error. What it does to the state, what it leaves unread and the error are those of OnFeedback. */
    method Receive(read: Bytes) returns (rest: Bytes, error: Option<EncoderError>)
      requires Valid()
      modifies this, encoder.table
      ensures Valid() && old(states) <= states
      ensures stream == old(stream) && tables == old(tables) && Now().log == old(Now().log)
      ensures old(NoEmptyQueue(Now().enc))
      ensures OnFeedback(old(Now().enc), old(encoder.table.largestKnownReceived), read)
           == Sections.Feedback.Feedback(Now().enc, encoder.table.largestKnownReceived, rest, error)
      ensures events == old(events) + AsEvents(ActedOn(old(Now().enc), read))
    {
      hide D.DynamicTable.Valid, Run, EncodeLog, OnFeedback, Snapshots, Announced, Committed, ActedOn, AsEvents;
      hide IncrementSum, NoEmptyQueue;
      RunLength(states, events);
      ghost var (before, known) := (Now(), encoder.table.largestKnownReceived);
      rest, error := encoder.OnDecoderRecv(read);
      KnownRises(before.enc, known, read);
      FeedbackCounts(events, ActedOn(before.enc, read));
      states, events := FeedbackRuns(states, events, known, read);
    }
  }

  /** Encoding a block is one more step of the run. */
  lemma BlockRuns(states: seq<System>, events: seq<Event>, enc: State, streamId: nat, fields: seq<HeaderField>,
                  section: Section, refs: Refs, log: seq<EncoderInstruction>, tables: seq<Core>, more: seq<Core>)
    returns (states': seq<System>, events': seq<Event>)
    requires Run(states, events) && |states| == |events| + 1 && Inv(states[|events|])
    requires BlockEncoded(states[|events|].enc, enc, streamId, fields, section, refs, log)
    requires LogEncodable(enc.core, fields, log) && |log| <= |fields|
    requires (forall f :: f in fields ==> EncodableField(f)) && states[|events|].enc.core.Inserted() + |fields| < LIMIT
    requires Snapshots(START, states[|events|].log, tables) && Snapshots(states[|events|].enc.core, log, more)
    ensures Run(states', events') && states <= states' && events <= events'
    ensures |states'| == |events'| + 1 == |states| + 1 && states'[|events'|].enc == enc
    ensures EncodeLog(states'[|events'|].log) == EncodeLog(states[|events|].log) + EncodeLog(log)
    ensures Snapshots(START, states'[|events'|].log, tables + more)
    ensures var p := states'[|events'|].pending;
            && streamId in p && p[streamId] != []
            && p[streamId][|p[streamId]| - 1]
               == Sent(fields, section, refs, Origin(enc.core.Inserted(), enc.core.maxSize))
    ensures GoodOrigin(Origin(enc.core.Inserted(), enc.core.maxSize), section)
    ensures Announced(events') == Announced(events) && Committed(events') == Committed(events) + [section.required]
  {
    hide Announced, Committed;
    hide Run, Next, BlockEncoded, LogEncodable, EncodableField, Conserved, EncodeLog, Snapshots, AllEncodable, Enqueue;
    hide Replay, Aligned, AllGood;
    var before := states[|events|];
    var sent := Sent(fields, section, refs, Origin(enc.core.Inserted(), enc.core.maxSize));
    var after := System(enc, before.log + log, Enqueue(before.pending, streamId, sent));
    var e := Event.Encode(streamId, fields, section, refs, log);
    CountsNext(events, e);
    BlockStep(before, e, after);
    ExtendRun(states, events, e, after);
    EnqueuedLast(before.pending, streamId, sent);
    EncodeLogConcat(before.log, log);
    SnapshotsConcat(START, before.log, tables, before.enc.core, log, more);
    states', events' := states + [after], events + [e];
  }

  lemma ResizeRuns(states: seq<System>, events: seq<Event>, size: nat, tables: seq<Core>)
    returns (states': seq<System>, events': seq<Event>)
    requires Run(states, events) && |states| == |events| + 1 && Inv(states[|events|])
    requires size <= MAX_CAPACITY && Unobstructed(states[|events|].enc, size)
    requires Snapshots(START, states[|events|].log, tables)
    ensures Run(states', events') && states <= states' && events <= events'
    ensures |states'| == |events'| + 1 == |states| + 1
    ensures var s := states[|events|];
            var core := AfterResize(s.enc.core, s.enc.tracked, size);
            && states'[|events'|].enc == s.enc.(core := core)
            && EncodeLog(states'[|events'|].log) == EncodeLog(s.log) + EncodeLog([SizeUpdate(size)])
            && Snapshots(START, states'[|events'|].log, tables + [core])
    ensures Announced(events') == Announced(events) && Committed(events') == Committed(events)
  {
    hide Announced, Committed;
    hide Run, Unobstructed, AfterResize, Conserved, EncodeLog, Snapshots, AllEncodable, Replay, Aligned, AllGood;
    var before := states[|events|];
    var e := Event.Resize(size);
    CountsNext(events, e);
    assert Committed(events) + [] == Committed(events);
    var core := AfterResize(before.enc.core, before.enc.tracked, size);
    var after := System(before.enc.(core := core), before.log + [SizeUpdate(size)], before.pending);
    assert Next(before, e, after);
    ExtendRun(states, events, e, after);
    EncodeLogConcat(before.log, [SizeUpdate(size)]);
    ResizeReplays(before.enc, size);
    SnapshotsAppend(START, before.log, tables, before.enc.core, [SizeUpdate(size)], core);
    states', events' := states + [after], events + [e];
  }

  lemma BlockStep(s: System, e: Event, s': System)
    requires Inv(s) && e.Encode?
    requires BlockEncoded(s.enc, s'.enc, e.streamId, e.fields, e.section, e.refs, e.more)
    requires LogEncodable(s'.enc.core, e.fields, e.more) && |e.more| <= |e.fields|
    requires (forall f :: f in e.fields ==> EncodableField(f)) && s.enc.core.Inserted() + |e.fields| < LIMIT
    requires s'.log == s.log + e.more
    requires s'.pending == Enqueue(s.pending, e.streamId,
               Sent(e.fields, e.section, e.refs, Origin(s'.enc.core.Inserted(), s'.enc.core.maxSize)))
    ensures Next(s, e, s')
    ensures GoodOrigin(Origin(s'.enc.core.Inserted(), s'.enc.core.maxSize), e.section)
  {
    hide LogEncodable, EncodableField, Sound, Encodes, Replay, Aligned, AllGood;
    ReplayInsertsAtMost(s.enc.core, e.more);
    FreshBlockGood(s.enc, s'.enc, e.streamId, e.fields, e.section, e.refs, e.more);
  }

  /** What the increments of a run add up to. */
  function Announced(events: seq<Event>): (n: nat) {
    if events == [] then 0 else
    Announced(events[..|events| - 1]) + match events[|events| - 1] case Feedback(i) => Raised(i) case _ => 0
  }

  /** The required counts of the blocks of a run, in order. */
  function Committed(events: seq<Event>): (counts: seq<nat>) {
    if events == [] then [] else
    Committed(events[..|events| - 1])
    + match events[|events| - 1] case Encode(_, _, section, _, _) => [section.required] case _ => []
  }

  lemma CountsNext(events: seq<Event>, e: Event)
    ensures Announced(events + [e]) == Announced(events) + (match e case Feedback(i) => Raised(i) case _ => 0)
    ensures Committed(events + [e])
         == Committed(events) + match e case Encode(_, _, section, _, _) => [section.required] case _ => []
  {
    assert (events + [e])[..|events|] == events;
  }

  /** One step per instruction. */
  function AsEvents(instructions: seq<DecoderInstruction>): (events: seq<Event>) {
    if instructions == [] then [] else [Event.Feedback(instructions[0])] + AsEvents(instructions[1..])
  }

  lemma {:induction false} FeedbackCounts(events: seq<Event>, instructions: seq<DecoderInstruction>)
    ensures Announced(events + AsEvents(instructions)) == Announced(events) + IncrementSum(instructions)
    ensures Committed(events + AsEvents(instructions)) == Committed(events)
    decreases |instructions|
  {
    hide Announced, Committed;
    if instructions == [] {
      assert events + [] == events;
    } else {
      var e := Event.Feedback(instructions[0]);
      CountsNext(events, e);
      FeedbackCounts(events + [e], instructions[1..]);
      assert Committed(events) + [] == Committed(events);
      assert events + AsEvents(instructions) == events + [e] + AsEvents(instructions[1..]);
    }
  }

  /** Every instruction the encoder acts on is a step; one it refuses changes nothing. */
  lemma {:induction false} FeedbackRuns(states: seq<System>, events: seq<Event>, known: nat, read: Bytes)
    returns (states': seq<System>, events': seq<Event>)
    requires Run(states, events) && NoEmptyQueue(states[|events|].enc)
    ensures Run(states', events') && states <= states'
    ensures events' == events + AsEvents(ActedOn(states[|events|].enc, read))
    ensures states'[|events'|].enc == OnFeedback(states[|events|].enc, known, read).state
    ensures states'[|events'|].log == states[|events|].log
    decreases |read|
  {
    hide Run, ParseDecoderInstruction, Acknowledged, NoEmptyQueue;
    RunLength(states, events);
    states', events' := states, events;
    ParseDecoderSuffix(read);
    var s := states[|events|];
    match ParseDecoderInstruction(read)
    case Parsed(i, rest) =>
      if Acknowledged(s.enc, i).Success? {
        var e := Event.Feedback(i);
        var after := System(Acknowledged(s.enc, i).value.0, s.log, SettledBy(s.pending, i));
        assert Next(s, e, after);
        ExtendRun(states, events, e, after);
        states', events' := FeedbackRuns(states + [after], events + [e], known + Acknowledged(s.enc, i).value.1, rest);
      }
    case _ =>
  }

  /** The two ends agree at every instruction, not only between calls: a decoder that has read exactly the
      first k instructions, cut anywhere, holds the table the encoder held right after it emitted the
      k-th, which may be in the middle of a block. */
  lemma InstructionAgreement(states: seq<System>, events: seq<Event>, tables: seq<Core>, k: nat, pieces: seq<Bytes>)
    requires Run(states, events) && |events| < |states| && Snapshots(START, states[|events|].log, tables)
    requires k < |tables| && Flatten(pieces) == EncodeLog(states[|events|].log[..k + 1])
    ensures Replay(START, states[|events|].log[..k + 1]).Success?
    ensures var fed := Feed(START, [], pieces);
            if PiecesFit(START, states[|events|].log[..k + 1], pieces) then
              && fed.error == None && fed.core == tables[k] && fed.unread == []
              && Total(fed.increments) == fed.core.Inserted()
            else fed.error.Some? && fed.error.value.IncrementTooLarge?
  {
    hide Run, Replay, Conserved, Feed, Flatten, Total, EncodeLog, AllGood, Aligned, PiecesFit;
    RunInv(states, events, |events|);
    assert Replay(START, states[|events|].log[..k + 1]) == Success(tables[k]);
    FragmentationIndependence(START, states[|events|].log[..k + 1], pieces);
  }

  lemma RunLength(states: seq<System>, events: seq<Event>)
    requires Run(states, events)
    ensures |states| == |events| + 1
  {
  }

  lemma StartRun(s: System)
    requires Init(s)
    ensures Run([s], [])
  {
    hide Next;
  }

  lemma ExtendRun(states: seq<System>, events: seq<Event>, e: Event, s': System)
    requires Run(states, events) && Next(states[|events|], e, s')
    ensures Run(states + [s'], events + [e])
  {
    hide Next;
    var (ss, es) := (states + [s'], events + [e]);
    forall i | 0 <= i < |es| ensures Next(ss[i], es[i], ss[i + 1]) {
      if i < |events| {
        assert Next(states[i], events[i], states[i + 1]);
      }
    }
  }
}
