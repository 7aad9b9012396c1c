/** The encoder stream may arrive in any pieces (sections 4.2 and 4.3 of RFC 9204): the unread tail of one
    piece is presented again in front of the next. */
module EncoderStream {
  import opened Octets
  import opened TableModel
  import opened FieldLines
  import opened Instructions
  import opened QpackErrors
  import opened Sections
  import opened Decoder
  import opened Static = StaticTable

  ghost predicate AllEncodable(log: seq<EncoderInstruction>) {
    forall i :: i in log ==> EncodableInstruction(i)
  }

  lemma EncodeLogHead(log: seq<EncoderInstruction>)
    requires log != []
    ensures EncodeLog(log) == EncodeInstruction(log[0]) + EncodeLog(log[1..])
  {
    hide EncodeInstruction;
    assert log == [log[0]] + log[1..];
    EncodeLogConcat([log[0]], log[1..]);
    EncodeLogOne(log[0]);
  }

  lemma ReceiveOne(c: Core, i: EncoderInstruction, rest: Bytes)
    requires EncodableInstruction(i) && Apply(c, i).Success?
    ensures Receive(c, EncodeInstruction(i) + rest) == Receive(Apply(c, i).value, rest)
  {
    hide EncodeInstructionAs, EncodableInstructionAs, Receive, Apply;
    ReceiveOneAs(c, i, OWN, rest);
  }

  lemma ReceiveNothing(c: Core, i: EncoderInstruction, n: nat)
    requires EncodableInstruction(i) && n < |EncodeInstruction(i)|
    ensures Receive(c, EncodeInstruction(i)[..n]) == Received(c, EncodeInstruction(i)[..n], None)
  {
    hide ParseInstruction, EncodeInstruction, EncodableInstruction;
    InstructionPrefix(i, n);
  }

  lemma ReceiveEmpty(c: Core)
    ensures Receive(c, []) == Received(c, [], None)
  {
    hide ParseNameRef, ParseShort, ParseLiteralName;
  }

  /** How many whole instructions the first n octets of a stream hold. */
  ghost function Whole(log: seq<EncoderInstruction>, n: nat): (k: nat)
    ensures k <= |log|
    decreases |log|
  {
    if log == [] || n < |EncodeInstruction(log[0])| then 0 else 1 + Whole(log[1..], n - |EncodeInstruction(log[0])|)
  }

  /** They end at most n octets in, and the next instruction ends behind that. */
  lemma {:induction false} WholeBounds(log: seq<EncoderInstruction>, n: nat)
    ensures var k := Whole(log, n);
            && |EncodeLog(log[..k])| <= n
            && (k < |log| ==> n < |EncodeLog(log[..k])| + |EncodeInstruction(log[k])|)
    decreases |log|
  {
    hide EncodeInstruction, EncodeLog;
    EncodeLogNone();
    if log != [] && n >= |EncodeInstruction(log[0])| {
      WholeBounds(log[1..], n - |EncodeInstruction(log[0])|);
      var k := Whole(log, n);
      assert log[..k][1..] == log[1..][..k - 1];
      EncodeLogHead(log[..k]);
    }
  }

  /** Counting may pause behind any whole instruction. */
  lemma {:induction false} WholeSplit(log: seq<EncoderInstruction>, k: nat, n: nat)
    requires k <= |log| && |EncodeLog(log[..k])| <= n
    ensures Whole(log, n) == k + Whole(log[k..], n - |EncodeLog(log[..k])|)
    decreases k
  {
    hide EncodeInstruction, EncodeLog;
    EncodeLogNone();
    if k == 0 {
      assert log[..0] == [] && log[0..] == log;
    } else {
      assert log[..k][1..] == log[1..][..k - 1] && log[1..][k - 1..] == log[k..];
      EncodeLogHead(log[..k]);
      WholeSplit(log[1..], k - 1, n - |EncodeInstruction(log[0])|);
    }
  }

  /** The first n octets of a stream: the whole instructions among them are replayed, and the rest, less
      than one instruction, stays unread. */
  lemma {:induction false} ReceivePrefix(c: Core, log: seq<EncoderInstruction>, n: nat)
    requires AllEncodable(log) && Replay(c, log).Success? && n <= |EncodeLog(log)|
    ensures Receive(c, EncodeLog(log)[..n]) == Received(CoreAt(c, log, n), Unread(log, n), None)
    decreases |log|
  {
    hide EncodeInstruction, EncodableInstruction, EncodeLog, Receive, Apply;
    EncodeLogNone();
    if log == [] {
      ReceiveEmpty(c);
    } else {
      EncodeLogHead(log);
      var (first, rest) := (EncodeInstruction(log[0]), EncodeLog(log[1..]));
      if n < |first| {
        ReceiveNothing(c, log[0], n);
        assert EncodeLog(log)[..n] == first[..n];
      } else {
        var (next, m) := (Apply(c, log[0]).value, n - |first|);
        ReceivePrefix(next, log[1..], m);
        assert EncodeLog(log)[..n] == first + rest[..m];
        ReceiveOne(c, log[0], rest[..m]);
        var k := Whole(log, n);
        assert log[..k][1..] == log[1..][..k - 1];
        EncodeLogHead(log[..k]);
        WholeBounds(log[1..], m);
        assert EncodeLog(log)[|EncodeLog(log[..k])|..n] == rest[|EncodeLog(log[1..][..k - 1])|..m];
      }
    }
  }

  /** The table after the whole instructions among the first n octets. */
  ghost function CoreAt(c: Core, log: seq<EncoderInstruction>, n: nat): Core
    requires Replay(c, log).Success?
  {
    ReplaySplit(c, log, Whole(log, n));
    Replay(c, log[..Whole(log, n)]).value
  }

  /** The octets behind them, up to the n-th. */
  ghost function Unread(log: seq<EncoderInstruction>, n: nat): Bytes
    requires n <= |EncodeLog(log)|
  {
    WholeBounds(log, n);
    EncodeLog(log)[|EncodeLog(log[..Whole(log, n)])|..n]
  }

  /** Reading may pause at any octet: what was left unread comes first when reading goes on. */
  lemma ReceiveBetween(c: Core, log: seq<EncoderInstruction>, m: nat, n: nat)
    requires AllEncodable(log) && Replay(c, log).Success? && m <= n <= |EncodeLog(log)|
    ensures Receive(CoreAt(c, log, m), Unread(log, m) + EncodeLog(log)[m..n])
         == Received(CoreAt(c, log, n), Unread(log, n), None)
  {
    hide EncodeInstruction, EncodableInstruction, EncodeLog, Receive, Replay, Whole;
    var (k, done) := (Whole(log, m), EncodeLog(log[..Whole(log, m)]));
    WholeBounds(log, m);
    ReplaySplit(c, log, k);
    assert log == log[..k] + log[k..];
    EncodeLogConcat(log[..k], log[k..]);
    assert Unread(log, m) + EncodeLog(log)[m..n] == EncodeLog(log[k..])[..n - |done|];
    ReceivePrefix(CoreAt(c, log, m), log[k..], n - |done|);
    WholeSplit(log, k, n);
    var j := Whole(log[k..], n - |done|);
    WholeBounds(log[k..], n - |done|);
    assert log[..k + j] == log[..k] + log[k..][..j];
    ReplayConcat(c, log[..k], log[k..][..j]);
    EncodeLogConcat(log[..k], log[k..][..j]);
  }

  /** The whole stream holds all its instructions. */
  lemma WholeStream(c: Core, log: seq<EncoderInstruction>)
    requires Replay(c, log).Success?
    ensures CoreAt(c, log, |EncodeLog(log)|) == Replay(c, log).value && Unread(log, |EncodeLog(log)|) == []
  {
    hide EncodeInstruction, EncodeLog, Replay, Whole;
    EncodeLogNone();
    var k := Whole(log, |EncodeLog(log)|);
    WholeBounds(log, |EncodeLog(log)|);
    assert log == log[..k] + log[k..];
    EncodeLogConcat(log[..k], log[k..]);
    if k < |log| {
      EncodeLogHead(log[k..]);
      assert false;
    }
    assert log[..k] == log;
  }

  /** Before the first octet nothing has happened. */
  lemma NoOctets(c: Core, log: seq<EncoderInstruction>)
    requires Replay(c, log).Success?
    ensures CoreAt(c, log, 0) == c && Unread(log, 0) == []
  {
    hide EncodeInstruction, EncodeLog, Apply;
    EncodeLogNone();
  }

  lemma EncodeLogNone()
    ensures EncodeLog([]) == []
  {
  }

  // ------------------------------------------------------ streams of any peer

  /** An instruction and how its strings are written. */
  datatype Emitted = Emitted(instruction: EncoderInstruction, style: Style)

  function EncodeEmitted(es: seq<Emitted>): (s: Bytes) {
    if es == [] then [] else EncodeInstructionAs(es[0].instruction, es[0].style) + EncodeEmitted(es[1..])
  }

  ghost predicate Emits(es: seq<Emitted>, log: seq<EncoderInstruction>) {
    && |es| == |log|
    && forall i :: 0 <= i < |es| ==>
         es[i].instruction == log[i] && EncodableInstructionAs(es[i].instruction, es[i].style)
  }

  /** Whether a peer writes its strings plain or Huffman-coded, its instructions are replayed; what comes
      behind them is read next. */
  lemma {:induction false} ReceiveEmitted(c: Core, log: seq<EncoderInstruction>, es: seq<Emitted>, rest: Bytes)
    requires Emits(es, log) && Replay(c, log).Success?
    ensures Receive(c, EncodeEmitted(es) + rest) == Receive(Replay(c, log).value, rest)
    decreases |log|
  {
    hide EncodeInstructionAs, EncodableInstructionAs, Receive, Apply;
    if log == [] {
      assert [] + rest == rest;
    } else {
      var more := EncodeEmitted(es[1..]) + rest;
      assert EncodeEmitted(es) + rest == EncodeInstructionAs(log[0], es[0].style) + more;
      ReceiveOneAs(c, log[0], es[0].style, more);
      ReceiveEmitted(Apply(c, log[0]).value, log[1..], es[1..], rest);
    }
  }

  lemma ReceiveOneAs(c: Core, i: EncoderInstruction, w: Style, rest: Bytes)
    requires EncodableInstructionAs(i, w) && Apply(c, i).Success?
    ensures Receive(c, EncodeInstructionAs(i, w) + rest) == Receive(Apply(c, i).value, rest)
  {
    hide ParseInstruction, EncodeInstructionAs, EncodableInstructionAs, InsertedField, Put, Resize;
    InstructionRoundTripAs(i, w, rest);
  }

  /** Behind instructions that are replayed, one that refers to an entry which is not there is an error
      (`TableModel.InsertedExact` says which) and stays unread. One that the table refuses is an error too,
      but is read. A table without capacity takes in nothing. */
  lemma {:induction false} NextInstruction(c: Core, log: seq<EncoderInstruction>, es: seq<Emitted>, next: Emitted,
                                           rest: Bytes)
    requires Emits(es, log) && Replay(c, log).Success? && EncodableInstructionAs(next.instruction, next.style)
    ensures
      var (c', i) := (Replay(c, log).value, next.instruction);
      var last := EncodeInstructionAs(i, next.style) + rest;
      Receive(c, EncodeEmitted(es) + last) ==
        if i.SizeUpdate? then
          if i.size > MAX_CAPACITY then Received(c', rest, Some(TableFault(MaximumTableSizeTooLarge)))
          else Receive(Resize(c', i.size).value, rest)
        else if InsertedField(c', i).Failure? then Received(c', last, Some(InsertedField(c', i).error))
        else if c'.maxSize == 0 then Receive(c', rest)
        else if InsertedField(c', i).value.MemSize() > c'.maxSize then
          Received(c', rest, Some(TableFault(MaxTableSizeReached)))
        else Receive(Grown(c', InsertedField(c', i).value), rest)
  {
    hide EncodeEmitted, Emits, Receive, Replay, EncodeInstructionAs, EncodableInstructionAs, InsertedField, Grown;
    var (c', last) := (Replay(c, log).value, EncodeInstructionAs(next.instruction, next.style) + rest);
    ReceiveEmitted(c, log, es, last);
    ReceiveNext(c', next, rest);
  }

  lemma {:induction false} ReceiveNext(c: Core, e: Emitted, rest: Bytes)
    requires EncodableInstructionAs(e.instruction, e.style)
    ensures
      var (i, s) := (e.instruction, EncodeInstructionAs(e.instruction, e.style) + rest);
      Receive(c, s) ==
        if !i.SizeUpdate? && InsertedField(c, i).Failure? then Received(c, s, Some(InsertedField(c, i).error))
        else if Apply(c, i).Failure? then Received(c, rest, Some(Apply(c, i).error))
        else Receive(Apply(c, i).value, rest)
  {
    hide ParseInstruction, EncodeInstructionAs, EncodableInstructionAs, InsertedField, Resize, Put;
    InstructionRoundTripAs(e.instruction, e.style, rest);
  }

  // --------------------------------------------------------------- in pieces

  function Total(increments: seq<nat>): nat {
    if increments == [] then 0 else increments[0] + Total(increments[1..])
  }

  lemma TotalNone()
    ensures Total([]) == 0
  {
  }

  /** An increment is announced unless it is zero. */
  function Announce(inserted: nat, later: seq<nat>): seq<nat> {
    if inserted == 0 then later else [inserted] + later
  }

  lemma AnnounceTotal(inserted: nat, later: seq<nat>)
    ensures Total(Announce(inserted, later)) == inserted + Total(later)
  {
    if inserted > 0 {
      assert ([inserted] + later)[1..] == later;
    }
  }

  datatype Fed = Fed(core: Core, unread: Bytes, increments: seq<nat>, error: Option<DecoderError>)

  /** One call per piece, the unread octets of the last call in front; with the increments announced. */
  function Feed(c: Core, unread: Bytes, pieces: seq<Bytes>): (fed: Fed)
    decreases |pieces|
  {
    hide Receive;
    if pieces == [] then Fed(c, unread, [], None) else
    var r := Receive(c, unread + pieces[0]);
    var inserted := r.core.Inserted() - c.Inserted();
    if r.error.Some? then Fed(r.core, r.rest, [], r.error)
    else if inserted > MAX_EMITTED then Fed(r.core, r.rest, [], Some(IncrementTooLarge(inserted)))
    else
      var later := Feed(r.core, r.rest, pieces[1..]);
      later.(increments := Announce(inserted, later.increments))
  }

  /** How many octets precede the j-th cut. */
  function Cut(pieces: seq<Bytes>, j: nat): nat
    requires j <= |pieces|
  {
    |Flatten(pieces[..j])|
  }

  /** How many entries the j-th piece inserts: those of the instructions that become whole with it. */
  ghost function InsertedBy(c: Core, log: seq<EncoderInstruction>, pieces: seq<Bytes>, j: nat): int
    requires Replay(c, log).Success? && j < |pieces|
  {
    CoreAt(c, log, Cut(pieces, j + 1)).Inserted() - CoreAt(c, log, Cut(pieces, j)).Inserted()
  }

  /** No piece inserts more entries than one increment can announce. */
  ghost predicate PiecesFit(c: Core, log: seq<EncoderInstruction>, pieces: seq<Bytes>)
    requires Replay(c, log).Success?
  {
    forall j :: 0 <= j < |pieces| ==> InsertedBy(c, log, pieces, j) <= MAX_EMITTED
  }

  /** What is reported when a piece does. */
  ghost predicate TooMuch(c: Core, log: seq<EncoderInstruction>, pieces: seq<Bytes>, j: nat, error: DecoderError)
    requires Replay(c, log).Success? && j < |pieces|
  {
    InsertedBy(c, log, pieces, j) > MAX_EMITTED && error == IncrementTooLarge(InsertedBy(c, log, pieces, j))
  }

  lemma FlattenOne(piece: Bytes)
    ensures Flatten([piece]) == piece
  {
    var one: seq<Bytes> := [piece];
    assert one[1..] == [];
  }

  lemma CutNext(log: seq<EncoderInstruction>, pieces: seq<Bytes>, j: nat)
    requires Flatten(pieces) == EncodeLog(log) && j < |pieces|
    ensures Cut(pieces, j) <= Cut(pieces, j + 1) <= |EncodeLog(log)|
    ensures EncodeLog(log)[Cut(pieces, j)..Cut(pieces, j + 1)] == pieces[j]
  {
    hide EncodeLog;
    assert pieces == pieces[..j] + pieces[j..] && pieces[..j + 1] == pieces[..j] + [pieces[j]];
    FlattenConcat(pieces[..j], pieces[j..]);
    FlattenConcat(pieces[..j], [pieces[j]]);
    FlattenOne(pieces[j]);
  }

  /** Feeding the pieces behind the j-th cut. */
  lemma {:induction false} FeedFrom(c: Core, log: seq<EncoderInstruction>, pieces: seq<Bytes>, j: nat)
    requires AllEncodable(log) && Replay(c, log).Success? && Flatten(pieces) == EncodeLog(log)
    requires j <= |pieces| && Cut(pieces, j) <= |EncodeLog(log)|
    ensures var core := CoreAt(c, log, Cut(pieces, j));
            var fed := Feed(core, Unread(log, Cut(pieces, j)), pieces[j..]);
            && (fed.error.None? <==> forall i :: j <= i < |pieces| ==> InsertedBy(c, log, pieces, i) <= MAX_EMITTED)
            && (fed.error.None? ==>
                  && fed.core == Replay(c, log).value && fed.unread == []
                  && core.Inserted() + Total(fed.increments) == fed.core.Inserted())
            && (fed.error.Some? ==>
                  exists i :: j <= i < |pieces| && TooMuch(c, log, pieces, i, fed.error.value))
    decreases |pieces| - j
  {
    hide EncodeInstruction, EncodableInstruction, EncodeLog, Receive, Replay, Announce, Total, CoreAt, Unread, Cut;
    hide Flatten;
    TotalNone();
    if j == |pieces| {
      CutAll(pieces);
      WholeStream(c, log);
    } else {
      var (m, n) := (Cut(pieces, j), Cut(pieces, j + 1));
      CutNext(log, pieces, j);
      ReceiveBetween(c, log, m, n);
      assert pieces[j..][0] == pieces[j] && pieces[j..][1..] == pieces[j + 1..];
      FeedFrom(c, log, pieces, j + 1);
      var inserted := InsertedBy(c, log, pieces, j);
      if inserted > MAX_EMITTED {
        assert TooMuch(c, log, pieces, j, IncrementTooLarge(inserted));
      }
      AnnounceTotal(inserted, Feed(CoreAt(c, log, n), Unread(log, n), pieces[j + 1..]).increments);
    }
  }

  lemma CutAll(pieces: seq<Bytes>)
    ensures Cut(pieces, 0) == 0 && Cut(pieces, |pieces|) == |Flatten(pieces)|
  {
    assert pieces[..|pieces|] == pieces;
  }

  /** However an instruction stream is cut: there is no error exactly when no single piece inserts more
      entries than an increment has room for, and then the table ends up the same as after replaying the
      stream at once, no octet is left over, and the announced increments add up to the entries inserted. */
  lemma FragmentationIndependence(c: Core, log: seq<EncoderInstruction>, pieces: seq<Bytes>)
    requires AllEncodable(log) && Replay(c, log).Success? && Flatten(pieces) == EncodeLog(log)
    ensures var fed := Feed(c, [], pieces);
            && (fed.error.None? <==> PiecesFit(c, log, pieces))
            && (fed.error.None? ==>
                  && fed.core == Replay(c, log).value && fed.unread == []
                  && c.Inserted() + Total(fed.increments) == fed.core.Inserted())
            && (fed.error.Some? ==> exists i :: 0 <= i < |pieces| && TooMuch(c, log, pieces, i, fed.error.value))
  {
    hide EncodeInstruction, EncodableInstruction, EncodeLog, Receive, Apply, Replay, Feed, Flatten, Total;
    hide CoreAt, Unread, Cut;
    CutAll(pieces);
    NoOctets(c, log);
    assert pieces[0..] == pieces;
    FeedFrom(c, log, pieces, 0);
  }

  /** A stream of at most 255 instructions fits however it is cut. */
  lemma ShortStreamFits(c: Core, log: seq<EncoderInstruction>, pieces: seq<Bytes>)
    requires Replay(c, log).Success? && |log| <= MAX_EMITTED
    ensures PiecesFit(c, log, pieces)
  {
    hide Replay, EncodeLog, Whole, Cut;
    forall j | 0 <= j < |pieces| ensures InsertedBy(c, log, pieces, j) <= MAX_EMITTED {
      var (k, k') := (Whole(log, Cut(pieces, j)), Whole(log, Cut(pieces, j + 1)));
      ReplaySplit(c, log, k);
      ReplaySplit(c, log, k');
      ReplayExtends(c, log[..k]);
      ReplayInsertsAtMost(c, log[..k']);
    }
  }

  // ------------------------------------------------------- too much in one piece

  const EMPTY_FIELD := HeaderField([], [])

  function Copies(n: nat): (log: seq<EncoderInstruction>)
    ensures |log| == n
  {
    if n == 0 then [] else [InsertLiteralName([], [])] + Copies(n - 1)
  }

  lemma {:induction false} CopiesInserted(c: Core, n: nat)
    requires c.maxSize >= 32
    ensures AllEncodable(Copies(n)) && Replay(c, Copies(n)).Success?
    ensures Replay(c, Copies(n)).value.Inserted() == c.Inserted() + n
    decreases n
  {
    hide MinEvict, SizeOf, EncodableInstruction;
    if n > 0 {
      EmptyFieldEncodable();
      CopiesInserted(Grown(c, EMPTY_FIELD), n - 1);
    }
  }

  lemma EmptyFieldEncodable()
    ensures EncodableInstruction(InsertLiteralName([], []))
  {
  }

  /** 256 insertions that arrive in one piece are all made, and then reported as an error; cut in two they
      are not. */
  lemma OnePieceOverflows()
    ensures var (c, log) := (Core([], 0, 32), Copies(256));
            var (first, second) := (EncodeLog(Copies(128)), EncodeLog(Copies(128)));
            && Feed(c, [], [EncodeLog(log)]).error == Some(IncrementTooLarge(256))
            && first + second == EncodeLog(log) && Feed(c, [], [first, second]).error == None
  {
    hide EncodeLog, Replay, CoreAt, Feed, Copies;
    var (c, log) := (Core([], 0, 32), Copies(256));
    var (half, one) := (Copies(128), [EncodeLog(log)]);
    var two := [EncodeLog(half), EncodeLog(half)];
    CopiesSum(128, 128);
    EncodeLogConcat(half, half);
    FlattenOne(EncodeLog(log));
    FlattenOne(EncodeLog(half));
    assert two[1..] == [EncodeLog(half)];
    CopiesInserted(c, 256);
    CopiesInserted(c, 128);
    NoOctets(c, log);
    WholeStream(c, log);
    CutAll(one);
    CutAll(two);
    assert InsertedBy(c, log, one, 0) == 256;
    FragmentationIndependence(c, log, one);
    HalfWay(c, half, half);
    assert two[..1] == [EncodeLog(half)];
    FragmentationIndependence(c, log, two);
  }

  lemma {:induction false} CopiesSum(m: nat, n: nat)
    ensures Copies(m + n) == Copies(m) + Copies(n)
  {
    if m > 0 {
      CopiesSum(m - 1, n);
    }
  }

  /** At the end of an instruction nothing is left unread. */
  lemma HalfWay(c: Core, log: seq<EncoderInstruction>, more: seq<EncoderInstruction>)
    requires Replay(c, log + more).Success?
    ensures Replay(c, log).Success? && CoreAt(c, log + more, |EncodeLog(log)|) == Replay(c, log).value
  {
    hide EncodeLog, Replay;
    assert (log + more)[..|log|] == log && (log + more)[|log|..] == more;
    ReplaySplit(c, log + more, |log|);
    WholeSplit(log + more, |log|, |EncodeLog(log)|);
  }
}
