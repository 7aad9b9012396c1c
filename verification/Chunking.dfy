/** How a stream is cut into chunks, and when they arrive, does not matter to who reads frames and payloads
    from it; section 7.1 of RFC 9114. */
module Chunking {
  import opened Octets
  import opened Frames
  import opened BufLists
  import opened FrameReader
  import VarInts

  // ------------------------------------------------------ the one-shot parse

  datatype OneShot = OneFrame(frame: Frame, rest: Bytes) | OneEnd | OneTruncated | OneBad(error: FrameError)

  /** The next known frame of the whole rest of a stream. */
  function First(s: Bytes): (o: OneShot)
    ensures o.OneFrame? ==> |o.rest| < |s|
    decreases |s|
  {
    hide Frames.Decode;
    Suffix(s);
    if s == [] then OneEnd else
    match Frames.Decode(s)
    case UnknownFrame(_, rest) => First(rest)
    case Incomplete(_) => OneTruncated
    case Decoded(frame, rest) => OneFrame(frame, rest)
    case Failed(e) => OneBad(e)
  }

  /** What a reader sees: frames, whole DATA payloads, and how it ends. */
  datatype Item =
    | Whole(frame: Frame)
    | Message(payload: Bytes)
    | Finished
    | Stopped(error: StreamError)
    | CutBody

  /** How many octets of payload are read separately after a frame. */
  function PayloadLength(frame: Frame): nat {
    match frame case Data(n) => n case WebTransportStream(_) => ENDLESS case _ => 0
  }

  /** The items of a whole stream. A payload that is not all there ends it; one without a length counts as
      the longest there can be. */
  function Parse(s: Bytes): (items: seq<Item>)
    decreases |s|
  {
    match First(s)
    case OneEnd => [Finished]
    case OneTruncated => [Stopped(UnexpectedEnd)]
    case OneBad(e) => [Stopped(Proto(e))]
    case OneFrame(frame, rest) =>
      var n := PayloadLength(frame);
      (if frame.Data? then [] else [Whole(frame)])
      + if |rest| < n then [CutBody]
        else if n > 0 || frame.Data? then [Message(rest[..n])] + Parse(rest[n..])
        else Parse(rest)
  }

  // -------------------------------------------------------- any cut of a stream

  function Arriving(script: seq<Arrival>): Bytes {
    if script == [] then [] else
    (match script[0] case Arrived(c) => c case _ => []) + Arriving(script[1..])
  }

  /** Reading never fails. */
  predicate Unbroken(script: seq<Arrival>) {
    forall i :: 0 <= i < |script| ==> !script[i].Broken?
  }

  /** Everything the reader has not consumed yet: what is buffered and what will arrive. */
  function All(r: Reader): Bytes {
    Flatten(r.bufs) + Arriving(r.script)
  }

  /** An expectation comes from an earlier look at what is still the front of the buffer. */
  ghost predicate Hint(r: Reader) {
    r.expected.Some? ==>
      exists n :: 0 < n <= |Flatten(r.bufs)| && Frames.Decode(Flatten(r.bufs)[..n]) == Incomplete(r.expected.value)
  }

  ghost predicate Good(r: Reader) {
    Hint(r) && (r.eos ==> r.script == []) && (r.remainingData > 0 ==> r.expected == None)
  }

  lemma ReceiveKeeps(r: Reader)
    requires Good(r)
    ensures var (receipt, r1) := TryRecv(r);
            && Good(r1) && All(r1) == All(r)
            && (receipt == Ready(true) ==> r1.bufs == r.bufs && r1.script == [])
            && (receipt != Ready(true) ==> |r1.script| < |r.script|)
            && (Unbroken(r.script) ==> Unbroken(r1.script) && !receipt.Failing?)
  {
    hide Frames.Decode;
    if !r.eos && r.script != [] && r.script[0].Arrived? {
      var c := r.script[0].octets;
      FlattenConcat(r.bufs, [c]);
      assert [c][1..] == [] && Flatten([c]) == c;
      var (s, t) := (Flatten(r.bufs), Flatten(r.bufs + [c]));
      if r.expected.Some? {
        var n :| 0 < n <= |s| && Frames.Decode(s[..n]) == Incomplete(r.expected.value);
        assert t[..n] == s[..n];
      }
    }
  }

  /** Waiting for the expected number of octets skips only looks that would have found nothing. */
  lemma ExpectationHarmless(r: Reader)
    requires Good(r) && r.expected.Some? && |Flatten(r.bufs)| < r.expected.value
    ensures Flatten(r.bufs) != [] && Frames.Decode(Flatten(r.bufs)).Incomplete?
  {
    hide Frames.Decode;
    var s := Flatten(r.bufs);
    var n :| 0 < n <= |s| && Frames.Decode(s[..n]) == Incomplete(r.expected.value);
    assert s[..n] + s[n..] == s;
    ExpectedIsLowerBound(s[..n], s[n..]);
  }

  /** The front of a stream decides what its first frame is. */
  lemma {:induction false} FirstExtends(s: Bytes, more: Bytes)
    requires s != []
    ensures match Frames.Decode(s)
            case UnknownFrame(_, rest) => First(s + more) == First(rest + more)
            case Decoded(frame, rest) => First(s + more) == OneFrame(frame, rest + more)
            case Failed(e) => First(s + more) == OneBad(e)
            case Incomplete(_) => true
  {
    hide Frames.Decode;
    Frames.Extend(s, more);
  }

  lemma HintFromLook(r: Reader)
    requires Flatten(r.bufs) != [] && r.expected.Some?
    requires Frames.Decode(Flatten(r.bufs)) == Incomplete(r.expected.value)
    ensures Hint(r)
  {
    hide Frames.Decode;
    assert Flatten(r.bufs)[..|Flatten(r.bufs)|] == Flatten(r.bufs);
  }

  /** Decoding from the buffer finds what a one-shot parse of the whole stream finds next, or nothing. */
  lemma {:induction false} TakeAgrees(r: Reader)
    requires Good(r) && r.remainingData == 0
    ensures var (taken, r1) := Take(r);
            && Good(r1) && |All(r1)| <= |All(r)|
            && match taken
               case Got(frame) => First(All(r)) == OneFrame(frame, All(r1)) && r1.expected == None
               case Bad(e) => First(All(r)) == OneBad(e)
               case Nothing =>
                 && First(All(r1)) == First(All(r))
                 && (Flatten(r1.bufs) == [] || Frames.Decode(Flatten(r1.bufs)).Incomplete?)
    decreases |Flatten(r.bufs)|
  {
    hide Frames.Decode, Hint, First, Arriving;
    var s := Flatten(r.bufs);
    var more := Arriving(r.script);
    if s == [] {
    } else if r.expected.Some? && |s| < r.expected.value {
      ExpectationHarmless(r);
    } else {
      Suffix(s);
      FirstExtends(s, more);
      NoHint(r.(expected := None));
      match Frames.Decode(s)
      case UnknownFrame(_, rest) =>
        var r1 := r.(bufs := Dropped(r.bufs, |s| - |rest|), expected := None);
        NoHint(r1);
        TakeAgrees(r1);
      case Incomplete(min) => HintFromLook(r.(expected := Some(min)));
      case Decoded(frame, rest) => NoHint(r.(bufs := Dropped(r.bufs, |s| - |rest|), expected := None));
      case Failed(e) =>
    }
  }

  lemma NoHint(r: Reader)
    ensures r.expected == None ==> Hint(r)
  {
  }

  /** Polling for a frame gives the next frame of the whole stream, or changes nothing that matters. */
  lemma {:induction false} PollNextAgrees(r: Reader)
    requires Good(r) && r.remainingData == 0
    ensures var (next, r1) := PollNext(r);
            && Good(r1) && |All(r1)| <= |All(r)| && (Unbroken(r.script) ==> Unbroken(r1.script))
            && match next
               case NextPending => First(All(r1)) == First(All(r)) && |r1.script| < |r.script| && r1.remainingData == 0
               case NextFrame(frame) =>
                 && First(All(r)) == OneFrame(frame, All(r1)) && |r1.script| <= |r.script|
                 && r1.remainingData == PayloadLength(frame)
               case NextNone => First(All(r)) == OneEnd
               case NextError(Proto(e)) => First(All(r)) == OneBad(e)
               case NextError(UnexpectedEnd) => First(All(r)) == OneTruncated
               case NextError(Quic(_)) => !Unbroken(r.script)
    decreases |r.script|
  {
    hide Frames.Decode, Hint, Take, First, TryRecv, Unbroken;
    TakeAgrees(r);
    var (taken, r1) := Take(r);
    NoHint(PollNext(r).1);
    if taken.Nothing? {
      ReceiveKeeps(r1);
      ReceiveShape(r1);
      var (receipt, r2) := TryRecv(r1);
      if receipt == Ready(false) {
        PollNextAgrees(r2);
      } else if receipt == Ready(true) {
        AtEnd(r2);
      }
    }
  }

  lemma ReceiveShape(r: Reader)
    ensures TryRecv(r).1.remainingData == r.remainingData
  {
  }

  lemma {:induction false} AtEnd(r: Reader)
    requires r.script == []
    ensures All(r) == Flatten(r.bufs) && First([]) == OneEnd
    ensures Flatten(r.bufs) != [] && Frames.Decode(Flatten(r.bufs)).Incomplete? ==> First(All(r)) == OneTruncated
  {
    hide Frames.Decode;
    assert Flatten(r.bufs) + [] == Flatten(r.bufs);
  }

  /** Polling for data hands out the next octets of the payload, never more than are left of it; only at
      the end of a stream that stops short of the payload does it say anything else. */
  lemma PollDataAgrees(r: Reader)
    requires Good(r) && r.remainingData > 0
    ensures Unbroken(r.script) ==> Unbroken(PollData(r).1.script)
    ensures var (piece, r1) := PollData(r);
            match piece
            case PiecePending =>
              All(r1) == All(r) && Good(r1) && |r1.script| < |r.script| && r1.remainingData == r.remainingData
            case PieceOf(d) =>
              && 0 < |d| <= r.remainingData && All(r) == d + All(r1)
              && Good(r1) && |r1.script| <= |r.script| && r1.remainingData == r.remainingData - |d|
            case PieceNone => |All(r)| < r.remainingData
            case PieceError(Quic(_)) => !Unbroken(r.script)
            case PieceError(e) => e == UnexpectedEnd && 0 < |All(r)| < r.remainingData
  {
    hide Hint, TryRecv, Arriving, Dropped, Unbroken;
    ReceiveKeeps(r);
    ReceiveShape(r);
    ReceiveExpects(r);
    var (receipt, r1) := TryRecv(r);
    NoArrivals(r1);
    if r1.bufs != [] {
      var d := FirstChunk(r1.bufs, r.remainingData);
      FirstChunkIsPrefix(r1.bufs, r.remainingData);
      var r2 := r1.(bufs := Dropped(r1.bufs, |d|), remainingData := r.remainingData - |d|);
      NoHint(r2);
      assert All(r1) == d + (Flatten(r1.bufs)[|d|..] + Arriving(r1.script));
    }
  }

  lemma ReceiveExpects(r: Reader)
    ensures TryRecv(r).1.expected == r.expected && |TryRecv(r).1.script| <= |r.script|
  {
  }

  lemma NoArrivals(r: Reader)
    ensures r.script == [] ==> All(r) == Flatten(r.bufs)
    ensures r.bufs == [] ==> Flatten(r.bufs) == []
  {
    assert Flatten(r.bufs) + [] == Flatten(r.bufs);
  }

  lemma FirstChunkIsPrefix(bufs: seq<Chunk>, max: nat)
    requires bufs != [] && max > 0
    ensures var d := FirstChunk(bufs, max);
            0 < |d| <= max && |d| <= |Flatten(bufs)| && d == Flatten(bufs)[..|d|]
            && Flatten(bufs) == d + Flatten(bufs)[|d|..]
  {
  }

  // ---------------------------------------------------------------- observers

  /** What a caller sees that asks for frames, and after a DATA frame for its payload until it is complete.
      `body` is what it has of the payload so far. */
  function Drive(r: Reader, body: Bytes): (items: seq<Item>)
    requires Good(r)
    decreases |All(r)| + |r.script|
  {
    hide Good, All, PollNext, PollData, First;
    if r.remainingData == 0 then
      PollNextAgrees(r);
      FirstShorter(All(r));
      var (next, r1) := PollNext(r);
      match next
      case NextPending => Drive(r1, [])
      case NextNone => [Finished]
      case NextError(e) => [Stopped(e)]
      case NextFrame(Data(length)) => (if length == 0 then [Message([])] else []) + Drive(r1, [])
      case NextFrame(frame) => [Whole(frame)] + Drive(r1, [])
    else
      PollDataAgrees(r);
      var (piece, r1) := PollData(r);
      match piece
      case PiecePending => Drive(r1, body)
      case PieceNone => [CutBody]
      case PieceError(e) => [Stopped(e)]
      case PieceOf(d) =>
        if r1.remainingData == 0 then [Message(body + d)] + Drive(r1, []) else Drive(r1, body + d)
  }

  lemma FirstShorter(s: Bytes)
    ensures First(s).OneFrame? ==> |First(s).rest| < |s|
  {
  }

  /** Equal, except that a payload cut short after its first octet may be reported as an error; or the
      beginning, if reading failed. */
  predicate Agree(seen: seq<Item>, expected: seq<Item>, dangling: bool, broken: bool) {
    && |seen| > 0 && |expected| > 0
    && var last := seen[|seen| - 1];
       if last.Stopped? && last.error.Quic? then broken && seen[..|seen| - 1] <= expected
       else
         && |seen| == |expected|
         && seen[..|seen| - 1] == expected[..|seen| - 1]
         && (last == expected[|seen| - 1]
             || (dangling && expected[|seen| - 1] == CutBody && last == Stopped(UnexpectedEnd)))
  }

  lemma AgreeCons(item: Item, seen: seq<Item>, expected: seq<Item>, dangling: bool, broken: bool)
    requires Agree(seen, expected, dangling, broken)
    ensures Agree([item] + seen, [item] + expected, dangling, broken)
  {
    var (a, b) := ([item] + seen, [item] + expected);
    assert a[..|a| - 1] == [item] + seen[..|seen| - 1];
    if |a| == |b| {
      assert b[..|a| - 1] == [item] + expected[..|seen| - 1];
    }
  }

  lemma AgreeWeaken(seen: seq<Item>, expected: seq<Item>, d: bool, d': bool, b: bool, b': bool)
    requires Agree(seen, expected, d, b) && (d ==> d') && (b ==> b')
    ensures Agree(seen, expected, d', b')
  {
  }

  lemma AgreeEqual(seen: seq<Item>, expected: seq<Item>)
    requires Agree(seen, expected, false, false)
    ensures seen == expected
  {
    assert seen == seen[..|seen| - 1] + [seen[|seen| - 1]];
    assert expected == expected[..|seen| - 1] + [expected[|seen| - 1]];
  }

  /** The stream ends inside a payload, after its first octet. */
  predicate Dangling(s: Bytes)
    decreases |s|, 0
  {
    match First(s)
    case OneFrame(frame, rest) => DanglingBody(rest, PayloadLength(frame))
    case _ => false
  }

  predicate DanglingBody(s: Bytes, n: nat)
    decreases |s|, 1
  {
    if n == 0 then Dangling(s)
    else if |s| < n then s != []
    else Dangling(s[n..])
  }

  predicate DanglingFrom(r: Reader) {
    DanglingBody(All(r), r.remainingData)
  }

  lemma {:induction false} SameFirst(s: Bytes, t: Bytes)
    requires First(s) == First(t)
    ensures Parse(s) == Parse(t) && DanglingBody(s, 0) == DanglingBody(t, 0)
  {
    hide First;
    assert Dangling(s) == Dangling(t);
  }

  /** What is still to be seen, from any state of a reader. */
  function Remaining(r: Reader, body: Bytes): seq<Item> {
    if r.remainingData == 0 then Parse(All(r))
    else if |All(r)| < r.remainingData then [CutBody]
    else [Message(body + All(r)[..r.remainingData])] + Parse(All(r)[r.remainingData..])
  }

  lemma RemainingSome(r: Reader, body: Bytes)
    ensures Remaining(r, body) != []
  {
  }

  lemma {:induction false} DriveSees(r: Reader, body: Bytes)
    requires Good(r)
    ensures Agree(Drive(r, body), Remaining(r, body), DanglingFrom(r), !Unbroken(r.script))
    decreases |All(r)| + |r.script|
  {
    hide Good, All, PollNext, PollData, First, Agree, Unbroken;
    FirstShorter(All(r));
    RemainingSome(r, body);
    var broken := !Unbroken(r.script);
    if r.remainingData == 0 {
      PollNextAgrees(r);
      var (next, r1) := PollNext(r);
      match next
      case NextPending =>
        SameFirst(All(r), All(r1));
        DriveSees(r1, []);
        AgreeWeaken(Drive(r1, []), Remaining(r1, []), DanglingFrom(r1), DanglingFrom(r), !Unbroken(r1.script), broken);
      case NextNone => AgreeSame(Finished, DanglingFrom(r), broken);
      case NextError(Quic(cause)) => AgreeBroken(cause, Remaining(r, body), DanglingFrom(r));
      case NextError(e) => AgreeSame(Stopped(e), DanglingFrom(r), broken);
      case NextFrame(frame) =>
        DriveSees(r1, []);
        AgreeWeaken(Drive(r1, []), Remaining(r1, []), DanglingFrom(r1), DanglingFrom(r1), !Unbroken(r1.script), broken);
        FrameSeen(r, frame, r1, Drive(r1, []), broken);
    } else {
      PollDataAgrees(r);
      var (piece, r1) := PollData(r);
      match piece
      case PiecePending =>
        DriveSees(r1, body);
        AgreeWeaken(Drive(r1, body), Remaining(r1, body), DanglingFrom(r1), DanglingFrom(r),
                    !Unbroken(r1.script), broken);
      case PieceNone => AgreeSame(CutBody, DanglingFrom(r), broken);
      case PieceError(Quic(cause)) => AgreeBroken(cause, Remaining(r, body), DanglingFrom(r));
      case PieceError(e) => AgreeCut(broken);
      case PieceOf(d) =>
        if r1.remainingData == 0 {
          DriveSees(r1, []);
          assert All(r)[..|d|] == d && All(r)[|d|..] == All(r1);
          AgreeWeaken(Drive(r1, []), Parse(All(r1)), DanglingFrom(r1), DanglingFrom(r1), !Unbroken(r1.script), broken);
          AgreeCons(Message(body + d), Drive(r1, []), Parse(All(r1)), DanglingFrom(r1), broken);
        } else {
          DriveSees(r1, body + d);
          PieceSeen(r, r1, body, d);
          AgreeWeaken(Drive(r1, body + d), Remaining(r1, body + d), DanglingFrom(r1), DanglingFrom(r),
                      !Unbroken(r1.script), broken);
        }
    }
  }

  lemma AgreeSame(item: Item, dangling: bool, broken: bool)
    requires !(item.Stopped? && item.error.Quic?)
    ensures Agree([item], [item], dangling, broken)
  {
  }

  lemma AgreeCut(broken: bool)
    ensures Agree([Stopped(UnexpectedEnd)], [CutBody], true, broken)
  {
  }

  lemma AgreeBroken(cause: nat, expected: seq<Item>, dangling: bool)
    requires expected != []
    ensures Agree([Stopped(Quic(cause))], expected, dangling, true)
  {
  }

  lemma FrameSeen(r: Reader, frame: Frame, r1: Reader, seen: seq<Item>, broken: bool)
    requires r.remainingData == 0 && First(All(r)) == OneFrame(frame, All(r1))
    requires r1.remainingData == PayloadLength(frame)
    requires Agree(seen, Remaining(r1, []), DanglingFrom(r1), broken)
    ensures var (e, d) := (Remaining(r, []), DanglingFrom(r));
            && (frame.Data? && frame.length == 0 ==> Agree([Message([])] + seen, e, d, broken))
            && (frame.Data? && frame.length > 0 ==> Agree([] + seen, e, d, broken))
            && (!frame.Data? ==> Agree([Whole(frame)] + seen, e, d, broken))
  {
    hide All, First, Agree;
    assert [] + seen == seen;
    assert Dangling(All(r)) == DanglingFrom(r1);
    assert DanglingFrom(r) == Dangling(All(r));
    var (s, n) := (All(r1), PayloadLength(frame));
    assert s[0..] == s && s[..0] == [];
    assert |s| >= n ==> [] + s[..n] == s[..n];
    if frame.Data? && n == 0 {
      AgreeCons(Message([]), seen, Parse(s), DanglingFrom(r1), broken);
      assert [] + ([Message([])] + Parse(s)) == [Message([])] + Parse(s);
    } else if frame.Data? {
      assert [] + Remaining(r1, []) == Remaining(r1, []);
    } else {
      AgreeCons(Whole(frame), seen, Remaining(r1, []), DanglingFrom(r1), broken);
    }
  }

  lemma PieceSeen(r: Reader, r1: Reader, body: Bytes, d: Bytes)
    requires All(r) == d + All(r1) && r1.remainingData == r.remainingData - |d| > 0
    ensures Remaining(r, body) == Remaining(r1, body + d)
    ensures DanglingFrom(r1) ==> DanglingFrom(r)
    ensures |All(r)| >= r.remainingData ==> (DanglingFrom(r1) <==> DanglingFrom(r))
  {
    hide All, Parse, Dangling;
    var n := r1.remainingData;
    if |All(r1)| >= n {
      assert All(r)[..r.remainingData] == d + All(r1)[..n];
      assert body + (d + All(r1)[..n]) == body + d + All(r1)[..n];
      assert All(r)[r.remainingData..] == All(r1)[n..];
    }
  }

  // --------------------------------------------------------------- guarantees

  function Start(script: seq<Arrival>): Reader {
    Reader([], false, script, None, 0)
  }

  lemma StartGood(script: seq<Arrival>)
    ensures Good(Start(script)) && All(Start(script)) == Arriving(script)
  {
  }

  /** Unless the stream ends inside a payload, or reading fails, every reader sees the one-shot parse of its
      octets, wherever they are cut and however often nothing has arrived yet. */
  lemma SeesParse(script: seq<Arrival>)
    requires !Dangling(Arriving(script)) && Unbroken(script)
    ensures Good(Start(script)) && Drive(Start(script), []) == Parse(Arriving(script))
  {
    hide Good, All, Arriving, Drive, Agree, Parse, Dangling, Remaining, Unbroken;
    StartGood(script);
    DriveSees(Start(script), []);
    StartShape(script);
    AgreeEqual(Drive(Start(script), []), Parse(Arriving(script)));
  }

  /** A reader whose transport fails has by then seen the beginning of what it was to see. */
  lemma BrokenSeesPrefix(script: seq<Arrival>)
    ensures Good(Start(script)) && Drive(Start(script), []) != []
    ensures var seen := Drive(Start(script), []);
            seen[|seen| - 1].Stopped? && seen[|seen| - 1].error.Quic? ==>
              !Unbroken(script) && seen[..|seen| - 1] <= Parse(Arriving(script))
  {
    hide Good, All, Arriving, Drive, Parse, Dangling, Remaining, Unbroken;
    StartGood(script);
    DriveSees(Start(script), []);
    StartShape(script);
  }

  lemma StartShape(script: seq<Arrival>)
    ensures DanglingFrom(Start(script)) == Dangling(Arriving(script))
    ensures Remaining(Start(script), []) == Parse(Arriving(script))
  {
    hide Parse, Dangling;
    StartGood(script);
  }

  /** With everything buffered, a frame is found without asking the transport. */
  lemma BufferedFrame(r: Reader)
    requires Good(r) && r.remainingData == 0 && Arriving(r.script) == [] && First(All(r)).OneFrame?
    ensures var (next, r1) := PollNext(r);
            && next.NextFrame? && r1.script == r.script && r1.eos == r.eos && |r1.bufs| <= |r.bufs|
            && First(All(r)) == OneFrame(next.frame, All(r1)) && Good(r1) && r1.remainingData == PayloadLength(next.frame)
  {
    hide Frames.Decode, Take, Hint, TryRecv;
    PollNextAgrees(r);
    TakeAgrees(r);
    var (taken, r1) := Take(r);
    assert Flatten(r1.bufs) + [] == Flatten(r1.bufs);
  }

  lemma SinglePiece(r: Reader)
    requires Good(r) && r.script == [] && |r.bufs| <= 1 && r.remainingData > 0 && All(r) != []
    ensures var (piece, r1) := PollData(r);
            if |All(r)| < r.remainingData then piece == PieceError(UnexpectedEnd)
            else piece.PieceOf? && |piece.octets| == r.remainingData && r1.script == [] && |r1.bufs| <= 1
  {
    hide Good, Frames.Decode;
    NoArrivals(r);
    assert r.bufs == [r.bufs[0]] && r.bufs[1..] == [];
    assert All(r) == r.bufs[0];
  }

  /** In one chunk, followed at once by the end: the reader of a dangling payload gets an error. */
  lemma {:induction false} AtOnce(r: Reader, body: Bytes)
    requires Good(r) && r.script == [] && |r.bufs| <= 1 && DanglingFrom(r)
    ensures EndsIn(Drive(r, body), Stopped(UnexpectedEnd))
    decreases |All(r)|
  {
    hide Good, PollNext, PollData, First, Frames.Decode, EndsIn, All;
    FirstShorter(All(r));
    if r.remainingData == 0 {
      assert Dangling(All(r));
      NoArrivalsScript(r);
      BufferedFrame(r);
      var (next, r1) := PollNext(r);
      AtOnce(r1, []);
      FrameEndsIn(next.frame, Drive(r1, []), Stopped(UnexpectedEnd));
    } else {
      PollDataAgrees(r);
      SinglePiece(r);
      var (piece, r1) := PollData(r);
      if piece.PieceOf? {
        assert All(r)[r.remainingData..] == All(r1);
        AtOnce(r1, []);
        EndsInConcat([Message(body + piece.octets)], Drive(r1, []), Stopped(UnexpectedEnd));
      } else {
        EndsInOne(Stopped(UnexpectedEnd));
      }
    }
  }

  lemma NoArrivalsScript(r: Reader)
    ensures r.script == [] ==> Arriving(r.script) == []
  {
  }

  predicate EndsIn(items: seq<Item>, last: Item) {
    |items| > 0 && items[|items| - 1] == last
  }

  lemma EndsInConcat(a: seq<Item>, b: seq<Item>, last: Item)
    requires EndsIn(b, last)
    ensures EndsIn(a + b, last)
  {
  }

  lemma EndsInOne(last: Item)
    ensures EndsIn([last], last)
  {
  }

  lemma FrameEndsIn(frame: Frame, b: seq<Item>, last: Item)
    requires EndsIn(b, last)
    ensures EndsIn([Whole(frame)] + b, last) && EndsIn([Message([])] + b, last) && EndsIn([] + b, last)
  {
  }

  predicate AllIdle(script: seq<Arrival>) {
    forall i :: 0 <= i < |script| ==> script[i] == NothingYet
  }

  lemma {:induction false} IdleArrives(script: seq<Arrival>)
    requires AllIdle(script)
    ensures Arriving(script) == []
  {
    if script != [] {
      IdleArrives(script[1..]);
    }
  }

  lemma UnhurriedPiece(r: Reader)
    requires Good(r) && !r.eos && AllIdle(r.script) && |r.script| >= |Flatten(r.bufs)| && r.remainingData > 0
    ensures var (piece, r1) := PollData(r);
            match piece
            case PieceError(_) => false
            case PieceNone => true
            case _ => !r1.eos && AllIdle(r1.script) && |r1.script| >= |Flatten(r1.bufs)|
  {
    hide Good, Frames.Decode;
    if r.bufs != [] {
      FirstChunkIsPrefix(r.bufs, r.remainingData);
    }
  }

  /** If the end is not seen before the buffer has drained, the reader of a dangling payload gets an end. */
  lemma {:induction false} Unhurried(r: Reader, body: Bytes)
    requires Good(r) && !r.eos && AllIdle(r.script) && |r.script| >= |Flatten(r.bufs)|
    requires |All(r)| < r.remainingData || DanglingFrom(r)
    ensures EndsIn(Drive(r, body), CutBody)
    decreases |All(r)| + |r.script|
  {
    hide Good, PollNext, PollData, First, Frames.Decode, AllIdle, Flatten, Arriving, EndsIn;
    FirstShorter(All(r));
    IdleArrives(r.script);
    if r.remainingData == 0 {
      assert Dangling(All(r));
      BufferedFrame(r);
      var (next, r1) := PollNext(r);
      assert Flatten(r1.bufs) + [] == Flatten(r1.bufs) && Flatten(r.bufs) + [] == Flatten(r.bufs);
      Unhurried(r1, []);
      FrameEndsIn(next.frame, Drive(r1, []), CutBody);
    } else {
      PollDataAgrees(r);
      UnhurriedPiece(r);
      var (piece, r1) := PollData(r);
      if piece.PieceOf? {
        var d := piece.octets;
        assert All(r)[|d|..] == All(r1);
        if r1.remainingData > 0 {
          PieceSeen(r, r1, body, d);
          Unhurried(r1, body + d);
        } else {
          Unhurried(r1, []);
          EndsInConcat([Message(body + d)], Drive(r1, []), CutBody);
        }
      } else if piece.PiecePending? {
        Unhurried(r1, body);
      } else {
        EndsInOne(CutBody);
      }
    }
  }

  function Idle(n: nat): seq<Arrival> {
    seq(n, _ => NothingYet)
  }

  lemma ArrivingAtOnce(s: Chunk, n: nat)
    ensures Arriving([Arrived(s)] + Idle(n)) == s && AllIdle(Idle(n)) && Unbroken([Arrived(s)] + Idle(n))
  {
    IdleArrives(Idle(n));
    assert ([Arrived(s)] + Idle(n))[1..] == Idle(n);
    assert s + [] == s;
  }

  /** A reader that has buffered nothing asks first. */
  lemma FirstArrival(s: Chunk, rest: seq<Arrival>)
    ensures var (a, b) := (Start([Arrived(s)] + rest), Reader([s], false, rest, None, 0));
            && Good(a) && Good(b) && Drive(a, []) == Drive(b, []) && All(b) == s + Arriving(rest)
  {
    hide Hint, PollData, First, Frames.Decode;
    var (a, b) := (Start([Arrived(s)] + rest), Reader([s], false, rest, None, 0));
    StartGood([Arrived(s)] + rest);
    NoHint(b);
    assert ([Arrived(s)] + rest)[1..] == rest && [] + [s] == [s];
    assert [s][1..] == [] && s + [] == s;
    assert PollNext(a) == PollNext(b);
  }

  /** While reading does not fail, what a reader sees depends on the octets of the stream alone exactly when
      the stream does not end inside a payload after its first octet. */
  lemma CutIndependence(s: Bytes)
    ensures (forall a, b :: Arriving(a) == s && Arriving(b) == s && Unbroken(a) && Unbroken(b) ==>
               Good(Start(a)) && Good(Start(b)) && Drive(Start(a), []) == Drive(Start(b), []))
            <==> !Dangling(s)
  {
    hide Good, PollNext, PollData, First, Frames.Decode, Arriving, Drive, Parse, Dangling, All, AllIdle, Unbroken;
    if !Dangling(s) {
      forall a, b | Arriving(a) == s && Arriving(b) == s && Unbroken(a) && Unbroken(b)
        ensures Good(Start(a)) && Good(Start(b)) && Drive(Start(a), []) == Drive(Start(b), [])
      {
        SeesParse(a);
        SeesParse(b);
      }
    } else {
      DanglingNotEmpty(s);
      var (a, b) := ([Arrived(s)] + Idle(0), [Arrived(s)] + Idle(|s|));
      TwoReaders(s);
    }
  }

  /** Such streams exist: a DATA frame of two octets that ends after the first. */
  lemma CutShort()
    ensures Dangling([0, 2, 97])
  {
    hide Frames.Decode;
    var s := [0, 2, 97];
    LengthTwo();
    FirstExtends(s, []);
    assert s + [] == s && [97] + [] == [97];
  }

  lemma LengthTwo()
    ensures Frames.Decode([0, 2, 97]) == Decoded(Data(2), [97])
  {
    hide VarInts.Decode;
    VarInts.SmallValue([0, 2, 97]);
    VarInts.SmallValue([2, 97]);
    assert [0, 2, 97][1..] == [2, 97] && [2, 97][1..] == [97];
  }

  lemma DanglingNotEmpty(s: Bytes)
    requires Dangling(s)
    ensures s != []
  {
  }

  lemma TwoReaders(s: Chunk)
    requires Dangling(s)
    ensures var (a, b) := (Start([Arrived(s)] + Idle(0)), Start([Arrived(s)] + Idle(|s|)));
            && Arriving(a.script) == Arriving(b.script) == s && Unbroken(a.script) && Unbroken(b.script)
            && Good(a) && Good(b) && Drive(a, []) != Drive(b, [])
  {
    hide Good, PollNext, PollData, First, Frames.Decode, Arriving, Drive, Dangling, Unbroken, AllIdle;
    ArrivingAtOnce(s, 0);
    ArrivingAtOnce(s, |s|);
    FirstArrival(s, Idle(0));
    FirstArrival(s, Idle(|s|));
    IdleArrives(Idle(0));
    IdleArrives(Idle(|s|));
    assert s + [] == s && [s][1..] == [];
    var (a, b) := (Reader([s], false, Idle(0), None, 0), Reader([s], false, Idle(|s|), None, 0));
    assert DanglingFrom(a) && DanglingFrom(b);
    AtOnce(a, []);
    Unhurried(b, []);
  }

  // ---------------------------------------------------------- streams of frames

  /** A frame and how its integers are written. */
  datatype Sent = Sent(wire: Wire, widths: Widths)

  /** Frames that say how long they are: all but the header of a WebTransport stream. */
  ghost predicate AllDelimited(ws: seq<Sent>) {
    forall i :: 0 <= i < |ws| ==> Delimited(ws[i])
  }

  ghost predicate Delimited(w: Sent) {
    WireFits(w.wire, w.widths) && !(w.wire.Other? && w.wire.frame.WebTransportStream?)
  }

  ghost function EncodeAll(ws: seq<Sent>): Bytes
    requires AllDelimited(ws)
  {
    if ws == [] then [] else
    assert Delimited(ws[0]);
    Frames.EncodeIn(ws[0].wire, ws[0].widths) + EncodeAll(ws[1..])
  }

  function MeantBy(wire: Wire): seq<Item> {
    match wire
    case Body(payload) => [Message(payload)]
    case Other(frame) => [Whole(Received(frame))]
    case Grease(_, _) => []
  }

  /** What a receiver is meant to see of what was sent: payloads whole, unknown frames not at all, and how the
      stream ends. */
  function Meant(ws: seq<Sent>, end: Item): seq<Item> {
    if ws == [] then [end] else MeantBy(ws[0].wire) + Meant(ws[1..], end)
  }

  lemma {:induction false} ParseEncoded(ws: seq<Sent>, last: Bytes, end: Item)
    requires AllDelimited(ws) && Parse(last) == [end] && !Dangling(last)
    ensures Parse(EncodeAll(ws) + last) == Meant(ws, end) && !Dangling(EncodeAll(ws) + last)
    decreases |ws|
  {
    hide Frames.Decode, Frames.EncodeIn, First, Parse, Dangling, WireFits;
    if ws == [] {
      assert EncodeAll(ws) + last == last;
    } else {
      assert Delimited(ws[0]);
      ParseEncoded(ws[1..], last, end);
      var more := EncodeAll(ws[1..]) + last;
      assert EncodeAll(ws) + last == Frames.EncodeIn(ws[0].wire, ws[0].widths) + more;
      WireSeen(ws[0], more);
    }
  }

  lemma WireSeen(w: Sent, rest: Bytes)
    requires Delimited(w)
    ensures var s := Frames.EncodeIn(w.wire, w.widths) + rest;
            Parse(s) == MeantBy(w.wire) + Parse(rest) && (Dangling(s) <==> Dangling(rest))
  {
    hide Frames.Decode, Frames.EncodeIn, First, Parse, Dangling;
    hide PayloadFits, PayloadIn, TypeOf;
    var s := Frames.EncodeIn(w.wire, w.widths) + rest;
    EncodeNotEmpty(w.wire, w.widths);
    FirstExtends(s, []);
    assert s + [] == s;
    match w.wire
    case Body(payload) =>
      BodyRoundTrip(payload, w.widths, rest);
      assert payload + rest + [] == payload + rest;
      assert (payload + rest)[..|payload|] == payload && (payload + rest)[|payload|..] == rest;
      FrameFirst(s, Data(|payload|), payload + rest);
    case Other(frame) =>
      FrameRoundTrip(frame, w.widths, rest);
      assert rest + [] == rest && rest[0..] == rest;
      NoPayloadApart(frame, w.widths);
      FrameFirst(s, Received(frame), rest);
    case Grease(ty, payload) =>
      GreaseSkipped(ty, payload, w.widths, rest);
      assert rest + [] == rest;
      SameFirst(s, rest);
      assert [] + Parse(rest) == Parse(rest);
      DanglingZero(s);
      DanglingZero(rest);
  }

  lemma NoPayloadApart(frame: Frame, w: Widths)
    requires PayloadFits(frame, w) && !frame.WebTransportStream?
    ensures PayloadLength(Received(frame)) == 0 && !Received(frame).Data?
  {
  }

  lemma DanglingZero(s: Bytes)
    ensures DanglingBody(s, 0) == Dangling(s)
  {
    hide Dangling;
  }

  lemma FrameFirst(s: Bytes, frame: Frame, rest: Bytes)
    requires First(s) == OneFrame(frame, rest) && PayloadLength(frame) <= |rest|
    ensures var n := PayloadLength(frame);
            && Parse(s) == (if frame.Data? then [Message(rest[..n])]
                            else if n == 0 then [Whole(frame)]
                            else [Whole(frame), Message(rest[..n])]) + Parse(rest[n..])
            && (Dangling(s) <==> Dangling(rest[n..]))
  {
    hide First;
    var n := PayloadLength(frame);
    assert rest[0..] == rest;
    assert Dangling(s) == DanglingBody(rest, n);
    assert DanglingBody(rest, n) == Dangling(rest[n..]);
    assert [Whole(frame)] + ([Message(rest[..n])] + Parse(rest[n..]))
        == [Whole(frame), Message(rest[..n])] + Parse(rest[n..]);
  }

  /** Frames sent one after another, with their integers in whatever lengths, in whatever chunks and at
      whatever times they arrive, are seen exactly as they were meant: every known frame in order, every
      payload whole, unknown frames skipped, and the end of the stream. */
  lemma FramesArrive(ws: seq<Sent>, script: seq<Arrival>)
    requires AllDelimited(ws) && Arriving(script) == EncodeAll(ws) && Unbroken(script)
    ensures Good(Start(script)) && Drive(Start(script), []) == Meant(ws, Finished)
  {
    hide Good, Drive, Parse, Dangling, Arriving, EncodeAll, Meant;
    NothingLeft();
    assert EncodeAll(ws) + [] == EncodeAll(ws);
    ParseEncoded(ws, [], Finished);
    SeesParse(script);
  }

  lemma NothingLeft()
    ensures Parse([]) == [Finished] && !Dangling([])
  {
  }

  /** Behind them, a frame that is refused, or not all there, stops the reader with its error. */
  lemma BadFrameStops(ws: seq<Sent>, last: Bytes, script: seq<Arrival>)
    requires last != [] && (Frames.Decode(last).Failed? || Frames.Decode(last).Incomplete?)
    requires AllDelimited(ws) && Arriving(script) == EncodeAll(ws) + last && Unbroken(script)
    ensures var error := if Frames.Decode(last).Failed? then Proto(Frames.Decode(last).error) else UnexpectedEnd;
            Good(Start(script)) && Drive(Start(script), []) == Meant(ws, Stopped(error))
  {
    hide Good, Drive, Arriving, EncodeAll, Meant, Frames.Decode;
    var error := if Frames.Decode(last).Failed? then Proto(Frames.Decode(last).error) else UnexpectedEnd;
    ParseEncoded(ws, last, Stopped(error));
    SeesParse(script);
  }
}
