/** Reading frames and DATA payloads from a stream that arrives in chunks (h3/src/frame.rs, and the receive
    buffer of h3/src/stream.rs), section 7.1 of RFC 9114. */
module FrameReader {
  import opened Octets
  import opened Frames
  import opened BufLists

  /** What the transport answers when it is asked for more: a chunk, nothing yet, or that reading failed.
      After the last arrival the stream ends. */
  datatype Arrival = Arrived(octets: Chunk) | NothingYet | Broken(cause: nat)

  datatype Reader = Reader(bufs: seq<Chunk>, eos: bool, script: seq<Arrival>, expected: Option<nat>, remainingData: nat)

  datatype StreamError = Proto(error: FrameError) | Quic(cause: nat) | UnexpectedEnd

  /** The length of a stream that has none: the largest usize. */
  const ENDLESS := 0xFFFF_FFFF_FFFF_FFFF

  // ----------------------------------------------------------- one call at a time

  datatype Receipt = Ready(end: bool) | NotReady | Failing(cause: nat)

  function TryRecv(r: Reader): (p: (Receipt, Reader)) {
    if r.eos then (Ready(true), r)
    else if r.script == [] then (Ready(true), r.(eos := true))
    else
      match r.script[0]
      case NothingYet => (NotReady, r.(script := r.script[1..]))
      case Broken(cause) => (Failing(cause), r.(script := r.script[1..]))
      case Arrived(c) => (Ready(false), r.(bufs := r.bufs + [c], script := r.script[1..]))
  }

  datatype Taken = Nothing | Got(frame: Frame) | Bad(error: FrameError)

  /** Decode from what is buffered, skipping unknown frames. */
  function Take(r: Reader): (p: (Taken, Reader))
    ensures p.1.script == r.script && p.1.eos == r.eos && p.1.remainingData == r.remainingData
    ensures |Flatten(p.1.bufs)| <= |Flatten(r.bufs)| && |p.1.bufs| <= |r.bufs|
    decreases |Flatten(r.bufs)|
  {
    hide Frames.Decode;
    var content := Flatten(r.bufs);
    Suffix(content);
    if content == [] then (Nothing, r)
    else if r.expected.Some? && |content| < r.expected.value then (Nothing, r)
    else
      match Frames.Decode(content)
      case UnknownFrame(_, rest) =>
        Take(r.(bufs := Dropped(r.bufs, |content| - |rest|), expected := None))
      case Incomplete(min) => (Nothing, r.(expected := Some(min)))
      case Decoded(frame, rest) =>
        (Got(frame), r.(bufs := Dropped(r.bufs, |content| - |rest|), expected := None))
      case Failed(e) => (Bad(e), r)
  }

  datatype Next = NextPending | NextFrame(frame: Frame) | NextNone | NextError(error: StreamError)

  function PollNext(r: Reader): (p: (Next, Reader))
    requires r.remainingData == 0
    decreases |r.script|
  {
    match Take(r)
    case (Got(Data(length)), r1) => (NextFrame(Data(length)), r1.(remainingData := length))
    case (Got(WebTransportStream(id)), r1) => (NextFrame(WebTransportStream(id)), r1.(remainingData := ENDLESS))
    case (Got(frame), r1) => (NextFrame(frame), r1)
    case (Bad(e), r1) => (NextError(Proto(e)), r1)
    case (Nothing, r1) =>
      match TryRecv(r1)
      case (Ready(false), r2) => PollNext(r2)
      case (NotReady, r2) => (NextPending, r2)
      case (Failing(cause), r2) => (NextError(Quic(cause)), r2)
      case (Ready(true), r2) =>
        if Flatten(r2.bufs) != [] then (NextError(UnexpectedEnd), r2) else (NextNone, r2)
  }

  datatype Piece = PiecePending | PieceOf(octets: Bytes) | PieceNone | PieceError(error: StreamError)

  function PollData(r: Reader): (p: (Piece, Reader)) {
    if r.remainingData == 0 then (PieceNone, r) else
    var (receipt, r1) := TryRecv(r);
    if receipt.Failing? then (PieceError(Quic(receipt.cause)), r1) else
    var end := receipt == Ready(true);
    if r1.bufs == [] then (if end then PieceNone else PiecePending, r1) else
    var d := FirstChunk(r1.bufs, r.remainingData);
    var r2 := r1.(bufs := Dropped(r1.bufs, |d|));
    if end && |d| < r.remainingData && r2.bufs == [] then (PieceError(UnexpectedEnd), r2)
    else (PieceOf(d), r2.(remainingData := r.remainingData - |d|))
  }

  class FrameStream {
    const buf: BufList
    var eos: bool
    var script: seq<Arrival>
    var expected: Option<nat>
    var remainingData: nat

    constructor (script: seq<Arrival>)
      ensures State() == Reader([], false, script, None, 0) && fresh(buf)
    {
      buf := new BufList();
      this.script := script;
      eos, expected, remainingData := false, None, 0;
    }

    ghost function State(): Reader
      reads this, buf
    {
      Reader(buf.bufs, eos, script, expected, remainingData)
    }

    method TryReceive() returns (receipt: Receipt)
      modifies this, buf
      ensures (receipt, State()) == TryRecv(old(State()))
    {
      if eos {
        return Ready(true);
      }
      if script == [] {
        eos := true;
        return Ready(true);
      }
      var arrival := script[0];
      script := script[1..];
      match arrival {
        case NothingYet => return NotReady;
        case Broken(cause) => return Failing(cause);
        case Arrived(chunk) =>
          buf.PushBytes(chunk);
          return Ready(false);
      }
    }

    /** Drop what a cursor has read. */
    method Consume(count: nat)
      requires count <= |Flatten(buf.bufs)|
      modifies buf
      ensures buf.bufs == Dropped(old(buf.bufs), count)
    {
      hide Dropped, Flatten;
      var cursor := new Cursor(buf);
      cursor.Advance(count);
      buf.Advance(cursor.posTotal);
    }

    method DecodeBuffered() returns (taken: Taken)
      modifies this`expected, buf
      ensures (taken, State()) == Take(old(State()))
    {
      hide Frames.Decode, Dropped, Flatten;
      while true
        invariant Take(State()) == Take(old(State()))
        decreases |Flatten(buf.bufs)|
      {
        var remaining := buf.Remaining();
        if remaining == 0 {
          return Nothing;
        }
        if expected.Some? && remaining < expected.value {
          return Nothing;
        }
        var content := Flatten(buf.bufs);
        Suffix(content);
        match Frames.Decode(content) {
          case UnknownFrame(_, rest) =>
            Consume(|content| - |rest|);
            expected := None;
          case Incomplete(min) =>
            expected := Some(min);
            return Nothing;
          case Decoded(frame, rest) =>
            Consume(|content| - |rest|);
            expected := None;
            return Got(frame);
          case Failed(e) => return Bad(e);
        }
      }
    }

    method PollNextFrame() returns (next: Next)
      requires remainingData == 0
      modifies this, buf
      ensures (next, State()) == PollNext(old(State()))
    {
      hide Frames.Decode, Take;
      while true
        invariant remainingData == 0 && PollNext(State()) == PollNext(old(State()))
        decreases |script|
      {
        var taken := DecodeBuffered();
        match taken {
          case Got(Data(length)) =>
            remainingData := length;
            return NextFrame(Data(length));
          case Got(WebTransportStream(id)) =>
            remainingData := ENDLESS;
            return NextFrame(WebTransportStream(id));
          case Got(frame) => return NextFrame(frame);
          case Bad(e) => return NextError(Proto(e));
          case Nothing =>
        }
        var receipt := TryReceive();
        match receipt {
          case Ready(false) =>
          case NotReady => return NextPending;
          case Failing(cause) => return NextError(Quic(cause));
          case Ready(true) =>
            var remaining := buf.Remaining();
            if remaining > 0 {
              return NextError(UnexpectedEnd);
            }
            return NextNone;
        }
      }
    }

    method PollPayload() returns (piece: Piece)
      modifies this, buf
      ensures (piece, State()) == PollData(old(State()))
    {
      hide Dropped, Flatten;
      if remainingData == 0 {
        return PieceNone;
      }
      var receipt := TryReceive();
      if receipt.Failing? {
        return PieceError(Quic(receipt.cause));
      }
      var end := receipt == Ready(true);
      var data := buf.TakeChunk(remainingData);
      match data {
        case None => return if end then PieceNone else PiecePending;
        case Some(d) =>
          var left := buf.Remaining();
          NoChunksNoOctets(buf.bufs);
          if end && |d| < remainingData && left == 0 {
            return PieceError(UnexpectedEnd);
          }
          remainingData := remainingData - |d|;
          return PieceOf(d);
      }
    }
  }

  lemma NoChunksNoOctets(bufs: seq<Chunk>)
    ensures |Flatten(bufs)| == 0 <==> bufs == []
  {
  }
}
