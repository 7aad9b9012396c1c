/** Writing frames to a stream when a write may be cancelled at any await (h3/src/stream.rs,
    h3-quinn/src/lib.rs). */
module SendStreams {
  import opened Octets

  // --------------------------------------------------------------- write buffers

  const ENCODE_SIZE := 64

  /** A frame on its way out: its header, encoded in a fixed array, and its payload. */
  class WriteBuf {
    const buf: array<byte>
    var len: nat
    var pos: nat
    var payload: Option<Bytes>

    ghost predicate Valid()
      reads this, buf
    {
      buf.Length == ENCODE_SIZE && pos <= len <= ENCODE_SIZE
    }

    ghost function Left(): Bytes
      reads this, buf
      requires Valid()
    {
      buf[pos..len] + (match payload case Some(p) => p case None => [])
    }

    constructor (header: Bytes, payload: Option<Bytes>)
      requires |header| <= ENCODE_SIZE
      ensures Valid() && fresh(buf)
      ensures Left() == header + (match payload case Some(p) => p case None => [])
    {
      buf := new byte[ENCODE_SIZE](_ => 0);
      len, pos, this.payload := |header|, 0, payload;
      new;
      forall i | 0 <= i < |header| {
        buf[i] := header[i];
      }
      assert buf[0..len] == header;
    }

    method Remaining() returns (n: nat)
      requires Valid()
      ensures n == |Left()|
    {
      n := len - pos + match payload case Some(p) => |p| case None => 0;
    }

    /** The header first, then the payload. */
    method Chunk() returns (chunk: Bytes)
      requires Valid()
      ensures |chunk| <= |Left()| && chunk == Left()[..|chunk|] && (Left() != [] ==> chunk != [])
    {
      if len - pos > 0 {
        return buf[pos..len];
      }
      match payload {
        case Some(p) => return p;
        case None => return [];
      }
    }

    method Advance(count: nat)
      requires Valid() && count <= |Left()|
      modifies this
      ensures Valid() && Left() == old(Left())[count..]
    {
      var cnt := count;
      ghost var left := Left();
      if len - pos > 0 {
        var advanced := Min(cnt, len - pos);
        pos := pos + advanced;
        cnt := cnt - advanced;
      }
      match payload {
        case Some(p) =>
          payload := Some(p[cnt..]);
          assert Left() == left[count..];
        case None =>
          assert Left() == left[count..];
      }
    }
  }

  // ------------------------------------------------------------------ send streams

  /** What the transport answers when offered octets: it takes at least one, or none for now, or fails. */
  datatype Answer = Takes(n: nat) | Blocked | Fails

  datatype Polled = PollOk | PollPending | PollError

  /** What the transport has taken, what waits to be taken, and whether the stream was finished. */
  datatype Sender = Sender(wire: Bytes, writing: Option<Bytes>, finished: bool)

  function Waiting(s: Sender): Bytes {
    match s.writing case Some(data) => data case None => []
  }

  /** A flush in which the transport took `taken` more octets, and then blocked or failed if any are left.
      Once the stream is finished it takes none, and fails. */
  function Flush(s: Sender, taken: nat, fails: bool): (r: (Polled, Sender)) {
    var (data, n) := (Waiting(s), if s.finished then 0 else taken);
    if n >= |data| then (PollOk, s.(wire := s.wire + data, writing := None))
    else
      (if fails || s.finished then PollError else PollPending,
       s.(wire := s.wire + data[..n], writing := Some(data[n..])))
  }

  /** A flush, and then FIN, which can be sent once. */
  function Finish(s: Sender, taken: nat, fails: bool): (r: (Polled, Sender)) {
    var (p, s1) := Flush(s, taken, fails);
    if p != PollOk then (p, s1) else if s1.finished then (PollError, s1) else (PollOk, s1.(finished := true))
  }

  /** Hand over a frame; refused while one is still waiting. */
  function SendData(s: Sender, frame: Bytes): (r: Option<Sender>) {
    if s.writing.Some? then None else Some(s.(writing := Some(frame)))
  }

  lemma MoveOver(wire: Bytes, rest: Bytes, chunk: Bytes, k: nat)
    requires |chunk| <= |rest| && chunk == rest[..|chunk|] && k <= |chunk|
    ensures wire + chunk[..k] + rest[k..] == wire + rest
  {
    assert chunk[..k] == rest[..k];
    assert rest[..k] + rest[k..] == rest;
    assert wire + chunk[..k] + rest[k..] == wire + (rest[..k] + rest[k..]);
  }

  lemma Settled(wire0: Bytes, left: Bytes, wire: Bytes, rest: Bytes)
    requires wire + rest == wire0 + left && |rest| <= |left|
    ensures var t := |left| - |rest|; wire == wire0 + left[..t] && rest == left[t..]
  {
    var (all, t) := (wire0 + left, |left| - |rest|);
    assert all[..|wire|] == wire && all[|wire|..] == rest;
    assert all[..|wire0| + t] == wire0 + left[..t] && all[|wire0| + t..] == left[t..];
  }

  /** A flush that stops with octets left, or with none. */
  lemma FlushStops(s: Sender, wire: Bytes, rest: Bytes, fails: bool)
    requires s.writing.Some? && |rest| <= |Waiting(s)| && wire + rest == s.wire + Waiting(s)
    requires s.finished ==> rest == Waiting(s)
    ensures var taken := |Waiting(s)| - |rest|;
            && (rest != [] && (s.finished ==> fails) ==>
                  Flush(s, taken, fails) == (if fails then PollError else PollPending,
                                             s.(wire := wire, writing := Some(rest))))
            && (rest == [] ==> Flush(s, taken, fails) == (PollOk, s.(wire := wire, writing := None)))
  {
    Settled(s.wire, Waiting(s), wire, rest);
    assert wire + [] == wire;
  }

  lemma NothingToFlush(s: Sender)
    ensures s.writing == None ==> Flush(s, 0, false) == (PollOk, s)
  {
    assert s.wire + [] == s.wire;
  }

  class SendStream {
    var wire: Bytes
    var writing: Option<WriteBuf>
    var finished: bool

    ghost function Footprint(): set<object>
      reads this
    {
      {this} + (match writing case Some(data) => {data, data.buf} case None => {})
    }

    ghost predicate Valid()
      reads Footprint()
    {
      writing.Some? ==> writing.value.Valid()
    }

    ghost function State(): Sender
      reads Footprint()
      requires Valid()
    {
      Sender(wire, match writing case Some(data) => Some(data.Left()) case None => None, finished)
    }

    constructor ()
      ensures Valid() && State() == Sender([], None, false)
    {
      wire, writing, finished := [], None, false;
    }

    /** Write what is buffered, chunk by chunk, as long as the transport takes it. */
    method PollReady(answers: seq<Answer>) returns (polled: Polled, ghost taken: nat)
      requires Valid()
      modifies Footprint()
      ensures Valid() && (polled, State()) == Flush(old(State()), taken, polled == PollError)
      ensures writing.Some? ==> writing == old(writing)
    {
      hide Flush;
      taken := 0;
      ghost var s := State();
      if writing.Some? {
        var data := writing.value;
        var i := 0;
        while true
          invariant writing == old(writing) && Valid() && finished == s.finished
          invariant taken == |Waiting(s)| - |data.Left()| && wire + data.Left() == s.wire + Waiting(s)
          invariant finished ==> data.Left() == Waiting(s)
          decreases |data.Left()|
        {
          ghost var rest := data.Left();
          FlushStops(s, wire, rest, true);
          FlushStops(s, wire, rest, false);
          var remaining := data.Remaining();
          if remaining == 0 {
            break;
          }
          if finished {
            return PollError, taken;
          }
          if i >= |answers| || answers[i].Blocked? {
            return PollPending, taken;
          }
          if answers[i].Fails? {
            return PollError, taken;
          }
          var chunk := data.Chunk();
          var written := Max(1, Min(answers[i].n, |chunk|));
          MoveOver(wire, rest, chunk, written);
          wire := wire + chunk[..written];
          data.Advance(written);
          taken := taken + written;
          i := i + 1;
        }
      } else {
        NothingToFlush(s);
      }
      writing := None;
      polled := PollOk;
    }

    method Send(data: WriteBuf) returns (ok: bool)
      requires Valid() && data.Valid()
      modifies this`writing
      ensures Valid()
      ensures match old(SendData(State(), data.Left()))
              case Some(s) => ok && State() == s
              case None => !ok && unchanged(this)
    {
      if writing.Some? {
        return false;
      }
      writing := Some(data);
      return true;
    }

    /** Flush, then FIN. */
    method PollFinish(answers: seq<Answer>) returns (polled: Polled, ghost taken: nat)
      requires Valid()
      modifies Footprint()
      ensures Valid() && (polled, State()) == Finish(old(State()), taken, polled == PollError)
    {
      polled, taken := PollReady(answers);
      if polled == PollOk {
        if finished {
          return PollError, taken;
        }
        finished := true;
      }
    }
  }

  // ------------------------------------------------------- writes and cancellation

  /** Where the task that uses the stream is: in a write before or after it handed its frame over, or
      finishing the stream. */
  datatype Task = Idle | Flushing(frame: Bytes) | Sending | Finishing

  /** A write that was begun, whether its frame was handed over, and whether it returned without an error. */
  datatype Fate = Fate(frame: Bytes, handed: bool, done: bool)

  datatype World = World(sender: Sender, task: Task, writes: seq<Fate>, misused: bool, finAfter: Option<nat>)

  /** A poll carries what the transport takes, before and after the frame is handed over. */
  datatype Event =
    | Begin(frame: Bytes)
    | BeginFinish
    | Poll(taken: nat, fails: bool, takenAfter: nat, failsAfter: bool)
    | Cancel

  const START := World(Sender([], None, false), Idle, [], false, None)

  /** The latest write has handed its frame over, and may have returned. */
  function LastHanded(writes: seq<Fate>, done: bool): seq<Fate> {
    if writes == [] then [] else writes[|writes| - 1 := Fate(writes[|writes| - 1].frame, true, done)]
  }

  function Step(w: World, e: Event): (w': World) {
    match e
    case Begin(frame) =>
      if w.task != Idle then w else w.(task := Flushing(frame), writes := w.writes + [Fate(frame, false, false)])
    case BeginFinish => if w.task != Idle then w else w.(task := Finishing)
    case Cancel => w.(task := Idle)
    case Poll(taken, fails, takenAfter, failsAfter) =>
      match w.task
      case Idle => w
      case Flushing(frame) =>
        var (p, s) := Flush(w.sender, taken, fails);
        if p != PollOk then w.(sender := s, task := if p == PollPending then w.task else Idle) else
        (match SendData(s, frame)
         case None => w.(sender := s, task := Idle, misused := true)
         case Some(s1) =>
           var (p2, s2) := Flush(s1, takenAfter, failsAfter);
           w.(sender := s2, task := if p2 == PollPending then Sending else Idle,
              writes := LastHanded(w.writes, p2 == PollOk)))
      case Sending =>
        var (p, s) := Flush(w.sender, taken, fails);
        w.(sender := s, task := if p == PollPending then Sending else Idle,
           writes := LastHanded(w.writes, p == PollOk))
      case Finishing =>
        var (p, s) := Finish(w.sender, taken, fails);
        w.(sender := s, task := if p == PollPending then Finishing else Idle,
           finAfter := if p == PollOk then Some(|w.writes|) else w.finAfter)
  }

  /** The octets of the frames that were handed over, in the order their writes began. */
  function Handed(writes: seq<Fate>): Bytes {
    if writes == [] then [] else
    Handed(writes[..|writes| - 1]) + if writes[|writes| - 1].handed then writes[|writes| - 1].frame else []
  }

  /** Writes that returned without an error have their frames, and all before, on the wire. */
  ghost predicate DoneOnWire(writes: seq<Fate>, wire: Bytes) {
    forall i :: 0 <= i < |writes| && writes[i].done ==> writes[i].handed && Handed(writes[..i + 1]) <= wire
  }

  ghost predicate Inv(w: World) {
    && (w.task.Flushing? ==> w.writes != [] && w.writes[|w.writes| - 1] == Fate(w.task.frame, false, false))
    && (w.task.Sending? ==> w.writes != [] && w.writes[|w.writes| - 1].handed && !w.writes[|w.writes| - 1].done)
    && DoneOnWire(w.writes, w.sender.wire)
    && w.sender.wire + Waiting(w.sender) == Handed(w.writes)
    && !w.misused
    && (w.sender.finished <==> w.finAfter.Some?)
    && (w.sender.finished ==>
          && w.finAfter.value <= |w.writes| && (w.task.Flushing? || w.task.Sending? ==> w.finAfter.value < |w.writes|)
          && w.sender.wire == Handed(w.writes[..w.finAfter.value]))
  }

  function Run(events: seq<Event>): (w: World) {
    if events == [] then START else Step(Run(events[..|events| - 1]), events[|events| - 1])
  }

  lemma FlushConserves(s: Sender, taken: nat, fails: bool)
    ensures var (p, s') := Flush(s, taken, fails);
            && s'.wire + Waiting(s') == s.wire + Waiting(s) && s'.finished == s.finished
            && (p == PollOk ==> s'.writing == None && s'.wire == s.wire + Waiting(s))
            && (s.finished ==> s'.wire == s.wire) && s.wire <= s'.wire
  {
    var (data, n) := (Waiting(s), if s.finished then 0 else taken);
    assert s.wire + [] == s.wire;
    if n < |data| {
      assert s.wire + data[..n] + data[n..] == s.wire + (data[..n] + data[n..]);
      assert data[..n] + data[n..] == data;
    }
  }

  lemma HandedLast(writes: seq<Fate>, done: bool)
    requires writes != []
    ensures Handed(LastHanded(writes, done))
         == Handed(writes) + if writes[|writes| - 1].handed then [] else writes[|writes| - 1].frame
  {
    hide Handed;
    var (last, earlier) := (LastHanded(writes, done), writes[..|writes| - 1]);
    assert last[..|writes| - 1] == earlier;
    HandedUnfold(writes);
    HandedUnfold(last);
    assert Handed(earlier) + [] == Handed(earlier) && Handed(writes) + [] == Handed(writes);
  }

  lemma HandedUnfold(writes: seq<Fate>)
    requires writes != []
    ensures var last := writes[|writes| - 1];
            Handed(writes) == Handed(writes[..|writes| - 1]) + if last.handed then last.frame else []
  {
  }

  lemma DoneGrows(writes: seq<Fate>, wire: Bytes, wire': Bytes)
    requires DoneOnWire(writes, wire) && wire <= wire'
    ensures DoneOnWire(writes, wire')
  {
    hide Handed;
  }

  lemma DoneBegin(writes: seq<Fate>, frame: Bytes, wire: Bytes)
    requires DoneOnWire(writes, wire)
    ensures DoneOnWire(writes + [Fate(frame, false, false)], wire)
  {
    hide Handed;
    PrefixKept(writes, writes + [Fate(frame, false, false)]);
  }

  lemma DoneLast(writes: seq<Fate>, done: bool, wire: Bytes)
    requires writes != [] && DoneOnWire(writes, wire) && (done ==> Handed(LastHanded(writes, done)) <= wire)
    ensures DoneOnWire(LastHanded(writes, done), wire)
  {
    hide Handed;
    var after := LastHanded(writes, done);
    forall i | 0 <= i < |after| && after[i].done ensures after[i].handed && Handed(after[..i + 1]) <= wire {
      if i == |after| - 1 {
        assert after[..i + 1] == after;
      } else {
        assert after[..i + 1] == writes[..i + 1];
      }
    }
  }

  lemma HandedBegin(writes: seq<Fate>, frame: Bytes)
    ensures Handed(writes + [Fate(frame, false, false)]) == Handed(writes)
  {
    assert (writes + [Fate(frame, false, false)])[..|writes|] == writes;
  }

  lemma StepKeeps(w: World, e: Event)
    requires Inv(w)
    ensures Inv(Step(w, e))
  {
    hide Flush, Handed, LastHanded, DoneOnWire;
    match e
    case Begin(frame) =>
      HandedBegin(w.writes, frame);
      PrefixKept(w.writes, w.writes + [Fate(frame, false, false)]);
      DoneBegin(w.writes, frame, w.sender.wire);
    case Poll(taken, fails, takenAfter, failsAfter) =>
      FlushConserves(w.sender, taken, fails);
      var (p, s) := Flush(w.sender, taken, fails);
      AllWritten(w, s);
      DoneGrows(w.writes, w.sender.wire, s.wire);
      match w.task {
        case Flushing(frame) =>
          if p == PollOk {
            FlushConserves(s.(writing := Some(frame)), takenAfter, failsAfter);
            var (p2, s2) := Flush(s.(writing := Some(frame)), takenAfter, failsAfter);
            LatestKeeps(w.writes, p2 == PollOk, s2);
            DoneGrows(w.writes, s.wire, s2.wire);
            NothingWaits(s);
            DoneLast(w.writes, p2 == PollOk, s2.wire);
          }
        case Sending =>
          LatestKeeps(w.writes, p == PollOk, s);
          DoneLast(w.writes, p == PollOk, s.wire);
        case _ =>
      }
    case _ =>
  }

  lemma NothingWaits(s: Sender)
    ensures s.writing == None ==> s.wire + Waiting(s) == s.wire
  {
  }

  /** The latest write hands its frame over, or returns. */
  lemma LatestKeeps(writes: seq<Fate>, done: bool, s: Sender)
    requires writes != [] && (done ==> s.writing == None)
    requires s.wire + Waiting(s) == Handed(writes) + if writes[|writes| - 1].handed then [] else writes[|writes| - 1].frame
    ensures s.wire + Waiting(s) == Handed(LastHanded(writes, done))
    ensures done ==> Handed(LastHanded(writes, done)) <= s.wire
    ensures |LastHanded(writes, done)| == |writes|
    ensures var last := LastHanded(writes, done)[|writes| - 1]; last.handed && last.done == done
    ensures forall n: nat :: n < |writes| ==> LastHanded(writes, done)[..n] == writes[..n]
  {
    hide Handed;
    HandedLast(writes, done);
    NothingWaits(s);
  }

  lemma PrefixKept(writes: seq<Fate>, more: seq<Fate>)
    requires |writes| <= |more| && more[..|writes|] == writes
    ensures forall n: nat :: n <= |writes| ==> more[..n] == writes[..n]
  {
    forall n: nat | n <= |writes| ensures more[..n] == writes[..n] {
      assert more[..n] == more[..|writes|][..n];
    }
  }

  /** With nothing waiting, the frames handed over are on the wire. */
  lemma AllWritten(w: World, s: Sender)
    ensures s.writing == None && s.wire + Waiting(s) == Handed(w.writes) ==> s.wire == Handed(w.writes[..|w.writes|])
  {
    assert w.writes[..|w.writes|] == w.writes && s.wire + [] == s.wire;
  }

  lemma {:induction false} RunInv(events: seq<Event>)
    ensures Inv(Run(events))
  {
    hide Step, Inv;
    if events == [] {
      StartInv();
    } else {
      RunInv(events[..|events| - 1]);
      StepKeeps(Run(events[..|events| - 1]), events[|events| - 1]);
    }
  }

  lemma StartInv()
    ensures Inv(START)
  {
  }

  /** For every interleaving of writes, partial progress of the transport, cancellation at any await, and
      finishing: a frame is never handed over while another is waiting; what the transport took and what
      still waits are together exactly the frames handed over, in order, each of them whole, so that a
      cancelled write contributes its whole frame or nothing. What precedes FIN on the wire is exactly what
      had been handed over when finishing the stream succeeded, flushed in full, and no write begun later
      adds to it. */
  lemma WritesIntact(events: seq<Event>)
    ensures var w := Run(events);
            && !w.misused
            && w.sender.wire + Waiting(w.sender) == Handed(w.writes)
            && (w.sender.finished <==> w.finAfter.Some?)
            && (w.sender.finished ==>
                  w.finAfter.value <= |w.writes| && w.sender.wire == Handed(w.writes[..w.finAfter.value]))
  {
    hide Run;
    RunInv(events);
  }

  /** A write begun after FIN hands its frame over and then fails: the frame waits for good. */
  lemma WriteAfterFin(w: World, frame: Bytes, poll: Event)
    requires Inv(w) && w.sender.finished && w.sender.writing == None && w.task == Idle && frame != [] && poll.Poll?
    ensures var w' := Step(Step(w, Begin(frame)), poll);
            w'.sender == w.sender.(writing := Some(frame)) && w'.task == Idle && w'.finAfter == w.finAfter
  {
    hide Handed;
    assert w.sender.wire + [] == w.sender.wire;
  }

  /** Every write that returned without an error, whatever came after it, has its frame and everything before
      it on the wire. */
  lemma CompletedWrite(events: seq<Event>)
    ensures var w := Run(events);
            forall i :: 0 <= i < |w.writes| && w.writes[i].done ==>
              w.writes[i].handed && Handed(w.writes[..i + 1]) <= w.sender.wire
  {
    hide Run;
    RunInv(events);
  }

  /** A write returns as soon as its frame is out and no sooner: polled, it waits exactly while octets are left
      and the transport neither fails nor was told that the stream is finished. */
  lemma WriteWaits(events: seq<Event>, e: Event)
    ensures var (w, w') := (Run(events), Step(Run(events), e));
            w.task.Sending? && e.Poll? ==>
              && w'.writes != []
              && (w'.task == Sending <==> w'.sender.writing.Some? && !e.fails && !w.sender.finished)
              && (w'.writes[|w'.writes| - 1].done <==> w'.sender.writing == None)
              && (w'.task == Sending || w'.task == Idle)
  {
    hide Run, Handed, DoneOnWire;
    RunInv(events);
  }
}
