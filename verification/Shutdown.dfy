/** Accepting requests, GOAWAY, and draining a server connection (h3/src/server/connection.rs,
    h3/src/server/stream.rs, h3/src/connection.rs, h3/src/client/connection.rs), section 5.2 of RFC 9114. */
module Shutdown {
  import opened Octets
  import opened StreamIds
  import VarInts

  // ------------------------------------------------------------------ one server

  datatype Server = Server(lastAccepted: Option<nat>, sentClosing: Option<nat>, recvClosing: Option<nat>,
                           ongoing: set<nat>, channel: seq<nat>)

  /** Take in the end messages that have arrived. */
  function Completed(s: Server): Server {
    s.(ongoing := s.ongoing - (set id | id in s.channel), channel := [])
  }

  datatype Accepted = AcceptPending | AcceptStream(id: nat) | AcceptNone

  /** One look at the next stream that has arrived; no answer while there may be more to look at. */
  function LookAt(s: Server, arrivals: seq<nat>): (r: (Option<Accepted>, Server, seq<nat>)) {
    if arrivals == [] then
      if s.recvClosing.Some? then
        var s1 := Completed(s);
        (Some(if s1.ongoing == {} then AcceptNone else AcceptPending), s1, [])
      else (Some(AcceptPending), s, [])
    else
      var id := arrivals[0];
      if s.sentClosing.Some? && id > s.sentClosing.value then
        var s1 := Completed(s);
        (if s1.ongoing == {} then Some(AcceptNone) else None, s1, arrivals[1..])
      else
        (Some(AcceptStream(id)), s.(lastAccepted := Some(id), ongoing := s.ongoing + {id}), arrivals[1..])
  }

  /** End messages that come in while a poll is under way: a batch before each look. */
  type Batches = seq<seq<nat>>

  function Delivered(s: Server, late: Batches): Server {
    if late == [] then s else s.(channel := s.channel + late[0])
  }

  function Later(late: Batches): Batches {
    if late == [] then [] else late[1..]
  }

  /** One poll for the next request, given the streams that have arrived. */
  function PollAccept(s: Server, arrivals: seq<nat>, late: Batches): (r: (Accepted, Server, seq<nat>))
    decreases |arrivals|
  {
    var (answer, s1, queue) := LookAt(Delivered(s, late), arrivals);
    match answer
    case Some(a) => (a, s1, queue)
    case None => PollAccept(s1, queue, Later(late))
  }

  /** The id that a graceful shutdown for `maxRequests` more requests names. */
  function ShutdownId(s: Server, maxRequests: nat): nat {
    match s.lastAccepted case Some(id) => Plus(id, maxRequests) case None => FIRST_REQUEST
  }

  /** The GOAWAY to send, if it lowers what was sent before. */
  function ShutdownTo(s: Server, maxId: nat): (r: (Server, Option<nat>)) {
    if s.sentClosing.Some? && s.sentClosing.value <= maxId then (s, None)
    else (s.(sentClosing := Some(maxId)), Some(maxId))
  }

  /** The GOAWAYs that this adds to the control stream. */
  function Said(goaway: Option<nat>): seq<nat> {
    match goaway case Some(id) => [id] case None => []
  }

  datatype Goaway = Noted(recvClosing: nat) | IdError

  /** A received GOAWAY must not name a larger id than an earlier one. */
  function ProcessGoaway(recvClosing: Option<nat>, id: nat): Goaway {
    if recvClosing.Some? && recvClosing.value < id then IdError else Noted(id)
  }

  /** A client also insists on a request id. */
  function ClientGoaway(recvClosing: Option<nat>, id: nat): Goaway {
    if !IsRequest(id) then IdError else ProcessGoaway(recvClosing, id)
  }

  class Connection {
    var lastAcceptedStream: Option<nat>
    var sentClosing: Option<nat>
    var recvClosing: Option<nat>
    var ongoingStreams: set<nat>
    // End messages on their way from dropped requests, and streams that arrived and were not looked at.
    var requestEnds: seq<nat>
    var arrivals: seq<nat>
    // The GOAWAY ids handed to the control stream.
    var sent: seq<nat>

    constructor ()
      ensures State() == Server(None, None, None, {}, []) && arrivals == [] && sent == []
    {
      lastAcceptedStream, sentClosing, recvClosing := None, None, None;
      ongoingStreams, requestEnds, arrivals, sent := {}, [], [], [];
    }

    ghost function State(): Server
      reads this
    {
      Server(lastAcceptedStream, sentClosing, recvClosing, ongoingStreams, requestEnds)
    }

    method PollRequestsCompletion() returns (ready: bool)
      modifies `ongoingStreams, `requestEnds
      ensures State() == Completed(old(State())) && ready == (ongoingStreams == {})
    {
      while requestEnds != []
        invariant forall id :: id in ongoingStreams && id !in requestEnds
                               <==> id in old(ongoingStreams) && id !in old(requestEnds)
        decreases |requestEnds|
      {
        var id := requestEnds[0];
        assert requestEnds == [id] + requestEnds[1..];
        ongoingStreams := ongoingStreams - {id};
        requestEnds := requestEnds[1..];
      }
      ready := ongoingStreams == {};
    }

    method PollAcceptRequestStream(late: Batches) returns (r: Accepted)
      modifies `lastAcceptedStream, `ongoingStreams, `requestEnds, `arrivals
      ensures (r, State(), arrivals) == PollAccept(Completed(old(State())), old(arrivals), late)
    {
      var _ := PollRequestsCompletion();
      ghost var (s, queue) := (State(), arrivals);
      var coming := late;
      while true
        invariant PollAccept(State(), arrivals, coming) == PollAccept(s, queue, late)
        decreases |arrivals|
      {
        if coming != [] {
          requestEnds := requestEnds + coming[0];
          coming := coming[1..];
        }
        if arrivals == [] {
          if recvClosing.Some? {
            var done := PollRequestsCompletion();
            return if done then AcceptNone else AcceptPending;
          }
          return AcceptPending;
        }
        var id := arrivals[0];
        arrivals := arrivals[1..];
        if sentClosing.Some? && id > sentClosing.value {
          var done := PollRequestsCompletion();
          if done {
            return AcceptNone;
          }
        } else {
          lastAcceptedStream := Some(id);
          ongoingStreams := ongoingStreams + {id};
          return AcceptStream(id);
        }
      }
    }

    method ShutdownFor(maxRequests: nat)
      modifies `sentClosing, `sent
      ensures var (s, goaway) := ShutdownTo(old(State()), ShutdownId(old(State()), maxRequests));
              && State() == s
              && sent == old(sent) + Said(goaway)
    {
      hide Plus, FIRST_REQUEST;
      var maxId := FIRST_REQUEST;
      if lastAcceptedStream.Some? {
        maxId := Plus(lastAcceptedStream.value, maxRequests);
      }
      if sentClosing.Some? && sentClosing.value <= maxId {
        return;
      }
      sentClosing := Some(maxId);
      sent := sent + [maxId];
    }

    /** Accept a request, or say a last GOAWAY when there is nothing left to wait for. */
    method Accept(late: Batches) returns (r: Accepted)
      modifies this
      ensures var (answer, s, queue) := PollAccept(Completed(old(State())), old(arrivals), late);
              && r == answer && arrivals == queue
              && State() == (if answer == AcceptNone then ShutdownTo(s, ShutdownId(s, 0)).0 else s)
              && sent == old(sent) + (if answer == AcceptNone then Said(ShutdownTo(s, ShutdownId(s, 0)).1) else [])
    {
      hide PollAccept;
      r := PollAcceptRequestStream(late);
      if r == AcceptNone {
        ShutdownFor(0);
      }
    }

    method ReceiveGoaway(id: nat) returns (ok: bool)
      modifies `recvClosing
      ensures ProcessGoaway(old(recvClosing), id) == if ok then Noted(id) else IdError
      ensures recvClosing == if ok then Some(id) else old(recvClosing)
    {
      if recvClosing.Some? && recvClosing.value < id {
        return false;
      }
      recvClosing := Some(id);
      return true;
    }
  }

  // ------------------------------------------------------------- whole connections

  /** A server with everything around it: streams on their way, the owners of every accepted request that
      are not dropped yet, what was accepted, rejected and sent so far, and whether a poll is under way. */
  datatype World = World(server: Server, arrivals: seq<nat>, next: nat, owners: map<nat, nat>,
                         arrived: set<nat>, accepted: seq<nat>, rejected: set<nat>, sent: seq<nat>, polling: bool)

  /** A poll begins, and looks at one stream after another; in between anything may happen that is not up to
      the task that polls: streams arrive, and owners of requests are split and dropped. `written` says
      whether the GOAWAY of a shutdown reached the control stream or was cancelled before. */
  datatype Event =
    | Arrive(id: nat)
    | BeginPoll
    | Look(written: bool)
    | CallShutdown(maxRequests: nat, written: bool)
    | PeerGoaway(id: nat)
    | Split(id: nat)
    | DropOwner(id: nat)

  const START := World(Server(None, None, None, {}, []), [], 0, map[], {}, [], {}, [], false)

  function Sent(w: World, r: (Server, Option<nat>), written: bool): World {
    w.(server := r.0, sent := w.sent + (if written then Said(r.1) else []))
  }

  /** The stream that a look turns away, if it does. */
  function TurnedAway(s: Server, arrivals: seq<nat>): set<nat> {
    if arrivals != [] && s.sentClosing.Some? && arrivals[0] > s.sentClosing.value then {arrivals[0]} else {}
  }

  function Step(w: World, e: Event): (w': World) {
    match e
    case Arrive(id) =>
      // Streams arrive in the order of their ids, and only requests are bidirectional towards a server.
      if IsRequest(id) && w.next <= id < VarInts.LIMIT then
        w.(arrivals := w.arrivals + [id], next := id + 1, arrived := w.arrived + {id})
      else w
    case BeginPoll => if w.polling then w else w.(server := Completed(w.server), polling := true)
    case Look(written) =>
      if !w.polling then w else
      var (answer, s, queue) := LookAt(w.server, w.arrivals);
      var w1 := w.(server := s, arrivals := queue, rejected := w.rejected + TurnedAway(w.server, w.arrivals),
                   polling := answer == None);
      (match answer
       case Some(AcceptStream(id)) => w1.(accepted := w.accepted + [id], owners := w.owners[id := 1])
       case Some(AcceptNone) => Sent(w1, ShutdownTo(s, ShutdownId(s, 0)), written)
       case _ => w1)
    case CallShutdown(n, written) =>
      if w.polling then w else Sent(w, ShutdownTo(w.server, ShutdownId(w.server, n)), written)
    case PeerGoaway(id) =>
      if w.polling then w else
      (match ProcessGoaway(w.server.recvClosing, id)
       case Noted(noted) => w.(server := w.server.(recvClosing := Some(noted)))
       case IdError => w)
    case Split(id) => if id in w.owners then w.(owners := w.owners[id := w.owners[id] + 1]) else w
    case DropOwner(id) =>
      if id !in w.owners then w
      else if w.owners[id] > 1 then w.(owners := w.owners[id := w.owners[id] - 1])
      else w.(owners := w.owners - {id}, server := w.server.(channel := w.server.channel + [id]))
  }

  function Run(events: seq<Event>): World {
    if events == [] then START else Step(Run(events[..|events| - 1]), events[|events| - 1])
  }

  function Looks(w: World, written: bool, n: nat): World
    decreases n
  {
    if n == 0 then w else Looks(Step(w, Look(written)), written, n - 1)
  }

  /** What a poll of the connection does is what a number of looks do. */
  lemma {:induction false} PollIsLooks(w: World, written: bool) returns (n: nat)
    requires w.polling
    ensures var (r, s, queue) := PollAccept(w.server, w.arrivals, []);
            var w' := Looks(w, written, n);
            && !w'.polling && w'.arrivals == queue
            && w'.server == (if r == AcceptNone then ShutdownTo(s, ShutdownId(s, 0)).0 else s)
            && w'.accepted == w.accepted + (if r.AcceptStream? then [r.id] else [])
    decreases |w.arrivals|
  {
    hide ShutdownId, TurnedAway, Completed;
    n := 1;
    assert Looks(w, written, 1) == Looks(Step(w, Look(written)), written, 0);
    if LookAt(w.server, w.arrivals).0 == None {
      var m := PollIsLooks(Step(w, Look(written)), written);
      n := m + 1;
    }
  }

  ghost predicate Increasing(ids: seq<nat>) {
    forall i, j :: 0 <= i < j < |ids| ==> ids[i] < ids[j]
  }

  ghost predicate Decreasing(ids: seq<nat>) {
    forall i, j :: 0 <= i < j < |ids| ==> ids[i] > ids[j]
  }

  ghost predicate RequestIds(ids: seq<nat>) {
    forall id :: id in ids ==> IsRequest(id) && id < VarInts.LIMIT
  }

  /** A request is being waited for exactly while it has an owner, or its end message is on its way. */
  ghost predicate Tracking(w: World) {
    && (forall id :: id in w.server.ongoing <==> id in w.owners || id in w.server.channel)
    && (forall id :: id in w.owners ==> id !in w.server.channel && id in w.accepted)
    && (forall id :: id in w.server.channel ==> id in w.accepted)
  }

  /** Requests were accepted in increasing order, before whatever is still to be looked at. */
  ghost predicate Ordered(w: World) {
    && RequestIds(w.accepted) && RequestIds(w.arrivals)
    && Increasing(w.accepted + w.arrivals)
    && (forall id :: id in w.accepted || id in w.arrivals || id in w.rejected ==> id < w.next)
    && (forall id, a :: id in w.rejected && a in w.arrivals ==> id < a)
    && w.server.lastAccepted == if w.accepted == [] then None else Some(w.accepted[|w.accepted| - 1])
  }

  /** Nothing accepted is beyond a GOAWAY, and everything rejected is beyond the lowest one. */
  ghost predicate Bounded(w: World) {
    && (forall a, g :: a in w.accepted && g in w.sent ==> a <= g)
    && (w.server.sentClosing.Some? ==>
          && IsRequest(w.server.sentClosing.value) && w.server.sentClosing.value < VarInts.LIMIT
          && (forall a :: a in w.accepted ==> a <= w.server.sentClosing.value)
          && (forall g :: g in w.sent ==> g >= w.server.sentClosing.value))
    && (w.server.sentClosing.None? ==> w.sent == [] && w.rejected == {})
    && (forall r :: r in w.rejected ==> r > w.server.sentClosing.value && r !in w.accepted)
    && RequestIds(w.sent) && Decreasing(w.sent)
  }

  /** Every stream that arrived was accepted, was turned away, or is still to be looked at. */
  ghost predicate Kept(w: World) {
    forall id :: id in w.arrived ==> id in w.accepted || id in w.rejected || id in w.arrivals
  }

  ghost predicate Inv(w: World) {
    Tracking(w) && Ordered(w) && Bounded(w) && Kept(w)
  }

  lemma ArriveKeeps(w: World, e: Event)
    requires Inv(w) && e.Arrive?
    ensures Inv(Step(w, e))
  {
    hide IsRequest;
    var w' := Step(w, e);
    if w' != w {
      assert w'.accepted + w'.arrivals == w.accepted + w.arrivals + [e.id];
      AppendIncreasing(w.accepted + w.arrivals, e.id);
    }
  }

  lemma AppendIncreasing(ids: seq<nat>, id: nat)
    requires Increasing(ids) && forall x :: x in ids ==> x < id
    ensures Increasing(ids + [id])
  {
    forall i, j | 0 <= i < j < |ids + [id]| ensures (ids + [id])[i] < (ids + [id])[j] {
      assert ids[i] in ids;
    }
  }

  lemma AppendDecreasing(ids: seq<nat>, id: nat)
    requires Decreasing(ids) && forall x :: x in ids ==> x > id
    ensures Decreasing(ids + [id])
  {
    forall i, j | 0 <= i < j < |ids + [id]| ensures (ids + [id])[i] > (ids + [id])[j] {
      assert ids[i] in ids;
    }
  }

  lemma OwnersKeep(w: World, e: Event)
    requires Inv(w) && (e.Split? || e.DropOwner? || e.PeerGoaway?)
    ensures Inv(Step(w, e))
  {
    hide IsRequest, Increasing, Decreasing, RequestIds, Tracking;
    TrackingKept(w, e);
  }

  lemma TrackingKept(w: World, e: Event)
    requires Tracking(w) && (e.Split? || e.DropOwner? || e.PeerGoaway?)
    ensures Tracking(Step(w, e))
  {
    if e.DropOwner? && e.id in w.owners && w.owners[e.id] <= 1 {
      assert forall id :: id in w.server.channel + [e.id] <==> id in w.server.channel || id == e.id;
    }
  }

  /** Sending, or only meaning to send, a GOAWAY keeps the bounds. */
  lemma ShutdownKeeps(w: World, n: nat, written: bool)
    requires Inv(w)
    ensures Inv(Sent(w, ShutdownTo(w.server, ShutdownId(w.server, n)), written))
  {
    hide IsRequest, ShutdownId, Increasing, Decreasing;
    var maxId := ShutdownId(w.server, n);
    ShutdownIdBounds(w, n);
    assert w.sent + [] == w.sent;
    if !(w.server.sentClosing.Some? && w.server.sentClosing.value <= maxId) && written {
      AppendDecreasing(w.sent, maxId);
    }
  }

  lemma LastIsLargest(accepted: seq<nat>, more: seq<nat>)
    requires Increasing(accepted + more) && accepted != []
    ensures forall a :: a in accepted ==> a <= accepted[|accepted| - 1]
  {
    var last := accepted[|accepted| - 1];
    forall a | a in accepted ensures a <= last {
      var i :| 0 <= i < |accepted| && accepted[i] == a;
      assert (accepted + more)[i] == a && (accepted + more)[|accepted| - 1] == last;
    }
  }

  lemma ShutdownIdBounds(w: World, n: nat)
    requires Inv(w)
    ensures var id := ShutdownId(w.server, n);
            IsRequest(id) && id < VarInts.LIMIT && forall a :: a in w.accepted ==> a <= id
  {
    hide IsRequest, Plus, FIRST_REQUEST, Increasing, Decreasing;
    FirstRequest();
    if w.accepted != [] {
      var last := w.accepted[|w.accepted| - 1];
      assert last in w.accepted;
      PlusProperties(last, n);
      LastIsLargest(w.accepted, w.arrivals);
    }
  }

  /** Completed end messages leave the set, and nothing else does. */
  lemma CompletedKeeps(w: World)
    requires Inv(w)
    ensures Inv(w.(server := Completed(w.server)))
  {
    hide IsRequest, Increasing, Decreasing, RequestIds;
  }

  /** The queue without its first stream. */
  lemma RestOrdered(accepted: seq<nat>, arrivals: seq<nat>)
    requires Increasing(accepted + arrivals) && arrivals != []
    ensures Increasing(accepted + arrivals[1..]) && Increasing((accepted + [arrivals[0]]) + arrivals[1..])
    ensures forall a :: a in accepted ==> a < arrivals[0]
    ensures forall a :: a in arrivals[1..] ==> a > arrivals[0] && a in arrivals
  {
    var (all, rest) := (accepted + arrivals, accepted + arrivals[1..]);
    assert (accepted + [arrivals[0]]) + arrivals[1..] == all;
    forall i, j | 0 <= i < j < |rest| ensures rest[i] < rest[j] {
      var (p, q) := (if i < |accepted| then i else i + 1, if j < |accepted| then j else j + 1);
      assert rest[i] == all[p] && rest[j] == all[q];
    }
    forall a | a in accepted ensures a < arrivals[0] {
      var i :| 0 <= i < |accepted| && accepted[i] == a;
      assert all[i] == a && all[|accepted|] == arrivals[0];
    }
    forall a | a in arrivals[1..] ensures a > arrivals[0] && a in arrivals {
      var i :| 0 <= i < |arrivals[1..]| && arrivals[1..][i] == a;
      assert all[|accepted|] == arrivals[0] && all[|accepted| + 1 + i] == a && arrivals[i + 1] == a;
    }
  }

  lemma AcceptStreamKeeps(w: World)
    requires Inv(w) && w.arrivals != []
    requires w.server.sentClosing.Some? ==> w.arrivals[0] <= w.server.sentClosing.value
    ensures var (id, s) := (w.arrivals[0], w.server);
            Inv(w.(server := s.(lastAccepted := Some(id), ongoing := s.ongoing + {id}), arrivals := w.arrivals[1..],
                   accepted := w.accepted + [id], owners := w.owners[id := 1], polling := false))
  {
    hide IsRequest, Increasing;
    RestOrdered(w.accepted, w.arrivals);
    assert w.arrivals[0] in w.arrivals && w.arrivals[0] !in w.accepted;
  }

  lemma RejectKeeps(w: World)
    requires Inv(w) && w.arrivals != [] && w.server.sentClosing.Some? && w.arrivals[0] > w.server.sentClosing.value
    ensures Inv(w.(arrivals := w.arrivals[1..], rejected := w.rejected + {w.arrivals[0]}))
  {
    hide IsRequest, Increasing;
    RestOrdered(w.accepted, w.arrivals);
    assert w.arrivals[0] in w.arrivals && w.arrivals[0] !in w.accepted;
  }

  lemma LookKeeps(w: World, e: Event)
    requires Inv(w) && e.Look?
    ensures Inv(Step(w, e))
  {
    hide Tracking, Ordered, Bounded, Completed, ShutdownId, ShutdownTo;
    if w.polling && w.arrivals != [] && TurnedAway(w.server, w.arrivals) == {} {
      assert w.rejected + {} == w.rejected;
      AcceptStreamKeeps(w);
    } else if w.polling {
      var (answer, s, queue) := LookAt(w.server, w.arrivals);
      var w1 := w.(arrivals := queue, rejected := w.rejected + TurnedAway(w.server, w.arrivals));
      if w.arrivals != [] {
        RejectKeeps(w);
      } else {
        assert w.rejected + {} == w.rejected;
      }
      CompletedKeeps(w1);
      PollingKeeps(w1.(server := s), answer == None);
      ShutdownKeeps(w1.(server := s, polling := answer == None), 0, e.written);
    }
  }

  lemma PollingKeeps(w: World, polling: bool)
    requires Inv(w)
    ensures Inv(w.(polling := polling))
  {
    hide IsRequest, Increasing, Decreasing, RequestIds;
  }

  lemma {:induction false} RunInv(events: seq<Event>)
    ensures Inv(Run(events))
  {
    hide Step, Inv;
    if events == [] {
      StartInv();
    } else {
      var (w, e) := (Run(events[..|events| - 1]), events[|events| - 1]);
      RunInv(events[..|events| - 1]);
      match e
      case Arrive(_) => ArriveKeeps(w, e);
      case BeginPoll => BeginKeeps(w);
      case Look(_) => LookKeeps(w, e);
      case CallShutdown(n, written) => ShutdownStep(w, n, written);
      case _ => OwnersKeep(w, e);
    }
  }

  lemma BeginKeeps(w: World)
    requires Inv(w)
    ensures Inv(Step(w, BeginPoll))
  {
    hide Inv, Completed;
    CompletedKeeps(w);
    PollingKeeps(w.(server := Completed(w.server)), true);
  }

  lemma ShutdownStep(w: World, n: nat, written: bool)
    requires Inv(w)
    ensures Inv(Step(w, CallShutdown(n, written)))
  {
    hide Inv, ShutdownTo, ShutdownId;
    ShutdownKeeps(w, n, written);
  }

  lemma StartInv()
    ensures Inv(START)
  {
  }

  // --------------------------------------------------------------- guarantees

  /** A client that reads GOAWAYs one after another; None once it raises H3_ID_ERROR. */
  function ClientReads(recvClosing: Option<nat>, ids: seq<nat>): (r: Option<Option<nat>>)
    decreases |ids|
  {
    if ids == [] then Some(recvClosing) else
    match ClientGoaway(recvClosing, ids[0])
    case IdError => None
    case Noted(id) => ClientReads(Some(id), ids[1..])
  }

  /** A client accepts a list of GOAWAYs exactly if they are request ids that never increase. */
  lemma {:induction false} ClientAccepts(recvClosing: Option<nat>, ids: seq<nat>)
    ensures ClientReads(recvClosing, ids).Some? <==>
            && (forall id :: id in ids ==> IsRequest(id))
            && (forall i, j :: 0 <= i < j < |ids| ==> ids[i] >= ids[j])
            && (recvClosing.Some? && ids != [] ==> recvClosing.value >= ids[0])
    decreases |ids|
  {
    hide IsRequest;
    if ids != [] {
      var rest := ids[1..];
      assert forall id :: id in ids <==> id == ids[0] || id in rest;
      assert forall i :: 0 <= i < |rest| ==> rest[i] == ids[i + 1];
      ClientAccepts(Some(ids[0]), rest);
      if ClientReads(recvClosing, ids).Some? {
        forall i, j | 0 <= i < j < |ids| ensures ids[i] >= ids[j] {
          if i > 0 {
            assert rest[i - 1] >= rest[j - 1];
          } else if j > 1 {
            assert rest[0] >= rest[j - 1];
          }
        }
      }
    }
  }

  /** Over every mix of arrivals, accepts, shutdowns (some cancelled before their frame was written), peer
      GOAWAYs and finished requests: the GOAWAYs sent strictly decrease, are request ids below 2^62, and none
      is below a stream accepted before or after it; and a client that reads them in order never raises an
      id error. */
  lemma GoawayAgreement(events: seq<Event>)
    ensures var w := Run(events);
            && Decreasing(w.sent) && RequestIds(w.sent)
            && (forall a, g :: a in w.accepted && g in w.sent ==> a <= g)
            && (forall r, a :: r in w.rejected && a in w.accepted ==> r > a)
            && ClientReads(None, w.sent).Some?
  {
    hide IsRequest, Run, Tracking, Ordered;
    RunInv(events);
    ClientAccepts(None, Run(events).sent);
  }

  /** What a poll answers, in every run: the next stream unless it is beyond the GOAWAY in force; that there
      will be no more exactly when no request has an owner left and there is a reason to end, a stream beyond
      the GOAWAY or one from the peer; and otherwise it waits, or looks on. */
  lemma AnswersExact(events: seq<Event>)
    ensures var w := Run(events);
            var (answer, s) := (LookAt(w.server, w.arrivals).0, w.server);
            var beyond := w.arrivals != [] && s.sentClosing.Some? && w.arrivals[0] > s.sentClosing.value;
            && (answer == Some(AcceptNone) <==>
                  w.owners == map[] && (beyond || (w.arrivals == [] && s.recvClosing.Some?)))
            && (answer == None <==> beyond && w.owners != map[])
            && (w.arrivals != [] && !beyond ==> answer == Some(AcceptStream(w.arrivals[0])))
            && (answer == Some(AcceptPending) <==> w.arrivals == [] && (s.recvClosing.None? || w.owners != map[]))
  {
    hide Run, Ordered, Bounded, Kept;
    RunInv(events);
    NobodyOwns(Run(events));
  }

  lemma NobodyOwns(w: World)
    requires Tracking(w)
    ensures Completed(w.server).ongoing == {} <==> w.owners == map[]
  {
    if w.owners == map[] {
      assert Completed(w.server).ongoing == {};
    } else {
      var id :| id in w.owners;
      assert id in Completed(w.server).ongoing;
    }
  }

  /** A shutdown for n more requests grants exactly n: unless a GOAWAY in force is lower already, the one in
      force afterwards is n streams behind the last accepted one, and if it is new it is what goes out. When
      nothing was accepted, it is the first stream there is. */
  lemma ShutdownGrants(events: seq<Event>, n: nat, written: bool)
    ensures var w := Run(events);
            !w.polling && w.accepted != [] ==>
              var g := w.accepted[|w.accepted| - 1] + 4 * n;
              g < VarInts.LIMIT && (w.server.sentClosing.None? || w.server.sentClosing.value >= g) ==>
                var w' := Step(w, CallShutdown(n, written));
                && w'.server == w.server.(sentClosing := Some(g))
                && w'.sent == w.sent + if written && w.server.sentClosing != Some(g) then [g] else []
    ensures var w := Run(events);
            !w.polling && w.accepted == [] ==> Step(w, CallShutdown(n, written)).server.sentClosing == Some(0)
  {
    hide Run, Plus, IsRequest, Tracking, Kept, Increasing, Decreasing, RequestIds;
    RunInv(events);
    var w := Run(events);
    if w.accepted != [] && w.accepted[|w.accepted| - 1] + 4 * n < VarInts.LIMIT {
      PlusExact(w.accepted[|w.accepted| - 1], n);
    }
  }

  /** While a GOAWAY is in force, of all streams that ever arrived those up to it were accepted or are still
      to be looked at, and those beyond it were not accepted. */
  lemma GrantKept(events: seq<Event>)
    ensures var w := Run(events);
            w.server.sentClosing.Some? ==>
              forall id :: id in w.arrived ==>
                if id <= w.server.sentClosing.value then id in w.accepted || id in w.arrivals else id !in w.accepted
  {
    hide Run, IsRequest, Tracking, Increasing, Decreasing, RequestIds;
    RunInv(events);
  }

  function RunFrom(w: World, events: seq<Event>): World
    decreases |events|
  {
    if events == [] then w else RunFrom(Step(w, events[0]), events[1..])
  }

  lemma {:induction false} RunOn(before: seq<Event>, events: seq<Event>)
    ensures Run(before + events) == RunFrom(Run(before), events)
    decreases |events|
  {
    hide Step, Run;
    if events == [] {
      assert before + [] == before;
    } else {
      RunNext(before, events[0]);
      RunOn(before + [events[0]], events[1..]);
      assert before + events == before + [events[0]] + events[1..];
    }
  }

  /** n requests one after another, each found by a poll. */
  function Requests(first: nat, n: nat, written: bool): (events: seq<Event>)
    decreases n
  {
    if n == 0 then [] else Request(first, written) + Requests(first + 4, n - 1, written)
  }

  function Request(id: nat, written: bool): (events: seq<Event>) {
    [Arrive(id), BeginPoll, Look(written)]
  }

  function Ids(first: nat, n: nat): (ids: seq<nat>)
    decreases n
  {
    if n == 0 then [] else [first] + Ids(first + 4, n - 1)
  }

  /** Nothing to look at, and the next stream may be `first`. */
  predicate Waiting(w: World, first: nat) {
    !w.polling && w.arrivals == [] && w.next <= first && IsRequest(first)
  }

  lemma OneRequest(w: World, id: nat, written: bool)
    requires Waiting(w, id) && id < VarInts.LIMIT && w.server.sentClosing.Some?
    ensures var w' := RunFrom(w, Request(id, written));
            && w'.server.sentClosing.Some? && w'.next == id + 1
            && (if id <= w.server.sentClosing.value then
                  && w'.accepted == w.accepted + [id] && w'.rejected == w.rejected && !w'.polling && w'.arrivals == []
                  && w'.server.sentClosing == w.server.sentClosing
                else w'.accepted == w.accepted && w'.rejected == w.rejected + {id})
  {
    hide IsRequest, ShutdownId;
    var w1 := Step(w, Arrive(id));
    assert w1.arrivals == [id];
    var w2 := Step(w1, BeginPoll);
    RequestSteps(w, id, written);
  }

  lemma RequestSteps(w: World, id: nat, written: bool)
    ensures RunFrom(w, Request(id, written)) == Step(Step(Step(w, Arrive(id)), BeginPoll), Look(written))
  {
    hide Step;
    var es := Request(id, written);
    assert es[1..] == [BeginPoll, Look(written)] && es[1..][1..] == [Look(written)];
    RunFromOne(Step(Step(w, es[0]), es[1]), Look(written));
  }

  lemma RunFromOne(w: World, e: Event)
    ensures RunFrom(w, [e]) == Step(w, e)
  {
    hide Step;
    assert RunFrom(Step(w, e), [e][1..]) == Step(w, e);
  }

  lemma {:induction false} RequestsAccepted(w: World, first: nat, n: nat, written: bool)
    requires Waiting(w, first) && w.server.sentClosing.Some? && w.server.sentClosing.value < VarInts.LIMIT
    requires n > 0 ==> first + 4 * (n - 1) <= w.server.sentClosing.value
    ensures var w' := RunFrom(w, Requests(first, n, written));
            && w'.accepted == w.accepted + Ids(first, n) && w'.rejected == w.rejected
            && w'.server.sentClosing == w.server.sentClosing && Waiting(w', first + 4 * n)
    decreases n
  {
    hide Step;
    if n == 0 {
      assert w.accepted + [] == w.accepted;
    } else {
      OneRequest(w, first, written);
      NextIsRequest(first);
      var w1 := RunFrom(w, Request(first, written));
      RequestsAccepted(w1, first + 4, n - 1, written);
      RunFromConcat(w, Request(first, written), Requests(first + 4, n - 1, written));
      assert w.accepted + ([first] + Ids(first + 4, n - 1)) == w.accepted + [first] + Ids(first + 4, n - 1);
    }
  }

  lemma NextIsRequest(id: nat)
    ensures IsRequest(id + 4) == IsRequest(id)
  {
  }

  lemma {:induction false} RunFromConcat(w: World, a: seq<Event>, b: seq<Event>)
    ensures RunFrom(w, a + b) == RunFrom(RunFrom(w, a), b)
    decreases |a|
  {
    hide Step;
    if a == [] {
      assert a + b == b;
    } else {
      assert (a + b)[1..] == a[1..] + b;
      RunFromConcat(Step(w, a[0]), a[1..], b);
    }
  }

  /** In every run in which the last accepted stream is the last that arrived: after a shutdown for n more
      requests, the next n requests are accepted, and the one after them is turned away. */
  lemma GrantedThenTurnedAway(events: seq<Event>, n: nat, written: bool)
    ensures var w := Run(events);
            !w.polling && w.arrivals == [] && w.accepted != [] ==>
              var last := w.accepted[|w.accepted| - 1];
              w.next <= last + 4 && last + 4 * (n + 1) < VarInts.LIMIT
              && (w.server.sentClosing.None? || w.server.sentClosing.value >= last + 4 * n) ==>
                var granted := events + [CallShutdown(n, written)] + Requests(last + 4, n, written);
                var (w1, w2) := (Run(granted), Run(granted + Request(last + 4 * (n + 1), written)));
                && w1.accepted == w.accepted + Ids(last + 4, n)
                && w2.accepted == w1.accepted && last + 4 * (n + 1) in w2.rejected
  {
    hide Run, RunFrom, Step, Requests, Request, Ids, Plus, IsRequest, Tracking, Kept, Bounded, Increasing;
    var w := Run(events);
    RunInv(events);
    if !w.polling && w.arrivals == [] && w.accepted != [] {
      var last := w.accepted[|w.accepted| - 1];
      if w.next <= last + 4 && last + 4 * (n + 1) < VarInts.LIMIT
         && (w.server.sentClosing.None? || w.server.sentClosing.value >= last + 4 * n) {
        ShutdownGrants(events, n, written);
        var call := events + [CallShutdown(n, written)];
        RunNext(events, CallShutdown(n, written));
        ShutdownLeaves(w, n, written);
        var w0 := Run(call);
        LastIsRequest(w.accepted);
        NextIsRequest(last);
        RequestsAccepted(w0, last + 4, n, written);
        RunOn(call, Requests(last + 4, n, written));
        var granted := call + Requests(last + 4, n, written);
        RunOn(granted, Request(last + 4 * (n + 1), written));
        OneRequest(Run(granted), last + 4 * (n + 1), written);
      }
    }
  }

  lemma ShutdownLeaves(w: World, n: nat, written: bool)
    ensures var w' := Step(w, CallShutdown(n, written));
            && w'.polling == w.polling && w'.arrivals == w.arrivals && w'.next == w.next
            && w'.accepted == w.accepted && w'.rejected == w.rejected
  {
    hide ShutdownId;
  }

  /** The answer that there will be no more requests comes only when every request ever accepted has lost
      its last owner and its end message was taken in; and rejected streams are never waited for. */
  lemma DrainedBeforeEnd(events: seq<Event>, written: bool)
    ensures var w := Run(events);
            w.polling && LookAt(w.server, w.arrivals).0 == Some(AcceptNone) ==>
              var w' := Step(w, Look(written));
              && w'.owners == map[] && w'.server.channel == [] && w'.server.ongoing == {}
              && w'.server.sentClosing.Some?
    ensures var w := Run(events);
            forall id :: id in w.server.ongoing ==> id in w.accepted && id !in w.rejected
  {
    hide IsRequest, Run, Ordered, Step, LookAt;
    RunInv(events);
    var w := Run(events);
    if w.polling && LookAt(w.server, w.arrivals).0 == Some(AcceptNone) {
      NothingLeft(w, written);
    }
  }

  lemma NothingLeft(w: World, written: bool)
    requires Inv(w) && w.polling && LookAt(w.server, w.arrivals).0 == Some(AcceptNone)
    ensures var w' := Step(w, Look(written));
            && w'.owners == map[] && w'.server.channel == [] && w'.server.ongoing == {}
            && w'.server.sentClosing.Some?
  {
    hide IsRequest, Ordered, Bounded, TurnedAway, ShutdownId;
    var w' := Step(w, Look(written));
    assert w'.server.ongoing == {} && w'.server.channel == [];
    assert Tracking(w') by { LookKeeps(w, Look(written)); }
    assert forall id :: id !in w'.owners;
  }

  /** Streams accepted out of order break this: two accepts that find 8 and then 4 take both, and the
      GOAWAY of a shutdown names 4. */
  lemma OutOfOrderBreaksBound()
    ensures var (first, s1, queue) := PollAccept(Completed(START.server), [8, 4], []);
            var (second, s2, _) := PollAccept(Completed(s1), queue, []);
            && first == AcceptStream(8) && second == AcceptStream(4)
            && ShutdownTo(s2, ShutdownId(s2, 0)).1 == Some(4)
  {
    hide Plus;
    PlusProperties(4, 0);
  }

  /** The look that ends the run leaves a GOAWAY in force that names an accepted stream exactly when there
      is one, and then the last, although to its receiver the id of a GOAWAY is the first one that was not
      processed. Unless it was in force already, it is also what goes out last. */
  lemma LastGoawayNamesAccepted(events: seq<Event>, written: bool)
    ensures var w := Run(events);
            w.polling && LookAt(w.server, w.arrivals).0 == Some(AcceptNone) ==>
              var w' := Step(w, Look(written));
              && w'.accepted == w.accepted && w'.server.sentClosing.Some?
              && var id := w'.server.sentClosing.value;
                 && (id in w.accepted <==> w.accepted != [])
                 && id == (if w.accepted != [] then w.accepted[|w.accepted| - 1] else FIRST_REQUEST)
                 && w'.sent == w.sent + (if written && w.server.sentClosing != Some(id) then [id] else [])
  {
    hide Run, Plus, IsRequest, Tracking, Increasing, Decreasing, RequestIds, TurnedAway;
    RunInv(events);
    var w := Run(events);
    FirstRequest();
    if w.accepted != [] {
      var last := w.accepted[|w.accepted| - 1];
      LastIsRequest(w.accepted);
      PlusProperties(last, 0);
    }
  }

  lemma LastIsRequest(ids: seq<nat>)
    requires ids != [] && RequestIds(ids)
    ensures var last := ids[|ids| - 1]; last in ids && IsRequest(last) && last < VarInts.LIMIT
  {
  }

  /** One request, accepted, finished, and the client leaves: the last GOAWAY names it. */
  lemma LastGoawayExample()
    ensures var w := Run([Arrive(0), BeginPoll, Look(true), DropOwner(0), PeerGoaway(0), BeginPoll, Look(true)]);
            w.accepted == [0] && w.sent == [0]
  {
    hide Plus, Run, TurnedAway, Step;
    var none: seq<Event> := [];
    var events := [Arrive(0), BeginPoll, Look(true), DropOwner(0), PeerGoaway(0), BeginPoll, Look(true)];
    RunNext(none, Arrive(0));
    RunNext(events[..1], BeginPoll);
    RunNext(events[..2], Look(true));
    RunNext(events[..3], DropOwner(0));
    RunNext(events[..4], PeerGoaway(0));
    RunNext(events[..5], BeginPoll);
    RunNext(events[..6], Look(true));
    assert none + [Arrive(0)] == events[..1] && events[..1] + [BeginPoll] == events[..2];
    assert events[..2] + [Look(true)] == events[..3] && events[..3] + [DropOwner(0)] == events[..4];
    assert events[..4] + [PeerGoaway(0)] == events[..5] && events[..5] + [BeginPoll] == events[..6];
    assert events[..6] + [Look(true)] == events;
    ExampleSteps();
  }

  lemma ExampleSteps()
    ensures var w3 := Step(Step(Step(START, Arrive(0)), BeginPoll), Look(true));
            var w := Step(Step(Step(Step(w3, DropOwner(0)), PeerGoaway(0)), BeginPoll), Look(true));
            w.accepted == [0] && w.sent == [0]
  {
    hide Plus;
    var w1 := Step(START, Arrive(0));
    assert w1.arrivals == [0];
    var w3 := Step(Step(w1, BeginPoll), Look(true));
    assert w3.server == Server(Some(0), None, None, {0}, []) && w3.arrivals == [] && w3.accepted == [0];
    var w4 := Step(w3, DropOwner(0));
    assert w4.server == Server(Some(0), None, None, {0}, [0]);
    var w6 := Step(Step(w4, PeerGoaway(0)), BeginPoll);
    assert w6.server == Server(Some(0), None, Some(0), {}, []);
    PlusProperties(0, 0);
  }

  lemma RunNext(events: seq<Event>, e: Event)
    ensures Run(events + [e]) == Step(Run(events), e) && Run([]) == START
  {
    hide Step;
    assert (events + [e])[..|events|] == events;
  }
}
