/** Which error a connection ends with, when its driver and its stream tasks fail at the same time
    (h3/src/shared_state.rs, h3/src/error/connection_error_creators.rs). */
module ConnectionErrors {
  import opened Octets

  const H3_INTERNAL_ERROR := 0x102

  datatype Incoming =
    | ApplicationClose(code: nat)
    | ConnectionClosed(code: nat)
    | Timeout
    | InternalError(reason: string)
    | Undefined(cause: string)

  /** Where an error came from: this stack, or the transport. */
  datatype Origin = Internal(code: nat, message: string) | Quic(incoming: Incoming)

  datatype ConnectionError = Local(code: nat, reason: string) | TimedOut | Remote(incoming: Incoming)

  datatype StreamIncoming = OfConnection(incoming: Incoming) | Terminated(code: nat) | Unknown(cause: string)

  datatype StreamError = Connection(error: ConnectionError) | RemoteTerminate(code: nat) | UndefinedError(cause: string)

  function Convert(e: Origin): (c: ConnectionError) {
    match e
    case Internal(code, message) => Local(code, message)
    case Quic(Timeout) => TimedOut
    case Quic(incoming) => Remote(incoming)
  }

  datatype CloseFrame = CloseFrame(code: nat, reason: string)

  /** How the transport is closed for an error, if it is. */
  function Closing(e: Origin): (c: Option<CloseFrame>) {
    match e
    case Internal(code, message) => Some(CloseFrame(code, message))
    case Quic(InternalError(reason)) => Some(CloseFrame(H3_INTERNAL_ERROR, reason))
    case _ => None
  }

  function First(stored: Option<Origin>, e: Origin): Origin {
    match stored case Some(f) => f case None => e
  }

  function ClosesFor(e: Origin): seq<CloseFrame> {
    match Closing(e) case Some(c) => [c] case None => []
  }

  /** Where the driver is inside its error path. */
  datatype Phase = Idle | Stored(e: Origin) | ToConvert(e: Origin)

  /** The shared cell, the driver, and every connection error handed to anyone so far. */
  datatype System = System(stored: Option<Origin>, handled: Option<ConnectionError>, closes: seq<CloseFrame>,
                           phase: Phase, reported: seq<ConnectionError>)

  /** One indivisible step. A stream task reads or sets the cell in one step; the driver's path takes several,
      between which stream tasks may run. */
  datatype Event =
    | StreamFails(e: Origin)
    | DriverFails(e: Origin)
    | DriverPolls
    | DriverCloses
    | DriverConverts

  function Step(s: System, ev: Event): (s': System) {
    match ev
    case StreamFails(e) =>
      var f := First(s.stored, e);
      s.(stored := Some(f), reported := s.reported + [Convert(f)])
    case DriverFails(e) =>
      if s.phase != Idle then s
      else if s.handled.Some? then s.(reported := s.reported + [s.handled.value])
      else s.(stored := Some(First(s.stored, e)), phase := Stored(First(s.stored, e)))
    case DriverPolls =>
      if s.phase != Idle then s
      else if s.handled.Some? then s.(reported := s.reported + [s.handled.value])
      else if s.stored.Some? then s.(phase := Stored(s.stored.value))
      else s
    case DriverCloses =>
      if s.phase.Stored? then s.(closes := s.closes + ClosesFor(s.phase.e), phase := ToConvert(s.phase.e)) else s
    case DriverConverts =>
      if s.phase.ToConvert? then
        s.(handled := Some(Convert(s.phase.e)), phase := Idle, reported := s.reported + [Convert(s.phase.e)])
      else s
  }

  /** The driver's error path from an event on, when nothing comes between. */
  function Path(s: System, ev: Event): System {
    Step(Step(Step(s, ev), DriverCloses), DriverConverts)
  }

  // ----------------------------------------------------------- the objects

  /** The error cell every task shares. */
  class SharedState {
    var connectionError: Option<Origin>
    // Every connection error handed to anyone so far.
    ghost var told: seq<ConnectionError>

    constructor ()
      ensures connectionError == None && told == []
    {
      connectionError, told := None, [];
    }

    /** With a driver in this state. */
    ghost function With(handled: Option<ConnectionError>, closes: seq<CloseFrame>, phase: Phase): System
      reads this
    {
      System(connectionError, handled, closes, phase, told)
    }

    /** Set the error unless it is set; either way, the one that is set. */
    method SetConnError(e: Origin) returns (stored: Origin)
      modifies `connectionError
      ensures connectionError == Some(stored)
      ensures stored == if old(connectionError).Some? then old(connectionError).value else e
    {
      if connectionError == None {
        connectionError := Some(e);
      }
      stored := connectionError.value;
    }
  }

  /** A stream task's end of the shared state. */
  class StreamTask {
    const shared: SharedState

    constructor (shared: SharedState)
      ensures this.shared == shared
    {
      this.shared := shared;
    }

    method HandleConnectionErrorOnStream(code: nat, message: string) returns (r: StreamError)
      modifies shared
      ensures shared.connectionError == Some(First(old(shared.connectionError), Internal(code, message)))
      ensures r == Connection(Convert(shared.connectionError.value))
      ensures forall h, c, p ::
                shared.With(h, c, p) == Step(old(shared.With(h, c, p)), StreamFails(Internal(code, message)))
    {
      var stored := shared.SetConnError(Internal(code, message));
      shared.told := shared.told + [Convert(stored)];
      return Connection(Convert(stored));
    }

    method HandleQuicStreamError(e: StreamIncoming) returns (r: StreamError)
      modifies shared
      ensures shared.connectionError
           == if e.OfConnection? then Some(First(old(shared.connectionError), Quic(e.incoming)))
              else old(shared.connectionError)
      ensures r == match e
                   case OfConnection(_) => Connection(Convert(shared.connectionError.value))
                   case Terminated(code) => RemoteTerminate(code)
                   case Unknown(cause) => UndefinedError(cause)
      ensures forall h, c, p ::
                shared.With(h, c, p)
                == if e.OfConnection? then Step(old(shared.With(h, c, p)), StreamFails(Quic(e.incoming)))
                   else old(shared.With(h, c, p))
    {
      match e {
        case OfConnection(incoming) =>
          var stored := shared.SetConnError(Quic(incoming));
          shared.told := shared.told + [Convert(stored)];
          return Connection(Convert(stored));
        case Terminated(code) => return RemoteTerminate(code);
        case Unknown(cause) => return UndefinedError(cause);
      }
    }
  }

  /** The driver: it alone closes the transport. */
  class Driver {
    const shared: SharedState
    var handled: Option<ConnectionError>
    var closes: seq<CloseFrame>

    /** The driver has handled nothing yet, or it has handled the shared error, once. */
    ghost predicate Valid()
      reads this, shared
    {
      if handled == None then closes == []
      else
        && shared.connectionError.Some? && handled == Some(Convert(shared.connectionError.value))
        && closes == ClosesFor(shared.connectionError.value)
    }

    ghost function State(): System
      reads this, shared
    {
      shared.With(handled, closes, Idle)
    }

    constructor (shared: SharedState)
      ensures Valid() && this.shared == shared && handled == None
    {
      this.shared, handled, closes := shared, None, [];
    }

    method CloseIfNeeded(e: Origin)
      modifies this`closes
      ensures closes == old(closes) + ClosesFor(e)
    {
      match e {
        case Internal(code, message) => closes := closes + [CloseFrame(code, message)];
        case Quic(InternalError(reason)) => closes := closes + [CloseFrame(H3_INTERNAL_ERROR, reason)];
        case _ =>
      }
    }

    method HandleConnectionError(e: Origin) returns (r: ConnectionError)
      requires Valid()
      modifies this, shared
      ensures Valid() && handled == Some(r)
      ensures shared.connectionError
           == if old(handled).Some? then old(shared.connectionError) else Some(First(old(shared.connectionError), e))
      ensures r == Convert(shared.connectionError.value)
      ensures State() == Path(old(State()), DriverFails(e)) && shared.told == old(shared.told) + [r]
      ensures closes == old(closes) + if old(handled).Some? then [] else
                match shared.connectionError.value
                case Internal(code, message) => [CloseFrame(code, message)]
                case Quic(InternalError(reason)) => [CloseFrame(H3_INTERNAL_ERROR, reason)]
                case _ => []
    {
      if handled.Some? {
        shared.told := shared.told + [handled.value];
        return handled.value;
      }
      var stored := shared.SetConnError(e);
      CloseIfNeeded(stored);
      r := Convert(stored);
      handled := Some(r);
      shared.told := shared.told + [r];
    }

    method PollConnectionError() returns (r: Option<ConnectionError>)
      requires Valid()
      modifies this, shared`told
      ensures Valid()
      ensures r == if shared.connectionError == None then None else Some(Convert(shared.connectionError.value))
      ensures handled == r
      ensures State() == Path(old(State()), DriverPolls)
      ensures shared.told == old(shared.told) + (match r case Some(c) => [c] case None => [])
    {
      if handled.Some? {
        shared.told := shared.told + [handled.value];
        return handled;
      }
      if shared.connectionError.Some? {
        CloseIfNeeded(shared.connectionError.value);
        handled := Some(Convert(shared.connectionError.value));
        shared.told := shared.told + [handled.value];
        return handled;
      }
      return None;
    }
  }

  // ----------------------------------------------------- every interleaving

  function Run(events: seq<Event>): (s: System) {
    if events == [] then System(None, None, [], Idle, [])
    else Step(Run(events[..|events| - 1]), events[|events| - 1])
  }

  /** The error of the first event that fails, if any. */
  function FirstError(events: seq<Event>): (e: Option<Origin>) {
    if events == [] then None else
    match FirstError(events[..|events| - 1])
    case Some(e) => Some(e)
    case None =>
      match events[|events| - 1]
      case StreamFails(e) => Some(e)
      case DriverFails(e) => Some(e)
      case _ => None
  }

  ghost predicate Inv(s: System) {
    && (s.stored == None ==> s.phase == Idle && s.handled == None && s.closes == [] && s.reported == [])
    && (s.stored.Some? ==>
          && (forall r :: r in s.reported ==> r == Convert(s.stored.value))
          && (s.phase.Stored? ==> s.phase.e == s.stored.value && s.handled == None && s.closes == [])
          && (s.phase.ToConvert? ==>
                s.phase.e == s.stored.value && s.handled == None && s.closes == ClosesFor(s.stored.value))
          && (s.phase.Idle? ==>
                if s.handled == None then s.closes == []
                else s.handled == Some(Convert(s.stored.value)) && s.closes == ClosesFor(s.stored.value)))
  }

  lemma {:induction false} RunInv(events: seq<Event>)
    ensures Inv(Run(events)) && Run(events).stored == FirstError(events)
  {
    if events != [] {
      var (before, ev) := (events[..|events| - 1], events[|events| - 1]);
      RunInv(before);
      var s := Run(before);
      assert s.phase != Idle || s.handled.Some? ==> s.stored.Some?;
    }
  }

  /** Whatever the interleaving: the stored error is that of the first failure and stays so; everyone who is
      told of a connection error is told that one, an error of this stack as a local error with its code and
      message, a timeout as such, and any other as one from the remote end; and once the driver has handled
      it, it has closed the transport once with the code and message of an error of this stack, once with
      H3_INTERNAL_ERROR for an internal error of the transport, and not at all for any other. */
  lemma {:induction false} FirstErrorAgreement(events: seq<Event>, n: nat)
    requires n <= |events|
    ensures var s := Run(events);
            && s.stored == FirstError(events)
            && (FirstError(events[..n]).Some? ==> s.stored == FirstError(events[..n]))
            && (s.reported != [] || s.handled.Some? || s.closes != [] ==> s.stored.Some?)
    ensures var s := Run(events);
            s.stored.Some? ==>
              match s.stored.value
              case Internal(code, message) =>
                && (forall r :: r in s.reported ==> r == Local(code, message))
                && (s.handled.Some? ==> s.handled == Some(Local(code, message)) && s.closes == [CloseFrame(code, message)])
                && (s.closes == [] || s.closes == [CloseFrame(code, message)])
              case Quic(incoming) =>
                var c := if incoming.Timeout? then TimedOut else Remote(incoming);
                && (forall r :: r in s.reported ==> r == c)
                && (s.handled.Some? ==>
                      && s.handled == Some(c)
                      && (incoming.InternalError? ==> s.closes == [CloseFrame(0x102, incoming.reason)]))
                && (incoming.InternalError? ==> s.closes == [] || s.closes == [CloseFrame(0x102, incoming.reason)])
                && (!incoming.InternalError? ==> s.closes == [])
  {
    hide Run;
    RunInv(events);
    FirstErrorStays(events, n);
  }

  lemma {:induction false} FirstErrorStays(events: seq<Event>, n: nat)
    requires n <= |events|
    ensures FirstError(events[..n]).Some? ==> FirstError(events) == FirstError(events[..n])
    decreases |events|
  {
    if n < |events| {
      var before := events[..|events| - 1];
      FirstErrorStays(before, n);
      assert before[..n] == events[..n];
    } else {
      assert events[..n] == events;
    }
  }
}
