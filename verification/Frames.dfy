/** HTTP/3 frames on the wire (h3/src/proto/frame.rs), sections 7.1 and 7.2 of RFC 9114. */
module Frames {
  import opened Octets
  import VarInts
  import Settings

  const DATA := 0x0
  const HEADERS := 0x1
  const CANCEL_PUSH := 0x3
  const SETTINGS := 0x4
  const PUSH_PROMISE := 0x5
  const GOAWAY := 0x7
  const MAX_PUSH_ID := 0xD
  const WEBTRANSPORT := 0x41

  /** Frame types of HTTP/2 that must not appear. */
  predicate Reserved(ty: nat) {
    ty == 0x2 || ty == 0x6 || ty == 0x8 || ty == 0x9
  }

  predicate Known(ty: nat) {
    ty == DATA || ty == HEADERS || ty == CANCEL_PUSH || ty == SETTINGS || ty == PUSH_PROMISE || ty == GOAWAY
    || ty == MAX_PUSH_ID || ty == WEBTRANSPORT
  }

  /** A decoded frame; of DATA only the length, the payload is read separately. */
  datatype Frame =
    | Data(length: nat)
    | Headers(block: Bytes)
    | CancelPush(pushId: nat)
    | SettingsFrame(entries: seq<Settings.Entry>)
    | PushPromise(id: nat, encoded: Bytes)
    | Goaway(id: nat)
    | MaxPushId(pushId: nat)
    | WebTransportStream(session: nat)

  datatype FrameError =
    | UnsupportedFrame(ty: nat)
    | SettingsError(settings: Settings.Error)

  /** The front of a stream: more octets are needed (at least `total` in all, the decoder believes), an
      unknown frame to skip, a frame, or an error. */
  datatype Front =
    | Incomplete(total: nat)
    | UnknownFrame(ty: nat, rest: Bytes)
    | Decoded(frame: Frame, rest: Bytes)
    | Failed(error: FrameError)

  /** A payload that is one integer. Only the integer is consumed. */
  function SingleInteger(payload: Bytes, after: Bytes, make: nat -> Frame): (f: Front) {
    match VarInts.Decode(payload)
    case Err(e) => Incomplete(e.mentioned)
    case Ok(x, unread) => Decoded(make(x), unread + after)
  }

  function DecodePayload(ty: nat, payload: Bytes, after: Bytes): (f: Front)
    requires ty != DATA && ty != WEBTRANSPORT
  {
    if ty == HEADERS then Decoded(Headers(payload), after)
    else if ty == SETTINGS then
      match Settings.Decode(payload, [])
      case Failure(e) => Failed(SettingsError(e))
      case Success(entries) => Decoded(SettingsFrame(entries), after)
    else if ty == CANCEL_PUSH then SingleInteger(payload, after, (x: nat) => CancelPush(x))
    else if ty == PUSH_PROMISE then
      match VarInts.Decode(payload)
      case Err(e) => Incomplete(e.mentioned)
      case Ok(id, encoded) => Decoded(PushPromise(id, encoded), after)
    else if ty == GOAWAY then SingleInteger(payload, after, (x: nat) => Goaway(x))
    else if ty == MAX_PUSH_ID then SingleInteger(payload, after, (x: nat) => MaxPushId(x))
    else if Reserved(ty) then Failed(UnsupportedFrame(ty))
    else UnknownFrame(ty, after)
  }

  function Decode(s: Bytes): (f: Front) {
    match VarInts.Decode(s)
    case Err(_) => Incomplete(|s| + 1)
    case Ok(ty, rest) =>
      if ty == WEBTRANSPORT then
        match VarInts.Decode(rest)
        case Err(e) => Incomplete(e.mentioned)
        case Ok(session, rest') => Decoded(WebTransportStream(session), rest')
      else
        match VarInts.Decode(rest)
        case Err(_) => Incomplete(|s| + 1)
        case Ok(length, body) =>
          if ty == DATA then Decoded(Data(length), body)
          else if |body| < length then Incomplete(2 + length)
          else DecodePayload(ty, body[..length], body[length..])
  }

  /** What is unread is a shorter suffix of the input. */
  lemma Suffix(s: Bytes)
    ensures match Decode(s)
            case Decoded(_, rest) => |rest| < |s| && rest == s[|s| - |rest|..]
            case UnknownFrame(_, rest) => |rest| < |s| && rest == s[|s| - |rest|..]
            case _ => true
  {
    hide VarInts.Decode, Settings.Decode, DecodePayload;
    VarInts.DecodeBounds(s);
    if VarInts.Decode(s).Ok? {
      var (ty, rest) := (VarInts.Decode(s).value, VarInts.Decode(s).rest);
      VarInts.DecodeBounds(rest);
      if VarInts.Decode(rest).Ok? && ty != WEBTRANSPORT && ty != DATA {
        var (length, body) := (VarInts.Decode(rest).value, VarInts.Decode(rest).rest);
        if |body| >= length {
          PayloadSuffix(ty, body, length);
        }
      }
    }
  }

  lemma PayloadSuffix(ty: nat, body: Bytes, length: nat)
    requires ty != DATA && ty != WEBTRANSPORT && length <= |body|
    ensures match DecodePayload(ty, body[..length], body[length..])
            case Decoded(_, rest) => |rest| <= |body| && rest == body[|body| - |rest|..]
            case UnknownFrame(_, rest) => |rest| <= |body| && rest == body[|body| - |rest|..]
            case _ => true
  {
    hide VarInts.Decode, Settings.Decode;
    var payload := body[..length];
    VarInts.DecodeBounds(payload);
    if VarInts.Decode(payload).Ok? {
      var unread := VarInts.Decode(payload).rest;
      assert unread + body[length..] == body[length - |unread|..];
    }
  }

  // ---------------------------------------------------- more octets at the end

  lemma PayloadExtend(ty: nat, payload: Bytes, after: Bytes, more: Bytes)
    requires ty != DATA && ty != WEBTRANSPORT
    ensures DecodePayload(ty, payload, after + more)
         == match DecodePayload(ty, payload, after)
            case Decoded(frame, rest) => Decoded(frame, rest + more)
            case UnknownFrame(t, rest) => UnknownFrame(t, rest + more)
            case other => other
  {
    hide VarInts.Decode, Settings.Decode;
    if VarInts.Decode(payload).Ok? {
      assert VarInts.Decode(payload).rest + (after + more) == VarInts.Decode(payload).rest + after + more;
    }
  }

  /** Octets that arrive later change nothing about a front that was complete. */
  lemma Extend(s: Bytes, more: Bytes)
    ensures match Decode(s)
            case Decoded(frame, rest) => Decode(s + more) == Decoded(frame, rest + more)
            case UnknownFrame(ty, rest) => Decode(s + more) == UnknownFrame(ty, rest + more)
            case Failed(e) => Decode(s + more) == Failed(e)
            case Incomplete(_) => true
  {
    hide VarInts.Decode, Settings.Decode, DecodePayload;
    VarInts.Extend(s, more);
    if VarInts.Decode(s).Ok? {
      var (ty, rest) := (VarInts.Decode(s).value, VarInts.Decode(s).rest);
      VarInts.Extend(rest, more);
      if VarInts.Decode(rest).Ok? && ty != WEBTRANSPORT && ty != DATA {
        var (length, body) := (VarInts.Decode(rest).value, VarInts.Decode(rest).rest);
        if |body| >= length {
          assert (body + more)[..length] == body[..length] && (body + more)[length..] == body[length..] + more;
          PayloadExtend(ty, body[..length], body[length..], more);
        }
      }
    }
  }

  /** The number of octets an incomplete front asks for is never more than it takes: with fewer it is
      still incomplete. */
  lemma ExpectedIsLowerBound(s: Bytes, more: Bytes)
    requires s != [] && Decode(s).Incomplete? && |s + more| < Decode(s).total
    ensures Decode(s + more).Incomplete?
  {
    hide VarInts.Decode, Settings.Decode, DecodePayload;
    VarInts.DecodeBounds(s);
    VarInts.Extend(s, more);
    if VarInts.Decode(s).Ok? {
      var (ty, rest) := (VarInts.Decode(s).value, VarInts.Decode(s).rest);
      VarInts.DecodeBounds(rest);
      VarInts.Extend(rest, more);
      if VarInts.Decode(rest).Ok? {
        var (length, body) := (VarInts.Decode(rest).value, VarInts.Decode(rest).rest);
        if |body| >= length {
          IntegerPayload(ty, body[..length], body[length..]);
        }
      } else if ty == WEBTRANSPORT {
        if |rest| == |s| - 1 {
          VarInts.OneOctet(s);
        }
      } else {
        assert s + more == s;
      }
    } else {
      assert more == [];
      assert s + more == s;
    }
  }

  /** A payload too short for its integer asks for no more octets than are already there. */
  lemma IntegerPayload(ty: nat, payload: Bytes, after: Bytes)
    requires ty != DATA && ty != WEBTRANSPORT
    ensures DecodePayload(ty, payload, after).Incomplete? ==>
              DecodePayload(ty, payload, after).total <= 2 + |payload|
  {
    hide Settings.Decode;
    VarInts.DecodeBounds(payload);
  }

  // ----------------------------------------------------------------- encoding

  /** What a sender puts on a stream: a frame with its payload, or a frame of a type nobody knows. */
  datatype Wire =
    | Body(payload: Bytes)
    | Other(frame: Frame)
    | Grease(ty: nat, payload: Bytes)

  /** Frames whose integers and lengths fit; settings as a receiver may accept them. */
  predicate Encodable(f: Frame) {
    match f
    case Headers(block) => |block| < VarInts.LIMIT
    case CancelPush(id) => id < VarInts.LIMIT
    case SettingsFrame(entries) =>
      && Settings.Encodable(entries) && Settings.Length(entries) < VarInts.LIMIT
      && (forall e :: e in entries ==> !Settings.Forbidden(e.id)) && Settings.Distinct(Settings.Kept(entries))
    case PushPromise(id, encoded) => id < VarInts.LIMIT && VarInts.Size(id) + |encoded| < VarInts.LIMIT
    case Goaway(id) => id < VarInts.LIMIT
    case MaxPushId(id) => id < VarInts.LIMIT
    case WebTransportStream(id) => id < VarInts.LIMIT
    case Data(_) => false
  }

  predicate EncodableWire(w: Wire) {
    match w
    case Body(payload) => |payload| < VarInts.LIMIT
    case Other(f) => Encodable(f)
    case Grease(ty, payload) => ty < VarInts.LIMIT && !Known(ty) && !Reserved(ty) && |payload| < VarInts.LIMIT
  }

  function Tagged(ty: nat, length: nat): Bytes
    requires ty < VarInts.LIMIT && length < VarInts.LIMIT
  {
    VarInts.Encode(ty) + VarInts.Encode(length)
  }

  function Encode(w: Wire): (s: Bytes)
    requires EncodableWire(w)
  {
    match w
    case Body(payload) => Tagged(DATA, |payload|) + payload
    case Grease(ty, payload) => Tagged(ty, |payload|) + payload
    case Other(Headers(block)) => Tagged(HEADERS, |block|) + block
    case Other(CancelPush(id)) => Tagged(CANCEL_PUSH, VarInts.Size(id)) + VarInts.Encode(id)
    case Other(SettingsFrame(entries)) => Tagged(SETTINGS, Settings.Length(entries)) + Settings.Encode(entries)
    case Other(PushPromise(id, encoded)) =>
      Tagged(PUSH_PROMISE, VarInts.Size(id) + |encoded|) + VarInts.Encode(id) + encoded
    case Other(Goaway(id)) => Tagged(GOAWAY, VarInts.Size(id)) + VarInts.Encode(id)
    case Other(MaxPushId(id)) => Tagged(MAX_PUSH_ID, VarInts.Size(id)) + VarInts.Encode(id)
    case Other(WebTransportStream(id)) => VarInts.Encode(WEBTRANSPORT) + VarInts.Encode(id)
  }

  /** What the receiver makes of a frame: settings it does not know are gone. */
  function Received(f: Frame): Frame {
    match f
    case SettingsFrame(entries) => SettingsFrame(Settings.Kept(entries))
    case _ => f
  }

  // -------------------------------------------------------- frames of any peer

  /** In how many octets the integers of a frame are written: its type, its length, its id, its settings. */
  datatype Widths = Widths(ty: VarInts.Width, length: VarInts.Width, id: VarInts.Width, entries: seq<Settings.Widths>)

  function TypeOf(f: Frame): (ty: nat)
    requires !f.Data?
    ensures Known(ty) && ty != DATA && (ty == WEBTRANSPORT <==> f.WebTransportStream?)
  {
    match f
    case Headers(_) => HEADERS
    case CancelPush(_) => CANCEL_PUSH
    case SettingsFrame(_) => SETTINGS
    case PushPromise(_, _) => PUSH_PROMISE
    case Goaway(_) => GOAWAY
    case MaxPushId(_) => MAX_PUSH_ID
    case WebTransportStream(_) => WEBTRANSPORT
  }

  /** The integers inside the payload fit. */
  ghost predicate PayloadFits(f: Frame, w: Widths) {
    match f
    case Headers(_) => true
    case SettingsFrame(entries) =>
      && Settings.FitAll(entries, w.entries)
      && (forall e :: e in entries ==> !Settings.Forbidden(e.id)) && Settings.Distinct(Settings.Kept(entries))
    case PushPromise(id, _) => id < VarInts.Limit(w.id)
    case CancelPush(id) => id < VarInts.Limit(w.id)
    case Goaway(id) => id < VarInts.Limit(w.id)
    case MaxPushId(id) => id < VarInts.Limit(w.id)
    case WebTransportStream(id) => id < VarInts.Limit(w.id)
    case Data(_) => false
  }

  ghost function PayloadIn(f: Frame, w: Widths): (s: Bytes)
    requires PayloadFits(f, w)
  {
    match f
    case Headers(block) => block
    case SettingsFrame(entries) => Settings.EncodeIn(entries, w.entries)
    case PushPromise(id, encoded) => VarInts.EncodeIn(id, w.id) + encoded
    case CancelPush(id) => VarInts.EncodeIn(id, w.id)
    case Goaway(id) => VarInts.EncodeIn(id, w.id)
    case MaxPushId(id) => VarInts.EncodeIn(id, w.id)
    case WebTransportStream(id) => VarInts.EncodeIn(id, w.id)
  }

  function TaggedIn(ty: nat, payload: Bytes, w: Widths): Bytes
    requires ty < VarInts.Limit(w.ty) && |payload| < VarInts.Limit(w.length)
  {
    VarInts.EncodeIn(ty, w.ty) + VarInts.EncodeIn(|payload|, w.length) + payload
  }

  ghost predicate WireFits(wire: Wire, w: Widths) {
    match wire
    case Body(payload) => DATA < VarInts.Limit(w.ty) && |payload| < VarInts.Limit(w.length)
    case Grease(ty, payload) =>
      ty < VarInts.Limit(w.ty) && !Known(ty) && !Reserved(ty) && |payload| < VarInts.Limit(w.length)
    case Other(f) =>
      && PayloadFits(f, w) && TypeOf(f) < VarInts.Limit(w.ty)
      && (f.WebTransportStream? || |PayloadIn(f, w)| < VarInts.Limit(w.length))
  }

  /** A frame as any peer may write it. */
  ghost function EncodeIn(wire: Wire, w: Widths): (s: Bytes)
    requires WireFits(wire, w)
  {
    match wire
    case Body(payload) => TaggedIn(DATA, payload, w)
    case Grease(ty, payload) => TaggedIn(ty, payload, w)
    case Other(f) =>
      if f.WebTransportStream? then VarInts.EncodeIn(WEBTRANSPORT, w.ty) + VarInts.EncodeIn(f.session, w.id)
      else TaggedIn(TypeOf(f), PayloadIn(f, w), w)
  }

  lemma HeaderDecodes(ty: nat, payload: Bytes, w: Widths, rest: Bytes)
    requires ty < VarInts.Limit(w.ty) && |payload| < VarInts.Limit(w.length) && ty != WEBTRANSPORT
    ensures Decode(TaggedIn(ty, payload, w) + rest)
         == if ty == DATA then Decoded(Data(|payload|), payload + rest) else DecodePayload(ty, payload, rest)
  {
    hide VarInts.Decode, VarInts.EncodeIn, DecodePayload;
    var (a, b) := (VarInts.EncodeIn(ty, w.ty), VarInts.EncodeIn(|payload|, w.length));
    assert TaggedIn(ty, payload, w) + rest == a + (b + (payload + rest));
    VarInts.RoundTripIn(ty, w.ty, b + (payload + rest));
    VarInts.RoundTripIn(|payload|, w.length, payload + rest);
    assert (payload + rest)[..|payload|] == payload && (payload + rest)[|payload|..] == rest;
  }

  /** A DATA header is decoded before its payload arrives, in whatever lengths its integers are written. */
  lemma BodyRoundTrip(payload: Bytes, w: Widths, rest: Bytes)
    requires |payload| < VarInts.Limit(w.length)
    ensures DATA < VarInts.Limit(w.ty)
    ensures Decode(EncodeIn(Body(payload), w) + rest) == Decoded(Data(|payload|), payload + rest)
  {
    hide Decode, TaggedIn;
    HeaderDecodes(DATA, payload, w, rest);
  }

  lemma GreaseSkipped(ty: nat, payload: Bytes, w: Widths, rest: Bytes)
    requires WireFits(Grease(ty, payload), w)
    ensures Decode(EncodeIn(Grease(ty, payload), w) + rest) == UnknownFrame(ty, rest)
  {
    hide Decode, TaggedIn;
    HeaderDecodes(ty, payload, w, rest);
  }

  /** The frame types that HTTP/2 used and HTTP/3 does not are an error, and not skipped. */
  lemma ReservedRefused(ty: nat, payload: Bytes, w: Widths, rest: Bytes)
    requires ty == 0x2 || ty == 0x6 || ty == 0x8 || ty == 0x9
    requires ty < VarInts.Limit(w.ty) && |payload| < VarInts.Limit(w.length)
    ensures Decode(TaggedIn(ty, payload, w) + rest) == Failed(UnsupportedFrame(ty))
  {
    hide Decode, TaggedIn;
    HeaderDecodes(ty, payload, w, rest);
  }

  /** So are settings that are refused. */
  lemma BadSettingsRefused(payload: Bytes, e: Settings.Error, w: Widths, rest: Bytes)
    requires Settings.Decode(payload, []) == Failure(e) && |payload| < VarInts.Limit(w.length)
    ensures SETTINGS < VarInts.Limit(w.ty)
    ensures Decode(TaggedIn(SETTINGS, payload, w) + rest) == Failed(SettingsError(e))
  {
    hide Decode, TaggedIn, Settings.Decode;
    HeaderDecodes(SETTINGS, payload, w, rest);
  }

  lemma IntegerPayloadDecodes(id: nat, n: VarInts.Width)
    requires id < VarInts.Limit(n)
    ensures VarInts.Decode(VarInts.EncodeIn(id, n)) == Ok(id, [])
  {
    hide VarInts.Decode, VarInts.EncodeIn;
    assert VarInts.EncodeIn(id, n) + [] == VarInts.EncodeIn(id, n);
    VarInts.RoundTripIn(id, n, []);
  }

  lemma PayloadDecodes(f: Frame, w: Widths, rest: Bytes)
    requires PayloadFits(f, w) && !f.WebTransportStream?
    ensures DecodePayload(TypeOf(f), PayloadIn(f, w), rest) == Decoded(Received(f), rest)
  {
    hide VarInts.Decode, VarInts.EncodeIn, Settings.Decode, Settings.EncodeIn, Settings.FitAll;
    hide Settings.Forbidden, Settings.Distinct, Settings.Kept;
    assert [] + rest == rest;
    match f
    case Headers(_) =>
    case SettingsFrame(entries) => Settings.RoundTrip(entries, w.entries);
    case PushPromise(id, encoded) => VarInts.RoundTripIn(id, w.id, encoded);
    case CancelPush(id) => IntegerPayloadDecodes(id, w.id);
    case Goaway(id) => IntegerPayloadDecodes(id, w.id);
    case MaxPushId(id) => IntegerPayloadDecodes(id, w.id);
  }

  /** The header of a WebTransport stream has no length. */
  lemma SessionDecodes(id: nat, w: Widths, rest: Bytes)
    requires id < VarInts.Limit(w.id) && WEBTRANSPORT < VarInts.Limit(w.ty)
    ensures Decode(VarInts.EncodeIn(WEBTRANSPORT, w.ty) + VarInts.EncodeIn(id, w.id) + rest)
         == Decoded(WebTransportStream(id), rest)
  {
    hide VarInts.Decode, VarInts.EncodeIn, DecodePayload;
    var (a, b) := (VarInts.EncodeIn(WEBTRANSPORT, w.ty), VarInts.EncodeIn(id, w.id));
    assert a + b + rest == a + (b + rest);
    VarInts.RoundTripIn(WEBTRANSPORT, w.ty, b + rest);
    VarInts.RoundTripIn(id, w.id, rest);
  }

  /** Every other frame comes back from any of its encodings, in whatever lengths its type, its length and the
      integers of its payload are written, and whatever follows it. */
  lemma FrameRoundTrip(f: Frame, w: Widths, rest: Bytes)
    requires WireFits(Other(f), w)
    ensures Decode(EncodeIn(Other(f), w) + rest) == Decoded(Received(f), rest)
  {
    hide Decode, DecodePayload, PayloadIn, TaggedIn, TypeOf;
    if f.WebTransportStream? {
      WebTransportRoundTrip(f.session, w, rest);
    } else {
      HeaderDecodes(TypeOf(f), PayloadIn(f, w), w, rest);
      PayloadDecodes(f, w, rest);
    }
  }

  lemma WebTransportRoundTrip(id: nat, w: Widths, rest: Bytes)
    requires WireFits(Other(WebTransportStream(id)), w)
    ensures Decode(EncodeIn(Other(WebTransportStream(id)), w) + rest) == Decoded(WebTransportStream(id), rest)
  {
    hide Decode;
    SessionDecodes(id, w, rest);
  }

  /** The lengths this encoder chooses. */
  function OwnWidths(wire: Wire): (w: Widths)
    requires EncodableWire(wire)
  {
    match wire
    case Body(payload) => Widths(1, VarInts.Size(|payload|), 1, [])
    case Grease(ty, payload) => Widths(VarInts.Size(ty), VarInts.Size(|payload|), 1, [])
    case Other(Headers(block)) => Widths(1, VarInts.Size(|block|), 1, [])
    case Other(SettingsFrame(entries)) => Widths(1, VarInts.Size(Settings.Length(entries)), 1, Settings.AllOwn(entries))
    case Other(PushPromise(id, encoded)) =>
      Widths(1, VarInts.Size(VarInts.Size(id) + |encoded|), VarInts.Size(id), [])
    case Other(CancelPush(id)) => Widths(1, 1, VarInts.Size(id), [])
    case Other(Goaway(id)) => Widths(1, 1, VarInts.Size(id), [])
    case Other(MaxPushId(id)) => Widths(1, 1, VarInts.Size(id), [])
    case Other(WebTransportStream(id)) => Widths(2, 1, VarInts.Size(id), [])
  }

  /** This encoder's frames are among them. */
  lemma OwnEncoding(wire: Wire)
    requires EncodableWire(wire)
    ensures WireFits(wire, OwnWidths(wire)) && Encode(wire) == EncodeIn(wire, OwnWidths(wire))
  {
    hide VarInts.EncodeIn, Settings.Encode, Settings.EncodeIn, Settings.Length, Settings.AllOwn, Settings.FitAll;
    hide Settings.Forbidden, Settings.Distinct, Settings.Kept;
    match wire
    case Other(SettingsFrame(entries)) =>
      Settings.OwnEncoding(entries);
      Settings.LengthExact(entries);
    case Other(PushPromise(id, encoded)) =>
      var head := Tagged(PUSH_PROMISE, VarInts.Size(id) + |encoded|);
      assert head + VarInts.Encode(id) + encoded == head + (VarInts.Encode(id) + encoded);
    case _ =>
  }

  // ------------------------------------------- payloads that are one integer

  /** The types whose payload should be one integer and nothing else. */
  predicate Integral(ty: nat) {
    ty == CANCEL_PUSH || ty == GOAWAY || ty == MAX_PUSH_ID
  }

  function IntegerFrame(ty: nat, x: nat): Frame {
    if ty == CANCEL_PUSH then CancelPush(x) else if ty == GOAWAY then Goaway(x) else MaxPushId(x)
  }

  /** A complete frame of such a type ends where its length says exactly when its payload is one integer.
      Octets behind the integer are left unread in front of what follows; a payload too short for its
      integer is not an error, and stays incomplete whatever follows. */
  lemma IntegerFrameExtent(ty: nat, payload: Bytes, w: Widths, rest: Bytes)
    requires Integral(ty) && |payload| < VarInts.Limit(w.length)
    ensures ty < VarInts.Limit(w.ty)
    ensures var (front, integer) := (Decode(TaggedIn(ty, payload, w) + rest), VarInts.Decode(payload));
            && (front.Decoded? && front.rest == rest <==> integer.Ok? && integer.rest == [])
            && match integer
               case Ok(x, extra) => front == Decoded(IntegerFrame(ty, x), extra + rest)
               case Err(e) => front == Incomplete(e.mentioned)
  {
    hide VarInts.Decode, TaggedIn, Decode;
    HeaderDecodes(ty, payload, w, rest);
    if VarInts.Decode(payload).Ok? {
      var extra := VarInts.Decode(payload).rest;
      assert extra == [] ==> extra + rest == rest;
      assert |extra + rest| == |rest| ==> extra == [];
    }
  }

  /** A DATA frame whose length takes two octets although it is one. */
  lemma LongerLength()
    ensures Decode([0, 0x40, 1, 97]) == Decoded(Data(1), [97])
  {
    hide VarInts.Decode, VarInts.BigEndian;
    var rest := [97];
    VarInts.SmallValue([0, 0x40, 1, 97]);
    VarInts.RoundTripIn(1, 2, rest);
    OneInTwoOctets();
    assert VarInts.EncodeIn(1, 2) + rest == [0x40, 1, 97] == [0, 0x40, 1, 97][1..];
  }

  lemma OneInTwoOctets()
    ensures VarInts.EncodeIn(1, 2) == [0x40, 1]
  {
    ShlByte(0x40);
    assert VarInts.BigEndian(0x4001, 2) == VarInts.BigEndian(0x40, 1) + [1];
    assert VarInts.BigEndian(0x40, 1) == VarInts.BigEndian(0, 0) + [0x40];
  }

  /** A GOAWAY of three octets: two of them are read as a DATA frame. */
  lemma TrailingOctetsBecomeFrame()
    ensures Decode([7, 3, 0, 0, 0]) == Decoded(Goaway(0), [0, 0]) && Decode([0, 0]) == Decoded(Data(0), [])
  {
    hide VarInts.Decode;
    VarInts.SmallValue([7, 3, 0, 0, 0]);
    VarInts.SmallValue([3, 0, 0, 0]);
    VarInts.SmallValue([0, 0, 0]);
    VarInts.SmallValue([0, 0]);
    VarInts.SmallValue([0]);
    assert [3, 0, 0, 0][1..][..3] == [0, 0, 0] && [3, 0, 0, 0][1..][3..] == [];
    assert [0, 0] + [] == [0, 0];
  }

  /** A GOAWAY with the first half of an integer, and then a whole GOAWAY: neither is ever seen. */
  lemma ShortIntegerStalls(rest: Bytes)
    ensures Decode([7, 1, 64] + [7, 1, 0] + rest).Incomplete?
  {
    hide VarInts.FromBigEndian;
    var s := [7, 1, 64] + [7, 1, 0] + rest;
    VarInts.SmallValue(s);
    VarInts.SmallValue(s[1..]);
    assert s[1..][1..][..1] == [64];
  }

  lemma EncodeNotEmpty(wire: Wire, w: Widths)
    requires WireFits(wire, w)
    ensures |EncodeIn(wire, w)| >= 2
  {
    hide VarInts.EncodeIn, Settings.EncodeIn, Settings.FitAll;
  }
}
