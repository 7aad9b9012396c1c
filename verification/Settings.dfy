/** The SETTINGS payload (h3/src/proto/frame.rs), section 7.2.4 of RFC 9114. */
module Settings {
  import opened Octets
  import VarInts

  datatype Entry = Entry(id: nat, value: nat)

  datatype Error = Exceeded | Malformed | Repeated(id: nat) | InvalidSettingId(id: nat)

  const CAPACITY := 8

  predicate Supported(id: nat) {
    id == 0x6 || id == 0x1 || id == 0x7 || id == 0x8 || id == 0x2B603742 || id == 0x2b603743 || id == 0x33
  }

  predicate Forbidden(id: nat) {
    id == 0x00 || id == 0x02 || id == 0x03 || id == 0x04 || id == 0x05
  }

  function Add(entries: seq<Entry>, e: Entry): (r: Result<seq<Entry>, Error>) {
    if |entries| >= CAPACITY then Failure(Exceeded)
    else if exists k :: 0 <= k < |entries| && entries[k].id == e.id then Failure(Repeated(e.id))
    else Success(entries + [e])
  }

  /** The settings of a frame: a fixed array, filled from the front. */
  class Settings {
    const entries: array<Entry>
    var len: nat

    ghost predicate Valid()
      reads this, entries
    {
      && entries.Length == CAPACITY && len <= CAPACITY
      && forall k :: len <= k < CAPACITY ==> entries[k] == Entry(0, 0)
    }

    ghost function Contents(): seq<Entry>
      reads this, entries
      requires Valid()
    {
      entries[..len]
    }

    constructor ()
      ensures Valid() && Contents() == [] && fresh(entries)
    {
      entries := new Entry[CAPACITY](_ => Entry(0, 0));
      len := 0;
    }

    method Insert(id: nat, value: nat) returns (error: Option<Error>)
      requires Valid()
      modifies this, entries
      ensures Valid()
      ensures match Add(old(Contents()), Entry(id, value))
              case Success(after) => error == None && Contents() == after
              case Failure(e) => error == Some(e) && Contents() == old(Contents())
    {
      if len >= entries.Length {
        return Some(Exceeded);
      }
      for k := 0 to len
        invariant forall j :: 0 <= j < k ==> entries[j].id != id
      {
        if entries[k].id == id {
          return Some(Repeated(id));
        }
      }
      entries[len] := Entry(id, value);
      len := len + 1;
      return None;
    }

    /** The first entry of that id. The loop runs over the whole array, so an absent id 0 seems present
        with value 0 as long as the array is not full. */
    method Get(id: nat) returns (value: Option<nat>)
      requires Valid()
      ensures (exists k :: 0 <= k < len && entries[k].id == id) ==>
                exists k :: 0 <= k < len && entries[k].id == id && value == Some(entries[k].value)
                            && forall j :: 0 <= j < k ==> entries[j].id != id
      ensures !(exists k :: 0 <= k < len && entries[k].id == id) ==>
                value == if id == 0 && len < CAPACITY then Some(0) else None
    {
      for k := 0 to entries.Length
        invariant forall j :: 0 <= j < k ==> entries[j].id != id
      {
        if entries[k].id == id {
          return Some(entries[k].value);
        }
      }
      assert len < CAPACITY ==> entries[len].id == 0;
      return None;
    }
  }

  // ------------------------------------------------------------- wire format

  /** In how many octets an id and its value are written. */
  datatype Widths = Widths(id: VarInts.Width, value: VarInts.Width)

  predicate Fits(e: Entry, w: Widths) {
    e.id < VarInts.Limit(w.id) && e.value < VarInts.Limit(w.value)
  }

  ghost predicate FitAll(entries: seq<Entry>, ws: seq<Widths>) {
    |ws| == |entries| && forall i :: 0 <= i < |entries| ==> Fits(entries[i], ws[i])
  }

  function EncodeEntry(e: Entry, w: Widths): (s: Bytes)
    requires Fits(e, w)
    ensures |s| == w.id + w.value
  {
    VarInts.EncodeIn(e.id, w.id) + VarInts.EncodeIn(e.value, w.value)
  }

  /** A payload in any lengths there is room in. */
  ghost function EncodeIn(entries: seq<Entry>, ws: seq<Widths>): (s: Bytes)
    requires FitAll(entries, ws)
  {
    if entries == [] then [] else EncodeEntry(entries[0], ws[0]) + EncodeIn(entries[1..], ws[1..])
  }

  predicate Encodable(entries: seq<Entry>) {
    forall e :: e in entries ==> e.id < VarInts.LIMIT && e.value < VarInts.LIMIT
  }

  /** The lengths this encoder chooses. */
  function OwnWidths(e: Entry): (w: Widths)
    requires e.id < VarInts.LIMIT && e.value < VarInts.LIMIT
    ensures Fits(e, w)
  {
    Widths(VarInts.Size(e.id), VarInts.Size(e.value))
  }

  function Encode(entries: seq<Entry>): (s: Bytes)
    requires Encodable(entries)
  {
    if entries == [] then [] else
    assert entries[0] in entries;
    EncodeEntry(entries[0], OwnWidths(entries[0])) + Encode(entries[1..])
  }

  /** The payload length written in the header, before the payload is encoded. */
  function Length(entries: seq<Entry>): nat
    requires Encodable(entries)
  {
    if entries == [] then 0 else
    assert entries[0] in entries;
    VarInts.Size(entries[0].id) + VarInts.Size(entries[0].value) + Length(entries[1..])
  }

  lemma {:induction false} LengthExact(entries: seq<Entry>)
    requires Encodable(entries)
    ensures |Encode(entries)| == Length(entries)
  {
    hide VarInts.Size, VarInts.BigEndian;
    if entries != [] {
      assert entries[0] in entries;
      LengthExact(entries[1..]);
    }
  }

  function AllOwn(entries: seq<Entry>): (ws: seq<Widths>)
    requires Encodable(entries)
  {
    if entries == [] then [] else
    assert entries[0] in entries;
    [OwnWidths(entries[0])] + AllOwn(entries[1..])
  }

  lemma {:induction false} OwnEncoding(entries: seq<Entry>)
    requires Encodable(entries)
    ensures FitAll(entries, AllOwn(entries)) && Encode(entries) == EncodeIn(entries, AllOwn(entries))
    decreases |entries|
  {
    hide Fits, EncodeEntry;
    if entries != [] {
      assert entries[0] in entries;
      OwnEncoding(entries[1..]);
      var ws := AllOwn(entries);
      assert ws[1..] == AllOwn(entries[1..]);
      forall i | 0 <= i < |entries| ensures Fits(entries[i], ws[i]) {
        if i > 0 {
          assert Fits(entries[1..][i - 1], ws[1..][i - 1]);
        }
      }
    }
  }

  function Decode(s: Bytes, done: seq<Entry>): (r: Result<seq<Entry>, Error>)
    decreases |s|
  {
    if s == [] then Success(done)
    else if |s| < 2 then Failure(Malformed) else
    VarInts.DecodeBounds(s);
    match VarInts.Decode(s)
    case Err(_) => Failure(Malformed)
    case Ok(id, rest) =>
      VarInts.DecodeBounds(rest);
      match VarInts.Decode(rest)
      case Err(_) => Failure(Malformed)
      case Ok(value, rest') =>
        if Forbidden(id) then Failure(InvalidSettingId(id))
        else if !Supported(id) then Decode(rest', done)
        else
          match Add(done, Entry(id, value))
          case Failure(e) => Failure(e)
          case Success(done') => Decode(rest', done')
  }

  /** The entries a receiver keeps. */
  function Kept(entries: seq<Entry>): seq<Entry> {
    if entries == [] then []
    else (if Supported(entries[0].id) then [entries[0]] else []) + Kept(entries[1..])
  }

  predicate Distinct(entries: seq<Entry>) {
    forall i, j :: 0 <= i < j < |entries| ==> entries[i].id != entries[j].id
  }

  ghost predicate AllSupported(entries: seq<Entry>) {
    forall e :: e in entries ==> Supported(e.id)
  }

  /** There are only seven supported settings, so distinct ones never fill the array. */
  lemma DistinctSupportedFit(entries: seq<Entry>)
    requires Distinct(entries) && AllSupported(entries)
    ensures |entries| <= 7
  {
    var ids := set e | e in entries :: e.id;
    DistinctCount(entries);
    var all := {0x6, 0x1, 0x7, 0x8, 0x2B603742, 0x2b603743, 0x33};
    assert ids <= all;
    SubsetCount(ids, all);
  }

  lemma {:induction false} SubsetCount(a: set<nat>, b: set<nat>)
    requires a <= b
    ensures |a| <= |b|
  {
    if a != {} {
      var x :| x in a;
      SubsetCount(a - {x}, b - {x});
    }
  }

  lemma {:induction false} DistinctCount(entries: seq<Entry>)
    requires Distinct(entries)
    ensures |set e | e in entries :: e.id| == |entries|
  {
    var ids := set e | e in entries :: e.id;
    if entries == [] {
      assert ids == {};
    } else {
      var front, last := entries[..|entries| - 1], entries[|entries| - 1];
      var before := set e | e in front :: e.id;
      DistinctCount(front);
      assert entries == front + [last];
      assert ids == before + {last.id};
      assert last.id !in before;
    }
  }

  /** Decoding never fails for lack of room, whatever the input. */
  lemma {:induction false} NeverExceeded(s: Bytes, done: seq<Entry>)
    requires Distinct(done) && AllSupported(done)
    ensures Decode(s, done) != Failure(Exceeded)
    ensures Decode(s, done).Success? ==> Distinct(Decode(s, done).value) && AllSupported(Decode(s, done).value)
    decreases |s|
  {
    hide VarInts.Decode, Supported;
    if |s| >= 2 && VarInts.Decode(s).Ok? {
      VarInts.DecodeBounds(s);
      var (id, rest) := (VarInts.Decode(s).value, VarInts.Decode(s).rest);
      VarInts.DecodeBounds(rest);
      if VarInts.Decode(rest).Ok? && !Forbidden(id) {
        DistinctSupportedFit(done);
        if !Supported(id) {
          NeverExceeded(VarInts.Decode(rest).rest, done);
        } else if Add(done, Entry(id, VarInts.Decode(rest).value)).Success? {
          NeverExceeded(VarInts.Decode(rest).rest, done + [Entry(id, VarInts.Decode(rest).value)]);
        }
      }
    }
  }

  /** One entry in front of a payload: refused if it is forbidden, skipped if it is not known, and otherwise
      kept unless its id was there before. */
  lemma EntryDecodes(e: Entry, w: Widths, rest: Bytes, done: seq<Entry>)
    requires Fits(e, w) && Distinct(done) && AllSupported(done)
    ensures Decode(EncodeEntry(e, w) + rest, done)
         == if e.id == 0x0 || 0x2 <= e.id <= 0x5 then Failure(InvalidSettingId(e.id))
            else if !Supported(e.id) then Decode(rest, done)
            else if exists k :: 0 <= k < |done| && done[k].id == e.id then Failure(Repeated(e.id))
            else Decode(rest, done + [e])
  {
    hide VarInts.Decode, VarInts.EncodeIn, Supported, Distinct;
    var (a, b) := (VarInts.EncodeIn(e.id, w.id), VarInts.EncodeIn(e.value, w.value));
    assert EncodeEntry(e, w) + rest == a + (b + rest);
    VarInts.RoundTripIn(e.id, w.id, b + rest);
    VarInts.RoundTripIn(e.value, w.value, rest);
    DistinctSupportedFit(done);
  }

  /** Entries that are neither forbidden nor repeated are kept, less the ones the receiver does not know, in
      whatever lengths they are written, and the rest of the payload is read next. */
  lemma {:induction false} EntriesDecode(entries: seq<Entry>, ws: seq<Widths>, rest: Bytes, done: seq<Entry>)
    requires FitAll(entries, ws) && (forall e :: e in entries ==> !Forbidden(e.id))
    requires Distinct(done + Kept(entries)) && AllSupported(done)
    ensures Decode(EncodeIn(entries, ws) + rest, done) == Decode(rest, done + Kept(entries))
    decreases |entries|
  {
    hide VarInts.Decode, Fits, EncodeEntry, Supported, Distinct, Decode;
    if entries == [] {
      assert done + [] == done && [] + rest == rest;
    } else {
      var (e, more) := (entries[0], EncodeIn(entries[1..], ws[1..]) + rest);
      assert e in entries && Fits(e, ws[0]);
      assert EncodeIn(entries, ws) + rest == EncodeEntry(e, ws[0]) + more;
      DistinctFront(done, Kept(entries));
      EntryDecodes(e, ws[0], more, done);
      if Supported(e.id) {
        assert done + Kept(entries) == done + [e] + Kept(entries[1..]);
        AddDistinct(done, e, Kept(entries[1..]));
        EntriesDecode(entries[1..], ws[1..], rest, done + [e]);
      } else {
        assert Kept(entries) == Kept(entries[1..]);
        EntriesDecode(entries[1..], ws[1..], rest, done);
      }
    }
  }

  lemma DistinctFront(a: seq<Entry>, b: seq<Entry>)
    requires Distinct(a + b)
    ensures Distinct(a)
  {
    assert forall i :: 0 <= i < |a| ==> (a + b)[i] == a[i];
  }

  /** Settings without forbidden or repeated ids come back, less the ones the receiver does not know. */
  lemma RoundTrip(entries: seq<Entry>, ws: seq<Widths>)
    requires FitAll(entries, ws) && (forall e :: e in entries ==> !Forbidden(e.id)) && Distinct(Kept(entries))
    ensures Decode(EncodeIn(entries, ws), []) == Success(Kept(entries))
  {
    hide Forbidden, Supported, Distinct, EncodeIn, FitAll, Kept;
    assert [] + Kept(entries) == Kept(entries) && EncodeIn(entries, ws) + [] == EncodeIn(entries, ws);
    EntriesDecode(entries, ws, [], []);
  }

  /** After such settings, one of the ids that HTTP/2 used makes the frame fail, and so does one that is
      there already, whatever follows it. */
  lemma BadEntryRefused(entries: seq<Entry>, ws: seq<Widths>, e: Entry, w: Widths, rest: Bytes)
    requires FitAll(entries, ws) && (forall e :: e in entries ==> !Forbidden(e.id)) && Distinct(Kept(entries))
    requires Fits(e, w)
    ensures var r := Decode(EncodeIn(entries, ws) + EncodeEntry(e, w) + rest, []);
            && (e.id == 0x0 || 0x2 <= e.id <= 0x5 ==> r == Failure(InvalidSettingId(e.id)))
            && ((exists k :: 0 <= k < |Kept(entries)| && Kept(entries)[k].id == e.id) ==> r == Failure(Repeated(e.id)))
  {
    hide Distinct, EncodeIn, FitAll, Fits, Decode;
    var more := EncodeEntry(e, w) + rest;
    assert [] + Kept(entries) == Kept(entries);
    assert EncodeIn(entries, ws) + EncodeEntry(e, w) + rest == EncodeIn(entries, ws) + more;
    EntriesDecode(entries, ws, more, []);
    KeptSupported(entries);
    EntryDecodes(e, w, rest, Kept(entries));
    SupportedAllowed(e.id);
  }

  lemma {:induction false} KeptSupported(entries: seq<Entry>)
    ensures AllSupported(Kept(entries))
  {
    hide Supported;
    if entries != [] {
      KeptSupported(entries[1..]);
    }
  }

  lemma SupportedAllowed(id: nat)
    ensures Supported(id) ==> !Forbidden(id)
  {
  }

  /** An entry that is cut off makes the frame fail. */
  lemma CutEntryRefused(e: Entry, w: Widths, k: nat, done: seq<Entry>)
    requires Fits(e, w) && 0 < k < |EncodeEntry(e, w)|
    ensures Decode(EncodeEntry(e, w)[..k], done) == Failure(Malformed)
  {
    hide VarInts.Decode, VarInts.EncodeIn;
    var (a, b) := (VarInts.EncodeIn(e.id, w.id), VarInts.EncodeIn(e.value, w.value));
    if k < |a| {
      assert (a + b)[..k] == a[..k];
      VarInts.StrictPrefixIn(e.id, w.id, k);
    } else {
      assert (a + b)[..k] == a + b[..k - |a|];
      VarInts.RoundTripIn(e.id, w.id, b[..k - |a|]);
      VarInts.StrictPrefixIn(e.value, w.value, k - |a|);
    }
  }

  lemma AddDistinct(done: seq<Entry>, e: Entry, more: seq<Entry>)
    requires Distinct(done + [e] + more) && AllSupported(done)
    ensures Add(done, e) == Success(done + [e])
  {
    hide Supported;
    var all := done + [e] + more;
    assert all[|done|] == e;
    forall i | 0 <= i < |done| ensures all[i] == done[i] && done[i].id != e.id {
    }
    assert forall i, j :: 0 <= i < j < |done| ==> all[i].id != all[j].id;
    DistinctSupportedFit(done);
  }
}
