/** QUIC stream ids (h3/src/proto/stream.rs), section 2.1 of RFC 9000. */
module StreamIds {
  import opened Octets
  import VarInts

  const U64_MAX := 0xFFFF_FFFF_FFFF_FFFF

  /** The largest index an id below 2^62 can have. */
  const MAX_INDEX := (VarInts.LIMIT - 1) / 4

  function New(index: nat, dir: nat, initiator: nat): nat
    requires dir <= 1 && initiator <= 1
  {
    4 * index + 2 * dir + initiator
  }

  function Index(id: nat): nat {
    id / 4
  }

  function Dir(id: nat): (d: nat)
    ensures d <= 1
  {
    id / 2 % 2
  }

  function Initiator(id: nat): (i: nat)
    ensures i <= 1
  {
    id % 2
  }

  /** Index zero of a client-initiated bidirectional stream. */
  const FIRST_REQUEST: nat := 0

  /** Bidirectional and initiated by the client. */
  predicate IsRequest(id: nat) {
    Dir(id) == 0 && Initiator(id) == 0
  }

  /** The id `n` streams later of the same kind, or the last one there is. */
  function Plus(id: nat, n: nat): (r: nat) {
    New(Min(Min(Index(id) + n, U64_MAX), MAX_INDEX), Dir(id), Initiator(id))
  }

  lemma Decompose(id: nat)
    ensures id == New(Index(id), Dir(id), Initiator(id))
  {
    var half := id / 2;
    assert id == 2 * half + id % 2 && half == 2 * (half / 2) + half % 2;
    assert half / 2 == id / 4;
  }

  lemma PartsOfNew(index: nat, dir: nat, initiator: nat)
    requires dir <= 1 && initiator <= 1
    ensures var id := New(index, dir, initiator);
            Index(id) == index && Dir(id) == dir && Initiator(id) == initiator
  {
    var half := 2 * index + dir;
    assert New(index, dir, initiator) == 2 * half + initiator;
    assert (2 * half + initiator) / 2 == half && (2 * half + initiator) % 2 == initiator;
    assert half / 2 == index && half % 2 == dir;
  }

  lemma IndexBound(id: nat)
    requires id < VarInts.LIMIT
    ensures Index(id) <= MAX_INDEX
  {
  }

  /** Adding streams keeps the kind, never leaves the id space, and never goes back from an id inside it. */
  lemma PlusProperties(id: nat, n: nat)
    requires id < VarInts.LIMIT
    ensures id <= Plus(id, n) < VarInts.LIMIT
    ensures IsRequest(Plus(id, n)) <==> IsRequest(id)
    ensures Dir(Plus(id, n)) == Dir(id) && Initiator(Plus(id, n)) == Initiator(id)
    ensures Plus(id, 0) == id
    ensures Index(id) + n <= MAX_INDEX ==> Plus(id, n) == id + 4 * n
    ensures Index(id) + n > MAX_INDEX ==> Index(Plus(id, n)) == MAX_INDEX
  {
    hide Index, Dir, Initiator;
    Decompose(id);
    PartsOfNew(Min(Min(Index(id) + n, U64_MAX), MAX_INDEX), Dir(id), Initiator(id));
    IndexBound(id);
  }

  /** Inside the id space n streams later is 4 * n further. */
  lemma PlusExact(id: nat, n: nat)
    requires id + 4 * n < VarInts.LIMIT
    ensures Plus(id, n) == id + 4 * n
  {
    hide Plus;
    assert Index(id) + n == (id + 4 * n) / 4;
    IndexBound(id + 4 * n);
    PlusProperties(id, n);
  }

  lemma FirstRequest()
    ensures IsRequest(FIRST_REQUEST) && Index(FIRST_REQUEST) == 0
  {
    hide New;
  }
}
