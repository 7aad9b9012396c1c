/** A list of received chunks, and a cursor over it (h3/src/buf.rs). */
module BufLists {
  import opened Octets

  /** Chunks are never empty. */
  type Chunk = b: Bytes | |b| > 0 witness [0]

  /** The chunks without their first n octets. */
  function Dropped(bufs: seq<Chunk>, n: nat): (r: seq<Chunk>)
    requires n <= |Flatten(bufs)|
    ensures Flatten(r) == Flatten(bufs)[n..] && |r| <= |bufs|
    decreases |bufs|
  {
    if n == 0 then bufs
    else if |bufs[0]| > n then
      assert [bufs[0][n..]] + bufs[1..] != [] && ([bufs[0][n..]] + bufs[1..])[1..] == bufs[1..];
      [bufs[0][n..]] + bufs[1..]
    else Dropped(bufs[1..], n - |bufs[0]|)
  }

  /** The next at most `max` octets, from the first chunk only. */
  function FirstChunk(bufs: seq<Chunk>, max: nat): Bytes
    requires bufs != []
  {
    bufs[0][..Min(max, |bufs[0]|)]
  }

  lemma FlattenStep(bufs: seq<Chunk>, i: nat)
    requires i < |bufs|
    ensures Flatten(bufs[i..]) == bufs[i] + Flatten(bufs[i + 1..])
  {
    assert bufs[i..][1..] == bufs[i + 1..];
  }

  lemma FlattenNone(bufs: seq<Chunk>)
    ensures Flatten(bufs[|bufs|..]) == []
  {
  }

  class BufList {
    var bufs: seq<Chunk>

    constructor ()
      ensures bufs == []
    {
      bufs := [];
    }

    method PushBytes(chunk: Chunk)
      modifies this
      ensures bufs == old(bufs) + [chunk]
    {
      bufs := bufs + [chunk];
    }

    method Remaining() returns (n: nat)
      ensures n == |Flatten(bufs)|
    {
      n := 0;
      assert bufs[0..] == bufs;
      for i := 0 to |bufs|
        invariant n + |Flatten(bufs[i..])| == |Flatten(bufs)|
      {
        assert bufs[i..][1..] == bufs[i + 1..];
        n := n + |bufs[i]|;
      }
    }

    /** Split at most `max` octets off the first chunk, and forget it when it is used up. */
    method TakeChunk(max: nat) returns (chunk: Option<Bytes>)
      modifies this
      ensures if old(bufs) == [] then chunk == None && bufs == []
              else && chunk == Some(FirstChunk(old(bufs), max)) && |chunk.value| <= |Flatten(old(bufs))|
                   && bufs == Dropped(old(bufs), |chunk.value|)
    {
      if bufs == [] {
        return None;
      }
      var n := Min(max, |bufs[0]|);
      chunk := Some(bufs[0][..n]);
      if n == |bufs[0]| {
        bufs := bufs[1..];
      } else {
        bufs := [bufs[0][n..]] + bufs[1..];
      }
    }

    method Advance(count: nat)
      requires count <= |Flatten(bufs)|
      modifies this
      ensures bufs == Dropped(old(bufs), count)
    {
      var cnt: nat := count;
      while cnt > 0
        invariant cnt <= |Flatten(bufs)| && Dropped(bufs, cnt) == Dropped(old(bufs), count)
      {
        var rem := |bufs[0]|;
        if rem > cnt {
          bufs := [bufs[0][cnt..]] + bufs[1..];
          return;
        }
        cnt := cnt - rem;
        bufs := bufs[1..];
      }
    }
  }

  /** A reading position in a list that stays as it is. */
  class Cursor {
    const list: BufList
    var posTotal: nat
    var posFront: nat
    var index: nat

    /** The octets from the position on. */
    ghost function Rest(): Bytes
      reads this, list
      requires posTotal <= |Flatten(list.bufs)|
    {
      Flatten(list.bufs)[posTotal..]
    }

    ghost predicate Valid()
      reads this, list
    {
      && posTotal <= |Flatten(list.bufs)| && index <= |list.bufs|
      && (index == |list.bufs| ==> posFront == 0 && posTotal == |Flatten(list.bufs)|)
      && (index < |list.bufs| ==>
            posFront < |list.bufs[index]| && Rest() == list.bufs[index][posFront..] + Flatten(list.bufs[index + 1..]))
    }

    constructor (list: BufList)
      ensures Valid() && this.list == list && posTotal == 0
    {
      this.list := list;
      posTotal, posFront, index := 0, 0, 0;
    }

    method Remaining() returns (n: nat)
      requires Valid()
      ensures n == |Rest()|
    {
      var all := list.Remaining();
      return all - posTotal;
    }

    /** The contiguous octets at the position. */
    method ChunkHere() returns (chunk: Bytes)
      requires Valid() && posTotal < |Flatten(list.bufs)|
      ensures 0 < |chunk| <= |Rest()| && chunk == Rest()[..|chunk|]
    {
      return list.bufs[index][posFront..];
    }

    method Advance(count: nat)
      requires Valid() && count <= |Rest()|
      modifies this
      ensures Valid() && posTotal == old(posTotal) + count
    {
      hide Flatten;
      var cnt: nat := count;
      FlattenNone(list.bufs);
      while cnt > 0
        invariant Valid() && cnt <= |Rest()| && posTotal + cnt == old(posTotal) + count
      {
        ghost var rest := Rest();
        var rem := |list.bufs[index]| - posFront;
        if rem > cnt {
          posTotal := posTotal + cnt;
          posFront := posFront + cnt;
          assert Rest() == rest[cnt..];
          return;
        }
        if index + 1 < |list.bufs| {
          FlattenStep(list.bufs, index + 1);
        }
        posTotal := posTotal + rem;
        posFront := 0;
        cnt := cnt - rem;
        index := index + 1;
        assert Rest() == rest[rem..];
      }
    }
  }
}
