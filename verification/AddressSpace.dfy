/** Absolute, relative, post-base and container indexes (h3/src/qpack/vas.rs),
    sections 3.2.4 to 3.2.6 of RFC 9204. Absolute indexes count from one. */
module AddressSpace {
  import opened Octets

  datatype VasError = RelativeIndex(index: nat) | PostbaseIndex(index: nat) | Index(index: nat)

  datatype VirtualAddressSpace = VirtualAddressSpace(inserted: nat, dropped: nat, delta: nat) {

    predicate Valid() {
      inserted == dropped + delta
    }

    function Add(): VirtualAddressSpace {
      VirtualAddressSpace(inserted + 1, dropped, delta + 1)
    }

    function Drop(): VirtualAddressSpace
      requires delta > 0
    {
      VirtualAddressSpace(inserted, dropped + 1, delta - 1)
    }

    function Relative(index: nat): (r: Result<nat, VasError>)
      requires Valid()
    {
      if inserted < index || delta == 0 || inserted - index <= dropped then Failure(RelativeIndex(index))
      else Success(inserted - dropped - index - 1)
    }

    predicate Evicted(index: nat) {
      index != 0 && index <= dropped
    }

    function RelativeBase(base: nat, index: nat): (r: Result<nat, VasError>)
      requires Valid()
    {
      if delta == 0 || index > base || base - index <= dropped then Failure(RelativeIndex(index))
      else Success(base - dropped - index - 1)
    }

    function PostBase(base: nat, index: nat): (r: Result<nat, VasError>)
      requires Valid()
    {
      if delta == 0 || base + index >= inserted || base + index < dropped then Failure(PostbaseIndex(index))
      else Success(base + index - dropped)
    }

    function ContainerIndex(index: nat): (r: Result<nat, VasError>) {
      if index >= delta then Failure(Index(index)) else Success(index + dropped + 1)
    }

    function LargestRef(): nat
      requires Valid()
    {
      inserted - dropped
    }

    /** The entries still in the table. */
    predicate Live(absolute: nat) {
      dropped < absolute <= inserted
    }
  }

  /** Every live entry has one container position, and all its names lead there. */
  lemma NamesOfLiveEntry(vas: VirtualAddressSpace, base: nat, absolute: nat)
    requires vas.Valid() && vas.Live(absolute)
    ensures var position := absolute - vas.dropped - 1;
            && vas.ContainerIndex(position) == Success(absolute)
            && vas.Relative(vas.inserted - absolute) == Success(position)
            && (absolute <= base ==> vas.RelativeBase(base, base - absolute) == Success(position))
            && (absolute > base ==> vas.PostBase(base, absolute - base - 1) == Success(position))
  {
  }

  /** A name is accepted only if the entry it means is live. Only the relative form with a base beyond
      the insert count escapes, and then the position lies outside the container. */
  lemma AcceptedNames(vas: VirtualAddressSpace, base: nat, index: nat)
    requires vas.Valid()
    ensures vas.Relative(index).Success? <==> index <= vas.inserted && vas.Live(vas.inserted - index)
    ensures vas.PostBase(base, index).Success? <==> vas.Live(base + index + 1)
    ensures vas.RelativeBase(base, index).Success? && vas.RelativeBase(base, index).value < vas.delta
            <==> index <= base && vas.Live(base - index)
  {
  }
}
