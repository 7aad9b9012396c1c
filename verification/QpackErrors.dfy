/** The errors of the dynamic table and of the decoder (h3/src/qpack/dynamic.rs, h3/src/qpack/decoder.rs). */
module QpackErrors {
  import opened Octets
  import opened FieldLines
  import PrefixInt
  import PrefixString

  datatype TableError =
    | BadRelativeIndex(index: nat)
    | BadPostbaseIndex(index: nat)
    | BadIndex(index: nat)
    | MaxTableSizeReached
    | MaximumTableSizeTooLarge
    | MaxBlockedStreamsTooLarge
    | UnknownStreamId(streamId: nat)
    | InvalidTrackingCount

  datatype DecoderError =
    | InvalidInteger(integer: PrefixInt.Error)
    | InvalidString(text: PrefixString.Error)
    | TableFault(table: TableError)
    | InvalidStaticIndex(index: nat)
    | UnknownPrefix(flags: nat)
    | MissingRefs(required: nat)
    | BadBaseIndex(base: int)
    | HeaderTooLong(size: nat)
    | IncrementTooLarge(increment: nat)
    | ArithmeticFault

  function FromParse(e: ParseError): (d: DecoderError) {
    match e
    case Integer(x) => InvalidInteger(x)
    case String(x) => InvalidString(x)
    case InvalidPrefix(p) => UnknownPrefix(p)
  }

  datatype EncoderError =
    | TableInsertion(table: TableError)
    | InvalidEncoderString(text: PrefixString.Error)
    | InvalidEncoderInteger(integer: PrefixInt.Error)
    | UnknownDecoderInstruction(first: nat)

  function ToEncoderError(e: ParseError): EncoderError {
    match e
    case Integer(x) => InvalidEncoderInteger(x)
    case String(x) => InvalidEncoderString(x)
    case InvalidPrefix(p) => UnknownDecoderInstruction(p)
  }
}
