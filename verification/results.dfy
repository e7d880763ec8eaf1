/** Failure-carrying results shared by every part of the model.
    Each constructor of `Error` stands for one exception the source raises. */
module Results {

  datatype Option<+T> = None | Some(value: T)

  datatype Error =
    /** A read needed more bytes than the stream or file holds. */
    | Truncated
    /** A kind id outside 0..10 (the `tag_types` lookup fails). */
    | UnknownKind(id: int)
    /** A length prefix below zero (rejected by the corrected reader). */
    | NegativeLength(length: int)
    /** A chunk payload larger than the sector span it already owns. */
    | PayloadTooLarge(size: nat, span: nat)
    /** A value that does not fit the fixed-width field it is packed into. */
    | FieldOverflow(value: int)
    /** A compound member looked up by name is missing, or is not what the caller needs. */
    | MissingMember(name: seq<int>)
    /** Decompression failed. */
    | CorruptContainer
    /** An array index outside the array (negative indices count from the end). */
    | IndexOutOfRange(index: int)
    /** A chunk read from an empty slot has no tag tree to write back. */
    | NoRootTag
    /** No file exists for the region. */
    | NoRegionFile(rx: int, rz: int)

  datatype Result<+T> = Ok(value: T) | Err(error: Error)
}
