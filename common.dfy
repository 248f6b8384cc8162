/** Result wrappers and the error values raised or reported by the
    room-type catalog and the referential validator. */
module Common {

  datatype Option<+T> = None | Some(value: T)

  /** A computation that either yields a value or fails with an error
      (the source raises an exception in the failing case). */
  datatype Result<+T> = Success(value: T) | Failure(error: Error)

  /** A check that either passes or fails with an error. */
  datatype Outcome = Pass | Fail(error: Error)

  /** A keyword argument value: the source passes numbers for `costo` and
      strings for the key fields. */
  datatype Value = Number(n: int) | Text(s: string)

  datatype Error =
    | MissingField(field: string)           // KeyError on a required field
    | InvalidKind(raw: string)              // ValueError: not a room-type code
    | NonPositiveCost(cost: int)            // ValueError: cost <= 0
    | NotANumber(field: string)             // TypeError: a text compared with 0
    | NoSuchHotel(hotelRfc: string)         // ValueError from the validator
    | NoSuchClient(clientRfc: string)       // ValueError from the validator
    | NoSuchRoomType(kind: string, hotelRfc: string)
}
