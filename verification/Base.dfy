/** Types shared by every part of the model. */
module Base {

  datatype Option<+T> = None | Some(value: T)

  datatype Error =
    | Closed
    | FrameTooLarge(len: nat)
    | InvalidMessage(reason: string)
    | UnsupportedFrameVersion(version: nat)
    | UnexpectedEof

  datatype Result<+T> = Ok(value: T) | Err(error: Error)

  type byte = x: int | 0 <= x < 256

  /** A frame as the application hands it over; its payload is opaque. */
  datatype Frame = Frame(streamId: nat, flags: nat, payload: seq<byte>)

  function Max(a: int, b: int): int { if a < b then b else a }

  function Min(a: int, b: int): int { if a < b then a else b }
}
