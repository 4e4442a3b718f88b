/** The error codes and result type shared by every OSAL operation. */
module Errors {

  datatype Error =
    | OutOfMemory
    | Timeout
    | QueueFull
    | QueueEmpty
    | QueueClosed
    | InvalidMessageSize
    | Overflow
    | NotFound
    | InvalidParameter
    | AlreadyInitialized
    | NotInitialized
    | Busy
    | Internal

  datatype Option<+T> = None | Some(value: T)

  datatype Result<+T> = Ok(value: T) | Err(error: Error)

  const U32_MAX: nat := 0xFFFF_FFFF
  const U64_MAX: nat := 0xFFFF_FFFF_FFFF_FFFF
  const U128_MAX: nat := 0xFFFF_FFFF_FFFF_FFFF_FFFF_FFFF_FFFF_FFFF
}
