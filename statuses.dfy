/**
 * The value types shared by every part of ksck: Kudu's Status (the outcome of
 * every collaborator call and every check), the unsigned 64-bit checksum, and
 * an Option for values that may be absent.
 */
module Statuses {

  /** A checksum as the remote scan reports it: a C++ uint64_t. */
  newtype uint64 = x: int | 0 <= x < 0x1_0000_0000_0000_0000

  /** The Status codes the checks and their collaborators produce. */
  datatype Code =
    | NotFound
    | Corruption
    | NetworkError
    | IllegalState
    | TimedOut
    | Aborted
    | RemoteError
    | ServiceUnavailable

  /**
   * Kudu's Status: OK, or an error code with a message. The messages the
   * checks build are descriptive only; the model compares codes.
   */
  datatype Status = Ok | Error(code: Code, message: string)

  datatype Option<+T> = None | Some(value: T)
}
