/**
 * Shared value types of the native engine: bytes, TCP ports, the optional and
 * fallible results the Rust code returns, and the error messages it produces.
 */
module Common {

  /** One byte of a file or of a socket read (Rust `u8`). */
  newtype byte = x: int | 0 <= x < 256

  /** A TCP port number (Rust `u16`). */
  type Port = x: int | 0 <= x < 65536

  datatype Option<+T> = None | Some(value: T)

  /**
   * The error strings of the source, one variant per message format.
   * `Library` carries the text of an error produced by code outside this
   * model (sockets, the mDNS daemon, the Bluetooth manager, JSON decoding).
   * `ReceiveFailed` stands for a wait for the peer's next message that yields
   * none: the connection closed, the read failed, or the bytes did not decode.
   */
  datatype Error =
    | FileNotFound(path: string)
    | InvalidFileName
    | TransferNotFound(transferId: string)
    | TransferRejected
    | InvalidResponse
    | InvalidAcknowledgment
    | UnexpectedChunkIndex(expected: nat, got: nat)
    | InvalidCompletion
    | TransferFailed
    | InvalidMessage
    | InvalidRequest
    | NoActiveConnection
    | ReceiveFailed
    | ConnectFailed(cause: string)
    | NoBluetoothAdapter
    | SizeMismatch(expected: nat, got: nat)
    | Library(cause: string)

  /** Rust's `Result<T, String>`. */
  datatype Result<+T> = Ok(value: T) | Err(error: Error)

  /** The outcome of a library call that either succeeds or reports a cause. */
  datatype Outcome = Pass | Fail(cause: string)

  function Min(a: int, b: int): (m: int)
    ensures m <= a && m <= b
    ensures m == a || m == b
  {
    if a <= b then a else b
  }
}
