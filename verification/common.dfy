/** Shared vocabulary: Go's nilable values and errors, bytes, and the abstract
    outcome of one HTTP exchange with an explorer endpoint. */
module Common {

  /** A nilable Go value (pointer, slice, bitcoind call result): None is nil. */
  datatype Option<T> = None | Some(value: T)

  /** A fallible step whose failure carries Go's error text
      (io.ReadAll, a JSON decode, hex.DecodeString, strconv.ParseInt). */
  datatype Result<T> = Ok(value: T) | Err(err: Error)

  /** The text of a Go `error`. */
  type Error = string

  /** Go's `err error`: None stands for a nil error. */
  type MaybeError = Option<Error>

  newtype byte = b: int | 0 <= b < 256

  /** chainhash.HashSize: a block or transaction hash is 32 bytes. */
  const HashSize: nat := 32

  /** A chainhash.Hash value, in its internal (little-endian) byte order. */
  type Hash = h: seq<byte> | |h| == HashSize witness seq(HashSize, _ => 0)

  /** What an explorer request yields: the connection failed with an error,
      or a response arrived with a status code and a body `B` (the body as
      read, or the outcome of decoding it, depending on the call). */
  datatype Reply<B> = ConnErr(err: Error) | Resp(status: int, body: B)
}
