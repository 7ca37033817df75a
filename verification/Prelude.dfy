/** Types shared by every component of the payment processor model. */
module Prelude {

  datatype Option<+T> = None | Some(value: T)

  datatype Result<+T, +E> = Ok(value: T) | Err(error: E) {
    predicate IsFailure() { Err? }

    function PropagateFailure<U>(): Result<U, E>
      requires Err?
    {
      Err(error)
    }

    function Extract(): T
      requires Ok?
    {
      value
    }
  }

  newtype byte = b: int | 0 <= b < 256

  /** A 32-byte account address: the first byte, which selects the shard, and the other 31 bytes as a number. */
  datatype Address = Address(first: byte, tail: nat)

  /** Identifiers that the service draws at random or derives from a hash are only ever compared. */
  type Uuid = nat
  type Memo = nat
  type Hash = nat

  /** Instants. The service clock is finer than the seconds of the chain, hence real numbers. */
  type Time = real

  const TON := "TON"

  /** The value sent with every jetton transfer, deposit filling or proxy call (config.JettonTransferTonAmount). */
  const JETTON_TRANSFER_TON: nat := 100_000_000
}
