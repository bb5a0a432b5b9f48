/** Result shapes and errors shared by the modules of this project. */
module Wrappers {

  datatype Option<+T> = None | Some(value: T)

  datatype Result<+T, +E> = Success(value: T) | Failure(error: E)

  type u8 = n: nat | n < 256

  /** The errors of `src/errors.rs` that the modelled operations return. */
  datatype RvError =
    | ErrShamirShareCountInvalid
    | ErrCoreSealConfigInvalid
    | ErrCoreSealConfigNotFound
    | ErrBarrierAlreadyInit
    | ErrBarrierNotInit
    | ErrBarrierSealed
    | ErrBarrierUnsealed
    | ErrBarrierKeyInvalid
    | ErrBarrierUnsealFailed
    | ErrBarrierEpochMismatch
    | ErrBarrierVersionMismatch
    | ErrBarrierKeySanityCheckFailed
    | ErrAuthTokenNotFound
    | ErrAuthTokenIdInvalid
    | ErrPermissionDenied
    | ErrRequestInvalid
    | ErrRequestClientTokenMissing
    | ErrResponse
    | ErrLeaseNotFound
    | ErrLeaseNotRenewable
    | ErrSerde
    | ErrOpenSsl
    | ErrString
    /** A storage call that failed. */
    | ErrIo
    /** The thread panics: an arithmetic overflow or an index out of range. */
    | Panic
}
