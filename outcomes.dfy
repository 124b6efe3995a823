/** Optional values and the failure outcomes of the protocol object.
    Every `raise` and every failing `assert` of the protocol becomes an `Err`
    carrying the kind of failure; nothing here carries key material. */
module Outcomes {

  /** Python's `None` or a value. */
  datatype Option<+T> = None | Some(value: T)

  /** One variant per way a protocol call can fail. */
  datatype Error =
    | SecretNotSet          // `assert self.sharedSecret is not None`
    | MessageTooShort       // `assert len(message) > 16`
    | AuthenticationFailed  // AES-CCM `decrypt_and_verify` rejects nonce, ciphertext and tag
    | NotUtf8               // `.decode('utf-8')` fails
    | Malformed             // a `split` unpacking or an `int(...)` conversion fails
    | DigitLimit            // `str(...)` of an integer with more digits than the conversion limit
    | WrongRole             // the role tag is not the one expected
    | TimestampMismatch     // client: the reply is not for the stored timestamp + 1
    | TimestampTooOld       // server: the initiation is older than the freshness window
    | NoExponent            // client: `pow` with an exponent that was never drawn (`None`)
    | KeysNotSet            // encrypt/decrypt before both session keys are installed
    | IntegrityFailed       // HMAC `verify` rejects the tag of an application message

  /** A value or the failure that prevented it; usable with `:-`. */
  datatype Result<+T> = Ok(value: T) | Err(error: Error) {

    predicate IsFailure() {
      Err?
    }

    function PropagateFailure<U>(): Result<U>
      requires Err?
    {
      Err(error)
    }

    function Extract(): T
      requires Ok?
    {
      value
    }
  }
}
