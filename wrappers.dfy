/** Option and Result, used for JavaScript's null/undefined values and thrown errors. */
module Wrappers {

  datatype Option<+T> = None | Some(value: T) {
    function GetOr(default: T): T {
      match this
      case Some(v) => v
      case None => default
    }
  }

  datatype Result<+T, +E> = Ok(value: T) | Err(error: E)

  /** The errors the lock-key manager throws, one per distinct `throw` of the module. */
  datatype Failure =
    | UnrecognizedLockKey              // checkLockKey: candidate neither current-format nor a usable `iv`
    | RegistrationFailed               // registerLocalIdentity: any error inside it, wrapped
    | InvalidPasskeyInfo               // extractLockKey: user handle missing or of the wrong length
    | AuthVerificationFailed           // verify requested and the response did not verify
    | UnverifiedUnrecognizedPasskey    // verify requested but no local identity owns the credential
    | KeyNotCachedForNewPasskey        // addNewPasskey on an identity whose lock-key is not cached
    | AuthCeremonyFailed               // the authentication ceremony itself threw
    | UnrecognizedStorageType          // configureStorage: not one of the supported adapters
    | DataEncryptionFailed             // lockData: null/undefined data (wrapped "Non-empty data required.")
}
