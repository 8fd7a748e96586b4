/** The shared record and error vocabulary of the autharr/healarr tools.

    `Config`/`API` are the credential record of pkg/domain/domain.go. The
    program passes `*domain.Config` pointers whose `API` is always set by the
    readers, so the pointer is modelled by the value itself; the one place
    where a nil config can reach a consumer is modelled with `Option`.
 */
module Domain {

  datatype Option<T> = None | Some(value: T)

  /** Every error value the modelled code creates or passes through. */
  datatype Error =
    | External(msg: string)          // an error produced by a collaborator (os, codecs, HTTP client, flags)
    | UnsupportedFileExtension       // "Unsupported file extension"
    | WatcherEventsClosed            // "FSWatcher closed channel: %w"
    | ErrorChannelClosed             // "error channel has been closed"
    | NoCredentialSource             // "at least --api-token oder --config must be defined"
    | ConflictingCredentialSources   // "neither --api-token nor --config can be used at the same time"
    | NoURL                          // health.ErrNoURL
    | UnexpectedStatus(code: int)    // "Received unexpected HTTP status code %v"

  /** A Go `(T, error)` pair in which exactly one side is meaningful. */
  datatype Result<T> = Ok(value: T) | Err(error: Error)

  /** A Go `error` return: nil is `Pass`. */
  datatype Outcome = Pass | Fail(error: Error)

  datatype API = API(password: string, token: string, url: string, username: string)

  datatype Config = Config(api: API)

}
