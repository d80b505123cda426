/**
 * Go error values as the program builds them: sentinel values created with
 * errors.New, wrapping with fmt.Errorf and %w, and opaque errors that come
 * back from libraries.  Message is the text err.Error() gives, Is is
 * errors.Is against a sentinel.
 */
module Errors {

  /** The sentinel errors the program declares or compares against. */
  datatype Kind =
    | ConfigValidation    // config.ErrConfigValidation
    | UnsupportedFileExt  // config.ErrUnsupportedFileExt
    | EmptyAddress        // executor.ErrEmptyAddress
    | EmptyPassword       // executor.ErrEmptyPassword
    | CommandEmpty        // executor.ErrCommandEmpty
    | NotExist            // os.ErrNotExist

  function KindText(k: Kind): string
  {
    match k
    case ConfigValidation => "config validation error"
    case UnsupportedFileExt => "unsupported file extension"
    case EmptyAddress => "address is not set: to set address add -a host:port"
    case EmptyPassword => "password is not set: to set password add -p password"
    case CommandEmpty => "command is not set"
    case NotExist => "file does not exist"
  }

  datatype Err =
    | Sentinel(kind: Kind)
      /** fmt.Errorf("<prefix>: %w", inner) */
    | Wrap(prefix: string, inner: Err)
      /** fmt.Errorf("%w<sep><text>", inner) */
    | Annotate(inner: Err, sep: string, text: string)
      /** an error from a library that wraps none of the sentinels */
    | Opaque(text: string)

  function Message(e: Err): string
  {
    match e
    case Sentinel(k) => KindText(k)
    case Wrap(prefix, inner) => prefix + ": " + Message(inner)
    case Annotate(inner, sep, text) => Message(inner) + sep + text
    case Opaque(text) => text
  }

  /** errors.Is(e, target) for a sentinel target: follows the %w chain. */
  predicate Is(e: Err, k: Kind)
  {
    match e
    case Sentinel(k') => k' == k
    case Wrap(_, inner) => Is(inner, k)
    case Annotate(inner, _, _) => Is(inner, k)
    case Opaque(_) => false
  }
}
