/** The part of Rust's `std::io` error model that the vault observes. */
module Io {
  /** The error kinds the model distinguishes; any other kind keeps its `Debug` name. */
  datatype ErrorKind = NotFound | InvalidInput | IsADirectory | PermissionDenied | Unlisted(name: string)

  /** `{:?}` of an `ErrorKind`: the variant's name. */
  function KindDebug(k: ErrorKind): string {
    match k
    case NotFound => "NotFound"
    case InvalidInput => "InvalidInput"
    case IsADirectory => "IsADirectory"
    case PermissionDenied => "PermissionDenied"
    case Unlisted(name) => name
  }

  /** The description `ErrorKind` prints (`ErrorKind::as_str`). */
  function KindDescription(k: ErrorKind): string {
    match k
    case NotFound => "entity not found"
    case InvalidInput => "invalid input parameter"
    case IsADirectory => "is a directory"
    case PermissionDenied => "permission denied"
    case Unlisted(name) => name
  }

  /** An `io::Error`: built from a bare kind (`io::Error::from(kind)`) or reported
      by the operating system, whose text is kept as an opaque string. */
  datatype Error = Simple(kind: ErrorKind) | Os(kind: ErrorKind, text: string)

  /** `{:?}` of an `io::Error` built from a bare kind, e.g. `Kind(InvalidInput)`. */
  function ErrorDebug(e: Error): string
    requires e.Simple?
  {
    "Kind(" + KindDebug(e.kind) + ")"
  }

  /** `Display` of an `io::Error`. */
  function ErrorDisplay(e: Error): string {
    match e
    case Simple(k) => KindDescription(k)
    case Os(_, text) => text
  }
}
