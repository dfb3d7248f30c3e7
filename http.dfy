/**
 * The two HTTP values the core prints: the protocol version and the status
 * code. Both come from the `http` crate; they are modelled by what the core
 * observes of them.
 */
module Http {
  import opened Wrappers
  import Strings

  /** `http::Version`. */
  datatype Version = Http09 | Http10 | Http11 | Http2 | Http3

  /** The `{:?}` rendering of a version. */
  function VersionText(v: Version): (s: string)
    ensures |s| > 0 && ' ' !in s && '\n' !in s
  {
    match v
    case Http09 => "HTTP/0.9"
    case Http10 => "HTTP/1.0"
    case Http11 => "HTTP/1.1"
    case Http2 => "HTTP/2.0"
    case Http3 => "HTTP/3.0"
  }

  /** The three-digit range `http::StatusCode` admits. */
  type Code = c: nat | 100 <= c <= 999 witness 200

  /**
   * `http::StatusCode`: its numeric value and its canonical reason phrase
   * (`canonical_reason()`), which exists only for registered codes.
   */
  datatype StatusCode = StatusCode(code: Code, canonicalReason: Option<string>)

  /** The `{}` rendering of a status code: the number, a space, the reason. */
  function StatusCodeText(s: StatusCode): string
  {
    Strings.Decimal(s.code) + " " + s.canonicalReason.GetOr("<unknown status code>")
  }
}
