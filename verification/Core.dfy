/** Shared vocabulary: error codes, results, options and the capacity limits of a Config. */
module Core {

  datatype Option<+T> = None | Some(value: T)

  /** error_code.hpp; `NoError` is `error_code::none`. */
  datatype ErrorCode =
    | NoError
    | BufferOverflow
    | NotConnected
    | ConnectionFailed
    | InvalidArgument
    | OutOfRange
    | CapacityExceeded
    | Disconnected
    | Timeout
    | StageDropped
    | InvalidUri

  /** `expected<void, error_code>`. */
  datatype Result = Ok | Err(error: ErrorCode)

  /** The first `n` elements, or all of them if there are fewer. */
  function Take<T>(s: seq<T>, n: nat): (r: seq<T>)
    ensures r <= s && |r| == if |s| <= n then |s| else n
  {
    if |s| <= n then s else s[..n]
  }

  datatype UriParser = Minimal | Rfc3986

  /** The compile-time limits of a Config struct. */
  datatype Config = Config(
    parser: UriParser,
    maxUriLen: nat,
    maxTopicLen: nat,
    maxPayloadLen: nat,
    maxStages: nat,
    maxConfigOps: nat,
    maxSubscriptions: nat,
    maxSchemeLen: nat,
    maxSchemes: nat)
}
