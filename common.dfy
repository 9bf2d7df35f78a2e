/** Values shared by the loader's three parts: optional values, results,
    the failures it reports, the events it publishes and the record of the
    handler invocations those events cause. */
module Common {

  datatype Option<T> = None | Some(value: T)

  /** A call that either produces a value or throws (or rejects with) a failure. */
  datatype Result<T> = Ok(value: T) | Err(failure: Failure)

  /** Every failure the loader raises; vendor errors are passed on unchanged,
      so they are known only by their identity. */
  datatype Failure =
    | NoToken             // constructor called without a token
    | InitUnsupported     // init() outside a browser window
    | ServerSide          // getAssessment() outside a browser window
    | InitTimeout(ms: int)  // readiness not reached within the configured time
    | LoadFailed          // the script element fired `error`
    | MclUndefined        // no vendor object after readiness
    | NoData              // every attempt returned an empty assessment
    | Vendor(id: nat)     // an error thrown by the vendor's refresh() or getAssessment()

  /** What every message the loader writes begins with. */
  const MessagePrefix := "[Monocle] "

  /** The text of the Error the loader itself builds; a vendor error keeps the
      vendor's own message, which is not known here. */
  function Message(f: Failure): (r: Option<string>)
    ensures r.None? <==> f.Vendor?
    ensures r.Some? ==> |r.value| > |MessagePrefix| && r.value[..|MessagePrefix|] == MessagePrefix
  {
    match f
    case NoToken => Some(MessagePrefix + "No token provided")
    case InitUnsupported => Some(MessagePrefix + "init() not supported in SSR")
    case ServerSide => Some(MessagePrefix + "getAssessment() is not available on the server side")
    case InitTimeout(ms) => Some(MessagePrefix + "init() timeout after " + Decimal(ms) + " ms")
    case LoadFailed => Some(MessagePrefix + "Failed to load script")
    case MclUndefined => Some(MessagePrefix + "MCL is not defined")
    case NoData => Some(MessagePrefix + "No data returned after retries")
    case Vendor(_) => None
  }

  /** The decimal rendering a template literal gives an integer. */
  function Decimal(n: int): (r: string)
    ensures |r| > 0
    ensures n >= 0 ==> forall i :: 0 <= i < |r| ==> '0' <= r[i] <= '9'
    ensures n < 0 ==> r[0] == '-'
  {
    if n < 0 then "-" + Digits(-n) else Digits(n)
  }

  function Digits(n: nat): (r: string)
    ensures |r| > 0
    ensures forall i :: 0 <= i < |r| ==> '0' <= r[i] <= '9'
  {
    var d := [(48 + n % 10) as char];
    if n < 10 then d else Digits(n / 10) + d
  }

  /** The three events consumers can subscribe to. */
  datatype Event = Assessment | Error | Load

  /** The `detail` a dispatched event carries: nothing for `load`, the JWT for
      `assessment`, the failure for `error`. */
  datatype Detail = NoDetail | Jwt(token: string) | Raised(failure: Failure)

  /** One invocation of a consumer handler, registered for `event`, with `detail`. */
  datatype Call = Call(handler: nat, event: Event, detail: Detail)
}
