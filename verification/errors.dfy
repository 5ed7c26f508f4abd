/** The errors the route macro reports at expansion time. */
module RouteErrors {

  /** Why a route attribute was rejected. */
  datatype RouteError =
    | PathRejected(reason: string)  // the router refused to insert the route path
    | TakesSelf                     // a handler argument is a `self` receiver
    | RequestDefinedTwice           // two arguments have the request type
    | ReturnsImpl                   // the handler returns an `impl Trait` type

  /** The text of the compile error raised for `e`. */
  function Message(e: RouteError): string
  {
    match e
    case PathRejected(reason) => reason
    case TakesSelf => "routes cannot take self"
    case RequestDefinedTwice => "request defined twice"
    case ReturnsImpl => "routes cannot return impl types, use `_` instead"
  }
}
