/** The HTTP method a route attribute (`#[get]`, `#[post]`, ...) stands for. */
module RouteMethods {
  import opened Wrappers

  /** The route attributes, one per HTTP method. */
  datatype RouteMethod = GET | POST | PUT | DELETE | HEAD | OPTIONS | PATCH

  /** The path of the `http::Method` constant the generated code compares against. */
  function MethodPath(m: RouteMethod): string
  {
    match m
    case GET => "::http::Method::GET"
    case POST => "::http::Method::POST"
    case PUT => "::http::Method::PUT"
    case DELETE => "::http::Method::DELETE"
    case HEAD => "::http::Method::HEAD"
    case OPTIONS => "::http::Method::OPTIONS"
    case PATCH => "::http::Method::PATCH"
  }

  /** The route attribute whose method constant has path `path`, if any. */
  function MethodOfPath(path: string): Option<RouteMethod>
  {
    if path == "::http::Method::GET" then Some(GET)
    else if path == "::http::Method::POST" then Some(POST)
    else if path == "::http::Method::PUT" then Some(PUT)
    else if path == "::http::Method::DELETE" then Some(DELETE)
    else if path == "::http::Method::HEAD" then Some(HEAD)
    else if path == "::http::Method::OPTIONS" then Some(OPTIONS)
    else if path == "::http::Method::PATCH" then Some(PATCH)
    else None
  }

  /** Each route attribute names its own method constant, so the generated
      check tells the seven apart. */
  lemma MethodPathRoundTrip(m: RouteMethod)
    ensures MethodOfPath(MethodPath(m)) == Some(m)
  {
  }

  /** Distinct route attributes never map to the same HTTP method. */
  lemma MethodPathInjective(m1: RouteMethod, m2: RouteMethod)
    ensures MethodPath(m1) == MethodPath(m2) ==> m1 == m2
  {
  }

  /** Every method path that decodes came from that attribute. */
  lemma MethodOfPathSound(path: string)
    ensures MethodOfPath(path).Some? ==> MethodPath(MethodOfPath(path).value) == path
  {
  }
}
