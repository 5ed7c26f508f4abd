# Route attribute macro of submillisecond, in Dafny

`submillisecond_macros` provides the `#[get]`, `#[post]`, ... attributes that
turn an ordinary function into a route handler. Before it emits any code the
macro makes a series of decisions about the handler, and this project models
those decisions as pure functions and proves what they guarantee:

- **The route path** is inserted into a fresh router `Node`; a refusal becomes
  the macro's first error. The router is outside this model, so insertion is a
  function-valued parameter (`Route.InsertOutcome`).
- **The arguments** are scanned in order. A `self` receiver is refused
  ("routes cannot take self"). A typed argument whose printed type, with every
  space removed, *starts with* `::submillisecond::Request`,
  `submillisecond::Request` or `Request` is the request binding (a prefix test,
  so `RequestFoo` counts too); a second one is refused ("request defined twice").
  Every other typed argument becomes an extractor, in order. The first error
  ends the scan and no partial list survives it. The scan and its properties
  are stated for any request test; the macro's classification instantiates
  them with the prefix test above.
- **The return type** is kept when it is concrete, becomes "inferred" when it
  is absent or `_`, and is refused when it is `impl Trait`.
- **The signature is rewritten** to take only `mut req: ::submillisecond::Request`
  and return `Result<Response, RouteError>`.
- **The router node is frozen** (`expand_node`) into a `ConstNode` literal
  that copies priority, wild-child flag, node type, index bytes and prefix bytes
  and freezes the children one for one, in order.
- **The attribute's method** becomes one of seven distinct `http::Method` constants.

Freezing a node has no failure path in the code, so the model makes it total.

Modules, one per concern: `Wrappers` (Option/Result), `Tree` (Node,
ConstNode, NodeType), `Signature` (patterns, types, arguments, functions),
`RouteErrors`, `RequestTypes` (with `RequestTypeExamples`), `Arguments`, `ReturnTypes`, `RouteMethods`,
`ExpandNode`, and `Route` (the whole `parse_with_attributes`).

A type is modelled by its `syn` variant (`ImplTrait`, `Infer`, anything else)
and by the text `to_token_stream().to_string()` prints for it: the return-type
decision looks at the variant, the request test looks at the text, as the
code does. The emitted `ConstNode` literal is modelled by its structure, with
the node type written as its path; `ExpandNode.Evaluate` is the value such a
literal denotes and `ExpandNode.Thaw` turns a frozen node back into a `Node`,
so that freezing can be stated as a round trip.

## Model

| member | source | states |
|---|---|---|
| `RequestTypes.RemoveSpaces` | submillisecond_macros/src/route.rs:53 | the printed type with spaces removed contains no space and is no longer than the original |
| `RequestTypes.RemoveSpacesAppend` | submillisecond_macros/src/route.rs:53 | removing spaces from two texts joined is joining the two texts with spaces removed |
| `RequestTypes.RemoveSpacesNoSpaces` | submillisecond_macros/src/route.rs:53 | a type text without spaces is compared as printed |
| `RequestTypes.RemoveSpacesIdempotent` | submillisecond_macros/src/route.rs:53 | removing spaces a second time changes nothing |
| `RequestTypes.RemoveSpaceBetween` | submillisecond_macros/src/route.rs:53 | a single space between two pieces of printed type vanishes |
| `RequestTypes.SpacesIrrelevant` | submillisecond_macros/src/route.rs:53-57 | inserting a space anywhere in a printed type never changes whether it is the request type |
| `RequestTypes.SpacedTokens` | submillisecond_macros/src/route.rs:53 | four space-free tokens printed with separating spaces compare as their concatenation |
| `RequestTypes.StartsWithAny` | submillisecond_macros/src/route.rs:54-56 | the list search is true exactly when some listed path is a prefix of the text |
| `RequestTypes.IsRequestType` | submillisecond_macros/src/route.rs:53-57 | the printed type, with spaces removed, starts with one of the three request type paths (spelled out by `RequestTypes.IsRequestTypeCases`) |
| `RequestTypes.IsRequestTypeCases` | submillisecond_macros/src/route.rs:11-15 | an argument is the request exactly when its space-free printed type starts with `::submillisecond::Request`, `submillisecond::Request` or `Request` |
| `RequestTypes.PathsIndependent` | submillisecond_macros/src/route.rs:11-15 | none of the three request type paths is a prefix of another, so each is needed |
| `RequestTypes.SpacedQualifiedPath` | submillisecond_macros/src/route.rs:53-57 | the fully qualified request type as printed with spaces, `:: submillisecond :: Request`, becomes the first request type path once spaces are removed |
| `RequestTypes.QualifiedRequestRecognised` | submillisecond_macros/src/route.rs:53-57 | the fully qualified request type, printed with spaces between its tokens, is recognised whatever is printed after it (generic arguments included) |
| `RequestTypeExamples.PrefixNotEquality` | submillisecond_macros/src/route.rs:54-56 | the test is a prefix test: every printed type beginning with `Request`, such as `RequestFoo` or `Request < T >`, is taken for the request |
| `RequestTypeExamples.ReferenceNotRequest` | submillisecond_macros/src/route.rs:53-56 | no type printed with a leading `&`, `& Request` included, is the request type |
| `RequestTypes.RecognisedWhateverFollows` | submillisecond_macros/src/route.rs:53-57 | a printed type whose space-free form is one of the request type paths stays the request type whatever is printed after it |
| `Arguments.FirstRequest` | submillisecond_macros/src/route.rs:58-61 | the kept request binding is absent exactly when no argument passes the request test, and otherwise is the binding of a request-typed argument with no request-typed argument before it |
| `Arguments.Extractors` | submillisecond_macros/src/route.rs:64-66 | no extractor passes the request test; without receivers, extractors and requests together account for every argument |
| `Arguments.Step` | submillisecond_macros/src/route.rs:47-67 | one argument fails exactly when it is a receiver or a second request, with the matching error; a first request is kept, any other typed argument is appended to the extractors |
| `Arguments.Scan` | submillisecond_macros/src/route.rs:43-69 | applies the step to each argument left to right and returns the first error, as the short-circuiting collect does (its meaning is stated by `Arguments.ScanSuccess` and `Arguments.ScanFailure`) |
| `Arguments.ScanSuccess` | submillisecond_macros/src/route.rs:43-69 | for any request test and from any scan state, the scan succeeds exactly when there is no receiver and at most one request overall, appends the extractors in order and keeps the first request |
| `Arguments.ScanFailure` | submillisecond_macros/src/route.rs:47-69 | a failed scan reports the error of the first argument that is a receiver or a second request |
| `Arguments.ClassifyArgs` | submillisecond_macros/src/route.rs:41-69 | with the macro's request test, classification succeeds iff no receiver and at most one request; the extractors are the non-request arguments in order, the request is the first request argument, and an error is the one of the first offending argument |
| `Arguments.ReceiverRejected` | submillisecond_macros/src/route.rs:48-51 | whatever the request test, a `self` receiver anywhere rejects the handler |
| `Arguments.ReceiverFirstReported` | submillisecond_macros/src/route.rs:47-62 | a receiver preceded only by typed arguments with at most one request is reported as "routes cannot take self" |
| `Arguments.SecondRequestRejected` | submillisecond_macros/src/route.rs:58-62 | whatever the request test, two arguments passing it reject the handler |
| `Arguments.CountRequestsPrefix` | submillisecond_macros/src/route.rs:58 | requests counted over a longer run of arguments are at least those of a shorter run, plus one for a request at its end |
| `Arguments.CountRequestsUpTo` | submillisecond_macros/src/route.rs:58 | a leading run of arguments has no more requests than the whole list |
| `Arguments.ExtractorsAppend` | submillisecond_macros/src/route.rs:64-66 | the extractors of two argument lists in a row are those of each in turn |
| `Arguments.ExtractorsSingle` | submillisecond_macros/src/route.rs:52-66 | a single typed argument contributes its binding as an extractor, or nothing when it is the request |
| `Arguments.ExtractorInPlace` | submillisecond_macros/src/route.rs:43-69 | each non-request typed argument appears among the extractors exactly once, between the extractors before it and after it; the request contributes none |
| `ReturnTypes.ClassifyReturn` | submillisecond_macros/src/route.rs:75-87 | fails with "routes cannot return impl types" exactly for `impl Trait`; gives "inferred" exactly for no type or `_`; otherwise gives the declared concrete type |
| `ReturnTypes.ResponseTy` | submillisecond_macros/src/route.rs:126-129 | the kept return type, or `_` when none was kept (its meaning is stated by `ReturnTypes.ResponseTyFollowsDeclaration`) |
| `ReturnTypes.ResponseTyFollowsDeclaration` | submillisecond_macros/src/route.rs:126-129 | an accepted handler's response binding carries its declared concrete type, or `_` when none or `_` was declared, never `impl Trait` |
| `RouteMethods.MethodPath` | submillisecond_macros/src/route.rs:133-141 | the `::http::Method` constant path of each of the seven attributes (one-to-one by `RouteMethods.MethodPathRoundTrip`) |
| `RouteMethods.MethodPathRoundTrip` | submillisecond_macros/src/route.rs:133-141 | each route attribute's method constant decodes back to that attribute |
| `RouteMethods.MethodPathInjective` | submillisecond_macros/src/route.rs:133-141 | the seven attributes map to seven distinct HTTP methods |
| `RouteMethods.MethodOfPathSound` | submillisecond_macros/src/route.rs:133-141 | every method path that decodes is the path of the attribute it decodes to |
| `ExpandNode.NodeTypePath` | submillisecond_macros/src/route.rs:264-269 | the `NodeType` variant path emitted for each of the four node types |
| `ExpandNode.Expand` | submillisecond_macros/src/route.rs:248-289 | the `ConstNode` literal for a node: priority, wild-child flag and node type path, index and prefix bytes one by one, children expanded in order (its meaning is stated by `ExpandNode.ExpandRoundTrip` and `ExpandNode.ExpandSameShape`) |
| `ExpandNode.ExpandAll` | submillisecond_macros/src/route.rs:277 | the children's literals, one per child, in order |
| `ExpandNode.NodeTypePathRoundTrip` | submillisecond_macros/src/route.rs:264-269 | each node type's emitted path names that node type back |
| `ExpandNode.NodeTypePathInjective` | submillisecond_macros/src/route.rs:264-269 | the four node types map one-to-one onto their paths |
| `ExpandNode.EvaluateAll` | submillisecond_macros/src/route.rs:286 | the frozen children list has one entry per child literal |
| `ExpandNode.ExpandRoundTrip` | submillisecond_macros/src/route.rs:248-289 | the emitted literal always denotes a `ConstNode`, and thawing it gives back exactly the source node |
| `ExpandNode.ExpandAllRoundTrip` | submillisecond_macros/src/route.rs:277 | the children's literals all denote frozen nodes that thaw back to the children, in order |
| `ExpandNode.ExpandSameShape` | submillisecond_macros/src/route.rs:279-287 | the constant has the source's priority, wild-child flag and node type, byte-equal indices and prefix, and as many children, each of the same shape as its source child |
| `ExpandNode.ExpandChildAt` | submillisecond_macros/src/route.rs:277-286 | child i of the constant is the constant frozen from child i of the source |
| `Route.ParseWithAttributes` | submillisecond_macros/src/route.rs:27-99 | a refused path is the error whatever the handler; success iff the path, arguments and return type are all accepted; the rewritten handler takes only `mut req: ::submillisecond::Request`, returns the uniform result type and is otherwise unchanged; the extractors, the request, the concrete return type (if any), the method and the router node are recorded |
| `RouteErrors.Message` | submillisecond_macros/src/route.rs:36-82 | the compile error text: the router's own text for a refused path, and "routes cannot take self", "request defined twice" and "routes cannot return impl types, use `_` instead" for the other three errors |
| `Route.ArgumentsBeforeReturnType` | submillisecond_macros/src/route.rs:69-87 | once the path is accepted, an argument error is reported whatever the return type |
| `Route.ImplReturnReportedLast` | submillisecond_macros/src/route.rs:75-83 | an `impl Trait` return is the reported error exactly when path and arguments were accepted |
| `Route.RewriteIsFixedPoint` | submillisecond_macros/src/route.rs:71-89 | parsing the rewritten handler again accepts it, binds its one argument as the request, finds no extractors and leaves its signature unchanged |
| `Route.RewrittenArgsClassify` | submillisecond_macros/src/route.rs:71-72 | the rewritten argument list `mut req: ::submillisecond::Request` classifies as the request with no extractors |
| `Route.SoleRequestArg` | submillisecond_macros/src/route.rs:53-62 | a lone request-typed argument classifies as the request with no extractors |

## Left out

- The radix-tree router itself (`Node::insert`, `Node::default`, `ConstNode::at`, `Params::merge`, priority reordering): `submillisecond_core::router::tree` is not part of this model. Insertion of the route path into a fresh node is a parameter returning the resulting node or the router's error text.
- Parsing by `syn` (`RouteAttrs::parse` with its "missing or invalid route path" error, `syn::parse` of the function item, `syn::parse2` of the replacement argument and return type): foreign library behaviour. The model starts from the parsed path and handler.
- How `to_token_stream().to_string()` prints a type: taken as given in `Ty.printed`. The rewritten request and result types carry the spaced text that printer is expected to produce.
- Token emission by `quote!` in `expand` and `expand_with_body` (lines 101-215), including the re-emission of attributes (195-201), the request and extractor `let` statements and the closure wrapping the body; only the structural content of `expand_node`, the return type written on the response binding and the method constant are modelled.
- The runtime behaviour of the generated handler (lines 143-175): method comparison, request extensions, the call to `at`, the merge of parameters, extractor calls and `IntoResponse`. It runs against types that are not part of this model.
- Error spans and the conversion to `proc_macro::TokenStream`: the model reports which error, not where.
- The integer width of `Node::priority` is not shown; priority is a natural number copied unchanged by freezing.
