/** A route attribute applied to a handler: checking the route path against a
    fresh router node, classifying the handler's arguments and return type, and
    rewriting its signature to the uniform handler signature. */
module Route {
  import opened Wrappers
  import opened Tree
  import opened Signature
  import opened RequestTypes
  import opened RouteErrors
  import opened Arguments
  import opened ReturnTypes
  import opened RouteMethods

  /** What inserting a route path into a fresh router node gave: the node, or
      the router's error text. The router itself is not part of this model. */
  datatype InsertOutcome = Inserted(node: Node) | InsertFailed(reason: string)

  /** The attribute's argument: the route path literal. */
  datatype RouteAttrs = RouteAttrs(path: string)

  /** Everything the macro learned about one handler. */
  datatype RouteInfo = RouteInfo(
    extractors: seq<Binding>,
    itemFn: ItemFn,
    verb: RouteMethod,
    reqPat: Option<Binding>,
    returnTy: Option<Ty>,
    routerNode: Node)

  /** The sole argument of every rewritten handler: `mut req: ::submillisecond::Request`. */
  const ReqArg := Typed(Pat("mut req"), Ty(OtherType, ":: submillisecond :: Request"))

  /** The return type of every rewritten handler. */
  const HandlerOutput := Returns(Ty(OtherType,
    ":: std :: result :: Result < :: submillisecond :: Response , :: submillisecond :: router :: RouteError >"))

  /** Parsing a handler under a route attribute. The path is checked first, then
      the arguments in order, then the return type; the first failure is the
      result. On success the handler takes only the request and returns the
      uniform result type, with everything else about it left as it was. */
  function ParseWithAttributes(
    verb: RouteMethod, attrs: RouteAttrs, item: ItemFn, insert: string -> InsertOutcome)
    : (r: Result<RouteInfo, RouteError>)
    ensures insert(attrs.path).InsertFailed? ==> r == Failure(PathRejected(insert(attrs.path).reason))
    ensures r.Success? <==>
      && insert(attrs.path).Inserted?
      && NoReceiver(item.sig.inputs) && CountRequests(IsRequestType, item.sig.inputs) <= 1
      && !(item.sig.output.Returns? && item.sig.output.ty.kind == ImplTrait)
    ensures r.Success? ==>
      && r.value.itemFn == item.(sig := item.sig.(inputs := [ReqArg], output := HandlerOutput))
      && r.value.extractors == Extractors(IsRequestType, item.sig.inputs)
      && r.value.reqPat == FirstRequest(IsRequestType, item.sig.inputs)
      && r.value.returnTy == (if item.sig.output.Returns? && item.sig.output.ty.kind == OtherType
                              then Some(item.sig.output.ty) else None)
      && r.value.verb == verb
      && r.value.routerNode == insert(attrs.path).node
  {
    match insert(attrs.path)
    case InsertFailed(reason) => Failure(PathRejected(reason))
    case Inserted(node) =>
      var args :- ClassifyArgs(item.sig.inputs);
      var rewritten := item.sig.(inputs := [ReqArg]);
      var returnTy :- ClassifyReturn(rewritten.output);
      var sig := rewritten.(output := HandlerOutput);
      Success(RouteInfo(args.extractors, item.(sig := sig), verb, args.request, returnTy, node))
  }

  /** Once the path is accepted, a rejected argument is reported whatever the
      handler returns: arguments are checked before the return type. */
  lemma ArgumentsBeforeReturnType(
    verb: RouteMethod, attrs: RouteAttrs, item: ItemFn, insert: string -> InsertOutcome, output: ReturnType)
    requires insert(attrs.path).Inserted?
    requires ClassifyArgs(item.sig.inputs).Failure?
    ensures ParseWithAttributes(verb, attrs, item, insert) == Failure(ClassifyArgs(item.sig.inputs).error)
    ensures ParseWithAttributes(verb, attrs, item.(sig := item.sig.(output := output)), insert)
         == ParseWithAttributes(verb, attrs, item, insert)
  {
  }

  /** An `impl Trait` return type is reported only for a handler whose path and
      arguments were accepted. */
  lemma ImplReturnReportedLast(
    verb: RouteMethod, attrs: RouteAttrs, item: ItemFn, insert: string -> InsertOutcome)
    requires item.sig.output.Returns? && item.sig.output.ty.kind == ImplTrait
    ensures ParseWithAttributes(verb, attrs, item, insert) == Failure(ReturnsImpl) <==>
      insert(attrs.path).Inserted? && ClassifyArgs(item.sig.inputs).Success?
  {
  }

  /** The rewritten handler is a fixed point: parsing it again under the same
      attribute accepts it, binds its one argument as the request, finds no
      extractors, and leaves the signature as it is. */
  lemma RewriteIsFixedPoint(
    verb: RouteMethod, attrs: RouteAttrs, item: ItemFn, insert: string -> InsertOutcome)
    requires ParseWithAttributes(verb, attrs, item, insert).Success?
    ensures var again := ParseWithAttributes(verb, attrs,
        ParseWithAttributes(verb, attrs, item, insert).value.itemFn, insert);
      && again.Success?
      && again.value.itemFn == ParseWithAttributes(verb, attrs, item, insert).value.itemFn
      && again.value.reqPat == Some(Binding(ReqArg.pat, ReqArg.ty))
      && again.value.extractors == []
      && again.value.returnTy == Some(HandlerOutput.ty)
  {
    var first := ParseWithAttributes(verb, attrs, item, insert).value.itemFn;
    assert first.sig.inputs == [ReqArg];
    RewrittenArgsClassify();
  }

  /** The rewritten argument list is the request alone. */
  lemma RewrittenArgsClassify()
    ensures ClassifyArgs([ReqArg]) == Success(Classified(Some(Binding(ReqArg.pat, ReqArg.ty)), []))
  {
    QualifiedRequestRecognised("");
    assert ReqArg.ty.printed == ":: submillisecond :: Request" + "";
    SoleRequestArg(ReqArg);
  }

  /** A lone request-typed argument classifies as the request with no extractors. */
  lemma SoleRequestArg(arg: FnArg)
    requires IsRequestArg(IsRequestType, arg)
    ensures ClassifyArgs([arg]) == Success(Classified(Some(BindingOf(arg)), []))
  {
  }
}
