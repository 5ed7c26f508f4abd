/** What the route macro makes of a handler's declared return type. */
module ReturnTypes {
  import opened Wrappers
  import opened Signature
  import opened RouteErrors

  /** The inferred type `_`. */
  const InferTy := Ty(Infer, "_")

  /** The declared return type is kept, except that none and `_` both become
      "to be inferred" and an `impl Trait` type is refused. */
  function ClassifyReturn(output: ReturnType): (r: Result<Option<Ty>, RouteError>)
    ensures r.Failure? <==> output.Returns? && output.ty.kind == ImplTrait
    ensures r.Failure? ==> r.error == ReturnsImpl
    ensures r == Success(None) <==> output.Default? || output.ty.kind == Infer
    ensures r.Success? && r.value.Some? ==> output == Returns(r.value.value) && r.value.value.kind == OtherType
  {
    match output
    case Default => Success(None)
    case Returns(ty) =>
      match ty.kind
      case ImplTrait => Failure(ReturnsImpl)
      case Infer => Success(None)
      case OtherType => Success(Some(ty))
  }

  /** The type written on the `let response: _ = ...` binding in the generated body. */
  function ResponseTy(returnTy: Option<Ty>): Ty
  {
    match returnTy
    case Some(ty) => ty
    case None => InferTy
  }

  /** A handler the macro accepts gets its declared type back on the response
      binding when it declared a concrete one, and `_` otherwise; the response
      binding is never an `impl Trait` type. */
  lemma ResponseTyFollowsDeclaration(output: ReturnType)
    requires ClassifyReturn(output).Success?
    ensures var t := ResponseTy(ClassifyReturn(output).value);
      && t.kind != ImplTrait
      && (output.Returns? && output.ty.kind == OtherType ==> t == output.ty)
      && (output.Default? || output.ty.kind == Infer ==> t == InferTy)
  {
  }
}
