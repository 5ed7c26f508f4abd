/** The parts of a parsed handler function that the route macro inspects.
    Parsing itself is left to the Rust `syn` crate; here a pattern and a type
    are known by what they print as, and a type also by its syntactic kind. */
module Signature {

  /** A binding pattern (`req`, `mut req`, `Path(id)`), known by its printed text. */
  datatype Pat = Pat(printed: string)

  /** The syntactic kinds of type the macro tells apart. */
  datatype TyKind = ImplTrait | Infer | OtherType

  /** A type: its kind, and the text `to_token_stream().to_string()` prints for it. */
  datatype Ty = Ty(kind: TyKind, printed: string)

  /** One handler argument: a `self` receiver, or a pattern with a type. */
  datatype FnArg = Receiver | Typed(pat: Pat, ty: Ty)

  /** A declared return type, or none (`ReturnType::Default`). */
  datatype ReturnType = Default | Returns(ty: Ty)

  /** A handler's signature: its name, arguments and return type. */
  datatype Sig = Sig(ident: string, inputs: seq<FnArg>, output: ReturnType)

  /** A handler function: attributes, visibility and body are carried through untouched. */
  datatype ItemFn = ItemFn(attrs: seq<string>, vis: string, sig: Sig, block: seq<string>)

  /** A pattern with its type, as a request binding or an extractor. */
  datatype Binding = Binding(pat: Pat, ty: Ty)
}
