/**
  The fragment of Rust syntax (as the `syn` crate represents it) that the
  bindgen-to-cxx rewrite reads and produces. Token-level detail (spans,
  punctuation, brace tokens) is dropped; pieces the rewrite never looks
  into are kept as opaque `tokens` strings so that "left unchanged" still
  means something.
*/
module Syntax {
  import opened Wrappers

  type Ident = string

  /** `syn::Type`, restricted to the kinds `convert_type` distinguishes. */
  datatype Type =
    | PathType(path: TypePath)
    | Ptr(mutable: bool, elem: Type)
    | Reference(lifetime: Option<Ident>, mutable: bool, elem: Type)
    | OtherType(tokens: string)   // arrays, slices, tuples, fn pointers, ...

  /** `syn::TypePath`: an optional qualified self, `::` and the segments. */
  datatype TypePath = TypePath(qself: Option<QSelf>, leadingColon: bool, segments: seq<PathSegment>)

  datatype QSelf = QSelf(ty: Type, position: nat)

  datatype PathSegment = PathSegment(ident: Ident, arguments: PathArguments)

  datatype PathArguments =
    | NoArguments
    | AngleBracketed(args: seq<GenericArgument>)
    | Parenthesized(tokens: string)

  datatype GenericArgument =
    | TypeArg(ty: Type)
    | LifetimeArg(name: Ident)
    | OtherArg(tokens: string)   // const arguments, bindings, constraints

  /** An attribute `#[a::b ...]`: its path and the rest as tokens. */
  datatype Attribute = Attribute(leadingColon: bool, path: seq<Ident>, tokens: string)

  /** `Path::get_ident`: the path is a single plain identifier. */
  function AttrIdent(a: Attribute): Option<Ident> {
    if !a.leadingColon && |a.path| == 1 then Some(a.path[0]) else None
  }

  datatype Visibility = Inherited | Public | Restricted(tokens: string)

  datatype Pat = IdentPat(mutable: bool, ident: Ident) | OtherPat(tokens: string)

  datatype FnArg = Typed(pat: Pat, ty: Type) | Receiver(mutable: bool)

  datatype ReturnType = DefaultReturn | Returns(ty: Type)

  datatype Signature = Signature(unsafety: bool, ident: Ident, inputs: seq<FnArg>, output: ReturnType)

  datatype ForeignItem =
    | ForeignFn(attrs: seq<Attribute>, vis: Visibility, sig: Signature)
    | ForeignTypeAlias(ident: Ident)   // verbatim `type X = super::bindgen::X;`
    | ForeignInclude(path: string)     // `include!("path");`
    | OtherForeignItem(tokens: string) // statics, foreign types, macros

  datatype ItemForeignMod = ItemForeignMod(attrs: seq<Attribute>, abi: string, items: seq<ForeignItem>)

  datatype Field = Field(vis: Visibility, ident: Option<Ident>, ty: Type)

  datatype Fields = Named(named: seq<Field>) | Unnamed(unnamed: seq<Field>) | Unit

  datatype ItemStruct = ItemStruct(attrs: seq<Attribute>, vis: Visibility, ident: Ident, fields: Fields)

  datatype ItemEnum = ItemEnum(attrs: seq<Attribute>, vis: Visibility, ident: Ident, variants: seq<Ident>)

  /** A method body: as written, or the generated call `super::cxxbridge::callee(args)`. */
  datatype Block = Verbatim(tokens: string) | CallBridgeFn(callee: Ident, args: seq<Ident>)

  datatype TypeKind = Trivial | Opaque

  datatype ImplItem =
    | Method(attrs: seq<Attribute>, vis: Visibility, sig: Signature, block: Block)
    | ExternTypeId(cppName: string)  // `type Id = cxx::type_id!("...");`
    | ExternTypeKind(kind: TypeKind) // `type Kind = cxx::kind::...;`
    | OtherImplItem(tokens: string)

  /** `impl` or `impl Trait for`: `traitPath` is empty for an inherent impl. */
  datatype ItemImpl = ItemImpl(attrs: seq<Attribute>, unsafety: bool, traitPath: seq<Ident>, selfTy: Type, items: seq<ImplItem>)

  datatype ItemMod = ItemMod(attrs: seq<Attribute>, vis: Visibility, ident: Ident, content: Option<seq<Item>>)

  datatype Item =
    | ForeignMod(fm: ItemForeignMod)
    | Struct(st: ItemStruct)
    | Enum(en: ItemEnum)
    | Impl(im: ItemImpl)
    | Mod(md: ItemMod)
    | OtherItem(tokens: string)   // uses, consts, type aliases, functions, ...

  /** A plain path type `a::b::...` with no generic arguments. */
  function SimplePath(idents: seq<Ident>): Type {
    PathType(TypePath(None, false, seq(|idents|, i requires 0 <= i < |idents| => PathSegment(idents[i], NoArguments))))
  }
}
