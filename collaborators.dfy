/**
  The converter's collaborators that live outside the modelled file: the
  type-name helper (types.rs), the by-value checker (byvalue_checker.rs) and
  the descriptors handed to the secondary C++ generator
  (additional_cpp_generator.rs). Their internals are not part of this model;
  what the converter needs of them is an `Env` of functions, and every
  statement proved below holds for every choice of those functions.
*/
module Collaborators {
  import opened Wrappers
  import opened Syntax

  /** `TypeName`: an opaque, comparable name of a C++ type. */
  datatype TypeName = TypeName(name: string)

  /** What the by-value checker is fed: a whole struct, or a type known to be POD (an enum). */
  datatype PodDecl = IngestStruct(decl: ItemStruct) | IngestPodType(ty: TypeName)

  /** `ArgumentConversion`: how one parameter or return slot crosses the bridge. */
  datatype ArgumentConversion =
    | Unconverted(ty: Type)
    | FromUniquePtr(ty: Type)
    | ToUniquePtr(ty: Type)

  /** `AdditionalNeed`: work the secondary C++ generator must do. */
  datatype AdditionalNeed =
    | MakeUnique(ty: TypeName, argTypes: seq<TypeName>)
    | ByValueWrapper(ident: Ident, ret: Option<ArgumentConversion>, params: seq<ArgumentConversion>)

  datatype ConvertError = NoContent | UnsafePODType(name: string) | UnknownForeignItem

  /**
    The collaborators' behaviour, as functions.
    - fromIdent, fromType: `TypeName::from_ident`, `TypeName::from_type(_path)`
    - toIdent, cppName, display: `to_ident`, `to_cpp_name`, `Display`
    - prefixes: `TypeName::prefixes`, the method suffix if the name starts with the type's prefix
    - satisfyRequests: `ByValueChecker::satisfy_requests` after ingesting the declarations;
      `Some(msg)` is the error naming the offending type
    - isPod: `ByValueChecker::is_pod` in the checker state left by those two steps
    - workNeeded: `ArgumentConversion::work_needed`
  */
  datatype Env = Env(
    fromIdent: Ident -> TypeName,
    fromType: Type -> TypeName,
    toIdent: TypeName -> Ident,
    cppName: TypeName -> string,
    display: TypeName -> string,
    prefixes: (TypeName, string) -> Option<string>,
    satisfyRequests: (seq<PodDecl>, seq<TypeName>) -> Option<string>,
    isPod: (seq<PodDecl>, seq<TypeName>, TypeName) -> bool,
    workNeeded: ArgumentConversion -> bool)

  /**
    Everything pass 2 reads but never changes: the collaborators, the
    checker's ingested declarations and POD requests, and the rename table.
  */
  datatype Ctx = Ctx(env: Env, ingested: seq<PodDecl>, podRequests: seq<TypeName>, renames: map<string, string>)

  predicate IsPod(ctx: Ctx, t: TypeName) {
    ctx.env.isPod(ctx.ingested, ctx.podRequests, t)
  }
}
