# autocxx bridge converter, modelled in Dafny

autocxx turns the Rust bindings that bindgen generates for a C++ header
into the input of the `cxx` crate. The step at its centre is the bridge
converter, `BridgeConverter::convert` in `engine/src/bridge_converter.rs`.
It takes the `mod` that bindgen produced and emits four things:

- the items to splice back in;
- a `bindgen` module, holding the kept structs and enums and the rewritten
  `new` methods;
- a `#[cxx::bridge] pub mod cxxbridge` module, holding one `UniquePtr` stub
  per type and exactly one `extern "C"` block;
- plus the list of "additional C++ needs" that the C++ side must generate:
  `MakeUnique` factories and `ByValueWrapper` shims.

The converter runs in two passes.

1. **POD check.** Every struct is fed to the by-value checker, and every
   enum is fed to it as a POD type. If any requested POD type cannot be
   satisfied, the conversion fails with `UnsafePODType`.
2. **Single pass.** One pass goes over the items in input order. For each
   struct or enum it emits a type alias, a `UniquePtr` stub and an
   `ExternType` impl. The impl's kind is `Trivial` iff the type is POD;
   enums are always `Trivial`. A non-POD struct loses its fields. Each
   foreign fn is rewritten:
   - raw pointers become references, at every depth the rewrite visits
     (reference elements and angle-bracketed type arguments);
   - a `this` parameter becomes `self`;
   - a `{T}_{T}` constructor declaration is skipped;
   - a method loses its `{T}_` prefix;
   - `link_name` attributes are dropped, and a `rust_name` attribute is
     added for a renamed fn.

   Each `new` method with a return type becomes a `make_unique` factory.

The project has three layers.

- **Pure functions** are Dafny functions: the type rewrite, argument and
  return-slot analysis, attribute stripping and the include items. They
  live in `type_rewrite.dfy`, with the first pieces of `conversion_spec.dfy`.
- **A functional reference of the pass** lives in `conversion_spec.dfy`. A
  `ConvState` value holds the converter's accumulators, and one function
  per operation maps the old state to the new one.
- **The converter as the source has it** lives in `bridge_converter.dfy`. A
  class `BridgeConversion` has the same mutable fields. Its methods loop
  over items and append to the fields. Each method is proved to leave
  exactly the state the reference function computes:
  `ensures State() == ConversionSpec.X(old(State()), …)`.
  `BridgeConverter.Convert` creates a fresh conversion and is proved equal
  to `ConversionSpec.Convert`.

The properties of the pass are proved in `conversion_properties.dfy`, as
lemmas about the reference functions:

- the per-type bookkeeping;
- the rewrite of `new` methods;
- the order in which types become visible to foreign fns;
- the three error cases;
- which fns and which needs the pass emits, in input order;
- the exact shape of the generated modules.

Several collaborators are parameters of the model rather than code in it.
They are the by-value checker, the `TypeName` conversions and the
`work_needed` test of a conversion, whose code lives in files this model
does not include. They appear as function-valued fields of the datatype
`Collaborators.Env`, and every property holds for any choice of them.

## Model

| member | source | states |
|---|---|---|
| TypeRewrite.ConvertType | engine/src/bridge_converter.rs:502-512 | The result contains no raw pointer anywhere the rewrite reaches. A path becomes the rewritten path. A pointer or a reference becomes a reference of the same mutability, over the rewritten element. A pointer's reference has no lifetime; a reference keeps its lifetime. Any other type kind is unchanged. |
| TypeRewrite.ConvertPtrToReference | engine/src/bridge_converter.rs:514-520 | `*const T` / `*mut T` becomes a lifetime-free `&T` / `&mut T` with the same mutability, and the result is pointer-free. |
| TypeRewrite.ConvertTypePath | engine/src/bridge_converter.rs:522-549 | `qself`, the leading colon and the segment count are kept. Each segment is the rewrite of the segment at the same position: its identifier is canonicalised through `TypeName::from_ident(..).to_ident()`, and its arguments are pointer-free. |
| TypeRewrite.ConvertSegment | engine/src/bridge_converter.rs:528-543 | The identifier is canonicalised. Angle-bracketed arguments are replaced by their rewrite, argument by argument. Absent arguments stay absent. Parenthesised arguments are passed through unchanged, where the source panics (see "## Left out"). |
| TypeRewrite.ConvertPunctuated | engine/src/bridge_converter.rs:551-566 | Same length and order: each argument is the rewrite of the argument at the same position. Type arguments are rewritten, every other generic argument is unchanged, and each result is pointer-free. |
| TypeRewrite.ConvertGenericArgument | engine/src/bridge_converter.rs:560-563 | A type argument becomes the rewrite of its type, which is pointer-free; a lifetime or other argument is unchanged. |
| TypeRewrite.ConvertReturnType | engine/src/bridge_converter.rs:489-496 | The default return stays default. A declared return type becomes its rewrite, which is pointer-free, keeps the outer sequence of indirections, and keeps the mutability of every pointer and reference at every depth. |
| TypeRewrite.TypeToTypeName | engine/src/bridge_converter.rs:323-328 | Yields a type name iff the type is a path, and then it is `TypeName::from_type_path` of it. |
| TypeRewrite.ConversionRequired | engine/src/bridge_converter.rs:476-487 | The conversion carries the type unchanged and is never `to_unique_ptr`. It is `from_unique_ptr` iff the type is a path naming a non-POD type; a POD path or a non-path type is `unconverted`. |
| TypeRewrite.UnwrapReturnType | engine/src/bridge_converter.rs:418-432 | `None` iff the return is the default. Otherwise the conversion carries the return type, is never `from_unique_ptr`, and is `to_unique_ptr` iff the type is not POD. |
| TypeRewrite.StripAttr | engine/src/bridge_converter.rs:434-442 | An attribute survives iff it was there and its path is not the single identifier being stripped. The result is no longer than the input, and the input is unchanged when nothing matches. |
| TypeRewrite.ConvertFnArg | engine/src/bridge_converter.rs:447-474 | The type is rewritten. `was_self` holds iff the pattern is the identifier `this`, which is then renamed to `self`; any other pattern is unchanged. The conversion is computed from the rewritten type. |
| TypeRewrite.MutabilitiesPreserved | engine/src/bridge_converter.rs:502-566 | Every pointer and reference the rewrite visits keeps its mutability, at every nesting depth, including inside generic type arguments. None appears or disappears, and the visiting order is kept. |
| TypeRewrite.SegmentsMutabilitiesPreserved | engine/src/bridge_converter.rs:522-549 | The same for the segments of a path, from a given segment on. |
| TypeRewrite.SegmentMutabilitiesPreserved | engine/src/bridge_converter.rs:528-543 | The same for one path segment. |
| TypeRewrite.ArgsMutabilitiesPreserved | engine/src/bridge_converter.rs:551-566 | The same for a segment's angle-bracketed arguments, from a given argument on. |
| TypeRewrite.IndirectionsPreserved | engine/src/bridge_converter.rs:502-520 | The rewrite keeps the sequence of indirections (pointer or reference, and their mutability) of a type. |
| TypeRewrite.ConvertTypeFixpoint | engine/src/bridge_converter.rs:502-566 | A pointer-free type whose identifiers are already canonical is left unchanged by the rewrite. |
| TypeRewrite.SegmentFixpoint | engine/src/bridge_converter.rs:528-543 | The same for one path segment. |
| TypeRewrite.ConvertedIsCanonical | engine/src/bridge_converter.rs:502-549 | When canonicalisation is idempotent, every identifier in a rewritten type is canonical. |
| TypeRewrite.ConvertedSegmentIsCanonical | engine/src/bridge_converter.rs:528-543 | The same for one path segment. |
| TypeRewrite.ConvertTypeIdempotent | engine/src/bridge_converter.rs:502-566 | When canonicalisation is idempotent, rewriting twice is rewriting once. |
| TypeRewrite.StripAttrConcat | engine/src/bridge_converter.rs:434-442 | Stripping distributes over concatenation, so the kept attributes keep their order. |
| ConversionSpec.PodDecls | engine/src/bridge_converter.rs:121-130 | A declaration is fed to the checker iff some item yields it: a struct as itself, an enum as a POD type name. Other items yield nothing, and no item yields more than one. With `PodDeclsOne` and `PodDeclsConcat`, the feed is exactly each item's yield, in input order. |
| ConversionSpec.PodDeclsOne | engine/src/bridge_converter.rs:121-130 | A single item feeds exactly what it yields: a struct itself, an enum its POD type name, anything else nothing. |
| ConversionSpec.PodDeclsConcat | engine/src/bridge_converter.rs:121-130 | The feed of `a + b` is the feed of `a` followed by that of `b`, so input order and multiplicity reach the checker unchanged. |
| ConversionSpec.BuildIncludeForeignItems | engine/src/bridge_converter.rs:176-186 | One `include!` per entry of the include list, in order, then one for the extra inclusion when there is one. |
| ConversionSpec.IsConstructorName | engine/src/bridge_converter.rs:350-355 | Definition: the name is `{T}_{T}` for some type `T` found so far. `BridgeConverter.FindConstructor` is proved to compute it. |
| ConversionSpec.Demangle | engine/src/bridge_converter.rs:366-380 | Definition of the demangling search. `DemangleIsFirstMatch` proves it yields the suffix after the first found type whose prefix the name carries, and nothing iff none does. |
| ConversionSpec.BridgeIdent | engine/src/bridge_converter.rs:364-380 | Definition: the demangled name for a method when there is one, otherwise the declared name. `BridgeConverter.DemangledIdent` is proved to compute it. |
| ConversionSpec.DemangleSkipsMisses | engine/src/bridge_converter.rs:374-380 | Found types whose prefix does not match the name can be skipped without changing the demangled name. |
| ConversionSpec.DemangleIsFirstMatch | engine/src/bridge_converter.rs:364-380 | The demangled name is a suffix iff it is the suffix from the first found type whose `prefixes` matches. There is none iff no found type matches. |
| ConversionSpec.ConvertFnArgs | engine/src/bridge_converter.rs:356-363 | Reference definition: `convert_fn_arg` is applied to every parameter, in order. |
| ConversionSpec.ParamConversions | engine/src/bridge_converter.rs:382-391 | One conversion per parameter. |
| ConversionSpec.Conversions | engine/src/bridge_converter.rs:391 | Reference definition: the conversions recorded per parameter, in parameter order. |
| ConversionSpec.RewriteSignature | engine/src/bridge_converter.rs:346-377 | The emitted signature keeps unsafety and takes the bridge name. Its return type is rewritten, and each parameter is the rewritten original; all are pointer-free. |
| ConversionSpec.FnAttrs | engine/src/bridge_converter.rs:396-402 | The `link_name` attributes are stripped and the rest kept in order. A `rust_name` attribute with the new name is appended iff the name as declared is a key of `renames`. |
| ConversionSpec.WrapperNeed | engine/src/bridge_converter.rs:382-394 | A `ByValueWrapper` need is raised iff some parameter conversion or the return conversion needs work. It then carries the final name, the return conversion and every parameter's conversion. |
| ConversionSpec.TranslateForeignFn | engine/src/bridge_converter.rs:356-410 | The emitted fn is bridge-safe: no `link_name` attribute and no raw pointer in any position the rewrite visits. Its name is the demangled name when a parameter was `this`, and the declared name otherwise. Any need it raises is a `ByValueWrapper` under that name. |
| ConversionSpec.ConvertForeignFn | engine/src/bridge_converter.rs:345-416 | A fn named `{T}_{T}` for some type `T` found so far is skipped, and the state is unchanged. Any other fn appends its translation to the one foreign mod and its need, if any, to the needs. Nothing else changes. |
| ConversionSpec.ConvertForeignModItems | engine/src/bridge_converter.rs:330-343 | Fails iff some foreign item is not a fn, and then with `UnknownForeignItem`. On success there is still a foreign mod. |
| ConversionSpec.ConstructorArgs | engine/src/bridge_converter.rs:279-289 | Exactly the typed parameters with a path type and an identifier pattern, as (type name, name) pairs, and no more of them than there are parameters. |
| ConversionSpec.ConstructorArgsOne | engine/src/bridge_converter.rs:279-289 | A single parameter is forwarded, as its type name and its name, iff it is typed, path-typed and named. |
| ConversionSpec.ConstructorArgsConcat | engine/src/bridge_converter.rs:279-289 | Collecting distributes over concatenation. With `ConstructorArgsOne`, the forwarded parameters are exactly the qualifying ones, in parameter order. |
| ConversionSpec.RewriteNewMethod | engine/src/bridge_converter.rs:274-315 | `new` without a return type is left alone. Otherwise it becomes a safe `make_unique` that returns `cxx::UniquePtr<old return>` and calls `{T}_make_unique` with the forwarded argument names in order. It sits in an impl with no attributes, no unsafety, the same trait and self type, and exactly one item. The need is `MakeUnique(T, forwarded argument types)`. |
| ConversionSpec.ConvertNewMethod | engine/src/bridge_converter.rs:274-315 | Appends the rewritten impl and its `MakeUnique` need and changes nothing else; a `new` without a return type changes nothing. |
| ConversionSpec.ConvertImplItems | engine/src/bridge_converter.rs:223-233 | Only the needs and the bindgen items grow, by the same count, and the old ones stay prefixes. An impl with no `new` method changes nothing. |
| ConversionSpec.GenerateTypeAlias | engine/src/bridge_converter.rs:136-174 | Definition: one alias, one `UniquePtr` stub, one `ExternType` impl of the type's kind and one found type. `ConvertItemTypes` and `ConvertItemOutputs` state its effect per item. |
| ConversionSpec.ConvertItem | engine/src/bridge_converter.rs:196-238 | Definition of one arm of the item match. Its effects are stated by `ConvertItemTypes`, `ConvertItemOutputs`, `ConvertItemEmits`, `ConvertItemForeignModHeader` and `ConvertItemKeepsSafeFns`. |
| ConversionSpec.ConvertAll | engine/src/bridge_converter.rs:195-239 | Definition of the loop over the items, stopping at the first error. Its properties are `ConvertAllTypes`, `ConvertAllOutputs`, `ConvertAllEmits`, `ConvertAllForeignMod`, `ConvertAllKeepsSafeFns`, `ConvertAllSplit`, `TypesFoundBeforeItem` and `ConvertAllFailsIff`. |
| ConversionSpec.Assemble | engine/src/bridge_converter.rs:240-271 | Definition of the final assembly. `AssembleShape` states its shape. |
| ConversionSpec.ConvertItems | engine/src/bridge_converter.rs:188-272 | Definition: pass 1, then the loop from the include items, then assembly. `ConvertErrors` and `ConvertOutputShape` state its results. |
| ConversionSpec.Convert | engine/src/bridge_converter.rs:68-102 | Definition of `convert`. `ConvertErrors` states its error cases and `ConvertOutputShape` its successful output. |
| ConversionProperties.ArgumentAnalysisAgrees | engine/src/bridge_converter.rs:356-391 | `is_a_method` (some `was_self`) holds iff some parameter is the pattern `this`. The recorded conversions are those of the rewritten parameter types. |
| ConversionProperties.ForeignFnAttributes | engine/src/bridge_converter.rs:396-402 | The emitted attributes have no `link_name` and keep the others in order. They gain exactly one `rust_name` iff the original name is renamed, and that attribute is last. |
| ConversionProperties.ForeignFnWrapperNeed | engine/src/bridge_converter.rs:382-394 | Exactly one `ByValueWrapper` is raised iff some conversion needs work. It carries the final name and the return conversion, which is `None` iff the return is the default, plus one conversion per parameter. |
| ConversionProperties.ForeignModItemsFrame | engine/src/bridge_converter.rs:330-343 | On success the foreign mod keeps its attributes and ABI. The per-type accumulators, the output items and the bindgen items are untouched, and earlier needs stay a prefix. |
| ConversionProperties.ForeignFnEmitsSafeFn | engine/src/bridge_converter.rs:345-416 | One foreign fn keeps the foreign mod's items as a prefix and appends at most one fn, which is bridge-safe. |
| ConversionProperties.ForeignModItemsEmitSafeFns | engine/src/bridge_converter.rs:330-343 | Converted fns are appended after the foreign mod's earlier items, and every one of them is bridge-safe. |
| ConversionProperties.ForeignFnEmission | engine/src/bridge_converter.rs:345-416 | One foreign fn appends exactly its translation to the foreign mod and its wrapper need, if any, to the needs. A declared constructor appends nothing. |
| ConversionProperties.ForeignModItemsEmit | engine/src/bridge_converter.rs:330-343 | On success the foreign mod receives exactly the translations of its fns that are not declared constructors, in order. The needs receive exactly their wrapper needs, in order. |
| ConversionProperties.NewMethodImpls | engine/src/bridge_converter.rs:225-231 | Reference definition: at most one impl per impl item. The content is pinned by `ImplItemsRewriteNews`. |
| ConversionProperties.NewMethodNeeds | engine/src/bridge_converter.rs:225-231 | Reference definition: one `MakeUnique` need per rewritten impl. The content is pinned by `ImplItemsRewriteNews`. |
| ConversionProperties.ImplItemsRewriteNews | engine/src/bridge_converter.rs:223-233 | The loop over an impl's items appends one rewritten single-item impl and one `MakeUnique` need per `new` method with a return type, in order. Every other item is dropped. |
| ConversionProperties.DeclaredType | engine/src/bridge_converter.rs:209-222 | Only structs and enums declare a type. Enums get `Trivial`; a struct gets `Trivial` iff it is POD. |
| ConversionProperties.DeclaredTypes | engine/src/bridge_converter.rs:209-222 | Reference definition: at most one declared type per item. The content is pinned by `ConvertAllTypes`. |
| ConversionProperties.Aliases | engine/src/bridge_converter.rs:162-163 | Reference definition: one `extern "C"` type alias per type, in order. |
| ConversionProperties.UniquePtrImpls | engine/src/bridge_converter.rs:164-166 | Reference definition: one `UniquePtr` stub per type, in order. |
| ConversionProperties.AliasesConcat | engine/src/bridge_converter.rs:162-166 | Aliases and stubs of concatenated type lists concatenate. |
| ConversionProperties.ConvertItemTypes | engine/src/bridge_converter.rs:136-174 | One item adds its declared type (if any) to the found types, one alias and one `UniquePtr` stub. |
| ConversionProperties.ConvertItemOutputs | engine/src/bridge_converter.rs:196-237 | One item adds to the output items: its `ExternType` impl, or the item itself for a passed-through item. It adds to the bindgen items: the struct (without fields if not POD), the enum, or the rewritten `new` methods. It keeps earlier needs. |
| ConversionProperties.ConvertAllTypes | engine/src/bridge_converter.rs:195-239 | Over the whole pass, found types, aliases and stubs grow by exactly one per declared type, in declaration order. |
| ConversionProperties.ConvertAllOutputs | engine/src/bridge_converter.rs:195-239 | Over the whole pass, the output and bindgen items are the per-item contributions in input order, and earlier needs are kept. |
| ConversionProperties.ConvertAllSplit | engine/src/bridge_converter.rs:195-239 | The pass over `a + b` is the pass over `a` followed by the pass over `b`, and fails if the first part fails. |
| ConversionProperties.TypesFoundBeforeItem | engine/src/bridge_converter.rs:195-239 | Item `k` is converted in the state left by the items before it. The types visible to its foreign fns, for constructor skipping and demangling, are exactly those declared earlier in the input. |
| ConversionProperties.ConvertAllFailsIff | engine/src/bridge_converter.rs:330-343 | The pass fails iff some foreign mod holds a non-fn item, and then with `UnknownForeignItem`. |
| ConversionProperties.FirstForeignMod | engine/src/bridge_converter.rs:197-206 | There is no first foreign mod iff the input has none. |
| ConversionProperties.ConvertItemForeignModHeader | engine/src/bridge_converter.rs:197-207 | One item keeps an existing foreign mod's attributes and ABI. A foreign mod arriving when there is none supplies them. Any other item leaves the absence of a foreign mod unchanged. |
| ConversionProperties.ConvertAllForeignMod | engine/src/bridge_converter.rs:197-207 | Only one foreign mod is kept. It has the first input foreign mod's attributes and ABI, and there is none if the input has none. |
| ConversionProperties.ConvertItemKeepsSafeFns | engine/src/bridge_converter.rs:196-237 | If every fn in the foreign mod is bridge-safe before an item is converted, it still is afterwards. |
| ConversionProperties.ConvertAllKeepsSafeFns | engine/src/bridge_converter.rs:195-239 | Over the whole pass, every fn that ends up in the foreign mod is bridge-safe. |
| ConversionProperties.ConvertItemEmits | engine/src/bridge_converter.rs:196-237 | One item appends its emitted fns to the foreign mod. Its needs go to the needs: the wrapper needs of a foreign mod's fns, or the `MakeUnique` needs of an impl's `new` methods. |
| ConversionProperties.ConvertAllEmits | engine/src/bridge_converter.rs:195-239 | Over the whole pass, the foreign mod receives exactly the fns each item emits, given the types declared before it, in input order. The needs receive exactly the needs each item raises, in input order. |
| ConversionProperties.ConvertErrors | engine/src/bridge_converter.rs:68-102 | `NoContent` iff the module has no body. `UnsafePODType` with the checker's message when the POD requests fail, before any item is converted. Otherwise the conversion fails iff a foreign mod holds a non-fn, with `UnknownForeignItem`. |
| ConversionProperties.AssembleShape | engine/src/bridge_converter.rs:240-271 | Assembly yields the passed-through items, then the bindgen module holding the kept items, then `#[cxx::bridge] pub mod cxxbridge`. That module holds the bridge items and, last, the one foreign mod: its converted fns, which are bridge-safe, then the include and alias items. The needs are handed over unchanged. |
| ConversionProperties.ConvertOutputShape | engine/src/bridge_converter.rs:240-271 | On success the output is the passed-through items, then the bindgen module (the input module holding the kept items), then `#[cxx::bridge] pub mod cxxbridge`. That module holds one `UniquePtr` stub per declared type and, last and only, the foreign mod. The foreign mod's items are exactly the translated fns of every foreign mod in input order, skipping declared constructors (all bridge-safe), then the includes, then one alias per declared type. It takes the first input foreign mod's attributes and ABI, or a blank `extern "C"` block. The needs are exactly each item's wrapper needs and `MakeUnique` needs, in input order. |
| BridgeConverter.BridgeConversion.constructor | engine/src/bridge_converter.rs:84-97 | A conversion starts with every accumulator empty and no foreign mod. |
| BridgeConverter.BridgeConversion.FindNestedPodTypes | engine/src/bridge_converter.rs:121-134 | The loop ingests exactly `PodDecls` of the items and maps the checker's verdict to `UnsafePODType`. The accumulators are untouched. |
| BridgeConverter.BridgeConversion.GenerateTypeAlias | engine/src/bridge_converter.rs:136-174 | Leaves the state `ConversionSpec.GenerateTypeAlias` computes: one alias, one stub, one `ExternType` impl of the right kind and one found type. |
| BridgeConverter.FindConstructor | engine/src/bridge_converter.rs:350-355 | The loop finds a match iff the name is `{T}_{T}` for some type `T` found so far. |
| BridgeConverter.DemangledIdent | engine/src/bridge_converter.rs:366-380 | For a method, the loop yields the suffix after the first found type whose prefix the name carries, or the name itself when there is none. For a non-method it yields the name. |
| BridgeConverter.BridgeConversion.ConvertForeignFn | engine/src/bridge_converter.rs:345-416 | Leaves exactly the state `ConversionSpec.ConvertForeignFn` computes. |
| BridgeConverter.BridgeConversion.ConvertForeignModItems | engine/src/bridge_converter.rs:330-343 | The loop returns the reference's error on the first non-fn item. Otherwise it returns `Ok` in the reference's state. |
| BridgeConverter.BridgeConversion.ConvertNewMethod | engine/src/bridge_converter.rs:274-315 | Leaves the state `ConversionSpec.ConvertNewMethod` computes. |
| BridgeConverter.BridgeConversion.ConvertImplItems | engine/src/bridge_converter.rs:224-233 | The loop over an impl's items leaves the state `ConversionSpec.ConvertImplItems` computes. |
| BridgeConverter.BridgeConversion.ConvertItem | engine/src/bridge_converter.rs:196-237 | One arm of the item match agrees with `ConversionSpec.ConvertItem`, its error included. |
| BridgeConverter.BridgeConversion.Assemble | engine/src/bridge_converter.rs:240-271 | Builds exactly the results `ConversionSpec.Assemble` computes from the state before assembly. |
| BridgeConverter.BridgeConversion.ConvertItems | engine/src/bridge_converter.rs:188-272 | From a fresh conversion, returns exactly `ConversionSpec.ConvertItems`. |
| BridgeConverter.BridgeConverter.constructor | engine/src/bridge_converter.rs:59-64 | Keeps the include list and the POD requests. |
| BridgeConverter.BridgeConverter.Convert | engine/src/bridge_converter.rs:68-102 | Returns exactly `ConversionSpec.Convert`: `NoContent` for a module without a body, otherwise a fresh conversion over its items. |

## Left out

- The by-value checker is not modelled: `ingest_struct`, `ingest_pod_type`, `is_pod` and `satisfy_requests` live in a file that is not part of this model. The checker's state is the sequence of ingested declarations, and `is_pod` and `satisfy_requests` are arbitrary functions of it (`Env.isPod`, `Env.satisfyRequests`).
- `TypeName` is not modelled: its module is not part of this model. `from_ident`, `from_type_path`, `to_ident`, `to_cpp_name`, `Display` and `prefixes` are arbitrary functions in `Env`. `from_type_path` and `from_type` are one function, `Env.fromType`. `unwrap_return_type` (engine/src/bridge_converter.rs:418-432) passes `from_type` the rewritten return type, which is a reference whenever the fn returns a pointer. On such non-path types `Env.fromType` stands for whatever `from_type` yields there, and a panic inside `from_type` is not modelled.
- `ArgumentConversion::work_needed` is an arbitrary predicate (`Env.workNeeded`). Its definition is not part of this model.
- Tokens, spans and punctuation are left out. Generated items (`include!`, the type alias, the `UniquePtr` and `ExternType` impls, `#[rust_name]`, the `make_unique` body) are datatype values rather than token streams. Types and attributes not touched by the converter are opaque strings.
- The `panic!` on a `self` receiver in a foreign fn (engine/src/bridge_converter.rs:472) is a precondition: every foreign-fn parameter is typed.
- `Ident::new` panics on a string that is not a Rust identifier. This can happen to the demangled suffix (engine/src/bridge_converter.rs:376) and to `{T}_make_unique` (engine/src/bridge_converter.rs:294-297), for instance when `Display` of a type name is namespaced. Identifiers are plain strings in the model, so that panic is not modelled and any string is accepted.
- ConvertSegment: the source rebuilds each path segment with `parse_quote!` (engine/src/bridge_converter.rs:541), which parses only angle-bracketed arguments. It therefore panics on a segment with parenthesised arguments, such as the `Fn(i32)` in `Box<Fn(i32)>`. The model passes such arguments through unchanged; bindgen does not emit such paths.
- ConvertForeignModItems: its own contract states only the error cases and that the foreign mod stays present. What it appends (exactly the translated fns, in order, and their wrapper needs) is proved by `ConversionProperties.ForeignModItemsEmit`, and what it leaves unchanged by `ConversionProperties.ForeignModItemsFrame`.
- ConversionSpec.TranslateForeignFn does not model the `Result` of `convert_foreign_fn`, because it only ever returns `Ok`. The method form returns nothing.
- BridgeConverter.BridgeConversion.Assemble: the draining `append`/`take` calls are modelled by clearing the drained fields. The results are built from values, with no sharing between them.
- The end-to-end test harness in `integration-tests/tests/cpprefs_test.rs` is not modelled; it compiles and runs C++ code.
- The ordering dependence of constructor skipping and demangling is proved as a state property (`ConversionProperties.TypesFoundBeforeItem`). There is no concrete counterexample input, because the type-name functions are arbitrary.
