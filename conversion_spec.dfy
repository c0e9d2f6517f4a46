/**
  A functional reference for `BridgeConversion`: the pass-2 state as a
  value, one function per step of the pass, the fold over the items, and
  the final assembly of the two modules. The imperative class in
  BridgeConverter is proved to compute exactly these functions.
*/
module ConversionSpec {
  import opened Wrappers
  import opened Syntax
  import opened Collaborators
  import opened TypeRewrite

  /** The accumulators `BridgeConversion` threads through pass 2. */
  datatype ConvState = ConvState(
    allItems: seq<Item>,
    bridgeItems: seq<Item>,
    externCMod: Option<ItemForeignMod>,
    externCModItems: seq<ForeignItem>,
    needs: seq<AdditionalNeed>,
    typesFound: seq<TypeName>,
    bindgenItems: seq<Item>)

  /** `BridgeConversionResults`. */
  datatype ConversionResults = ConversionResults(items: seq<Item>, additionalCppNeeds: seq<AdditionalNeed>)

  // ---------------------------------------------------------------------
  // Generated syntax.
  // ---------------------------------------------------------------------

  /** `impl UniquePtr<id> {}` */
  function UniquePtrImpl(id: Ident): ItemImpl {
    var arg := TypeArg(SimplePath([id]));
    ItemImpl([], false, [], PathType(TypePath(None, false, [PathSegment("UniquePtr", AngleBracketed([arg]))])), [])
  }

  /** `unsafe impl cxx::ExternType for bindgen::id { type Id = type_id!(cpp); type Kind = kind; }` */
  function ExternTypeImpl(id: Ident, cpp: string, kind: TypeKind): ItemImpl {
    ItemImpl([], true, ["cxx", "ExternType"], SimplePath(["bindgen", id]), [ExternTypeId(cpp), ExternTypeKind(kind)])
  }

  /** `cxx::UniquePtr<t>` */
  function CxxUniquePtr(t: Type): Type {
    PathType(TypePath(None, false, [PathSegment("cxx", NoArguments), PathSegment("UniquePtr", AngleBracketed([TypeArg(t)]))]))
  }

  /** `#[rust_name = "name"]` */
  function RustNameAttr(name: string): Attribute {
    Attribute(false, ["rust_name"], name)
  }

  /** `extern "C" {}` */
  function BlankExternCMod(): ItemForeignMod {
    ItemForeignMod([], "C", [])
  }

  /** `#[cxx::bridge]` */
  function CxxBridgeAttr(): Attribute {
    Attribute(false, ["cxx", "bridge"], "")
  }

  // ---------------------------------------------------------------------
  // Input conditions.
  // ---------------------------------------------------------------------

  /** Foreign fns never take `self` receivers (the converter panics on one). */
  predicate ArgsTyped(inputs: seq<FnArg>) {
    forall a :: a in inputs ==> a.Typed?
  }

  predicate ForeignItemsTyped(fitems: seq<ForeignItem>) {
    forall f :: f in fitems ==> f.ForeignFn? ==> ArgsTyped(f.sig.inputs)
  }

  predicate ForeignArgsTyped(items: seq<Item>) {
    forall it :: it in items ==> it.ForeignMod? ==> ForeignItemsTyped(it.fm.items)
  }

  // ---------------------------------------------------------------------
  // Pass 1: what the by-value checker is fed.
  // ---------------------------------------------------------------------

  /** What `find_nested_pod_types` feeds the checker for one item. */
  function PodDeclOf(env: Env, item: Item): seq<PodDecl> {
    match item
    case Struct(st) => [IngestStruct(st)]
    case Enum(en) => [IngestPodType(env.fromIdent(en.ident))]
    case _ => []
  }

  /** `find_nested_pod_types`' feed: every struct whole, every enum as a POD type name, in order. */
  function PodDecls(env: Env, items: seq<Item>): (r: seq<PodDecl>)
    ensures |r| <= |items|
    ensures forall d :: d in r <==> exists i :: 0 <= i < |items| && PodDeclOf(env, items[i]) == [d]
  {
    if items == [] then []
    else
      var init := items[..|items| - 1];
      var r := PodDecls(env, init) + PodDeclOf(env, items[|items| - 1]);
      assert forall i :: 0 <= i < |init| ==> init[i] == items[i];
      r
  }

  /** A single item feeds exactly what it yields. */
  lemma PodDeclsOne(env: Env, item: Item)
    ensures PodDecls(env, [item]) == PodDeclOf(env, item)
  {
    assert [item][..0] == [];
  }

  /** The feed keeps input order and multiplicity: it distributes over concatenation. */
  lemma {:induction false} PodDeclsConcat(env: Env, a: seq<Item>, b: seq<Item>)
    ensures PodDecls(env, a + b) == PodDecls(env, a) + PodDecls(env, b)
    decreases |b|
  {
    if b == [] {
      assert a + b == a;
    } else {
      var init := b[..|b| - 1];
      assert (a + b)[..|a + b| - 1] == a + init;
      assert (a + b)[|a + b| - 1] == b[|b| - 1];
      PodDeclsConcat(env, a, init);
      var x, y, z := PodDecls(env, a), PodDecls(env, init), PodDeclOf(env, b[|b| - 1]);
      assert (x + y) + z == x + (y + z);
    }
  }

  /** `build_include_foreign_items`: the include list, then the extra inclusion. */
  function BuildIncludeForeignItems(includeList: seq<string>, extra: Option<string>): (r: seq<ForeignItem>)
    ensures |r| == |includeList| + (if extra.Some? then 1 else 0)
    ensures forall i :: 0 <= i < |includeList| ==> r[i] == ForeignInclude(includeList[i])
    ensures extra.Some? ==> r[|r| - 1] == ForeignInclude(extra.value)
  {
    seq(|includeList|, i requires 0 <= i < |includeList| => ForeignInclude(includeList[i]))
      + (match extra case Some(x) => [ForeignInclude(x)] case None => [])
  }

  function InitState(includes: seq<ForeignItem>): ConvState {
    ConvState([], [], None, includes, [], [], [])
  }

  // ---------------------------------------------------------------------
  // Pass 2, per type.
  // ---------------------------------------------------------------------

  function KindOf(pod: bool): TypeKind {
    if pod then Trivial else Opaque
  }

  /** `generate_type_alias`: one alias, one `UniquePtr` impl, one `ExternType` impl, one found type. */
  function GenerateTypeAlias(env: Env, s: ConvState, tyname: TypeName, pod: bool): ConvState {
    var id := env.toIdent(tyname);
    s.(externCModItems := s.externCModItems + [ForeignTypeAlias(id)],
       bridgeItems := s.bridgeItems + [Impl(UniquePtrImpl(id))],
       allItems := s.allItems + [Impl(ExternTypeImpl(id, env.cppName(tyname), KindOf(pod)))],
       typesFound := s.typesFound + [tyname])
  }

  // ---------------------------------------------------------------------
  // Pass 2, per foreign fn.
  // ---------------------------------------------------------------------

  /** The name bindgen gives a type's declared default constructor: `{T}_{T}`. */
  function ConstructorName(env: Env, t: TypeName): string {
    env.display(t) + "_" + env.display(t)
  }

  predicate IsConstructorName(env: Env, typesFound: seq<TypeName>, name: string) {
    exists i :: 0 <= i < |typesFound| && ConstructorName(env, typesFound[i]) == name
  }

  /** The suffix after the first found type whose prefix `name` carries. */
  function Demangle(env: Env, typesFound: seq<TypeName>, name: string): Option<string> {
    if typesFound == [] then None
    else if env.prefixes(typesFound[0], name).Some? then env.prefixes(typesFound[0], name)
    else Demangle(env, typesFound[1..], name)
  }

  /** Types whose prefix does not match can be skipped. */
  lemma {:induction false} DemangleSkipsMisses(env: Env, typesFound: seq<TypeName>, name: string, k: nat)
    requires k <= |typesFound|
    requires forall j :: 0 <= j < k ==> env.prefixes(typesFound[j], name).None?
    ensures Demangle(env, typesFound, name) == Demangle(env, typesFound[k..], name)
    decreases k
  {
    if k > 0 {
      assert typesFound[1..][k - 1..] == typesFound[k..];
      DemangleSkipsMisses(env, typesFound[1..], name, k - 1);
    }
  }

  /** `Demangle` finds exactly the first matching type's suffix, and nothing when none matches. */
  lemma {:induction false} DemangleIsFirstMatch(env: Env, typesFound: seq<TypeName>, name: string, suffix: string)
    ensures Demangle(env, typesFound, name) == Some(suffix) <==>
      exists i :: 0 <= i < |typesFound| && env.prefixes(typesFound[i], name) == Some(suffix) &&
        forall j :: 0 <= j < i ==> env.prefixes(typesFound[j], name).None?
    ensures Demangle(env, typesFound, name).None? <==>
      forall i :: 0 <= i < |typesFound| ==> env.prefixes(typesFound[i], name).None?
    decreases |typesFound|
  {
    if typesFound != [] {
      var rest := typesFound[1..];
      DemangleIsFirstMatch(env, rest, name, suffix);
      if env.prefixes(typesFound[0], name).None? {
        if Demangle(env, rest, name) == Some(suffix) {
          var i :| 0 <= i < |rest| && env.prefixes(rest[i], name) == Some(suffix) &&
            forall j :: 0 <= j < i ==> env.prefixes(rest[j], name).None?;
          assert env.prefixes(typesFound[i + 1], name) == Some(suffix);
          assert forall j :: 0 <= j < i + 1 ==> env.prefixes(typesFound[j], name).None? by {
            forall j | 0 <= j < i + 1 ensures env.prefixes(typesFound[j], name).None? {
              if j > 0 { assert typesFound[j] == rest[j - 1]; }
            }
          }
        }
        if exists i :: 0 <= i < |typesFound| && env.prefixes(typesFound[i], name) == Some(suffix) &&
             forall j :: 0 <= j < i ==> env.prefixes(typesFound[j], name).None? {
          var i :| 0 <= i < |typesFound| && env.prefixes(typesFound[i], name) == Some(suffix) &&
            forall j :: 0 <= j < i ==> env.prefixes(typesFound[j], name).None?;
          assert i > 0;
          assert env.prefixes(rest[i - 1], name) == Some(suffix);
          assert forall j :: 0 <= j < i - 1 ==> env.prefixes(rest[j], name).None? by {
            forall j | 0 <= j < i - 1 ensures env.prefixes(rest[j], name).None? {
              assert rest[j] == typesFound[j + 1];
            }
          }
        }
        if forall i :: 0 <= i < |rest| ==> env.prefixes(rest[i], name).None? {
          forall i | 0 <= i < |typesFound| ensures env.prefixes(typesFound[i], name).None? {
            if i > 0 { assert typesFound[i] == rest[i - 1]; }
          }
        }
      }
    }
  }

  /** `convert_fn_arg` over every parameter, in order. */
  function ConvertFnArgs(ctx: Ctx, inputs: seq<FnArg>): (r: seq<(FnArg, ArgumentAnalysis)>)
    requires ArgsTyped(inputs)
    ensures |r| == |inputs|
    ensures forall i :: 0 <= i < |inputs| ==> r[i] == ConvertFnArg(ctx, inputs[i])
  {
    seq(|inputs|, i requires 0 <= i < |inputs| => ConvertFnArg(ctx, inputs[i]))
  }

  /** The conversion of each (already rewritten) parameter. */
  function ParamConversions(ctx: Ctx, inputs: seq<FnArg>): (r: seq<ArgumentConversion>)
    requires ArgsTyped(inputs)
    ensures |r| == |inputs|
  {
    seq(|inputs|, i requires 0 <= i < |inputs| => ConversionRequired(ctx, inputs[i].ty))
  }

  /** The conversions recorded by `convert_fn_arg`, in parameter order. */
  function Conversions(details: seq<ArgumentAnalysis>): (r: seq<ArgumentConversion>)
    ensures |r| == |details| && forall i :: 0 <= i < |details| ==> r[i] == details[i].conversion
  {
    seq(|details|, i requires 0 <= i < |details| => details[i].conversion)
  }

  predicate AnyWasSelf(details: seq<ArgumentAnalysis>) {
    exists i :: 0 <= i < |details| && details[i].wasSelf
  }

  predicate HasThisParam(inputs: seq<FnArg>) {
    exists i :: 0 <= i < |inputs| && inputs[i].Typed? && IsThis(inputs[i].pat)
  }

  /** The bridge-facing name: demangled for methods, as declared otherwise. */
  function BridgeIdent(env: Env, typesFound: seq<TypeName>, name: Ident, isMethod: bool): Ident {
    if isMethod then
      match Demangle(env, typesFound, name)
      case Some(suffix) => suffix
      case None => name
    else name
  }

  /** Whether a wrapper is needed: some parameter or the return slot needs work. */
  predicate NeedsWrapper(env: Env, params: seq<ArgumentConversion>, ret: Option<ArgumentConversion>) {
    (exists i :: 0 <= i < |params| && env.workNeeded(params[i])) || (ret.Some? && env.workNeeded(ret.value))
  }

  /**
    A foreign fn the strict bridge accepts: no link hint, and no raw pointer
    in any position the type rewrite visits (pointers inside arrays, slices,
    tuples, fn pointers or a qualified self are outside those positions).
  */
  predicate BridgeSafeFn(f: ForeignItem) {
    && f.ForeignFn?
    && (forall a :: a in f.attrs ==> !Names(a, "link_name"))
    && (forall a :: a in f.sig.inputs ==> a.Typed? && RefsOnly(a.ty))
    && (f.sig.output.Returns? ==> RefsOnly(f.sig.output.ty))
  }

  /** The signature `convert_foreign_fn` emits: rewritten return type and parameters, bridge name `ident`. */
  function RewriteSignature(ctx: Ctx, sig: Signature, ident: Ident): (r: Signature)
    requires ArgsTyped(sig.inputs)
    ensures r.ident == ident && r.unsafety == sig.unsafety
    ensures r.output == ConvertReturnType(ctx.env, sig.output)
    ensures |r.inputs| == |sig.inputs|
    ensures forall i :: 0 <= i < |sig.inputs| ==> r.inputs[i] == ConvertFnArg(ctx, sig.inputs[i]).0
    ensures forall a :: a in r.inputs ==> a.Typed? && RefsOnly(a.ty)
    ensures r.output.Returns? ==> RefsOnly(r.output.ty)
  {
    sig.(output := ConvertReturnType(ctx.env, sig.output), inputs := Firsts(ConvertFnArgs(ctx, sig.inputs)), ident := ident)
  }

  /** Attribute hygiene: `link_name` hints go, a `rust_name` is added for a renamed fn. */
  function FnAttrs(renames: map<string, string>, attrs: seq<Attribute>, oldName: Ident): (r: seq<Attribute>)
    ensures |r| == |StripAttr(attrs, "link_name")| + if oldName in renames then 1 else 0
    ensures r[..|StripAttr(attrs, "link_name")|] == StripAttr(attrs, "link_name")
    ensures oldName in renames ==> r[|r| - 1] == RustNameAttr(renames[oldName])
    ensures forall a :: a in r ==> !Names(a, "link_name")
  {
    StripAttr(attrs, "link_name") + if oldName in renames then [RustNameAttr(renames[oldName])] else []
  }

  /**
    The `ByValueWrapper` need of an emitted signature: raised iff a parameter
    or the return slot needs work, carrying the final name and every conversion.
  */
  function WrapperNeed(ctx: Ctx, sig: Signature): (r: Option<AdditionalNeed>)
    requires ArgsTyped(sig.inputs)
    ensures r.Some? <==> NeedsWrapper(ctx.env, ParamConversions(ctx, sig.inputs), UnwrapReturnType(ctx, sig.output))
    ensures r.Some? ==> r.value == ByValueWrapper(sig.ident, UnwrapReturnType(ctx, sig.output), ParamConversions(ctx, sig.inputs))
  {
    var params := ParamConversions(ctx, sig.inputs);
    var ret := UnwrapReturnType(ctx, sig.output);
    if NeedsWrapper(ctx.env, params, ret) then Some(ByValueWrapper(sig.ident, ret, params)) else None
  }

  /**
    The body of `convert_foreign_fn` after the constructor check: the new
    declaration and the wrapper need it raises, if any.
  */
  function TranslateForeignFn(ctx: Ctx, typesFound: seq<TypeName>, f: ForeignItem): (r: (ForeignItem, Option<AdditionalNeed>))
    requires f.ForeignFn? && ArgsTyped(f.sig.inputs)
    ensures BridgeSafeFn(r.0)
    ensures r.0.sig.ident == BridgeIdent(ctx.env, typesFound, f.sig.ident, HasThisParam(f.sig.inputs))
    ensures r.1.Some? ==> r.1.value.ByValueWrapper? && r.1.value.ident == r.0.sig.ident
  {
    var sig := RewriteSignature(ctx, f.sig, BridgeIdent(ctx.env, typesFound, f.sig.ident, HasThisParam(f.sig.inputs)));
    (ForeignFn(FnAttrs(ctx.renames, f.attrs, f.sig.ident), f.vis, sig), WrapperNeed(ctx, sig))
  }

  /**
    `convert_foreign_fn`: a declared constructor `{T}_{T}` of a type found so
    far is skipped; any other fn is appended to the foreign mod.
  */
  function ConvertForeignFn(ctx: Ctx, s: ConvState, f: ForeignItem): (r: ConvState)
    requires f.ForeignFn? && ArgsTyped(f.sig.inputs) && s.externCMod.Some?
    ensures r.externCMod.Some?
    ensures r.externCMod.value.attrs == s.externCMod.value.attrs && r.externCMod.value.abi == s.externCMod.value.abi
    ensures r.allItems == s.allItems && r.bridgeItems == s.bridgeItems && r.externCModItems == s.externCModItems
    ensures r.typesFound == s.typesFound && r.bindgenItems == s.bindgenItems
    ensures IsConstructorName(ctx.env, s.typesFound, f.sig.ident) ==> r == s
    ensures !IsConstructorName(ctx.env, s.typesFound, f.sig.ident) ==>
      var (item, need) := TranslateForeignFn(ctx, s.typesFound, f);
      && r.externCMod.value.items == s.externCMod.value.items + [item]
      && r.needs == s.needs + (if need.Some? then [need.value] else [])
  {
    if IsConstructorName(ctx.env, s.typesFound, f.sig.ident) then s
    else
      var (item, need) := TranslateForeignFn(ctx, s.typesFound, f);
      var fm := s.externCMod.value;
      s.(externCMod := Some(fm.(items := fm.items + [item])),
         needs := s.needs + (if need.Some? then [need.value] else []))
  }

  /** `convert_foreign_mod_items`: every item must be a fn. */
  function ConvertForeignModItems(ctx: Ctx, s: ConvState, fitems: seq<ForeignItem>): (r: Result<ConvState, ConvertError>)
    requires s.externCMod.Some? && ForeignItemsTyped(fitems)
    ensures r.Err? <==> exists f :: f in fitems && !f.ForeignFn?
    ensures r.Err? ==> r.error == UnknownForeignItem
    ensures r.Ok? ==> r.value.externCMod.Some?
    decreases |fitems|
  {
    if fitems == [] then Ok(s)
    else if !fitems[0].ForeignFn? then Err(UnknownForeignItem)
    else
      var r := ConvertForeignModItems(ctx, ConvertForeignFn(ctx, s, fitems[0]), fitems[1..]);
      assert forall f :: f in fitems <==> f == fitems[0] || f in fitems[1..];
      r
  }

  // ---------------------------------------------------------------------
  // Pass 2, per `new` method.
  // ---------------------------------------------------------------------

  /** Whether a parameter is forwarded to the C++ factory: a typed, path-typed, named parameter. */
  predicate IsConstructorArg(a: FnArg) {
    a.Typed? && a.ty.PathType? && a.pat.IdentPat?
  }

  /** The constructor's forwarded parameters: their type names and their names, in order. */
  function ConstructorArgs(env: Env, inputs: seq<FnArg>): (r: seq<(TypeName, Ident)>)
    ensures |r| <= |inputs|
    ensures forall p :: p in r <==> exists a :: a in inputs && IsConstructorArg(a) && p == (env.fromType(a.ty), a.pat.ident)
  {
    if inputs == [] then []
    else
      var a := inputs[0];
      var here :=
        if a.Typed? then
          match TypeToTypeName(env, a.ty) {
            case Some(t) => if a.pat.IdentPat? then [(t, a.pat.ident)] else []
            case None => []
          }
        else [];
      var r := here + ConstructorArgs(env, inputs[1..]);
      assert forall x :: x in inputs <==> x == a || x in inputs[1..];
      r
  }

  /** A single parameter is forwarded iff it is typed, path-typed and named. */
  lemma ConstructorArgsOne(env: Env, a: FnArg)
    ensures ConstructorArgs(env, [a]) == if IsConstructorArg(a) then [(env.fromType(a.ty), a.pat.ident)] else []
  {
    assert [a][1..] == [];
  }

  /** Forwarded parameters keep their order: collecting distributes over concatenation. */
  lemma {:induction false} ConstructorArgsConcat(env: Env, a: seq<FnArg>, b: seq<FnArg>)
    ensures ConstructorArgs(env, a + b) == ConstructorArgs(env, a) + ConstructorArgs(env, b)
    decreases |a|
  {
    if a == [] {
      assert a + b == b;
    } else {
      assert (a + b)[0] == a[0];
      assert (a + b)[1..] == a[1..] + b;
      ConstructorArgsConcat(env, a[1..], b);
    }
  }

  function Firsts<A, B>(ps: seq<(A, B)>): (r: seq<A>)
    ensures |r| == |ps| && forall i :: 0 <= i < |ps| ==> r[i] == ps[i].0
  {
    seq(|ps|, i requires 0 <= i < |ps| => ps[i].0)
  }

  function Seconds<A, B>(ps: seq<(A, B)>): (r: seq<B>)
    ensures |r| == |ps| && forall i :: 0 <= i < |ps| ==> r[i] == ps[i].1
  {
    seq(|ps|, i requires 0 <= i < |ps| => ps[i].1)
  }

  /**
    `convert_new_method`: `new` becomes a safe `make_unique` returning
    `cxx::UniquePtr<old return>` that forwards to `{T}_make_unique`; its impl
    block keeps only it. A `new` without a return type is left alone.
  */
  function RewriteNewMethod(env: Env, ty: TypeName, impl: ItemImpl, m: ImplItem): (r: Option<(ItemImpl, AdditionalNeed)>)
    requires m.Method?
    ensures r.None? <==> m.sig.output.DefaultReturn?
    ensures r.Some? ==>
      var (ni, need) := r.value;
      var args := ConstructorArgs(env, m.sig.inputs);
      && ni.attrs == [] && !ni.unsafety && ni.traitPath == impl.traitPath && ni.selfTy == impl.selfTy
      && |ni.items| == 1 && ni.items[0].Method?
      && ni.items[0].attrs == m.attrs && ni.items[0].vis == m.vis
      && ni.items[0].sig == Signature(false, "make_unique", m.sig.inputs, Returns(CxxUniquePtr(m.sig.output.ty)))
      && ni.items[0].block == CallBridgeFn(env.display(ty) + "_make_unique", Seconds(args))
      && need == MakeUnique(ty, Firsts(args))
  {
    match m.sig.output
    case DefaultReturn => None
    case Returns(oldTy) =>
      var args := ConstructorArgs(env, m.sig.inputs);
      var callName := env.display(ty) + "_make_unique";
      var sig := m.sig.(ident := "make_unique", unsafety := false, output := Returns(CxxUniquePtr(oldTy)));
      var newMethod := m.(block := CallBridgeFn(callName, Seconds(args)), sig := sig);
      Some((impl.(attrs := [], unsafety := false, items := [newMethod]), MakeUnique(ty, Firsts(args))))
  }

  function ConvertNewMethod(env: Env, s: ConvState, m: ImplItem, ty: TypeName, impl: ItemImpl): (r: ConvState)
    requires m.Method?
    ensures r.allItems == s.allItems && r.bridgeItems == s.bridgeItems && r.externCMod == s.externCMod
    ensures r.externCModItems == s.externCModItems && r.typesFound == s.typesFound
    ensures m.sig.output.DefaultReturn? ==> r == s
    ensures m.sig.output.Returns? ==>
      var (ni, need) := RewriteNewMethod(env, ty, impl, m).value;
      r.needs == s.needs + [need] && r.bindgenItems == s.bindgenItems + [Impl(ni)]
  {
    match RewriteNewMethod(env, ty, impl, m)
    case None => s
    case Some((ni, need)) => s.(needs := s.needs + [need], bindgenItems := s.bindgenItems + [Impl(ni)])
  }

  predicate IsNewMethod(m: ImplItem) {
    m.Method? && m.sig.ident == "new"
  }

  /** The loop over an impl block's items: each `new` with a return type is rewritten. */
  function ConvertImplItems(env: Env, s: ConvState, ty: TypeName, impl: ItemImpl, items: seq<ImplItem>): (r: ConvState)
    ensures r.allItems == s.allItems && r.bridgeItems == s.bridgeItems && r.externCMod == s.externCMod
    ensures r.externCModItems == s.externCModItems && r.typesFound == s.typesFound
    ensures |s.needs| <= |r.needs| && |r.needs| - |s.needs| == |r.bindgenItems| - |s.bindgenItems| <= |items|
    ensures r.needs[..|s.needs|] == s.needs && r.bindgenItems[..|s.bindgenItems|] == s.bindgenItems
    ensures (forall m :: m in items ==> !IsNewMethod(m)) ==> r == s
    decreases |items|
  {
    if items == [] then s
    else
      var s1 := if IsNewMethod(items[0]) then ConvertNewMethod(env, s, items[0], ty, impl) else s;
      var r := ConvertImplItems(env, s1, ty, impl, items[1..]);
      assert forall x :: x in items[1..] ==> x in items;
      r
  }

  // ---------------------------------------------------------------------
  // Pass 2, the fold over the module's items.
  // ---------------------------------------------------------------------

  /** One arm of the match in `convert_items`. */
  function ConvertItem(ctx: Ctx, s: ConvState, item: Item): Result<ConvState, ConvertError>
    requires item.ForeignMod? ==> ForeignItemsTyped(item.fm.items)
  {
    match item
    case ForeignMod(fm) =>
      var s1 := if s.externCMod.None? then s.(externCMod := Some(fm.(items := []))) else s;
      ConvertForeignModItems(ctx, s1, fm.items)
    case Struct(st) =>
      var tyname := ctx.env.fromIdent(st.ident);
      var pod := IsPod(ctx, tyname);
      var s1 := GenerateTypeAlias(ctx.env, s, tyname, pod);
      var kept := if pod then st else st.(fields := Unit);
      Ok(s1.(bindgenItems := s1.bindgenItems + [Struct(kept)]))
    case Enum(en) =>
      var s1 := GenerateTypeAlias(ctx.env, s, ctx.env.fromIdent(en.ident), true);
      Ok(s1.(bindgenItems := s1.bindgenItems + [Enum(en)]))
    case Impl(impl) =>
      (match TypeToTypeName(ctx.env, impl.selfTy)
       case Some(ty) => Ok(ConvertImplItems(ctx.env, s, ty, impl, impl.items))
       case None => Ok(s))
    case _ => Ok(s.(allItems := s.allItems + [item]))
  }

  /** The `for item in items` loop of `convert_items`, stopping at the first error. */
  function ConvertAll(ctx: Ctx, s: ConvState, items: seq<Item>): Result<ConvState, ConvertError>
    requires ForeignArgsTyped(items)
    decreases |items|
  {
    if items == [] then Ok(s)
    else
      match ConvertItem(ctx, s, items[0])
      case Err(e) => Err(e)
      case Ok(s1) => ConvertAll(ctx, s1, items[1..])
  }

  /** The end of `convert_items`: the foreign mod, the bindgen module and the `cxxbridge` module. */
  function Assemble(bindings: ItemMod, s: ConvState): ConversionResults {
    var fm := match s.externCMod case Some(m) => m case None => BlankExternCMod();
    var foreignMod := fm.(items := fm.items + s.externCModItems);
    var bindgenMod := bindings.(content := Some(s.bindgenItems));
    var bridgeMod := ItemMod([CxxBridgeAttr()], Public, "cxxbridge", Some(s.bridgeItems + [ForeignMod(foreignMod)]));
    ConversionResults(s.allItems + [Mod(bindgenMod), Mod(bridgeMod)], s.needs)
  }

  /** `convert_items`: pass 1, then pass 2 from the include items, then assembly. */
  function ConvertItems(env: Env, includeList: seq<string>, podRequests: seq<TypeName>, renames: map<string, string>,
                        bindings: ItemMod, items: seq<Item>, extra: Option<string>): Result<ConversionResults, ConvertError>
    requires ForeignArgsTyped(items)
  {
    var ingested := PodDecls(env, items);
    match env.satisfyRequests(ingested, podRequests)
    case Some(msg) => Err(UnsafePODType(msg))
    case None =>
      var ctx := Ctx(env, ingested, podRequests, renames);
      match ConvertAll(ctx, InitState(BuildIncludeForeignItems(includeList, extra)), items)
      case Err(e) => Err(e)
      case Ok(s) => Ok(Assemble(bindings, s))
  }

  /** `BridgeConverter::convert`. */
  function Convert(env: Env, includeList: seq<string>, podRequests: seq<TypeName>, bindings: ItemMod,
                   extra: Option<string>, renames: map<string, string>): Result<ConversionResults, ConvertError>
    requires bindings.content.Some? ==> ForeignArgsTyped(bindings.content.value)
  {
    match bindings.content
    case None => Err(NoContent)
    case Some(items) => ConvertItems(env, includeList, podRequests, renames, bindings, items, extra)
  }
}
