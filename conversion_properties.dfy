/**
  What the bridge conversion promises, proved about the functional reference
  of ConversionSpec: the per-type bookkeeping, the rewrite of `new` methods,
  the order in which types become visible to foreign fns, the error cases
  and the shape of the two generated modules.
*/
module ConversionProperties {
  import opened Wrappers
  import opened Syntax
  import opened Collaborators
  import opened TypeRewrite
  import opened ConversionSpec

  // ---------------------------------------------------------------------
  // Foreign fns.
  // ---------------------------------------------------------------------

  /**
    What `convert_foreign_fn` records per parameter agrees with the emitted
    signature: a `this` parameter is what makes the fn a method, and the
    conversions are those of the rewritten parameter types.
  */
  lemma ArgumentAnalysisAgrees(ctx: Ctx, inputs: seq<FnArg>)
    requires ArgsTyped(inputs)
    ensures AnyWasSelf(Seconds(ConvertFnArgs(ctx, inputs))) <==> HasThisParam(inputs)
    ensures Conversions(Seconds(ConvertFnArgs(ctx, inputs))) == ParamConversions(ctx, Firsts(ConvertFnArgs(ctx, inputs)))
  {
    var analysed := ConvertFnArgs(ctx, inputs);
    var details := Seconds(analysed);
    if HasThisParam(inputs) {
      var i :| 0 <= i < |inputs| && inputs[i].Typed? && IsThis(inputs[i].pat);
      assert details[i].wasSelf;
    }
    if AnyWasSelf(details) {
      var i :| 0 <= i < |details| && details[i].wasSelf;
      assert inputs[i].Typed? && IsThis(inputs[i].pat);
    }
    var firsts := Firsts(analysed);
    assert forall a :: a in firsts ==> a.Typed? by {
      forall a | a in firsts ensures a.Typed? {
        var i :| 0 <= i < |firsts| && firsts[i] == a;
        assert a == ConvertFnArg(ctx, inputs[i]).0;
      }
    }
  }

  /**
    Attribute hygiene of a converted fn: its `link_name` hints are gone, every
    other attribute stays in order, and a `rust_name` is appended exactly when
    the name as declared (before demangling) is renamed.
  */
  lemma ForeignFnAttributes(ctx: Ctx, typesFound: seq<TypeName>, f: ForeignItem)
    requires f.ForeignFn? && ArgsTyped(f.sig.inputs)
    ensures var r := TranslateForeignFn(ctx, typesFound, f).0;
      && (forall a :: a in r.attrs ==> !Names(a, "link_name"))
      && r.attrs[..|StripAttr(f.attrs, "link_name")|] == StripAttr(f.attrs, "link_name")
      && (f.sig.ident in ctx.renames <==> |r.attrs| == |StripAttr(f.attrs, "link_name")| + 1)
      && (f.sig.ident in ctx.renames ==> r.attrs[|r.attrs| - 1] == RustNameAttr(ctx.renames[f.sig.ident]))
  {
  }

  /**
    The wrapper need of a converted fn: raised exactly when a parameter or the
    return slot needs work, and then carrying the bridge name, the return
    conversion (`None` iff no return type) and every parameter's conversion.
  */
  lemma ForeignFnWrapperNeed(ctx: Ctx, typesFound: seq<TypeName>, f: ForeignItem)
    requires f.ForeignFn? && ArgsTyped(f.sig.inputs)
    ensures var (r, need) := TranslateForeignFn(ctx, typesFound, f);
      var params := ParamConversions(ctx, r.sig.inputs);
      var ret := UnwrapReturnType(ctx, r.sig.output);
      && (need.Some? <==> NeedsWrapper(ctx.env, params, ret))
      && (need.Some? ==> need.value == ByValueWrapper(r.sig.ident, ret, params))
      && (ret.None? <==> f.sig.output.DefaultReturn?)
      && |params| == |f.sig.inputs|
  {
  }

  /**
    Converting a foreign mod's items touches only the one foreign mod (keeping
    its attributes and ABI) and appends to the needs.
  */
  lemma {:induction false} ForeignModItemsFrame(ctx: Ctx, s: ConvState, fitems: seq<ForeignItem>)
    requires s.externCMod.Some? && ForeignItemsTyped(fitems)
    ensures var p := ConvertForeignModItems(ctx, s, fitems);
      p.Ok? ==>
        && p.value.externCMod.value.attrs == s.externCMod.value.attrs
        && p.value.externCMod.value.abi == s.externCMod.value.abi
        && p.value.allItems == s.allItems && p.value.bridgeItems == s.bridgeItems
        && p.value.externCModItems == s.externCModItems && p.value.typesFound == s.typesFound
        && p.value.bindgenItems == s.bindgenItems
        && |s.needs| <= |p.value.needs| && p.value.needs[..|s.needs|] == s.needs
    decreases |fitems|
  {
    if fitems != [] && fitems[0].ForeignFn? {
      assert fitems[0] in fitems;
      var s1 := ConvertForeignFn(ctx, s, fitems[0]);
      assert forall f :: f in fitems[1..] ==> f in fitems;
      ForeignModItemsFrame(ctx, s1, fitems[1..]);
      var p := ConvertForeignModItems(ctx, s1, fitems[1..]);
      if p.Ok? {
        PrefixTrans(s.needs, s1.needs, p.value.needs);
      }
    }
  }

  /** `after` is `before` followed only by bridge-safe fns. */
  predicate SafeExtension(before: seq<ForeignItem>, after: seq<ForeignItem>) {
    && |before| <= |after| && after[..|before|] == before
    && (forall i :: |before| <= i < |after| ==> BridgeSafeFn(after[i]))
  }

  lemma SafeExtensionTrans(a: seq<ForeignItem>, b: seq<ForeignItem>, c: seq<ForeignItem>)
    requires SafeExtension(a, b) && SafeExtension(b, c)
    ensures SafeExtension(a, c)
  {
    PrefixTrans(a, b, c);
    forall i | |a| <= i < |c| ensures BridgeSafeFn(c[i]) {
      if i < |b| {
        assert c[i] == c[..|b|][i];
      }
    }
  }

  /** One foreign fn appends at most one fn to the foreign mod, and that fn is bridge-safe. */
  lemma ForeignFnEmitsSafeFn(ctx: Ctx, s: ConvState, f: ForeignItem)
    requires f.ForeignFn? && ArgsTyped(f.sig.inputs) && s.externCMod.Some?
    ensures SafeExtension(s.externCMod.value.items, ConvertForeignFn(ctx, s, f).externCMod.value.items)
  {
    var before := s.externCMod.value.items;
    if !IsConstructorName(ctx.env, s.typesFound, f.sig.ident) {
      var item := TranslateForeignFn(ctx, s.typesFound, f).0;
      assert (before + [item])[..|before|] == before;
    } else {
      assert before[..|before|] == before;
    }
  }

  /** Converted fns are appended after the ones already in the foreign mod, and each is bridge-safe. */
  lemma {:induction false} ForeignModItemsEmitSafeFns(ctx: Ctx, s: ConvState, fitems: seq<ForeignItem>)
    requires s.externCMod.Some? && ForeignItemsTyped(fitems)
    ensures var p := ConvertForeignModItems(ctx, s, fitems);
      p.Ok? ==> SafeExtension(s.externCMod.value.items, p.value.externCMod.value.items)
    decreases |fitems|
  {
    var before := s.externCMod.value.items;
    if fitems == [] {
      assert before[..|before|] == before;
    } else if fitems[0].ForeignFn? {
      assert fitems[0] in fitems;
      var s1 := ConvertForeignFn(ctx, s, fitems[0]);
      ForeignFnEmitsSafeFn(ctx, s, fitems[0]);
      assert forall f :: f in fitems[1..] ==> f in fitems;
      ForeignModItemsEmitSafeFns(ctx, s1, fitems[1..]);
      var p := ConvertForeignModItems(ctx, s1, fitems[1..]);
      if p.Ok? {
        SafeExtensionTrans(before, s1.externCMod.value.items, p.value.externCMod.value.items);
      }
    }
  }

  // ---------------------------------------------------------------------
  // `new` methods.
  // ---------------------------------------------------------------------

  /** The impl items `convert_items` rewrites: methods named `new` that declare a return type. */
  predicate IsRewrittenNew(m: ImplItem) {
    IsNewMethod(m) && m.sig.output.Returns?
  }

  /** The rewritten `new` methods of an impl block, in order, as the impls they become. */
  function NewMethodImpls(env: Env, ty: TypeName, impl: ItemImpl, ms: seq<ImplItem>): (r: seq<Item>)
    ensures |r| <= |ms|
    decreases |ms|
  {
    if ms == [] then []
    else if IsRewrittenNew(ms[0]) then [Impl(RewriteNewMethod(env, ty, impl, ms[0]).value.0)] + NewMethodImpls(env, ty, impl, ms[1..])
    else NewMethodImpls(env, ty, impl, ms[1..])
  }

  /** The `MakeUnique` needs of an impl block's rewritten `new` methods, in order. */
  function NewMethodNeeds(env: Env, ty: TypeName, impl: ItemImpl, ms: seq<ImplItem>): (r: seq<AdditionalNeed>)
    ensures |r| == |NewMethodImpls(env, ty, impl, ms)|
    decreases |ms|
  {
    if ms == [] then []
    else if IsRewrittenNew(ms[0]) then [RewriteNewMethod(env, ty, impl, ms[0]).value.1] + NewMethodNeeds(env, ty, impl, ms[1..])
    else NewMethodNeeds(env, ty, impl, ms[1..])
  }

  /**
    Only `new` methods with a return type are rewritten, each into one
    single-item impl and one `MakeUnique` need, in order; every other impl
    item is dropped and nothing else changes.
  */
  lemma {:induction false} ImplItemsRewriteNews(env: Env, s: ConvState, ty: TypeName, impl: ItemImpl, ms: seq<ImplItem>)
    ensures ConvertImplItems(env, s, ty, impl, ms).needs == s.needs + NewMethodNeeds(env, ty, impl, ms)
    ensures ConvertImplItems(env, s, ty, impl, ms).bindgenItems == s.bindgenItems + NewMethodImpls(env, ty, impl, ms)
    decreases |ms|
  {
    if ms == [] {
      assert s.needs + [] == s.needs && s.bindgenItems + [] == s.bindgenItems;
    } else {
      var s1 := if IsNewMethod(ms[0]) then ConvertNewMethod(env, s, ms[0], ty, impl) else s;
      assert ConvertImplItems(env, s, ty, impl, ms) == ConvertImplItems(env, s1, ty, impl, ms[1..]);
      ImplItemsRewriteNews(env, s1, ty, impl, ms[1..]);
      var r := ConvertImplItems(env, s1, ty, impl, ms[1..]);
      if IsRewrittenNew(ms[0]) {
        var p := RewriteNewMethod(env, ty, impl, ms[0]).value;
        assert s1.needs == s.needs + [p.1];
        AppendTwice(s.needs, [p.1], NewMethodNeeds(env, ty, impl, ms[1..]), s1.needs, r.needs);
        assert s1.bindgenItems == s.bindgenItems + [Impl(p.0)];
        AppendTwice(s.bindgenItems, [Impl(p.0)], NewMethodImpls(env, ty, impl, ms[1..]), s1.bindgenItems, r.bindgenItems);
      } else {
        assert s1 == s;
      }
    }
  }

  // ---------------------------------------------------------------------
  // Per-type bookkeeping over the whole pass.
  // ---------------------------------------------------------------------

  /** The type a struct or enum declares, with the kind its `ExternType` impl gets; enums are always trivial. */
  function DeclaredType(ctx: Ctx, item: Item): (r: Option<(TypeName, TypeKind)>)
    ensures r.Some? <==> item.Struct? || item.Enum?
    ensures item.Enum? ==> r.value.1 == Trivial
    ensures item.Struct? ==> (r.value.1 == Trivial <==> IsPod(ctx, r.value.0))
  {
    match item
    case Struct(st) => var t := ctx.env.fromIdent(st.ident); Some((t, KindOf(IsPod(ctx, t))))
    case Enum(en) => Some((ctx.env.fromIdent(en.ident), Trivial))
    case _ => None
  }

  /** The types the items declare, in order. */
  function DeclaredTypes(ctx: Ctx, items: seq<Item>): (r: seq<TypeName>)
    ensures |r| <= |items|
    decreases |items|
  {
    if items == [] then []
    else (match DeclaredType(ctx, items[0]) case Some(d) => [d.0] case None => []) + DeclaredTypes(ctx, items[1..])
  }

  /** One `extern "C"` type alias per type. */
  function Aliases(env: Env, ts: seq<TypeName>): (r: seq<ForeignItem>)
    ensures |r| == |ts| && forall i :: 0 <= i < |ts| ==> r[i] == ForeignTypeAlias(env.toIdent(ts[i]))
  {
    seq(|ts|, i requires 0 <= i < |ts| => ForeignTypeAlias(env.toIdent(ts[i])))
  }

  /** One `UniquePtr` impl stub per type. */
  function UniquePtrImpls(env: Env, ts: seq<TypeName>): (r: seq<Item>)
    ensures |r| == |ts| && forall i :: 0 <= i < |ts| ==> r[i] == Impl(UniquePtrImpl(env.toIdent(ts[i])))
  {
    seq(|ts|, i requires 0 <= i < |ts| => Impl(UniquePtrImpl(env.toIdent(ts[i]))))
  }

  lemma AliasesConcat(env: Env, a: seq<TypeName>, b: seq<TypeName>)
    ensures Aliases(env, a + b) == Aliases(env, a) + Aliases(env, b)
    ensures UniquePtrImpls(env, a + b) == UniquePtrImpls(env, a) + UniquePtrImpls(env, b)
  {
    assert forall i :: 0 <= i < |a + b| ==> Aliases(env, a + b)[i] == (Aliases(env, a) + Aliases(env, b))[i];
    assert forall i :: 0 <= i < |a + b| ==> UniquePtrImpls(env, a + b)[i] == (UniquePtrImpls(env, a) + UniquePtrImpls(env, b))[i];
  }

  /**
    What an item leaves in the output items: an `ExternType` impl for a
    declared type, nothing for a foreign mod or an impl, the item itself
    otherwise.
  */
  function PassedThrough(ctx: Ctx, item: Item): seq<Item> {
    if item.ForeignMod? || item.Impl? then []
    else match DeclaredType(ctx, item)
      case Some((t, kind)) => [Impl(ExternTypeImpl(ctx.env.toIdent(t), ctx.env.cppName(t), kind))]
      case None => [item]
  }

  function AllPassedThrough(ctx: Ctx, items: seq<Item>): seq<Item>
    decreases |items|
  {
    if items == [] then [] else PassedThrough(ctx, items[0]) + AllPassedThrough(ctx, items[1..])
  }

  /**
    What an item leaves in the bindgen module: a POD struct as is, a non-POD
    struct without its fields, an enum as is, and an impl's rewritten `new`
    methods.
  */
  function KeptForBindgen(ctx: Ctx, item: Item): seq<Item> {
    match item
    case Struct(st) => [Struct(if IsPod(ctx, ctx.env.fromIdent(st.ident)) then st else st.(fields := Unit))]
    case Enum(_) => [item]
    case Impl(impl) =>
      (match TypeToTypeName(ctx.env, impl.selfTy)
       case Some(ty) => NewMethodImpls(ctx.env, ty, impl, impl.items)
       case None => [])
    case _ => []
  }

  function AllKeptForBindgen(ctx: Ctx, items: seq<Item>): seq<Item>
    decreases |items|
  {
    if items == [] then [] else KeptForBindgen(ctx, items[0]) + AllKeptForBindgen(ctx, items[1..])
  }

  /** The typing condition on a module's items holds of its first item and of the rest. */
  lemma ForeignArgsTypedCons(items: seq<Item>)
    requires items != [] && ForeignArgsTyped(items)
    ensures items[0].ForeignMod? ==> ForeignItemsTyped(items[0].fm.items)
    ensures ForeignArgsTyped(items[1..])
  {
    assert items[0] in items;
    assert forall it :: it in items[1..] ==> it in items;
  }

  /** The types one item declares, as a sequence of at most one. */
  function TypesOf(ctx: Ctx, item: Item): seq<TypeName> {
    match DeclaredType(ctx, item)
    case Some(d) => [d.0]
    case None => []
  }

  /** One item's effect on the per-type accumulators. */
  lemma ConvertItemTypes(ctx: Ctx, s: ConvState, item: Item)
    requires item.ForeignMod? ==> ForeignItemsTyped(item.fm.items)
    ensures var p := ConvertItem(ctx, s, item);
      p.Ok? ==>
        && p.value.typesFound == s.typesFound + TypesOf(ctx, item)
        && p.value.externCModItems == s.externCModItems + Aliases(ctx.env, TypesOf(ctx, item))
        && p.value.bridgeItems == s.bridgeItems + UniquePtrImpls(ctx.env, TypesOf(ctx, item))
  {
    if item.ForeignMod? {
      var s0 := if s.externCMod.None? then s.(externCMod := Some(item.fm.(items := []))) else s;
      ForeignModItemsFrame(ctx, s0, item.fm.items);
    }
    if !(item.Struct? || item.Enum?) {
      assert TypesOf(ctx, item) == [];
      assert Aliases(ctx.env, []) == [] && UniquePtrImpls(ctx.env, []) == [];
      assert s.typesFound + [] == s.typesFound && s.externCModItems + [] == s.externCModItems && s.bridgeItems + [] == s.bridgeItems;
    }
  }

  /** One item's effect on the output items, the bindgen items and the needs. */
  lemma ConvertItemOutputs(ctx: Ctx, s: ConvState, item: Item)
    requires item.ForeignMod? ==> ForeignItemsTyped(item.fm.items)
    ensures var p := ConvertItem(ctx, s, item);
      p.Ok? ==>
        && p.value.allItems == s.allItems + PassedThrough(ctx, item)
        && p.value.bindgenItems == s.bindgenItems + KeptForBindgen(ctx, item)
        && |s.needs| <= |p.value.needs| && p.value.needs[..|s.needs|] == s.needs
  {
    match item {
      case Impl(impl) =>
        match TypeToTypeName(ctx.env, impl.selfTy) {
          case Some(ty) =>
            ImplItemsRewriteNews(ctx.env, s, ty, impl, impl.items);
            assert (s.needs + NewMethodNeeds(ctx.env, ty, impl, impl.items))[..|s.needs|] == s.needs;
          case None =>
            assert s.allItems + [] == s.allItems && s.bindgenItems + [] == s.bindgenItems;
        }
      case ForeignMod(fm) =>
        var s0 := if s.externCMod.None? then s.(externCMod := Some(fm.(items := []))) else s;
        ForeignModItemsFrame(ctx, s0, fm.items);
        assert s.allItems + [] == s.allItems && s.bindgenItems + [] == s.bindgenItems;
      case Struct(_) =>
      case Enum(_) =>
      case Mod(_) =>
      case OtherItem(_) =>
    }
  }

  /** Appending in two steps is appending the concatenation. */
  lemma AppendTwice<T>(a: seq<T>, b: seq<T>, c: seq<T>, mid: seq<T>, r: seq<T>)
    requires mid == a + b && r == mid + c
    ensures r == a + (b + c)
  {
  }

  /** Being a prefix is transitive. */
  lemma PrefixTrans<T>(a: seq<T>, b: seq<T>, c: seq<T>)
    requires |a| <= |b| && b[..|a|] == a
    requires |b| <= |c| && c[..|b|] == b
    ensures |a| <= |c| && c[..|a|] == a
  {
    assert c[..|a|] == c[..|b|][..|a|];
  }

  /** The per-type accumulators compose: one item's contribution, then the rest's. */
  lemma TypesCompose(ctx: Ctx, s: ConvState, s1: ConvState, r: ConvState, items: seq<Item>)
    requires items != []
    requires && s1.typesFound == s.typesFound + TypesOf(ctx, items[0])
             && s1.externCModItems == s.externCModItems + Aliases(ctx.env, TypesOf(ctx, items[0]))
             && s1.bridgeItems == s.bridgeItems + UniquePtrImpls(ctx.env, TypesOf(ctx, items[0]))
    requires && r.typesFound == s1.typesFound + DeclaredTypes(ctx, items[1..])
             && r.externCModItems == s1.externCModItems + Aliases(ctx.env, DeclaredTypes(ctx, items[1..]))
             && r.bridgeItems == s1.bridgeItems + UniquePtrImpls(ctx.env, DeclaredTypes(ctx, items[1..]))
    ensures && r.typesFound == s.typesFound + DeclaredTypes(ctx, items)
            && r.externCModItems == s.externCModItems + Aliases(ctx.env, DeclaredTypes(ctx, items))
            && r.bridgeItems == s.bridgeItems + UniquePtrImpls(ctx.env, DeclaredTypes(ctx, items))
  {
    var ts0 := TypesOf(ctx, items[0]);
    var rest := DeclaredTypes(ctx, items[1..]);
    assert DeclaredTypes(ctx, items) == ts0 + rest;
    AliasesConcat(ctx.env, ts0, rest);
    AppendTwice(s.typesFound, ts0, rest, s1.typesFound, r.typesFound);
    AppendTwice(s.externCModItems, Aliases(ctx.env, ts0), Aliases(ctx.env, rest), s1.externCModItems, r.externCModItems);
    AppendTwice(s.bridgeItems, UniquePtrImpls(ctx.env, ts0), UniquePtrImpls(ctx.env, rest), s1.bridgeItems, r.bridgeItems);
  }

  /** Over the whole pass: one found type, one alias and one `UniquePtr` stub per declared type, in order. */
  lemma {:induction false} ConvertAllTypes(ctx: Ctx, s: ConvState, items: seq<Item>)
    requires ForeignArgsTyped(items)
    ensures var p := ConvertAll(ctx, s, items);
      p.Ok? ==>
        && p.value.typesFound == s.typesFound + DeclaredTypes(ctx, items)
        && p.value.externCModItems == s.externCModItems + Aliases(ctx.env, DeclaredTypes(ctx, items))
        && p.value.bridgeItems == s.bridgeItems + UniquePtrImpls(ctx.env, DeclaredTypes(ctx, items))
    decreases |items|
  {
    if items == [] {
      assert Aliases(ctx.env, []) == [] && UniquePtrImpls(ctx.env, []) == [];
      assert s.typesFound + [] == s.typesFound && s.externCModItems + [] == s.externCModItems && s.bridgeItems + [] == s.bridgeItems;
    } else {
      ForeignArgsTypedCons(items);
      ConvertItemTypes(ctx, s, items[0]);
      var p1 := ConvertItem(ctx, s, items[0]);
      if p1.Ok? {
        ConvertAllTypes(ctx, p1.value, items[1..]);
        var p := ConvertAll(ctx, p1.value, items[1..]);
        if p.Ok? {
          TypesCompose(ctx, s, p1.value, p.value, items);
        }
      }
    }
  }

  /** The output accumulators compose: one item's contribution, then the rest's. */
  lemma OutputsCompose(ctx: Ctx, s: ConvState, s1: ConvState, r: ConvState, items: seq<Item>)
    requires items != []
    requires && s1.allItems == s.allItems + PassedThrough(ctx, items[0])
             && s1.bindgenItems == s.bindgenItems + KeptForBindgen(ctx, items[0])
             && |s.needs| <= |s1.needs| && s1.needs[..|s.needs|] == s.needs
    requires && r.allItems == s1.allItems + AllPassedThrough(ctx, items[1..])
             && r.bindgenItems == s1.bindgenItems + AllKeptForBindgen(ctx, items[1..])
             && |s1.needs| <= |r.needs| && r.needs[..|s1.needs|] == s1.needs
    ensures && r.allItems == s.allItems + AllPassedThrough(ctx, items)
            && r.bindgenItems == s.bindgenItems + AllKeptForBindgen(ctx, items)
            && |s.needs| <= |r.needs| && r.needs[..|s.needs|] == s.needs
  {
    var passed, passedRest := PassedThrough(ctx, items[0]), AllPassedThrough(ctx, items[1..]);
    assert AllPassedThrough(ctx, items) == passed + passedRest;
    AppendTwice(s.allItems, passed, passedRest, s1.allItems, r.allItems);
    var kept, keptRest := KeptForBindgen(ctx, items[0]), AllKeptForBindgen(ctx, items[1..]);
    assert AllKeptForBindgen(ctx, items) == kept + keptRest;
    AppendTwice(s.bindgenItems, kept, keptRest, s1.bindgenItems, r.bindgenItems);
    PrefixTrans(s.needs, s1.needs, r.needs);
  }

  /**
    Over the whole pass: the output and bindgen items are the per-item
    contributions in input order, and earlier needs are kept.
  */
  lemma {:induction false} ConvertAllOutputs(ctx: Ctx, s: ConvState, items: seq<Item>)
    requires ForeignArgsTyped(items)
    ensures var p := ConvertAll(ctx, s, items);
      p.Ok? ==>
        && p.value.allItems == s.allItems + AllPassedThrough(ctx, items)
        && p.value.bindgenItems == s.bindgenItems + AllKeptForBindgen(ctx, items)
        && |s.needs| <= |p.value.needs| && p.value.needs[..|s.needs|] == s.needs
    decreases |items|
  {
    if items == [] {
      assert s.allItems + [] == s.allItems && s.bindgenItems + [] == s.bindgenItems;
    } else {
      ForeignArgsTypedCons(items);
      ConvertItemOutputs(ctx, s, items[0]);
      var p1 := ConvertItem(ctx, s, items[0]);
      if p1.Ok? {
        ConvertAllOutputs(ctx, p1.value, items[1..]);
        var p := ConvertAll(ctx, p1.value, items[1..]);
        if p.Ok? {
          OutputsCompose(ctx, s, p1.value, p.value, items);
        }
      }
    }
  }

  // ---------------------------------------------------------------------
  // Item order.
  // ---------------------------------------------------------------------

  /** Running the pass over `a + b` is running it over `a`, then over `b` from where `a` stopped. */
  lemma {:induction false} ConvertAllSplit(ctx: Ctx, s: ConvState, a: seq<Item>, b: seq<Item>)
    requires ForeignArgsTyped(a + b)
    ensures ForeignArgsTyped(a) && ForeignArgsTyped(b)
    ensures ConvertAll(ctx, s, a + b) == match ConvertAll(ctx, s, a)
      case Ok(s1) => ConvertAll(ctx, s1, b)
      case Err(e) => Err(e)
    decreases |a|
  {
    assert forall it :: it in a || it in b ==> it in a + b;
    if a == [] {
      assert a + b == b;
    } else {
      assert (a + b)[0] == a[0] && (a + b)[1..] == a[1..] + b;
      assert forall it :: it in a[1..] ==> it in a;
      match ConvertItem(ctx, s, a[0]) {
        case Err(_) =>
        case Ok(s1) => ConvertAllSplit(ctx, s1, a[1..], b);
      }
    }
  }

  /**
    The ordering rule: item `k` is converted in the state the items before it
    left, so the types a foreign fn can be matched against (for constructor
    skipping and demangling) are exactly those declared earlier in the input.
  */
  lemma TypesFoundBeforeItem(ctx: Ctx, includes: seq<ForeignItem>, items: seq<Item>, k: nat)
    requires k <= |items| && ForeignArgsTyped(items)
    ensures ForeignArgsTyped(items[..k]) && ForeignArgsTyped(items[k..])
    ensures var prefix := ConvertAll(ctx, InitState(includes), items[..k]);
      && (prefix.Ok? ==> && prefix.value.typesFound == DeclaredTypes(ctx, items[..k])
                         && ConvertAll(ctx, InitState(includes), items) == ConvertAll(ctx, prefix.value, items[k..]))
      && (prefix.Err? ==> ConvertAll(ctx, InitState(includes), items) == prefix)
  {
    assert items == items[..k] + items[k..];
    ConvertAllSplit(ctx, InitState(includes), items[..k], items[k..]);
    ConvertAllTypes(ctx, InitState(includes), items[..k]);
  }

  // ---------------------------------------------------------------------
  // Errors.
  // ---------------------------------------------------------------------

  /** An item whose foreign mod holds something other than a fn. */
  predicate HasUnknownForeignItem(item: Item) {
    item.ForeignMod? && exists f :: f in item.fm.items && !f.ForeignFn?
  }

  /** The pass fails exactly when some foreign mod holds a non-fn, and then with `UnknownForeignItem`. */
  lemma {:induction false} ConvertAllFailsIff(ctx: Ctx, s: ConvState, items: seq<Item>)
    requires ForeignArgsTyped(items)
    ensures ConvertAll(ctx, s, items).Err? <==> exists it :: it in items && HasUnknownForeignItem(it)
    ensures ConvertAll(ctx, s, items).Err? ==> ConvertAll(ctx, s, items).error == UnknownForeignItem
    decreases |items|
  {
    if items != [] {
      assert items[0] in items;
      assert forall it :: it in items <==> it == items[0] || it in items[1..];
      match ConvertItem(ctx, s, items[0]) {
        case Err(_) =>
        case Ok(s1) => ConvertAllFailsIff(ctx, s1, items[1..]);
      }
    }
  }

  // ---------------------------------------------------------------------
  // The foreign mod.
  // ---------------------------------------------------------------------

  /** The first foreign mod of the input, if any: the one whose attributes and ABI are kept. */
  function FirstForeignMod(items: seq<Item>): (r: Option<ItemForeignMod>)
    ensures r.None? <==> forall it :: it in items ==> !it.ForeignMod?
    decreases |items|
  {
    if items == [] then None
    else if items[0].ForeignMod? then Some(items[0].fm)
    else
      var r := FirstForeignMod(items[1..]);
      assert forall it :: it in items <==> it == items[0] || it in items[1..];
      r
  }

  /** Every fn already in the foreign mod is bridge-safe. */
  predicate EmitsSafeFns(s: ConvState) {
    s.externCMod.Some? ==> forall f :: f in s.externCMod.value.items ==> BridgeSafeFn(f)
  }

  /** One item keeps every fn of the foreign mod bridge-safe. */
  lemma ConvertItemKeepsSafeFns(ctx: Ctx, s: ConvState, item: Item)
    requires item.ForeignMod? ==> ForeignItemsTyped(item.fm.items)
    requires EmitsSafeFns(s)
    ensures var p := ConvertItem(ctx, s, item);
      p.Ok? ==> EmitsSafeFns(p.value)
  {
    if item.ForeignMod? {
      var s0 := if s.externCMod.None? then s.(externCMod := Some(item.fm.(items := []))) else s;
      ForeignModItemsEmitSafeFns(ctx, s0, item.fm.items);
      var p := ConvertItem(ctx, s, item);
      if p.Ok? {
        var after := p.value.externCMod.value.items;
        var before := s0.externCMod.value.items;
        forall f | f in after ensures BridgeSafeFn(f) {
          var i :| 0 <= i < |after| && after[i] == f;
          if i < |before| {
            assert after[i] == before[i];
            assert before[i] in before;
          }
        }
      }
    }
  }

  /** Every fn the pass puts into the foreign mod is bridge-safe. */
  lemma {:induction false} ConvertAllKeepsSafeFns(ctx: Ctx, s: ConvState, items: seq<Item>)
    requires ForeignArgsTyped(items) && EmitsSafeFns(s)
    ensures var p := ConvertAll(ctx, s, items);
      p.Ok? ==> EmitsSafeFns(p.value)
    decreases |items|
  {
    if items != [] {
      ForeignArgsTypedCons(items);
      ConvertItemKeepsSafeFns(ctx, s, items[0]);
      var p1 := ConvertItem(ctx, s, items[0]);
      if p1.Ok? {
        ConvertAllKeepsSafeFns(ctx, p1.value, items[1..]);
      }
    }
  }

  /** One item keeps the foreign mod's attributes and ABI, and a first foreign mod sets them. */
  lemma ConvertItemForeignModHeader(ctx: Ctx, s: ConvState, item: Item)
    requires item.ForeignMod? ==> ForeignItemsTyped(item.fm.items)
    ensures var p := ConvertItem(ctx, s, item);
      p.Ok? ==>
        && (s.externCMod.Some? ==> && p.value.externCMod.Some?
                                   && p.value.externCMod.value.attrs == s.externCMod.value.attrs
                                   && p.value.externCMod.value.abi == s.externCMod.value.abi)
        && (s.externCMod.None? && item.ForeignMod? ==> && p.value.externCMod.Some?
                                                        && p.value.externCMod.value.attrs == item.fm.attrs
                                                        && p.value.externCMod.value.abi == item.fm.abi)
        && (s.externCMod.None? && !item.ForeignMod? ==> p.value.externCMod.None?)
  {
    if item.ForeignMod? {
      var s0 := if s.externCMod.None? then s.(externCMod := Some(item.fm.(items := []))) else s;
      ForeignModItemsFrame(ctx, s0, item.fm.items);
    } else if item.Impl? && TypeToTypeName(ctx.env, item.im.selfTy).Some? {
      assert ConvertItem(ctx, s, item).value.externCMod
        == ConvertImplItems(ctx.env, s, TypeToTypeName(ctx.env, item.im.selfTy).value, item.im, item.im.items).externCMod;
    }
  }

  /**
    Only one foreign mod is kept: it has the first input foreign mod's
    attributes and ABI, and there is none when the input has none.
  */
  lemma {:induction false} ConvertAllForeignMod(ctx: Ctx, s: ConvState, items: seq<Item>)
    requires ForeignArgsTyped(items)
    ensures var p := ConvertAll(ctx, s, items);
      p.Ok? ==>
        && (s.externCMod.Some? ==> && p.value.externCMod.Some?
                                   && p.value.externCMod.value.attrs == s.externCMod.value.attrs
                                   && p.value.externCMod.value.abi == s.externCMod.value.abi)
        && (s.externCMod.None? && FirstForeignMod(items).None? ==> p.value.externCMod.None?)
        && (s.externCMod.None? && FirstForeignMod(items).Some? ==>
              && p.value.externCMod.Some?
              && p.value.externCMod.value.attrs == FirstForeignMod(items).value.attrs
              && p.value.externCMod.value.abi == FirstForeignMod(items).value.abi)
    decreases |items|
  {
    if items != [] {
      ForeignArgsTypedCons(items);
      ConvertItemForeignModHeader(ctx, s, items[0]);
      var p1 := ConvertItem(ctx, s, items[0]);
      if p1.Ok? {
        ConvertAllForeignMod(ctx, p1.value, items[1..]);
      }
    }
  }

  // ---------------------------------------------------------------------
  // Which fns and which needs the pass emits.
  // ---------------------------------------------------------------------

  /**
    What one foreign item contributes, given the types found so far: a fn
    that is not a declared constructor yields its translation and its
    wrapper need, if any; anything else yields nothing.
  */
  function FnEmission(ctx: Ctx, ts: seq<TypeName>, f: ForeignItem): (seq<ForeignItem>, seq<AdditionalNeed>)
    requires f.ForeignFn? ==> ArgsTyped(f.sig.inputs)
  {
    if f.ForeignFn? && !IsConstructorName(ctx.env, ts, f.sig.ident) then
      var (item, need) := TranslateForeignFn(ctx, ts, f);
      ([item], if need.Some? then [need.value] else [])
    else ([], [])
  }

  /** The translated fns of a foreign mod's items, in order, skipping declared constructors. */
  function EmittedFns(ctx: Ctx, ts: seq<TypeName>, fitems: seq<ForeignItem>): seq<ForeignItem>
    requires ForeignItemsTyped(fitems)
    decreases |fitems|
  {
    if fitems == [] then []
    else
      assert fitems[0] in fitems;
      assert forall f :: f in fitems[1..] ==> f in fitems;
      FnEmission(ctx, ts, fitems[0]).0 + EmittedFns(ctx, ts, fitems[1..])
  }

  /** The `ByValueWrapper` needs of a foreign mod's items, in order. */
  function EmittedNeeds(ctx: Ctx, ts: seq<TypeName>, fitems: seq<ForeignItem>): seq<AdditionalNeed>
    requires ForeignItemsTyped(fitems)
    decreases |fitems|
  {
    if fitems == [] then []
    else
      assert fitems[0] in fitems;
      assert forall f :: f in fitems[1..] ==> f in fitems;
      FnEmission(ctx, ts, fitems[0]).1 + EmittedNeeds(ctx, ts, fitems[1..])
  }

  /** One foreign fn appends exactly its emission to the foreign mod and to the needs. */
  lemma ForeignFnEmission(ctx: Ctx, s: ConvState, f: ForeignItem)
    requires f.ForeignFn? && ArgsTyped(f.sig.inputs) && s.externCMod.Some?
    ensures var r := ConvertForeignFn(ctx, s, f);
      && r.externCMod.value.items == s.externCMod.value.items + FnEmission(ctx, s.typesFound, f).0
      && r.needs == s.needs + FnEmission(ctx, s.typesFound, f).1
  {
    if IsConstructorName(ctx.env, s.typesFound, f.sig.ident) {
      assert s.externCMod.value.items + [] == s.externCMod.value.items && s.needs + [] == s.needs;
    }
  }

  /**
    `convert_foreign_mod_items` appends to the foreign mod exactly the
    translations of its fns that are not declared constructors, in order,
    and to the needs exactly their wrapper needs, in order.
  */
  lemma {:induction false} ForeignModItemsEmit(ctx: Ctx, s: ConvState, fitems: seq<ForeignItem>)
    requires s.externCMod.Some? && ForeignItemsTyped(fitems)
    ensures var p := ConvertForeignModItems(ctx, s, fitems);
      p.Ok? ==>
        && p.value.externCMod.value.items == s.externCMod.value.items + EmittedFns(ctx, s.typesFound, fitems)
        && p.value.needs == s.needs + EmittedNeeds(ctx, s.typesFound, fitems)
    decreases |fitems|
  {
    if fitems == [] {
      assert s.externCMod.value.items + [] == s.externCMod.value.items && s.needs + [] == s.needs;
    } else if fitems[0].ForeignFn? {
      assert fitems[0] in fitems;
      assert forall f :: f in fitems[1..] ==> f in fitems;
      var s1 := ConvertForeignFn(ctx, s, fitems[0]);
      var e := FnEmission(ctx, s.typesFound, fitems[0]);
      ForeignFnEmission(ctx, s, fitems[0]);
      ForeignModItemsEmit(ctx, s1, fitems[1..]);
      var p := ConvertForeignModItems(ctx, s1, fitems[1..]);
      if p.Ok? {
        AppendTwice(s.externCMod.value.items, e.0, EmittedFns(ctx, s.typesFound, fitems[1..]),
                    s1.externCMod.value.items, p.value.externCMod.value.items);
        AppendTwice(s.needs, e.1, EmittedNeeds(ctx, s.typesFound, fitems[1..]), s1.needs, p.value.needs);
      }
    }
  }

  /** The items of the foreign mod so far; none before the first foreign mod. */
  function FmItems(s: ConvState): seq<ForeignItem> {
    if s.externCMod.Some? then s.externCMod.value.items else []
  }

  /** The fns one item emits, given the types found before it. */
  function ItemFns(ctx: Ctx, ts: seq<TypeName>, item: Item): seq<ForeignItem>
    requires item.ForeignMod? ==> ForeignItemsTyped(item.fm.items)
  {
    if item.ForeignMod? then EmittedFns(ctx, ts, item.fm.items) else []
  }

  /** The needs one item raises: wrappers for a foreign mod's fns, `MakeUnique` for an impl's `new`s. */
  function ItemNeeds(ctx: Ctx, ts: seq<TypeName>, item: Item): seq<AdditionalNeed>
    requires item.ForeignMod? ==> ForeignItemsTyped(item.fm.items)
  {
    match item
    case ForeignMod(fm) => EmittedNeeds(ctx, ts, fm.items)
    case Impl(impl) =>
      (match TypeToTypeName(ctx.env, impl.selfTy)
       case Some(ty) => NewMethodNeeds(ctx.env, ty, impl, impl.items)
       case None => [])
    case _ => []
  }

  /** The fns of the whole pass: each item's, with the types declared before it, in input order. */
  function AllEmittedFns(ctx: Ctx, ts: seq<TypeName>, items: seq<Item>): seq<ForeignItem>
    requires ForeignArgsTyped(items)
    decreases |items|
  {
    if items == [] then []
    else
      ForeignArgsTypedCons(items);
      ItemFns(ctx, ts, items[0]) + AllEmittedFns(ctx, ts + TypesOf(ctx, items[0]), items[1..])
  }

  /** The needs of the whole pass, in input order. */
  function AllNeeds(ctx: Ctx, ts: seq<TypeName>, items: seq<Item>): seq<AdditionalNeed>
    requires ForeignArgsTyped(items)
    decreases |items|
  {
    if items == [] then []
    else
      ForeignArgsTypedCons(items);
      ItemNeeds(ctx, ts, items[0]) + AllNeeds(ctx, ts + TypesOf(ctx, items[0]), items[1..])
  }

  /** One item appends its fns to the foreign mod and its needs to the needs. */
  lemma ConvertItemEmits(ctx: Ctx, s: ConvState, item: Item)
    requires item.ForeignMod? ==> ForeignItemsTyped(item.fm.items)
    ensures var p := ConvertItem(ctx, s, item);
      p.Ok? ==>
        && FmItems(p.value) == FmItems(s) + ItemFns(ctx, s.typesFound, item)
        && p.value.needs == s.needs + ItemNeeds(ctx, s.typesFound, item)
  {
    match item {
      case ForeignMod(fm) =>
        var s0 := if s.externCMod.None? then s.(externCMod := Some(fm.(items := []))) else s;
        ForeignModItemsEmit(ctx, s0, fm.items);
      case Impl(impl) =>
        match TypeToTypeName(ctx.env, impl.selfTy) {
          case Some(ty) => ImplItemsRewriteNews(ctx.env, s, ty, impl, impl.items);
          case None =>
        }
        assert FmItems(s) + [] == FmItems(s) && s.needs + [] == s.needs;
      case _ =>
        assert FmItems(s) + [] == FmItems(s) && s.needs + [] == s.needs;
    }
  }

  /**
    Over the whole pass, the foreign mod receives exactly the fns each item
    emits with the types declared before it, and the needs exactly the
    needs each item raises, both in input order.
  */
  lemma {:induction false} ConvertAllEmits(ctx: Ctx, s: ConvState, items: seq<Item>)
    requires ForeignArgsTyped(items)
    ensures var p := ConvertAll(ctx, s, items);
      p.Ok? ==>
        && FmItems(p.value) == FmItems(s) + AllEmittedFns(ctx, s.typesFound, items)
        && p.value.needs == s.needs + AllNeeds(ctx, s.typesFound, items)
    decreases |items|
  {
    if items == [] {
      assert FmItems(s) + [] == FmItems(s) && s.needs + [] == s.needs;
    } else {
      ForeignArgsTypedCons(items);
      ConvertItemEmits(ctx, s, items[0]);
      ConvertItemTypes(ctx, s, items[0]);
      var p1 := ConvertItem(ctx, s, items[0]);
      if p1.Ok? {
        ConvertAllEmits(ctx, p1.value, items[1..]);
        var p := ConvertAll(ctx, p1.value, items[1..]);
        if p.Ok? {
          var ts1 := s.typesFound + TypesOf(ctx, items[0]);
          AppendTwice(FmItems(s), ItemFns(ctx, s.typesFound, items[0]), AllEmittedFns(ctx, ts1, items[1..]),
                      FmItems(p1.value), FmItems(p.value));
          AppendTwice(s.needs, ItemNeeds(ctx, s.typesFound, items[0]), AllNeeds(ctx, ts1, items[1..]),
                      p1.value.needs, p.value.needs);
        }
      }
    }
  }

  // ---------------------------------------------------------------------
  // The whole conversion.
  // ---------------------------------------------------------------------

  /** The by-value checker's context once the module's items are ingested. */
  function PassContext(env: Env, podRequests: seq<TypeName>, renames: map<string, string>, items: seq<Item>): Ctx {
    Ctx(env, PodDecls(env, items), podRequests, renames)
  }

  /**
    `convert` fails with `NoContent` for a module without a body, with
    `UnsafePODType` when the checker rejects the POD requests (before any item
    is converted), and otherwise exactly when a foreign mod holds a non-fn,
    with `UnknownForeignItem`.
  */
  lemma ConvertErrors(env: Env, includeList: seq<string>, podRequests: seq<TypeName>, bindings: ItemMod,
                      extra: Option<string>, renames: map<string, string>)
    requires bindings.content.Some? ==> ForeignArgsTyped(bindings.content.value)
    ensures var r := Convert(env, includeList, podRequests, bindings, extra, renames);
      && (bindings.content.None? ==> r == Err(NoContent))
      && (bindings.content.Some? ==>
            var items := bindings.content.value;
            match env.satisfyRequests(PodDecls(env, items), podRequests)
            case Some(msg) => r == Err(UnsafePODType(msg))
            case None =>
              && (r.Err? <==> exists it :: it in items && HasUnknownForeignItem(it))
              && (r.Err? ==> r.error == UnknownForeignItem))
  {
    if bindings.content.Some? {
      var items := bindings.content.value;
      var ctx := PassContext(env, podRequests, renames, items);
      ConvertAllFailsIff(ctx, InitState(BuildIncludeForeignItems(includeList, extra)), items);
    }
  }

  /**
    The `cxxbridge` module as assembled: `#[cxx::bridge] pub mod cxxbridge`
    holding one `UniquePtr` stub per declared type and, last, the one foreign
    mod, whose items are the converted fns `fns` (all bridge-safe), then
    `tail`: the includes and one alias per declared type.
  */
  predicate BridgeModule(m: ItemMod, ts: seq<Item>, fmAttrs: seq<Attribute>, fmAbi: string,
                         fns: seq<ForeignItem>, tail: seq<ForeignItem>) {
    && m.attrs == [CxxBridgeAttr()] && m.vis == Public && m.ident == "cxxbridge"
    && m.content.Some?
    && var content := m.content.value;
    && |content| == |ts| + 1
    && content[..|ts|] == ts
    && content[|ts|].ForeignMod?
    && var fm := content[|ts|].fm;
    && fm.attrs == fmAttrs && fm.abi == fmAbi
    && fm.items == fns + tail
    && forall i :: 0 <= i < |fns| ==> BridgeSafeFn(fns[i])
  }

  /**
    Assembly puts the passed-through items first, then the bindgen module,
    then the `cxxbridge` module whose last item is the only foreign mod, with
    the include and alias items after its converted fns.
  */
  lemma AssembleShape(bindings: ItemMod, s: ConvState)
    requires EmitsSafeFns(s)
    ensures var out := Assemble(bindings, s).items;
      var fm := match s.externCMod case Some(m) => m case None => BlankExternCMod();
      && |out| == |s.allItems| + 2
      && out[..|out| - 2] == s.allItems
      && out[|out| - 2] == Mod(bindings.(content := Some(s.bindgenItems)))
      && out[|out| - 1].Mod?
      && BridgeModule(out[|out| - 1].md, s.bridgeItems, fm.attrs, fm.abi, FmItems(s), s.externCModItems)
      && Assemble(bindings, s).additionalCppNeeds == s.needs
  {
    var fm := match s.externCMod case Some(m) => m case None => BlankExternCMod();
    assert forall i :: 0 <= i < |fm.items| ==> fm.items[i] in fm.items;
  }

  /**
    The output of a successful `convert`: the passed-through items, then the
    bindgen module (the input module holding the kept structs, enums and
    rewritten impls), then the `cxxbridge` module; the only foreign mod is
    the last item of the `cxxbridge` module.
  */
  lemma ConvertOutputShape(env: Env, includeList: seq<string>, podRequests: seq<TypeName>, bindings: ItemMod,
                           extra: Option<string>, renames: map<string, string>)
    requires bindings.content.Some? && ForeignArgsTyped(bindings.content.value)
    ensures var r := Convert(env, includeList, podRequests, bindings, extra, renames);
      r.Ok? ==>
        var items := bindings.content.value;
        var ctx := PassContext(env, podRequests, renames, items);
        var ts := DeclaredTypes(ctx, items);
        var out := r.value.items;
        var first := FirstForeignMod(items);
        && |out| == |AllPassedThrough(ctx, items)| + 2
        && out[..|out| - 2] == AllPassedThrough(ctx, items)
        && out[|out| - 2] == Mod(bindings.(content := Some(AllKeptForBindgen(ctx, items))))
        && out[|out| - 1].Mod?
        && BridgeModule(out[|out| - 1].md, UniquePtrImpls(env, ts),
                        if first.Some? then first.value.attrs else [],
                        if first.Some? then first.value.abi else "C",
                        AllEmittedFns(ctx, [], items),
                        BuildIncludeForeignItems(includeList, extra) + Aliases(env, ts))
        && r.value.additionalCppNeeds == AllNeeds(ctx, [], items)
  {
    var items := bindings.content.value;
    var ctx := PassContext(env, podRequests, renames, items);
    var s0 := InitState(BuildIncludeForeignItems(includeList, extra));
    if Convert(env, includeList, podRequests, bindings, extra, renames).Ok? {
      ConvertAllTypes(ctx, s0, items);
      ConvertAllOutputs(ctx, s0, items);
      ConvertAllForeignMod(ctx, s0, items);
      ConvertAllKeepsSafeFns(ctx, s0, items);
      ConvertAllEmits(ctx, s0, items);
      var s := ConvertAll(ctx, s0, items).value;
      var ts := DeclaredTypes(ctx, items);
      var first := FirstForeignMod(items);
      var fm := match s.externCMod case Some(m) => m case None => BlankExternCMod();
      AssembleShape(bindings, s);
      assert Convert(env, includeList, podRequests, bindings, extra, renames) == Ok(Assemble(bindings, s));
      assert fm.attrs == (if first.Some? then first.value.attrs else []);
      assert fm.abi == (if first.Some? then first.value.abi else "C");
      assert s.bindgenItems == AllKeptForBindgen(ctx, items);
      assert s.allItems == AllPassedThrough(ctx, items);
      assert s.bridgeItems == UniquePtrImpls(env, ts);
      assert s.externCModItems == BuildIncludeForeignItems(includeList, extra) + Aliases(env, ts);
      assert FmItems(s) == AllEmittedFns(ctx, [], items);
      assert s.needs == AllNeeds(ctx, [], items);
    }
  }
}
