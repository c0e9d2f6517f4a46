/**
  `BridgeConverter` and `BridgeConversion` as the source has them: an object
  whose methods push into its accumulator fields while looping over the
  items. Every method is proved to leave the object in the state the
  functional reference of ConversionSpec computes from the old state.
*/
module BridgeConverter {
  import opened Wrappers
  import opened Syntax
  import opened Collaborators
  import opened TypeRewrite
  import opened ConversionSpec

  /** The loop of `convert_foreign_fn` that looks for a declared constructor `{T}_{T}` among the types found. */
  method FindConstructor(env: Env, typesFound: seq<TypeName>, name: Ident) returns (found: bool)
    ensures found <==> IsConstructorName(env, typesFound, name)
  {
    for k := 0 to |typesFound|
      invariant forall j :: 0 <= j < k ==> ConstructorName(env, typesFound[j]) != name
    {
      if name == ConstructorName(env, typesFound[k]) {
        return true;
      }
    }
    return false;
  }

  /**
    The loop of `convert_foreign_fn` that demangles a method's name: the
    suffix after the first found type whose prefix the name carries.
  */
  method DemangledIdent(env: Env, typesFound: seq<TypeName>, name: Ident, isMethod: bool) returns (ident: Ident)
    ensures ident == BridgeIdent(env, typesFound, name, isMethod)
  {
    ident := name;
    if isMethod {
      var k := 0;
      while k < |typesFound|
        invariant 0 <= k <= |typesFound|
        invariant forall j :: 0 <= j < k ==> env.prefixes(typesFound[j], name).None?
      {
        var suffix := env.prefixes(typesFound[k], name);
        if suffix.Some? {
          DemangleSkipsMisses(env, typesFound, name, k);
          return suffix.value;
        }
        k := k + 1;
      }
      DemangleSkipsMisses(env, typesFound, name, k);
    }
  }

  class BridgeConversion {
    const env: Env
    const bindgenMod: ItemMod
    const podRequests: seq<TypeName>
    const includeList: seq<string>
    const renames: map<string, string>
    var allItems: seq<Item>
    var bridgeItems: seq<Item>
    var externCMod: Option<ItemForeignMod>
    var externCModItems: seq<ForeignItem>
    var additionalCppNeeds: seq<AdditionalNeed>
    var typesFound: seq<TypeName>
    var bindgenItems: seq<Item>
    /** The by-value checker's state: the declarations ingested so far. */
    var ingested: seq<PodDecl>

    /** The accumulators, as one value. */
    function State(): ConvState
      reads this
    {
      ConvState(allItems, bridgeItems, externCMod, externCModItems, additionalCppNeeds, typesFound, bindgenItems)
    }

    /** What pass 2 reads but never changes. */
    function Context(): Ctx
      reads this
    {
      Ctx(env, ingested, podRequests, renames)
    }

    constructor (env: Env, bindgenMod: ItemMod, podRequests: seq<TypeName>, includeList: seq<string>, renames: map<string, string>)
      ensures this.env == env && this.bindgenMod == bindgenMod && this.podRequests == podRequests
      ensures this.includeList == includeList && this.renames == renames
      ensures State() == InitState([]) && ingested == []
    {
      this.env := env;
      this.bindgenMod := bindgenMod;
      this.podRequests := podRequests;
      this.includeList := includeList;
      this.renames := renames;
      allItems := [];
      bridgeItems := [];
      externCMod := None;
      externCModItems := [];
      additionalCppNeeds := [];
      typesFound := [];
      bindgenItems := [];
      ingested := [];
    }

    /** `find_nested_pod_types`: pass 1, then the checker's verdict on the POD requests. */
    method FindNestedPodTypes(items: seq<Item>) returns (r: Result<(), ConvertError>)
      modifies this
      ensures ingested == old(ingested) + PodDecls(env, items)
      ensures State() == old(State())
      ensures r == match env.satisfyRequests(ingested, podRequests)
                   case Some(msg) => Err(UnsafePODType(msg))
                   case None => Ok(())
    {
      for k := 0 to |items|
        invariant ingested == old(ingested) + PodDecls(env, items[..k])
        invariant State() == old(State())
      {
        assert items[..k + 1][..k] == items[..k];
        match items[k] {
          case Struct(st) => ingested := ingested + [IngestStruct(st)];
          case Enum(en) => ingested := ingested + [IngestPodType(env.fromIdent(en.ident))];
          case _ =>
        }
      }
      assert items[..|items|] == items;
      match env.satisfyRequests(ingested, podRequests) {
        case Some(msg) => r := Err(UnsafePODType(msg));
        case None => r := Ok(());
      }
    }

    /** `generate_type_alias`. */
    method GenerateTypeAlias(tyname: TypeName, pod: bool)
      modifies this
      ensures State() == ConversionSpec.GenerateTypeAlias(env, old(State()), tyname, pod)
      ensures ingested == old(ingested)
    {
      var id := env.toIdent(tyname);
      externCModItems := externCModItems + [ForeignTypeAlias(id)];
      bridgeItems := bridgeItems + [Impl(UniquePtrImpl(id))];
      allItems := allItems + [Impl(ExternTypeImpl(id, env.cppName(tyname), KindOf(pod)))];
      typesFound := typesFound + [tyname];
    }

    /** `convert_foreign_fn`, with its two loops over the types found so far. */
    method ConvertForeignFn(f: ForeignItem)
      requires f.ForeignFn? && ArgsTyped(f.sig.inputs) && externCMod.Some?
      modifies this
      ensures State() == ConversionSpec.ConvertForeignFn(old(Context()), old(State()), f)
      ensures ingested == old(ingested)
    {
      var oldName := f.sig.ident;
      var skip := FindConstructor(env, typesFound, oldName);
      if skip {
        return;
      }
      var isMethod := HasThisParam(f.sig.inputs);
      var ident := DemangledIdent(env, typesFound, oldName, isMethod);
      var sig := RewriteSignature(Context(), f.sig, ident);
      var need := WrapperNeed(Context(), sig);
      if need.Some? {
        additionalCppNeeds := additionalCppNeeds + [need.value];
      }
      var attrs := StripAttr(f.attrs, "link_name");
      if oldName in renames {
        attrs := attrs + [RustNameAttr(renames[oldName])];
      }
      assert attrs == FnAttrs(renames, f.attrs, oldName);
      assert (ForeignFn(attrs, f.vis, sig), need) == TranslateForeignFn(Context(), typesFound, f);
      var fm := externCMod.value;
      externCMod := Some(fm.(items := fm.items + [ForeignFn(attrs, f.vis, sig)]));
    }

    /** `convert_foreign_mod_items`: converts each fn, fails on the first other item. */
    method ConvertForeignModItems(fitems: seq<ForeignItem>) returns (r: Result<(), ConvertError>)
      requires externCMod.Some? && ForeignItemsTyped(fitems)
      modifies this
      ensures ingested == old(ingested)
      ensures match ConversionSpec.ConvertForeignModItems(old(Context()), old(State()), fitems)
              case Ok(s) => r == Ok(()) && State() == s
              case Err(e) => r == Err(e)
    {
      for k := 0 to |fitems|
        invariant externCMod.Some? && ingested == old(ingested)
        invariant ConversionSpec.ConvertForeignModItems(old(Context()), old(State()), fitems)
                  == ConversionSpec.ConvertForeignModItems(Context(), State(), fitems[k..])
      {
        assert fitems[k..][1..] == fitems[k + 1..];
        if !fitems[k].ForeignFn? {
          return Err(UnknownForeignItem);
        }
        ConvertForeignFn(fitems[k]);
      }
      return Ok(());
    }

    /** `convert_new_method`. */
    method ConvertNewMethod(m: ImplItem, ty: TypeName, impl: ItemImpl)
      requires m.Method?
      modifies this
      ensures State() == ConversionSpec.ConvertNewMethod(env, old(State()), m, ty, impl)
      ensures ingested == old(ingested)
    {
      if m.sig.output.DefaultReturn? {
        return;
      }
      var args := ConstructorArgs(env, m.sig.inputs);
      additionalCppNeeds := additionalCppNeeds + [MakeUnique(ty, Firsts(args))];
      var callName := env.display(ty) + "_make_unique";
      var sig := m.sig.(ident := "make_unique", unsafety := false, output := Returns(CxxUniquePtr(m.sig.output.ty)));
      var newMethod := m.(block := CallBridgeFn(callName, Seconds(args)), sig := sig);
      bindgenItems := bindgenItems + [Impl(impl.(attrs := [], unsafety := false, items := [newMethod]))];
    }

    /** The loop of `convert_items` over one impl block's items: each `new` is rewritten. */
    method ConvertImplItems(ty: TypeName, impl: ItemImpl)
      modifies this
      ensures State() == ConversionSpec.ConvertImplItems(env, old(State()), ty, impl, impl.items)
      ensures ingested == old(ingested)
    {
      for j := 0 to |impl.items|
        invariant ingested == old(ingested)
        invariant ConversionSpec.ConvertImplItems(env, old(State()), ty, impl, impl.items)
                  == ConversionSpec.ConvertImplItems(env, State(), ty, impl, impl.items[j..])
      {
        assert impl.items[j..][1..] == impl.items[j + 1..];
        if IsNewMethod(impl.items[j]) {
          ConvertNewMethod(impl.items[j], ty, impl);
        }
      }
    }

    /** One arm of the match in `convert_items`. */
    method ConvertItem(item: Item) returns (r: Result<(), ConvertError>)
      requires item.ForeignMod? ==> ForeignItemsTyped(item.fm.items)
      modifies this
      ensures ingested == old(ingested)
      ensures match ConversionSpec.ConvertItem(old(Context()), old(State()), item)
              case Ok(s) => r == Ok(()) && State() == s
              case Err(e) => r == Err(e)
    {
      match item {
        case ForeignMod(fm) =>
          if externCMod.None? {
            externCMod := Some(fm.(items := []));
          }
          r := ConvertForeignModItems(fm.items);
        case Struct(st) =>
          var tyname := env.fromIdent(st.ident);
          var pod := IsPod(Context(), tyname);
          GenerateTypeAlias(tyname, pod);
          var kept := if pod then st else st.(fields := Unit);
          bindgenItems := bindgenItems + [Struct(kept)];
          r := Ok(());
        case Enum(en) =>
          GenerateTypeAlias(env.fromIdent(en.ident), true);
          bindgenItems := bindgenItems + [Enum(en)];
          r := Ok(());
        case Impl(impl) =>
          var ty := TypeToTypeName(env, impl.selfTy);
          if ty.Some? {
            ConvertImplItems(ty.value, impl);
          }
          r := Ok(());
        case Mod(_) =>
          allItems := allItems + [item];
          r := Ok(());
        case OtherItem(_) =>
          allItems := allItems + [item];
          r := Ok(());
      }
    }

    /**
      The end of `convert_items`: the foreign mod (a blank one if bindgen
      produced none) takes the include and alias items and closes the bridge
      items; the bindgen module and the `cxxbridge` module close the output.
    */
    method Assemble() returns (r: ConversionResults)
      requires bindgenMod.content == Some([])
      modifies this
      ensures r == ConversionSpec.Assemble(bindgenMod, old(State()))
    {
      var fm := if externCMod.Some? then externCMod.value else BlankExternCMod();
      externCMod := None;
      fm := fm.(items := fm.items + externCModItems);
      externCModItems := [];
      bridgeItems := bridgeItems + [ForeignMod(fm)];
      var bindgen := bindgenMod.(content := Some(bindgenMod.content.value + bindgenItems));
      assert bindgenMod.content.value + bindgenItems == bindgenItems;
      bindgenItems := [];
      allItems := allItems + [Mod(bindgen)];
      var bridge := ItemMod([CxxBridgeAttr()], Public, "cxxbridge", Some(bridgeItems));
      bridgeItems := [];
      allItems := allItems + [Mod(bridge)];
      return ConversionResults(allItems, additionalCppNeeds);
    }

    /**
      `convert_items`: pass 1, the include items, the match over every item
      (failing on the first error) and the assembly of the two modules.
    */
    method ConvertItems(items: seq<Item>, extra: Option<string>) returns (r: Result<ConversionResults, ConvertError>)
      requires State() == InitState([]) && ingested == []
      requires bindgenMod.content == Some([])
      requires ForeignArgsTyped(items)
      modifies this
      ensures r == ConversionSpec.ConvertItems(env, includeList, podRequests, renames, bindgenMod, items, extra)
    {
      var pods := FindNestedPodTypes(items);
      assert ingested == PodDecls(env, items);
      if pods.Err? {
        return Err(pods.error);
      }
      externCModItems := BuildIncludeForeignItems(includeList, extra);
      ghost var s0 := State();
      assert s0 == InitState(BuildIncludeForeignItems(includeList, extra));
      for k := 0 to |items|
        invariant ingested == PodDecls(env, items)
        invariant ForeignArgsTyped(items[k..])
        invariant ConvertAll(Context(), s0, items) == ConvertAll(Context(), State(), items[k..])
      {
        assert items[k..][1..] == items[k + 1..];
        assert items[k] in items[k..];
        var res := ConvertItem(items[k]);
        if res.Err? {
          return Err(res.error);
        }
      }
      assert items[|items|..] == [];
      var results := Assemble();
      return Ok(results);
    }
  }

  /** `BridgeConverter`: the include list and POD requests shared by every conversion. */
  class BridgeConverter {
    const includeList: seq<string>
    const podRequests: seq<TypeName>

    constructor (includeList: seq<string>, podRequests: seq<TypeName>)
      ensures this.includeList == includeList && this.podRequests == podRequests
    {
      this.includeList := includeList;
      this.podRequests := podRequests;
    }

    /** `convert`: fails without content, otherwise runs a fresh conversion over the module's items. */
    method Convert(env: Env, bindings: ItemMod, extra: Option<string>, renames: map<string, string>)
      returns (r: Result<ConversionResults, ConvertError>)
      requires bindings.content.Some? ==> ForeignArgsTyped(bindings.content.value)
      ensures r == ConversionSpec.Convert(env, includeList, podRequests, bindings, extra, renames)
    {
      if bindings.content.None? {
        return Err(NoContent);
      }
      var items := bindings.content.value;
      var conversion := new BridgeConversion(env, bindings.(content := Some([])), podRequests, includeList, renames);
      r := conversion.ConvertItems(items, extra);
    }
  }
}
