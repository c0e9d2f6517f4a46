/**
  The side-effect-free helpers of the conversion: the pointer-to-reference
  type rewrite, parameter and return-slot analysis, and attribute stripping.
*/
module TypeRewrite {
  import opened Wrappers
  import opened Syntax
  import opened Collaborators

  /** The canonical spelling of a path segment: `TypeName::from_ident(i).to_ident()`. */
  function Canonical(env: Env, i: Ident): Ident {
    env.toIdent(env.fromIdent(i))
  }

  // ---------------------------------------------------------------------
  // Shape predicates over types, following exactly the positions the
  // rewrite descends into: reference elements, path segments and their
  // angle-bracketed type arguments (not qualified-self types, not the
  // inside of arrays, slices, tuples or `Fn(..)` sugar).
  // ---------------------------------------------------------------------

  /** No raw pointer in any position the rewrite visits. */
  predicate RefsOnly(t: Type)
    decreases t
  {
    match t
    case PathType(p) => forall i :: 0 <= i < |p.segments| ==> SegmentRefsOnly(p.segments[i])
    case Ptr(_, _) => false
    case Reference(_, _, e) => RefsOnly(e)
    case OtherType(_) => true
  }

  predicate SegmentRefsOnly(s: PathSegment)
    decreases s
  {
    s.arguments.AngleBracketed? ==>
      forall i :: 0 <= i < |s.arguments.args| ==> ArgRefsOnly(s.arguments.args[i])
  }

  predicate ArgRefsOnly(a: GenericArgument)
    decreases a
  {
    a.TypeArg? ==> RefsOnly(a.ty)
  }

  /** Every visited path segment is already spelled canonically. */
  predicate CanonicalIn(env: Env, t: Type)
    decreases t
  {
    match t
    case PathType(p) => forall i :: 0 <= i < |p.segments| ==> CanonicalSegment(env, p.segments[i])
    case Ptr(_, e) => CanonicalIn(env, e)
    case Reference(_, _, e) => CanonicalIn(env, e)
    case OtherType(_) => true
  }

  predicate CanonicalSegment(env: Env, s: PathSegment)
    decreases s
  {
    && Canonical(env, s.ident) == s.ident
    && (s.arguments.AngleBracketed? ==>
          forall i :: 0 <= i < |s.arguments.args| ==> CanonicalArg(env, s.arguments.args[i]))
  }

  predicate CanonicalArg(env: Env, a: GenericArgument)
    decreases a
  {
    a.TypeArg? ==> CanonicalIn(env, a.ty)
  }

  /** The mutability flags of the pointer/reference chain, outermost first. */
  function Indirections(t: Type): seq<bool> {
    match t
    case Ptr(m, e) => [m] + Indirections(e)
    case Reference(_, m, e) => [m] + Indirections(e)
    case _ => []
  }

  /**
    The mutability flag of every pointer and reference the rewrite visits,
    in visiting order: reference elements, then each path segment's
    angle-bracketed type arguments, left to right, at every depth.
  */
  function Mutabilities(t: Type): seq<bool>
    decreases t, 0
  {
    match t
    case PathType(p) => SegmentsMutabilities(p, 0)
    case Ptr(m, e) => [m] + Mutabilities(e)
    case Reference(_, m, e) => [m] + Mutabilities(e)
    case OtherType(_) => []
  }

  /** The flags of the segments of `p` from the `i`-th on. */
  function SegmentsMutabilities(p: TypePath, i: nat): seq<bool>
    requires i <= |p.segments|
    decreases p, |p.segments| - i
  {
    if i == |p.segments| then []
    else SegmentMutabilities(p.segments[i]) + SegmentsMutabilities(p, i + 1)
  }

  function SegmentMutabilities(s: PathSegment): seq<bool>
    decreases s, 0
  {
    if s.arguments.AngleBracketed? then ArgsMutabilities(s.arguments, 0) else []
  }

  /** The flags of the generic arguments from the `j`-th on. */
  function ArgsMutabilities(a: PathArguments, j: nat): seq<bool>
    requires a.AngleBracketed? && j <= |a.args|
    decreases a, |a.args| - j
  {
    if j == |a.args| then []
    else (if a.args[j].TypeArg? then Mutabilities(a.args[j].ty) else []) + ArgsMutabilities(a, j + 1)
  }

  // ---------------------------------------------------------------------
  // The rewrite itself.
  // ---------------------------------------------------------------------

  /** `convert_type`: raw pointers become references, recursively. */
  function ConvertType(env: Env, t: Type): (r: Type)
    decreases t, 1
    ensures RefsOnly(r)
    ensures r.PathType? <==> t.PathType?
    ensures t.PathType? ==> r.path == ConvertTypePath(env, t.path)
    ensures r.Reference? <==> t.Ptr? || t.Reference?
    ensures t.Ptr? || t.Reference? ==> r.mutable == t.mutable && r.elem == ConvertType(env, t.elem)
    ensures t.Ptr? ==> r.lifetime.None?
    ensures t.Reference? ==> r.lifetime == t.lifetime
    ensures t.OtherType? ==> r == t
  {
    match t
    case PathType(p) => PathType(ConvertTypePath(env, p))
    case Reference(l, m, e) => Reference(l, m, ConvertType(env, e))
    case Ptr(_, _) => ConvertPtrToReference(env, t)
    case OtherType(_) => t
  }

  /** `convert_ptr_to_reference`: `*const T` becomes `&T`, `*mut T` becomes `&mut T`. */
  function ConvertPtrToReference(env: Env, ptr: Type): (r: Type)
    requires ptr.Ptr?
    decreases ptr, 0
    ensures r.Reference? && r.lifetime.None? && r.mutable == ptr.mutable
    ensures RefsOnly(r)
  {
    Reference(None, ptr.mutable, ConvertType(env, ptr.elem))
  }

  /** `convert_type_path`: canonicalises each segment and rewrites its type arguments. */
  function ConvertTypePath(env: Env, p: TypePath): (r: TypePath)
    decreases p
    ensures r.qself == p.qself && r.leadingColon == p.leadingColon
    ensures |r.segments| == |p.segments|
    ensures forall i :: 0 <= i < |p.segments| ==> r.segments[i].ident == Canonical(env, p.segments[i].ident)
    ensures forall i :: 0 <= i < |p.segments| ==> r.segments[i] == ConvertSegment(env, p.segments[i])
    ensures forall i :: 0 <= i < |r.segments| ==> SegmentRefsOnly(r.segments[i])
  {
    TypePath(p.qself, p.leadingColon,
             seq(|p.segments|, i requires 0 <= i < |p.segments| => ConvertSegment(env, p.segments[i])))
  }

  /** One segment of `convert_type_path`: only angle-bracketed arguments are rewritten. */
  function ConvertSegment(env: Env, s: PathSegment): (r: PathSegment)
    decreases s
    ensures r.ident == Canonical(env, s.ident)
    ensures r.arguments.AngleBracketed? <==> s.arguments.AngleBracketed?
    ensures !s.arguments.AngleBracketed? ==> r.arguments == s.arguments
    ensures s.arguments.AngleBracketed? ==> r.arguments.args == ConvertPunctuated(env, s.arguments.args)
    ensures SegmentRefsOnly(r)
  {
    PathSegment(Canonical(env, s.ident),
                match s.arguments
                case AngleBracketed(args) => AngleBracketed(ConvertPunctuated(env, args))
                case _ => s.arguments)
  }

  /** `convert_punctuated`: rewrites type arguments, keeps the others, in order. */
  function ConvertPunctuated(env: Env, args: seq<GenericArgument>): (r: seq<GenericArgument>)
    decreases args
    ensures |r| == |args|
    ensures forall i :: 0 <= i < |args| ==> (r[i].TypeArg? <==> args[i].TypeArg?)
    ensures forall i :: 0 <= i < |args| && !args[i].TypeArg? ==> r[i] == args[i]
    ensures forall i :: 0 <= i < |args| ==> r[i] == ConvertGenericArgument(env, args[i])
    ensures forall i :: 0 <= i < |r| ==> ArgRefsOnly(r[i])
  {
    seq(|args|, i requires 0 <= i < |args| => ConvertGenericArgument(env, args[i]))
  }

  function ConvertGenericArgument(env: Env, a: GenericArgument): (r: GenericArgument)
    decreases a
    ensures r.TypeArg? <==> a.TypeArg?
    ensures !a.TypeArg? ==> r == a
    ensures a.TypeArg? ==> r.ty == ConvertType(env, a.ty)
    ensures ArgRefsOnly(r)
  {
    match a
    case TypeArg(t) => TypeArg(ConvertType(env, t))
    case _ => a
  }

  /** `convert_return_type`: the rewrite applied to a declared return type. */
  function ConvertReturnType(env: Env, rt: ReturnType): (r: ReturnType)
    ensures r.DefaultReturn? <==> rt.DefaultReturn?
    ensures r.Returns? ==> r.ty == ConvertType(env, rt.ty)
    ensures r.Returns? ==> RefsOnly(r.ty) && Indirections(r.ty) == Indirections(rt.ty)
    ensures r.Returns? ==> Mutabilities(r.ty) == Mutabilities(rt.ty)
  {
    match rt
    case DefaultReturn => DefaultReturn
    case Returns(t) =>
      IndirectionsPreserved(env, t);
      MutabilitiesPreserved(env, t);
      Returns(ConvertType(env, t))
  }

  // ---------------------------------------------------------------------
  // Parameters, return slots and attributes.
  // ---------------------------------------------------------------------

  /** `type_to_typename`: only path types name a type. */
  function TypeToTypeName(env: Env, t: Type): (r: Option<TypeName>)
    ensures r.Some? <==> t.PathType?
    ensures r.Some? ==> r.value == env.fromType(t)
  {
    if t.PathType? then Some(env.fromType(t)) else None
  }

  /** `conversion_required`: a non-POD path type must arrive through a `UniquePtr`. */
  function ConversionRequired(ctx: Ctx, t: Type): (r: ArgumentConversion)
    ensures r.ty == t
    ensures !r.ToUniquePtr?
    ensures r.FromUniquePtr? <==> t.PathType? && !IsPod(ctx, ctx.env.fromType(t))
  {
    if t.PathType? then
      if IsPod(ctx, ctx.env.fromType(t)) then Unconverted(t) else FromUniquePtr(t)
    else Unconverted(t)
  }

  /** `unwrap_return_type`: a non-POD return must leave through a `UniquePtr`. */
  function UnwrapReturnType(ctx: Ctx, rt: ReturnType): (r: Option<ArgumentConversion>)
    ensures r.None? <==> rt.DefaultReturn?
    ensures r.Some? ==> r.value.ty == rt.ty && !r.value.FromUniquePtr?
    ensures r.Some? ==> (r.value.ToUniquePtr? <==> !IsPod(ctx, ctx.env.fromType(rt.ty)))
  {
    match rt
    case Returns(t) => Some(if !IsPod(ctx, ctx.env.fromType(t)) then ToUniquePtr(t) else Unconverted(t))
    case DefaultReturn => None
  }

  /** Whether `strip_attr` removes `a` when asked to strip `name`. */
  predicate Names(a: Attribute, name: Ident) {
    AttrIdent(a) == Some(name)
  }

  /** `strip_attr`: drops every attribute whose path is the identifier `name`. */
  function StripAttr(attrs: seq<Attribute>, name: Ident): (r: seq<Attribute>)
    ensures forall a :: a in r <==> a in attrs && !Names(a, name)
    ensures |r| <= |attrs|
    ensures (forall a :: a in attrs ==> !Names(a, name)) ==> r == attrs
  {
    if attrs == [] then []
    else if Names(attrs[0], name) then StripAttr(attrs[1..], name)
    else [attrs[0]] + StripAttr(attrs[1..], name)
  }

  /** What `convert_fn_arg` learns about one parameter. */
  datatype ArgumentAnalysis = ArgumentAnalysis(conversion: ArgumentConversion, wasSelf: bool)

  /** Whether a parameter pattern is the sentinel `this`. */
  predicate IsThis(p: Pat) {
    p.IdentPat? && p.ident == "this"
  }

  /**
    `convert_fn_arg`: renames a `this` parameter to `self`, rewrites the type
    and derives the conversion from the rewritten type.
  */
  function ConvertFnArg(ctx: Ctx, arg: FnArg): (r: (FnArg, ArgumentAnalysis))
    requires arg.Typed?
    ensures r.0.Typed? && r.0.ty == ConvertType(ctx.env, arg.ty)
    ensures r.1.wasSelf <==> IsThis(arg.pat)
    ensures r.1.wasSelf ==> r.0.pat == IdentPat(arg.pat.mutable, "self")
    ensures !r.1.wasSelf ==> r.0.pat == arg.pat
    ensures r.1.conversion == ConversionRequired(ctx, r.0.ty)
  {
    var newPat := if IsThis(arg.pat) then arg.pat.(ident := "self") else arg.pat;
    var newTy := ConvertType(ctx.env, arg.ty);
    (Typed(newPat, newTy), ArgumentAnalysis(ConversionRequired(ctx, newTy), IsThis(arg.pat)))
  }

  // ---------------------------------------------------------------------
  // Properties of the rewrite.
  // ---------------------------------------------------------------------

  /** Pointers and references keep their number and their mutabilities, outermost first. */
  lemma {:induction false} IndirectionsPreserved(env: Env, t: Type)
    ensures Indirections(ConvertType(env, t)) == Indirections(t)
    decreases t
  {
    match t
    case Ptr(_, e) => IndirectionsPreserved(env, e);
    case Reference(_, _, e) => IndirectionsPreserved(env, e);
    case _ =>
  }

  /**
    Every pointer or reference keeps its mutability, at every nesting depth
    the rewrite visits, and none appears or disappears.
  */
  lemma {:induction false} MutabilitiesPreserved(env: Env, t: Type)
    ensures Mutabilities(ConvertType(env, t)) == Mutabilities(t)
    decreases t, 0
  {
    match t
    case PathType(p) => SegmentsMutabilitiesPreserved(env, p, 0);
    case Ptr(_, e) => MutabilitiesPreserved(env, e);
    case Reference(_, _, e) => MutabilitiesPreserved(env, e);
    case OtherType(_) =>
  }

  lemma {:induction false} SegmentsMutabilitiesPreserved(env: Env, p: TypePath, i: nat)
    requires i <= |p.segments|
    ensures SegmentsMutabilities(ConvertTypePath(env, p), i) == SegmentsMutabilities(p, i)
    decreases p, |p.segments| - i
  {
    if i < |p.segments| {
      SegmentMutabilitiesPreserved(env, p.segments[i]);
      SegmentsMutabilitiesPreserved(env, p, i + 1);
    }
  }

  lemma {:induction false} SegmentMutabilitiesPreserved(env: Env, s: PathSegment)
    ensures SegmentMutabilities(ConvertSegment(env, s)) == SegmentMutabilities(s)
    decreases s, 0
  {
    if s.arguments.AngleBracketed? {
      ArgsMutabilitiesPreserved(env, s.arguments, 0);
    }
  }

  lemma {:induction false} ArgsMutabilitiesPreserved(env: Env, a: PathArguments, j: nat)
    requires a.AngleBracketed? && j <= |a.args|
    ensures ArgsMutabilities(AngleBracketed(ConvertPunctuated(env, a.args)), j) == ArgsMutabilities(a, j)
    decreases a, |a.args| - j
  {
    if j < |a.args| {
      if a.args[j].TypeArg? {
        MutabilitiesPreserved(env, a.args[j].ty);
      }
      ArgsMutabilitiesPreserved(env, a, j + 1);
    }
  }

  /** A type without raw pointers whose names are canonical passes through unchanged. */
  lemma {:induction false} ConvertTypeFixpoint(env: Env, t: Type)
    requires RefsOnly(t) && CanonicalIn(env, t)
    ensures ConvertType(env, t) == t
    decreases t
  {
    match t
    case PathType(p) =>
      forall i | 0 <= i < |p.segments|
        ensures ConvertSegment(env, p.segments[i]) == p.segments[i]
      {
        SegmentFixpoint(env, p.segments[i]);
      }
      assert ConvertTypePath(env, p).segments == p.segments;
    case Reference(_, _, e) => ConvertTypeFixpoint(env, e);
    case OtherType(_) =>
  }

  lemma {:induction false} SegmentFixpoint(env: Env, s: PathSegment)
    requires SegmentRefsOnly(s) && CanonicalSegment(env, s)
    ensures ConvertSegment(env, s) == s
    decreases s
  {
    if s.arguments.AngleBracketed? {
      var args := s.arguments.args;
      forall i | 0 <= i < |args|
        ensures ConvertGenericArgument(env, args[i]) == args[i]
      {
        if args[i].TypeArg? {
          ConvertTypeFixpoint(env, args[i].ty);
        }
      }
      assert ConvertPunctuated(env, args) == args;
    }
  }

  /** Canonicalisation that is stable once applied. */
  ghost predicate CanonicalIdempotent(env: Env) {
    forall i :: Canonical(env, Canonical(env, i)) == Canonical(env, i)
  }

  /** With a stable canonicalisation, every visited segment of a rewritten type is canonical. */
  lemma {:induction false} ConvertedIsCanonical(env: Env, t: Type)
    requires CanonicalIdempotent(env)
    ensures CanonicalIn(env, ConvertType(env, t))
    decreases t
  {
    match t
    case PathType(p) =>
      var r := ConvertTypePath(env, p);
      forall i | 0 <= i < |r.segments|
        ensures CanonicalSegment(env, r.segments[i])
      {
        ConvertedSegmentIsCanonical(env, p.segments[i]);
      }
    case Ptr(_, e) => ConvertedIsCanonical(env, e);
    case Reference(_, _, e) => ConvertedIsCanonical(env, e);
    case OtherType(_) =>
  }

  lemma {:induction false} ConvertedSegmentIsCanonical(env: Env, s: PathSegment)
    requires CanonicalIdempotent(env)
    ensures CanonicalSegment(env, ConvertSegment(env, s))
    decreases s
  {
    if s.arguments.AngleBracketed? {
      var args := s.arguments.args;
      var r := ConvertPunctuated(env, args);
      forall i | 0 <= i < |r|
        ensures CanonicalArg(env, r[i])
      {
        assert r[i] == ConvertGenericArgument(env, args[i]);
        if args[i].TypeArg? {
          ConvertedIsCanonical(env, args[i].ty);
        }
      }
    }
  }

  /** Converting twice is converting once, when canonicalisation is stable. */
  lemma ConvertTypeIdempotent(env: Env, t: Type)
    requires CanonicalIdempotent(env)
    ensures ConvertType(env, ConvertType(env, t)) == ConvertType(env, t)
  {
    ConvertedIsCanonical(env, t);
    ConvertTypeFixpoint(env, ConvertType(env, t));
  }

  /** Stripping keeps the survivors in their original order. */
  lemma {:induction false} StripAttrConcat(a: seq<Attribute>, b: seq<Attribute>, name: Ident)
    ensures StripAttr(a + b, name) == StripAttr(a, name) + StripAttr(b, name)
    decreases |a|
  {
    if a == [] {
      assert a + b == b;
    } else {
      assert (a + b)[1..] == a[1..] + b;
      StripAttrConcat(a[1..], b, name);
    }
  }
}
