/**
 * The value-level contract of a Java type variable (PMD's `JTypeVar`).
 *
 * There are two sorts of type variable: a declared type parameter, which has a
 * symbol and a user-written name and only an upper bound, and a capture
 * variable, which comes from capture conversion of a wildcard, has no symbol,
 * remembers the wildcard it was captured from, may have a non-trivial lower
 * bound and uses reference identity.
 *
 * Inside a type, a type variable is mentioned by its substitution key
 * (`SubstVar`), not by embedding the variable with its bounds. That is what
 * keeps an F-bound such as `T extends Comparable<T>` a finite value: the
 * bound mentions `Var(TypeParam(T))`, and substitution rewrites that mention
 * without walking into T's own bound.
 */
module TypeVars {
  import opened Wrappers

  /** The symbol of a declared type parameter: the generic declaration that owns it, its position there, and its name. */
  datatype TypeParamSymbol = TypeParamSymbol(owner: string, index: nat, simpleName: string)

  /** The reference identity of a capture variable. */
  type CaptureId = nat

  /** What a substitution is keyed on: a declared parameter by its symbol, a capture variable by its identity. */
  datatype SubstVar = TypeParam(symbol: TypeParamSymbol) | Capture(id: CaptureId)

  /** A minimal type mirror, enough to hold the bounds of a type variable. */
  datatype TypeMirror =
    | NullType                                            // the bottom type, a trivial lower bound
    | Primitive(kind: string)
    | ClassType(classSymbol: string, typeArgs: seq<TypeMirror>)
    | ArrayType(component: TypeMirror)
    | Wildcard(wildcard: WildcardType)
    | Intersection(components: seq<TypeMirror>)
    | Var(v: SubstVar)                                    // a mention of a type variable

  /** `? extends bound` when `isUpperBound`, `? super bound` otherwise; `?` is `? extends Object`. */
  datatype WildcardType = WildcardType(isUpperBound: bool, bound: TypeMirror)

  /** A type variable: a declared type parameter or a capture variable. */
  datatype JTypeVar =
    | Declared(symbol: TypeParamSymbol, upper: TypeMirror)
    | Captured(id: CaptureId, origin: WildcardType, lower: TypeMirror, upper: TypeMirror)

  /** The exception `cloneWithBounds` throws on a declared type parameter. */
  datatype TypeVarError = UnsupportedOperation

  // ---------------------------------------------------------------------------
  // Accessors
  // ---------------------------------------------------------------------------

  /** True exactly for capture variables, which are the variables keyed by their identity. */
  function IsCaptured(tv: JTypeVar): (r: bool)
    ensures r <==> Key(tv).Capture?
  {
    tv.Captured?
  }

  /** The symbol of a declared type parameter; null for a capture variable. */
  function Symbol(tv: JTypeVar): (r: Option<TypeParamSymbol>)
    ensures r.None? <==> IsCaptured(tv)
    ensures r.Some? ==> Key(tv) == TypeParam(r.value)
  {
    if tv.Declared? then Some(tv.symbol) else None
  }

  /** The wildcard a capture variable was captured from; null for a declared type parameter. */
  function CapturedOrigin(tv: JTypeVar): (r: Option<WildcardType>)
    ensures r.Some? <==> IsCaptured(tv)
    ensures r.Some? <==> Symbol(tv).None?
  {
    if tv.Captured? then Some(tv.origin) else None
  }

  /** True exactly for a capture variable of the wildcard `w`. */
  function IsCaptureOf(tv: JTypeVar, w: WildcardType): (r: bool)
    ensures r <==> CapturedOrigin(tv) == Some(w)
    ensures r ==> IsCaptured(tv)
  {
    tv.Captured? && tv.origin == w
  }

  /** The upper bound, for both sorts. */
  function UpperBound(tv: JTypeVar): TypeMirror {
    tv.upper
  }

  /** The lower bound: the bottom type for a declared type parameter. */
  function LowerBound(tv: JTypeVar): (r: TypeMirror)
    ensures r != NullType ==> IsCaptured(tv)
  {
    match tv
    case Declared(_, _) => NullType
    case Captured(_, _, lower, _) => lower
  }

  /** The name: the declared name of a type parameter, an autogenerated one for a capture variable. */
  function Name(tv: JTypeVar): (r: string)
    ensures tv.Declared? ==> r == tv.symbol.simpleName
    ensures tv.Captured? ==> |r| > 0
  {
    match tv
    case Declared(sym, _) => sym.simpleName
    case Captured(id, _, _, _) => "capture#" + Decimal(id)
  }

  /** The substitution key of a variable: its symbol if declared, its identity if captured. */
  function Key(tv: JTypeVar): SubstVar {
    match tv
    case Declared(sym, _) => TypeParam(sym)
    case Captured(id, _, _, _) => Capture(id)
  }

  /**
   * Equality of type variables: declared parameters are equal when their
   * symbols are, whatever their bounds; capture variables only when they are
   * the same instance.
   */
  function Equals(a: JTypeVar, b: JTypeVar): (r: bool)
    ensures r <==> Key(a) == Key(b)
  {
    match (a, b)
    case (Declared(s1, _), Declared(s2, _)) => s1 == s2
    case (Captured(i1, _, _, _), Captured(i2, _, _, _)) => i1 == i2
    case _ => false
  }

  /** Equality is structural (by symbol) for declared parameters and by identity for captures. */
  lemma EqualityBySort(a: JTypeVar, b: JTypeVar)
    ensures a.Declared? && b.Declared? && a.symbol == b.symbol ==> Equals(a, b)
    ensures a.Captured? && b.Captured? && a.id != b.id ==> !Equals(a, b)
  {
  }

  // ---------------------------------------------------------------------------
  // Autogenerated names of capture variables: "capture#" and the identity
  // ---------------------------------------------------------------------------

  function Digit(d: nat): char
    requires d < 10
  {
    ('0' as int + d) as char
  }

  /** The decimal digits of `n`, most significant first. */
  function Decimal(n: nat): string
    decreases n
  {
    if n < 10 then [Digit(n)] else Decimal(n / 10) + [Digit(n % 10)]
  }

  // ---------------------------------------------------------------------------
  // Substitution
  // ---------------------------------------------------------------------------

  /**
   * A substitution maps each substitutable variable to its replacement; a
   * variable left alone maps to its own mention, `Var(v)`.
   */
  type Substitution = SubstVar -> TypeMirror

  /** Rewrites every mention of a variable in `t`; the bounds of a mentioned variable are not visited. */
  function Subst(t: TypeMirror, s: Substitution): (r: TypeMirror)
    ensures t.Var? ==> r == s(t.v)
    ensures t.NullType? || t.Primitive? ==> r == t
    ensures t.ClassType? ==> r.ClassType? && r.classSymbol == t.classSymbol && |r.typeArgs| == |t.typeArgs|
    ensures t.ArrayType? ==> r.ArrayType?
    ensures t.Wildcard? ==> r.Wildcard? && r.wildcard.isUpperBound == t.wildcard.isUpperBound
    ensures t.Intersection? ==> r.Intersection? && |r.components| == |t.components|
    decreases t
  {
    match t
    case NullType => t
    case Primitive(_) => t
    case ClassType(c, args) => ClassType(c, SubstAll(args, s))
    case ArrayType(c) => ArrayType(Subst(c, s))
    case Wildcard(w) => Wildcard(WildcardType(w.isUpperBound, Subst(w.bound, s)))
    case Intersection(cs) => Intersection(SubstAll(cs, s))
    case Var(v) => s(v)
  }

  function SubstAll(ts: seq<TypeMirror>, s: Substitution): (r: seq<TypeMirror>)
    ensures |r| == |ts|
    decreases ts
  {
    if ts == [] then [] else [Subst(ts[0], s)] + SubstAll(ts[1..], s)
  }

  /** The variables mentioned in `t`. */
  function FreeVars(t: TypeMirror): set<SubstVar>
    decreases t
  {
    match t
    case NullType => {}
    case Primitive(_) => {}
    case ClassType(_, args) => FreeVarsAll(args)
    case ArrayType(c) => FreeVars(c)
    case Wildcard(w) => FreeVars(w.bound)
    case Intersection(cs) => FreeVarsAll(cs)
    case Var(v) => {v}
  }

  function FreeVarsAll(ts: seq<TypeMirror>): set<SubstVar>
    decreases ts
  {
    if ts == [] then {} else FreeVars(ts[0]) + FreeVarsAll(ts[1..])
  }

  /** `s` leaves every variable mentioned in `t` alone. */
  ghost predicate Fixes(s: Substitution, t: TypeMirror) {
    forall v :: v in FreeVars(t) ==> s(v) == Var(v)
  }

  /** A substitution that touches no variable of `t` gives back `t` itself. */
  lemma {:induction false} SubstIdentity(t: TypeMirror, s: Substitution)
    requires Fixes(s, t)
    ensures Subst(t, s) == t
    decreases t
  {
    match t
    case NullType =>
    case Primitive(_) =>
    case ClassType(c, args) => SubstAllIdentity(args, s);
    case ArrayType(c) => SubstIdentity(c, s);
    case Wildcard(w) => SubstIdentity(w.bound, s);
    case Intersection(cs) => SubstAllIdentity(cs, s);
    case Var(v) =>
  }

  lemma {:induction false} SubstAllIdentity(ts: seq<TypeMirror>, s: Substitution)
    requires forall v :: v in FreeVarsAll(ts) ==> s(v) == Var(v)
    ensures SubstAll(ts, s) == ts
    decreases ts
  {
    if ts != [] {
      SubstIdentity(ts[0], s);
      SubstAllIdentity(ts[1..], s);
    }
  }

  /** The variables mentioned by the replacements of the variables in `vars`. */
  ghost function MentionedBy(vars: set<SubstVar>, s: Substitution): set<SubstVar> {
    set v, x | v in vars && x in FreeVars(s(v)) :: x
  }

  lemma MentionedByUnion(a: set<SubstVar>, b: set<SubstVar>, s: Substitution)
    ensures MentionedBy(a + b, s) == MentionedBy(a, s) + MentionedBy(b, s)
  {
  }

  lemma MentionedBySingle(v: SubstVar, s: Substitution)
    ensures MentionedBy({v}, s) == FreeVars(s(v))
  {
    forall x | x in FreeVars(s(v)) ensures x in MentionedBy({v}, s) {
      assert v in {v};
    }
  }

  /**
   * Every mention is rewritten, however deeply nested: the variables of the
   * result are exactly those mentioned by the replacements of the variables
   * of `t`.
   */
  lemma {:induction false} SubstFreeVars(t: TypeMirror, s: Substitution)
    ensures FreeVars(Subst(t, s)) == MentionedBy(FreeVars(t), s)
    decreases t
  {
    match t
    case NullType =>
    case Primitive(_) =>
    case ClassType(c, args) => SubstAllFreeVars(args, s);
    case ArrayType(c) => SubstFreeVars(c, s);
    case Wildcard(w) => SubstFreeVars(w.bound, s);
    case Intersection(cs) => SubstAllFreeVars(cs, s);
    case Var(v) => MentionedBySingle(v, s);
  }

  lemma {:induction false} SubstAllFreeVars(ts: seq<TypeMirror>, s: Substitution)
    ensures FreeVarsAll(SubstAll(ts, s)) == MentionedBy(FreeVarsAll(ts), s)
    decreases ts
  {
    if ts != [] {
      SubstFreeVars(ts[0], s);
      SubstAllFreeVars(ts[1..], s);
      MentionedByUnion(FreeVars(ts[0]), FreeVarsAll(ts[1..]), s);
      assert SubstAll(ts, s)[1..] == SubstAll(ts[1..], s);
    }
  }

  // ---------------------------------------------------------------------------
  // Deriving new type variables
  // ---------------------------------------------------------------------------

  /**
   * Applies `s` to the bounds only, never to the variable itself. Gives back
   * `tv` itself when no bound changes; otherwise a new variable with the same
   * symbol or origin, which for a capture is a new instance, `newId`.
   */
  function SubstInBounds(tv: JTypeVar, s: Substitution, newId: CaptureId): (r: JTypeVar)
    ensures UpperBound(r) == Subst(UpperBound(tv), s)
    ensures LowerBound(r) == Subst(LowerBound(tv), s)
    ensures Symbol(r) == Symbol(tv) && CapturedOrigin(r) == CapturedOrigin(tv)
    ensures UpperBound(r) == UpperBound(tv) && LowerBound(r) == LowerBound(tv) ==> r == tv
    ensures IsCaptured(tv) && r != tv ==> r.id == newId
    ensures IsCaptured(tv) && r != tv && newId != tv.id ==> !Equals(r, tv)
    ensures !IsCaptured(tv) ==> Equals(r, tv)
  {
    match tv
    case Declared(sym, upper) =>
      var newUpper := Subst(upper, s);
      if newUpper == upper then tv else Declared(sym, newUpper)
    case Captured(id, origin, lower, upper) =>
      var newLower, newUpper := Subst(lower, s), Subst(upper, s);
      if newLower == lower && newUpper == upper then tv
      else Captured(newId, origin, newLower, newUpper)
  }

  /** A substitution that touches neither bound gives back the very same variable. */
  lemma SubstInBoundsNoOp(tv: JTypeVar, s: Substitution, newId: CaptureId)
    requires Fixes(s, UpperBound(tv)) && Fixes(s, LowerBound(tv))
    ensures SubstInBounds(tv, s, newId) == tv
    ensures Equals(SubstInBounds(tv, s, newId), tv)
  {
    SubstIdentity(UpperBound(tv), s);
    SubstIdentity(LowerBound(tv), s);
  }

  /**
   * An F-bounded parameter `T extends Comparable<T>`: substituting for T in
   * its bounds rewrites the mention of T inside the bound and leaves the
   * variable itself, with its symbol, in place.
   */
  lemma FBoundedSubstInBounds(sym: TypeParamSymbol, replacement: TypeMirror, newId: CaptureId)
    ensures var tv := Declared(sym, ClassType("java.lang.Comparable", [Var(TypeParam(sym))]));
            var s := (v: SubstVar) => if v == TypeParam(sym) then replacement else Var(v);
            SubstInBounds(tv, s, newId) == Declared(sym, ClassType("java.lang.Comparable", [replacement]))
  {
    var s := (v: SubstVar) => if v == TypeParam(sym) then replacement else Var(v);
    assert SubstAll([Var(TypeParam(sym))], s) == [replacement];
  }

  /**
   * A new capture variable of the same wildcard with the given bounds; an
   * UnsupportedOperation failure for a declared type parameter.
   */
  function CloneWithBounds(tv: JTypeVar, lower: TypeMirror, upper: TypeMirror, newId: CaptureId)
    : (r: Result<JTypeVar, TypeVarError>)
    ensures r.Failure? <==> !IsCaptured(tv)
    ensures r.Failure? ==> r.error == UnsupportedOperation
    ensures r.Success? ==> IsCaptured(r.value) && r.value.id == newId
    ensures r.Success? && newId != tv.id ==> !Equals(r.value, tv)
    ensures r.Success? ==> CapturedOrigin(r.value) == CapturedOrigin(tv)
    ensures r.Success? ==> LowerBound(r.value) == lower && UpperBound(r.value) == upper
  {
    match tv
    case Declared(_, _) => Failure(UnsupportedOperation)
    case Captured(_, origin, _, _) => Success(Captured(newId, origin, lower, upper))
  }

  /**
   * A new variable with the same symbol or capture origin whose upper bound
   * is `newUpper`; the lower bound is kept.
   */
  function WithUpperBound(tv: JTypeVar, newUpper: TypeMirror, newId: CaptureId): (r: JTypeVar)
    ensures UpperBound(r) == newUpper && LowerBound(r) == LowerBound(tv)
    ensures IsCaptured(r) == IsCaptured(tv)
    ensures Symbol(r) == Symbol(tv) && CapturedOrigin(r) == CapturedOrigin(tv)
    ensures !IsCaptured(tv) ==> Equals(r, tv) && Name(r) == Name(tv)
    ensures IsCaptured(tv) ==> r.id == newId
    ensures IsCaptured(tv) && newId != tv.id ==> !Equals(r, tv)
  {
    match tv
    case Declared(sym, _) => Declared(sym, newUpper)
    case Captured(_, origin, lower, _) => Captured(newId, origin, lower, newUpper)
  }

  // ---------------------------------------------------------------------------
  // Visiting and method lookup
  // ---------------------------------------------------------------------------

  /** A type visitor: a fallback for every kind of type, and the case for type variables. */
  datatype TypeVisitor<T, !P> = TypeVisitor(visit: (TypeMirror, P) -> T, visitTypeVar: (JTypeVar, P) -> T)

  function AcceptVisitor<T, P>(tv: JTypeVar, visitor: TypeVisitor<T, P>, p: P): T {
    visitor.visitTypeVar(tv, p)
  }

  /** Visiting a type variable calls `visitTypeVar` and no other case of the visitor. */
  lemma AcceptVisitorDispatch<T, P>(tv: JTypeVar, visitor: TypeVisitor<T, P>, p: P)
    ensures AcceptVisitor(tv, visitor, p) == visitor.visitTypeVar(tv, p)
    ensures forall fallback: (TypeMirror, P) -> T ::
      AcceptVisitor(tv, visitor.(visit := fallback), p) == AcceptVisitor(tv, visitor, p)
  {
  }

  /** The symbol of a method, and the signature of a method as seen on some type. */
  type MethodSymbol = string
  datatype MethodSig = MethodSig(symbol: MethodSymbol, declaringType: TypeMirror)

  /**
   * The methods of a type variable are those of its upper bound. Method
   * enumeration on other types is not part of this model; it is the
   * parameter `methodsOf`.
   */
  function StreamMethods(tv: JTypeVar, methodsOf: (TypeMirror, MethodSymbol -> bool) -> seq<MethodSig>,
                         prefilter: MethodSymbol -> bool): seq<MethodSig>
  {
    methodsOf(UpperBound(tv), prefilter)
  }

  /** Method lookup sees the upper bound only: variables with the same upper bound have the same methods. */
  lemma StreamMethodsByUpperBound(a: JTypeVar, b: JTypeVar,
                                  methodsOf: (TypeMirror, MethodSymbol -> bool) -> seq<MethodSig>,
                                  prefilter: MethodSymbol -> bool)
    requires UpperBound(a) == UpperBound(b)
    ensures StreamMethods(a, methodsOf, prefilter) == StreamMethods(b, methodsOf, prefilter)
    ensures StreamMethods(a, methodsOf, prefilter) == methodsOf(UpperBound(a), prefilter)
  {
  }

  /** After `WithUpperBound(tv, ub)`, method lookup is lookup on `ub`. */
  lemma StreamMethodsWithUpperBound(tv: JTypeVar, ub: TypeMirror, newId: CaptureId,
                                    methodsOf: (TypeMirror, MethodSymbol -> bool) -> seq<MethodSig>,
                                    prefilter: MethodSymbol -> bool)
    ensures StreamMethods(WithUpperBound(tv, ub, newId), methodsOf, prefilter) == methodsOf(ub, prefilter)
  {
  }
}
