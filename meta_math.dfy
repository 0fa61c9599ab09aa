/**
 * zen/meta/math.hpp: eq_, mult_ (with widen_), inc_, dec_ and fac_, and the
 * `value_type` / `value` members of integral constants they read.
 */
module MetaMath {
  import opened Wrappers
  import opened MetaTerm
  import opened MetaCommon
  import opened MetaLambda
  import opened MetaMaybe

  /**
   * `T::value_type` and `T::value` of a type that has both: the integral
   * constants, true_ and false_, and the predicates that derive from them.
   */
  function IntegralOf(t: Ty): (r: Result<(IntKind, int), Error>)
    ensures t.Const? ==> r == Ok((t.kind, t.value))
    ensures t == TrueT ==> r == Ok((BoolKind, 1))
    ensures t == FalseT ==> r == Ok((BoolKind, 0))
  {
    match t
    case Const(k, v) => Ok((k, v))
    case TrueT => Ok((BoolKind, 1))
    case FalseT => Ok((BoolKind, 0))
    case Inst(tm, args) =>
      (match tm
       case EqImpl => if |args| == 2 then Ok((BoolKind, if args[0] == args[1] then 1 else 0)) else Err(WrongArity)
       case IsNone => if |args| == 1 then Ok((BoolKind, if IsNoneOf(args[0]) then 1 else 0)) else Err(WrongArity)
       case IsTypeBinder => if |args| == 1 then Ok((BoolKind, if IsTypeBinderOf(args[0]) then 1 else 0)) else Err(WrongArity)
       case HasTypeBinder => if args == [] then Ok((BoolKind, 0)) else Err(NoMember("value_type"))
       case IsLambdaExpr =>
         if |args| != 1 then Err(WrongArity)
         else if args[0].Inst? && args[0].args != [] then Err(NoMember("value_type"))
         else Ok((BoolKind, 0))
       case _ => Err(NoMember("value")))
    case _ => Err(NoMember("value"))
  }

  /** `T::value` */
  function ValueOf(t: Ty): (r: Result<int, Error>)
    ensures IntegralOf(t).Ok? ==> r == Ok(IntegralOf(t).value.1)
  {
    if t.Inst? && t.tmpl.HasTypeBinder? && t.args != [] then
      Ok(if HasTypeBinderOf(t.args) then 1 else 0)
    else if t.Inst? && t.tmpl.IsLambdaExpr? && |t.args| == 1 && t.args[0].Inst? && t.args[0].args != [] then
      Ok(if HasTypeBinderOf(t.args[0].args) then 1 else 0)
    else
      var kv :- IntegralOf(t);
      Ok(kv.1)
  }

  /** `T::value` converted to a `bool` template argument (narrowing rejected). */
  function TruthValue(t: Ty): (r: Result<bool, Error>)
    ensures r.Ok? <==> ValueOf(t).Ok? && 0 <= ValueOf(t).value <= 1
    ensures r.Ok? ==> (r.value <==> ValueOf(t).value == 1)
  {
    var v :- ValueOf(t);
    if v == 0 then Ok(false) else if v == 1 then Ok(true) else Err(Narrowing)
  }

  /**
   * The value of a constant expression of value type k: std::size_t
   * arithmetic wraps modulo 2^64, std::ptrdiff_t overflow is not a constant
   * expression, and a bool parameter only takes 0 or 1.
   */
  function Arith(k: IntKind, v: int): (r: Result<int, Error>)
    ensures k == SizeKind ==> r == Ok(v % U64)
    ensures k == PtrDiffKind ==> r == (if PtrDiffMin <= v <= PtrDiffMax then Ok(v) else Err(Overflow))
    ensures k == BoolKind ==> r == (if 0 <= v <= 1 then Ok(v) else Err(Narrowing))
  {
    match k
    case SizeKind => Ok(v % U64)
    case PtrDiffKind => if PtrDiffMin <= v <= PtrDiffMax then Ok(v) else Err(Overflow)
    case BoolKind => if 0 <= v <= 1 then Ok(v) else Err(Narrowing)
  }

  /** eq_<T1, T2> */
  function EqT(a: Ty, b: Ty): Ty {
    Inst(EqImpl, [a, b])
  }

  /** mult_<T1, T2> */
  function MultT(a: Ty, b: Ty): Ty {
    Inst(MultImpl, [a, b])
  }

  /** inc_<T> and dec_<T> */
  function IncT(a: Ty): Ty {
    Inst(IncImpl, [a])
  }

  function DecT(a: Ty): Ty {
    Inst(DecImpl, [a])
  }

  /** `eq_impl_<T1, T2>::type`, inherited from true_ or false_. */
  function EqOf(a: Ty, b: Ty): (r: Ty)
    ensures ValueOf(r) == Ok(if a == b then 1 else 0)
  {
    Bool(a == b)
  }

  /**
   * `mult_impl_<T1, T2>::type`: only two integral constants have a product,
   * of value type widen_t<T1, T2>.
   */
  function MultOf(a: Ty, b: Ty): (r: Outcome)
    ensures !(a.Const? && b.Const?) ==> r == Err(MissingImplementation("mult_"))
    ensures a.Const? && b.Const? && a.kind != b.kind ==> r == Err(MissingImplementation("widen_"))
    ensures r.Ok? ==> a.Const? && b.Const? && r.value.Const? && r.value.kind == a.kind == b.kind
    ensures r.Ok? ==> Arith(a.kind, a.value * b.value) == Ok(r.value.value)
  {
    if a.Const? && b.Const? then
      var k :- WidenOf(Prim(a.kind), Prim(b.kind));
      var v :- Arith(a.kind, a.value * b.value);
      Ok(Const(k.kind, v))
    else
      Err(MissingImplementation("mult_"))
  }

  /** `inc_impl_<T>::type` for a T with value_type and value (ranges are in MetaRange). */
  function IncOf(a: Ty): (r: Outcome)
    ensures r.Ok? ==> IntegralOf(a).Ok? && r.value.Const? && r.value.kind == IntegralOf(a).value.0
    ensures r.Ok? ==> Arith(r.value.kind, IntegralOf(a).value.1 + 1) == Ok(r.value.value)
  {
    var kv :- IntegralOf(a);
    var v :- Arith(kv.0, kv.1 + 1);
    Ok(Const(kv.0, v))
  }

  /** `dec_impl_<T>::type` */
  function DecOf(a: Ty): (r: Outcome)
    ensures r.Ok? ==> IntegralOf(a).Ok? && r.value.Const? && r.value.kind == IntegralOf(a).value.0
    ensures r.Ok? ==> Arith(r.value.kind, IntegralOf(a).value.1 - 1) == Ok(r.value.value)
  {
    var kv :- IntegralOf(a);
    var v :- Arith(kv.0, kv.1 - 1);
    Ok(Const(kv.0, v))
  }

  /**
   * The body of fac_<N>:
   * cond_<case_<eq_<N, u0_>, u1_>, case_<eq_<N, u1_>, u1_>, else_<mult_<call_<fac_, dec_<N>>, N>>>.
   */
  function FacBody(n: Ty): (r: Ty)
    ensures r.Inst? && r.tmpl.Cond? && |r.args| == 3
    ensures forall k :: 0 <= k < 3 ==> r.args[k].Inst? && r.args[k].tmpl.Case? && |r.args[k].args| == 2
    ensures r.args[0].args == [EqT(n, U(0)), U(FacValue(0))] && r.args[1].args == [EqT(n, U(1)), U(FacValue(1))]
    ensures r.args[2].args[0] == TrueT
  {
    CondT([CaseT(EqT(n, U(0)), U(1)),
           CaseT(EqT(n, U(1)), U(1)),
           ElseT(MultT(CallT(Fac, [DecT(n)]), n))])
  }

  /** n!, unbounded. */
  function Factorial(n: nat): nat
  {
    if n <= 1 then 1 else Factorial(n - 1) * n
  }

  /**
   * The factorial in std::size_t arithmetic: every product wraps modulo
   * 2^64, so the result is n! reduced modulo 2^64.
   */
  function FacValue(n: nat): (r: nat)
    ensures r < U64
  {
    if n <= 1 then 1 else (FacValue(n - 1) * n) % U64
  }

  /** The wrapped products give n! modulo 2^64. */
  lemma {:induction false} FacValueIsFactorial(n: nat)
    ensures FacValue(n) == Factorial(n) % U64
  {
    if n > 1 {
      FacValueIsFactorial(n - 1);
      ProductModulo(Factorial(n - 1), n);
    }
  }

  /** Reducing a factor modulo 2^64 first does not change the product modulo 2^64. */
  lemma ProductModulo(a: nat, n: nat)
    ensures ((a % U64) * n) % U64 == (a * n) % U64
  {
    var q, r := a / U64, a % U64;
    assert a * n == (q * n) * U64 + r * n by {
      assert a == q * U64 + r;
    }
    MultipleVanishes(q * n, r * n);
  }

  lemma MultipleVanishes(k: int, x: int)
    ensures (k * U64 + x) % U64 == x % U64
  {
  }

  // Lemmas.

  /** bool_<B> has value B, true_ has value true and false_ has value false. */
  lemma BoolConstantValues(b: bool)
    ensures ValueOf(Bool(b)) == Ok(if b then 1 else 0)
    ensures ValueOf(TrueT) == Ok(1) && ValueOf(FalseT) == Ok(0)
  {
  }

  /** u_<I> carries the std::size_t value I, s_<D> the std::ptrdiff_t value D. */
  lemma SizedConstantValues(i: nat, d: int)
    ensures IntegralOf(U(i)) == Ok((SizeKind, i))
    ensures IntegralOf(S(d)) == Ok((PtrDiffKind, d))
  {
  }

  /** eq_ holds exactly for identical types, so u0_ and s0_ are not equal. */
  lemma EqIffIdentical(a: Ty, b: Ty)
    ensures TruthValue(EqOf(a, b)) == Ok(a == b)
    ensures TruthValue(EqOf(U(0), S(0))) == Ok(false)
  {
  }

  /** The product of two constants of one value type is N1 * N2 in that type. */
  lemma MultOfConstants(k: IntKind, n1: int, n2: int)
    requires Arith(k, n1 * n2).Ok?
    ensures MultOf(Const(k, n1), Const(k, n2)) == Ok(Const(k, Arith(k, n1 * n2).value))
  {
  }

  /** mult_t<u1_, u2_>::value == 2 */
  lemma MultExample()
    ensures MultOf(U(1), U(2)) == Ok(U(2))
  {
  }

  /** inc_ and dec_ keep the value type and add or subtract one. */
  lemma IncDecOfConstant(k: IntKind, v: int)
    requires Arith(k, v + 1).Ok? && Arith(k, v - 1).Ok?
    ensures IncOf(Const(k, v)) == Ok(Const(k, Arith(k, v + 1).value))
    ensures DecOf(Const(k, v)) == Ok(Const(k, Arith(k, v - 1).value))
  {
  }

  /** dec_ of an unsigned 0 wraps to the largest std::size_t. */
  lemma DecOfZeroWraps()
    ensures DecOf(U(0)) == Ok(U(U64 - 1))
  {
  }

  /** dec_ undoes inc_ on every std::size_t value, across the wrap. */
  lemma DecUndoesInc(i: nat)
    requires i < U64
    ensures IncOf(U(i)).Ok? && DecOf(IncOf(U(i)).value) == Ok(U(i))
  {
    if i + 1 == U64 {
      assert IncOf(U(i)) == Ok(U(0));
    } else {
      assert IncOf(U(i)) == Ok(U(i + 1));
    }
  }

  /** inc_ of true_ has no constant: bool cannot hold 2. */
  lemma IncOfTrueIsNarrowing()
    ensures IncOf(TrueT) == Err(Narrowing) && IncOf(FalseT) == Ok(Bool(true))
  {
  }
}
