/**
 * Programs written in the expression language and run through defun_t:
 * the recursive fac_ of zen/meta/math.hpp, the mutually recursive is_even_
 * and is_odd_ of zen/meta/eval_test.cc, and the cond_ terms that the
 * generic next_n_impl_ of zen/meta/iterator.hpp produces.
 *
 * The lemmas hold for every table that agrees with the library on the few
 * templates they use, so a proof about one program does not unfold the
 * whole table; each family ends in the statement about ZenMembers.
 */
module MetaDefun {
  import opened Wrappers
  import opened MetaTerm
  import opened MetaMaybe
  import opened MetaMath
  import opened MetaIterator
  import opened MetaEval

  /** eq_<u_<N>, u0_>, eq_<u_<N>, u1_> and dec_<u_<N>> have the members zen/meta/math.hpp defines. */
  ghost predicate CountRow(lib: Library, n: nat) {
    lib(EqImpl, [U(n), U(0)]) == Ok(EqOf(U(n), U(0)))
    && lib(EqImpl, [U(n), U(1)]) == Ok(EqOf(U(n), U(1)))
    && lib(DecImpl, [U(n)]) == DecOf(U(n))
  }

  /** mult_ has its member on the product fac_<u_<N>> takes. */
  ghost predicate ProductRow(lib: Library, n: nat) {
    n >= 2 ==> lib(MultImpl, [U(FacValue(n - 1)), U(n)]) == MultOf(U(FacValue(n - 1)), U(n))
  }

  /** The rows for every K up to N. */
  ghost predicate CountTable(lib: Library, n: nat)
    decreases n
  {
    CountRow(lib, n) && (n > 0 ==> CountTable(lib, n - 1))
  }

  ghost predicate ProductTable(lib: Library, n: nat)
    decreases n
  {
    ProductRow(lib, n) && (n > 0 ==> ProductTable(lib, n - 1))
  }

  lemma ZenCountRow(n: nat)
    ensures CountRow(ZenMembers, n)
  {
    assert StaticTypeMember(EqImpl, [U(n), U(0)]) == Ok(EqOf(U(n), U(0)));
    assert StaticTypeMember(EqImpl, [U(n), U(1)]) == Ok(EqOf(U(n), U(1)));
    assert StaticTypeMember(DecImpl, [U(n)]) == DecOf(U(n));
  }

  lemma ZenProductRow(n: nat)
    ensures ProductRow(ZenMembers, n)
  {
    if n >= 2 {
      var a := U(FacValue(n - 1));
      assert StaticTypeMember(MultImpl, [a, U(n)]) == MultOf(a, U(n));
    }
  }

  /** A table whose every row up to N holds has the table up to N. */
  lemma {:induction false} CountTableOfRows(lib: Library, n: nat)
    requires forall k: nat :: k <= n ==> CountRow(lib, k)
    ensures CountTable(lib, n)
    decreases n
  {
    if n > 0 {
      CountTableOfRows(lib, n - 1);
    }
  }

  lemma {:induction false} ProductTableOfRows(lib: Library, n: nat)
    requires forall k: nat :: k <= n ==> ProductRow(lib, k)
    ensures ProductTable(lib, n)
    decreases n
  {
    if n > 0 {
      ProductTableOfRows(lib, n - 1);
    }
  }

  /** The library's table has every row. */
  lemma ZenTables(n: nat)
    ensures CountTable(ZenMembers, n) && ProductTable(ZenMembers, n)
  {
    forall k: nat | k <= n
      ensures CountRow(ZenMembers, k) && ProductRow(ZenMembers, k)
    {
      ZenCountRow(k);
      ZenProductRow(k);
    }
    CountTableOfRows(ZenMembers, n);
    ProductTableOfRows(ZenMembers, n);
  }

  // Evaluation steps shared by the programs below.

  /** eq_<A, B> over two values is bool_<A == B>. */
  lemma EvalEqOfValues(lib: Library, fuel: nat, a: Ty, b: Ty)
    requires lib(EqImpl, [a, b]) == Ok(EqOf(a, b)) && fuel >= 2 && IsLeaf(a) && IsLeaf(b)
    ensures Eval(lib, fuel, EqT(a, b)) == Ok(Bool(a == b))
    ensures TruthValue(Bool(a == b)) == Ok(a == b)
  {
    EvalAllLeaves(lib, fuel - 1, [a, b]);
    EvalTabled(lib, fuel, EqImpl, [a, b], [a, b]);
  }

  /** dec_<u_<N>> is u_<N - 1> for N >= 1. */
  lemma EvalDecOfSize(lib: Library, fuel: nat, n: nat)
    requires lib(DecImpl, [U(n)]) == DecOf(U(n)) && fuel >= 2 && 1 <= n < U64
    ensures Eval(lib, fuel, DecT(U(n))) == Ok(U(n - 1))
    ensures EvalAll(lib, fuel, [DecT(U(n))]) == Ok([U(n - 1)])
  {
    EvalAllLeaves(lib, fuel - 1, [U(n)]);
    assert DecOf(U(n)) == Ok(U(n - 1));
    EvalTabled(lib, fuel, DecImpl, [U(n)], [U(n)]);
    EvalSingle(lib, fuel, DecT(U(n)));
  }

  /**
   * call_<F, A> whose argument reduces to V, where F<V>::type is the value R,
   * evaluates to R.
   */
  lemma EvalCallOfOne(lib: Library, fuel: nat, tm: Tmpl, a: Ty, v: Ty, r: Ty)
    requires fuel >= 3 && !Special(tm) && EvalAll(lib, fuel - 1, [a]) == Ok([v])
    requires TypeMember(lib, fuel - 1 - 1, tm, [v]) == Ok(r) && IsLeaf(r)
    ensures Eval(lib, fuel, CallT(tm, [a])) == Ok(r)
  {
    ApplyReducesArguments(lib, fuel, TemplateRef(tm), [a], [v]);
    SingleValueIsLeaf(lib, fuel - 1, a, v);
    InstOfLeaf(lib, fuel - 1, tm, v, r);
  }

  /** The one value a single argument reduces to is a value. */
  lemma SingleValueIsLeaf(lib: Library, fuel: nat, a: Ty, v: Ty)
    requires EvalAll(lib, fuel, [a]) == Ok([v])
    ensures IsLeaf(v)
  {
    assert AllLeaves(EvalAll(lib, fuel, [a]).value);
    assert [v][0] == v;
  }

  /** tm<V> over a value V evaluates to its member, once that is a value. */
  lemma InstOfLeaf(lib: Library, fuel: nat, tm: Tmpl, v: Ty, r: Ty)
    requires fuel >= 2 && !Special(tm) && IsLeaf(v)
    requires TypeMember(lib, fuel - 1, tm, [v]) == Ok(r) && IsLeaf(r)
    ensures Eval(lib, fuel, Inst(tm, [v])) == Ok(r)
  {
    assert Eval(lib, fuel, Inst(tm, [v])) == Eval(lib, fuel - 1, r) by {
      EvalAllLeaves(lib, fuel - 1, [v]);
      GenericReducesArguments(lib, fuel, tm, [v], [v]);
    }
    EvalLeaf(lib, fuel - 1, r);
  }

  /** if_<eq_<A, B>, T, E> over two values takes T exactly when A and B are the same type. */
  lemma IfOnEq(lib: Library, fuel: nat, a: Ty, b: Ty, then_: Ty, else_: Ty)
    requires lib(EqImpl, [a, b]) == Ok(EqOf(a, b)) && fuel >= 3 && IsLeaf(a) && IsLeaf(b)
    ensures Eval(lib, fuel, IfT(EqT(a, b), then_, else_)) == Eval(lib, fuel - 1, if a == b then then_ else else_)
  {
    EvalEqOfValues(lib, fuel - 1, a, b);
    if a == b {
      IfTakesThen(lib, fuel, EqT(a, b), then_, else_);
    } else {
      IfTakesElse(lib, fuel, EqT(a, b), then_, else_);
    }
  }

  // fac_

  /** compile_t of the body of fac_<N>: the if_ chain that defun_t evaluates. */
  function FacChain(n: Ty): Ty {
    IfT(EqT(n, U(0)), U(1),
      IfT(EqT(n, U(1)), U(1),
        IfT(TrueT, MultT(CallT(Fac, [DecT(n)]), n), FailT)))
  }

  lemma FacCompiles(n: Ty)
    ensures Compile(FacBody(n)) == Ok(FacChain(n))
  {
    var pairs := [(EqT(n, U(0)), U(1)), (EqT(n, U(1)), U(1)), (TrueT, MultT(CallT(Fac, [DecT(n)]), n))];
    assert Cases(pairs) == FacBody(n).args;
    CompileCondChain(pairs);
    assert IfChain(pairs[2..], FailT) == IfT(TrueT, MultT(CallT(Fac, [DecT(n)]), n), FailT);
    assert IfChain(pairs[1..], FailT) == IfT(EqT(n, U(1)), U(1), IfChain(pairs[2..], FailT));
  }

  /** The fuel enough for fac_<u_<N>>. */
  function FacFuel(n: nat): nat {
    8 * n + 8
  }

  /**
   * defun_t of the body of fac_<u_<N>>: 1 for N = 0 and N = 1, and otherwise
   * the else_ branch, mult_<call_<fac_, dec_<N>>, N>.
   */
  lemma FacDefun(lib: Library, fuel: nat, n: Ty)
    requires fuel >= 1
    ensures TypeMember(lib, fuel, Fac, [n]) == Eval(lib, fuel - 1, FacChain(n))
  {
    FacCompiles(n);
    DefunCompilesThenEvaluates(lib, fuel, FacBody(n));
  }

  lemma FacUnfolds(lib: Library, fuel: nat, n: nat)
    requires CountRow(lib, n) && n < U64 && fuel >= 6
    ensures n <= 1 ==> TypeMember(lib, fuel, Fac, [U(n)]) == Ok(U(1))
    ensures n >= 2 ==> TypeMember(lib, fuel, Fac, [U(n)]) == Eval(lib, fuel - 4, MultT(CallT(Fac, [DecT(U(n))]), U(n)))
  {
    var f1 := fuel - 1;
    var f2 := f1 - 1;
    var f3 := f2 - 1;
    var f4 := f3 - 1;
    assert f4 == fuel - 4;
    var product := MultT(CallT(Fac, [DecT(U(n))]), U(n));
    var last := IfT(TrueT, product, FailT);
    var rest := IfT(EqT(U(n), U(1)), U(1), last);
    FacDefun(lib, fuel, U(n));
    IfOnEq(lib, f1, U(n), U(0), U(1), rest);
    if n == 0 {
      EvalLeaf(lib, f2, U(1));
    } else {
      IfOnEq(lib, f2, U(n), U(1), U(1), last);
      if n == 1 {
        EvalLeaf(lib, f3, U(1));
      } else {
        IfTakesThen(lib, f3, TrueT, product, FailT);
      }
    }
  }

  /** The else_ branch of fac_<u_<N>>, given fac_<u_<N - 1>>, is u_<N!>. */
  lemma FacStep(lib: Library, fuel: nat, n: nat)
    requires CountRow(lib, n) && ProductRow(lib, n) && 2 <= n < U64 && fuel >= 4
    requires TypeMember(lib, fuel - 3, Fac, [U(n - 1)]) == Ok(U(FacValue(n - 1)))
    ensures Eval(lib, fuel, MultT(CallT(Fac, [DecT(U(n))]), U(n))) == Ok(U(FacValue(n)))
  {
    var f1 := fuel - 1;
    var f2 := f1 - 1;
    var f3 := f2 - 1;
    assert f3 == fuel - 3;
    var previous := U(FacValue(n - 1));
    var call := CallT(Fac, [DecT(U(n))]);
    EvalDecOfSize(lib, f2, n);
    EvalCallOfOne(lib, f1, Fac, DecT(U(n)), U(n - 1), previous);
    EvalPair(lib, f1, call, U(n));
    assert MultOf(previous, U(n)) == Ok(U(FacValue(n)));
    EvalTabled(lib, fuel, MultImpl, [call, U(n)], [previous, U(n)]);
  }

  /** fac_<u_<N>> from fac_<u_<N - 1>>. */
  lemma FacFromPrevious(lib: Library, fuel: nat, n: nat)
    requires CountRow(lib, n) && ProductRow(lib, n) && 2 <= n < U64 && fuel >= 10
    requires TypeMember(lib, fuel - 4 - 3, Fac, [U(n - 1)]) == Ok(U(FacValue(n - 1)))
    ensures TypeMember(lib, fuel, Fac, [U(n)]) == Ok(U(FacValue(n)))
  {
    var h := fuel - 4;
    FacStep(lib, h, n);
    FacUnfolds(lib, fuel, n);
  }

  /**
   * fac_<u_<N>>::type is u_<N!>, the factorial in std::size_t arithmetic:
   * 1 for 0 and 1, and fac_<N - 1> * N otherwise.
   */
  lemma {:induction false} FacMember(lib: Library, fuel: nat, n: nat)
    requires CountTable(lib, n) && ProductTable(lib, n) && n < U64 && fuel >= FacFuel(n)
    ensures TypeMember(lib, fuel, Fac, [U(n)]) == Ok(U(FacValue(n)))
    decreases n
  {
    if n >= 2 {
      assert TypeMember(lib, fuel - 4 - 3, Fac, [U(n - 1)]) == Ok(U(FacValue(n - 1))) by {
        FacMember(lib, fuel - 4 - 3, n - 1);
      }
      assert CountRow(lib, n) && ProductRow(lib, n);
      FacFromPrevious(lib, fuel, n);
    } else {
      FacUnfolds(lib, fuel, n);
    }
  }

  /** The same for the library's own table. */
  lemma ZenFac(fuel: nat, n: nat)
    requires n < U64 && fuel >= FacFuel(n)
    ensures TypeMember(ZenMembers, fuel, Fac, [U(n)]) == Ok(U(FacValue(n)))
  {
    ZenTables(n);
    FacMember(ZenMembers, fuel, n);
  }

  /** fac_t<u2_>::value == 2 and fac_t<u3_>::value == 6. */
  lemma FacExamples(fuel: nat)
    requires fuel >= FacFuel(3)
    ensures TypeMember(ZenMembers, fuel, Fac, [U(2)]) == Ok(U(2))
    ensures TypeMember(ZenMembers, fuel, Fac, [U(3)]) == Ok(U(6))
  {
    assert FacValue(2) == 2;
    assert FacValue(3) == 6;
    ZenFac(fuel, 2);
    ZenFac(fuel, 3);
  }

  // is_even_ and is_odd_

  /** The fuel enough for is_even_<u_<N>> and is_odd_<u_<N>>. */
  function ParityFuel(n: nat): nat {
    4 * n + 4
  }

  /** true_ or false_ */
  function TruthType(b: bool): Ty {
    if b then TrueT else FalseT
  }

  /** An if_ over cond_-free terms is cond_-free. */
  lemma CondFreeIf(test: Ty, then_: Ty, else_: Ty)
    requires CondFree(test) && CondFree(then_) && CondFree(else_)
    ensures CondFree(IfT(test, then_, else_))
  {
    var args := [test, then_, else_];
    assert args[0] == test && args[1] == then_ && args[2] == else_;
  }

  lemma ParityBodiesCompile(n: Ty)
    requires IsLeaf(n)
    ensures Compile(IsEvenBody(n)) == Ok(IsEvenBody(n))
    ensures Compile(IsOddBody(n)) == Ok(IsOddBody(n))
  {
    var test := EqT(n, U(0));
    assert test.args[0] == n && test.args[1] == U(0);
    assert CondFree(test);
    var dec := DecT(n);
    assert dec.args[0] == n;
    assert CondFree(dec);
    var odd := Inst(IsOdd, [dec]);
    var even := Inst(IsEven, [dec]);
    assert odd.args[0] == dec && even.args[0] == dec;
    assert CondFree(odd) && CondFree(even);
    CondFreeIf(test, TrueT, odd);
    CondFreeIf(test, FalseT, even);
    CompileCondFree(IsEvenBody(n));
    CompileCondFree(IsOddBody(n));
  }

  /** is_even_ or is_odd_ */
  function Parity(even: bool): Tmpl {
    if even then IsEven else IsOdd
  }

  /**
   * defun_t of the body of is_even_<u_<N>> (or is_odd_): true_ (false_) for
   * N = 0, and otherwise is_odd_<dec_<N>> (is_even_<dec_<N>>); the if_ never
   * evaluates the branch it does not take.
   */
  lemma ParityDefun(lib: Library, fuel: nat, n: nat, even: bool)
    requires fuel >= 1
    ensures TypeMember(lib, fuel, Parity(even), [U(n)])
      == Eval(lib, fuel - 1, IfT(EqT(U(n), U(0)), TruthType(even), Inst(Parity(!even), [DecT(U(n))])))
  {
    var body := if even then IsEvenBody(U(n)) else IsOddBody(U(n));
    assert body == IfT(EqT(U(n), U(0)), TruthType(even), Inst(Parity(!even), [DecT(U(n))]));
    assert TypeMember(lib, fuel, Parity(even), [U(n)]) == Defun(lib, fuel, body);
    ParityBodiesCompile(U(n));
    DefunCompilesThenEvaluates(lib, fuel, body);
  }

  lemma ParityUnfolds(lib: Library, fuel: nat, n: nat, even: bool)
    requires CountRow(lib, n) && n < U64 && fuel >= 4
    ensures n == 0 ==> TypeMember(lib, fuel, Parity(even), [U(n)]) == Ok(TruthType(even))
    ensures n > 0 ==> TypeMember(lib, fuel, Parity(even), [U(n)]) == Eval(lib, fuel - 2, Inst(Parity(!even), [DecT(U(n))]))
  {
    var f1 := fuel - 1;
    var f2 := f1 - 1;
    assert f2 == fuel - 2;
    IfOnEq(lib, f1, U(n), U(0), TruthType(even), Inst(Parity(!even), [DecT(U(n))]));
    ParityDefun(lib, fuel, n, even);
    if n == 0 {
      EvalLeaf(lib, f2, TruthType(even));
    }
  }

  /** tm<dec_<u_<N>>> evaluates to tm<u_<N - 1>>::type once that is a value. */
  lemma EvalOfPredecessor(lib: Library, fuel: nat, n: nat, tm: Tmpl, r: Ty)
    requires CountRow(lib, n) && 1 <= n < U64 && fuel >= 3 && !Special(tm)
    requires TypeMember(lib, fuel - 1, tm, [U(n - 1)]) == Ok(r) && IsLeaf(r)
    ensures Eval(lib, fuel, Inst(tm, [DecT(U(n))])) == Ok(r)
  {
    EvalDecOfSize(lib, fuel - 1, n);
    GenericReducesArguments(lib, fuel, tm, [DecT(U(n))], [U(n - 1)]);
  }

  /** is_even_<u0_> is true_ and is_odd_<u0_> is false_. */
  lemma ParityBase(lib: Library, fuel: nat, n: nat, even: bool)
    requires CountRow(lib, n) && n == 0 && fuel >= 4
    ensures TypeMember(lib, fuel, Parity(even), [U(n)]) == Ok(TruthType((n % 2 == 0) == even))
  {
    assert TruthType((n % 2 == 0) == even) == TruthType(even);
    ParityUnfolds(lib, fuel, n, even);
  }

  /** is_even_<u_<N>> is is_odd_<u_<N - 1>>, and the other way round. */
  lemma ParityStep(lib: Library, fuel: nat, n: nat, even: bool)
    requires CountRow(lib, n) && 1 <= n < U64 && fuel >= 5
    requires TypeMember(lib, fuel - 2 - 1, Parity(!even), [U(n - 1)]) == Ok(TruthType(((n - 1) % 2 == 0) == !even))
    ensures TypeMember(lib, fuel, Parity(even), [U(n)]) == Ok(TruthType((n % 2 == 0) == even))
  {
    var h := fuel - 2;
    var r := TruthType((n % 2 == 0) == even);
    assert Eval(lib, h, Inst(Parity(!even), [DecT(U(n))])) == Ok(r) by {
      assert (((n - 1) % 2 == 0) == !even) == ((n % 2 == 0) == even);
      EvalOfPredecessor(lib, h, n, Parity(!even), r);
    }
    assert TypeMember(lib, fuel, Parity(even), [U(n)]) == Eval(lib, h, Inst(Parity(!even), [DecT(U(n))])) by {
      ParityUnfolds(lib, fuel, n, even);
    }
  }

  /**
   * is_even_<u_<N>>::type is true_ exactly when N is even and is_odd_<u_<N>>::type
   * exactly when N is odd, so the mutual recursion stops at N = 0.
   */
  lemma {:induction false} ParityMember(lib: Library, fuel: nat, n: nat, even: bool)
    requires CountTable(lib, n) && n < U64 && fuel >= ParityFuel(n)
    ensures TypeMember(lib, fuel, Parity(even), [U(n)]) == Ok(TruthType((n % 2 == 0) == even))
    decreases n
  {
    if n > 0 {
      assert TypeMember(lib, fuel - 2 - 1, Parity(!even), [U(n - 1)]) == Ok(TruthType(((n - 1) % 2 == 0) == !even)) by {
        ParityMember(lib, fuel - 2 - 1, n - 1, !even);
      }
      assert CountRow(lib, n);
      ParityStep(lib, fuel, n, even);
    } else {
      ParityBase(lib, fuel, n, even);
    }
  }

  /** The same for the library's own table. */
  lemma ZenParity(fuel: nat, n: nat, even: bool)
    requires n < U64 && fuel >= ParityFuel(n)
    ensures TypeMember(ZenMembers, fuel, Parity(even), [U(n)]) == Ok(TruthType((n % 2 == 0) == even))
  {
    ZenTables(n);
    ParityMember(ZenMembers, fuel, n, even);
  }

  /** The assertions of the mutual recursion test, for N = 0..3. */
  lemma ParityExamples(fuel: nat)
    requires fuel >= ParityFuel(3)
    ensures TypeMember(ZenMembers, fuel, IsOdd, [U(0)]) == Ok(FalseT)
    ensures TypeMember(ZenMembers, fuel, IsOdd, [U(1)]) == Ok(TrueT)
    ensures TypeMember(ZenMembers, fuel, IsOdd, [U(2)]) == Ok(FalseT)
    ensures TypeMember(ZenMembers, fuel, IsOdd, [U(3)]) == Ok(TrueT)
    ensures TypeMember(ZenMembers, fuel, IsEven, [U(0)]) == Ok(TrueT)
    ensures TypeMember(ZenMembers, fuel, IsEven, [U(1)]) == Ok(FalseT)
    ensures TypeMember(ZenMembers, fuel, IsEven, [U(2)]) == Ok(TrueT)
    ensures TypeMember(ZenMembers, fuel, IsEven, [U(3)]) == Ok(FalseT)
  {
    ZenParity(fuel, 0, false);
    ZenParity(fuel, 1, false);
    ZenParity(fuel, 2, false);
    ZenParity(fuel, 3, false);
    ZenParity(fuel, 0, true);
    ZenParity(fuel, 1, true);
    ZenParity(fuel, 2, true);
    ZenParity(fuel, 3, true);
  }

  /** eval_t<if_<bool_<1 == 1>, u1_, u2_>>::value == 1 */
  lemma IfExample(lib: Library, fuel: nat)
    requires fuel >= 2
    ensures Eval(lib, fuel, IfT(Bool(true), U(1), U(2))) == Ok(U(1))
  {
    IfTakesThen(lib, fuel, Bool(true), U(1), U(2));
  }

  // The generic next_n_impl_

  /** The cases of `next_n_impl_<N, IterT>::type` for a count of value v. */
  function NextNPairs(v: int, n: Ty, it: Ty): seq<(Ty, Ty)> {
    [(Bool(v == 0), it), (Inst(IsNone, [it]), NoneT), (TrueT, NextNT(IncT(n), NextT(it)))]
  }

  lemma NextNIsCases(n: Ty, it: Ty)
    requires !it.ListIter? && ValueOf(n).Ok?
    ensures NextNOf(n, it) == Ok(CondT(Cases(NextNPairs(ValueOf(n).value, n, it))))
  {
    var pairs := NextNPairs(ValueOf(n).value, n, it);
    assert Cases(pairs) == NextNOf(n, it).value.args;
  }

  /** case_ has no `type` member of its own in the library's table. */
  lemma ZenCase(a: Ty, b: Ty)
    ensures ZenMembers(Case, [a, b]) == Err(NoMember("type"))
  {
  }

  /** A cond_ whose first case_ is over two values is not evaluable. */
  lemma EvalCondOfCase(lib: Library, fuel: nat, a: Ty, b: Ty, rest: seq<Ty>)
    requires fuel >= 3 && IsLeaf(a) && IsLeaf(b) && lib(Case, [a, b]) == Err(NoMember("type"))
    ensures Eval(lib, fuel, CondT([CaseT(a, b)] + rest)) == Err(NoMember("type"))
  {
    var cases := [CaseT(a, b)] + rest;
    EvalAllLeaves(lib, fuel - 2, [a, b]);
    GenericReducesArguments(lib, fuel - 1, Case, [a, b], [a, b]);
    assert cases[0] == CaseT(a, b);
    assert EvalAll(lib, fuel - 1, cases) == Err(NoMember("type"));
    EvalArgumentFails(lib, fuel, Cond, cases);
  }

  /**
   * The member of the generic next_n_impl_ is an uncompiled cond_, which is
   * not itself evaluable: eval_ reaches case_, which has no `type`.
   */
  lemma GenericNextNNeedsCompile(fuel: nat, n: Ty, it: Ty)
    requires fuel >= 3 && IsLeaf(it) && !it.ListIter? && ValueOf(n).Ok?
    ensures Eval(ZenMembers, fuel, NextNOf(n, it).value) == Err(NoMember("type"))
  {
    ZenCase(Bool(ValueOf(n).value == 0), it);
    GenericNextNNeedsCompileIn(ZenMembers, fuel, n, it);
  }

  /** The same in any table where case_ over two values has no member. */
  lemma GenericNextNNeedsCompileIn(lib: Library, fuel: nat, n: Ty, it: Ty)
    requires fuel >= 3 && IsLeaf(it) && !it.ListIter? && ValueOf(n).Ok?
    requires lib(Case, [Bool(ValueOf(n).value == 0), it]) == Err(NoMember("type"))
    ensures Eval(lib, fuel, NextNOf(n, it).value) == Err(NoMember("type"))
  {
    var v := ValueOf(n).value;
    var cases := NextNOf(n, it).value.args;
    assert NextNOf(n, it).value == CondT([CaseT(Bool(v == 0), it)] + cases[1..]) by {
      GenericNextNShape(n, it);
      assert cases == [CaseT(Bool(v == 0), it)] + cases[1..];
    }
    EvalCondOfCase(lib, fuel, Bool(v == 0), it, cases[1..]);
  }

  /**
   * Compiled and evaluated, the generic next_n by 0 is the iterator itself,
   * and next_n of none_ by any count is none_.
   */
  lemma GenericNextNCompiled(lib: Library, fuel: nat, n: Ty, it: Ty)
    requires fuel >= 4 && IsLeaf(it) && !it.ListIter? && ValueOf(n).Ok?
    requires lib(IsNone, [it]) == Ok(Bool(IsNoneOf(it)))
    requires ValueOf(n).value == 0 || it == NoneT
    ensures Compile(NextNOf(n, it).value).Ok?
    ensures Eval(lib, fuel, Compile(NextNOf(n, it).value).value) == Ok(it)
  {
    var v := ValueOf(n).value;
    var pairs := NextNPairs(v, n, it);
    NextNIsCases(n, it);
    CompileCondChain(pairs);
    var chain := IfChain(pairs, FailT);
    assert Compile(NextNOf(n, it).value).value == chain;
    assert Eval(lib, fuel, chain) == Ok(it) by {
      var rest := IfChain(pairs[1..], FailT);
      assert chain == IfT(Bool(v == 0), it, rest);
      if v == 0 {
        IfTakesThen(lib, fuel, Bool(v == 0), it, rest);
      } else {
        IfTakesElse(lib, fuel, Bool(v == 0), it, rest);
        assert rest == IfT(Inst(IsNone, [it]), NoneT, IfChain(pairs[2..], FailT));
        EvalAllLeaves(lib, fuel - 3, [it]);
        EvalTabled(lib, fuel - 2, IsNone, [it], [it]);
        IfTakesThen(lib, fuel - 1, Inst(IsNone, [it]), NoneT, IfChain(pairs[2..], FailT));
      }
    }
  }

  /** The library's table gives is_none_ its member. */
  lemma ZenIsNone(it: Ty)
    ensures ZenMembers(IsNone, [it]) == Ok(Bool(IsNoneOf(it)))
  {
  }
}
