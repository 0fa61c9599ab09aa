/**
 * zen/meta/eval.hpp: the compiler `compile_`, which rewrites cond_ chains
 * into nested if_ terms, and the evaluator `eval_`.
 *
 * `eval_` is the identity on leaves, lazy on if_, transparent on lambda_,
 * applies `Fn::apply` after reducing the argument list of apply_, rejects
 * fail_helper_, and on every other template instance reduces the arguments,
 * takes `::type` of the instance and evaluates that again.  A C++ compiler
 * stops on a recursion depth limit; the model takes an explicit fuel bound
 * and answers OutOfFuel when it runs out.  The environment parameter of
 * `eval_` is never read and is not modelled.
 */
module MetaEval {
  import opened Wrappers
  import opened MetaTerm
  import opened MetaCommon
  import opened MetaLambda
  import opened MetaMaybe
  import opened MetaMath
  import opened MetaIterator
  import opened MetaRange

  // compile_

  /**
   * `compile_<T>::type`: a cond_ goes through compile_cond_helper_, any other
   * template instance has each argument compiled, anything else is itself.
   * Compiling keeps the template of every instance but cond_, and the only
   * way it fails is a cond_ element that is not a case_.
   */
  function Compile(t: Ty): (r: Outcome)
    ensures !t.Inst? ==> r == Ok(t)
    ensures r.Ok? && t.Inst? && !t.tmpl.Cond? ==> r.value.Inst? && r.value.tmpl == t.tmpl && |r.value.args| == |t.args|
    ensures r.Err? ==> r.error == NoMember("test_type")
    decreases t
  {
    match t
    case Inst(tm, args) =>
      if tm.Cond? then CompileCond(args)
      else
        var compiled :- CompileAll(args);
        Ok(Inst(tm, compiled))
    case _ => Ok(t)
  }

  function CompileAll(ts: seq<Ty>): (r: Result<seq<Ty>, Error>)
    ensures r.Ok? ==> |r.value| == |ts|
    ensures r.Err? ==> r.error == NoMember("test_type")
    decreases ts
  {
    if ts == [] then Ok([])
    else
      var head :- Compile(ts[0]);
      var tail :- CompileAll(ts[1..]);
      Ok([head] + tail)
  }

  /** compile_t<Ts>... compiles each argument in place, and fails when one of them fails. */
  lemma {:induction false} CompileAllElementwise(ts: seq<Ty>)
    ensures CompileAll(ts).Ok? ==> forall i :: 0 <= i < |ts| ==> Compile(ts[i]) == Ok(CompileAll(ts).value[i])
    ensures CompileAll(ts).Err? ==> exists i :: 0 <= i < |ts| && Compile(ts[i]).Err?
    decreases |ts|
  {
    if ts != [] {
      CompileAllElementwise(ts[1..]);
      assert forall i :: 1 <= i < |ts| ==> ts[i] == ts[1..][i - 1];
      if Compile(ts[0]).Ok? && CompileAll(ts[1..]).Err? {
        var i :| 0 <= i < |ts[1..]| && Compile(ts[1..][i]).Err?;
        assert Compile(ts[i + 1]).Err?;
      }
    }
  }

  /**
   * `compile_cond_helper_<CaseTs...>::type`: fail_ for no case, otherwise
   * if_<test_type, then_type, compiled rest>.  Only case_ has the members
   * test_type and then_type; both are copied as they are.
   */
  function CompileCond(cases: seq<Ty>): (r: Outcome)
    ensures r.Ok? <==> forall i :: 0 <= i < |cases| ==> IsCase(cases[i])
    ensures r.Err? ==> r.error == NoMember("test_type")
    ensures r.Ok? ==> r.value.Inst? && r.value.tmpl == (if cases == [] then FailHelper else If)
    decreases cases
  {
    if cases == [] then Ok(FailT)
    else if IsCase(cases[0]) then
      assert forall i :: 1 <= i < |cases| ==> cases[i] == cases[1..][i - 1];
      var rest :- CompileCond(cases[1..]);
      Ok(IfT(cases[0].args[0], cases[0].args[1], rest))
    else
      Err(NoMember("test_type"))
  }

  /** A case_<Test, Then>, the only element compile_cond_helper_ accepts. */
  predicate IsCase(c: Ty) {
    c.Inst? && c.tmpl.Case? && |c.args| == 2
  }

  // eval_

  /**
   * The `::type` members of the templates that are not defined through
   * defun_t.  eval_ itself works over whatever templates are in scope, so the
   * evaluator takes this table as a parameter; ZenMembers is the one the
   * library defines.
   */
  type Library = (Tmpl, seq<Ty>) -> Outcome

  /** The specialisations of eval_ that take precedence over the generic one. */
  predicate Special(tm: Tmpl) {
    tm.If? || tm.Lambda? || tm.Apply? || tm.FailHelper?
  }

  /** Only apply_<Fn, list_<Ts...>> has its own evaluator; apply_<Fn, X> for another X is generic. */
  predicate Applies(args: seq<Ty>) {
    |args| == 2 && args[1].Inst? && args[1].tmpl.Tuple?
  }

  /** `eval_t<T>`; every result is a leaf. */
  function Eval(lib: Library, fuel: nat, t: Ty): (r: Outcome)
    ensures r.Ok? ==> IsLeaf(r.value)
    decreases fuel, 0, 0
  {
    if fuel == 0 then Err(OutOfFuel)
    else
      match t
      case Inst(tm, args) => EvalInst(lib, fuel - 1, tm, args)
      case _ => Ok(t)
  }

  /** The specialisation of eval_ that a template instance selects. */
  function EvalInst(lib: Library, fuel: nat, tm: Tmpl, args: seq<Ty>): (r: Outcome)
    ensures r.Ok? ==> IsLeaf(r.value)
    decreases fuel, 4, 0
  {
    if tm.If? then EvalIf(lib, fuel, args)
    else if tm.Lambda? then
      if |args| != 1 then Err(WrongArity) else Eval(lib, fuel, args[0])
    else if tm.Apply? && Applies(args) then EvalApply(lib, fuel, args[0], args[1].args)
    else if tm.FailHelper? then EvalFail(args)
    else EvalGeneric(lib, fuel, tm, args)
  }

  /** `eval_<if_<TestT, ThenT, ElseT>>`: the test, then one branch. */
  function EvalIf(lib: Library, fuel: nat, args: seq<Ty>): (r: Outcome)
    ensures r.Ok? ==> IsLeaf(r.value)
    decreases fuel, 3, 0
  {
    if |args| != 3 then Err(WrongArity)
    else
      var test :- Eval(lib, fuel, args[0]);
      var b :- TruthValue(test);
      Eval(lib, fuel, if b then args[1] else args[2])
  }

  /** `eval_<apply_<FnT, list_<ArgTs...>>>` */
  function EvalApply(lib: Library, fuel: nat, fn: Ty, argList: seq<Ty>): (r: Outcome)
    ensures r.Ok? ==> IsLeaf(r.value)
    decreases fuel, 3, 0
  {
    var evaluated :- EvalAll(lib, fuel, argList);
    var applied :- ApplyMember(fn, evaluated);
    Eval(lib, fuel, applied)
  }

  /**
   * `eval_<fail_helper_<T>>`: the assertion `!T::value`, and no `type`
   * member: it never has a value, and the assertion trips exactly when
   * T::value is non-zero.
   */
  function EvalFail(args: seq<Ty>): (r: Outcome)
    ensures r.Err?
    ensures |args| == 1 && ValueOf(args[0]).Ok? ==> (r == Err(FailedToEvaluate) <==> ValueOf(args[0]).value != 0)
  {
    if |args| != 1 then Err(WrongArity)
    else
      var v :- ValueOf(args[0]);
      if v != 0 then Err(FailedToEvaluate) else Err(NoMember("type"))
  }

  /** `eval_<T<Ts...>>`: eval_t<typename T<eval_t<Ts>...>::type>. */
  function EvalGeneric(lib: Library, fuel: nat, tm: Tmpl, args: seq<Ty>): (r: Outcome)
    ensures r.Ok? ==> IsLeaf(r.value)
    decreases fuel, 3, 0
  {
    var evaluated :- EvalAll(lib, fuel, args);
    var member :- TypeMember(lib, fuel, tm, evaluated);
    Eval(lib, fuel, member)
  }

  /** `eval_t<Ts>...`, left to right. */
  function EvalAll(lib: Library, fuel: nat, ts: seq<Ty>): (r: Result<seq<Ty>, Error>)
    ensures r.Ok? ==> |r.value| == |ts| && AllLeaves(r.value)
    decreases fuel, 1, |ts|
  {
    if ts == [] then Ok([])
    else
      var head :- Eval(lib, fuel, ts[0]);
      var tail :- EvalAll(lib, fuel, ts[1..]);
      Ok([head] + tail)
  }

  /**
   * `defun_t<T>` is eval_<compile_t<lambda_<T>>>; its `type` is the value,
   * a leaf, and a body that does not compile has none.
   */
  function Defun(lib: Library, fuel: nat, body: Ty): (r: Outcome)
    ensures r.Ok? ==> IsLeaf(r.value)
    ensures Compile(body).Err? ==> r == Err(NoMember("test_type"))
    decreases fuel, 1, 0
  {
    assert Compile(body).Err? ==> CompileAll([body]).Err? by {
      assert [body][0] == body;
    }
    assert Compile(body).Err? ==> Compile(LambdaT(body)).Err?;
    var compiled :- Compile(LambdaT(body));
    Eval(lib, fuel, compiled)
  }

  /** The bodies of the mutually recursive is_even_ and is_odd_. */
  function IsEvenBody(n: Ty): Ty {
    IfT(EqT(n, U(0)), TrueT, Inst(IsOdd, [DecT(n)]))
  }

  function IsOddBody(n: Ty): Ty {
    IfT(EqT(n, U(0)), FalseT, Inst(IsEven, [DecT(n)]))
  }

  /**
   * `tm<args...>::type`, for the templates defined through defun_t and all
   * others.  fac_, is_even_ and is_odd_ take one argument and their member
   * is already a value.
   */
  function TypeMember(lib: Library, fuel: nat, tm: Tmpl, args: seq<Ty>): (r: Outcome)
    ensures (tm.Fac? || tm.IsEven? || tm.IsOdd?) && |args| != 1 ==> r == Err(WrongArity)
    ensures (tm.Fac? || tm.IsEven? || tm.IsOdd?) && r.Ok? ==> IsLeaf(r.value)
    decreases fuel, 2, 0
  {
    if tm.Fac? || tm.IsEven? || tm.IsOdd? then
      if |args| != 1 then Err(WrongArity)
      else if tm.Fac? then Defun(lib, fuel, FacBody(args[0]))
      else if tm.IsEven? then Defun(lib, fuel, IsEvenBody(args[0]))
      else Defun(lib, fuel, IsOddBody(args[0]))
    else
      lib(tm, args)
  }

  function Arity(tm: Tmpl): nat {
    match tm
    case If => 3 case Case => 2 case Lambda => 1 case Apply => 2 case FailHelper => 1
    case Pair => 2 case SomeTmpl => 1
    case EqImpl => 2 case MultImpl => 2 case IncImpl => 1 case DecImpl => 1 case Fac => 1
    case Widen => 2 case Constant => 1 case Fold => 3
    case IsTypeBinder => 1 case IsLambdaExpr => 1 case IsNone => 1
    case NextImpl => 1 case PrevImpl => 1 case NextNImpl => 2 case PrevNImpl => 2 case DerefImpl => 1
    case RangeT => 2 case Range => 2 case SizeImpl => 1 case BeginImpl => 1 case EndImpl => 1
    case NthImpl => 2 case Nth => 2 case SetNthImpl => 3
    case IsEven => 1 case IsOdd => 1
    case _ => 0
  }

  /** Templates taking a pack: tuples, cond_, has_type_binder, apply_lambda_ and the rest. */
  predicate Variadic(tm: Tmpl) {
    tm.Tuple? || tm.Cond? || tm.HasTypeBinder? || tm.ApplyLambda? || tm.Other?
  }

  const ZenMembers: Library := StaticTypeMember

  /**
   * The hooks with no working implementation: the primary templates of
   * deref_impl_, size_impl_ and nth_impl_ contain only a
   * ZEN_MISSING_IMPLEMENTATION, no specialisation is given, and nth_
   * forwards to nth_impl_.
   */
  function Unimplemented(tm: Tmpl): (r: Option<string>)
    ensures r.Some? <==> tm.DerefImpl? || tm.SizeImpl? || tm.NthImpl? || tm.Nth?
  {
    if tm.DerefImpl? then Some("deref_")
    else if tm.SizeImpl? then Some("size")
    else if tm.NthImpl? || tm.Nth? then Some("nth_")
    else None
  }

  /**
   * `tm<args...>::type` for the templates whose member does not recurse
   * into eval_.  A fixed-arity template given the wrong number of arguments
   * has none; neither has cond_, nor any of the templates eval_ treats
   * specially; an unimplemented hook fails naming itself; constant_ and
   * some_ give back their argument.
   */
  function StaticTypeMember(tm: Tmpl, args: seq<Ty>): (r: Outcome)
    ensures !Variadic(tm) && |args| != Arity(tm) ==> r == Err(WrongArity)
    ensures tm.Cond? || Special(tm) ==> r.Err?
    ensures Unimplemented(tm).Some? ==> r.Err? && (|args| == Arity(tm) ==> r.error == MissingImplementation(Unimplemented(tm).value))
    ensures r.Ok? && (tm.Constant? || tm.SomeTmpl?) ==> r.value == args[0]
  {
    if !Variadic(tm) && |args| != Arity(tm) then Err(WrongArity)
    else if tm.Cond? then
      if args == [] then Err(EmptyConditional) else Err(NoMember("type"))
    else if tm.Apply? then
      if Applies(args) then Err(NoMember("type")) else Err(Incomplete("apply_"))
    else if Special(tm) then Err(NoMember("type"))
    else if Unimplemented(tm).Some? then Err(MissingImplementation(Unimplemented(tm).value))
    else if tm.Constant? || tm.SomeTmpl? then Ok(args[0])
    else ComputedMember(tm, args)
  }

  /** The members StaticTypeMember computes from the arguments. */
  function ComputedMember(tm: Tmpl, args: seq<Ty>): Outcome
    requires !Variadic(tm) ==> |args| == Arity(tm)
  {
    match tm
    case EqImpl => Ok(EqOf(args[0], args[1]))
    case MultImpl => MultOf(args[0], args[1])
    case IncImpl =>
      if args[0].Inst? && args[0].tmpl.RangeT? && |args[0].args| == 2
      then RangeIncOf(args[0].args[0], args[0].args[1])
      else IncOf(args[0])
    case DecImpl => DecOf(args[0])
    case Widen => WidenOf(args[0], args[1])
    case Fold => FoldOf(args[0], args[1], args[2])
    case IsTypeBinder => Ok(Bool(IsTypeBinderOf(args[0])))
    case HasTypeBinder => if args == [] then Ok(Bool(false)) else Err(NoMember("type"))
    case IsLambdaExpr =>
      if args[0].Inst? && args[0].args != [] then Err(NoMember("type")) else Ok(Bool(false))
    case ApplyLambda => if args == [] then Err(WrongArity) else ApplyLambdaOf(args[0], args[1..])
    case IsNone => Ok(Bool(IsNoneOf(args[0])))
    case NextImpl => NextOf(args[0])
    case PrevImpl => PrevOf(args[0])
    case NextNImpl => NextNOf(args[0], args[1])
    case PrevNImpl => PrevNOf(args[0], args[1])
    case Range => RangeOf(args[0], args[1])
    case BeginImpl => BeginOf(args[0])
    case EndImpl => EndOf(args[0])
    case SetNthImpl => SetNthImplOf(args[0], args[1], args[2])
    case _ => Err(NoMember("type"))
  }

  // Lemmas about compile_.

  /** A term without cond_ anywhere in it. */
  predicate CondFree(t: Ty)
    decreases t
  {
    match t
    case Inst(tm, args) => !tm.Cond? && forall i :: 0 <= i < |args| ==> CondFree(args[i])
    case _ => true
  }

  /** Compiling is the identity on a term with no cond_ in it, and so on every non-template type. */
  lemma {:induction false} CompileCondFree(t: Ty)
    requires CondFree(t)
    ensures Compile(t) == Ok(t)
    decreases t, 1
  {
    if t.Inst? {
      CompileAllCondFree(t.args);
    }
  }

  lemma {:induction false} CompileAllCondFree(ts: seq<Ty>)
    requires forall i :: 0 <= i < |ts| ==> CondFree(ts[i])
    ensures CompileAll(ts) == Ok(ts)
    decreases ts, 0
  {
    if ts != [] {
      CompileCondFree(ts[0]);
      CompileAllCondFree(ts[1..]);
      assert [ts[0]] + ts[1..] == ts;
    }
  }

  /** Any template instance other than cond_ has every argument compiled, in place. */
  lemma CompileInstance(tm: Tmpl, args: seq<Ty>)
    requires !tm.Cond?
    ensures Compile(Inst(tm, args)).Ok? <==> forall i :: 0 <= i < |args| ==> Compile(args[i]).Ok?
    ensures Compile(Inst(tm, args)).Ok? ==>
      var c := Compile(Inst(tm, args)).value;
      c.Inst? && c.tmpl == tm && |c.args| == |args| && forall i :: 0 <= i < |args| ==> Compile(args[i]) == Ok(c.args[i])
  {
    CompileAllElementwise(args);
  }

  /** The cases case_<test_i, then_i>, and the if_ chain they compile to. */
  function Cases(pairs: seq<(Ty, Ty)>): (r: seq<Ty>)
    ensures |r| == |pairs|
  {
    seq(|pairs|, i requires 0 <= i < |pairs| => CaseT(pairs[i].0, pairs[i].1))
  }

  function IfChain(pairs: seq<(Ty, Ty)>, last: Ty): Ty
    decreases |pairs|
  {
    if pairs == [] then last else IfT(pairs[0].0, pairs[0].1, IfChain(pairs[1..], last))
  }

  /**
   * cond_<case_<t1, e1>, ..., case_<tn, en>> compiles to
   * if_<t1, e1, ... if_<tn, en, fail_>>, the tests and consequents copied
   * uncompiled; an empty cond_ compiles to fail_.
   */
  lemma {:induction false} CompileCondChain(pairs: seq<(Ty, Ty)>)
    ensures CompileCond(Cases(pairs)) == Ok(IfChain(pairs, FailT))
    ensures Compile(CondT(Cases(pairs))) == Ok(IfChain(pairs, FailT))
    decreases |pairs|
  {
    if pairs != [] {
      CompileCondChain(pairs[1..]);
      assert Cases(pairs)[1..] == Cases(pairs[1..]);
    }
  }

  /** A case list whose first element is not a case_ has no test_type to compile. */
  lemma CompileCondNotACase(c: Ty, rest: seq<Ty>)
    requires !(c.Inst? && c.tmpl.Case? && |c.args| == 2)
    ensures Compile(CondT([c] + rest)) == Err(NoMember("test_type"))
  {
  }

  lemma {:induction false} IfChainAppend(pairs: seq<(Ty, Ty)>, p: (Ty, Ty), last: Ty)
    ensures IfChain(pairs + [p], last) == IfChain(pairs, IfT(p.0, p.1, last))
    decreases |pairs|
  {
    if pairs != [] {
      assert (pairs + [p])[1..] == pairs[1..] + [p];
      IfChainAppend(pairs[1..], p, last);
    }
  }

  /**
   * A chain ending in else_<T> compiles to an if_ chain whose last test is
   * the constant true_, so its fail_ is unreachable: once evaluation gets
   * there, the result is that of T.
   */
  lemma ElseEndsChain(lib: Library, pairs: seq<(Ty, Ty)>, then_: Ty, fuel: nat)
    requires fuel >= 2
    ensures Cases(pairs + [(TrueT, then_)]) == Cases(pairs) + [ElseT(then_)]
    ensures Compile(CondT(Cases(pairs) + [ElseT(then_)])) == Ok(IfChain(pairs, IfT(TrueT, then_, FailT)))
    ensures Eval(lib, fuel, IfT(TrueT, then_, FailT)) == Eval(lib, fuel - 1, then_)
  {
    var all := pairs + [(TrueT, then_)];
    assert Cases(all) == Cases(pairs) + [ElseT(then_)];
    CompileCondChain(all);
    IfChainAppend(pairs, (TrueT, then_), FailT);
    IfTakesThen(lib, fuel, TrueT, then_, FailT);
  }

  // Lemmas about eval_.

  /** Evaluating a leaf, such as an integral constant, is the identity. */
  lemma EvalLeaf(lib: Library, fuel: nat, t: Ty)
    requires fuel > 0 && IsLeaf(t)
    ensures Eval(lib, fuel, t) == Ok(t)
  {
  }

  lemma {:induction false} EvalAllLeaves(lib: Library, fuel: nat, ts: seq<Ty>)
    requires fuel > 0 && AllLeaves(ts)
    ensures EvalAll(lib, fuel, ts) == Ok(ts)
    decreases |ts|
  {
    if ts != [] {
      EvalAllLeaves(lib, fuel, ts[1..]);
      assert [ts[0]] + ts[1..] == ts;
    }
  }

  /** A value evaluates to itself: evaluation is idempotent. */
  lemma EvalIdempotent(lib: Library, fuel: nat, fuel': nat, t: Ty)
    requires Eval(lib, fuel, t).Ok? && fuel' > 0
    ensures Eval(lib, fuel', Eval(lib, fuel, t).value) == Eval(lib, fuel, t)
  {
  }

  /** eval_t<u1_>::value == 1 */
  lemma EvalOfConstant()
    ensures Eval(ZenMembers, 1, U(1)) == Ok(U(1)) && ValueOf(Eval(ZenMembers, 1, U(1)).value) == Ok(1)
  {
  }

  /**
   * if_ evaluates its test and then only the chosen branch: with a true test
   * the else branch may be any term, even one whose evaluation fails.
   */
  lemma IfTakesThen(lib: Library, fuel: nat, test: Ty, then_: Ty, else_: Ty)
    requires fuel > 0 && Eval(lib, fuel - 1, test).Ok? && TruthValue(Eval(lib, fuel - 1, test).value) == Ok(true)
    ensures Eval(lib, fuel, IfT(test, then_, else_)) == Eval(lib, fuel - 1, then_)
  {
    assert Eval(lib, fuel, IfT(test, then_, else_)) == EvalIf(lib, fuel - 1, [test, then_, else_]);
  }

  lemma IfTakesElse(lib: Library, fuel: nat, test: Ty, then_: Ty, else_: Ty)
    requires fuel > 0 && Eval(lib, fuel - 1, test).Ok? && TruthValue(Eval(lib, fuel - 1, test).value) == Ok(false)
    ensures Eval(lib, fuel, IfT(test, then_, else_)) == Eval(lib, fuel - 1, else_)
  {
    assert Eval(lib, fuel, IfT(test, then_, else_)) == EvalIf(lib, fuel - 1, [test, then_, else_]);
  }

  /** A failing test, or one whose value is not a bool, fails the if_ with the same error. */
  lemma IfTestFails(lib: Library, fuel: nat, test: Ty, then_: Ty, else_: Ty)
    requires fuel > 0
    requires Eval(lib, fuel - 1, test).Err? || TruthValue(Eval(lib, fuel - 1, test).value).Err?
    ensures Eval(lib, fuel, IfT(test, then_, else_)).Err?
    ensures Eval(lib, fuel - 1, test).Err? ==> Eval(lib, fuel, IfT(test, then_, else_)) == Err(Eval(lib, fuel - 1, test).error)
  {
    assert Eval(lib, fuel, IfT(test, then_, else_)) == EvalIf(lib, fuel - 1, [test, then_, else_]);
  }

  /** lambda_<T> evaluates as T. */
  lemma EvalLambda(lib: Library, fuel: nat, body: Ty)
    requires fuel > 0
    ensures Eval(lib, fuel, LambdaT(body)) == Eval(lib, fuel - 1, body)
  {
    assert Eval(lib, fuel, LambdaT(body)) == EvalInst(lib, fuel - 1, Lambda, [body]);
  }

  /** defun_t<T> is compile-then-evaluate of T. */
  lemma DefunCompilesThenEvaluates(lib: Library, fuel: nat, body: Ty)
    requires fuel > 0 && Compile(body).Ok?
    ensures Defun(lib, fuel, body) == Eval(lib, fuel - 1, Compile(body).value)
  {
    assert Compile(LambdaT(body)) == Ok(LambdaT(Compile(body).value)) by {
      CompileAllElementwise([body]);
      var r := CompileAll([body]);
      assert r.Ok?;
      assert r.value == [Compile(body).value];
    }
    EvalLambda(lib, fuel, Compile(body).value);
  }

  /** fail_helper_<T> never has a value; fail_ = fail_helper_<true_> trips its assertion. */
  lemma FailNeverEvaluates(lib: Library, fuel: nat, t: Ty)
    ensures !Eval(lib, fuel, Inst(FailHelper, [t])).Ok?
    ensures fuel > 0 ==> Eval(lib, fuel, FailT) == Err(FailedToEvaluate)
  {
    if fuel > 0 {
      assert Eval(lib, fuel, Inst(FailHelper, [t])) == EvalFail([t]);
    }
  }

  /**
   * A generic template instance reduces its arguments first, then takes
   * `::type` of the instance over the reduced arguments and evaluates it.
   */
  lemma GenericReducesArguments(lib: Library, fuel: nat, tm: Tmpl, args: seq<Ty>, values: seq<Ty>)
    requires fuel > 0 && !Special(tm) && EvalAll(lib, fuel - 1, args) == Ok(values)
    ensures TypeMember(lib, fuel - 1, tm, values).Err? ==> Eval(lib, fuel, Inst(tm, args)) == Err(TypeMember(lib, fuel - 1, tm, values).error)
    ensures TypeMember(lib, fuel - 1, tm, values).Ok? ==> Eval(lib, fuel, Inst(tm, args)) == Eval(lib, fuel - 1, TypeMember(lib, fuel - 1, tm, values).value)
  {
    assert Eval(lib, fuel, Inst(tm, args)) == EvalGeneric(lib, fuel - 1, tm, args);
  }

  /** Reducing the arguments beforehand changes nothing. */
  lemma EvalReducedArguments(lib: Library, fuel: nat, tm: Tmpl, args: seq<Ty>)
    requires fuel > 1 && !Special(tm) && EvalAll(lib, fuel - 1, args).Ok?
    ensures Eval(lib, fuel, Inst(tm, args)) == Eval(lib, fuel, Inst(tm, EvalAll(lib, fuel - 1, args).value))
  {
    var values := EvalAll(lib, fuel - 1, args).value;
    EvalAllLeaves(lib, fuel - 1, values);
    GenericReducesArguments(lib, fuel, tm, args, values);
    GenericReducesArguments(lib, fuel, tm, values, values);
  }

  /** An argument that fails to evaluate fails the whole instance. */
  lemma EvalArgumentFails(lib: Library, fuel: nat, tm: Tmpl, args: seq<Ty>)
    requires fuel > 0 && !Special(tm) && EvalAll(lib, fuel - 1, args).Err?
    ensures Eval(lib, fuel, Inst(tm, args)) == Err(EvalAll(lib, fuel - 1, args).error)
  {
    assert Eval(lib, fuel, Inst(tm, args)) == EvalGeneric(lib, fuel - 1, tm, args);
  }

  /** apply_<Fn, list_<As...>> evaluates Fn::apply<eval_t<As>...>::type. */
  lemma ApplyReducesArguments(lib: Library, fuel: nat, fn: Ty, args: seq<Ty>, values: seq<Ty>)
    requires fuel > 0 && EvalAll(lib, fuel - 1, args) == Ok(values)
    ensures fn.TemplateRef? ==> Eval(lib, fuel, ApplyT(fn, ListT(args))) == Eval(lib, fuel - 1, Inst(fn.tmpl, values))
    ensures !fn.TemplateRef? ==> Eval(lib, fuel, ApplyT(fn, ListT(args))) == Err(NoMember("apply"))
  {
    assert Eval(lib, fuel, ApplyT(fn, ListT(args))) == EvalApply(lib, fuel - 1, fn, args);
  }

  /**
   * An instance of deref_impl_, size_impl_, nth_impl_ or nth_ never
   * evaluates; once its arguments have evaluated, the error names the
   * missing hook.
   */
  lemma EvalUnimplemented(fuel: nat, tm: Tmpl, args: seq<Ty>)
    requires Unimplemented(tm).Some?
    ensures Eval(ZenMembers, fuel, Inst(tm, args)).Err?
    ensures fuel > 0 && |args| == Arity(tm) && EvalAll(ZenMembers, fuel - 1, args).Ok? ==>
      Eval(ZenMembers, fuel, Inst(tm, args)) == Err(MissingImplementation(Unimplemented(tm).value))
  {
    if fuel > 0 {
      var evaluated := EvalAll(ZenMembers, fuel - 1, args);
      if evaluated.Ok? {
        GenericReducesArguments(ZenMembers, fuel, tm, args, evaluated.value);
      } else {
        EvalArgumentFails(ZenMembers, fuel, tm, args);
      }
    }
  }

  /**
   * `eval_t<constant_<T>>` and `eval_t<some_<T>>` are `eval_t<T>`: the member
   * is the evaluated argument, which evaluates to itself.
   */
  lemma EvalConstant(fuel: nat, t: Ty)
    requires fuel >= 2 && Eval(ZenMembers, fuel - 1, t).Ok?
    ensures Eval(ZenMembers, fuel, Inst(Constant, [t])) == Eval(ZenMembers, fuel - 1, t)
  {
    EvalForwards(fuel, Constant, t);
  }

  lemma EvalSome(fuel: nat, t: Ty)
    requires fuel >= 2 && Eval(ZenMembers, fuel - 1, t).Ok?
    ensures Eval(ZenMembers, fuel, SomeT(t)) == Eval(ZenMembers, fuel - 1, t)
  {
    EvalForwards(fuel, SomeTmpl, t);
  }

  lemma EvalForwards(fuel: nat, tm: Tmpl, t: Ty)
    requires tm.Constant? || tm.SomeTmpl?
    requires fuel >= 2 && Eval(ZenMembers, fuel - 1, t).Ok?
    ensures Eval(ZenMembers, fuel, Inst(tm, [t])) == Eval(ZenMembers, fuel - 1, t)
  {
    var v := Eval(ZenMembers, fuel - 1, t).value;
    EvalSingle(ZenMembers, fuel - 1, t);
    EvalLeaf(ZenMembers, fuel - 1, v);
    GenericReducesArguments(ZenMembers, fuel, tm, [t], [v]);
  }

  /** Every template not defined through defun_t takes its member from the table, with no evaluation. */
  lemma StaticMember(lib: Library, fuel: nat, tm: Tmpl, args: seq<Ty>)
    requires !tm.Fac? && !tm.IsEven? && !tm.IsOdd?
    ensures TypeMember(lib, fuel, tm, args) == lib(tm, args)
  {
  }

  lemma ApplyReducesArgumentsFail(lib: Library, fuel: nat, fn: Ty, args: seq<Ty>)
    requires fuel > 0 && EvalAll(lib, fuel - 1, args).Err?
    ensures Eval(lib, fuel, ApplyT(fn, ListT(args))) == Err(EvalAll(lib, fuel - 1, args).error)
  {
    assert Eval(lib, fuel, ApplyT(fn, ListT(args))) == EvalApply(lib, fuel - 1, fn, args);
  }

  /** The templates whose `type` member comes from the table rather than from defun_t. */
  predicate Tabled(tm: Tmpl) {
    !Special(tm) && !tm.Fac? && !tm.IsEven? && !tm.IsOdd?
  }

  /**
   * A tabled template whose member, taken over the evaluated arguments, is
   * already a leaf evaluates to that member.
   */
  lemma EvalTabled(lib: Library, fuel: nat, tm: Tmpl, args: seq<Ty>, values: seq<Ty>)
    requires fuel >= 2 && Tabled(tm) && EvalAll(lib, fuel - 1, args) == Ok(values)
    requires lib(tm, values).Ok? && IsLeaf(lib(tm, values).value)
    ensures Eval(lib, fuel, Inst(tm, args)) == lib(tm, values)
  {
    GenericReducesArguments(lib, fuel, tm, args, values);
  }

  /** A single term, evaluated as an argument list. */
  lemma EvalSingle(lib: Library, fuel: nat, a: Ty)
    requires Eval(lib, fuel, a).Ok?
    ensures EvalAll(lib, fuel, [a]) == Ok([Eval(lib, fuel, a).value])
  {
    var x := Eval(lib, fuel, a).value;
    assert [a][1..] == [];
    assert EvalAll(lib, fuel, [a][1..]) == Ok([]);
    assert [x] + [] == [x];
  }

  /** Two terms evaluate left to right. */
  lemma EvalPair(lib: Library, fuel: nat, a: Ty, b: Ty)
    requires Eval(lib, fuel, a).Ok? && Eval(lib, fuel, b).Ok?
    ensures EvalAll(lib, fuel, [a, b]) == Ok([Eval(lib, fuel, a).value, Eval(lib, fuel, b).value])
  {
    var x, y := Eval(lib, fuel, a).value, Eval(lib, fuel, b).value;
    assert [b][1..] == [];
    assert EvalAll(lib, fuel, [b][1..]) == Ok([]);
    assert [y] + [] == [y];
    assert EvalAll(lib, fuel, [b]) == Ok([y]);
    assert [a, b][1..] == [b];
    assert [x] + [y] == [x, y];
  }

  /** The table entries of inc_<u2_>, mult_<u3_, u3_> and mult_<inc_<u2_>, u3_>. */
  lemma ZenIncMult()
    ensures ZenMembers(IncImpl, [U(2)]) == Ok(U(3))
    ensures ZenMembers(MultImpl, [U(3), U(3)]) == Ok(U(9))
    ensures ZenMembers(MultImpl, [IncT(U(2)), U(3)]) == Err(MissingImplementation("mult_"))
  {
  }

  /** mult_<inc_<u2_>, u3_> in any table that agrees with the library's on inc_<u2_> and mult_<u3_, u3_>. */
  lemma EvalMultOfIncIn(lib: Library, fuel: nat)
    requires fuel >= 3 && lib(IncImpl, [U(2)]) == Ok(U(3)) && lib(MultImpl, [U(3), U(3)]) == Ok(U(9))
    ensures Eval(lib, fuel, MultT(IncT(U(2)), U(3))) == Ok(U(9))
  {
    assert Eval(lib, fuel - 1, IncT(U(2))) == Ok(U(3)) by {
      EvalAllLeaves(lib, fuel - 2, [U(2)]);
      EvalTabled(lib, fuel - 1, IncImpl, [U(2)], [U(2)]);
    }
    assert Eval(lib, fuel - 1, U(3)) == Ok(U(3)) by {
      EvalLeaf(lib, fuel - 1, U(3));
    }
    assert EvalAll(lib, fuel - 1, [IncT(U(2)), U(3)]) == Ok([U(3), U(3)]) by {
      EvalPair(lib, fuel - 1, IncT(U(2)), U(3));
    }
    EvalTabled(lib, fuel, MultImpl, [IncT(U(2)), U(3)], [U(3), U(3)]);
  }

  /** mult_<inc_<u2_>, u3_> evaluates to 9, while mult_t of the unevaluated terms has no product. */
  lemma EvalMultOfInc(fuel: nat)
    requires fuel >= 3
    ensures Eval(ZenMembers, fuel, MultT(IncT(U(2)), U(3))) == Ok(U(9))
    ensures TypeMember(ZenMembers, fuel, MultImpl, [IncT(U(2)), U(3)]) == Err(MissingImplementation("mult_"))
  {
    ZenIncMult();
    EvalMultOfIncIn(ZenMembers, fuel);
  }

  // The fuel bound is not observable once a result is reached.

  /** More fuel never changes an outcome other than OutOfFuel. */
  lemma {:induction false} EvalMonotone(lib: Library, fuel: nat, more: nat, t: Ty)
    requires fuel <= more && Eval(lib, fuel, t) != Err(OutOfFuel)
    ensures Eval(lib, more, t) == Eval(lib, fuel, t)
    decreases fuel, 0, 0
  {
    if t.Inst? {
      EvalInstMonotone(lib, fuel - 1, more - 1, t.tmpl, t.args);
    }
  }

  lemma {:induction false} EvalInstMonotone(lib: Library, fuel: nat, more: nat, tm: Tmpl, args: seq<Ty>)
    requires fuel <= more && EvalInst(lib, fuel, tm, args) != Err(OutOfFuel)
    ensures EvalInst(lib, more, tm, args) == EvalInst(lib, fuel, tm, args)
    decreases fuel, 4, 0
  {
    if tm.If? {
      EvalIfMonotone(lib, fuel, more, args);
    } else if tm.Lambda? {
      if |args| == 1 {
        EvalMonotone(lib, fuel, more, args[0]);
      }
    } else if tm.Apply? && Applies(args) {
      EvalApplyMonotone(lib, fuel, more, args[0], args[1].args);
    } else if !tm.FailHelper? {
      EvalGenericMonotone(lib, fuel, more, tm, args);
    }
  }

  lemma {:induction false} EvalIfMonotone(lib: Library, fuel: nat, more: nat, args: seq<Ty>)
    requires fuel <= more && EvalIf(lib, fuel, args) != Err(OutOfFuel)
    ensures EvalIf(lib, more, args) == EvalIf(lib, fuel, args)
    decreases fuel, 3, 0
  {
    if |args| == 3 {
      var test := Eval(lib, fuel, args[0]);
      if test != Err(OutOfFuel) {
        EvalMonotone(lib, fuel, more, args[0]);
        if test.Ok? && TruthValue(test.value).Ok? {
          EvalMonotone(lib, fuel, more, if TruthValue(test.value).value then args[1] else args[2]);
        }
      }
    }
  }

  lemma {:induction false} EvalApplyMonotone(lib: Library, fuel: nat, more: nat, fn: Ty, argList: seq<Ty>)
    requires fuel <= more && EvalApply(lib, fuel, fn, argList) != Err(OutOfFuel)
    ensures EvalApply(lib, more, fn, argList) == EvalApply(lib, fuel, fn, argList)
    decreases fuel, 3, 0
  {
    var evaluated := EvalAll(lib, fuel, argList);
    if evaluated != Err(OutOfFuel) {
      EvalAllMonotone(lib, fuel, more, argList);
      if evaluated.Ok? && ApplyMember(fn, evaluated.value).Ok? {
        EvalMonotone(lib, fuel, more, ApplyMember(fn, evaluated.value).value);
      }
    }
  }

  lemma {:induction false} EvalGenericMonotone(lib: Library, fuel: nat, more: nat, tm: Tmpl, args: seq<Ty>)
    requires fuel <= more && EvalGeneric(lib, fuel, tm, args) != Err(OutOfFuel)
    ensures EvalGeneric(lib, more, tm, args) == EvalGeneric(lib, fuel, tm, args)
    decreases fuel, 3, 0
  {
    var evaluated := EvalAll(lib, fuel, args);
    if evaluated != Err(OutOfFuel) {
      EvalAllMonotone(lib, fuel, more, args);
      if evaluated.Ok? {
        var member := TypeMember(lib, fuel, tm, evaluated.value);
        if member != Err(OutOfFuel) {
          TypeMemberMonotone(lib, fuel, more, tm, evaluated.value);
          if member.Ok? {
            EvalMonotone(lib, fuel, more, member.value);
          }
        }
      }
    }
  }

  lemma {:induction false} EvalAllMonotone(lib: Library, fuel: nat, more: nat, ts: seq<Ty>)
    requires fuel <= more && EvalAll(lib, fuel, ts) != Err(OutOfFuel)
    ensures EvalAll(lib, more, ts) == EvalAll(lib, fuel, ts)
    decreases fuel, 1, |ts|
  {
    if ts != [] {
      EvalMonotone(lib, fuel, more, ts[0]);
      if Eval(lib, fuel, ts[0]).Ok? {
        EvalAllMonotone(lib, fuel, more, ts[1..]);
      }
    }
  }

  lemma {:induction false} TypeMemberMonotone(lib: Library, fuel: nat, more: nat, tm: Tmpl, args: seq<Ty>)
    requires fuel <= more && TypeMember(lib, fuel, tm, args) != Err(OutOfFuel)
    ensures TypeMember(lib, more, tm, args) == TypeMember(lib, fuel, tm, args)
    decreases fuel, 2, 0
  {
    if (tm.Fac? || tm.IsEven? || tm.IsOdd?) && |args| == 1 {
      var body := if tm.Fac? then FacBody(args[0]) else if tm.IsEven? then IsEvenBody(args[0]) else IsOddBody(args[0]);
      if Compile(LambdaT(body)).Ok? {
        EvalMonotone(lib, fuel, more, Compile(LambdaT(body)).value);
      }
    }
  }

  /** call_<F, Args...> evaluates like F<Args...> itself, whenever both have an outcome. */
  lemma CallIsInstance(lib: Library, fuel: nat, tm: Tmpl, args: seq<Ty>)
    requires !Special(tm)
    requires Eval(lib, fuel, CallT(tm, args)) != Err(OutOfFuel) && Eval(lib, fuel, Inst(tm, args)) != Err(OutOfFuel)
    ensures Eval(lib, fuel, CallT(tm, args)) == Eval(lib, fuel, Inst(tm, args))
  {
    assert fuel > 0;
    var values := EvalAll(lib, fuel - 1, args);
    if values.Err? {
      CallWithFailingArguments(lib, fuel, tm, args);
    } else {
      CallWithValues(lib, fuel, tm, args, values.value);
    }
  }

  /** call_<F, Args...> and F<Args...> both fail where an argument does. */
  lemma CallWithFailingArguments(lib: Library, fuel: nat, tm: Tmpl, args: seq<Ty>)
    requires !Special(tm) && fuel > 0 && EvalAll(lib, fuel - 1, args).Err?
    ensures Eval(lib, fuel, CallT(tm, args)) == Eval(lib, fuel, Inst(tm, args))
  {
    assert Eval(lib, fuel, CallT(tm, args)) == Err(EvalAll(lib, fuel - 1, args).error) by {
      ApplyReducesArgumentsFail(lib, fuel, TemplateRef(tm), args);
    }
    EvalArgumentFails(lib, fuel, tm, args);
  }

  /** Where the arguments reduce, call_<F, Args...> and F<Args...> take the same member. */
  lemma CallWithValues(lib: Library, fuel: nat, tm: Tmpl, args: seq<Ty>, vs: seq<Ty>)
    requires !Special(tm) && fuel > 0 && EvalAll(lib, fuel - 1, args) == Ok(vs)
    requires Eval(lib, fuel, CallT(tm, args)) != Err(OutOfFuel)
    ensures Eval(lib, fuel, CallT(tm, args)) == Eval(lib, fuel, Inst(tm, args))
  {
    assert Eval(lib, fuel, CallT(tm, args)) == Eval(lib, fuel - 1, Inst(tm, vs)) by {
      ApplyReducesArguments(lib, fuel, TemplateRef(tm), args, vs);
    }
    assert fuel > 1;
    assert Eval(lib, fuel, Inst(tm, vs)) == Eval(lib, fuel - 1, Inst(tm, vs)) by {
      EvalMonotone(lib, fuel - 1, fuel, Inst(tm, vs));
    }
    assert Eval(lib, fuel, Inst(tm, args)) == Eval(lib, fuel, Inst(tm, vs)) by {
      EvalReducedArguments(lib, fuel, tm, args);
    }
  }
}
