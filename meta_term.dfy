/**
 * The terms of the compile-time expression language of zen/meta.
 *
 * The "values" of that language are C++ types.  A type is either a class
 * template instance whose parameters are all types (`T<Ts...>`, which the
 * library's generic specialisations match), or any other type: an
 * `std::integral_constant`, a template with a non-type parameter such as
 * `arg_n_<I>` or `list_iterator_t<L, I>`, or a plain struct.  The second
 * kind is a leaf of the term language.
 */
module MetaTerm {
  import opened Wrappers

  /** The value types of the integral constants the library builds. */
  datatype IntKind = BoolKind | SizeKind | PtrDiffKind

  /** The class templates with type-only parameters that the core defines. */
  datatype Tmpl =
    | If | Case | Cond | Lambda | Apply | FailHelper      // control forms
    | Tuple | Pair                                       // std::tuple (list_), std::pair (cons_)
    | SomeTmpl                                           // some_
    | EqImpl | MultImpl | IncImpl | DecImpl | Fac        // arithmetic
    | Widen | Constant | Fold                            // common helpers
    | IsTypeBinder | HasTypeBinder | IsLambdaExpr | ApplyLambda
    | IsNone
    | NextImpl | PrevImpl | NextNImpl | PrevNImpl | DerefImpl
    | RangeT | Range | SizeImpl | BeginImpl | EndImpl
    | NthImpl | Nth | SetNthImpl
    | IsEven | IsOdd                                     // the mutually recursive pair of the evaluator's tests
    | Other(name: string)                                // any other template without members

  datatype Ty =
    | Const(kind: IntKind, value: int)        // std::integral_constant<kind, value>
    | Prim(kind: IntKind)                     // bool, std::size_t, std::ptrdiff_t
    | TrueT | FalseT                          // the structs true_ and false_
    | NoneT | NilT | Placeholder              // none_, nil_, _
    | Binder(index: nat)                      // arg_n_<index>
    | ListIter(container: Ty, index: nat)     // list_iterator_t<container, index>
    | MaybeIter(container: Ty, beyond: bool)  // maybe_iterator_t<container, beyond>
    | TemplateRef(tmpl: Tmpl)                 // template_<tmpl>
    | Named(name: string)                     // any other type, e.g. int or void
    | Inst(tmpl: Tmpl, args: seq<Ty>)         // tmpl<args...>

  /** Why a type expression has no result: the program would not compile. */
  datatype Error =
    | OutOfFuel                               // the evaluation bound of the model ran out
    | WrongArity                              // a template named with the wrong number of arguments
    | NoMember(member: string)                // `T::type`, `T::value`, ... names nothing
    | Incomplete(template: string)            // declared only, or no specialisation matches
    | MissingImplementation(name: string)     // ZEN_MISSING_IMPLEMENTATION fires
    | EmptyConditional                        // the static_assert of cond_
    | FailedToEvaluate                        // the static_assert of the fail_helper_ evaluator
    | Narrowing                               // a constant that does not fit its template parameter
    | Overflow                                // signed overflow in a constant expression
    | IndexOutOfRange                         // std::tuple_element_t past the end of a tuple

  type Outcome = Result<Ty, Error>

  const U64: int := 0x1_0000_0000_0000_0000
  const PtrDiffMin: int := -0x8000_0000_0000_0000
  const PtrDiffMax: int := 0x7FFF_FFFF_FFFF_FFFF

  /** A leaf: every type that a generic `T<Ts...>` specialisation does not match. */
  predicate IsLeaf(t: Ty) {
    !t.Inst?
  }

  predicate AllLeaves(ts: seq<Ty>) {
    forall i :: 0 <= i < |ts| ==> IsLeaf(ts[i])
  }

  // The constants of zen/meta/primitives.hpp.

  /** bool_<B> */
  function Bool(b: bool): (r: Ty)
    ensures r.Const? && r.kind == BoolKind && (r.value == 1 <==> b) && (r.value == 0 <==> !b)
  {
    Const(BoolKind, if b then 1 else 0)
  }

  /** u_<I> */
  function U(i: nat): (r: Ty)
    ensures r.Const? && r.kind == SizeKind && r.value == i
  {
    Const(SizeKind, i)
  }

  /** s_<D> */
  function S(d: int): (r: Ty)
    ensures r.Const? && r.kind == PtrDiffKind && r.value == d
  {
    Const(PtrDiffKind, d)
  }

  /** `template_<T>::apply<Ts...>::type`: only template_ has an `apply` member. */
  function ApplyMember(fn: Ty, args: seq<Ty>): (r: Outcome)
    ensures fn.TemplateRef? ==> r == Ok(Inst(fn.tmpl, args))
    ensures !fn.TemplateRef? ==> r == Err(NoMember("apply"))
  {
    match fn
    case TemplateRef(tm) => Ok(Inst(tm, args))
    case _ => Err(NoMember("apply"))
  }

  // The control forms of zen/meta/eval.hpp, as term builders.

  function IfT(test: Ty, then_: Ty, else_: Ty): Ty {
    Inst(If, [test, then_, else_])
  }

  function CaseT(test: Ty, then_: Ty): Ty {
    Inst(Case, [test, then_])
  }

  /** else_<T> is case_<true_, T>. */
  function ElseT(then_: Ty): Ty {
    CaseT(TrueT, then_)
  }

  function CondT(cases: seq<Ty>): Ty {
    Inst(Cond, cases)
  }

  function LambdaT(body: Ty): Ty {
    Inst(Lambda, [body])
  }

  function ListT(elements: seq<Ty>): Ty {
    Inst(Tuple, elements)
  }

  function ApplyT(fn: Ty, argList: Ty): Ty {
    Inst(Apply, [fn, argList])
  }

  /** call_<F, Args...> is apply_<template_<F>, list_<Args...>>. */
  function CallT(tm: Tmpl, args: seq<Ty>): Ty {
    ApplyT(TemplateRef(tm), ListT(args))
  }

  /** fail_ is fail_helper_<true_>. */
  const FailT: Ty := Inst(FailHelper, [TrueT])

  // Lemmas about the primitives.

  /** u_<0> and s_<0> are different types, as are bool_<true> and true_. */
  lemma ConstantsDistinct()
    ensures U(0) != S(0)
    ensures Bool(true) != TrueT && Bool(false) != FalseT
  {
  }

  lemma TemplateApplyIsInstance(tm: Tmpl, args: seq<Ty>)
    ensures ApplyMember(TemplateRef(tm), args) == Ok(Inst(tm, args))
  {
  }
}
