/**
 * zen/meta/common.hpp: constant_, widen_, fold_ and the tuple-element setters.
 */
module MetaCommon {
  import opened Wrappers
  import opened MetaTerm

  /**
   * `widen_<T1, T2>::type`: only the specialisation for two identical types
   * exists; every other pair reaches the widen_impl_ that is missing.
   */
  function WidenOf(t1: Ty, t2: Ty): (r: Outcome)
    ensures r.Ok? <==> t1 == t2
    ensures r.Ok? ==> r.value == t1
    ensures r.Err? ==> r.error == MissingImplementation("widen_")
  {
    if t1 == t2 then Ok(t1) else Err(MissingImplementation("widen_"))
  }

  /**
   * `fold_<AccFn, InitT, SeqT>::type`.  The tuple specialisation forwards the
   * tail `Ts...` unpacked as the third argument of fold_, so it is well formed
   * only for a 2-tuple; any other non-empty tuple names fold_ with the wrong
   * number of arguments.
   */
  function FoldOf(acc: Ty, init: Ty, sq: Ty): (r: Outcome)
    ensures r.Ok? && sq.Inst? && sq.tmpl.Tuple? && sq.args != [] ==> |sq.args| == 2 && acc.TemplateRef?
    ensures !acc.TemplateRef? && sq.Inst? && sq.tmpl.Tuple? && |sq.args| == 2 ==> r.Err?
    decreases sq
  {
    if sq.Inst? && sq.tmpl.Tuple? && |sq.args| >= 1 then
      if |sq.args| == 2 then
        assert sq.args[1] in sq.args;
        var rest :- FoldOf(acc, init, sq.args[1]);
        ApplyMember(acc, [sq.args[0], rest])
      else
        Err(WrongArity)
    else
      Ok(init)
  }

  /** The indices ZEN_MAKE_TUPLE_SETTER is instantiated for: 0-2 and 4-9. */
  predicate HasSetter(i: nat) {
    i <= 9 && i != 3
  }

  /**
   * `set_tuple_element_helper_<I, R, std::tuple<Ts...>>::type`: the tuple with
   * element I replaced by R.  The setter macros are written in terms of
   * ZEN_JOIN_ENUM, ZEN_INC and ZEN_FOR_ENUM, which include/zen/macros.h does
   * not define; this is the rule their text spells out.  Without a matching
   * specialisation only the declaration remains.
   */
  function SetTupleElement(i: nat, r: Ty, tup: Ty): (res: Outcome)
    ensures res.Ok? <==> HasSetter(i) && tup.Inst? && tup.tmpl.Tuple? && i < |tup.args|
    ensures res.Err? ==> res.error == Incomplete("set_tuple_element_helper_")
  {
    if HasSetter(i) && tup.Inst? && tup.tmpl.Tuple? && i < |tup.args| then
      Ok(ListT(tup.args[i := r]))
    else
      Err(Incomplete("set_tuple_element_helper_"))
  }

  // Lemmas.

  /** The setter keeps the length and every other element, and puts R at I. */
  lemma SetTupleElementReplaces(i: nat, r: Ty, xs: seq<Ty>)
    requires HasSetter(i) && i < |xs|
    ensures SetTupleElement(i, r, ListT(xs)).Ok?
    ensures var ys := SetTupleElement(i, r, ListT(xs)).value;
      ys.Inst? && ys.tmpl.Tuple? && |ys.args| == |xs| && ys.args[i] == r
      && forall j :: 0 <= j < |xs| && j != i ==> ys.args[j] == xs[j]
  {
  }

  /** Index 3 has no setter, whatever the tuple. */
  lemma NoSetterForIndexThree(r: Ty, tup: Ty)
    ensures SetTupleElement(3, r, tup) == Err(Incomplete("set_tuple_element_helper_"))
  {
  }

  /** fold_ on anything but a non-empty tuple, including tuple<>, is InitT. */
  lemma FoldOfNonTuple(acc: Ty, init: Ty, sq: Ty)
    requires !(sq.Inst? && sq.tmpl.Tuple?) || sq.args == []
    ensures FoldOf(acc, init, sq) == Ok(init)
  {
  }

  /** 1-tuples and tuples of three or more elements are ill-formed. */
  lemma FoldOfWrongTuple(acc: Ty, init: Ty, xs: seq<Ty>)
    requires |xs| == 1 || |xs| >= 3
    ensures FoldOf(acc, init, ListT(xs)) == Err(WrongArity)
  {
  }

  /** Right-nested 2-tuples tuple<x0, tuple<x1, ... tuple<xn, End>>>. */
  function Nest(xs: seq<Ty>, end: Ty): Ty
  {
    if xs == [] then end else ListT([xs[0], Nest(xs[1..], end)])
  }

  /** The right fold of the template F over xs, as an independent definition. */
  function RightFold(f: Tmpl, xs: seq<Ty>, init: Ty): Ty
  {
    if xs == [] then init else Inst(f, [xs[0], RightFold(f, xs[1..], init)])
  }

  /**
   * fold_ with template_<F> over right-nested 2-tuples ending in a
   * non-tuple is the right fold of F over the elements.
   */
  lemma {:induction false} FoldIsRightFold(f: Tmpl, init: Ty, xs: seq<Ty>, end: Ty)
    requires !(end.Inst? && end.tmpl.Tuple?)
    ensures FoldOf(TemplateRef(f), init, Nest(xs, end)) == Ok(RightFold(f, xs, init))
    decreases |xs|
  {
    if xs != [] {
      FoldIsRightFold(f, init, xs[1..], end);
    }
  }

  lemma WidenOfSame(t: Ty)
    ensures WidenOf(t, t) == Ok(t)
  {
  }

  lemma WidenOfDifferent(t1: Ty, t2: Ty)
    requires t1 != t2
    ensures WidenOf(t1, t2) == Err(MissingImplementation("widen_"))
  {
  }
}
