/**
 * Ranges and sequences: range_t / range_ and inc_ on ranges
 * (zen/meta/range.hpp), the begin_ / end_ hooks and their specialisations
 * for cons cells (zen/meta/cons.hpp), maybes (zen/meta/maybe/iterator.hpp)
 * and lists (zen/meta/list.hpp), and nth_ / set_nth_ (zen/meta/sequence.hpp).
 */
module MetaRange {
  import opened Wrappers
  import opened MetaTerm
  import opened MetaCommon
  import opened MetaMaybe
  import opened MetaMath
  import opened MetaIterator

  /** range_t<B, E> and cons_<H, T> = std::pair<H, T> */
  function RangeTT(b: Ty, e: Ty): Ty {
    Inst(RangeT, [b, e])
  }

  function ConsT(h: Ty, t: Ty): Ty {
    Inst(Pair, [h, t])
  }

  /** `range_<B, E>::type` */
  function RangeOf(b: Ty, e: Ty): Outcome
  {
    Ok(RangeTT(b, e))
  }

  /** The `begin_type` and `end_type` members of range_t. */
  function BeginTypeOf(r: Ty): Outcome {
    if r.Inst? && r.tmpl.RangeT? && |r.args| == 2 then Ok(r.args[0]) else Err(NoMember("begin_type"))
  }

  function EndTypeOf(r: Ty): Outcome {
    if r.Inst? && r.tmpl.RangeT? && |r.args| == 2 then Ok(r.args[1]) else Err(NoMember("end_type"))
  }

  /**
   * `inc_impl_<range_t<B, E>>::type` is range_t<next_t<B>, E>: it exists
   * when B has a next_, and then only begin_type moves.
   */
  function RangeIncOf(b: Ty, e: Ty): (r: Outcome)
    ensures r.Ok? <==> NextOf(b).Ok?
    ensures r.Ok? ==> BeginTypeOf(r.value) == NextOf(b) && EndTypeOf(r.value) == Ok(e)
  {
    var next :- NextOf(b);
    Ok(RangeTT(next, e))
  }

  /**
   * `begin_impl_<T>::type`: declared only, specialised for lists, maybes
   * and cons cells; begin of any other type is incomplete.
   */
  function BeginOf(t: Ty): (r: Outcome)
    ensures r.Ok? <==> Sequence(t) || (t.Inst? && t.tmpl.Tuple?)
    ensures r.Err? ==> r.error == Incomplete("begin_impl_")
  {
    match t
    case Inst(tm, args) =>
      if tm.Tuple? then Ok(ListIter(t, 0))
      else if tm.SomeTmpl? && |args| == 1 then Ok(MaybeIter(t, false))
      else if tm.Pair? && |args| == 2 then Ok(t)
      else Err(Incomplete("begin_impl_"))
    case NoneT => Ok(MaybeIter(NoneT, false))
    case NilT => Ok(NilT)
    case _ => Err(Incomplete("begin_impl_"))
  }

  /**
   * `end_impl_<T>::type`: specialised for maybes and cons cells only, so
   * every type with an end_ has a begin_, while a list has a begin_ and no
   * end_.
   */
  function EndOf(t: Ty): (r: Outcome)
    ensures r.Ok? <==> Sequence(t)
    ensures r.Ok? ==> BeginOf(t).Ok?
    ensures r.Err? ==> r.error == Incomplete("end_impl_")
  {
    match t
    case Inst(tm, args) =>
      if tm.SomeTmpl? && |args| == 1 then Ok(MaybeIter(t, true))
      else if tm.Pair? && |args| == 2 then Ok(NilT)
      else Err(Incomplete("end_impl_"))
    case NoneT => Ok(MaybeIter(NoneT, true))
    case NilT => Ok(NilT)
    case _ => Err(Incomplete("end_impl_"))
  }

  /**
   * `set_nth_impl_<T, I, R>::type`: on a list, the tuple setter at
   * I::value, giving a list of the same length; no other sequence has one.
   */
  function SetNthImplOf(t: Ty, i: Ty, r: Ty): (res: Outcome)
    ensures res.Ok? ==> t.Inst? && t.tmpl.Tuple? && res.value.Inst? && res.value.tmpl.Tuple? && |res.value.args| == |t.args|
    ensures res.Ok? ==> ValueOf(i).Ok? && 0 <= ValueOf(i).value < |t.args| && res.value.args[ValueOf(i).value] == r
    ensures !(t.Inst? && t.tmpl.Tuple?) ==> res == Err(MissingImplementation("set_nth_"))
  {
    if t.Inst? && t.tmpl.Tuple? then
      var v :- ValueOf(i);
      if v < 0 then Err(Narrowing) else SetTupleElement(v, r, t)
    else
      Err(MissingImplementation("set_nth_"))
  }

  /**
   * The alias set_nth_<T, I, R> is set_nth_impl_<T, I, T>: R is dropped,
   * and T stands in the replacement's place.
   */
  function SetNthAlias(t: Ty, i: Ty, r: Ty): (a: Ty)
    ensures a.Inst? && a.tmpl.SetNthImpl? && |a.args| == 3
    ensures a.args[0] == t && a.args[1] == i && a.args[2] == t
    ensures r != t && r != i ==> forall k :: 0 <= k < |a.args| ==> a.args[k] != r
  {
    Inst(SetNthImpl, [t, i, t])
  }

  /**
   * `set_nth_t<T, I, R>`: on a list whose index I has a setter, the list
   * with its own self stored at I, whatever R is.
   */
  function SetNthTOf(t: Ty, i: Ty, r: Ty): (res: Outcome)
    ensures res.Ok? ==> t.Inst? && t.tmpl.Tuple? && res.value.Inst? && |res.value.args| == |t.args|
    ensures res.Ok? ==> ValueOf(i).Ok? && 0 <= ValueOf(i).value < |res.value.args| && res.value.args[ValueOf(i).value] == t
  {
    var alias := SetNthAlias(t, i, r);
    SetNthImplOf(alias.args[0], alias.args[1], alias.args[2])
  }

  // Lemmas.

  /** The sequences with both a begin_ and an end_: maybes and cons cells. */
  predicate Sequence(t: Ty) {
    t == NoneT || t == NilT || (t.Inst? && ((t.tmpl.SomeTmpl? && |t.args| == 1) || (t.tmpl.Pair? && |t.args| == 2)))
  }

  /** range_<B, E>::type has begin_type B and end_type E. */
  lemma RangeRecord(b: Ty, e: Ty)
    ensures RangeOf(b, e).Ok?
    ensures BeginTypeOf(RangeOf(b, e).value) == Ok(b) && EndTypeOf(RangeOf(b, e).value) == Ok(e)
  {
  }

  /** inc_ of a range advances begin_type by next_t and keeps end_type. */
  lemma RangeIncAdvances(b: Ty, e: Ty)
    requires NextOf(b).Ok?
    ensures RangeIncOf(b, e).Ok?
    ensures BeginTypeOf(RangeIncOf(b, e).value) == NextOf(b)
    ensures EndTypeOf(RangeIncOf(b, e).value) == Ok(e)
  {
  }

  /** begin_ and end_ of a type the specialisations do not cover are incomplete. */
  lemma BeginEndDeclaredOnly(t: Ty)
    requires t.Named? || t.Const? || t == TrueT
    ensures BeginOf(t) == Err(Incomplete("begin_impl_")) && EndOf(t) == Err(Incomplete("end_impl_"))
  {
  }

  /** begin of a cons cell is the cell; begin of nil_ is nil_; end of both is nil_. */
  lemma ConsBeginEnd(h: Ty, t: Ty)
    ensures BeginOf(ConsT(h, t)) == Ok(ConsT(h, t)) && BeginOf(NilT) == Ok(NilT)
    ensures EndOf(ConsT(h, t)) == Ok(NilT) && EndOf(NilT) == Ok(NilT)
  {
  }

  /** Even none_ has begin different from end. */
  lemma MaybeBeginEnd(x: Ty)
    ensures BeginOf(SomeT(x)) == Ok(MaybeIter(SomeT(x), false))
    ensures EndOf(SomeT(x)) == Ok(MaybeIter(SomeT(x), true))
    ensures BeginOf(NoneT) == Ok(MaybeIter(NoneT, false)) && EndOf(NoneT) == Ok(MaybeIter(NoneT, true))
    ensures BeginOf(NoneT) != EndOf(NoneT)
  {
  }

  /** next then prev from the begin of a maybe returns to begin. */
  lemma MaybeNextThenPrev(m: Ty)
    requires m == NoneT || (m.Inst? && m.tmpl.SomeTmpl? && |m.args| == 1)
    ensures BeginOf(m).Ok? && NextOf(BeginOf(m).value).Ok?
    ensures var step := NextOf(BeginOf(m).value).value;
      step.Inst? && step.tmpl.SomeTmpl? && |step.args| == 1
      && PrevOf(step.args[0]) == Ok(SomeT(BeginOf(m).value))
  {
  }

  /** begin_ of every list, the empty one included, is the iterator at index 0. */
  lemma ListBegin(xs: seq<Ty>)
    ensures BeginOf(ListT(xs)) == Ok(ListIter(ListT(xs), 0))
  {
  }

  /** set_nth_impl_ on a list puts R at I::value and keeps the length and the other elements. */
  lemma ListSetNth(xs: seq<Ty>, i: nat, r: Ty)
    requires HasSetter(i) && i < |xs|
    ensures SetNthImplOf(ListT(xs), U(i), r) == Ok(ListT(xs[i := r]))
  {
  }

  /** set_nth_t ignores R: the list itself is stored at I. */
  lemma SetNthIgnoresReplacement(t: Ty, i: Ty, r1: Ty, r2: Ty)
    ensures SetNthTOf(t, i, r1) == SetNthTOf(t, i, r2) == SetNthImplOf(t, i, t)
  {
  }
}
