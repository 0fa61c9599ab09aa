/**
 * Type-level iterators: next_/prev_ and the generic next_n_impl_ and
 * prev_n_impl_ (zen/meta/iterator.hpp), the index arithmetic of
 * list_iterator_t (zen/meta/list/iterator.hpp) and the two positions of
 * maybe_iterator_t (zen/meta/maybe/iterator.hpp).
 */
module MetaIterator {
  import opened Wrappers
  import opened MetaTerm
  import opened MetaMaybe
  import opened MetaMath

  /** next_<IterT>, prev_<IterT>, next_n_impl_<N, IterT>, prev_n_impl_<N, IterT> as terms. */
  function NextT(it: Ty): Ty {
    Inst(NextImpl, [it])
  }

  function PrevT(it: Ty): Ty {
    Inst(PrevImpl, [it])
  }

  function NextNT(n: Ty, it: Ty): Ty {
    Inst(NextNImpl, [n, it])
  }

  function PrevNT(n: Ty, it: Ty): Ty {
    Inst(PrevNImpl, [n, it])
  }

  /**
   * `next_n_impl_<N, IterT>::type` of the primary template: an unevaluated
   * cond_ whose stepping case names next_n_impl_ with inc_<N>.
   */
  function GenericNextN(n: Ty, it: Ty): (r: Outcome)
    ensures r.Ok? <==> ValueOf(n).Ok?
  {
    var v :- ValueOf(n);
    Ok(CondT([CaseT(Bool(v == 0), it),
              CaseT(Inst(IsNone, [it]), NoneT),
              CaseT(TrueT, NextNT(IncT(n), NextT(it)))]))
  }

  /** `prev_n_impl_<N, IterT>::type` of the primary template. */
  function GenericPrevN(n: Ty, it: Ty): (r: Outcome)
    ensures r.Ok? <==> ValueOf(n).Ok?
  {
    var v :- ValueOf(n);
    Ok(CondT([CaseT(Bool(v == 0), it),
              CaseT(Inst(IsNone, [PrevT(it)]), NoneT),
              CaseT(TrueT, PrevNT(DecT(n), PrevT(it)))]))
  }

  /**
   * `next_n_impl_<N, list_iterator_t<ListT, I>>::type`: none_ when
   * I + N::value (std::size_t arithmetic) reaches tuple_size<ListT>,
   * otherwise the iterator at that index.
   */
  function ListNextN(n: Ty, c: Ty, i: nat): (r: Outcome)
    ensures r.Ok? <==> ValueOf(n).Ok? && c.Inst? && c.tmpl.Tuple?
    ensures r.Ok? ==> r.value == NoneT || (r.value.ListIter? && r.value.container == c && r.value.index < |c.args|)
  {
    var v :- ValueOf(n);
    if !(c.Inst? && c.tmpl.Tuple?) then Err(Incomplete("tuple_size"))
    else
      var s := (i + v) % U64;
      if s >= |c.args| then Ok(NoneT) else Ok(ListIter(c, s))
  }

  /**
   * `prev_n_impl_<N, list_iterator_t<ListT, I>>::type`: index I - N when
   * N < I, else none_; so the index it gives is never 0.
   */
  function ListPrevN(n: Ty, c: Ty, i: nat): (r: Outcome)
    ensures r.Ok? <==> ValueOf(n).Ok?
    ensures r.Ok? ==> r.value == NoneT || (r.value.ListIter? && r.value.container == c && 0 < r.value.index <= i)
  {
    var v :- ValueOf(n);
    var w := v % U64;
    if w < i then Ok(ListIter(c, i - w)) else Ok(NoneT)
  }

  /**
   * `next_n_impl_<N, IterT>::type`: the list specialisation, or an
   * unevaluated cond_ from the primary template on every other iterator.
   */
  function NextNOf(n: Ty, it: Ty): (r: Outcome)
    ensures r.Ok? ==> ValueOf(n).Ok?
    ensures !it.ListIter? ==> (r.Ok? <==> ValueOf(n).Ok?) && (r.Ok? ==> r.value.Inst? && r.value.tmpl.Cond?)
    ensures it.ListIter? && r.Ok? ==> r.value == NoneT || (r.value.ListIter? && r.value.container == it.container)
  {
    match it
    case ListIter(c, i) => ListNextN(n, c, i)
    case _ => GenericNextN(n, it)
  }

  /** `prev_n_impl_<N, IterT>::type`, the same way round. */
  function PrevNOf(n: Ty, it: Ty): (r: Outcome)
    ensures r.Ok? <==> ValueOf(n).Ok?
    ensures !it.ListIter? && r.Ok? ==> r.value.Inst? && r.value.tmpl.Cond?
    ensures it.ListIter? && r.Ok? ==> r.value == NoneT || (r.value.ListIter? && r.value.container == it.container && r.value.index <= it.index)
  {
    match it
    case ListIter(c, i) => ListPrevN(n, c, i)
    case _ => GenericPrevN(n, it)
  }

  /**
   * `next_impl_<IterT>::type`: the maybe iterator's table, otherwise
   * next_n by u1_.  A maybe iterator steps from its first position to
   * some_ of its second, and from its second to none_.
   */
  function NextOf(it: Ty): (r: Outcome)
    ensures it.MaybeIter? ==> r.Ok? && (r.value == NoneT <==> it.beyond)
    ensures it.MaybeIter? && !it.beyond ==> r.value == SomeT(MaybeIter(it.container, true))
    ensures it.ListIter? ==> (r.Ok? <==> it.container.Inst? && it.container.tmpl.Tuple?)
  {
    match it
    case MaybeIter(c, beyond) => if beyond then Ok(NoneT) else Ok(SomeT(MaybeIter(c, true)))
    case _ => NextNOf(U(1), it)
  }

  /**
   * `prev_impl_<IterT>::type`: the maybe iterator's table the other way
   * round, otherwise prev_n by u1_, which is defined on every iterator.
   */
  function PrevOf(it: Ty): (r: Outcome)
    ensures r.Ok?
    ensures it.MaybeIter? ==> (r.value == NoneT <==> !it.beyond)
    ensures it.MaybeIter? && it.beyond ==> r.value == SomeT(MaybeIter(it.container, false))
  {
    match it
    case MaybeIter(c, beyond) => if beyond then Ok(SomeT(MaybeIter(c, false))) else Ok(NoneT)
    case _ => PrevNOf(U(1), it)
  }

  // Lemmas.

  /** next_ and prev_ are next_n and prev_n by one, except on maybe iterators. */
  lemma UnitSteps(it: Ty)
    requires !it.MaybeIter?
    ensures NextOf(it) == NextNOf(U(1), it) && PrevOf(it) == PrevNOf(U(1), it)
  {
  }

  /** The generic next_n is a cond_ term whose stepping case increments the count. */
  lemma GenericNextNShape(n: Ty, it: Ty)
    requires !it.ListIter? && ValueOf(n).Ok?
    ensures NextNOf(n, it).Ok?
    ensures var r := NextNOf(n, it).value;
      r.Inst? && r.tmpl.Cond? && |r.args| == 3
      && r.args[0] == CaseT(Bool(ValueOf(n).value == 0), it)
      && r.args[1] == CaseT(Inst(IsNone, [it]), NoneT)
      && r.args[2] == CaseT(TrueT, NextNT(IncT(n), NextT(it)))
  {
  }

  /** The generic prev_n tests prev_ for none_ and recurses with dec_<N> from prev_. */
  lemma GenericPrevNShape(n: Ty, it: Ty)
    requires !it.ListIter? && ValueOf(n).Ok?
    ensures PrevNOf(n, it).Ok?
    ensures var r := PrevNOf(n, it).value;
      r.Inst? && r.tmpl.Cond? && |r.args| == 3
      && r.args[0] == CaseT(Bool(ValueOf(n).value == 0), it)
      && r.args[1] == CaseT(Inst(IsNone, [PrevT(it)]), NoneT)
      && r.args[2] == CaseT(TrueT, PrevNT(DecT(n), PrevT(it)))
  {
  }

  /** On a list, next_n by N from I is the index I + N, or none_ from the size on. */
  lemma ListNextNSpec(xs: seq<Ty>, i: nat, n: nat)
    requires i + n < U64
    ensures NextNOf(U(n), ListIter(ListT(xs), i))
      == Ok(if i + n >= |xs| then NoneT else ListIter(ListT(xs), i + n))
  {
  }

  /** next_n never yields the one-past-the-end index, and keeps the container. */
  lemma ListNextNInBounds(n: Ty, c: Ty, i: nat)
    requires NextNOf(n, ListIter(c, i)).Ok?
    ensures var r := NextNOf(n, ListIter(c, i)).value;
      r == NoneT || (r.ListIter? && r.container == c && c.Inst? && r.index < |c.args|)
  {
  }

  /** On a list, prev_n by N from I is the index I - N when N < I, else none_. */
  lemma ListPrevNSpec(c: Ty, i: nat, n: nat)
    requires n < U64 && i < U64
    ensures PrevNOf(U(n), ListIter(c, i)) == Ok(if n < i then ListIter(c, i - n) else NoneT)
    ensures PrevNOf(U(i), ListIter(c, i)) == Ok(NoneT)
  {
  }

  /** prev_n keeps the container too. */
  lemma ListPrevNKeepsContainer(n: Ty, c: Ty, i: nat)
    requires PrevNOf(n, ListIter(c, i)).Ok?
    ensures var r := PrevNOf(n, ListIter(c, i)).value;
      r == NoneT || (r.ListIter? && r.container == c && r.index <= i)
  {
  }

  /** next_n by 0 from a valid index is that index. */
  lemma ListNextNByZero(xs: seq<Ty>, i: nat)
    requires i < |xs| && i < U64
    ensures NextNOf(U(0), ListIter(ListT(xs), i)) == Ok(ListIter(ListT(xs), i))
  {
  }

  /** The two positions of a maybe iterator. */
  lemma MaybeIteratorTable(c: Ty)
    ensures NextOf(MaybeIter(c, false)) == Ok(SomeT(MaybeIter(c, true)))
    ensures NextOf(MaybeIter(c, true)) == Ok(NoneT)
    ensures PrevOf(MaybeIter(c, true)) == Ok(SomeT(MaybeIter(c, false)))
    ensures PrevOf(MaybeIter(c, false)) == Ok(NoneT)
  {
  }
}
