/**
 * zen/meta/lambda.hpp: the binders arg_n_, binder detection, positional
 * substitution of the `_` placeholder, apply_sequence and apply_lambda_.
 */
module MetaLambda {
  import opened Wrappers
  import opened MetaTerm
  import opened MetaCommon

  /** `is_type_binder<T>::value` */
  predicate IsTypeBinderOf(t: Ty) {
    t.Binder?
  }

  /** `_1` .. `_9` are arg_n_<0> .. arg_n_<8>: binders, numbered from zero. */
  function NumberedBinder(n: nat): (r: Ty)
    requires 1 <= n <= 9
    ensures IsTypeBinderOf(r) && r.index == n - 1
  {
    Binder(n - 1)
  }

  /**
   * `has_type_binder<Ts...>::value`: false for the empty pack, otherwise the
   * head's is_type_binder or the tail's has_type_binder.
   */
  function HasTypeBinderOf(ts: seq<Ty>): (r: bool)
    ensures r <==> exists i :: 0 <= i < |ts| && IsTypeBinderOf(ts[i])
  {
    if ts == [] then false
    else
      var rest := HasTypeBinderOf(ts[1..]);
      assert rest <==> exists i :: 1 <= i < |ts| && IsTypeBinderOf(ts[i]) by {
        assert forall i :: 1 <= i < |ts| ==> ts[i] == ts[1..][i - 1];
        if rest {
          var j :| 0 <= j < |ts[1..]| && IsTypeBinderOf(ts[1..][j]);
          assert IsTypeBinderOf(ts[j + 1]);
        }
      }
      IsTypeBinderOf(ts[0]) || rest
  }

  /**
   * `is_lambda_expr_<T>::value`: for a template instance, whether one of its
   * direct arguments is a binder; false for every other type.
   */
  predicate IsLambdaExprOf(t: Ty) {
    t.Inst? && HasTypeBinderOf(t.args)
  }

  /** The number of `_` placeholders in ps. */
  function Placeholders(ps: seq<Ty>): nat
  {
    if ps == [] then 0
    else Placeholders(ps[..|ps| - 1]) + (if ps[|ps| - 1] == Placeholder then 1 else 0)
  }

  /**
   * `substitute_parameters_<I, K, ParamTs, ArgTs>`: walks the parameters from
   * index I; a `_` at index I is replaced by argument K (with the tuple
   * setter) and consumes it, any other parameter is kept.  The template, as
   * written, instantiates every case of its cond_ eagerly and so does not
   * compile; this is the rule its text spells out.
   */
  function SubstituteFrom(i: nat, k: nat, ps: seq<Ty>, args: seq<Ty>): (r: Result<seq<Ty>, Error>)
    requires i <= |ps|
    ensures r.Ok? ==> |r.value| == |ps|
    decreases |ps| - i
  {
    if i == |ps| then Ok(ps)
    else if ps[i] == Placeholder then
      if k < |args| then
        var updated :- SetTupleElement(i, args[k], ListT(ps));
        SubstituteFrom(i + 1, k + 1, updated.args, args)
      else
        Err(IndexOutOfRange)
    else
      SubstituteFrom(i + 1, k, ps, args)
  }

  /**
   * `substitute_parameters_<0, 0, tuple<Ps...>, tuple<As...>>::type`: the
   * parameters, as many as before, with every one that is not `_` kept.
   */
  function SubstituteParameters(ps: seq<Ty>, args: seq<Ty>): (r: Result<seq<Ty>, Error>)
    ensures r.Ok? ==> |r.value| == |ps|
    ensures r.Ok? ==> forall j :: 0 <= j < |ps| && ps[j] != Placeholder ==> r.value[j] == ps[j]
    ensures r.Err? ==> r.error == IndexOutOfRange || r.error == Incomplete("set_tuple_element_helper_")
  {
    assert ps[0..] == ps;
    SubstituteFromSpec(0, 0, ps, args, ps);
    SubstituteFromErrors(0, 0, ps, args);
    SubstituteFrom(0, 0, ps, args)
  }

  /** `apply_sequence<Fn, std::tuple<Ts...>>::type` is Fn<Ts...>. */
  function ApplySequence(tm: Tmpl, t: Ty): (r: Outcome)
    ensures t.Inst? && t.tmpl.Tuple? ==> r == Ok(Inst(tm, t.args))
    ensures !(t.Inst? && t.tmpl.Tuple?) ==> r == Err(Incomplete("apply_sequence"))
  {
    if t.Inst? && t.tmpl.Tuple? then Ok(Inst(tm, t.args)) else Err(Incomplete("apply_sequence"))
  }

  /**
   * `apply_lambda_<Fn<Ps...>, As...>::type`: the same template Fn over as
   * many parameters; only a template instance can be applied.
   */
  function ApplyLambdaOf(fn: Ty, args: seq<Ty>): (r: Outcome)
    ensures r.Ok? ==> fn.Inst? && r.value.Inst? && r.value.tmpl == fn.tmpl && |r.value.args| == |fn.args|
    ensures !fn.Inst? ==> r == Err(Incomplete("apply_lambda_"))
  {
    if fn.Inst? then
      var substituted :- SubstituteParameters(fn.args, args);
      ApplySequence(fn.tmpl, ListT(substituted))
    else
      Err(Incomplete("apply_lambda_"))
  }

  // Lemmas.

  lemma {:induction false} PlaceholdersMonotone(ps: seq<Ty>, j: nat)
    requires j <= |ps|
    ensures Placeholders(ps[..j]) <= Placeholders(ps)
    decreases |ps|
  {
    if j < |ps| {
      assert ps[..|ps| - 1][..j] == ps[..j];
      PlaceholdersMonotone(ps[..|ps| - 1], j);
    } else {
      assert ps[..j] == ps;
    }
  }

  /** What every step of the walk from I computes, in terms of the original parameters. */
  predicate SubstitutionOk(i: nat, orig: seq<Ty>, args: seq<Ty>)
    requires i <= |orig|
  {
    forall j :: i <= j < |orig| && orig[j] == Placeholder ==>
      Placeholders(orig[..j]) < |args| && HasSetter(j)
  }

  function Substituted(orig: seq<Ty>, args: seq<Ty>, j: nat): Ty
    requires j < |orig|
    requires orig[j] == Placeholder ==> Placeholders(orig[..j]) < |args|
  {
    if orig[j] == Placeholder then args[Placeholders(orig[..j])] else orig[j]
  }

  lemma {:induction false} SubstituteFromSpec(i: nat, k: nat, ps: seq<Ty>, args: seq<Ty>, orig: seq<Ty>)
    requires i <= |ps| == |orig|
    requires ps[i..] == orig[i..]
    requires k == Placeholders(orig[..i])
    ensures SubstituteFrom(i, k, ps, args).Ok? <==> SubstitutionOk(i, orig, args)
    ensures SubstituteFrom(i, k, ps, args).Ok? ==>
      var r := SubstituteFrom(i, k, ps, args).value;
      (forall j :: 0 <= j < i ==> r[j] == ps[j]) &&
      (forall j :: i <= j < |orig| ==> r[j] == Substituted(orig, args, j))
    decreases |ps| - i
  {
    if i == |ps| {
      return;
    }
    assert ps[i] == orig[i] by { assert ps[i..][0] == orig[i..][0]; }
    assert orig[..i + 1][..i] == orig[..i];
    var k' := if orig[i] == Placeholder then k + 1 else k;
    assert k' == Placeholders(orig[..i + 1]);
    if ps[i] == Placeholder {
      if k < |args| && HasSetter(i) {
        var ps' := ps[i := args[k]];
        assert SetTupleElement(i, args[k], ListT(ps)) == Ok(ListT(ps'));
        assert ps'[i + 1..] == orig[i + 1..] by {
          assert ps'[i + 1..] == ps[i + 1..];
          assert ps[i + 1..] == ps[i..][1..];
          assert orig[i + 1..] == orig[i..][1..];
        }
        SubstituteFromSpec(i + 1, k + 1, ps', args, orig);
      } else {
        assert !SubstitutionOk(i, orig, args);
      }
    } else {
      assert ps[i + 1..] == orig[i + 1..] by {
        assert ps[i + 1..] == ps[i..][1..];
        assert orig[i + 1..] == orig[i..][1..];
      }
      SubstituteFromSpec(i + 1, k, ps, args, orig);
    }
  }

  /** The two ways the walk fails: a `_` with no argument left, or one at a position with no setter. */
  lemma {:induction false} SubstituteFromErrors(i: nat, k: nat, ps: seq<Ty>, args: seq<Ty>)
    requires i <= |ps|
    ensures var r := SubstituteFrom(i, k, ps, args);
      r.Err? ==> r.error == IndexOutOfRange || r.error == Incomplete("set_tuple_element_helper_")
    decreases |ps| - i
  {
    if i < |ps| {
      if ps[i] == Placeholder {
        if k < |args| && SetTupleElement(i, args[k], ListT(ps)).Ok? {
          SubstituteFromErrors(i + 1, k + 1, SetTupleElement(i, args[k], ListT(ps)).value.args, args);
        }
      } else {
        SubstituteFromErrors(i + 1, k, ps, args);
      }
    }
  }

  /**
   * Substitution replaces each `_`, left to right, by the next unused
   * argument and keeps every other parameter; it succeeds exactly when every
   * placeholder finds an argument and a setter for its position.
   */
  lemma SubstituteParametersSpec(ps: seq<Ty>, args: seq<Ty>)
    ensures SubstituteParameters(ps, args).Ok? <==> SubstitutionOk(0, ps, args)
    ensures SubstituteParameters(ps, args).Ok? ==>
      var r := SubstituteParameters(ps, args).value;
      |r| == |ps| && forall j :: 0 <= j < |ps| ==> r[j] == Substituted(ps, args, j)
  {
    assert ps[0..] == ps;
    SubstituteFromSpec(0, 0, ps, args, ps);
  }

  /** A successful substitution had at least as many arguments as placeholders. */
  lemma {:induction false} EnoughArguments(ps: seq<Ty>, args: seq<Ty>)
    requires SubstitutionOk(0, ps, args)
    ensures Placeholders(ps) <= |args|
    decreases |ps|
  {
    if ps != [] {
      var init := ps[..|ps| - 1];
      assert SubstitutionOk(0, init, args) by {
        forall j | 0 <= j < |init| && init[j] == Placeholder
          ensures Placeholders(init[..j]) < |args| && HasSetter(j)
        {
          assert init[..j] == ps[..j];
        }
      }
      EnoughArguments(init, args);
      if ps[|ps| - 1] == Placeholder {
        assert ps[..|ps| - 1] == init;
      }
    }
  }

  /** Surplus arguments are unused: with enough arguments only the settable positions matter. */
  lemma {:induction false} SurplusArgumentsUnused(ps: seq<Ty>, args: seq<Ty>)
    requires Placeholders(ps) <= |args|
    requires forall j :: 0 <= j < |ps| && ps[j] == Placeholder ==> HasSetter(j)
    ensures SubstituteParameters(ps, args).Ok?
  {
    forall j | 0 <= j < |ps| && ps[j] == Placeholder
      ensures Placeholders(ps[..j]) < |args|
    {
      assert ps[..j + 1][..j] == ps[..j];
      PlaceholdersMonotone(ps, j + 1);
    }
    SubstituteParametersSpec(ps, args);
  }

  /** apply_lambda_ re-applies the template to the substituted parameters. */
  lemma ApplyLambdaReapplies(tm: Tmpl, ps: seq<Ty>, args: seq<Ty>)
    requires SubstituteParameters(ps, args).Ok?
    ensures ApplyLambdaOf(Inst(tm, ps), args) == Ok(Inst(tm, SubstituteParameters(ps, args).value))
  {
  }

  /**
   * The nine binders are distinct, and each of them makes any template
   * instance that takes it as a direct argument a lambda expression.
   */
  lemma NumberedBindersDistinct(m: nat, n: nat, tm: Tmpl, before: seq<Ty>, after: seq<Ty>)
    requires 1 <= m <= 9 && 1 <= n <= 9
    ensures NumberedBinder(m) == NumberedBinder(n) <==> m == n
    ensures HasTypeBinderOf(before + [NumberedBinder(n)] + after)
    ensures IsLambdaExprOf(Inst(tm, before + [NumberedBinder(n)] + after))
  {
    assert (before + [NumberedBinder(n)] + after)[|before|] == NumberedBinder(n);
  }

  /** Nested binders do not make a lambda expression; non-templates never are. */
  lemma LambdaExprExamples(tm: Tmpl, inner: Tmpl)
    ensures IsLambdaExprOf(Inst(tm, [Named("int"), Binder(0)]))
    ensures !IsLambdaExprOf(Inst(tm, [Inst(inner, [Binder(0)])]))
    ensures !IsLambdaExprOf(Binder(0)) && !IsLambdaExprOf(Inst(tm, []))
  {
    assert IsTypeBinderOf([Named("int"), Binder(0)][1]);
  }
}
