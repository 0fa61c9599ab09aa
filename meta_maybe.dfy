/**
 * zen/meta/maybe/types.hpp: the type-level option some_<T> / none_.
 */
module MetaMaybe {
  import opened Wrappers
  import opened MetaTerm

  /** some_<T> */
  function SomeT(t: Ty): Ty {
    Inst(SomeTmpl, [t])
  }

  /** The `has_value` member: true for some_, false for none_, absent elsewhere. */
  function HasValueMember(t: Ty): (r: Result<bool, Error>)
    ensures t == NoneT ==> r == Ok(false)
    ensures (t.Inst? && t.tmpl.SomeTmpl? && |t.args| == 1) ==> r == Ok(true)
    ensures r.Ok? ==> t == NoneT || (t.Inst? && t.tmpl.SomeTmpl?)
  {
    if t == NoneT then Ok(false)
    else if t.Inst? && t.tmpl.SomeTmpl? then
      if |t.args| == 1 then Ok(true) else Err(WrongArity)
    else Err(NoMember("has_value"))
  }

  /**
   * `is_none_<T>::value`: only the specialisation for none_ is true, so it
   * holds of no template instance, some_<T> included, and where it holds
   * has_value is false.
   */
  predicate IsNoneOf(t: Ty): (r: bool)
    ensures r ==> HasValueMember(t) == Ok(false)
    ensures t.Inst? ==> !r
  {
    t == NoneT
  }

  lemma SomeIsNotNone(t: Ty)
    ensures !IsNoneOf(SomeT(t)) && IsNoneOf(NoneT)
    ensures HasValueMember(SomeT(t)) == Ok(true) && HasValueMember(NoneT) == Ok(false)
  {
  }
}
