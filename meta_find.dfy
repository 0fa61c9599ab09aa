/**
 * zen/meta/find.hpp: `meta::find_<PredT, RangeT>`, the first element of a
 * range that satisfies a predicate.  As written it uses cond_t, which the
 * library does not define, and the size_ and deref_ hooks, which have no
 * implementation; this is the rule its three cases spell out, over the
 * remaining elements of the range, with the predicate's value given as a
 * function.
 */
module MetaFind {
  import opened MetaTerm
  import opened MetaMaybe

  /**
   * none_ on an empty range, some_ of the head if it satisfies pred, else
   * search the rest: whatever is found is an element that satisfies pred.
   */
  function FindOf(pred: Ty -> bool, elements: seq<Ty>): (r: Ty)
    ensures r == NoneT || (r.Inst? && |r.args| == 1 && r == SomeT(r.args[0]) && r.args[0] in elements && pred(r.args[0]))
  {
    if elements == [] then NoneT
    else if pred(elements[0]) then SomeT(elements[0])
    else FindOf(pred, elements[1..])
  }

  /**
   * The result is some_ of the first satisfying element, and every earlier
   * element fails; it is none_ exactly when no element satisfies pred.
   */
  lemma {:induction false} FindFirst(pred: Ty -> bool, elements: seq<Ty>)
    ensures FindOf(pred, elements) == NoneT <==> forall i :: 0 <= i < |elements| ==> !pred(elements[i])
    ensures FindOf(pred, elements) != NoneT ==>
      exists j :: 0 <= j < |elements| && FindOf(pred, elements) == SomeT(elements[j]) && pred(elements[j])
        && forall i :: 0 <= i < j ==> !pred(elements[i])
    decreases |elements|
  {
    if elements != [] && !pred(elements[0]) {
      var rest := elements[1..];
      FindFirst(pred, rest);
      assert forall i :: 1 <= i < |elements| ==> elements[i] == rest[i - 1];
      if FindOf(pred, rest) != NoneT {
        var j :| 0 <= j < |rest| && FindOf(pred, rest) == SomeT(rest[j]) && pred(rest[j])
          && forall i :: 0 <= i < j ==> !pred(rest[i]);
        assert FindOf(pred, elements) == SomeT(elements[j + 1]);
        assert forall i :: 0 <= i < j + 1 ==> !pred(elements[i]) by {
          forall i | 0 <= i < j + 1 ensures !pred(elements[i]) {
            if i > 0 { assert elements[i] == rest[i - 1]; }
          }
        }
      } else {
        assert forall i :: 0 <= i < |elements| ==> !pred(elements[i]) by {
          forall i | 0 <= i < |elements| ensures !pred(elements[i]) {
            if i > 0 { assert elements[i] == rest[i - 1]; }
          }
        }
      }
    } else if elements != [] {
      assert FindOf(pred, elements) == SomeT(elements[0]);
    }
  }

  /** The three cases of find_ one by one. */
  lemma FindCases(pred: Ty -> bool, x: Ty, rest: seq<Ty>)
    ensures FindOf(pred, []) == NoneT
    ensures pred(x) ==> FindOf(pred, [x] + rest) == SomeT(x)
    ensures !pred(x) ==> FindOf(pred, [x] + rest) == FindOf(pred, rest)
  {
    assert ([x] + rest)[1..] == rest;
  }
}
