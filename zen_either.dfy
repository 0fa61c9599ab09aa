/**
 * zen/either.hpp: the tagged union Either<L, R>, its Either<L, void>
 * specialisation and the ZEN_TRY early-return macros.
 *
 * In the source the two payloads are members of one union and share
 * storage, so reading the member the tag does not select is undefined
 * behaviour.  The model keeps them as two fields and treats the inactive
 * one as an arbitrary value: a constructor writes the member it is given
 * and the tag; an assignment writes one member and leaves the tag alone.
 */
module ZenEither {

  /** The value an Either stands for: a left or a right payload. */
  datatype Side<L, R> = LeftOf(left: L) | RightOf(right: R)

  class Either<L(0), R(0)> {
    var hasRight: bool
    var leftValue: L
    var rightValue: R

    /** The payload the tag selects. */
    function State(): (s: Side<L, R>)
      reads this
      ensures s.RightOf? <==> hasRight
      ensures s.LeftOf? ==> s.left == leftValue
      ensures s.RightOf? ==> s.right == rightValue
    {
      if hasRight then RightOf(rightValue) else LeftOf(leftValue)
    }

    /** Either(Left): a left-valued either. */
    constructor FromLeft(value: L)
      ensures State() == LeftOf(value)
    {
      leftValue := value;
      hasRight := false;
    }

    /** Either(Right): a right-valued either. */
    constructor FromRight(value: R)
      ensures State() == RightOf(value)
    {
      rightValue := value;
      hasRight := true;
    }

    /** The move constructor: takes the other's tag and the member it selects. */
    constructor Moved(other: Either<L, R>)
      ensures State() == other.State()
    {
      hasRight := other.hasRight;
      new;
      if hasRight {
        rightValue := other.rightValue;
      } else {
        leftValue := other.leftValue;
      }
    }

    /**
     * operator=, copying and moving alike: writes the member the TARGET's
     * own tag selects, taking the other's member of that name, and never
     * copies the tag.  Across sides the result keeps its old side and reads
     * the other's inactive member.
     */
    method Assign(other: Either<L, R>)
      modifies this
      ensures hasRight == old(hasRight)
      ensures old(hasRight) ==> rightValue == old(other.rightValue) && leftValue == old(leftValue)
      ensures !old(hasRight) ==> leftValue == old(other.leftValue) && rightValue == old(rightValue)
    {
      if hasRight {
        rightValue := other.rightValue;
      } else {
        leftValue := other.leftValue;
      }
    }

    /** is_left() */
    function IsLeft(): (r: bool)
      reads this
      ensures r <==> State().LeftOf?
    {
      !hasRight
    }

    /** is_right() */
    function IsRight(): (r: bool)
      reads this
      ensures r <==> State().RightOf?
    {
      hasRight
    }

    /** left(): asserts the either is left-valued. */
    function Left(): (r: L)
      reads this
      requires IsLeft()
      ensures State() == LeftOf(r)
    {
      leftValue
    }

    /**
     * operator*, operator->, right() and unwrap(): the right value.  All but
     * unwrap() assert the either is right-valued; unwrap() panics otherwise.
     */
    function Right(): (r: R)
      reads this
      requires IsRight()
      ensures State() == RightOf(r)
    {
      rightValue
    }
  }

  /** The two queries are complements. */
  lemma LeftIsNotRight<L(0), R(0)>(e: Either<L, R>)
    ensures e.IsLeft() == !e.IsRight()
  {
  }

  /**
   * The converting constructors, copying and moving alike: the tag and the
   * member it selects, each converted to the new payload types.
   */
  method Convert<L(0), R(0), L2(0), R2(0)>(other: Either<L2, R2>, toLeft: L2 -> L, toRight: R2 -> R)
    returns (e: Either<L, R>)
    ensures fresh(e)
    ensures e.State() == ConvertSide(other.State(), toLeft, toRight)
  {
    if other.hasRight {
      e := new Either.FromRight(toRight(other.rightValue));
    } else {
      e := new Either.FromLeft(toLeft(other.leftValue));
    }
  }

  /** The payload after a conversion of both payload types. */
  function ConvertSide<L, R, L2, R2>(s: Side<L2, R2>, toLeft: L2 -> L, toRight: R2 -> R): (r: Side<L, R>)
    ensures r.LeftOf? <==> s.LeftOf?
    ensures s.LeftOf? ==> r.left == toLeft(s.left)
    ensures s.RightOf? ==> r.right == toRight(s.right)
  {
    match s
    case LeftOf(l) => LeftOf(toLeft(l))
    case RightOf(x) => RightOf(toRight(x))
  }

  /** Converting with the identities changes nothing. */
  lemma ConvertIdentity<L, R>(s: Side<L, R>)
    ensures ConvertSide(s, (l: L) => l, (x: R) => x) == s
  {
  }

  /**
   * Assigning a right-valued either to a left-valued one: the target stays
   * left-valued and its left value becomes whatever the source's inactive
   * left member holds.  In the source that member shares storage with the
   * right value, so the read is undefined behaviour; the model only says
   * the target receives that arbitrary value and stays left-valued.
   */
  method AssignAcrossSides() returns (left: bool, value: int, stale: int, sourceLeft: bool)
    ensures left && !sourceLeft && value == stale
  {
    var e1 := new Either<int, int>.FromLeft(1);
    var e2 := new Either<int, int>.FromRight(10);
    stale := e2.leftValue;
    e1.Assign(e2);
    left := e1.IsLeft();
    value := e1.Left();
    sourceLeft := e2.IsLeft();
  }

  /** The test: an either built from left(10) is left-valued and holds 10. */
  method CanConstructLeftValue() returns (isLeft: bool, value: int)
    ensures isLeft && value == 10
  {
    var e1 := new Either<int, bool>.FromLeft(10);
    isLeft := e1.IsLeft();
    value := e1.Left();
  }

  /**
   * Either<L, void>: a flag that says whether a left value is held, and
   * that value.
   */
  class VoidEither<L(0)> {
    var hasLeft: bool
    var leftValue: L

    /** The left value, or none for the right (void) side. */
    function State(): (s: Side<L, ()>)
      reads this
      ensures s.LeftOf? <==> hasLeft
      ensures s.LeftOf? ==> s.left == leftValue
    {
      if hasLeft then LeftOf(leftValue) else RightOf(())
    }

    /** Either(Left) */
    constructor FromLeft(value: L)
      ensures State() == LeftOf(value)
    {
      leftValue := value;
      hasLeft := true;
    }

    /** Either(Right<void>) */
    constructor FromRight()
      ensures State() == RightOf(())
    {
      hasLeft := false;
    }

    /** The copy constructor: the flag, and the value when there is one. */
    constructor Copied(other: VoidEither<L>)
      ensures State() == other.State()
    {
      hasLeft := other.hasLeft;
      new;
      if other.hasLeft {
        leftValue := other.leftValue;
      }
    }

    /** is_left() */
    function IsLeft(): (r: bool)
      reads this
      ensures r <==> State().LeftOf?
    {
      hasLeft
    }

    /** is_right() */
    function IsRight(): (r: bool)
      reads this
      ensures r <==> State() == RightOf(())
    {
      !hasLeft
    }

    /** left(): asserts a left value is held. */
    function Left(): (r: L)
      reads this
      requires IsLeft()
      ensures State() == LeftOf(r)
    {
      leftValue
    }
  }

  /** A void either is left exactly when it was built from a left value. */
  method VoidSides() returns (fromLeft: bool, fromRight: bool, value: int)
    ensures fromLeft && !fromRight && value == 3
  {
    var l := new VoidEither.FromLeft(3);
    var r := new VoidEither<int>.FromRight();
    fromLeft := l.IsLeft();
    fromRight := r.IsLeft();
    value := l.Left();
  }

  /**
   * ZEN_TRY(value) and ZEN_TRY2(expr) inside a function returning an
   * either: a left value returns at once, as a left of the function's
   * result; otherwise the rest of the function runs and gives `rest`.
   * ZEN_TRY2 evaluates `expr` once into a temporary, which is `value` here.
   */
  function Try<L, R, T>(value: Side<L, R>, rest: Side<L, T>): (r: Side<L, T>)
    ensures value.LeftOf? ==> r == LeftOf(value.left)
    ensures value.RightOf? ==> r == rest
  {
    if value.LeftOf? then LeftOf(value.left) else rest
  }

  /** True when every check holds a right value. */
  predicate AllRight<L, R>(checks: seq<Side<L, R>>)
  {
    forall i :: 0 <= i < |checks| ==> checks[i].RightOf?
  }

  /**
   * A function body that starts with one ZEN_TRY per check, then gives
   * `rest`: its result is `rest` or the left value of one of the checks.
   */
  function TryAll<L, R, T>(checks: seq<Side<L, R>>, rest: Side<L, T>): (r: Side<L, T>)
    ensures r == rest || exists k :: 0 <= k < |checks| && checks[k].LeftOf? && r == LeftOf(checks[k].left)
  {
    if checks == [] then rest
    else
      var tail := TryAll(checks[1..], rest);
      assert forall k :: 0 <= k < |checks[1..]| ==> checks[1..][k] == checks[k + 1];
      Try(checks[0], tail)
  }

  /**
   * A chain of ZEN_TRYs returns the first left value among the checks, and
   * the rest of the body runs only when every check is right.
   */
  lemma {:induction false} TryAllFirstLeft<L, R, T>(checks: seq<Side<L, R>>, rest: Side<L, T>)
    ensures AllRight(checks) ==> TryAll(checks, rest) == rest
    ensures forall k :: 0 <= k < |checks| && checks[k].LeftOf? && AllRight(checks[..k]) ==>
      TryAll(checks, rest) == LeftOf(checks[k].left)
  {
    if checks != [] {
      TryAllFirstLeft(checks[1..], rest);
      forall k | 0 <= k < |checks| && checks[k].LeftOf? && AllRight(checks[..k])
        ensures TryAll(checks, rest) == LeftOf(checks[k].left)
      {
        if k > 0 {
          assert checks[0] == checks[..k][0];
          assert checks[1..][k - 1] == checks[k];
          assert checks[1..][..k - 1] == checks[..k][1..];
          assert AllRight(checks[1..][..k - 1]) by {
            forall i | 0 <= i < k - 1 ensures checks[..k][1..][i].RightOf? {
              assert checks[..k][1..][i] == checks[..k][i + 1];
            }
          }
        }
      }
      if AllRight(checks) {
        assert AllRight(checks[1..]) by {
          assert forall i :: 0 <= i < |checks| - 1 ==> checks[1..][i] == checks[i + 1];
        }
      }
    }
  }
}
