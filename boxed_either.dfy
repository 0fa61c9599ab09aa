/**
 * include/zen/either.hpp: Either<L, R> over boxed members, with `Maybe`
 * accessors and the maps of either side.
 *
 * `isLeft` is the `_isLeft` field; `leftBox` and `rightBox` are the two
 * members of the union, modelled by the values their boxes hold.
 */
module ZenBoxedEither {
  import opened Wrappers
  import opened ZenEither
  import opened ZenMaybe

  class Either<L(0), R(0)> {
    var isLeft: bool
    var leftBox: L
    var rightBox: R

    /** The payload the flag selects. */
    function State(): (s: Side<L, R>)
      reads this
      ensures s.LeftOf? <==> isLeft
      ensures s.LeftOf? ==> s.left == leftBox
      ensures s.RightOf? ==> s.right == rightBox
    {
      if isLeft then LeftOf(leftBox) else RightOf(rightBox)
    }

    /** Either(Left) and fromLeft(left) */
    constructor FromLeft(left: L)
      ensures State() == LeftOf(left)
    {
      isLeft := true;
      leftBox := left;
    }

    /** Either(Right) and fromRight(right) */
    constructor FromRight(right: R)
      ensures State() == RightOf(right)
    {
      isLeft := false;
      rightBox := right;
    }

    /** The copy and move constructors: the flag and the member it selects. */
    constructor Copied(other: Either<L, R>)
      ensures State() == other.State()
    {
      isLeft := other.isLeft;
      new;
      if isLeft {
        leftBox := other.leftBox;
      } else {
        rightBox := other.rightBox;
      }
    }

    /** left(): a fresh Maybe holding the left value, empty for a right. */
    method Left() returns (m: Maybe<L>)
      ensures fresh(m)
      ensures m.State() == LeftValue(State())
    {
      if !isLeft {
        m := new Maybe();
      } else {
        m := new Maybe.FromSome(leftBox);
      }
    }

    /** right(): a fresh Maybe holding the right value, empty for a left. */
    method Right() returns (m: Maybe<R>)
      ensures fresh(m)
      ensures m.State() == RightValue(State())
    {
      if isLeft {
        m := new Maybe();
      } else {
        m := new Maybe.FromSome(rightBox);
      }
    }

    /** mapLeft(f): applies `f` to a left value; a right value passes unchanged. */
    method MapLeft<L2(0)>(f: L -> L2) returns (e: Either<L2, R>)
      ensures fresh(e)
      ensures e.State() == MapLeftSide(State(), f)
    {
      if isLeft {
        e := new Either.FromLeft(f(leftBox));
      } else {
        e := new Either.FromRight(rightBox);
      }
    }

    /** mapRight(f): applies `f` to a right value; a left value passes unchanged. */
    method MapRight<R2(0)>(f: R -> R2) returns (e: Either<L, R2>)
      ensures fresh(e)
      ensures e.State() == MapRightSide(State(), f)
    {
      if isLeft {
        e := new Either.FromLeft(leftBox);
      } else {
        e := new Either.FromRight(f(rightBox));
      }
    }

    /** unwrap(), where exceptions are enabled: the right value, or the left one thrown. */
    function Unwrap(): (r: Result<R, L>)
      reads this
      ensures r.Ok? <==> State().RightOf?
      ensures r.Ok? ==> r.value == State().right
      ensures r.Err? ==> r.error == State().left
    {
      if isLeft then Err(leftBox) else Ok(rightBox)
    }

    /** isRight() */
    function IsRight(): (r: bool)
      reads this
      ensures r <==> State().RightOf?
    {
      !isLeft
    }

    /** isLeft() */
    function IsLeft(): (r: bool)
      reads this
      ensures r <==> State().LeftOf?
    {
      isLeft
    }
  }

  /** The left payload, if the either is left-valued. */
  function LeftValue<L, R>(s: Side<L, R>): (r: Option<L>)
    ensures r.Some? <==> s.LeftOf?
    ensures r.Some? ==> r.value == s.left
  {
    if s.LeftOf? then Some(s.left) else None
  }

  /** The right payload, if the either is right-valued. */
  function RightValue<L, R>(s: Side<L, R>): (r: Option<R>)
    ensures r.Some? <==> s.RightOf?
    ensures r.Some? ==> r.value == s.right
  {
    if s.RightOf? then Some(s.right) else None
  }

  /** The payload after mapLeft. */
  function MapLeftSide<L, R, L2>(s: Side<L, R>, f: L -> L2): (r: Side<L2, R>)
    ensures r.LeftOf? <==> s.LeftOf?
    ensures s.LeftOf? ==> r.left == f(s.left)
    ensures s.RightOf? ==> r.right == s.right
  {
    match s
    case LeftOf(l) => LeftOf(f(l))
    case RightOf(x) => RightOf(x)
  }

  /** The payload after mapRight. */
  function MapRightSide<L, R, R2>(s: Side<L, R>, f: R -> R2): (r: Side<L, R2>)
    ensures r.LeftOf? <==> s.LeftOf?
    ensures s.LeftOf? ==> r.left == s.left
    ensures s.RightOf? ==> r.right == f(s.right)
  {
    match s
    case LeftOf(l) => LeftOf(l)
    case RightOf(x) => RightOf(f(x))
  }

  /** Exactly one of left() and right() is present. */
  lemma OneSidePresent<L, R>(s: Side<L, R>)
    ensures LeftValue(s).Some? != RightValue(s).Some?
  {
  }

  /** isRight() is the negation of isLeft(). */
  lemma RightIsNotLeft<L(0), R(0)>(e: Either<L, R>)
    ensures e.IsRight() == !e.IsLeft()
  {
  }

  /** The two maps act on different sides, so they commute. */
  lemma MapsCommute<L, R, L2, R2>(s: Side<L, R>, f: L -> L2, g: R -> R2)
    ensures MapRightSide(MapLeftSide(s, f), g) == MapLeftSide(MapRightSide(s, g), f)
  {
  }

  /** Mapping twice on one side is mapping once with the composition. */
  lemma MapLeftCompose<L, R, L2, L3>(s: Side<L, R>, f: L -> L2, g: L2 -> L3)
    ensures MapLeftSide(MapLeftSide(s, f), g) == MapLeftSide(s, (l: L) => g(f(l)))
  {
  }

  /** Mapping a right value leaves left(), and mapping a left value leaves right(), alone. */
  lemma MapKeepsOtherSide<L, R, L2, R2>(s: Side<L, R>, f: L -> L2, g: R -> R2)
    ensures RightValue(MapLeftSide(s, f)) == RightValue(s)
    ensures LeftValue(MapRightSide(s, g)) == LeftValue(s)
  {
  }

  /** mapLeft then left() on a left value, and on a right value. */
  method MapLeftExample() returns (mapped: Option<int>, passed: Option<int>, untouched: Option<int>)
    ensures mapped == Some(11) && passed == None && untouched == Some(4)
  {
    var l := new Either<int, int>.FromLeft(10);
    var r := new Either<int, int>.FromRight(4);
    var l2 := l.MapLeft<int>((x: int) => x + 1);
    var r2 := r.MapLeft<int>((x: int) => x + 1);
    var m1 := l2.Left();
    var m2 := r2.Left();
    var m3 := r2.Right();
    mapped := m1.State();
    passed := m2.State();
    untouched := m3.State();
  }
}
