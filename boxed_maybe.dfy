/**
 * include/zen/maybe.hpp: Maybe<T>, a presence flag and a boxed value.
 *
 * The box is modelled by the value it holds; the value field is only
 * meaningful while the flag is set.
 */
module ZenMaybe {
  import opened Wrappers

  class Maybe<T(0)> {
    var hasValue: bool
    var value: T

    /** The value held, if any. */
    function State(): (s: Option<T>)
      reads this
      ensures s.Some? <==> hasValue
      ensures s.Some? ==> s.value == value
    {
      if hasValue then Some(value) else None
    }

    /** Maybe(): holds nothing. */
    constructor()
      ensures State() == None
    {
      hasValue := false;
    }

    /** Maybe(Some) and some(val): holds the value. */
    constructor FromSome(value: T)
      ensures State() == Some(value)
    {
      hasValue := true;
      this.value := value;
    }

    /**
     * The move constructor: takes over the other's value, and a source
     * that held one is left empty.
     */
    constructor Moved(other: Maybe<T>)
      modifies other
      ensures State() == old(other.State())
      ensures other.State() == None
    {
      hasValue := other.hasValue;
      new;
      if other.hasValue {
        value := other.value;
        other.hasValue := false;
      }
    }

    /** The copy constructor: the other's presence and value; the source is untouched. */
    constructor Copied(other: Maybe<T>)
      ensures State() == other.State()
    {
      hasValue := other.hasValue;
      new;
      if other.hasValue {
        value := other.value;
      }
    }

    /** get(), operator* and operator->: assert a value is held. */
    function Get(): (r: T)
      reads this
      requires hasValue
      ensures State() == Some(r)
    {
      value
    }

    /** orElse(alt): the value held, or `alt` when there is none. */
    function OrElse(alt: T): (r: T)
      reads this
      ensures State().Some? ==> r == State().value
      ensures State().None? ==> r == alt
    {
      if hasValue then value else alt
    }
  }

  /**
   * orElse never yields the alternative while a value is held, and agrees
   * with get() then.
   */
  lemma OrElseAgreesWithGet<T(0)>(m: Maybe<T>, alt: T)
    requires m.hasValue
    ensures m.OrElse(alt) == m.Get()
  {
  }

  /** The test: some(1).orElse(2) is 1 and Maybe<int>().orElse(2) is 2. */
  method OrElseWorks() returns (held: int, fallback: int)
    ensures held == 1 && fallback == 2
  {
    var some := new Maybe.FromSome(1);
    var none := new Maybe<int>();
    held := some.OrElse(2);
    fallback := none.OrElse(2);
  }

  /** Moving out of a Maybe empties it, while a copy leaves it holding its value. */
  method MoveEmptiesSource() returns (moved: Option<int>, afterMove: Option<int>, copied: Option<int>, afterCopy: Option<int>)
    ensures moved == Some(5) && afterMove == None
    ensures copied == Some(7) && afterCopy == Some(7)
  {
    var a := new Maybe.FromSome(5);
    var b := new Maybe.Moved(a);
    moved := b.State();
    afterMove := a.State();
    var c := new Maybe.FromSome(7);
    var d := new Maybe.Copied(c);
    copied := d.State();
    afterCopy := c.State();
  }
}
