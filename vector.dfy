/**
 * zen/vector.hpp: the growable buffer Vector and the helpers swap and copy.
 *
 * `buf` is the buffer the allocator returned (a fresh array of the
 * requested number of elements), `capacity` the `_capacity` field and
 * `sz` the `_sz` field.  The elements are the first `sz` slots of `buf`.
 * `ensure_capacity` and `prepend` reallocate but never update `capacity`,
 * so `capacity` stays what the constructor set while the buffer grows.
 */
module ZenVector {

  /** The capacity of a Vector built without arguments. */
  const DefaultCapacity: nat := 256

  /** A variable of type T, as `swap` sees its two references. */
  class Cell<T> {
    var value: T

    constructor(value: T)
      ensures this.value == value
    {
      this.value := value;
    }
  }

  /** swap(a, b): exchanges the two values (a no-op when both are one variable). */
  method Swap<T>(a: Cell<T>, b: Cell<T>)
    modifies a, b
    ensures a.value == old(b.value) && b.value == old(a.value)
  {
    var keep := a.value;
    a.value := b.value;
    b.value := keep;
  }

  /**
   * copy(range, out) over the range src[from..to] and the output position
   * dst[at]: each element is written to the next output slot.
   */
  method Copy<T>(src: array<T>, from: nat, to: nat, dst: array<T>, at: nat)
    requires src != dst
    requires from <= to <= src.Length && at + (to - from) <= dst.Length
    modifies dst
    ensures dst[at..at + (to - from)] == src[from..to]
    ensures dst[..at] == old(dst[..at]) && dst[at + (to - from)..] == old(dst[at + (to - from)..])
  {
    var k := 0;
    while k < to - from
      invariant 0 <= k <= to - from
      invariant dst[at..at + k] == src[from..from + k]
      invariant dst[..at] == old(dst[..at]) && dst[at + k..] == old(dst[at + k..])
    {
      dst[at + k] := src[from + k];
      k := k + 1;
    }
  }

  /** The `_ptr[k++] = element` loop of the range and initializer-list constructors. */
  method Fill<T>(a: array<T>, elements: seq<T>)
    requires |elements| <= a.Length
    modifies a
    ensures a[..|elements|] == elements
    ensures a[|elements|..] == old(a[|elements|..])
  {
    var k := 0;
    while k < |elements|
      invariant 0 <= k <= |elements|
      invariant a[..k] == elements[..k]
      invariant a[k..] == old(a[k..])
    {
      a[k] := elements[k];
      k := k + 1;
    }
  }

  class Vector<T(0)> {
    var buf: array<T>
    var capacity: nat
    var sz: nat

    /** Every write the methods make stays inside the buffer. */
    ghost predicate Valid()
      reads this
    {
      capacity <= buf.Length && sz <= buf.Length
    }

    /** The elements: the first `sz` slots of the buffer. */
    ghost function Contents(): seq<T>
      reads this, buf
      requires Valid()
    {
      buf[..sz]
    }

    /** The range constructor: capacity and size are the range's length. */
    constructor FromRange(range: seq<T>)
      ensures Valid() && fresh(buf)
      ensures Contents() == range && capacity == |range| && buf.Length == |range|
    {
      var a := new T[|range|];
      Fill(a, range);
      buf, capacity, sz := a, |range|, 0;
      new;
      sz := |range|;
    }

    /** Vector(init_capacity): an empty vector with that capacity. */
    constructor WithCapacity(initCapacity: nat)
      ensures Valid() && fresh(buf)
      ensures Contents() == [] && capacity == initCapacity && buf.Length == initCapacity
    {
      buf := new T[initCapacity];
      capacity := initCapacity;
      sz := 0;
    }

    /** Vector(): the capacity defaults to 256. */
    constructor()
      ensures Valid() && fresh(buf)
      ensures Contents() == [] && capacity == DefaultCapacity && buf.Length == DefaultCapacity
    {
      buf := new T[DefaultCapacity];
      capacity := DefaultCapacity;
      sz := 0;
    }

    /**
     * The copy constructor takes the other's size as size and capacity and
     * allocates a buffer, but copies no element: the contents have the
     * other's length and nothing is known of their values.
     */
    constructor Copied(other: Vector<T>)
      requires other.Valid()
      ensures Valid() && fresh(buf)
      ensures |Contents()| == |other.Contents()| && capacity == other.sz
    {
      buf := new T[other.sz];
      capacity := other.sz;
      sz := other.sz;
    }

    /**
     * The initializer-list constructor writes the elements into a buffer of
     * their number, but the size stays 0.
     */
    constructor FromList(elements: seq<T>)
      ensures Valid() && fresh(buf)
      ensures Contents() == [] && capacity == |elements|
      ensures buf[..] == elements
    {
      var a := new T[|elements|];
      Fill(a, elements);
      buf := a;
      capacity := |elements|;
      sz := 0;
    }

    /**
     * ensure_capacity: below the requested capacity, copies the elements
     * into a fresh buffer of that size; `capacity` itself never changes.
     * The new buffer must hold the elements it receives.
     */
    method EnsureCapacity(newCapacity: nat)
      requires Valid()
      requires capacity < newCapacity ==> sz <= newCapacity
      modifies this
      ensures Valid()
      ensures Contents() == old(Contents()) && capacity == old(capacity)
      ensures old(capacity) < newCapacity ==> fresh(buf) && buf.Length == newCapacity
      ensures old(capacity) >= newCapacity ==> buf == old(buf)
    {
      if capacity < newCapacity {
        var newBuf := new T[newCapacity];
        Copy(buf, 0, sz, newBuf, 0);
        buf := newBuf;
      }
    }

    /** operator[]: the index must be below the size. */
    function Get(index: nat): (r: T)
      reads this, buf
      requires Valid() && index < sz
      ensures r == Contents()[index]
    {
      buf[index]
    }

    /** Writing through the reference operator[] returns. */
    method Set(index: nat, value: T)
      requires Valid() && index < sz
      modifies buf
      ensures Valid()
      ensures Contents() == old(Contents())[index := value]
    {
      buf[index] := value;
    }

    /**
     * append: the element lands at the old size and every earlier element
     * survives the reallocation.
     */
    method Append(element: T)
      requires Valid()
      modifies this, buf
      ensures Valid()
      ensures Contents() == old(Contents()) + [element]
      ensures capacity == old(capacity)
      ensures buf == old(buf) || fresh(buf)
    {
      EnsureCapacity(sz + 1);
      buf[sz] := element;
      sz := sz + 1;
    }

    /**
     * prepend: always reallocates `capacity + 1` slots and copies the
     * elements one slot up, so the elements must fit there: the size may
     * not exceed the capacity field.
     */
    method Prepend(element: T)
      requires Valid() && sz <= capacity
      modifies this
      ensures Valid() && fresh(buf) && buf.Length == capacity + 1
      ensures Contents() == [element] + old(Contents())
      ensures capacity == old(capacity)
    {
      var newCapacity := capacity + 1;
      var newBuf := new T[newCapacity];
      Copy(buf, 0, sz, newBuf, 1);
      buf := newBuf;
      buf[0] := element;
      sz := sz + 1;
    }

    /** capacity() */
    function Capacity(): (r: nat)
      reads this
      ensures r == capacity
    {
      capacity
    }

    /** size() */
    function Size(): (r: nat)
      reads this, buf
      requires Valid()
      ensures r == |Contents()|
    {
      sz
    }
  }

  /** The first half of the growth test: four appends fill a vector of capacity 4. */
  method FilledToCapacity() returns (v: Vector<int>)
    ensures fresh(v) && fresh(v.buf) && v.Valid()
    ensures v.Contents() == [1, 2, 3, 4] && v.capacity == 4
  {
    v := new Vector<int>.WithCapacity(4);
    v.Append(1);
    v.Append(2);
    v.Append(3);
    v.Append(4);
  }

  /**
   * The growth test: a vector of capacity 4 keeps six appended elements in
   * order, while its capacity still reads 4.
   */
  method GrowsWhenInsertingElements() returns (elements: seq<int>, capacity: nat)
    ensures elements == [1, 2, 3, 4, 5, 6] && capacity == 4
  {
    var v := FilledToCapacity();
    v.Append(5);
    v.Append(6);
    elements := [v.Get(0), v.Get(1), v.Get(2), v.Get(3), v.Get(4), v.Get(5)];
    capacity := v.Capacity();
  }

  /**
   * After two appends to a vector of capacity 1 the size exceeds the
   * capacity field, so a prepend would copy two elements into a buffer of
   * two slots starting at slot 1.
   */
  method PrependAfterGrowthOverflows() returns (size: nat, capacity: nat)
    ensures size == 2 && capacity == 1 && size > capacity
  {
    var v := new Vector<int>.WithCapacity(1);
    v.Append(1);
    v.Append(2);
    size := v.Size();
    capacity := v.Capacity();
  }
}
