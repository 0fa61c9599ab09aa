/**
 * zen/dllist.hpp: the doubly linked list DLList and its iterator DLIter.
 *
 * The nodes a list allocates live in an arena `nodes`; a node pointer is an
 * index into it (`At(id)`) or `Null`.  The ghost `spine` is the chain of
 * node ids that the next links visit from `first`, which is what indexing
 * and iteration see.  The list keeps its defects: `prepend` on a list of two
 * or more elements links the new node to the last node, so the elements in
 * between leave the chain while the size still counts them, and the last
 * node's prev link keeps pointing at its old predecessor.
 */
module ZenDLList {
  import opened Wrappers

  datatype Ptr = Null | At(id: nat)

  /** DLListNode<T> */
  datatype Node<T> = Node(value: T, prev: Ptr, next: Ptr)

  predicate InArena<T>(nodes: seq<Node<T>>, p: Ptr) {
    p.At? ==> p.id < |nodes|
  }

  /** Every link of every node points into the arena or is null. */
  predicate Closed<T>(nodes: seq<Node<T>>) {
    forall i :: 0 <= i < |nodes| ==> InArena(nodes, nodes[i].prev) && InArena(nodes, nodes[i].next)
  }

  /**
   * `spine` is the chain of distinct nodes from `first` along the next
   * links, ending in a null link, and `last` is its final node.  (Links are
   * stated between positions i and j = i + 1, so that no fact about one
   * position mentions another on its own.)
   */
  ghost predicate IsChain<T>(nodes: seq<Node<T>>, first: Ptr, last: Ptr, spine: seq<nat>) {
    && (forall k :: 0 <= k < |spine| ==> spine[k] < |nodes|)
    && (forall i, j :: 0 <= i < j < |spine| ==> spine[i] != spine[j])
    && first == (if spine == [] then Null else At(spine[0]))
    && last == (if spine == [] then Null else At(spine[|spine| - 1]))
    && (forall i, j :: 0 <= i && j == i + 1 && j < |spine| ==> nodes[spine[i]].next == At(spine[j]))
    && (spine != [] ==> nodes[spine[|spine| - 1]].next == Null)
  }

  /** The prev links along the chain mirror its next links. */
  ghost predicate BackLinked<T>(nodes: seq<Node<T>>, spine: seq<nat>)
    requires forall k :: 0 <= k < |spine| ==> spine[k] < |nodes|
  {
    && (forall i, j :: 0 <= i && j == i + 1 && j < |spine| ==> nodes[spine[j]].prev == At(spine[i]))
    && (spine != [] ==> nodes[spine[0]].prev == Null)
  }

  /** The values of the chain's nodes, in chain order. */
  function Values<T>(nodes: seq<Node<T>>, spine: seq<nat>): (r: seq<T>)
    requires forall k :: 0 <= k < |spine| ==> spine[k] < |nodes|
    ensures |r| == |spine|
    ensures forall k :: 0 <= k < |spine| ==> r[k] == nodes[spine[k]].value
  {
    seq(|spine|, k requires 0 <= k < |spine| => nodes[spine[k]].value)
  }

  /**
   * Following `count` next links from `p`: None when a step would leave from
   * a null pointer (the ZEN_ASSERT of DLIter::operator+ fails).  Zero steps
   * always succeed, and any step taken starts from a node of the arena.
   */
  function Walk<T>(nodes: seq<Node<T>>, p: Ptr, count: nat): (r: Option<Ptr>)
    ensures r.None? ==> count > 0
    ensures r.Some? && count > 0 ==> p.At? && p.id < |nodes|
    decreases count
  {
    if count == 0 then Some(p)
    else if p.Null? || p.id >= |nodes| then None
    else Walk(nodes, nodes[p.id].next, count - 1)
  }

  // The arena rewrites of append, prepend and insert_after.

  /**
   * append: a new node whose prev link is the old last node (null on an
   * empty list) and whose next link is null; the old last node links to it.
   */
  function AppendArena<T>(nodes: seq<Node<T>>, last: Ptr, x: T): (a: seq<Node<T>>)
    requires InArena(nodes, last)
    ensures |a| == |nodes| + 1 && a[|nodes|] == Node(x, last, Null)
  {
    var n := |nodes|;
    var grown := nodes + [Node(x, last, Null)];
    if last.Null? then grown else grown[last.id := grown[last.id].(next := At(n))]
  }

  /**
   * prepend: a new node with a null prev link whose next link is the old
   * LAST node; the old first node's prev link points back at it.
   */
  function PrependArena<T>(nodes: seq<Node<T>>, first: Ptr, last: Ptr, x: T): (a: seq<Node<T>>)
    requires InArena(nodes, first)
    ensures |a| == |nodes| + 1 && a[|nodes|] == Node(x, Null, last)
  {
    var n := |nodes|;
    var grown := nodes + [Node(x, Null, last)];
    if first.Null? then grown else grown[first.id := grown[first.id].(prev := At(n))]
  }

  /**
   * insert_after: a new node between node p and its successor q, which
   * both link to it.
   */
  function InsertArena<T>(nodes: seq<Node<T>>, p: nat, x: T): (a: seq<Node<T>>)
    requires p < |nodes| && nodes[p].next.At? && nodes[p].next.id < |nodes|
    ensures |a| == |nodes| + 1 && a[|nodes|] == Node(x, At(p), nodes[p].next)
    ensures a[p].next == At(|nodes|) && a[nodes[p].next.id].prev == At(|nodes|)
    ensures forall k :: 0 <= k < |nodes| && k != p && k != nodes[p].next.id ==> a[k] == nodes[k]
  {
    var n := |nodes|;
    var q := nodes[p].next.id;
    var grown := nodes + [Node(x, At(p), At(q))];
    var linked := grown[p := grown[p].(next := At(n))];
    linked[q := linked[q].(prev := At(n))]
  }

  /** The chain after prepend: the new node, then the old last node. */
  function PrependSpine(spine: seq<nat>, n: nat): seq<nat> {
    if spine == [] then [n] else [n, spine[|spine| - 1]]
  }

  // Lemmas about chains.

  /** The next link of the j-th node of a chain. */
  lemma ChainLink<T>(nodes: seq<Node<T>>, first: Ptr, last: Ptr, spine: seq<nat>, j: nat)
    requires IsChain(nodes, first, last, spine) && j < |spine|
    ensures nodes[spine[j]].next == (if j + 1 < |spine| then At(spine[j + 1]) else Null)
  {
  }

  /** append extends the chain by the new node and keeps the back links. */
  lemma AppendExtendsChain<T>(nodes: seq<Node<T>>, first: Ptr, last: Ptr, spine: seq<nat>, x: T)
    requires Closed(nodes) && IsChain(nodes, first, last, spine)
    ensures var a, n := AppendArena(nodes, last, x), |nodes|;
      && Closed(a)
      && IsChain(a, if first.Null? then At(n) else first, At(n), spine + [n])
      && Values(a, spine + [n]) == Values(nodes, spine) + [x]
      && (BackLinked(nodes, spine) ==> BackLinked(a, spine + [n]))
  {
    var a, n := AppendArena(nodes, last, x), |nodes|;
    assert forall i :: 0 <= i < |nodes| ==> a[i].prev == nodes[i].prev && a[i].value == nodes[i].value;
    assert forall i :: 0 <= i < |nodes| && (last.Null? || i != last.id) ==> a[i].next == nodes[i].next;
    AppendKeepsNextLinks(nodes, first, last, spine, x);
    if BackLinked(nodes, spine) {
      AppendKeepsBackLinks(nodes, first, last, spine, x);
    }
  }

  /** After append, each node of the longer chain links to the next one. */
  lemma AppendKeepsNextLinks<T>(nodes: seq<Node<T>>, first: Ptr, last: Ptr, spine: seq<nat>, x: T)
    requires Closed(nodes) && IsChain(nodes, first, last, spine)
    ensures var a, s := AppendArena(nodes, last, x), spine + [|nodes|];
      forall i, j :: 0 <= i && j == i + 1 && j < |s| ==> a[s[i]].next == At(s[j])
  {
    var a, n := AppendArena(nodes, last, x), |nodes|;
    var s := spine + [n];
    forall i, j | 0 <= i && j == i + 1 && j < |s|
      ensures a[s[i]].next == At(s[j])
    {
      if j < |spine| {
        assert spine[i] != spine[|spine| - 1];
        assert nodes[spine[i]].next == At(spine[j]);
        assert a[spine[i]].next == nodes[spine[i]].next;
      }
    }
  }

  /** After append, the prev links of the longer chain still mirror its next links. */
  lemma AppendKeepsBackLinks<T>(nodes: seq<Node<T>>, first: Ptr, last: Ptr, spine: seq<nat>, x: T)
    requires Closed(nodes) && IsChain(nodes, first, last, spine) && BackLinked(nodes, spine)
    ensures var a, s := AppendArena(nodes, last, x), spine + [|nodes|];
      forall i, j :: 0 <= i && j == i + 1 && j < |s| ==> a[s[j]].prev == At(s[i])
  {
    var a, n := AppendArena(nodes, last, x), |nodes|;
    var s := spine + [n];
    forall i, j | 0 <= i && j == i + 1 && j < |s|
      ensures a[s[j]].prev == At(s[i])
    {
      if j < |spine| {
        assert nodes[spine[j]].prev == At(spine[i]);
        assert a[spine[j]].prev == nodes[spine[j]].prev;
      }
    }
  }

  /**
   * prepend yields the chain of the new node and the old last node; the
   * back links survive only on a list of at most one element.
   */
  lemma PrependShortensChain<T>(nodes: seq<Node<T>>, first: Ptr, last: Ptr, spine: seq<nat>, x: T)
    requires Closed(nodes) && IsChain(nodes, first, last, spine)
    ensures var a, n := PrependArena(nodes, first, last, x), |nodes|;
      && Closed(a)
      && IsChain(a, At(n), if last.Null? then At(n) else last, PrependSpine(spine, n))
      && Values(a, PrependSpine(spine, n))
         == (if spine == [] then [x] else [x, Values(nodes, spine)[|spine| - 1]])
      && (|spine| <= 1 && BackLinked(nodes, spine) ==> BackLinked(a, PrependSpine(spine, n)))
      && (|spine| >= 2 && BackLinked(nodes, spine) ==> !BackLinked(a, PrependSpine(spine, n)))
  {
    var a, n := PrependArena(nodes, first, last, x), |nodes|;
    var s := PrependSpine(spine, n);
    assert forall i :: 0 <= i < |nodes| ==> a[i].next == nodes[i].next && a[i].value == nodes[i].value;
    if spine != [] {
      var l := spine[|spine| - 1];
      assert s[0] == n && s[1] == l;
      assert a[s[0]].next == At(s[1]);
      if |spine| >= 2 {
        assert spine[0] != l;
        assert a[l].prev == nodes[l].prev;
        if BackLinked(nodes, spine) {
          var i, j := |spine| - 2, |spine| - 1;
          assert nodes[spine[j]].prev == At(spine[i]);
          assert spine[i] != n;
          assert a[s[1]].prev != At(s[0]);
        }
      }
    }
  }

  /** What insert_after writes: the new node, p's next link and q's prev link. */
  lemma InsertWrites<T>(nodes: seq<Node<T>>, p: nat, x: T)
    requires p < |nodes| && nodes[p].next.At? && nodes[p].next.id < |nodes|
    ensures var a, n, q := InsertArena(nodes, p, x), |nodes|, nodes[p].next.id;
      && (forall i :: 0 <= i < |nodes| && i != p && i != q ==> a[i] == nodes[i])
      && (forall i :: 0 <= i < |nodes| ==> a[i].value == nodes[i].value)
      && (forall i :: 0 <= i < |nodes| && i != p ==> a[i].next == nodes[i].next)
      && (forall i :: 0 <= i < |nodes| && i != q ==> a[i].prev == nodes[i].prev)
      && a[n] == Node(x, At(p), At(q))
      && a[p].next == At(n)
      && a[q].prev == At(n)
  {
  }

  /** The position of x in s. */
  function IndexIn(s: seq<nat>, x: nat): (k: nat)
    requires x in s
    ensures k < |s| && s[k] == x
    ensures forall j :: 0 <= j < k ==> s[j] != x
  {
    if s[0] == x then 0 else 1 + IndexIn(s[1..], x)
  }

  /** The chain with the new node n spliced in after position k. */
  function Splice(spine: seq<nat>, k: nat, n: nat): (s: seq<nat>)
    requires k < |spine|
    ensures |s| == |spine| + 1
    ensures forall j :: 0 <= j < |s| ==>
      s[j] == if j <= k then spine[j] else if j == k + 1 then n else spine[j - 1]
  {
    spine[..k + 1] + [n] + spine[k + 1..]
  }

  /** insert_after on the k-th node of the chain puts the element at k + 1. */
  lemma InsertOnChain<T>(nodes: seq<Node<T>>, first: Ptr, last: Ptr, spine: seq<nat>, k: nat, p: nat, x: T)
    requires Closed(nodes) && IsChain(nodes, first, last, spine)
    requires k < |spine| && spine[k] == p && nodes[p].next.At?
    ensures k + 1 < |spine|
    ensures var a, s := InsertArena(nodes, p, x), Splice(spine, k, |nodes|);
      && Closed(a)
      && IsChain(a, first, last, s)
      && Values(a, s) == InsertedAfter(Values(nodes, spine), k, x)
      && (BackLinked(nodes, spine) ==> BackLinked(a, s))
  {
    ChainLink(nodes, first, last, spine, k);
    InsertKeepsChain(nodes, first, last, spine, k, p, x);
    InsertKeepsBackLinks(nodes, first, last, spine, k, p, x);
    InsertKeepsValues(nodes, first, last, spine, k, p, x);
  }

  lemma InsertKeepsValues<T>(nodes: seq<Node<T>>, first: Ptr, last: Ptr, spine: seq<nat>, k: nat, p: nat, x: T)
    requires Closed(nodes) && IsChain(nodes, first, last, spine)
    requires k + 1 < |spine| && spine[k] == p && nodes[p].next == At(spine[k + 1])
    ensures var a, s := InsertArena(nodes, p, x), Splice(spine, k, |nodes|);
      && (forall j :: 0 <= j < |s| ==> s[j] < |a|)
      && Values(a, s) == InsertedAfter(Values(nodes, spine), k, x)
  {
    var n := |nodes|;
    var a, s := InsertArena(nodes, p, x), Splice(spine, k, n);
    InsertWrites(nodes, p, x);
    var v := Values(nodes, spine);
    var r := InsertedAfter(v, k, x);
    var w := Values(a, s);
    assert |w| == |r|;
    forall j | 0 <= j < |w|
      ensures w[j] == r[j]
    {
      if j <= k {
        assert s[j] == spine[j] && r[j] == v[j];
      } else if j == k + 1 {
        assert s[j] == n && r[j] == x;
      } else {
        assert s[j] == spine[j - 1] && r[j] == v[j - 1];
      }
    }
  }

  lemma InsertKeepsChain<T>(nodes: seq<Node<T>>, first: Ptr, last: Ptr, spine: seq<nat>, k: nat, p: nat, x: T)
    requires Closed(nodes) && IsChain(nodes, first, last, spine)
    requires k + 1 < |spine| && spine[k] == p && nodes[p].next == At(spine[k + 1])
    ensures var a, s := InsertArena(nodes, p, x), Splice(spine, k, |nodes|);
      Closed(a) && IsChain(a, first, last, s)
  {
    var n := |nodes|;
    var a, s := InsertArena(nodes, p, x), Splice(spine, k, n);
    InsertWrites(nodes, p, x);
    InsertKeepsNextLinks(nodes, first, last, spine, k, p, x);
    SpliceDistinct(spine, k, n);
    assert a[s[|s| - 1]].next == Null by {
      if k + 2 < |spine| {
        assert spine[|spine| - 1] != p;
      }
    }
  }

  /** Splicing a node not on the chain keeps the chain's nodes distinct. */
  lemma SpliceDistinct(spine: seq<nat>, k: nat, n: nat)
    requires k < |spine|
    requires forall i :: 0 <= i < |spine| ==> spine[i] < n
    requires forall i, j :: 0 <= i < j < |spine| ==> spine[i] != spine[j]
    ensures forall i, j :: 0 <= i < j < |Splice(spine, k, n)| ==> Splice(spine, k, n)[i] != Splice(spine, k, n)[j]
  {
    var s := Splice(spine, k, n);
    forall i, j | 0 <= i < j < |s|
      ensures s[i] != s[j]
    {
    }
  }

  /** After insert_after, each node of the spliced chain links to the next one. */
  lemma InsertKeepsNextLinks<T>(nodes: seq<Node<T>>, first: Ptr, last: Ptr, spine: seq<nat>, k: nat, p: nat, x: T)
    requires Closed(nodes) && IsChain(nodes, first, last, spine)
    requires k + 1 < |spine| && spine[k] == p && nodes[p].next == At(spine[k + 1])
    ensures var a, s := InsertArena(nodes, p, x), Splice(spine, k, |nodes|);
      forall i, j :: 0 <= i && j == i + 1 && j < |s| ==> a[s[i]].next == At(s[j])
  {
    var q, n := spine[k + 1], |nodes|;
    var a, s := InsertArena(nodes, p, x), Splice(spine, k, n);
    InsertWrites(nodes, p, x);
    forall i, j | 0 <= i && j == i + 1 && j < |s|
      ensures a[s[i]].next == At(s[j])
    {
      if i < k {
        assert spine[i] != p;
        assert nodes[spine[i]].next == At(spine[j]);
      } else if i > k + 1 {
        assert spine[i - 1] != p;
        assert nodes[spine[i - 1]].next == At(spine[j - 1]);
      } else if i == k + 1 {
        assert s[i] == n && s[j] == q;
      }
    }
  }

  lemma InsertKeepsBackLinks<T>(nodes: seq<Node<T>>, first: Ptr, last: Ptr, spine: seq<nat>, k: nat, p: nat, x: T)
    requires Closed(nodes) && IsChain(nodes, first, last, spine)
    requires k + 1 < |spine| && spine[k] == p && nodes[p].next == At(spine[k + 1])
    ensures var a, s := InsertArena(nodes, p, x), Splice(spine, k, |nodes|);
      && (forall j :: 0 <= j < |s| ==> s[j] < |a|)
      && (BackLinked(nodes, spine) ==> BackLinked(a, s))
  {
    var q, n := spine[k + 1], |nodes|;
    var a, s := InsertArena(nodes, p, x), Splice(spine, k, n);
    InsertWrites(nodes, p, x);
    if BackLinked(nodes, spine) {
      forall i, j | 0 <= i && j == i + 1 && j < |s|
        ensures a[s[j]].prev == At(s[i])
      {
        if j <= k {
          assert spine[j] != q;
          assert nodes[spine[j]].prev == At(spine[i]);
        } else if j > k + 2 {
          assert spine[j - 1] != q;
          assert nodes[spine[j - 1]].prev == At(spine[i - 1]);
        } else if j == k + 2 {
          assert s[j] == q && s[i] == n;
        }
      }
      assert a[s[0]].prev == Null by {
        if k > 0 {
          assert spine[0] != q;
        }
      }
    }
  }

  /** The chain after insert_after on node p. */
  ghost function InsertSpine(spine: seq<nat>, p: nat, n: nat): seq<nat> {
    if p in spine then Splice(spine, IndexIn(spine, p), n) else spine
  }

  /** The elements after inserting x at position k + 1. */
  function InsertedAfter<T>(v: seq<T>, k: nat, x: T): (r: seq<T>)
    requires k < |v|
    ensures |r| == |v| + 1 && r[k + 1] == x
    ensures forall j :: 0 <= j <= k ==> r[j] == v[j]
    ensures forall j :: k + 2 <= j < |r| ==> r[j] == v[j - 1]
  {
    v[..k + 1] + [x] + v[k + 1..]
  }

  /**
   * insert_after on node p: on the chain, the element lands right after
   * p and the back links survive; off the chain, nothing the chain sees
   * changes.
   */
  lemma InsertAfterChain<T>(nodes: seq<Node<T>>, first: Ptr, last: Ptr, spine: seq<nat>, p: nat, x: T)
    requires Closed(nodes) && IsChain(nodes, first, last, spine)
    requires p < |nodes| && nodes[p].next.At?
    ensures var a, s := InsertArena(nodes, p, x), InsertSpine(spine, p, |nodes|);
      && Closed(a)
      && IsChain(a, first, last, s)
      && (p in spine ==> Values(a, s) == InsertedAfter(Values(nodes, spine), IndexIn(spine, p), x))
      && (p in spine ==> |s| == |spine| + 1)
      && (p in spine && BackLinked(nodes, spine) ==> BackLinked(a, s))
      && (p !in spine ==> s == spine && Values(a, s) == Values(nodes, spine))
  {
    if p in spine {
      InsertOnChain(nodes, first, last, spine, IndexIn(spine, p), p, x);
    } else {
      InsertOffChain(nodes, first, last, spine, p, x);
    }
  }

  /** insert_after on a node the chain does not reach leaves the chain alone. */
  lemma InsertOffChain<T>(nodes: seq<Node<T>>, first: Ptr, last: Ptr, spine: seq<nat>, p: nat, x: T)
    requires Closed(nodes) && IsChain(nodes, first, last, spine)
    requires p < |nodes| && nodes[p].next.At? && p !in spine
    ensures var a := InsertArena(nodes, p, x);
      && Closed(a)
      && IsChain(a, first, last, spine)
      && Values(a, spine) == Values(nodes, spine)
  {
    InsertWrites(nodes, p, x);
  }

  /** k steps from the head of a chain reach its k-th node, and |spine| steps reach null. */
  lemma {:induction false} WalkAlongChain<T>(nodes: seq<Node<T>>, first: Ptr, last: Ptr, spine: seq<nat>, k: nat)
    requires IsChain(nodes, first, last, spine)
    requires k <= |spine|
    ensures Walk(nodes, first, k) == Some(if k < |spine| then At(spine[k]) else Null)
    decreases k
  {
    if k > 0 {
      WalkAlongChain(nodes, first, last, spine, k - 1);
      ChainLink(nodes, first, last, spine, k - 1);
      WalkOneMore(nodes, first, k - 1);
    }
  }

  /** One more step after a walk of k steps. */
  lemma {:induction false} WalkOneMore<T>(nodes: seq<Node<T>>, p: Ptr, k: nat)
    requires Walk(nodes, p, k).Some? && Walk(nodes, p, k).value.At?
    requires Walk(nodes, p, k).value.id < |nodes|
    ensures Walk(nodes, p, k + 1) == Some(nodes[Walk(nodes, p, k).value.id].next)
    decreases k
  {
    if k > 0 {
      WalkOneMore(nodes, nodes[p.id].next, k - 1);
    }
  }

  /**
   * `end()` is the last node, not the position past it: on a non-empty
   * chain a walk from the head meets it only after |spine| - 1 steps, so an
   * iteration from begin() to end() visits every element but the last.
   */
  lemma EndIsLastNode<T>(nodes: seq<Node<T>>, first: Ptr, last: Ptr, spine: seq<nat>)
    requires IsChain(nodes, first, last, spine) && spine != []
    ensures Walk(nodes, first, |spine| - 1) == Some(last)
    ensures forall k :: 0 <= k < |spine| - 1 ==> Walk(nodes, first, k) != Some(last)
  {
    WalkAlongChain(nodes, first, last, spine, |spine| - 1);
    forall k | 0 <= k < |spine| - 1
      ensures Walk(nodes, first, k) != Some(last)
    {
      WalkAlongChain(nodes, first, last, spine, k);
    }
  }

  /**
   * A DLList<T>.  The size `sz` is the counter the methods bump; it equals
   * the length of the chain only as long as `prepend` has not dropped nodes.
   */
  class DLList<T> {
    var nodes: seq<Node<T>>
    var first: Ptr
    var last: Ptr
    var sz: nat
    ghost var spine: seq<nat>

    ghost predicate Valid()
      reads this
    {
      Closed(nodes) && IsChain(nodes, first, last, spine)
    }

    /** The elements an index or a walk from the head reaches, in order. */
    ghost function Contents(): seq<T>
      reads this
      requires Valid()
    {
      Values(nodes, spine)
    }

    /** The size counter agrees with the chain. */
    ghost predicate Counted()
      reads this
    {
      sz == |spine|
    }

    /** Every prev link along the chain points at the previous node. */
    ghost predicate Linked()
      reads this
    {
      Valid() && BackLinked(nodes, spine)
    }

    /** DLList(): no first or last node, size 0. */
    constructor()
      ensures Valid() && Counted() && Linked()
      ensures Contents() == [] && sz == 0 && first == Null && last == Null
    {
      nodes := [];
      first := Null;
      last := Null;
      sz := 0;
      spine := [];
    }

    /** append: the element goes at the end, and the size grows by one. */
    method Append(element: T)
      modifies this
      requires Valid()
      ensures Valid()
      ensures Contents() == old(Contents()) + [element]
      ensures sz == old(sz) + 1
      ensures old(Counted()) ==> Counted()
      ensures old(Linked()) ==> Linked()
    {
      AppendExtendsChain(nodes, first, last, spine, element);
      var n := |nodes|;
      nodes := AppendArena(nodes, last, element);
      if first == Null {
        first := At(n);
      }
      last := At(n);
      spine := spine + [n];
      sz := sz + 1;
    }

    /**
     * prepend: on an empty list a one-element list; otherwise the new node
     * becomes the head but its next link is the LAST node, so the chain is
     * the new element followed by the old last element.
     */
    method Prepend(element: T)
      modifies this
      requires Valid()
      ensures Valid()
      ensures Contents() == if old(Contents()) == [] then [element]
                            else [element, old(Contents())[|old(Contents())| - 1]]
      ensures sz == old(sz) + 1
      ensures |old(spine)| <= 1 ==> (old(Counted()) ==> Counted()) && (old(Linked()) ==> Linked())
      ensures |old(spine)| >= 2 ==> (old(Counted()) ==> !Counted()) && (old(Linked()) ==> !Linked())
    {
      PrependShortensChain(nodes, first, last, spine, element);
      var n := |nodes|;
      nodes := PrependArena(nodes, first, last, element);
      if first == Null {
        last := At(n);
      }
      first := At(n);
      spine := PrependSpine(spine, n);
      sz := sz + 1;
    }

    /** size() */
    function Size(): (r: nat)
      reads this
      ensures Counted() ==> r == |spine|
    {
      sz
    }

    /** begin(): an iterator on the first node. */
    function Begin(): (r: Ptr)
      reads this
      requires Valid()
      ensures r == Walk(nodes, first, 0).value
      ensures Contents() != [] ==> r == At(spine[0])
    {
      first
    }

    /** end(): an iterator on the last node (see EndIsLastNode). */
    function End(): (r: Ptr)
      reads this
      requires Valid()
      ensures Contents() != [] ==> Walk(nodes, Begin(), |spine| - 1) == Some(r)
      ensures Contents() == [] ==> r == Begin()
    {
      if first == Null then last
      else EndIsLastNode(nodes, first, last, spine); last
    }

    /** DLIter::operator++: one next link, from a node. */
    function Next(current: Ptr): (r: Ptr)
      reads this
      requires Valid() && current.At? && current.id < |nodes|
      ensures Walk(nodes, current, 1) == Some(r)
      ensures InArena(nodes, r)
    {
      nodes[current.id].next
    }

    /**
     * DLIter::operator+: follows `count` next links; every step must start
     * from a node.
     */
    method Advance(from: Ptr, count: nat) returns (r: Ptr)
      requires Valid() && InArena(nodes, from)
      requires Walk(nodes, from, count).Some?
      ensures Some(r) == Walk(nodes, from, count)
    {
      r := from;
      var i := 0;
      while i < count
        invariant 0 <= i <= count
        invariant InArena(nodes, r)
        invariant Walk(nodes, from, i) == Some(r)
        invariant Walk(nodes, r, count - i) == Walk(nodes, from, count)
      {
        assert r.At?;  // the ZEN_ASSERT of the loop body
        WalkOneMore(nodes, from, i);
        r := nodes[r.id].next;
        i := i + 1;
      }
    }

    /**
     * operator[]: the index must be below the size counter, and the walk
     * must stay on nodes, which holds exactly below the chain length.
     */
    method Get(index: nat) returns (v: T)
      requires Valid()
      requires index < sz && index < |spine|
      ensures v == Contents()[index]
    {
      WalkAlongChain(nodes, first, last, spine, index);
      var p := Advance(first, index);
      v := nodes[p.id].value;
    }

    /**
     * insert_after: `pos` must be a node with a successor (the successor's
     * prev link is written).  A position on the chain places the element
     * right after it; a node the chain no longer reaches changes nothing
     * the chain sees.  The size grows by one either way.
     */
    method InsertAfter(pos: Ptr, value: T)
      modifies this
      requires Valid() && pos.At? && pos.id < |nodes|
      requires nodes[pos.id].next.At?
      ensures Valid()
      ensures sz == old(sz) + 1
      ensures pos.id in old(spine) ==>
        Contents() == InsertedAfter(old(Contents()), IndexIn(old(spine), pos.id), value)
      ensures pos.id in old(spine) && old(Counted()) ==> Counted()
      ensures pos.id in old(spine) && old(Linked()) ==> Linked()
      ensures pos.id !in old(spine) ==> Contents() == old(Contents()) && spine == old(spine)
    {
      InsertAfterChain(nodes, first, last, spine, pos.id, value);
      nodes, spine, sz := InsertArena(nodes, pos.id, value), InsertSpine(spine, pos.id, |nodes|), sz + 1;
    }

    /** first(): the list must not be empty. */
    function First(): (r: T)
      reads this
      requires Valid() && first != Null
      ensures r == Contents()[0]
    {
      nodes[first.id].value
    }
  }

  // The defects of prepend, on concrete lists.

  /**
   * Appending 1 and 2 and then prepending 0 leaves the chain [0, 2] with a
   * size of 3: `l[0]` is 0, `l[1]` is 2 and `l[2]` would walk off the list.
   */
  method PrependDropsMiddle() returns (x0: int, x1: int, size: nat)
    ensures x0 == 0 && x1 == 2 && size == 3
  {
    var l := new DLList<int>();
    l.Append(1);
    l.Append(2);
    l.Prepend(0);
    assert l.Contents() == [0, 2];
    x0 := l.Get(0);
    x1 := l.Get(1);
    size := l.Size();
  }

  /** The test of insert_after: [1, 3, 4] with 2 after the head reads 1 2 3 4. */
  method InsertAfterHead() returns (a: seq<int>)
    ensures a == [1, 2, 3, 4]
  {
    var l := new DLList<int>();
    l.Append(1);
    l.Append(3);
    l.Append(4);
    var b := l.Begin();
    assert l.nodes[l.spine[0]].next == At(l.spine[1]);
    l.InsertAfter(b, 2);
    var x0 := l.Get(0);
    var x1 := l.Get(1);
    var x2 := l.Get(2);
    var x3 := l.Get(3);
    a := [x0, x1, x2, x3];
  }
}
