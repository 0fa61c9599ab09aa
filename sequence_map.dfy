/**
 * zen/sequence_map.hpp: a map that remembers insertion order.
 *
 * `sequence` is the std::list of key/value pairs, each list node an
 * `Entry` object with its own identity; `index` is the unordered_map from
 * a key to the entry whose value it points at.  Neither the entries nor
 * the keys are ever removed.
 */
module ZenSequenceMap {

  /** One node of the list: a `std::pair<const Key, Value>`. */
  class Entry<K, V> {
    const key: K
    const value: V

    constructor(key: K, value: V)
      ensures this.key == key && this.value == value
    {
      this.key := key;
      this.value := value;
    }
  }

  /** The key/value pairs that a sequence of entries holds, in order. */
  function PairsOf<K, V>(s: seq<Entry<K, V>>): (r: seq<(K, V)>)
    ensures |r| == |s|
    ensures forall i :: 0 <= i < |s| ==> r[i] == (s[i].key, s[i].value)
  {
    seq(|s|, i requires 0 <= i < |s| => (s[i].key, s[i].value))
  }

  /** The keys occurring among some pairs. */
  ghost function KeysOf<K, V>(pairs: seq<(K, V)>): set<K>
  {
    set i | 0 <= i < |pairs| :: pairs[i].0
  }

  /** The position of the first pair with key `k`, or the length when there is none. */
  function FirstWith<K(==), V>(pairs: seq<(K, V)>, k: K): (r: nat)
    ensures r <= |pairs|
    ensures r < |pairs| ==> pairs[r].0 == k
    ensures forall i :: 0 <= i < r ==> pairs[i].0 != k
    ensures r == |pairs| <==> k !in KeysOf(pairs)
  {
    if pairs == [] then 0
    else if pairs[0].0 == k then 0
    else
      var r := 1 + FirstWith(pairs[1..], k);
      assert k in KeysOf(pairs) ==> k in KeysOf(pairs[1..]) by {
        if k in KeysOf(pairs) {
          var i :| 0 <= i < |pairs| && pairs[i].0 == k;
          assert pairs[1..][i - 1].0 == k;
        }
      }
      assert r < |pairs| ==> pairs[r] == pairs[1..][r - 1];
      r
  }

  /**
   * What the constructor and `emplace` maintain: the index holds exactly
   * the keys of the sequence, each one mapped to the first entry with it.
   */
  ghost predicate IndexesFirst<K, V>(s: seq<Entry<K, V>>, index: map<K, Entry<K, V>>)
  {
    index.Keys == KeysOf(PairsOf(s)) &&
    forall k :: k in index ==> index[k] == s[FirstWith(PairsOf(s), k)]
  }

  /**
   * The same with entries replaced by their contents: every key of the
   * pairs is indexed, and its indexed value is the one it first had.
   */
  ghost predicate IndexesFirstValue<K, V>(pairs: seq<(K, V)>, index: map<K, Entry<K, V>>)
  {
    index.Keys == KeysOf(pairs) &&
    forall k :: k in index ==>
      (index[k].key, index[k].value) == pairs[FirstWith(pairs, k)]
  }

  lemma IndexesFirstHasValues<K, V>(s: seq<Entry<K, V>>, index: map<K, Entry<K, V>>)
    requires IndexesFirst(s, index)
    ensures IndexesFirstValue(PairsOf(s), index)
  {
  }

  /** The first occurrence in a concatenation is found in the left part when it can be. */
  lemma {:induction false} FirstWithConcat<K, V>(s: seq<(K, V)>, t: seq<(K, V)>, k: K)
    ensures FirstWith(s + t, k) ==
      if FirstWith(s, k) < |s| then FirstWith(s, k) else |s| + FirstWith(t, k)
  {
    if s == [] {
      assert s + t == t;
    } else if s[0].0 == k {
    } else {
      assert (s + t)[1..] == s[1..] + t;
      FirstWithConcat(s[1..], t, k);
    }
  }

  lemma KeysOfConcat<K, V>(s: seq<(K, V)>, t: seq<(K, V)>)
    ensures KeysOf(s + t) == KeysOf(s) + KeysOf(t)
  {
    forall k | k in KeysOf(s + t)
      ensures k in KeysOf(s) + KeysOf(t)
    {
      var i :| 0 <= i < |s + t| && (s + t)[i].0 == k;
      if i < |s| {
        assert s[i].0 == k;
      } else {
        assert t[i - |s|].0 == k;
      }
    }
    forall k | k in KeysOf(s) + KeysOf(t)
      ensures k in KeysOf(s + t)
    {
      if k in KeysOf(s) {
        var i :| 0 <= i < |s| && s[i].0 == k;
        assert (s + t)[i].0 == k;
      } else {
        var i :| 0 <= i < |t| && t[i].0 == k;
        assert (s + t)[|s| + i].0 == k;
      }
    }
  }

  lemma PairsOfConcat<K, V>(s: seq<Entry<K, V>>, t: seq<Entry<K, V>>)
    ensures PairsOf(s + t) == PairsOf(s) + PairsOf(t)
  {
  }

  /** The index update of `emplace`: a new key indexes the new entry, an old one keeps its entry. */
  function EmplaceIndex<K, V>(index: map<K, Entry<K, V>>, e: Entry<K, V>): (r: map<K, Entry<K, V>>)
    ensures r.Keys == index.Keys + {e.key}
    ensures forall k :: k in index ==> r[k] == index[k]
    ensures e.key !in index ==> r[e.key] == e
  {
    if e.key in index then index else index[e.key := e]
  }

  /** Appending an entry and emplacing it into the index keeps the index on first entries. */
  lemma EmplaceKeepsIndex<K, V>(s: seq<Entry<K, V>>, index: map<K, Entry<K, V>>, e: Entry<K, V>)
    requires IndexesFirst(s, index)
    ensures IndexesFirst(s + [e], EmplaceIndex(index, e))
  {
    PairsOfConcat(s, [e]);
    var p, q := PairsOf(s), PairsOf(s + [e]);
    assert q == p + [(e.key, e.value)];
    KeysOfConcat(p, [(e.key, e.value)]);
    assert [(e.key, e.value)][0].0 == e.key;
    assert KeysOf([(e.key, e.value)]) == {e.key};
    var r := EmplaceIndex(index, e);
    forall k | k in r
      ensures r[k] == (s + [e])[FirstWith(q, k)]
    {
      FirstWithConcat(p, [(e.key, e.value)], k);
      if k in index {
        assert FirstWith(p, k) < |p|;
      } else {
        assert k == e.key && FirstWith(p, k) == |p|;
        assert FirstWith([(e.key, e.value)], k) == 0;
      }
    }
  }

  /** The same, for the entries of a list taken one more at a time. */
  lemma EmplaceKeepsPrefixIndex<K, V>(s: seq<Entry<K, V>>, j: nat, index: map<K, Entry<K, V>>)
    requires j < |s| && IndexesFirst(s[..j], index)
    ensures IndexesFirst(s[..j + 1], EmplaceIndex(index, s[j]))
  {
    assert s[..j + 1] == s[..j] + [s[j]];
    EmplaceKeepsIndex(s[..j], index, s[j]);
  }

  /**
   * Copy assignment indexes, for every key the target lacks, the other
   * map's entry; over values this still indexes first occurrences.
   */
  lemma CopyAssignKeepsIndexedValues<K, V>(
    p: seq<(K, V)>, index: map<K, Entry<K, V>>,
    q: seq<(K, V)>, otherIndex: map<K, Entry<K, V>>)
    requires IndexesFirstValue(p, index) && IndexesFirstValue(q, otherIndex)
    ensures IndexesFirstValue(p + q, otherIndex + index)
  {
    KeysOfConcat(p, q);
    var both := otherIndex + index;
    forall k | k in both
      ensures (both[k].key, both[k].value) == (p + q)[FirstWith(p + q, k)]
    {
      CopiedKeyKeepsValue(p, index, q, otherIndex, k);
    }
  }

  /** One key of the copy-assigned index: its entry holds the pair of its first occurrence. */
  lemma CopiedKeyKeepsValue<K, V>(
    p: seq<(K, V)>, index: map<K, Entry<K, V>>,
    q: seq<(K, V)>, otherIndex: map<K, Entry<K, V>>, k: K)
    requires IndexesFirstValue(p, index) && IndexesFirstValue(q, otherIndex)
    requires k in otherIndex + index
    ensures FirstWith(p + q, k) < |p + q|
    ensures ((otherIndex + index)[k].key, (otherIndex + index)[k].value) == (p + q)[FirstWith(p + q, k)]
  {
    FirstWithConcat(p, q, k);
    if k in index {
      var i := FirstWith(p, k);
      assert i < |p|;
      assert (p + q)[i] == p[i];
    } else {
      var j := FirstWith(q, k);
      assert FirstWith(p, k) == |p|;
      assert j < |q|;
      assert (p + q)[|p| + j] == q[j];
    }
  }

  /** The index as a copy assignment leaves it after the first `done` keys of the other index. */
  ghost function CopiedIndex<K, V>(
    index: map<K, Entry<K, V>>, otherIndex: map<K, Entry<K, V>>, done: set<K>): map<K, Entry<K, V>>
  {
    (map k | k in otherIndex && k in done :: otherIndex[k]) + index
  }

  /** One more key of the other index: copied unless the target already has it. */
  lemma CopiedIndexStep<K, V>(index: map<K, Entry<K, V>>, otherIndex: map<K, Entry<K, V>>, done: set<K>, k: K)
    requires k in otherIndex
    ensures var current := CopiedIndex(index, otherIndex, done);
      CopiedIndex(index, otherIndex, done + {k}) ==
        if k in current then current else current[k := otherIndex[k]]
  {
  }

  /** Once every key of the other index is done, the target index is the merge. */
  lemma CopiedIndexAll<K, V>(index: map<K, Entry<K, V>>, otherIndex: map<K, Entry<K, V>>, done: set<K>)
    requires done == otherIndex.Keys
    ensures CopiedIndex(index, otherIndex, done) == otherIndex + index
  {
  }

  class SequenceMap<K(==), V> {
    var sequence: seq<Entry<K, V>>
    var index: map<K, Entry<K, V>>

    ghost predicate Valid()
      reads this
    {
      IndexesFirst(sequence, index)
    }

    /** Iteration from begin() to end(): the pairs in insertion order. */
    function Pairs(): (r: seq<(K, V)>)
      reads this
      ensures |r| == |sequence|
      ensures forall i :: 0 <= i < |r| ==> r[i] == (sequence[i].key, sequence[i].value)
    {
      PairsOf(sequence)
    }

    /** The default constructor: nothing stored. */
    constructor()
      ensures sequence == [] && index == map[]
      ensures Valid()
    {
      sequence := [];
      index := map[];
    }

    /**
     * The initializer-list constructor: the list gets the pairs in order,
     * then every entry is emplaced into the index, first entry first.
     */
    constructor FromList(init: seq<(K, V)>)
      ensures Pairs() == init
      ensures forall i :: 0 <= i < |sequence| ==> fresh(sequence[i])
      ensures Valid()
    {
      var s := NewEntries(init);
      var idx := IndexOf(s);
      sequence := s;
      index := idx;
    }

    /** A fresh entry for every pair, in order. */
    static method NewEntries(init: seq<(K, V)>) returns (s: seq<Entry<K, V>>)
      ensures PairsOf(s) == init
      ensures forall i :: 0 <= i < |s| ==> fresh(s[i])
    {
      s := [];
      var i := 0;
      while i < |init|
        invariant 0 <= i <= |init|
        invariant PairsOf(s) == init[..i]
        invariant forall j :: 0 <= j < |s| ==> fresh(s[j])
      {
        var e := new Entry(init[i].0, init[i].1);
        PairsOfConcat(s, [e]);
        assert init[..i + 1] == init[..i] + [init[i]];
        s := s + [e];
        i := i + 1;
      }
      assert init[..|init|] == init;
    }

    /** The index that emplacing the entries one by one, first entry first, builds. */
    static method IndexOf(s: seq<Entry<K, V>>) returns (idx: map<K, Entry<K, V>>)
      ensures IndexesFirst(s, idx)
    {
      idx := map[];
      var j := 0;
      while j < |s|
        invariant 0 <= j <= |s|
        invariant IndexesFirst(s[..j], idx)
      {
        EmplaceKeepsPrefixIndex(s, j, idx);
        idx := EmplaceIndex(idx, s[j]);
        j := j + 1;
      }
      assert IndexesFirst(s, idx) by {
        assert s[..|s|] == s;
      }
    }

    /**
     * emplace: appends a fresh entry and returns it; the index gets it
     * only when the key is new, so a duplicate key keeps its first entry.
     */
    method Emplace(key: K, value: V) returns (inserted: Entry<K, V>)
      modifies this
      ensures fresh(inserted) && inserted.key == key && inserted.value == value
      ensures sequence == old(sequence) + [inserted]
      ensures index == EmplaceIndex(old(index), inserted)
      ensures Pairs() == old(Pairs()) + [(key, value)]
      ensures old(Valid()) ==> Valid()
    {
      inserted := new Entry(key, value);
      if Valid() {
        EmplaceKeepsIndex(sequence, index, inserted);
      }
      PairsOfConcat(sequence, [inserted]);
      sequence, index := sequence + [inserted], EmplaceIndex(index, inserted);
    }

    /** Move assignment: both the sequence and the index become the other's. */
    method MoveAssign(other: SequenceMap<K, V>)
      modifies this
      ensures sequence == old(other.sequence) && index == old(other.index)
      ensures old(other.Valid()) ==> Valid()
    {
      sequence := other.sequence;
      index := other.index;
    }

    /**
     * Copy assignment appends copies of the other's entries to this
     * sequence, then inserts the other's index entries for keys not yet
     * indexed here: those point at the other map's entries, not at the
     * copies.
     */
    method CopyAssign(other: SequenceMap<K, V>)
      requires other != this
      modifies this
      ensures Pairs() == old(Pairs()) + other.Pairs()
      ensures sequence[..|old(sequence)|] == old(sequence)
      ensures forall i :: |old(sequence)| <= i < |sequence| ==> fresh(sequence[i])
      ensures index == other.index + old(index)
      ensures old(IndexesFirstValue(Pairs(), index)) && IndexesFirstValue(other.Pairs(), other.index)
        ==> IndexesFirstValue(Pairs(), index)
    {
      ghost var oldPairs := Pairs();
      AppendCopies(other.sequence);
      MergeIndex(other.index);
      if old(IndexesFirstValue(Pairs(), index)) && IndexesFirstValue(other.Pairs(), other.index) {
        CopyAssignKeepsIndexedValues(oldPairs, old(index), other.Pairs(), other.index);
      }
    }

    /** The list half of copy assignment: a new entry per pair of the other list, in order. */
    method AppendCopies(otherSequence: seq<Entry<K, V>>)
      modifies this
      ensures Pairs() == old(Pairs()) + PairsOf(otherSequence)
      ensures sequence[..|old(sequence)|] == old(sequence)
      ensures forall i :: |old(sequence)| <= i < |sequence| ==> fresh(sequence[i])
      ensures index == old(index)
    {
      var i := 0;
      while i < |otherSequence|
        invariant 0 <= i <= |otherSequence|
        invariant index == old(index)
        invariant |sequence| == |old(sequence)| + i
        invariant sequence[..|old(sequence)|] == old(sequence)
        invariant PairsOf(sequence) == old(PairsOf(sequence)) + PairsOf(otherSequence[..i])
        invariant forall j :: |old(sequence)| <= j < |sequence| ==> fresh(sequence[j])
      {
        var e := new Entry(otherSequence[i].key, otherSequence[i].value);
        PairsOfConcat(sequence, [e]);
        PairsOfConcat(otherSequence[..i], [otherSequence[i]]);
        assert otherSequence[..i + 1] == otherSequence[..i] + [otherSequence[i]];
        sequence := sequence + [e];
        i := i + 1;
      }
      assert otherSequence[..|otherSequence|] == otherSequence;
    }

    /** The index half of copy assignment: every key of the other index the target lacks. */
    method MergeIndex(otherIndex: map<K, Entry<K, V>>)
      modifies this
      ensures index == otherIndex + old(index)
      ensures sequence == old(sequence)
    {
      ghost var done: set<K> := {};
      var rest := otherIndex.Keys;
      while rest != {}
        invariant rest + done == otherIndex.Keys && rest !! done
        invariant index == CopiedIndex(old(index), otherIndex, done)
        invariant sequence == old(sequence)
        decreases rest
      {
        var k :| k in rest;
        CopiedIndexStep(old(index), otherIndex, done, k);
        if k !in index {
          index := index[k := otherIndex[k]];
        }
        rest, done := rest - {k}, done + {k};
      }
      CopiedIndexAll(old(index), otherIndex, done);
    }

    /** size(): the number of entries, duplicate keys included. */
    function Size(): (r: nat)
      reads this
      ensures r == |Pairs()|
    {
      |sequence|
    }
  }

  /** Two entries with one key: both are counted, the index keeps the first. */
  method DuplicateKeyKeepsFirst() returns (size: nat, indexed: char)
    ensures size == 2 && indexed == 'a'
  {
    var m := new SequenceMap<int, char>();
    var first := m.Emplace(1, 'a');
    var second := m.Emplace(1, 'b');
    size := m.Size();
    indexed := m.index[1].value;
  }

  /**
   * Copy-assigning a one-entry map into an empty one: the copy holds a new
   * entry, but the index points at the other map's entry, so the value
   * invariant holds while the index no longer points into its own list.
   */
  method CopyAssignSharesEntries() returns (ownEntry: bool, sameValue: bool)
    ensures !ownEntry && sameValue
  {
    var source := new SequenceMap<int, char>.FromList([(7, 'x')]);
    var target := new SequenceMap<int, char>();
    target.CopyAssign(source);
    assert target.sequence[0] != source.sequence[0];
    assert target.sequence == [target.sequence[0]];
    ownEntry := target.index[7] in target.sequence;
    sameValue := target.index[7].value == target.Pairs()[0].1;
  }
}
