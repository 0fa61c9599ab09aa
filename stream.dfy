/**
 * zen/stream.hpp: a token stream with a look-ahead buffer.
 *
 * `buffer` is the deque of tokens already read but not yet consumed;
 * `source` is what the user-supplied `read()` will still deliver, one
 * token per call and nothing once it is exhausted.  `Pending()` is the
 * whole stream the caller has yet to consume.
 */
module ZenStream {
  import opened Wrappers

  /** The stream after `count` tokens are consumed (fewer when it runs out). */
  function Consumed<T>(pending: seq<T>, count: nat): (r: seq<T>)
    ensures count <= |pending| ==> r == pending[count..]
    ensures count >= |pending| ==> r == []
  {
    if count <= |pending| then pending[count..] else []
  }

  /** The token at 1-based position `offset` of the stream, if there is one. */
  function Nth<T>(pending: seq<T>, offset: nat): (r: Option<T>)
    requires offset >= 1
    ensures r.Some? <==> offset <= |pending|
    ensures r.Some? ==> r.value == pending[offset - 1]
  {
    if offset <= |pending| then Some(pending[offset - 1]) else None
  }

  lemma {:induction false} ConsumedStep<T>(pending: seq<T>, count: nat)
    ensures Consumed(Consumed(pending, count), 1) == Consumed(pending, count + 1)
  {
    if count + 1 <= |pending| {
      assert pending[count..][1..] == pending[count + 1..];
    }
  }

  /**
   * Peeking does not move the stream, so the token a peek at position
   * `offset` shows is the one `offset - 1` consumptions later at the front.
   */
  lemma {:induction false} PeekShowsLaterFront<T>(pending: seq<T>, offset: nat)
    requires offset >= 1
    ensures Nth(pending, offset) == Nth(Consumed(pending, offset - 1), 1)
  {
    if offset <= |pending| {
      assert pending[offset - 1..][0] == pending[offset - 1];
    }
  }

  class BufferedStream<T> {
    var buffer: seq<T>
    var source: seq<T>

    /** What remains to be consumed: the buffer, then the unread source. */
    ghost function Pending(): seq<T>
      reads this
    {
      buffer + source
    }

    constructor(source: seq<T>)
      ensures buffer == [] && this.source == source
    {
      buffer := [];
      this.source := source;
    }

    /** read(): the next token of the underlying stream, none once it is exhausted. */
    method Read() returns (token: Option<T>)
      modifies this
      ensures buffer == old(buffer)
      ensures old(source) == [] ==> token == None && source == []
      ensures old(source) != [] ==> token == Some(old(source)[0]) && source == old(source)[1..]
    {
      if source == [] {
        token := None;
      } else {
        token := Some(source[0]);
        source := source[1..];
      }
    }

    /**
     * get(): the front of the buffer when there is one, otherwise a token
     * read from the source; either way the front of the stream.
     */
    method Get() returns (token: Option<T>)
      modifies this
      ensures token == Nth(old(Pending()), 1)
      ensures Pending() == Consumed(old(Pending()), 1)
      ensures old(buffer) != [] ==> buffer == old(buffer)[1..] && source == old(source)
      ensures old(buffer) == [] ==> buffer == []
    {
      if buffer == [] {
        token := Read();
      } else {
        token := Some(buffer[0]);
        assert (buffer + source)[1..] == buffer[1..] + source;
        buffer := buffer[1..];
      }
    }

    /**
     * peek(offset): reads into the buffer until it holds `offset` tokens and
     * returns the one at 1-based position `offset`, or none when the
     * source runs out first, which leaves everything read in the buffer.
     * Offset 0 would index the buffer at -1.
     */
    method Peek(offset: nat) returns (token: Option<T>)
      requires offset >= 1
      modifies this
      ensures token == Nth(old(Pending()), offset)
      ensures Pending() == old(Pending())
      ensures token.Some? ==> offset <= |buffer|
      ensures token.None? ==> buffer == old(Pending()) && source == []
      ensures |old(buffer)| >= offset ==> buffer == old(buffer) && source == old(source)
    {
      while |buffer| < offset
        invariant buffer + source == old(buffer + source)
        invariant |buffer| >= |old(buffer)|
        invariant |old(buffer)| >= offset ==> buffer == old(buffer) && source == old(source)
        decreases |source|
      {
        var next := Read();
        if next.None? {
          return None;
        }
        assert buffer + [next.value] + source == old(buffer + source);
        buffer := buffer + [next.value];
      }
      assert (buffer + source)[offset - 1] == buffer[offset - 1];
      token := Some(buffer[offset - 1]);
    }

    /**
     * stream::skip(count): `count` consecutive calls of get().  The source
     * declares skip on `stream`, which buffered_stream does not derive
     * from; the model gives it the skip that `stream` describes, run over
     * this stream's get().
     */
    method Skip(count: nat)
      modifies this
      ensures Pending() == Consumed(old(Pending()), count)
    {
      var i := 0;
      while i < count
        invariant 0 <= i <= count
        invariant Pending() == Consumed(old(Pending()), i)
      {
        var _ := Get();
        ConsumedStep(old(Pending()), i);
        i := i + 1;
      }
    }
  }

  /** Peeking ahead, then consuming: the tokens come out in their stream order. */
  method PeekThenGet() returns (peeked: Option<char>, first: Option<char>, second: Option<char>, beyond: Option<char>)
    ensures peeked == Some('b') && first == Some('a') && second == Some('b') && beyond == None
  {
    var s := new BufferedStream(['a', 'b', 'c']);
    peeked := s.Peek(2);
    first := s.Get();
    second := s.Get();
    beyond := s.Peek(2);
  }
}
