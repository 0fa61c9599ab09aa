/**
 * zen/lexgen/lexer.hpp and zen/lexgen/lexer.cc: the lexgen tokenizer.
 *
 * The lexer reads bytes from a peekable stream; here the stream is the
 * sequence `input` of bytes not yet consumed, and `offset` counts the
 * bytes consumed.  `get_char` and `peek_char` never fail (their Result is
 * always right): at the end of the input they give `eof`.
 *
 * Each operation is specified by a function on the remaining input that
 * returns the outcome and the input left over.  `Diverges` is the outcome
 * of a loop of the source that never ends: once the input is exhausted
 * `get_char` keeps returning `eof`, so a loop that only stops on some
 * other glyph runs forever.
 */
module ZenLexer {
  import opened Wrappers
  import opened ZenString

  /** The glyph of a character literal in the source. */
  function G(c: char): Glyph
    requires c as int < 0x100
  {
    c as int as Glyph
  }

  /** The glyph a byte of the stream becomes (`*ch` converts an unsigned char). */
  function ByteGlyph(b: Byte): (g: Glyph)
    ensures g as int == b as int && g != Eof
  {
    b as int as Glyph
  }

  /** The byte of an ASCII character, as a byte literal in the tests spells it. */
  function B(c: char): (b: Byte)
    requires c as int < 0x100
    ensures b as int == c as int
  {
    c as int as Byte
  }

  datatype TokenType =
    | EofToken | PubKeyword | Identifier | Semi | VBar
    | OpenBracket | CloseBracket | OpenParen | CloseParen | StringToken | Character

  /**
   * `TokenValue`, an optional string or glyph.  `Uninitialised` is the
   * glyph of a character literal written with a backslash, which the
   * lexer returns without ever assigning it.
   */
  datatype TokenValue = NoValue | Text(text: seq<Glyph>) | Char(glyph: Glyph) | Uninitialised

  datatype Token = Token(tokenType: TokenType, value: TokenValue)

  /** Token(type): a token without a value. */
  function Plain(tokenType: TokenType): (t: Token)
    ensures t.tokenType == tokenType && !HasValue(t)
  {
    Token(tokenType, NoValue)
  }

  /** has_value() */
  function HasValue(t: Token): (r: bool)
    ensures r <==> !t.value.NoValue?
  {
    t.value != NoValue
  }

  /** The lexer's error codes. */
  datatype LexError = CouldNotOpenFile | FailedToReadChar | UnexpectedCharacter

  datatype Outcome<T> = Done(value: T) | Failed(error: LexError) | Diverges

  /** An outcome together with the input left unconsumed. */
  datatype Lexing<T> = Lexing(outcome: Outcome<T>, rest: seq<Byte>)

  // Character classes of lexer.cc.

  /** is_alpha: 65-90 and 96-122, so the backtick (96) counts as a letter and the underscore does not. */
  predicate IsAlpha(ch: Glyph): (r: bool)
    ensures ch == G('`') ==> r
    ensures ch == G('_') ==> !r
    ensures r ==> ch != Eof && ch < 0x80
  {
    (ch >= 65 && ch <= 90) || (ch >= 96 && ch <= 122)
  }

  /** is_digit: the ten decimal digits, none of which is a letter. */
  predicate IsDecimal(ch: Glyph): (r: bool)
    ensures r ==> !IsAlpha(ch) && ch != Eof && ch < 0x80
  {
    ch >= 48 && ch <= 57
  }

  /** is_whitespace: newline, space, tab and carriage return; none is a letter or digit. */
  predicate IsWhitespace(ch: Glyph): (r: bool)
    ensures r ==> !IsAlpha(ch) && !IsDecimal(ch) && ch != Eof
  {
    ch == G('\n') || ch == G(' ') || ch == G('\t') || ch == G('\r')
  }

  /** is_ident_start: an identifier starts with a letter, never with a digit. */
  predicate IsIdentStart(ch: Glyph): (r: bool)
    ensures r ==> !IsDecimal(ch) && !IsWhitespace(ch) && ch != Eof
  {
    IsAlpha(ch)
  }

  /** is_ident_part: letters and digits, so every identifier start continues one. */
  predicate IsIdentPart(ch: Glyph): (r: bool)
    ensures IsIdentStart(ch) ==> r
    ensures r ==> !IsWhitespace(ch) && ch != Eof && ch < 0x80
  {
    IsAlpha(ch) || IsDecimal(ch)
  }

  lemma ClassifierRanges(ch: Glyph)
    ensures IsIdentStart(G('`')) && !IsIdentStart(G('_')) && !IsIdentStart(G('0'))
    ensures IsIdentPart(ch) ==> ch < 0x80 && !IsWhitespace(ch)
    ensures !IsIdentPart(Eof) && !IsWhitespace(Eof)
  {
  }

  /** The token type ZEN_LEX_CHAR gives a punctuation glyph. */
  function Punctuation(ch: Glyph): (r: Option<TokenType>)
    ensures r.Some? ==> r.value in {VBar, Semi, OpenBracket, CloseBracket, OpenParen, CloseParen}
    ensures r.Some? ==> !IsWhitespace(ch) && !IsIdentStart(ch) && ch != Eof
  {
    if ch == G('|') then Some(VBar)
    else if ch == G(';') then Some(Semi)
    else if ch == G('[') then Some(OpenBracket)
    else if ch == G(']') then Some(CloseBracket)
    else if ch == G('(') then Some(OpenParen)
    else if ch == G(')') then Some(CloseParen)
    else None
  }

  /** The control character an escape letter stands for. */
  function Escape(ch: Glyph): (r: Option<Glyph>)
    ensures r.Some? <==> ch in {G('a'), G('b'), G('f'), G('n'), G('r'), G('t'), G('v'), G('0')}
    ensures r.Some? ==> r.value < 0x20
  {
    if ch == G('a') then Some(7)
    else if ch == G('b') then Some(8)
    else if ch == G('f') then Some(12)
    else if ch == G('n') then Some(10)
    else if ch == G('r') then Some(13)
    else if ch == G('t') then Some(9)
    else if ch == G('v') then Some(11)
    else if ch == G('0') then Some(0)
    else None
  }

  /** Distinct escape letters stand for distinct characters. */
  lemma EscapeInjective(a: Glyph, b: Glyph)
    requires Escape(a).Some? && Escape(b).Some? && a != b
    ensures Escape(a).value != Escape(b).value
  {
  }

  // The specification functions, one per routine of the lexer.

  /** get_char: the next glyph and the input after it, or `eof` and nothing consumed. */
  function NextChar(input: seq<Byte>): (r: (Glyph, seq<Byte>))
    ensures input == [] ==> r == (Eof, [])
    ensures input != [] ==> r.0 != Eof && r.1 == input[1..]
  {
    if input == [] then (Eof, []) else (ByteGlyph(input[0]), input[1..])
  }

  /** The `while (is_whitespace(*c0))` loop of lex, from the current glyph. */
  function SkipWhitespace(c: Glyph, rest: seq<Byte>): (r: (Glyph, seq<Byte>))
    ensures !IsWhitespace(r.0)
    ensures |r.1| <= |rest| && r.1 == rest[|rest| - |r.1|..]
    decreases |rest| + (if IsWhitespace(c) then 1 else 0)
  {
    if IsWhitespace(c) then
      var next := NextChar(rest);
      var r := SkipWhitespace(next.0, next.1);
      assert rest != [] ==> next.1[|next.1| - |r.1|..] == rest[|rest| - |r.1|..];
      r
    else (c, rest)
  }

  /**
   * take_while(str, pred): the glyphs satisfying `pred` up to the first one
   * that does not, which is consumed as well.  At the end of the input the
   * glyph is `eof`; when `pred` accepts `eof` the loop never ends.
   */
  function TakeWhileSpec(input: seq<Byte>, pred: Glyph -> bool): (r: Lexing<seq<Glyph>>)
    ensures !r.outcome.Failed?
    ensures |r.rest| <= |input|
    ensures r.outcome.Diverges? ==> r.rest == []
    decreases |input|
  {
    if input == [] then
      if pred(Eof) then Lexing(Diverges, []) else Lexing(Done([]), [])
    else
      var c := ByteGlyph(input[0]);
      if !pred(c) then Lexing(Done([]), input[1..])
      else
        var tail := TakeWhileSpec(input[1..], pred);
        match tail.outcome
        case Done(taken) => Lexing(Done([c] + taken), tail.rest)
        case Failed(e) => Lexing(Failed(e), tail.rest)
        case Diverges => Lexing(Diverges, [])
  }

  /**
   * What take_while collects: the longest run of input glyphs satisfying
   * `pred`; the glyph after the run is consumed too.  It diverges exactly
   * when `pred` accepts every remaining glyph and `eof`.
   */
  lemma {:induction false} TakeWhileRun(input: seq<Byte>, pred: Glyph -> bool)
    ensures var r := TakeWhileSpec(input, pred);
      (r.outcome.Diverges? <==> pred(Eof) && forall i :: 0 <= i < |input| ==> pred(ByteGlyph(input[i]))) &&
      (r.outcome.Done? ==>
        var n := |r.outcome.value|;
        n <= |input| && (n < |input| ==> r.rest == input[n + 1..] && !pred(ByteGlyph(input[n]))) &&
        (n == |input| ==> r.rest == [] && !pred(Eof)) &&
        forall i :: 0 <= i < n ==> r.outcome.value[i] == ByteGlyph(input[i]) && pred(r.outcome.value[i]))
    decreases |input|
  {
    if input != [] && pred(ByteGlyph(input[0])) {
      TakeWhileRun(input[1..], pred);
      assert forall i :: 1 <= i < |input| ==> input[1..][i - 1] == input[i];
      var tail := TakeWhileSpec(input[1..], pred);
      if tail.outcome.Done? {
        var taken := tail.outcome.value;
        assert |taken| < |input[1..]| ==> input[1..][|taken| + 1..] == input[|taken| + 2..];
      }
    }
  }

  /** take_while after one accepted glyph: that glyph, then the rest of the run. */
  lemma TakeWhileStep(input: seq<Byte>, pred: Glyph -> bool)
    requires input != [] && pred(ByteGlyph(input[0]))
    ensures TakeWhileSpec(input, pred) == Prefixed([ByteGlyph(input[0])], TakeWhileSpec(input[1..], pred))
  {
  }

  /** A run of glyphs put in front of what take_while goes on to collect. */
  function Prefixed(prefix: seq<Glyph>, l: Lexing<seq<Glyph>>): (r: Lexing<seq<Glyph>>)
    ensures r.rest == l.rest && r.outcome.Done? == l.outcome.Done?
    ensures r.outcome.Diverges? == l.outcome.Diverges?
    ensures r.outcome.Done? ==> r.outcome.value == prefix + l.outcome.value
  {
    match l.outcome
    case Done(v) => Lexing(Done(prefix + v), l.rest)
    case _ => l
  }

  lemma PrefixedTwice(a: seq<Glyph>, b: seq<Glyph>, l: Lexing<seq<Glyph>>)
    ensures Prefixed(a, Prefixed(b, l)) == Prefixed(a + b, l)
  {
    match l.outcome
    case Done(v) => assert a + (b + v) == (a + b) + v;
    case _ =>
  }

  /** The number of leading bytes whose glyph is `g`. */
  function LeadingGlyphs(input: seq<Byte>, g: Glyph): (n: nat)
    ensures n <= |input|
    ensures n < |input| ==> ByteGlyph(input[n]) != g
    ensures forall i :: 0 <= i < n ==> ByteGlyph(input[i]) == g
  {
    if input != [] && ByteGlyph(input[0]) == g then
      var n := 1 + LeadingGlyphs(input[1..], g);
      assert forall i :: 1 <= i < n ==> input[i] == input[1..][i - 1];
      n
    else 0
  }

  /** The bytes after every leading byte whose glyph is `g`. */
  function DropGlyphs(input: seq<Byte>, g: Glyph): (r: seq<Byte>)
  {
    input[LeadingGlyphs(input, g)..]
  }

  lemma DropGlyphsStep(input: seq<Byte>, g: Glyph)
    requires input != [] && ByteGlyph(input[0]) == g
    ensures DropGlyphs(input, g) == DropGlyphs(input[1..], g)
  {
  }

  /** `name[i]`: at index `|name|` a basic_string holds its terminating zero. */
  function NameAt(name: seq<Glyph>, i: nat): Glyph
  {
    if i < |name| then name[i] else 0
  }

  /**
   * try_keyword(name, type): its index never advances, so it consumes the
   * glyphs equal to name[0] and returns empty at the first other glyph; a
   * keyword token is never returned.  With name[0] equal to `eof` the end
   * of the input is never left.
   */
  function KeywordSpec(input: seq<Byte>, name: seq<Glyph>): (r: Lexing<Option<Token>>)
    ensures r.outcome == Done(None) || r.outcome == Diverges
    ensures r.outcome.Diverges? <==> NameAt(name, 0) == Eof && input == []
    ensures r.outcome.Done? ==> r.rest == DropGlyphs(input, NameAt(name, 0))
    ensures r.outcome.Diverges? ==> r.rest == []
  {
    var rest := DropGlyphs(input, NameAt(name, 0));
    if rest == [] && NameAt(name, 0) == Eof then Lexing(Diverges, [])
    else
      assert NameAt(name, 0) == Eof ==> rest == input;
      Lexing(Done(None), rest)
  }

  /** lex_escape_sequence: reads one glyph and decodes it as an escape letter. */
  function EscapeSpec(input: seq<Byte>): (r: Lexing<Glyph>)
    ensures r.rest == NextChar(input).1
    ensures !r.outcome.Diverges?
    ensures r.outcome.Done? <==> Escape(NextChar(input).0).Some?
    ensures r.outcome.Done? ==> r.outcome.value == Escape(NextChar(input).0).value && input != []
    ensures r.outcome.Failed? ==> r.outcome.error == UnexpectedCharacter
  {
    var next := NextChar(input);
    match Escape(next.0)
    case Some(e) => Lexing(Done(e), next.1)
    case None => Lexing(Failed(UnexpectedCharacter), next.1)
  }

  /** The closing quote of a character literal. */
  function CloseCharSpec(input: seq<Byte>, value: TokenValue): (r: Lexing<Token>)
    ensures r.rest == NextChar(input).1
    ensures r.outcome.Done? <==> NextChar(input).0 == G('\'')
    ensures r.outcome.Done? ==> r.outcome.value == Token(Character, value)
    ensures r.outcome.Failed? ==> r.outcome.error == UnexpectedCharacter
  {
    var next := NextChar(input);
    if next.0 != G('\'') then Lexing(Failed(UnexpectedCharacter), next.1)
    else Lexing(Done(Token(Character, value)), next.1)
  }

  /**
   * A character literal after its opening quote: a glyph and the closing
   * quote.  After a backslash one glyph is skipped before the escape
   * letter, and the escape's value is dropped.
   */
  function CharLiteralSpec(input: seq<Byte>): (r: Lexing<Token>)
    ensures !r.outcome.Diverges?
    ensures |r.rest| <= |input|
    ensures r.outcome.Done? ==> r.outcome.value.tokenType == Character
    ensures r.outcome.Failed? ==> r.outcome.error == UnexpectedCharacter
  {
    var c1 := NextChar(input);
    if c1.0 == G('\\') then
      var c2 := NextChar(c1.1);
      var unescaped := EscapeSpec(c2.1);
      match unescaped.outcome
      case Done(_) => CloseCharSpec(unescaped.rest, Uninitialised)
      case Failed(e) => Lexing(Failed(e), unescaped.rest)
      case Diverges => Lexing(Diverges, [])
    else CloseCharSpec(c1.1, Char(c1.0))
  }

  /**
   * The string-literal loop of lex with the text so far and the escaping
   * flag: plain glyphs are appended, a backslash starts an escape whose
   * decoded glyph is dropped, and a double quote ends the literal.  A
   * finished literal is a string token whose text extends `text` and has
   * consumed its closing quote; the only error is an unknown escape letter,
   * and at the end of the input the loop never ends.
   */
  function StringSpec(input: seq<Byte>, text: seq<Glyph>, escaping: bool): (r: Lexing<Token>)
    ensures |r.rest| <= |input|
    ensures r.outcome.Done? ==> r.outcome.value.tokenType == StringToken && r.outcome.value.value.Text?
    ensures r.outcome.Done? ==> text <= r.outcome.value.value.text && |r.rest| < |input|
    ensures r.outcome.Failed? ==> r.outcome.error == UnexpectedCharacter
    ensures r.outcome.Diverges? ==> r.rest == []
    decreases |input|, if escaping then 1 else 0
  {
    if escaping then
      var unescaped := EscapeSpec(input);
      match unescaped.outcome
      case Done(_) => StringSpec(unescaped.rest, text, false)
      case Failed(e) => Lexing(Failed(e), unescaped.rest)
      case Diverges => Lexing(Diverges, [])
    else if input == [] then Lexing(Diverges, [])
    else
      var c := ByteGlyph(input[0]);
      if c == G('"') then Lexing(Done(Token(StringToken, Text(text))), input[1..])
      else if c == G('\\') then StringSpec(input[1..], text, true)
      else StringSpec(input[1..], text + [c], false)
  }

  /** The keyword lex tries, "pub". */
  const Pub: seq<Glyph> := [G('p'), G('u'), G('b')]

  /**
   * lex(): one token, an error, or divergence, and the input left over.
   * Every call but the one at the end of the input consumes something, and
   * only that call gives the end-of-file token.
   */
  function LexSpec(input: seq<Byte>): (r: Lexing<Token>)
    ensures |r.rest| < |input| || (input == [] && r == Lexing(Done(Plain(EofToken)), []))
    ensures r.outcome.Done? && r.outcome.value.tokenType == EofToken ==> input == []
  {
    var c0 := NextChar(input);
    if c0.0 == Eof then Lexing(Done(Plain(EofToken)), c0.1)
    else
      var c := SkipWhitespace(c0.0, c0.1);
      LexFromSpec(c.0, c.1)
  }

  /** lex from the first glyph that is not whitespace: punctuation, then the keyword attempt. */
  function LexFromSpec(c: Glyph, rest: seq<Byte>): (r: Lexing<Token>)
    ensures |r.rest| <= |rest|
    ensures r.outcome.Done? ==> r.outcome.value.tokenType !in {EofToken, PubKeyword}
    ensures r.outcome.Failed? ==> r.outcome.error == UnexpectedCharacter
  {
    if Punctuation(c).Some? then Lexing(Done(Plain(Punctuation(c).value)), NextChar(rest).1)
    else
      var keyword := KeywordSpec(rest, Pub);
      match keyword.outcome
      case Done(Some(t)) => Lexing(Done(t), keyword.rest)
      case Failed(e) => Lexing(Failed(e), keyword.rest)
      case Diverges => Lexing(Diverges, [])
      case Done(None) => LexWordSpec(c, keyword.rest)
  }

  /** lex after the keyword attempt: identifier, character literal, string literal or error. */
  function LexWordSpec(c: Glyph, rest: seq<Byte>): (r: Lexing<Token>)
    ensures |r.rest| <= |rest|
    ensures r.outcome.Done? ==> r.outcome.value.tokenType in {Identifier, Character, StringToken}
    ensures r.outcome.Failed? ==> r.outcome.error == UnexpectedCharacter
  {
    if IsIdentStart(c) then
      var name := TakeWhileSpec(rest, IsIdentPart);
      match name.outcome
      case Done(taken) => Lexing(Done(Token(Identifier, Text([c] + taken))), name.rest)
      case Failed(e) => Lexing(Failed(e), name.rest)
      case Diverges => Lexing(Diverges, [])
    else if c == G('\'') then CharLiteralSpec(rest)
    else if c == G('"') then StringSpec(rest, [], false)
    else Lexing(Failed(UnexpectedCharacter), rest)
  }

  class Lexer {
    var input: seq<Byte>
    var offset: nat

    constructor(bytes: seq<Byte>, offset: nat)
      ensures input == bytes && this.offset == offset
    {
      input := bytes;
      this.offset := offset;
    }

    /** get_char: consumes one byte, counting it in `offset`; `eof` at the end. */
    method GetChar() returns (ch: Glyph)
      modifies this
      ensures (ch, input) == NextChar(old(input))
      ensures offset + |input| == old(offset) + |old(input)|
    {
      if input == [] {
        return Eof;
      }
      ch := ByteGlyph(input[0]);
      input := input[1..];
      offset := offset + 1;
    }

    /** peek_char: the glyph get_char would return, consuming nothing. */
    function PeekChar(): (ch: Glyph)
      reads this
      ensures ch == NextChar(input).0
    {
      if input == [] then Eof else ByteGlyph(input[0])
    }

    /** take_while(str, pred), with the extended string in the outcome. */
    method TakeWhile(str: seq<Glyph>, pred: Glyph -> bool) returns (r: Outcome<seq<Glyph>>)
      modifies this
      ensures input == TakeWhileSpec(old(input), pred).rest
      ensures r.Done? <==> TakeWhileSpec(old(input), pred).outcome.Done?
      ensures r.Done? ==> r.value == str + TakeWhileSpec(old(input), pred).outcome.value
      ensures r.Diverges? <==> TakeWhileSpec(old(input), pred).outcome.Diverges?
      ensures offset + |input| == old(offset) + |old(input)|
    {
      ghost var start := input;
      ghost var taken: seq<Glyph> := [];
      var s := str;
      assert Prefixed(taken, TakeWhileSpec(input, pred)) == TakeWhileSpec(input, pred) by {
        match TakeWhileSpec(input, pred).outcome
        case Done(v) => assert taken + v == v;
        case _ =>
      }
      while true
        invariant offset + |input| == old(offset) + |old(input)|
        invariant s == str + taken
        invariant TakeWhileSpec(start, pred) == Prefixed(taken, TakeWhileSpec(input, pred))
        decreases |input|
      {
        if input == [] && pred(Eof) {
          return Diverges;
        }
        ghost var before := input;
        var ch := GetChar();
        if !pred(ch) {
          break;
        }
        TakeWhileStep(before, pred);
        PrefixedTwice(taken, [ch], TakeWhileSpec(input, pred));
        s, taken := s + [ch], taken + [ch];
      }
      r := Done(s);
    }

    /** try_keyword(name, type) */
    method TryKeyword(name: seq<Glyph>, tokenType: TokenType) returns (r: Outcome<Option<Token>>)
      modifies this
      ensures Lexing(r, input) == KeywordSpec(old(input), name)
      ensures offset + |input| == old(offset) + |old(input)|
    {
      var i := 0;
      while true
        invariant offset + |input| == old(offset) + |old(input)|
        invariant DropGlyphs(input, NameAt(name, i)) == DropGlyphs(old(input), NameAt(name, 0))
        decreases |input|
      {
        var ch := PeekChar();
        if ch != NameAt(name, i) {
          return Done(None);
        }
        if input == [] {
          // get_char consumes nothing at the end, so the loop repeats forever.
          return Diverges;
        }
        DropGlyphsStep(input, NameAt(name, i));
        var _ := GetChar();
      }
    }

    /** lex_escape_sequence() */
    method LexEscapeSequence() returns (r: Outcome<Glyph>)
      modifies this
      ensures Lexing(r, input) == EscapeSpec(old(input))
      ensures offset + |input| == old(offset) + |old(input)|
    {
      var c0 := GetChar();
      match Escape(c0)
      case Some(e) => r := Done(e);
      case None => r := Failed(UnexpectedCharacter);
    }

    /** lex(): one token, read exactly as LexSpec describes. */
    method Lex() returns (r: Outcome<Token>)
      modifies this
      ensures Lexing(r, input) == LexSpec(old(input))
      ensures offset + |input| == old(offset) + |old(input)|
    {
      var c0 := GetChar();
      if c0 == Eof {
        return Done(Plain(EofToken));
      }
      ghost var skipped := SkipWhitespace(c0, input);
      while IsWhitespace(c0)
        invariant offset + |input| == old(offset) + |old(input)|
        invariant SkipWhitespace(c0, input) == skipped
        decreases |input| + (if IsWhitespace(c0) then 1 else 0)
      {
        c0 := GetChar();
      }
      r := LexFrom(c0);
    }

    /** lex from the first glyph that is not whitespace. */
    method LexFrom(c0: Glyph) returns (r: Outcome<Token>)
      modifies this
      ensures Lexing(r, input) == LexFromSpec(c0, old(input))
      ensures offset + |input| == old(offset) + |old(input)|
    {
      // The six ZEN_LEX_CHAR checks: the token, and one more glyph consumed.
      var punctuation := Punctuation(c0);
      if punctuation.Some? {
        var _ := GetChar();
        return Done(Plain(punctuation.value));
      }
      var keyword := TryKeyword(Pub, PubKeyword);
      match keyword {
        case Done(Some(t)) => return Done(t);
        case Failed(e) => return Failed(e);
        case Diverges => return Diverges;
        case Done(None) =>
      }
      r := LexWord(c0);
    }

    /** lex after the keyword attempt. */
    method LexWord(c0: Glyph) returns (r: Outcome<Token>)
      modifies this
      ensures Lexing(r, input) == LexWordSpec(c0, old(input))
      ensures offset + |input| == old(offset) + |old(input)|
    {
      if IsIdentStart(c0) {
        var name := TakeWhile([c0], IsIdentPart);
        match name {
          case Done(text) => return Done(Token(Identifier, Text(text)));
          case Failed(e) => return Failed(e);
          case Diverges => return Diverges;
        }
      }
      if c0 == G('\'') {
        r := LexCharLiteral();
        return;
      }
      if c0 == G('"') {
        r := LexString();
        return;
      }
      return Failed(UnexpectedCharacter);
    }

    /** The character-literal branch of lex, after the opening quote. */
    method LexCharLiteral() returns (r: Outcome<Token>)
      modifies this
      ensures Lexing(r, input) == CharLiteralSpec(old(input))
      ensures offset + |input| == old(offset) + |old(input)|
    {
      var value: TokenValue;
      var c1 := GetChar();
      if c1 == G('\\') {
        var _ := GetChar();
        var unescaped := LexEscapeSequence();
        match unescaped {
          case Failed(e) => return Failed(e);
          case Diverges => return Diverges;
          case Done(_) =>
        }
        value := Uninitialised;
      } else {
        value := Char(c1);
      }
      var c3 := GetChar();
      if c3 != G('\'') {
        return Failed(UnexpectedCharacter);
      }
      return Done(Token(Character, value));
    }

    /** The string-literal branch of lex, after the opening double quote. */
    method LexString() returns (r: Outcome<Token>)
      modifies this
      ensures Lexing(r, input) == StringSpec(old(input), [], false)
      ensures offset + |input| == old(offset) + |old(input)|
    {
      var text: seq<Glyph> := [];
      var escaping := false;
      while true
        invariant offset + |input| == old(offset) + |old(input)|
        invariant StringSpec(input, text, escaping) == StringSpec(old(input), [], false)
        decreases |input|, if escaping then 1 else 0
      {
        if escaping {
          var ch := LexEscapeSequence();
          match ch {
            case Failed(e) => return Failed(e);
            case Diverges => return Diverges;
            case Done(_) =>
          }
          escaping := false;
        } else {
          if input == [] {
            // From here on every glyph is eof, appended forever.
            return Diverges;
          }
          var c1 := GetChar();
          if c1 == G('"') {
            break;
          } else if c1 == G('\\') {
            escaping := true;
          } else {
            text := text + [c1];
          }
        }
      }
      r := Done(Token(StringToken, Text(text)));
    }
  }

  // Properties of lex.

  /** The bytes of a double quote, a backslash and a single quote. */
  const DoubleQuote: Byte := 0x22
  const Backslash: Byte := 0x5C
  const Quote: Byte := 0x27

  /** The glyphs of some bytes. */
  function Glyphs(bytes: seq<Byte>): (r: seq<Glyph>)
    ensures |r| == |bytes| && forall i :: 0 <= i < |bytes| ==> r[i] == ByteGlyph(bytes[i])
  {
    seq(|bytes|, i requires 0 <= i < |bytes| => ByteGlyph(bytes[i]))
  }

  /** At the end of the input lex returns an eof token without a value. */
  lemma LexAtEnd()
    ensures LexSpec([]) == Lexing(Done(Plain(EofToken)), [])
  {
  }

  lemma {:induction false} SkipAllWhitespace(c: Glyph, rest: seq<Byte>)
    requires IsWhitespace(c) && forall i :: 0 <= i < |rest| ==> IsWhitespace(ByteGlyph(rest[i]))
    ensures SkipWhitespace(c, rest) == (Eof, [])
    decreases |rest|
  {
    if rest != [] {
      SkipAllWhitespace(ByteGlyph(rest[0]), rest[1..]);
    }
  }

  /**
   * Whitespace up to the end of the input is an error, not an eof token:
   * the end is only recognised before the whitespace is skipped.
   */
  lemma WhitespaceThenEndFails(input: seq<Byte>)
    requires input != [] && forall i :: 0 <= i < |input| ==> IsWhitespace(ByteGlyph(input[i]))
    ensures LexSpec(input) == Lexing(Failed(UnexpectedCharacter), [])
  {
    SkipAllWhitespace(ByteGlyph(input[0]), input[1..]);
    assert KeywordSpec([], Pub) == Lexing(Done(None), []);
    assert LexFromSpec(Eof, []) == LexWordSpec(Eof, []);
  }

  /** A punctuation glyph gives its token and also consumes the glyph after it. */
  lemma PunctuationSwallowsNext(p: Byte, next: Byte, rest: seq<Byte>)
    requires Punctuation(ByteGlyph(p)).Some?
    ensures LexSpec([p, next] + rest) == Lexing(Done(Plain(Punctuation(ByteGlyph(p)).value)), rest)
  {
    assert ([p, next] + rest)[1..][1..] == rest;
  }

  /** take_while stops at a glyph `pred` rejects and consumes that glyph. */
  lemma {:induction false} TakeWhileWord(word: seq<Byte>, stop: Byte, rest: seq<Byte>, pred: Glyph -> bool)
    requires forall i :: 0 <= i < |word| ==> pred(ByteGlyph(word[i]))
    requires !pred(ByteGlyph(stop))
    ensures TakeWhileSpec(word + [stop] + rest, pred) == Lexing(Done(Glyphs(word)), rest)
    decreases |word|
  {
    if word == [] {
      assert word + [stop] + rest == [stop] + rest;
    } else {
      assert (word + [stop] + rest)[1..] == word[1..] + [stop] + rest;
      TakeWhileWord(word[1..], stop, rest, pred);
      assert Glyphs(word) == [ByteGlyph(word[0])] + Glyphs(word[1..]);
    }
  }

  lemma {:induction false} StringSpecValue(input: seq<Byte>, text: seq<Glyph>, escaping: bool)
    ensures StringSpec(input, text, escaping).outcome.Done? ==>
      StringSpec(input, text, escaping).outcome.value.tokenType == StringToken
    decreases |input|, if escaping then 1 else 0
  {
    if escaping {
      var unescaped := EscapeSpec(input);
      if unescaped.outcome.Done? {
        StringSpecValue(unescaped.rest, text, false);
      }
    } else if input != [] {
      var c := ByteGlyph(input[0]);
      if c == G('\\') {
        StringSpecValue(input[1..], text, true);
      } else if c != G('"') {
        StringSpecValue(input[1..], text + [c], false);
      }
    }
  }

  /**
   * `try_keyword` never yields a keyword, so lex never returns the pub
   * keyword token, whatever the input.
   */
  lemma LexNeverKeyword(input: seq<Byte>)
    ensures LexSpec(input).outcome.Done? ==> LexSpec(input).outcome.value.tokenType != PubKeyword
  {
    var c0 := NextChar(input);
    if c0.0 != Eof {
      var c := SkipWhitespace(c0.0, c0.1);
      LexFromNeverKeyword(c.0, c.1);
    }
  }

  lemma LexFromNeverKeyword(c: Glyph, rest: seq<Byte>)
    ensures LexFromSpec(c, rest).outcome.Done? ==> LexFromSpec(c, rest).outcome.value.tokenType != PubKeyword
  {
    if Punctuation(c).None? {
      var keyword := KeywordSpec(rest, Pub);
      assert keyword.outcome == Done(None);
      LexWordNeverKeyword(c, keyword.rest);
    }
  }

  lemma LexWordNeverKeyword(c: Glyph, rest: seq<Byte>)
    ensures LexWordSpec(c, rest).outcome.Done? ==> LexWordSpec(c, rest).outcome.value.tokenType != PubKeyword
  {
    if !IsIdentStart(c) && c != G('\'') && c == G('"') {
      StringSpecValue(rest, [], false);
    }
  }

  /**
   * A string literal whose text holds no double quote and no backslash
   * lexes to that text, and lex stops right after the closing quote.
   */
  lemma {:induction false} PlainString(body: seq<Byte>, rest: seq<Byte>, text: seq<Glyph>)
    requires forall i :: 0 <= i < |body| ==> ByteGlyph(body[i]) != G('"') && ByteGlyph(body[i]) != G('\\')
    ensures StringSpec(body + [DoubleQuote] + rest, text, false) ==
      Lexing(Done(Token(StringToken, Text(text + Glyphs(body)))), rest)
    decreases |body|
  {
    if body == [] {
      assert body + [DoubleQuote] + rest == [DoubleQuote] + rest;
      assert ([DoubleQuote] + rest)[0] == DoubleQuote && ([DoubleQuote] + rest)[1..] == rest;
      assert text + Glyphs(body) == text;
      assert ByteGlyph(DoubleQuote) == G('"');
    } else {
      assert (body + [DoubleQuote] + rest)[1..] == body[1..] + [DoubleQuote] + rest;
      PlainString(body[1..], rest, text + [ByteGlyph(body[0])]);
      var first, later := [ByteGlyph(body[0])], Glyphs(body[1..]);
      assert Glyphs(body) == first + later;
      assert text + (first + later) == text + first + later;
    }
  }

  /** An escape inside a string literal is consumed and its glyph dropped. */
  lemma EscapeDroppedFromString(letter: Byte, rest: seq<Byte>, text: seq<Glyph>)
    requires Escape(ByteGlyph(letter)).Some?
    ensures StringSpec([Backslash] + [letter] + rest, text, false) == StringSpec(rest, text, false)
  {
    assert ([Backslash] + [letter] + rest)[1..] == [letter] + rest;
    assert ([letter] + rest)[1..] == rest;
  }

  /** A string literal that is never closed keeps the lexer looping. */
  lemma {:induction false} UnterminatedStringDiverges(body: seq<Byte>, text: seq<Glyph>)
    requires forall i :: 0 <= i < |body| ==> ByteGlyph(body[i]) != G('"') && ByteGlyph(body[i]) != G('\\')
    ensures StringSpec(body, text, false).outcome == Diverges
    decreases |body|
  {
    if body != [] {
      UnterminatedStringDiverges(body[1..], text + [ByteGlyph(body[0])]);
    }
  }

  /** Character literals: a glyph between quotes, and the wrong closer is an error. */
  lemma CharLiterals(a: Byte, b: Byte, rest: seq<Byte>)
    requires ByteGlyph(a) != G('\\')
    ensures ByteGlyph(b) == G('\'') ==>
      CharLiteralSpec([a, b] + rest) == Lexing(Done(Token(Character, Char(ByteGlyph(a)))), rest)
    ensures ByteGlyph(b) != G('\'') ==>
      CharLiteralSpec([a, b] + rest) == Lexing(Failed(UnexpectedCharacter), rest)
  {
    assert ([a, b] + rest)[1..][1..] == rest;
  }

  /**
   * After a backslash the glyph straight after it is skipped and the next
   * one is decoded; the literal's glyph is never assigned.
   */
  lemma EscapedCharLiteral(skipped: Byte, letter: Byte, rest: seq<Byte>)
    requires Escape(ByteGlyph(letter)).Some?
    ensures CharLiteralSpec([Backslash] + [skipped, letter] + [Quote] + rest) ==
      Lexing(Done(Token(Character, Uninitialised)), rest)
  {
    var input := [Backslash] + [skipped, letter] + [Quote] + rest;
    assert input[1..][1..][1..] == [Quote] + rest;
    assert input[1..][1..][1..][1..] == rest;
  }

  /** "'\\n'": the n is skipped, so the closing quote is taken as the escape letter. */
  lemma OneGlyphEscapeFails(rest: seq<Byte>)
    ensures CharLiteralSpec([Backslash, B('n'), Quote] + rest).outcome == Failed(UnexpectedCharacter)
  {
    var input := [Backslash, B('n'), Quote] + rest;
    assert input[1..][1..] == [Quote] + rest;
  }

  /** A first glyph that is not whitespace is where lex starts. */
  lemma LexStart(c: Byte, rest: seq<Byte>)
    requires !IsWhitespace(ByteGlyph(c))
    ensures LexSpec([c] + rest) == LexFromSpec(ByteGlyph(c), rest)
  {
    assert ([c] + rest)[1..] == rest;
  }

  /** Past punctuation, the keyword attempt drops the `p`s after the first glyph. */
  lemma LexFromWord(c: Glyph, rest: seq<Byte>)
    requires Punctuation(c).None?
    ensures LexFromSpec(c, rest) == LexWordSpec(c, DropGlyphs(rest, G('p')))
  {
    assert KeywordSpec(rest, Pub) == Lexing(Done(None), DropGlyphs(rest, G('p')));
  }

  /**
   * A string literal whose text holds no double quote and no backslash:
   * its token holds the text without the `p`s at its start, which the
   * keyword attempt consumed, and lex stops after the closing quote.
   */
  lemma LexStringLiteral(body: seq<Byte>, rest: seq<Byte>)
    requires forall i :: 0 <= i < |body| ==> ByteGlyph(body[i]) != G('"') && ByteGlyph(body[i]) != G('\\')
    ensures LexSpec([DoubleQuote] + body + [DoubleQuote] + rest) ==
      Lexing(Done(Token(StringToken, Text(Glyphs(DropGlyphs(body, G('p')))))), rest)
  {
    var tail := body + ([DoubleQuote] + rest);
    var text := DropGlyphs(body, G('p'));
    assert LexSpec([DoubleQuote] + body + [DoubleQuote] + rest) == LexWordSpec(G('"'), DropGlyphs(tail, G('p'))) by {
      assert [DoubleQuote] + body + [DoubleQuote] + rest == [DoubleQuote] + tail;
      LexStart(DoubleQuote, tail);
      LexFromWord(G('"'), tail);
    }
    StringAfterPs(body, rest);
    assert LexWordSpec(G('"'), text + [DoubleQuote] + rest) == StringSpec(text + [DoubleQuote] + rest, [], false);
  }

  /** What the string lexer sees once the keyword attempt has dropped the leading `p`s. */
  lemma StringAfterPs(body: seq<Byte>, rest: seq<Byte>)
    requires forall i :: 0 <= i < |body| ==> ByteGlyph(body[i]) != G('"') && ByteGlyph(body[i]) != G('\\')
    ensures DropGlyphs(body + ([DoubleQuote] + rest), G('p')) == DropGlyphs(body, G('p')) + [DoubleQuote] + rest
    ensures StringSpec(DropGlyphs(body, G('p')) + [DoubleQuote] + rest, [], false) ==
      Lexing(Done(Token(StringToken, Text(Glyphs(DropGlyphs(body, G('p')))))), rest)
  {
    DropBeforeQuote(body, rest);
    var text := DropGlyphs(body, G('p'));
    PlainSuffix(body, LeadingGlyphs(body, G('p')));
    PlainString(text, rest, []);
    assert [] + Glyphs(text) == Glyphs(text);
  }

  /** The `p`s dropped from the text of a string never reach its closing quote. */
  lemma DropBeforeQuote(body: seq<Byte>, rest: seq<Byte>)
    ensures DropGlyphs(body + ([DoubleQuote] + rest), G('p')) == DropGlyphs(body, G('p')) + [DoubleQuote] + rest
  {
    LeadingGlyphsPrefix(body, [DoubleQuote] + rest, G('p'));
    SliceOfConcat(body, [DoubleQuote] + rest, LeadingGlyphs(body, G('p')));
    var text := DropGlyphs(body, G('p'));
    assert text + ([DoubleQuote] + rest) == text + [DoubleQuote] + rest;
  }

  lemma PlainSuffix(body: seq<Byte>, n: nat)
    requires n <= |body|
    requires forall i :: 0 <= i < |body| ==> ByteGlyph(body[i]) != G('"') && ByteGlyph(body[i]) != G('\\')
    ensures forall i :: 0 <= i < |body[n..]| ==> ByteGlyph(body[n..][i]) != G('"') && ByteGlyph(body[n..][i]) != G('\\')
  {
    forall i | 0 <= i < |body[n..]|
      ensures ByteGlyph(body[n..][i]) != G('"') && ByteGlyph(body[n..][i]) != G('\\')
    {
      assert body[n..][i] == body[n + i];
    }
  }

  lemma SliceOfConcat(s: seq<Byte>, t: seq<Byte>, n: nat)
    requires n <= |s|
    ensures (s + t)[n..] == s[n..] + t
  {
  }

  /** Leading glyphs of a concatenation that stop inside the left part or at its end. */
  lemma {:induction false} LeadingGlyphsPrefix(s: seq<Byte>, t: seq<Byte>, g: Glyph)
    requires t != [] && ByteGlyph(t[0]) != g
    ensures LeadingGlyphs(s + t, g) == LeadingGlyphs(s, g)
    decreases |s|
  {
    if s == [] {
      assert s + t == t;
    } else {
      assert (s + t)[1..] == s[1..] + t;
      if ByteGlyph(s[0]) == g {
        LeadingGlyphsPrefix(s[1..], t, g);
      }
    }
  }

  /** An identifier: its first glyph and the run of identifier glyphs after it, less the `p`s. */
  lemma LexIdentifier(c: Byte, word: seq<Byte>, stop: Byte, rest: seq<Byte>)
    requires IsIdentStart(ByteGlyph(c))
    requires forall i :: 0 <= i < |word| ==> IsIdentPart(ByteGlyph(word[i]))
    requires !IsIdentPart(ByteGlyph(stop)) && ByteGlyph(stop) != G('p')
    ensures LexSpec([c] + word + [stop] + rest) ==
      Lexing(Done(Token(Identifier, Text([ByteGlyph(c)] + Glyphs(DropGlyphs(word, G('p')))))), rest)
  {
    var tail := word + ([stop] + rest);
    assert [c] + word + [stop] + rest == [c] + tail;
    LexStart(c, tail);
    LexFromWord(ByteGlyph(c), tail);
    var n := LeadingGlyphs(word, G('p'));
    LeadingGlyphsPrefix(word, [stop] + rest, G('p'));
    SliceOfConcat(word, [stop] + rest, n);
    assert word[n..] + ([stop] + rest) == word[n..] + [stop] + rest;
    TakeWhileWord(word[n..], stop, rest, IsIdentPart);
  }

  /** The string-literal test: "\"Foo the bar.\"" lexes to a string token holding `Foo the bar.`. */
  lemma CanLexStrings(input: seq<Byte>)
    requires input == [DoubleQuote, B('F'), B('o'), B('o'), B(' '), B('t'), B('h'), B('e'), B(' '),
                       B('b'), B('a'), B('r'), B('.'), DoubleQuote]
    ensures LexSpec(input) == Lexing(Done(Token(StringToken, Text(Glyphs(input[1..13])))), [])
  {
    var body := input[1..13];
    assert input == [DoubleQuote] + body + [DoubleQuote] + [];
    assert DropGlyphs(body, G('p')) == body;
    LexStringLiteral(body, []);
  }

  /** The identifier test: "foo bar bax" lexes to the identifier `foo`, consuming the space. */
  lemma CanLexIdentifiers(input: seq<Byte>)
    requires input == [B('f'), B('o'), B('o'), B(' '), B('b'), B('a'), B('r'), B(' '), B('b'), B('a'), B('x')]
    ensures LexSpec(input) == Lexing(Done(Token(Identifier, Text([ByteGlyph(input[0])] + Glyphs(input[1..3])))), input[4..])
  {
    var word := input[1..3];
    assert input == [input[0]] + word + [input[3]] + input[4..];
    assert DropGlyphs(word, G('p')) == word;
    LexIdentifier(input[0], word, input[3], input[4..]);
  }

  /**
   * The keyword attempt swallows the `p`s after the first glyph: "apple!"
   * lexes to the identifier `ale`, "pub!" to the identifier `pub`, and
   * the string literal "\"pp\"" to an empty string.
   */
  lemma AppleLexesToAle(input: seq<Byte>)
    requires input == [B('a'), B('p'), B('p'), B('l'), B('e'), B('!')]
    ensures LexSpec(input) == Lexing(Done(Token(Identifier, Text([ByteGlyph(input[0])] + Glyphs(input[3..5])))), [])
  {
    var pple := input[1..5];
    assert input == [input[0]] + pple + [input[5]] + [];
    assert DropGlyphs(pple, G('p')) == input[3..5] by {
      DropGlyphsStep(pple, G('p'));
      DropGlyphsStep(pple[1..], G('p'));
      assert pple[1..][1..] == input[3..5];
    }
    LexIdentifier(input[0], pple, input[5], []);
  }

  lemma PubIsIdentifier(input: seq<Byte>)
    requires input == [B('p'), B('u'), B('b'), B('!')]
    ensures LexSpec(input) == Lexing(Done(Token(Identifier, Text([ByteGlyph(input[0])] + Glyphs(input[1..3])))), [])
  {
    var word := input[1..3];
    assert input == [input[0]] + word + [input[3]] + [];
    assert DropGlyphs(word, G('p')) == word;
    LexIdentifier(input[0], word, input[3], []);
  }

  lemma LeadingPsLeaveString(input: seq<Byte>)
    requires input == [DoubleQuote, B('p'), B('p'), DoubleQuote]
    ensures LexSpec(input) == Lexing(Done(Token(StringToken, Text([]))), [])
  {
    var pp := input[1..3];
    assert input == [DoubleQuote] + pp + [DoubleQuote] + [];
    DropGlyphsStep(pp, G('p'));
    DropGlyphsStep(pp[1..], G('p'));
    assert pp[1..][1..] == [];
    LexStringLiteral(pp, []);
  }

  /** take_while running into the end of the input, with `eof` rejected. */
  lemma {:induction false} TakeWhileEnd(word: seq<Byte>, pred: Glyph -> bool)
    requires forall i :: 0 <= i < |word| ==> pred(ByteGlyph(word[i]))
    requires !pred(Eof)
    ensures TakeWhileSpec(word, pred) == Lexing(Done(Glyphs(word)), [])
    decreases |word|
  {
    if word != [] {
      TakeWhileEnd(word[1..], pred);
      assert Glyphs(word) == [ByteGlyph(word[0])] + Glyphs(word[1..]);
    }
  }
}
