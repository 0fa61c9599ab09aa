/**
 * zen/string.hpp: glyphs, the `eof` sentinel and the `Maybe<Glyph>`
 * specialisation that stores no flag but uses `eof` as "no glyph".
 */
module ZenString {

  /** An `unsigned char`, the unit of the lexer's input stream. */
  newtype Byte = x: int | 0 <= x < 0x100

  /** A `char32_t`. */
  newtype Glyph = x: int | 0 <= x < 0x1_0000_0000

  /** The sentinel glyph that stands for "no glyph". */
  const Eof: Glyph := 0xFFFF

  /** `Maybe<Glyph>`: just a glyph; it is empty exactly when the glyph is `eof`. */
  datatype MaybeGlyph = MaybeGlyph(value: Glyph)

  /** The default constructor stores `eof`. */
  function Nothing(): (m: MaybeGlyph)
    ensures IsEmpty(m)
  {
    MaybeGlyph(Eof)
  }

  /** Maybe(value): wraps any glyph, `eof` included. */
  function Wrap(value: Glyph): (m: MaybeGlyph)
    ensures IsSome(m) <==> value != Eof
    ensures IsSome(m) ==> Deref(m) == value
  {
    MaybeGlyph(value)
  }

  /** is_some() */
  function IsSome(m: MaybeGlyph): (r: bool)
    ensures r <==> m != Nothing()
  {
    m.value != Eof
  }

  /** is_empty() */
  function IsEmpty(m: MaybeGlyph): (r: bool)
    ensures r <==> m == MaybeGlyph(Eof)
  {
    m.value == Eof
  }

  /** operator*: asserts that the glyph is not `eof`. */
  function Deref(m: MaybeGlyph): (g: Glyph)
    requires IsSome(m)
    ensures g != Eof && m == MaybeGlyph(g)
  {
    m.value
  }

  /** The two queries are complements, and wrapping `eof` gives the empty value. */
  lemma SomeIsNotEmpty(m: MaybeGlyph)
    ensures IsSome(m) == !IsEmpty(m)
    ensures Wrap(Eof) == Nothing()
  {
  }

  /** A `char` of the input, which is signed: bytes from 0x80 up are negative. */
  function CharGlyph(c: Byte): (g: Glyph)
    ensures c < 0x80 ==> g as int == c as int
    ensures c >= 0x80 ==> g as int == 0x1_0000_0000 + c as int - 0x100
  {
    if c < 0x80 then c as int as Glyph else (0x1_0000_0000 - 0x100 + c as int) as Glyph
  }

  /** from_utf8(raw): one glyph per `char`, in order (a `char` converts to `char32_t`). */
  function FromUtf8(raw: seq<Byte>): (r: seq<Glyph>)
    ensures |r| == |raw|
    ensures forall i :: 0 <= i < |raw| ==> r[i] == CharGlyph(raw[i])
  {
    seq(|raw|, i requires 0 <= i < |raw| => CharGlyph(raw[i]))
  }

  /**
   * ASCII text keeps its code points, no input produces `eof`, and bytes
   * from 0x80 up land far above every ASCII glyph.
   */
  lemma FromUtf8Glyphs(raw: seq<Byte>, i: nat)
    requires i < |raw|
    ensures FromUtf8(raw)[i] != Eof
    ensures raw[i] < 0x80 ==> FromUtf8(raw)[i] as int == raw[i] as int
    ensures raw[i] >= 0x80 ==> FromUtf8(raw)[i] as int >= 0xFFFF_FF80
  {
  }
}
