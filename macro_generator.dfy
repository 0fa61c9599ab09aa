/**
 * generate.py: generate_macro_header writes include/zen/macros.h piece by
 * piece.  The output stream is a Writer whose `written` field is the
 * sequence of strings passed to `write`, in order; the file's text is
 * their concatenation.
 *
 * The fixed prose the generator copies is a `Prose` parameter: the file
 * comment with its time stamp, which also defines ZEN_VA_LENGTH and
 * ZEN_VA_LENGTH_IMPL; the text before the ZEN_DEFER lines, which defines
 * ZEN_EMPTY and documents ZEN_DEFER; and the block of utility macros
 * (ZEN_EXPAND, ZEN_EVAL, ZEN_CONCAT, ZEN_CONCAT_IMPL, ZEN_STATIC_ASSERT,
 * ZEN_UNUSED) before ZEN_VA_MAX_LENGH.
 */
module ZenMacroGenerator {
  import opened ZenMacros

  /** The default of `max_va_args`. */
  const DefaultMaxVaArgs: nat := 20

  /**
   * The fixed texts written verbatim: the file comment, already formatted
   * with the time of generation and ending with the definitions of
   * ZEN_VA_LENGTH and ZEN_VA_LENGTH_IMPL; the definition of ZEN_EMPTY with
   * the ZEN_DEFER documentation; and the utility macros that precede the
   * ZEN_VA_MAX_LENGH definition.
   */
  datatype Prose = Prose(preamble: string, deferDoc: string, utilities: string)

  class Writer {
    var written: seq<string>

    constructor()
      ensures written == []
    {
      written := [];
    }

    /** out.write(text) */
    method Write(text: string)
      modifies this
      ensures written == old(written) + [text]
    {
      written := written + [text];
    }
  }

  /**
   * The writes of a loop that writes `sep` before every item but the
   * first: items[0], sep, items[1], ..., sep, items[n - 1].
   */
  function Separated(items: seq<string>, sep: string): (r: seq<string>)
    ensures |items| > 0 ==> |r| == 2 * |items| - 1
    ensures |items| > 0 ==> r[0] == items[0] && r[|r| - 1] == items[|items| - 1]
    ensures |items| == 0 ==> r == []
    decreases |items|
  {
    if items == [] then []
    else
      var init := items[..|items| - 1];
      assert |items| > 1 ==> init[0] == items[0];
      Separated(init, sep) + (if |items| > 1 then [sep] else []) + [items[|items| - 1]]
  }

  /** The concatenation of non-empty first and last parts starts with the first and ends with the last. */
  lemma FlattenEnds<T>(parts: seq<seq<T>>)
    requires parts != [] && parts[0] != [] && parts[|parts| - 1] != []
    ensures var f := Flatten(parts); |f| > 0 && f[0] == parts[0][0] && f[|f| - 1] == parts[|parts| - 1][|parts[|parts| - 1]| - 1]
  {
    var n := |parts|;
    assert parts == parts[..n - 1] + [parts[n - 1]];
    FlattenAppend(parts[..n - 1], [parts[n - 1]]);
    assert Flatten([parts[n - 1]]) == parts[n - 1] + Flatten([]);
  }

  /** Concatenation distributes over appending lists of strings. */
  lemma {:induction false} FlattenAppend<T>(a: seq<seq<T>>, b: seq<seq<T>>)
    ensures Flatten(a + b) == Flatten(a) + Flatten(b)
    decreases |a|
  {
    if a == [] {
      assert a + b == b;
    } else {
      assert (a + b)[1..] == a[1..] + b;
      FlattenAppend(a[1..], b);
    }
  }

  /** Three pieces written one after another append their concatenation. */
  lemma AppendThree<T>(start: seq<T>, a: seq<T>, b: seq<T>, c: seq<T>)
    ensures start + a + b + c == start + (a + b + c)
  {
  }

  /** Four pieces written one after another append their concatenation. */
  lemma AppendFour<T>(start: seq<T>, a: seq<T>, b: seq<T>, c: seq<T>, d: seq<T>)
    ensures start + a + b + c + d == start + (a + b + c + d)
  {
  }

  /** The text the separated writes produce is the items joined by `sep`, as `sep.join(items)`. */
  lemma {:induction false} SeparatedJoins(items: seq<string>, sep: string)
    ensures Flatten(Separated(items, sep)) == Join(items, sep)
    decreases |items|
  {
    if |items| == 1 {
      assert Separated(items, sep) == [items[0]];
      assert Flatten([items[0]]) == items[0] + Flatten([]);
    } else if |items| > 1 {
      var init := items[..|items| - 1];
      var last := items[|items| - 1];
      SeparatedJoins(init, sep);
      FlattenAppend(Separated(init, sep), [sep]);
      FlattenAppend(Separated(init, sep) + [sep], [last]);
      assert Flatten([sep]) == sep + Flatten([]);
      assert Flatten([last]) == last + Flatten([]);
      JoinSnoc(init, last, sep);
      assert init + [last] == items;
    }
  }

  /** The next separated write's step: one more item. */
  lemma SeparatedStep(items: seq<string>, j: nat, sep: string)
    requires j < |items|
    ensures Separated(items[..j + 1], sep) == Separated(items[..j], sep) + (if j > 0 then [sep] else []) + [items[j]]
  {
    assert items[..j + 1][..j] == items[..j];
  }

  /** The n parameters `_0,` ... `_{n-1},` of ZEN_ARG_N. */
  function ArgNParams(n: nat): (r: seq<string>)
    ensures |r| == n
  {
    seq(n, i requires 0 <= i < n => "_" + Decimal(i) + ",")
  }

  /**
   * The writes of the ZEN_ARG_N definition: `max` positional parameters
   * `_0` ... `_{max-1}` before `N`, so `N` is the argument at position `max`.
   */
  function ArgNWrites(max: nat): (r: seq<string>)
    ensures |r| == max + 2 && r[0] == "#define ZEN_ARG_N(" && r[max + 1] == "N,...) N\n"
    ensures forall i :: 0 <= i < max ==> r[i + 1] == "_" + Decimal(i) + ","
  {
    ["#define ZEN_ARG_N("] + ArgNParams(max) + ["N,...) N\n"]
  }

  /** The numbers ZEN_RSEQ_N() lists, from `max` down to 1. */
  function RseqItems(max: nat): (r: seq<string>)
    ensures |r| == max && forall i :: 0 <= i < max ==> r[i] == Decimal(max - i)
  {
    seq(max, i requires 0 <= i < max => Decimal(max - i))
  }

  /** The writes of the ZEN_RSEQ_N definition: its head, then `max` down to 1 and a comma between each two. */
  function RseqWrites(max: nat): (r: seq<string>)
    ensures |r| == (if max == 0 then 1 else 2 * max) && r[0] == "#define ZEN_RSEQ_N() "
    ensures max > 0 ==> r[1] == Decimal(max) && r[|r| - 1] == Decimal(1)
  {
    ["#define ZEN_RSEQ_N() "] + Separated(RseqItems(max), ",")
  }

  /** ZEN_DEFER_i, which defers through ZEN_DEFER_{i-1}. */
  function DeferLine(i: nat): (r: string)
    requires i >= 1
    ensures "#define ZEN_DEFER_" + Decimal(i) <= r && r[|r| - 1] == '\n'
  {
    "#define ZEN_DEFER_" + Decimal(i) + "(...) __VA_ARGS__ ZEN_DEFER_" + Decimal(i - 1) + "() ()\n"
  }

  /** ZEN_DEFER_3 up to ZEN_DEFER_{max-1}. */
  function DeferLines(max: nat): (r: seq<string>)
    ensures max >= 3 ==> |r| == max - 3
    ensures max <= 3 ==> r == []
  {
    if max <= 3 then [] else seq(max - 3, k requires 0 <= k < max - 3 => DeferLine(k + 3))
  }

  /**
   * The writes of the ZEN_DEFER family: ZEN_DEFER and ZEN_DEFER_2, then
   * ZEN_DEFER_i in place i - 1 for each i from 3 to max - 1, then ZEN_DEFER_N.
   */
  function DeferWrites(max: nat): (r: seq<string>)
    ensures |r| == (if max <= 3 then 3 else max)
    ensures r[..2] == DeferBase && r[|r| - 1] == DeferDispatch
    ensures forall i :: 3 <= i < max ==> r[i - 1] == DeferLine(i)
  {
    DeferBase + DeferLines(max) + [DeferDispatch]
  }

  /** ZEN_DEFER and ZEN_DEFER_2, written before the loop. */
  const DeferBase: seq<string> :=
    ["#define ZEN_DEFER(...) __VA_ARGS__ ZEN_EMPTY()\n", "#define ZEN_DEFER_2(...) __VA_ARGS__ ZEN_DEFER ()\n"]

  /** ZEN_DEFER_N, which selects ZEN_DEFER_n. */
  const DeferDispatch: string := "#define ZEN_DEFER_N(n, ...) ZEN_CONCAT(ZEN_DEFER_, n)(__VA_ARGS__)\n\n"

  /** The zero-based calls `m(j,__VA_ARGS__)` of a ZEN_REPEAT_WITH entry. */
  function RepeatCalls(i: nat): (r: seq<string>)
    ensures |r| == i
    ensures forall j :: 0 <= j < i ==> r[j] == " m(" + Decimal(j) + ",__VA_ARGS__)"
  {
    seq(i, j requires 0 <= j < i => " m(" + Decimal(j) + ",__VA_ARGS__)")
  }

  /** The writes of ZEN_REPEAT_WITH_i: its head, the i calls separated by " s", and a newline. */
  function RepeatWithEntry(i: nat): (r: seq<string>)
    ensures |r| == (if i == 0 then 2 else 2 * i + 1)
    ensures r[0] == "#define ZEN_REPEAT_WITH_" + Decimal(i) + "(s,m,...)" && r[|r| - 1] == "\n"
    ensures i > 0 ==> r[1] == RepeatCalls(i)[0] && r[|r| - 2] == RepeatCalls(i)[i - 1]
  {
    ["#define ZEN_REPEAT_WITH_" + Decimal(i) + "(s,m,...)"] + Separated(RepeatCalls(i), " s") + ["\n"]
  }

  /** The writes of the ZEN_REPEAT_WITH table, its dispatcher and ZEN_REPEAT. */
  function RepeatWithWrites(max: nat): (r: seq<string>)
    ensures |r| >= 2 && r[|r| - 2..] == RepeatDispatch
    ensures max > 0 ==> r[0] == RepeatWithEntry(0)[0]
  {
    RepeatWithTable(max) + RepeatDispatch
  }

  /** The entries of the table, entry i in place i. */
  function RepeatWithEntries(max: nat): (r: seq<seq<string>>)
    ensures |r| == max && forall i :: 0 <= i < max ==> r[i] == RepeatWithEntry(i)
  {
    seq(max, i requires 0 <= i < max => RepeatWithEntry(i))
  }

  /** The definitions ZEN_REPEAT_WITH_0 ... ZEN_REPEAT_WITH_{max-1}. */
  function RepeatWithTable(max: nat): (r: seq<string>)
    ensures max == 0 ==> r == []
    ensures max > 0 ==> |r| > 0 && r[0] == RepeatWithEntry(0)[0] && r[|r| - 1] == "\n"
  {
    var entries := RepeatWithEntries(max);
    if max > 0 then
      FlattenEnds(entries);
      Flatten(entries)
    else Flatten(entries)
  }

  /** ZEN_REPEAT_WITH, which selects ZEN_REPEAT_WITH_n, and ZEN_REPEAT, which has no separator. */
  const RepeatDispatch: seq<string> :=
    ["#define ZEN_REPEAT_WITH(s,n,m,...) ZEN_CONCAT(ZEN_REPEAT_WITH_, n)(s,m,__VA_ARGS__)\n",
     "#define ZEN_REPEAT(n,m,...) ZEN_REPEAT_WITH(,n,m,__VA_ARGS__)\n\n"]

  /** The zero-based calls `m(j, __VA_ARGS__)` of a ZEN_ENUM_IMPL entry. */
  function EnumCalls(i: nat): (r: seq<string>)
    ensures |r| == i
    ensures forall j :: 0 <= j < i ==> r[j] == " m(" + Decimal(j) + ", __VA_ARGS__)"
  {
    seq(i, j requires 0 <= j < i => " m(" + Decimal(j) + ", __VA_ARGS__)")
  }

  /** The writes of ZEN_ENUM_IMPL_i: its head, the i calls separated by " ,", and a newline. */
  function EnumEntry(i: nat): (r: seq<string>)
    ensures |r| == (if i == 0 then 2 else 2 * i + 1)
    ensures r[0] == "#define ZEN_ENUM_IMPL_" + Decimal(i) + "(m,...)" && r[|r| - 1] == "\n"
    ensures i > 0 ==> r[1] == EnumCalls(i)[0] && r[|r| - 2] == EnumCalls(i)[i - 1]
  {
    ["#define ZEN_ENUM_IMPL_" + Decimal(i) + "(m,...)"] + Separated(EnumCalls(i), " ,") + ["\n"]
  }

  /** The writes of the ZEN_ENUM_IMPL table and ZEN_ENUM. */
  function EnumWrites(max: nat): (r: seq<string>)
    ensures |r| >= 1 && r[|r| - 1] == EnumDispatch
    ensures max > 0 ==> r[0] == EnumEntry(0)[0]
  {
    EnumTable(max) + [EnumDispatch]
  }

  /** The entries of the table, entry i in place i. */
  function EnumEntries(max: nat): (r: seq<seq<string>>)
    ensures |r| == max && forall i :: 0 <= i < max ==> r[i] == EnumEntry(i)
  {
    seq(max, i requires 0 <= i < max => EnumEntry(i))
  }

  /** The definitions ZEN_ENUM_IMPL_0 ... ZEN_ENUM_IMPL_{max-1}. */
  function EnumTable(max: nat): (r: seq<string>)
    ensures max == 0 ==> r == []
    ensures max > 0 ==> |r| > 0 && r[0] == EnumEntry(0)[0] && r[|r| - 1] == "\n"
  {
    var entries := EnumEntries(max);
    if max > 0 then
      FlattenEnds(entries);
      Flatten(entries)
    else Flatten(entries)
  }

  /** ZEN_ENUM, which selects ZEN_ENUM_IMPL_n. */
  const EnumDispatch: string := "#define ZEN_ENUM(n,m,...) ZEN_CONCAT(ZEN_ENUM_IMPL_, n)(m,__VA_ARGS__)\n\n"

  /** The parameter names arg0 ... argi. */
  function ArgNames(i: nat): (r: seq<string>)
    ensures |r| == i + 1
  {
    seq(i + 1, j requires 0 <= j <= i => "arg" + Decimal(j))
  }

  /** ZEN_GET_VA_ARG_i, its parameters joined by ", ". */
  function GetVaArgLine(i: nat): (r: string)
    ensures "#define ZEN_GET_VA_ARG_" + Decimal(i) + "(arg0" <= r && r[|r| - 1] == '\n'
  {
    "#define ZEN_GET_VA_ARG_" + Decimal(i) + "(" + Join(ArgNames(i), ", ") + ",...) arg" + Decimal(i) + "\n"
  }

  /** The writes of the ZEN_GET_VA_ARG table, ZEN_GET_VA_ARG_i in place i, and its dispatcher. */
  function GetVaArgWrites(max: nat): (r: seq<string>)
    ensures |r| == max + 1 && r[max] == GetVaArgDispatch
    ensures forall i :: 0 <= i < max ==> r[i] == GetVaArgLine(i)
  {
    seq(max, i requires 0 <= i < max => GetVaArgLine(i)) + [GetVaArgDispatch]
  }

  /** ZEN_GET_VA_ARG, which selects ZEN_GET_VA_ARG_n. */
  const GetVaArgDispatch: string := "#define ZEN_GET_VA_ARG(n,...) ZEN_CONCAT(ZEN_GET_VA_ARG_, n)(__VA_ARGS__)\n\n"

  /** The utility block, ending in the ZEN_VA_MAX_LENGH definition. */
  function MaxLengthWrite(prose: Prose, max: nat): (r: string)
    ensures prose.utilities <= r && |r| >= 2 && r[|r| - 2..] == "\n\n"
  {
    prose.utilities + "#define ZEN_VA_MAX_LENGH " + Decimal(max) + "\n\n"
  }

  /** The ZEN_FOR_EACH family, written in one piece. */
  const ForEachBlock: string :=
    "\n#define ZEN_FOR_EACH_IMPL(i, m, ...) ZEN_FOR_EACH_IMPL2(i, m, ZEN_GET_VA_ARG(i, __VA_ARGS__))\n"
    + "#define ZEN_FOR_EACH_IMPL2(i, m, ...) m(i, arg)\n"
    + "#define ZEN_FOR_EACH_WITH(s, m, ...) ZEN_REPEAT_WITH(s, ZEN_VA_LENGTH(__VA_ARGS__), ZEN_FOR_EACH_IMPL, m, __VA_ARGS__)\n"
    + "#define ZEN_FOR_EACH(m, ...) ZEN_FOR_EACH_WITH(, m, __VA_ARGS__)\n"
    + "#define ZEN_FOR_EACH_ENUM(m, ...) ZEN_ENUM(ZEN_VA_LENGTH(__VA_ARGS__), ZEN_FOR_EACH_IMPL, m, __VA_ARGS__)\n\n\n"

  /** The closing include guard. */
  const Trailer: string := "\n#endif // #ifndef ZEN_MACRO_H\n"

  /** The writes before the tables: the prose, ZEN_ARG_N, ZEN_RSEQ_N and the ZEN_DEFER family. */
  function HeadWrites(prose: Prose, max: nat): (r: seq<string>)
    ensures |r| >= max + 3 && r[0] == prose.preamble && r[1] == ArgNWrites(max)[0]
    ensures r[|r| - 1] == MaxLengthWrite(prose, max)
  {
    [prose.preamble] + ArgNWrites(max) + RseqWrites(max)
      + [prose.deferDoc] + DeferWrites(max)
      + [MaxLengthWrite(prose, max)]
  }

  /** The writes of the three generated tables. */
  function TableWrites(max: nat): (r: seq<string>)
    ensures |r| > 0 && r[|r| - 1] == GetVaArgDispatch
    ensures max > 0 ==> r[0] == RepeatWithEntry(0)[0]
  {
    RepeatWithWrites(max) + EnumWrites(max) + GetVaArgWrites(max)
  }

  /** Every write of generate_macro_header, in order. */
  function HeaderWrites(prose: Prose, max: nat): (r: seq<string>)
    ensures |r| >= 2 && r[0] == prose.preamble && r[|r| - 2..] == [ForEachBlock, Trailer]
    ensures |r| > 1 && r[1] == ArgNWrites(max)[0]
  {
    HeadWrites(prose, max) + TableWrites(max) + [ForEachBlock, Trailer]
  }

  /** The ZEN_ARG_N loop. */
  method WriteArgN(out: Writer, max: nat)
    modifies out
    ensures out.written == old(out.written) + ArgNWrites(max)
  {
    out.Write("#define ZEN_ARG_N(");
    ghost var start := out.written;
    for i := 0 to max
      invariant out.written == start + ArgNParams(max)[..i]
    {
      out.Write("_" + Decimal(i) + ",");
      assert ArgNParams(max)[..i + 1] == ArgNParams(max)[..i] + [ArgNParams(max)[i]];
    }
    assert ArgNParams(max)[..max] == ArgNParams(max);
    out.Write("N,...) N\n");
  }

  /** The writes of a loop over `items` that puts `sep` before all but the first. */
  method WriteSeparated(out: Writer, items: seq<string>, sep: string)
    modifies out
    ensures out.written == old(out.written) + Separated(items, sep)
  {
    ghost var start := out.written;
    for j := 0 to |items|
      invariant out.written == start + Separated(items[..j], sep)
    {
      SeparatedStep(items, j, sep);
      if j > 0 {
        out.Write(sep);
      }
      out.Write(items[j]);
    }
    assert items[..|items|] == items;
  }

  /** The ZEN_RSEQ_N loop: a comma before every number but the first. */
  method WriteRseq(out: Writer, max: nat)
    modifies out
    ensures out.written == old(out.written) + RseqWrites(max)
  {
    out.Write("#define ZEN_RSEQ_N() ");
    WriteSeparated(out, RseqItems(max), ",");
  }

  /** The ZEN_DEFER lines. */
  method WriteDefers(out: Writer, max: nat)
    modifies out
    ensures out.written == old(out.written) + DeferWrites(max)
  {
    ghost var before := out.written;
    out.Write(DeferBase[0]);
    out.Write(DeferBase[1]);
    assert out.written == before + DeferBase;
    ghost var start := out.written;
    var i := 3;
    while i < max
      invariant 3 <= i && (i <= max || i == 3)
      invariant out.written == start + DeferLines(max)[..i - 3]
    {
      out.Write("#define ZEN_DEFER_" + Decimal(i) + "(...) __VA_ARGS__ ZEN_DEFER_" + Decimal(i - 1) + "() ()\n");
      assert DeferLines(max)[..i - 2] == DeferLines(max)[..i - 3] + [DeferLine(i)];
      i := i + 1;
    }
    assert DeferLines(max)[..i - 3] == DeferLines(max) by {
      if max < 3 {
        assert DeferLines(max) == [];
      }
    }
    out.Write(DeferDispatch);
    AppendThree(before, DeferBase, DeferLines(max), [DeferDispatch]);
  }

  /** The writes of a table of `max` entries, entry after entry. */
  lemma TableStep(entries: seq<seq<string>>, i: nat)
    requires i < |entries|
    ensures Flatten(entries[..i + 1]) == Flatten(entries[..i]) + entries[i]
  {
    assert entries[..i + 1] == entries[..i] + [entries[i]];
    FlattenAppend(entries[..i], [entries[i]]);
    assert Flatten([entries[i]]) == entries[i] + Flatten([]);
  }

  /** The table loop's invariant, carried over the writes of entry i. */
  lemma TableWritten(start: seq<string>, entries: seq<seq<string>>, i: nat, before: seq<string>, after: seq<string>)
    requires i < |entries| && before == start + Flatten(entries[..i]) && after == before + entries[i]
    ensures after == start + Flatten(entries[..i + 1])
  {
    TableStep(entries, i);
  }

  /** After the last entry, the table loop has written every entry. */
  lemma TableComplete(start: seq<string>, entries: seq<seq<string>>, written: seq<string>)
    requires written == start + Flatten(entries[..|entries|])
    ensures written == start + Flatten(entries)
  {
    assert entries[..|entries|] == entries;
  }

  /** One ZEN_REPEAT_WITH_i definition. */
  method WriteRepeatWithEntry(out: Writer, i: nat)
    modifies out
    ensures out.written == old(out.written) + RepeatWithEntry(i)
  {
    ghost var start := out.written;
    var head := "#define ZEN_REPEAT_WITH_" + Decimal(i) + "(s,m,...)";
    out.Write(head);
    WriteSeparated(out, RepeatCalls(i), " s");
    out.Write("\n");
    AppendThree(start, [head], Separated(RepeatCalls(i), " s"), ["\n"]);
  }

  /** The ZEN_REPEAT_WITH loop. */
  method WriteRepeatWithTable(out: Writer, max: nat)
    modifies out
    ensures out.written == old(out.written) + RepeatWithTable(max)
  {
    ghost var start := out.written;
    ghost var entries := RepeatWithEntries(max);
    for i := 0 to max
      invariant out.written == start + Flatten(entries[..i])
    {
      ghost var before := out.written;
      WriteRepeatWithEntry(out, i);
      TableWritten(start, entries, i, before, out.written);
    }
    TableComplete(start, entries, out.written);
    assert Flatten(entries) == RepeatWithTable(max);
  }

  /** The ZEN_REPEAT_WITH table, its dispatcher and ZEN_REPEAT. */
  method WriteRepeatWith(out: Writer, max: nat)
    modifies out
    ensures out.written == old(out.written) + RepeatWithWrites(max)
  {
    ghost var start := out.written;
    WriteRepeatWithTable(out, max);
    out.Write(RepeatDispatch[0]);
    out.Write(RepeatDispatch[1]);
    AppendThree(start, RepeatWithTable(max), [RepeatDispatch[0]], [RepeatDispatch[1]]);
    assert [RepeatDispatch[0]] + [RepeatDispatch[1]] == RepeatDispatch;
  }

  /** One ZEN_ENUM_IMPL_i definition. */
  method WriteEnumEntry(out: Writer, i: nat)
    modifies out
    ensures out.written == old(out.written) + EnumEntry(i)
  {
    ghost var start := out.written;
    var head := "#define ZEN_ENUM_IMPL_" + Decimal(i) + "(m,...)";
    out.Write(head);
    WriteSeparated(out, EnumCalls(i), " ,");
    out.Write("\n");
    AppendThree(start, [head], Separated(EnumCalls(i), " ,"), ["\n"]);
  }

  /** The ZEN_ENUM_IMPL loop. */
  method WriteEnumTable(out: Writer, max: nat)
    modifies out
    ensures out.written == old(out.written) + EnumTable(max)
  {
    ghost var start := out.written;
    ghost var entries := EnumEntries(max);
    for i := 0 to max
      invariant out.written == start + Flatten(entries[..i])
    {
      ghost var before := out.written;
      WriteEnumEntry(out, i);
      TableWritten(start, entries, i, before, out.written);
    }
    TableComplete(start, entries, out.written);
    assert Flatten(entries) == EnumTable(max);
  }

  /** The ZEN_ENUM_IMPL table and ZEN_ENUM. */
  method WriteEnum(out: Writer, max: nat)
    modifies out
    ensures out.written == old(out.written) + EnumWrites(max)
  {
    WriteEnumTable(out, max);
    out.Write(EnumDispatch);
  }

  /** The ZEN_GET_VA_ARG loop: one line per entry. */
  method WriteGetVaArg(out: Writer, max: nat)
    modifies out
    ensures out.written == old(out.written) + GetVaArgWrites(max)
  {
    ghost var start := out.written;
    ghost var lines := seq(max, i requires 0 <= i < max => GetVaArgLine(i));
    for i := 0 to max
      invariant out.written == start + lines[..i]
    {
      out.Write("#define ZEN_GET_VA_ARG_" + Decimal(i) + "(" + Join(ArgNames(i), ", ") + ",...) arg" + Decimal(i) + "\n");
      assert lines[..i + 1] == lines[..i] + [lines[i]];
    }
    assert lines[..max] == lines;
    out.Write(GetVaArgDispatch);
    AppendThree(start, lines, [GetVaArgDispatch], []);
  }

  /** The sections before the tables. */
  method WriteHead(out: Writer, prose: Prose, maxVaArgs: nat)
    modifies out
    ensures out.written == old(out.written) + HeadWrites(prose, maxVaArgs)
  {
    ghost var start := out.written;
    out.Write(prose.preamble);
    WriteArgN(out, maxVaArgs);
    WriteRseq(out, maxVaArgs);
    AppendThree(start, [prose.preamble], ArgNWrites(maxVaArgs), RseqWrites(maxVaArgs));
    ghost var first := [prose.preamble] + ArgNWrites(maxVaArgs) + RseqWrites(maxVaArgs);
    out.Write(prose.deferDoc);
    WriteDefers(out, maxVaArgs);
    var maxLength := prose.utilities + "#define ZEN_VA_MAX_LENGH " + Decimal(maxVaArgs) + "\n\n";
    out.Write(maxLength);
    AppendFour(start, first, [prose.deferDoc], DeferWrites(maxVaArgs), [maxLength]);
  }

  /** The three tables. */
  method WriteTables(out: Writer, maxVaArgs: nat)
    modifies out
    ensures out.written == old(out.written) + TableWrites(maxVaArgs)
  {
    ghost var start := out.written;
    WriteRepeatWith(out, maxVaArgs);
    WriteEnum(out, maxVaArgs);
    WriteGetVaArg(out, maxVaArgs);
    AppendThree(start, RepeatWithWrites(maxVaArgs), EnumWrites(maxVaArgs), GetVaArgWrites(maxVaArgs));
  }

  /** generate_macro_header(out, max_va_args): every section in order. */
  method GenerateMacroHeader(out: Writer, prose: Prose, maxVaArgs: nat)
    modifies out
    ensures out.written == old(out.written) + HeaderWrites(prose, maxVaArgs)
  {
    ghost var start := out.written;
    WriteHead(out, prose, maxVaArgs);
    WriteTables(out, maxVaArgs);
    WriteClosing(out);
    AppendThree(start, HeadWrites(prose, maxVaArgs), TableWrites(maxVaArgs), [ForEachBlock, Trailer]);
  }

  /** The ZEN_FOR_EACH family and the end of the include guard. */
  method WriteClosing(out: Writer)
    modifies out
    ensures out.written == old(out.written) + [ForEachBlock, Trailer]
  {
    out.Write(ForEachBlock);
    out.Write(Trailer);
  }

  // What the generated text says.

  /** ZEN_RSEQ_N() is the numbers from `max` down to 1, joined by commas. */
  lemma RseqText(max: nat)
    ensures Flatten(RseqWrites(max)) == "#define ZEN_RSEQ_N() " + Join(RseqItems(max), ",")
    ensures forall i :: 0 <= i < max ==> RseqItems(max)[i] == Decimal(max - i)
  {
    var head, items := "#define ZEN_RSEQ_N() ", Separated(RseqItems(max), ",");
    assert RseqWrites(max) == [head] + items;
    SeparatedJoins(RseqItems(max), ",");
    FlattenAppend([head], items);
    assert Flatten([head]) == head + Flatten([]) == head;
    assert Flatten(RseqWrites(max)) == head + Flatten(items);
  }

  /** Each ZEN_DEFER_i, for i from 3 to max - 1, is written in place and defers through ZEN_DEFER_{i-1}. */
  lemma DeferChains(max: nat, i: nat)
    requires 3 <= i < max
    ensures DeferWrites(max)[i - 1] == DeferLine(i)
    ensures DeferLine(i) == "#define ZEN_DEFER_" + Decimal(i) + "(...) __VA_ARGS__ ZEN_DEFER_" + Decimal(i - 1) + "() ()\n"
  {
  }

  /**
   * The text of ZEN_REPEAT_WITH_i has exactly i calls m(0,...) ... m(i-1,...),
   * in ascending order, joined by " s".
   */
  lemma RepeatWithEntryText(i: nat)
    ensures Flatten(RepeatWithEntry(i)) ==
      "#define ZEN_REPEAT_WITH_" + Decimal(i) + "(s,m,...)" + Join(RepeatCalls(i), " s") + "\n"
  {
    var head := "#define ZEN_REPEAT_WITH_" + Decimal(i) + "(s,m,...)";
    SeparatedJoins(RepeatCalls(i), " s");
    FlattenAppend([head], Separated(RepeatCalls(i), " s"));
    FlattenAppend([head] + Separated(RepeatCalls(i), " s"), ["\n"]);
    assert Flatten([head]) == head + Flatten([]);
    assert Flatten(["\n"]) == "\n" + Flatten([]);
  }

  /** The text of ZEN_ENUM_IMPL_i has the same calls, joined by " ,". */
  lemma EnumEntryText(i: nat)
    ensures Flatten(EnumEntry(i)) ==
      "#define ZEN_ENUM_IMPL_" + Decimal(i) + "(m,...)" + Join(EnumCalls(i), " ,") + "\n"
  {
    var head := "#define ZEN_ENUM_IMPL_" + Decimal(i) + "(m,...)";
    SeparatedJoins(EnumCalls(i), " ,");
    FlattenAppend([head], Separated(EnumCalls(i), " ,"));
    FlattenAppend([head] + Separated(EnumCalls(i), " ,"), ["\n"]);
    assert Flatten([head]) == head + Flatten([]);
    assert Flatten(["\n"]) == "\n" + Flatten([]);
  }

  /** ZEN_GET_VA_ARG_i names arg0 ... argi and expands to its last parameter. */
  lemma GetVaArgSelectsLast(i: nat)
    ensures forall j :: 0 <= j <= i ==> ArgNames(i)[j] == "arg" + Decimal(j)
    ensures ArgNames(i)[i] == "arg" + Decimal(i)
    ensures GetVaArgLine(i) == "#define ZEN_GET_VA_ARG_" + Decimal(i) + "(" + Join(ArgNames(i), ", ") + ",...) " + ArgNames(i)[i] + "\n"
  {
  }

  /** ZEN_VA_MAX_LENGH is defined as `max_va_args`, 20 by default. */
  lemma MaxLengthDefined(prose: Prose, max: nat)
    ensures MaxLengthWrite(prose, max) == prose.utilities + "#define ZEN_VA_MAX_LENGH " + Decimal(max) + "\n\n"
    ensures Decimal(DefaultMaxVaArgs) == "20" && DefaultMaxVaArgs == MaxLength
  {
  }

  /** The two calls of the third ZEN_REPEAT_WITH entry, joined by " s". */
  lemma RepeatCallsOfTwo()
    ensures Join(RepeatCalls(2), " s") == " m(0,__VA_ARGS__)" + " s" + " m(1,__VA_ARGS__)"
  {
    var calls := RepeatCalls(2);
    assert calls[0] == " m(0,__VA_ARGS__)" by {
      assert Decimal(0) == "0";
    }
    assert calls[1] == " m(1,__VA_ARGS__)" by {
      assert Decimal(1) == "1";
    }
    assert calls[1..] == [calls[1]];
  }

  /** The third entry of the ZEN_REPEAT_WITH table, as the header spells it. */
  lemma RepeatWithSecondEntry()
    ensures Flatten(RepeatWithEntry(2)) ==
      "#define ZEN_REPEAT_WITH_" + "2" + "(s,m,...)" + (" m(0,__VA_ARGS__)" + " s" + " m(1,__VA_ARGS__)") + "\n"
  {
    RepeatWithEntryText(2);
    RepeatCallsOfTwo();
    assert Decimal(2) == "2";
  }

  /** The two calls of the third ZEN_ENUM_IMPL entry, joined by " ,". */
  lemma EnumCallsOfTwo()
    ensures Join(EnumCalls(2), " ,") == " m(0, __VA_ARGS__)" + " ," + " m(1, __VA_ARGS__)"
  {
    var calls := EnumCalls(2);
    assert calls[0] == " m(0, __VA_ARGS__)" by {
      assert Decimal(0) == "0";
    }
    assert calls[1] == " m(1, __VA_ARGS__)" by {
      assert Decimal(1) == "1";
    }
    assert calls[1..] == [calls[1]];
  }

  /** The third entry of the ZEN_ENUM_IMPL table, as the header spells it. */
  lemma EnumSecondEntry()
    ensures Flatten(EnumEntry(2)) ==
      "#define ZEN_ENUM_IMPL_" + "2" + "(m,...)" + (" m(0, __VA_ARGS__)" + " ," + " m(1, __VA_ARGS__)") + "\n"
  {
    EnumEntryText(2);
    EnumCallsOfTwo();
    assert Decimal(2) == "2";
  }

  /** The parameters of ZEN_GET_VA_ARG_2, joined by ", ". */
  lemma ArgNamesOfTwo()
    ensures Join(ArgNames(2), ", ") == "arg0" + ", " + ("arg1" + ", " + "arg2")
  {
    var names := ArgNames(2);
    assert names[0] == "arg0" by {
      assert Decimal(0) == "0";
    }
    assert names[1] == "arg1" by {
      assert Decimal(1) == "1";
    }
    assert names[2] == "arg2" by {
      assert Decimal(2) == "2";
    }
    assert names[1..] == [names[1], names[2]];
    assert names[1..][1..] == [names[2]];
  }

  /** The third entry of the ZEN_GET_VA_ARG table, as the header spells it. */
  lemma GetVaArgSecondEntry()
    ensures GetVaArgLine(2) ==
      "#define ZEN_GET_VA_ARG_" + "2" + "(" + ("arg0" + ", " + ("arg1" + ", " + "arg2")) + ",...) arg" + "2" + "\n"
  {
    ArgNamesOfTwo();
    assert Decimal(2) == "2";
  }
}
