/**
 * include/zen/macros.h: the argument-counting, argument-selecting and
 * repeating preprocessor macros, as functions on token sequences.
 *
 * A macro argument is a sequence of preprocessing tokens.  An invocation
 * always has at least one argument: an empty argument list is a single
 * empty argument.  A user macro `m` that the repeating macros call is an
 * `Invoker`: the tokens `m(i, args...)` finally expand to.  A number
 * parameter such as `n` is itself a token sequence, since the macros
 * paste it onto a macro name: only a single number token below
 * `MaxLength` names a macro of the table, anything else names none and
 * the expansion is ill-formed (`None`).
 */
module ZenMacros {
  import opened Wrappers

  datatype Token = Num(value: nat) | Ident(name: string) | Punct(text: string)

  type Arg = seq<Token>

  type Invoker = (nat, seq<Arg>) -> seq<Token>

  /** ZEN_VA_MAX_LENGH: the macro tables run from 0 to one below it. */
  const MaxLength: nat := 20

  /** The number a single number token stands for. */
  function Index(n: Arg): (r: Option<nat>)
    ensures r.Some? <==> |n| == 1 && n[0].Num?
    ensures r.Some? ==> n == [Num(r.value)]
  {
    if |n| == 1 && n[0].Num? then Some(n[0].value) else None
  }

  /** ZEN_RSEQ_N(): the numbers from 20 down to 1. */
  function Rseq(): (r: seq<Arg>)
    ensures |r| == MaxLength
    ensures forall j :: 0 <= j < MaxLength ==> r[j] == [Num(MaxLength - j)]
  {
    seq(MaxLength, j requires 0 <= j < MaxLength => [Num(MaxLength - j)])
  }

  /** ZEN_ARG_N: the argument after the twenty named ones. */
  function ArgN(list: seq<Arg>): (r: Option<Arg>)
    ensures r.Some? <==> |list| > MaxLength
    ensures r.Some? ==> r.value == list[MaxLength]
  {
    if |list| > MaxLength then Some(list[MaxLength]) else None
  }

  /**
   * ZEN_VA_LENGTH: ZEN_ARG_N over the arguments followed by 20, 19, ..., 1.
   * Up to twenty arguments it gives their number; past twenty it gives the
   * twenty-first argument itself.
   */
  function VaLength(args: seq<Arg>): (r: Arg)
    requires |args| >= 1
    ensures |args| <= MaxLength ==> r == [Num(|args|)]
    ensures |args| > MaxLength ==> r == args[MaxLength]
  {
    var list := args + Rseq();
    assert |list| > MaxLength;
    assert |args| <= MaxLength ==> list[MaxLength] == Rseq()[MaxLength - |args|];
    ArgN(list).value
  }

  /**
   * ZEN_GET_VA_ARG(n, args): ZEN_GET_VA_ARG_n names its first n + 1
   * parameters and expands to the last of them, the 0-based n-th argument.
   */
  function GetVaArg(n: Arg, args: seq<Arg>): (r: Option<Arg>)
    ensures r.Some? <==> Index(n).Some? && Index(n).value < MaxLength && Index(n).value < |args|
    ensures r.Some? ==> r.value == args[Index(n).value]
  {
    match Index(n)
    case Some(k) => if k < MaxLength && k < |args| then Some(args[k]) else None
    case None => None
  }

  /**
   * The parts, with `sep` between each two: the first part leads, the last
   * one ends the result.
   */
  function Join<T>(parts: seq<seq<T>>, sep: seq<T>): (r: seq<T>)
    ensures |parts| >= 1 ==> parts[0] <= r
    decreases |parts|
  {
    if |parts| == 0 then []
    else if |parts| == 1 then
      assert parts[1..] == [];
      assert parts[0] + [] == parts[0];
      parts[0]
    else
      var rest := Join(parts[1..], sep);
      assert parts[1..][|parts[1..]| - 1] == parts[|parts| - 1];
      parts[0] + sep + rest
  }

  /** The calls m(0, args), ..., m(n - 1, args), in ascending order. */
  function Calls(m: Invoker, n: nat, args: seq<Arg>): (r: seq<seq<Token>>)
    ensures |r| == n && forall i :: 0 <= i < n ==> r[i] == m(i, args)
  {
    seq(n, i requires 0 <= i < n => m(i, args))
  }

  /**
   * ZEN_REPEAT_WITH_k: the table entry with k calls; each entry is the one
   * before it followed by the separator and one more call.
   */
  function RepeatTable(s: seq<Token>, k: nat, m: Invoker, args: seq<Arg>): (r: seq<Token>)
    ensures k >= 1 ==> m(0, args) <= r
    ensures k >= 1 ==> |r| >= |m(k - 1, args)|
  {
    if k == 0 then []
    else if k == 1 then m(0, args)
    else RepeatTable(s, k - 1, m, args) + s + m(k - 1, args)
  }

  /** ZEN_REPEAT_WITH(s, n, m, args): the table entry that `n` names. */
  function RepeatWith(s: seq<Token>, n: Arg, m: Invoker, args: seq<Arg>): (r: Option<seq<Token>>)
    ensures r.Some? <==> Index(n).Some? && Index(n).value < MaxLength
  {
    match Index(n)
    case Some(k) => if k < MaxLength then Some(RepeatTable(s, k, m, args)) else None
    case None => None
  }

  /**
   * ZEN_REPEAT(n, m, args): ZEN_REPEAT_WITH with an empty separator.  For a
   * number n below the table size it is the n calls of m, in order, with
   * nothing between them; any other n names no macro.
   */
  function Repeat(n: Arg, m: Invoker, args: seq<Arg>): (r: Option<seq<Token>>)
    ensures r.Some? <==> Index(n).Some? && Index(n).value < MaxLength
    ensures r.Some? ==> r.value == Flatten(Calls(m, Index(n).value, args))
  {
    match Index(n)
    case Some(k) =>
      RepeatTableJoins([], k, m, args);
      JoinEmptyIsFlatten(Calls(m, k, args));
      RepeatWith([], n, m, args)
    case None => RepeatWith([], n, m, args)
  }

  /** ZEN_ENUM(n, m, args): ZEN_ENUM_IMPL_n, the same calls joined by commas. */
  function Enum(n: Arg, m: Invoker, args: seq<Arg>): (r: Option<seq<Token>>)
    ensures r.Some? <==> Index(n).Some? && Index(n).value < MaxLength
  {
    match Index(n)
    case Some(k) => if k < MaxLength then Some(Join(Calls(m, k, args), [Punct(",")])) else None
    case None => None
  }

  /** Joining a non-empty list with one more part. */
  lemma {:induction false} JoinSnoc<T>(parts: seq<seq<T>>, last: seq<T>, sep: seq<T>)
    requires |parts| >= 1
    ensures Join(parts + [last], sep) == Join(parts, sep) + sep + last
    decreases |parts|
  {
    if |parts| == 1 {
      assert (parts + [last])[1..] == [last];
    } else {
      assert (parts + [last])[1..] == parts[1..] + [last];
      JoinSnoc(parts[1..], last, sep);
    }
  }

  /**
   * Every table entry ZEN_REPEAT_WITH_k is exactly the k calls
   * m(0, args) s m(1, args) ... s m(k - 1, args) in ascending order.
   */
  lemma {:induction false} RepeatTableJoins(s: seq<Token>, k: nat, m: Invoker, args: seq<Arg>)
    ensures RepeatTable(s, k, m, args) == Join(Calls(m, k, args), s)
  {
    if k > 1 {
      RepeatTableJoins(s, k - 1, m, args);
      assert Calls(m, k, args) == Calls(m, k - 1, args) + [m(k - 1, args)];
      JoinSnoc(Calls(m, k - 1, args), m(k - 1, args), s);
    }
  }

  /** ZEN_ENUM is ZEN_REPEAT_WITH with a comma as separator. */
  lemma EnumIsRepeatWithComma(n: Arg, m: Invoker, args: seq<Arg>)
    ensures Enum(n, m, args) == RepeatWith([Punct(",")], n, m, args)
  {
    if Index(n).Some? {
      RepeatTableJoins([Punct(",")], Index(n).value, m, args);
    }
  }

  /** The parts one after another, with nothing between them: the first part leads. */
  function Flatten<T>(parts: seq<seq<T>>): (r: seq<T>)
    ensures parts != [] ==> parts[0] <= r
  {
    if parts == [] then [] else parts[0] + Flatten(parts[1..])
  }

  /** The parts laid one after another give nothing exactly when every part is empty. */
  lemma {:induction false} FlattenEmpty<T>(parts: seq<seq<T>>)
    ensures Flatten(parts) == [] <==> forall i :: 0 <= i < |parts| ==> parts[i] == []
  {
    if parts != [] {
      FlattenEmpty(parts[1..]);
      assert forall i :: 1 <= i < |parts| ==> parts[i] == parts[1..][i - 1];
    }
  }

  /** With an empty separator the parts are laid one after another. */
  lemma {:induction false} JoinEmptyIsFlatten<T>(parts: seq<seq<T>>)
    ensures Join(parts, []) == Flatten(parts)
  {
    if |parts| > 1 {
      JoinEmptyIsFlatten(parts[1..]);
      assert parts[0] + [] == parts[0];
    } else if |parts| == 1 {
      assert parts[1..] == [];
      assert parts[0] + [] == parts[0];
    }
  }

  /**
   * ZEN_FOR_EACH_IMPL(i, m, args): ZEN_FOR_EACH_IMPL2 receives the selected
   * argument but discards it, calling m with `i` and the token `arg`.
   */
  function ForEachImpl(m: Invoker): (r: Invoker)
    ensures forall i: nat, args: seq<Arg> :: r(i, args) == m(i, [[Ident("arg")]])
  {
    (i: nat, args: seq<Arg>) => m(i, [[Ident("arg")]])
  }

  /**
   * ZEN_FOR_EACH_WITH(s, m, args): one ZEN_FOR_EACH_IMPL per argument,
   * joined by s.  It expands for one to nineteen arguments and not for
   * twenty; past twenty the twenty-first argument is taken as the count.
   */
  function ForEachWith(s: seq<Token>, m: Invoker, args: seq<Arg>): (r: Option<seq<Token>>)
    requires |args| >= 1
    ensures |args| <= MaxLength ==> (r.Some? <==> |args| < MaxLength)
    ensures |args| > MaxLength ==> r == RepeatWith(s, args[MaxLength], ForEachImpl(m), args)
  {
    RepeatWith(s, VaLength(args), ForEachImpl(m), args)
  }

  /**
   * ZEN_FOR_EACH(m, args): ZEN_FOR_EACH_WITH with an empty separator, so for
   * one to nineteen arguments the calls of m are laid one after another.
   */
  function ForEach(m: Invoker, args: seq<Arg>): (r: Option<seq<Token>>)
    requires |args| >= 1
    ensures |args| < MaxLength ==> r == Some(Flatten(Calls(ForEachImpl(m), |args|, args)))
  {
    if |args| < MaxLength then
      RepeatTableJoins([], |args|, ForEachImpl(m), args);
      JoinEmptyIsFlatten(Calls(ForEachImpl(m), |args|, args));
      ForEachWith([], m, args)
    else ForEachWith([], m, args)
  }

  /**
   * ZEN_FOR_EACH_ENUM(m, args): one ZEN_FOR_EACH_IMPL per argument, joined
   * by commas, for one to nineteen arguments.
   */
  function ForEachEnum(m: Invoker, args: seq<Arg>): (r: Option<seq<Token>>)
    requires |args| >= 1
    ensures |args| < MaxLength ==> r == Some(Join(Calls(ForEachImpl(m), |args|, args), [Punct(",")]))
    ensures |args| == MaxLength ==> r == None
  {
    Enum(VaLength(args), ForEachImpl(m), args)
  }

  /**
   * For one to nineteen arguments ZEN_FOR_EACH_WITH calls m once per
   * argument, with the argument's position and the token `arg` in place of
   * the argument: the arguments themselves never reach m.
   */
  lemma ForEachWithCalls(s: seq<Token>, m: Invoker, args: seq<Arg>)
    requires 1 <= |args| < MaxLength
    ensures ForEachWith(s, m, args) == Some(Join(Calls(ForEachImpl(m), |args|, args), s))
    ensures forall i :: 0 <= i < |args| ==> Calls(ForEachImpl(m), |args|, args)[i] == m(i, [[Ident("arg")]])
  {
    RepeatTableJoins(s, |args|, ForEachImpl(m), args);
  }

  /** Hence ZEN_FOR_EACH depends on the number of arguments only. */
  lemma ForEachIgnoresArguments(s: seq<Token>, m: Invoker, a: seq<Arg>, b: seq<Arg>)
    requires 1 <= |a| < MaxLength && |a| == |b|
    ensures ForEachWith(s, m, a) == ForEachWith(s, m, b)
  {
    ForEachWithCalls(s, m, a);
    ForEachWithCalls(s, m, b);
    assert Calls(ForEachImpl(m), |a|, a) == Calls(ForEachImpl(m), |b|, b);
  }

  /** Twenty arguments count to 20, which names no ZEN_REPEAT_WITH entry. */
  lemma ForEachOfTwentyFails(s: seq<Token>, m: Invoker, args: seq<Arg>)
    requires |args| == MaxLength
    ensures ForEachWith(s, m, args) == None
  {
  }

  // The macros the tests define, and the tests.

  /** The decimal digits of a number, as `##` pastes it and `str` prints it. */
  function Decimal(n: nat): string
  {
    if n < 10 then [(n + 48) as char] else Decimal(n / 10) + [(n % 10 + 48) as char]
  }

  /** The first argument, or an empty one when it is omitted. */
  function First(args: seq<Arg>): Arg
  {
    if |args| > 0 then args[0] else []
  }

  /** ZEN_ASSIGN_INDEXED(i, value): var ## i = value */
  const AssignIndexed: Invoker := (i: nat, args: seq<Arg>) => [Ident("var" + Decimal(i)), Punct("=")] + First(args)

  /** ZEN_ADD_CONST_TO_INDEX(i, k): i * k */
  const AddConstToIndex: Invoker := (i: nat, args: seq<Arg>) => [Num(i), Punct("*")] + First(args)

  /** ZEN_INIT_BOOL(i, value): bool var ## i = value; */
  const InitBool: Invoker := (i: nat, args: seq<Arg>) =>
    [Ident("bool"), Ident("var" + Decimal(i)), Punct("=")] + First(args) + [Punct(";")]

  /** DECLARE_VARS_NUMBERED(i, name): bool name ## i = true; (a name argument pastes as its first token) */
  const DeclareVarsNumbered: Invoker := (i: nat, args: seq<Arg>) =>
    var name := if |First(args)| > 0 && First(args)[0].Ident? then First(args)[0].name else "";
    [Ident("bool"), Ident(name + Decimal(i)), Punct("="), Ident("true"), Punct(";")]

  /** The value of an expression `a * b + c * d + ...` over number tokens. */
  function SumOfProducts(ts: seq<Token>): Option<int>
    decreases |ts|
  {
    if |ts| < 3 || !ts[0].Num? || ts[1] != Punct("*") || !ts[2].Num? then None
    else if |ts| == 3 then Some(ts[0].value * ts[2].value)
    else if ts[3] != Punct("+") then None
    else match SumOfProducts(ts[4..])
      case Some(v) => Some(ts[0].value * ts[2].value + v)
      case None => None
  }

  /** ZEN_VA_LENGTH(0,1,2,3) == 4 and ZEN_VA_LENGTH(foo,bar,baz) == 3. */
  lemma VaLengthTests()
    ensures VaLength([[Num(0)], [Num(1)], [Num(2)], [Num(3)]]) == [Num(4)]
    ensures VaLength([[Ident("foo")], [Ident("bar")], [Ident("baz")]]) == [Num(3)]
  {
  }

  /** ZEN_GET_VA_ARG(k, 1,2,3,4) == k + 1 for k from 0 to 3, and no fifth argument. */
  lemma GetVaArgTests(args: seq<Arg>)
    requires args == [[Num(1)], [Num(2)], [Num(3)], [Num(4)]]
    ensures GetVaArg([Num(0)], args) == Some([Num(1)])
    ensures GetVaArg([Num(1)], args) == Some([Num(2)])
    ensures GetVaArg([Num(2)], args) == Some([Num(3)])
    ensures GetVaArg([Num(3)], args) == Some([Num(4)])
    ensures GetVaArg([Num(4)], args) == None
  {
  }

  /** The table entry of three calls, written out. */
  lemma RepeatTableThree(s: seq<Token>, m: Invoker, args: seq<Arg>)
    ensures RepeatTable(s, 3, m, args) == m(0, args) + s + m(1, args) + s + m(2, args)
  {
    assert RepeatTable(s, 2, m, args) == m(0, args) + s + m(1, args);
  }

  /** bool ZEN_ENUM(3, ZEN_ASSIGN_INDEXED, true); declares var0, var1 and var2 as true. */
  lemma EnumMacroWorks(args: seq<Arg>)
    requires args == [[Ident("true")]]
    ensures Enum([Num(3)], AssignIndexed, args) == Some([
      Ident("var0"), Punct("="), Ident("true"), Punct(","),
      Ident("var1"), Punct("="), Ident("true"), Punct(","),
      Ident("var2"), Punct("="), Ident("true")])
  {
    assert "var" + Decimal(0) == "var0" && "var" + Decimal(1) == "var1" && "var" + Decimal(2) == "var2";
    assert AssignIndexed(0, args) == [Ident("var0"), Punct("="), Ident("true")];
    assert AssignIndexed(1, args) == [Ident("var1"), Punct("="), Ident("true")];
    assert AssignIndexed(2, args) == [Ident("var2"), Punct("="), Ident("true")];
    EnumIsRepeatWithComma([Num(3)], AssignIndexed, args);
    RepeatTableThree([Punct(",")], AssignIndexed, args);
    assert RepeatTable([Punct(",")], 3, AssignIndexed, args) == [
      Ident("var0"), Punct("="), Ident("true"), Punct(","),
      Ident("var1"), Punct("="), Ident("true"), Punct(","),
      Ident("var2"), Punct("="), Ident("true")];
  }

  /** 0 * 4 + 1 * 4 + 2 * 4 is 12. */
  lemma SumIsTwelve(e: seq<Token>)
    requires e == [Num(0), Punct("*"), Num(4), Punct("+"), Num(1), Punct("*"), Num(4), Punct("+"), Num(2), Punct("*"), Num(4)]
    ensures SumOfProducts(e) == Some(12)
  {
    assert e[4..][4..] == [Num(2), Punct("*"), Num(4)];
    assert SumOfProducts(e[4..][4..]) == Some(8);
    assert SumOfProducts(e[4..]) == Some(12);
  }

  /** ZEN_REPEAT_WITH(+, 3, ZEN_ADD_CONST_TO_INDEX, 4) is 0 * 4 + 1 * 4 + 2 * 4, which is 12. */
  lemma RepeatWithMacroWorks(args: seq<Arg>)
    requires args == [[Num(4)]]
    ensures RepeatWith([Punct("+")], [Num(3)], AddConstToIndex, args) == Some([
      Num(0), Punct("*"), Num(4), Punct("+"),
      Num(1), Punct("*"), Num(4), Punct("+"),
      Num(2), Punct("*"), Num(4)])
    ensures SumOfProducts(RepeatWith([Punct("+")], [Num(3)], AddConstToIndex, args).value) == Some(12)
  {
    var e := [Num(0), Punct("*"), Num(4), Punct("+"), Num(1), Punct("*"), Num(4), Punct("+"), Num(2), Punct("*"), Num(4)];
    assert AddConstToIndex(0, args) == [Num(0), Punct("*"), Num(4)];
    assert AddConstToIndex(1, args) == [Num(1), Punct("*"), Num(4)];
    assert AddConstToIndex(2, args) == [Num(2), Punct("*"), Num(4)];
    RepeatTableThree([Punct("+")], AddConstToIndex, args);
    assert RepeatTable([Punct("+")], 3, AddConstToIndex, args) == e;
    SumIsTwelve(e);
  }

  /** The same with the count given as ZEN_VA_LENGTH(foo,bar,baz). */
  lemma RepeatWithMacroWorksWithNonTrivialAmount(args: seq<Arg>)
    requires args == [[Num(4)]]
    ensures SumOfProducts(RepeatWith([Punct("+")], VaLength([[Ident("foo")], [Ident("bar")], [Ident("baz")]]), AddConstToIndex, args).value) == Some(12)
  {
    VaLengthTests();
    RepeatWithMacroWorks(args);
  }

  /** The three declarations `bool <prefix>0 = true; bool <prefix>1 = true; bool <prefix>2 = true;`. */
  function ThreeBools(prefix: string): seq<Token>
  {
    [Ident("bool"), Ident(prefix + "0"), Punct("="), Ident("true"), Punct(";"),
     Ident("bool"), Ident(prefix + "1"), Punct("="), Ident("true"), Punct(";"),
     Ident("bool"), Ident(prefix + "2"), Punct("="), Ident("true"), Punct(";")]
  }

  /** Three calls of m, one after another, as the table entry of 3 lays them out. */
  lemma RepeatThree(m: Invoker, args: seq<Arg>, prefix: string)
    requires forall i: nat :: i < 3 ==> m(i, args) == [Ident("bool"), Ident(prefix + Decimal(i)), Punct("="), Ident("true"), Punct(";")]
    ensures RepeatTable([], 3, m, args) == ThreeBools(prefix)
  {
    assert Decimal(0) == "0" && Decimal(1) == "1" && Decimal(2) == "2";
    assert RepeatTable([], 2, m, args) == m(0, args) + [] + m(1, args);
    assert RepeatTable([], 3, m, args) == m(0, args) + [] + m(1, args) + [] + m(2, args);
  }

  /** ZEN_REPEAT(3, ZEN_INIT_BOOL, true) declares var0, var1 and var2 as true. */
  lemma RepeatMacroWorks(args: seq<Arg>)
    requires args == [[Ident("true")]]
    ensures Repeat([Num(3)], InitBool, args) == Some(ThreeBools("var"))
  {
    RepeatThree(InitBool, args, "var");
  }

  /**
   * ZEN_FOR_EACH(DECLARE_VARS_NUMBERED, foo, bar, baz) declares arg0, arg1
   * and arg2, not foo0, bar1 and baz2.
   */
  lemma ForEachMacroWorks(args: seq<Arg>)
    requires args == [[Ident("foo")], [Ident("bar")], [Ident("baz")]]
    ensures ForEach(DeclareVarsNumbered, args) == Some(ThreeBools("arg"))
  {
    RepeatThree(ForEachImpl(DeclareVarsNumbered), args, "arg");
  }
}
