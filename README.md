# A verified model of the Zen C++ library's core

Zen is a small C++ utility library. This project models two parts of it in
Dafny and proves what its code, comments and tests promise about them.

**The compile-time expression language of `zen/meta/`.** Its values are C++
types. The model is the term datatype `MetaTerm.Ty`, with two pure functions
over it:

- `MetaEval.Compile` (`compile_`) rewrites `cond_` chains into nested `if_` terms.
- `MetaEval.Eval` (`eval_`) is the evaluator. It is the identity on leaves and
  lazy on `if_`. It is eager on every other template instance: the arguments
  are reduced first, then the `type` member is taken and evaluated again.

The library built on this language is modelled too:

- constants and `template_` (`MetaTerm`);
- `widen_`, `fold_` and the tuple setters (`MetaCommon`);
- `eq_`, `mult_`, `inc_` and `dec_` (`MetaMath`);
- `some_` and `none_` (`MetaMaybe`);
- binders and `_` substitution (`MetaLambda`);
- iterators over lists and maybes (`MetaIterator`);
- ranges, cons cells, `begin_`/`end_` and `nth_`/`set_nth_` (`MetaRange`);
- `find_` (`MetaFind`);
- the programs run through `defun_t` (`MetaDefun`): the recursive `fac_`, and
  the mutually recursive `is_even_`/`is_odd_` of the tests.

`eval_` recurses until a C++ compiler's depth limit stops it. The model has an
explicit fuel bound instead. `EvalMonotone` proves that only running out of
fuel depends on that bound.

**The runtime data structures and text processing.** The code that updates
objects in place becomes classes with `modifies` clauses:

- `DLList` (`ZenDLList`);
- `Vector` (`ZenVector`);
- `sequence_map` (`ZenSequenceMap`);
- `buffered_stream` (`ZenStream`);
- the lexgen `Lexer` (`ZenLexer`);
- the `po` builder of programs, subcommands and flags (`ZenProgramOptions`);
- the two `Either` types (`ZenEither`, `ZenBoxedEither`) and `Maybe` (`ZenMaybe`).

Pure code becomes functions:

- the `Maybe<Glyph>` sentinel and `from_utf8` (`ZenString`);
- the preprocessor macros of `include/zen/macros.h` (`ZenMacros`);
- `generate.py` (`ZenMacroGenerator`), which writes that header through a
  `Writer` object.

The model keeps the defects of the code rather than repairing them:

- `DLList::prepend` links the new node to the last node;
- `Vector` never updates its capacity field;
- the lexer swallows the character after a punctuation mark;
- `try_keyword` never finds a keyword;
- `Either::operator=` writes the member chosen by the target's tag;
- `sequence_map`'s copy assignment appends;
- `ZEN_FOR_EACH` passes the literal token `arg`.

Lemmas state each of these as a property.

The source is followed where it and its documentation disagree:

- `is_alpha` accepts the backtick.
- The generic `next_n_impl_` steps with `inc_<N>`.
- `set_nth_` drops its replacement argument.

Some templates do not compile as written:

- `substitute_parameters_` instantiates every case of its `cond_` eagerly.
- `find_` uses the undefined `cond_t`.

For these the model states the rule their text spells out.

## Model

| member | source | states |
|---|---|---|
| ZenMaybe.Maybe.constructor | include/zen/maybe.hpp:34 | `Maybe()` holds nothing |
| ZenMaybe.Maybe.FromSome | include/zen/maybe.hpp:36 | `Maybe(Some)` holds exactly the given value |
| ZenMaybe.Maybe.Moved | include/zen/maybe.hpp:38-43 | the new Maybe takes over the source's presence and value, and the source is left empty |
| ZenMaybe.Maybe.Copied | include/zen/maybe.hpp:45-49 | the copy has the source's presence and value, and the source is untouched |
| ZenMaybe.Maybe.Get | include/zen/maybe.hpp:51-73 | `get`, `operator*` and `operator->` require a value, and return the value held |
| ZenMaybe.Maybe.OrElse | include/zen/maybe.hpp:75-77 | gives the held value when there is one, and `alt` otherwise |
| ZenMaybe.OrElseAgreesWithGet | include/zen/maybe.hpp:61-77 | on a Maybe that holds a value, `orElse` never gives the alternative and agrees with `get` |
| ZenMaybe.OrElseWorks | test/Maybe.cc:13-16 | `some(1).orElse(2)` is 1 and `Maybe<int>().orElse(2)` is 2 |
| ZenMaybe.MoveEmptiesSource | include/zen/maybe.hpp:38-49 | moving out of a Maybe empties it, while copying leaves it holding its value |
| ZenBoxedEither.Either.FromLeft | include/zen/either.hpp:39-40 | `Either(Left)` and `fromLeft` give a left-valued either holding the value |
| ZenBoxedEither.Either.FromRight | include/zen/either.hpp:42-43 | `Either(Right)` and `fromRight` give a right-valued either holding the value |
| ZenBoxedEither.Either.Copied | include/zen/either.hpp:45-59 | the copy and move constructors keep the side and the payload |
| ZenBoxedEither.Either.Left | include/zen/either.hpp:92-96 | `left()` holds the left value on a left either, and is empty on a right one |
| ZenBoxedEither.Either.Right | include/zen/either.hpp:98-102 | `right()` holds the right value on a right either, and is empty on a left one |
| ZenBoxedEither.Either.MapLeft | include/zen/either.hpp:104-108 | `mapLeft` applies `f` to a left value only; a right value passes unchanged |
| ZenBoxedEither.Either.MapRight | include/zen/either.hpp:110-114 | `mapRight` applies `f` to a right value only; a left value passes unchanged |
| ZenBoxedEither.Either.Unwrap | include/zen/either.hpp:61-68 | `unwrap` gives the right value when the either is right, and throws the left value otherwise |
| ZenBoxedEither.Either.IsRight | include/zen/either.hpp:116 | `isRight` holds exactly for a right payload |
| ZenBoxedEither.Either.IsLeft | include/zen/either.hpp:117 | `isLeft` holds exactly for a left payload |
| ZenBoxedEither.OneSidePresent | include/zen/either.hpp:92-102 | exactly one of `left()` and `right()` is present |
| ZenBoxedEither.RightIsNotLeft | include/zen/either.hpp:116-117 | `isRight()` is the negation of `isLeft()` |
| ZenBoxedEither.MapsCommute | include/zen/either.hpp:104-114 | `mapLeft` and `mapRight` commute |
| ZenBoxedEither.MapLeftCompose | include/zen/either.hpp:104-108 | two `mapLeft`s are one `mapLeft` of the composition |
| ZenBoxedEither.MapKeepsOtherSide | include/zen/either.hpp:104-114 | `mapLeft` leaves `right()` unchanged, and `mapRight` leaves `left()` unchanged |
| ZenBoxedEither.MapLeftExample | include/zen/either.hpp:104-108 | `mapLeft(+1)` turns left 10 into left 11, passes right 4 unchanged, and leaves that right's `left()` empty |
| ZenEither.Either.FromLeft | zen/either.hpp:137-138 | `Either(Left)` is left-valued and holds the value |
| ZenEither.Either.FromRight | zen/either.hpp:140-141 | `Either(Right)` is right-valued and holds the value |
| ZenEither.Either.Moved | zen/either.hpp:143-149 | the move constructor keeps the tag and the payload it selects |
| ZenEither.Either.Assign | zen/either.hpp:177-193 | assignment writes the member selected by the target's own tag, taking the source's member of that name; the tag does not change |
| ZenEither.Either.IsLeft | zen/either.hpp:205 | `is_left` holds exactly for a left payload |
| ZenEither.Either.IsRight | zen/either.hpp:207 | `is_right` holds exactly for a right payload |
| ZenEither.Either.Left | zen/either.hpp:216-219 | `left()` asserts a left value and returns it |
| ZenEither.Either.Right | zen/either.hpp:195-224 | `operator*`, `operator->`, `unwrap()` and `right()` require a right-valued either, asserting or panicking otherwise, and give the right value the state holds |
| ZenEither.LeftIsNotRight | zen/either.hpp:205-207 | `is_left` is the negation of `is_right` |
| ZenEither.Convert | zen/either.hpp:159-175 | the converting constructors keep the side, and convert the payload to the new type |
| ZenEither.ConvertIdentity | zen/either.hpp:159-175 | a conversion by the identities changes nothing |
| ZenEither.AssignAcrossSides | zen/either.hpp:177-184 | assigning a right either to a left one leaves the target left-valued, holding whatever the source's inactive left member holds |
| ZenEither.CanConstructLeftValue | zen/either_test.cc:6-10 | an either built from `left(10)` is left-valued and holds 10 |
| ZenEither.VoidEither.FromLeft | zen/either.hpp:249 | `Either<L,void>(Left)` holds the left value |
| ZenEither.VoidEither.FromRight | zen/either.hpp:250 | `Either<L,void>(Right<void>)` holds no value |
| ZenEither.VoidEither.Copied | zen/either.hpp:258-262 | the copy constructor keeps the flag, and the value when there is one |
| ZenEither.VoidEither.IsLeft | zen/either.hpp:264 | `is_left` holds exactly when a value is held |
| ZenEither.VoidEither.IsRight | zen/either.hpp:265 | `is_right` holds exactly for the void side |
| ZenEither.VoidEither.Left | zen/either.hpp:267-270 | `left()` asserts a left value and returns it |
| ZenEither.VoidSides | zen/either.hpp:249-265 | an `Either<L,void>` is left exactly when built from `Left` |
| ZenEither.Try | zen/either.hpp:305-318 | ZEN_TRY and ZEN_TRY2 return a left value at once, as a left of the caller's result, and otherwise fall through to the rest |
| ZenEither.TryAllFirstLeft | zen/either.hpp:305-318 | a run of ZEN_TRYs gives the first left value among the checks; the rest of the body runs only when every check is right |
| ZenEither.TryAll | zen/either.hpp:305-318 | a chain of `ZEN_TRY`s returns either what follows them or the left value of one of the checks |
| ZenProgramOptions.TypeAfter | zen/po.hpp:54-61 | the type after `set_is_bool`: boolean when asked for; otherwise a boolean flag becomes a string flag, and a string flag stays one |
| ZenProgramOptions.TypeAfterForgetsCurrent | zen/po.hpp:54-61 | after `set_is_bool` the type no longer depends on the old type, and the flag is boolean exactly when asked |
| ZenProgramOptions.Flag.constructor | zen/po.hpp:30-38 | a new flag has the patterns, no description or metavar, at least 0 and at most 1 occurrence, and type string |
| ZenProgramOptions.Flag.SetDescription | zen/po.hpp:40-43 | stores the description as present and returns the same flag; nothing else changes |
| ZenProgramOptions.Flag.SetNary | zen/po.hpp:45-52 | `set_nary(true)` sets the maximum to ZEN_AUTO_SIZE and `set_nary(false)` sets it to 1; nothing else changes |
| ZenProgramOptions.Flag.SetIsBool | zen/po.hpp:54-61 | sets the type as `TypeAfter` says; nothing else changes |
| ZenProgramOptions.Flag.SetMetavar | zen/po.hpp:63-66 | stores the metavar as present and returns the same flag; nothing else changes |
| ZenProgramOptions.Subcommand.constructor | zen/po.hpp:77 | a new subcommand has the name, an empty description and no flags |
| ZenProgramOptions.Subcommand.SetDescription | zen/po.hpp:79-82 | stores the description; nothing else changes |
| ZenProgramOptions.Subcommand.AddFlag | zen/po.hpp:84-87 | appends a copy of the flag after the earlier flags |
| ZenProgramOptions.DashCount | zen/po.hpp:129-135 | the leading-dash count is at most 2: at least 1 exactly when the pattern starts with `-`, and 2 exactly when it starts with `--` |
| ZenProgramOptions.Program.constructor | zen/po.hpp:102 | a new program has the name, no description, author, flags or subcommands |
| ZenProgramOptions.Program.SetDescription | zen/po.hpp:104-107 | stores the description; nothing else changes |
| ZenProgramOptions.Program.SetAuthor | zen/po.hpp:109-112 | stores the author; nothing else changes |
| ZenProgramOptions.Program.AddSubcommand | zen/po.hpp:114-117 | emplaces a copy of the subcommand under its name: it is listed last; it is indexed only when its name is new; the map stays valid |
| ZenProgramOptions.Program.AddFlag | zen/po.hpp:119-123 | appends a copy of the flag after the earlier flags; nothing else changes |
| ZenProgramOptions.Program.Parse | zen/po.hpp:125-139 | walks every pattern of every flag and returns an empty result, whatever the arguments |
| ZenProgramOptions.WorkDirFlag | zen/po_test.cc:15-17 | the `-C`/`--work-dir` flag of the example, with its description and metavar `DIR` |
| ZenProgramOptions.FilesFlag | zen/po_test.cc:20-23 | the n-ary `files` flag: no upper bound, metavar `PATH` |
| ZenProgramOptions.CleanFlag | zen/po_test.cc:24-26 | the boolean `--clean` flag |
| ZenProgramOptions.BuildSubcommand | zen/po_test.cc:18-26 | the `build` subcommand holds its two flags in the order they were added |
| ZenProgramOptions.FullExample | zen/po_test.cc:12-26 | the full builder chain: one program flag and one `build` subcommand, whose first flag is unbounded and whose second is boolean |
| ZenSequenceMap.FirstWith | zen/sequence_map.hpp:61-67 | the position of the first pair with a key: every earlier pair has another key, and it is the length exactly when the key is absent |
| ZenSequenceMap.EmplaceIndex | zen/sequence_map.hpp:66 | `index.emplace(key, &value)`: the key set grows by the new key, old keys keep their entries, and a new key gets the new entry |
| ZenSequenceMap.EmplaceKeepsIndex | zen/sequence_map.hpp:61-67 | appending an entry and emplacing it keeps the invariant that the index maps exactly the listed keys, each to its first entry |
| ZenSequenceMap.EmplaceKeepsPrefixIndex | zen/sequence_map.hpp:50-52 | the same for the constructor's loop, one more entry of the list at a time |
| ZenSequenceMap.IndexesFirstHasValues | zen/sequence_map.hpp:43-44 | an index on first entries also gives, for every listed key, the pair of its first occurrence |
| ZenSequenceMap.FirstWithConcat | zen/sequence_map.hpp:77-78 | the first occurrence in a concatenation lies in the left part when the key is there, and otherwise is shifted by its length |
| ZenSequenceMap.CopyAssignKeepsIndexedValues | zen/sequence_map.hpp:76-80 | after copy assignment every key still indexes the pair of its first occurrence in the joined list |
| ZenSequenceMap.CopiedKeyKeepsValue | zen/sequence_map.hpp:78 | one key of the copied index: it occurs in the joined list and its entry holds the pair of its first occurrence |
| ZenSequenceMap.SequenceMap.Pairs | zen/sequence_map.hpp:94-100 | iteration from `begin()` to `end()` yields every entry's pair in list order |
| ZenSequenceMap.SequenceMap.constructor | zen/sequence_map.hpp:55 | an empty list and an empty index, which satisfy the invariant |
| ZenSequenceMap.SequenceMap.FromList | zen/sequence_map.hpp:48-53 | the list holds new entries with the given pairs in order, and the index maps every key to its first entry |
| ZenSequenceMap.SequenceMap.NewEntries | zen/sequence_map.hpp:49 | the list built from the initializer list: one fresh entry per pair, in order |
| ZenSequenceMap.SequenceMap.IndexOf | zen/sequence_map.hpp:50-52 | emplacing every entry in list order builds the index on first entries |
| ZenSequenceMap.SequenceMap.Emplace | zen/sequence_map.hpp:60-68 | appends a fresh entry holding the pair and returns it; the index gets it only when the key is new; the invariant is kept |
| ZenSequenceMap.SequenceMap.MoveAssign | zen/sequence_map.hpp:70-74 | the list and the index become the other map's, and so does the invariant |
| ZenSequenceMap.SequenceMap.CopyAssign | zen/sequence_map.hpp:76-80 | appends fresh copies of the other's pairs after this map's own, and adds the other's index entries only for keys not yet indexed here |
| ZenSequenceMap.SequenceMap.AppendCopies | zen/sequence_map.hpp:77 | the list half: a fresh entry per pair of the other list after the old entries, index untouched |
| ZenSequenceMap.SequenceMap.MergeIndex | zen/sequence_map.hpp:78 | the index half: the other index's entries for missing keys, the list untouched |
| ZenSequenceMap.SequenceMap.Size | zen/sequence_map.hpp:82-84 | the number of listed pairs, duplicate keys included |
| ZenSequenceMap.DuplicateKeyKeepsFirst | zen/sequence_map.hpp:60-68 | two emplaces with one key: size 2, and the key still finds the first value |
| ZenSequenceMap.CopyAssignSharesEntries | zen/sequence_map.hpp:76-80 | after copy assignment the index points at the other map's entry, not at the copy in its own list, though the value agrees |
| ZenStream.Consumed | zen/stream.hpp:17-21 | the stream left after consuming `count` tokens: the suffix from position `count`, or nothing once it runs out |
| ZenStream.Nth | zen/stream.hpp:59-68 | the token at a 1-based position, present exactly when the stream is that long |
| ZenStream.ConsumedStep | zen/stream.hpp:17-21 | one more `get()` after `count` consumes `count + 1` tokens |
| ZenStream.PeekShowsLaterFront | zen/stream.hpp:59-68 | the token a peek at `offset` shows is the one at the front after `offset - 1` further gets |
| ZenStream.BufferedStream.constructor | zen/stream.hpp:37-40 | an empty buffer in front of the given underlying tokens |
| ZenStream.BufferedStream.Read | zen/stream.hpp:44-47 | the next underlying token, or none once the source is exhausted; the buffer is untouched |
| ZenStream.BufferedStream.Get | zen/stream.hpp:49-57 | returns the front of the stream and consumes it: from the buffer when it is not empty, otherwise from the source |
| ZenStream.BufferedStream.Peek | zen/stream.hpp:59-68 | returns the token at the 1-based offset without changing what is still to be consumed; a miss leaves all read tokens buffered; an offset already buffered reads nothing |
| ZenStream.BufferedStream.Skip | zen/stream.hpp:17-21 | `stream::skip(count)` over this stream's `get()`: consumes `count` tokens, fewer when the stream runs out |
| ZenStream.PeekThenGet | zen/stream.hpp:49-68 | peeking at the second token and then getting twice yields the tokens in stream order, and nothing after the end |
| ZenString.Nothing | zen/string.hpp:28-29 | the default `Maybe<Glyph>` stores `eof` and so is empty |
| ZenString.Wrap | zen/string.hpp:31-32 | wrapping a glyph gives a present value exactly when it is not `eof`, and dereferencing gives it back |
| ZenString.IsSome | zen/string.hpp:44-46 | present exactly when the value is not the empty one |
| ZenString.IsEmpty | zen/string.hpp:48-50 | empty exactly when the stored glyph is `eof` |
| ZenString.Deref | zen/string.hpp:34-42 | dereferencing requires a present value and yields the stored glyph, never `eof` |
| ZenString.SomeIsNotEmpty | zen/string.hpp:44-50 | `is_some()` and `is_empty()` are complements, and wrapping `eof` is the empty value |
| ZenString.CharGlyph | zen/string.hpp:55-57 | a signed `char` converts to `char32_t`: ASCII keeps its code, a byte from 0x80 up wraps to a value near 2^32 |
| ZenString.FromUtf8 | zen/string.hpp:55-57 | one glyph per input `char`, in order |
| ZenString.FromUtf8Glyphs | zen/string.hpp:54-57 | ASCII text keeps its code points, no input yields `eof`, and bytes from 0x80 up land above every ASCII glyph |
| ZenVector.Swap | zen/vector.hpp:14-19 | the two variables exchange their values |
| ZenVector.Copy | zen/vector.hpp:28-33 | the source range lands in order at the output position, and every other output slot keeps its value |
| ZenVector.Fill | zen/vector.hpp:66-69 | the elements fill the first slots of the buffer in order, and the later slots are untouched |
| ZenVector.Vector.FromRange | zen/vector.hpp:59-70 | capacity, size and buffer length are the range's length, and the elements are the range |
| ZenVector.Vector.WithCapacity | zen/vector.hpp:72-78 | an empty vector whose capacity and buffer length are the requested capacity |
| ZenVector.Vector.constructor | zen/vector.hpp:72-78 | an empty vector of the default capacity 256 |
| ZenVector.Vector.Copied | zen/vector.hpp:80-86 | size and capacity are the other's size, but no element value is copied |
| ZenVector.Vector.FromList | zen/vector.hpp:88-94 | the buffer holds the listed elements with capacity their number, while the size stays 0 |
| ZenVector.Vector.EnsureCapacity | zen/vector.hpp:96-102 | keeps the elements and the capacity field; reallocates to exactly the requested size only when the capacity is below it |
| ZenVector.Vector.Get | zen/vector.hpp:104-107 | the element at an index below the size |
| ZenVector.Vector.Set | zen/vector.hpp:104-107 | writing through the returned reference replaces that one element |
| ZenVector.Vector.Append | zen/vector.hpp:109-113 | the element goes after the old elements, which survive any reallocation; the capacity field does not change |
| ZenVector.Vector.Prepend | zen/vector.hpp:115-124 | reallocates `capacity + 1` slots and puts the element before the old elements; requires the size not to exceed the capacity field, or the copy would overflow |
| ZenVector.Vector.Size | zen/vector.hpp:138-140 | the number of elements |
| ZenVector.FilledToCapacity | zen/vector_test.cc:9-14 | four appends to a vector of capacity 4 give the elements 1 to 4 |
| ZenVector.GrowsWhenInsertingElements | zen/vector_test.cc:8-23 | six appends to a vector of capacity 4 leave the elements 1 to 6 in order, and the capacity reads 4 |
| ZenVector.PrependAfterGrowthOverflows | zen/vector.hpp:109-124 | after two appends to a vector of capacity 1 the size exceeds the capacity field, which is when prepend's copy would overflow |
| ZenDLList.AppendArena | zen/dllist.hpp:99-113 | append allocates a node holding the element, with the old last node as prev and null as next |
| ZenDLList.PrependArena | zen/dllist.hpp:115-129 | prepend allocates a node holding the element, with null as prev and the old LAST node as next |
| ZenDLList.ChainLink | zen/dllist.hpp:20-25 | along a chain each node's next link is the following node, and the last one's is null |
| ZenDLList.Values | zen/dllist.hpp:55-63 | iterating a chain reads, at step k, the value of its k-th node |
| ZenDLList.Walk | zen/dllist.hpp:65-72 | `operator+` by zero always succeeds; it fails only on a step, and each step starts from a node of the list |
| ZenDLList.InsertArena | zen/dllist.hpp:152-163 | `insert_after` adds one node linking back to `pos` and on to its successor, points `pos` and the successor at it, and leaves every other node alone |
| ZenDLList.IndexIn | zen/dllist.hpp:152-163 | the position on the chain of the node `insert_after` is given: the first index holding it |
| ZenDLList.AppendExtendsChain | zen/dllist.hpp:99-113 | after append the chain is the old chain plus the new node, and the back links still mirror the next links |
| ZenDLList.AppendKeepsNextLinks | zen/dllist.hpp:104-111 | after append every node of the longer chain links to the following one |
| ZenDLList.AppendKeepsBackLinks | zen/dllist.hpp:105-110 | after append every prev link along the longer chain points at the previous node |
| ZenDLList.PrependShortensChain | zen/dllist.hpp:115-129 | after prepend the chain is the new node followed by the old last node; the back links survive only when the list had at most one element |
| ZenDLList.InsertWrites | zen/dllist.hpp:152-163 | insert_after writes exactly the new node, the next link of the position and the prev link of its successor |
| ZenDLList.Splice | zen/dllist.hpp:152-163 | the chain with the new node placed right after position k, and the rest shifted by one |
| ZenDLList.InsertOnChain | zen/dllist.hpp:152-163 | insert_after on the k-th node of the chain puts the new element at position k + 1 and keeps a chain |
| ZenDLList.InsertKeepsValues | zen/dllist.hpp:152-163 | the elements after inserting on the chain are the old ones with the new element after position k |
| ZenDLList.InsertKeepsChain | zen/dllist.hpp:152-163 | inserting on the chain yields the spliced chain |
| ZenDLList.SpliceDistinct | zen/dllist.hpp:155-159 | a newly allocated node spliced into a chain of distinct nodes keeps them distinct |
| ZenDLList.InsertKeepsNextLinks | zen/dllist.hpp:158-160 | after insert_after every node of the spliced chain links to the following one |
| ZenDLList.InsertKeepsBackLinks | zen/dllist.hpp:157-161 | after insert_after every prev link along the spliced chain points at the previous node |
| ZenDLList.InsertedAfter | zen/dllist.hpp:152-163 | the element sequence with a value inserted at position k + 1: the elements before it unchanged and the rest moved up by one |
| ZenDLList.InsertAfterChain | zen/dllist.hpp:152-163 | on the chain the element lands right after the position and the back links survive; off the chain nothing the chain sees changes |
| ZenDLList.InsertOffChain | zen/dllist.hpp:152-163 | inserting after a node the chain does not reach leaves the chain and its elements alone |
| ZenDLList.WalkAlongChain | zen/dllist.hpp:65-72 | k steps from the head reach the k-th node, and as many steps as the chain is long reach null |
| ZenDLList.WalkOneMore | zen/dllist.hpp:59-72 | a walk of k + 1 steps is a walk of k steps followed by one next link |
| ZenDLList.EndIsLastNode | zen/dllist.hpp:139-145 | `end()` is the last node, reached only after one step fewer than the length, so iterating from `begin()` to `end()` skips the last element |
| ZenDLList.DLList.constructor | zen/dllist.hpp:96-97 | no first or last node, size 0, no elements |
| ZenDLList.DLList.Append | zen/dllist.hpp:99-113 | the element goes at the end, the size grows by one, and the size and back links stay consistent |
| ZenDLList.DLList.Prepend | zen/dllist.hpp:115-129 | on an empty list one element; otherwise the new element followed by the old last one, so on two or more elements the size and back links stop agreeing with the chain |
| ZenDLList.DLList.Size | zen/dllist.hpp:131-133 | the size counter, which is the chain length while the list is consistent |
| ZenDLList.DLList.Begin | zen/dllist.hpp:139-141 | an iterator on the first node |
| ZenDLList.DLList.End | zen/dllist.hpp:143-145 | an iterator on the last node, one step short of the end of the chain |
| ZenDLList.DLList.Next | zen/dllist.hpp:59-63 | one next link, from a node |
| ZenDLList.DLList.Advance | zen/dllist.hpp:65-72 | follows `count` next links, each starting from a node |
| ZenDLList.DLList.Get | zen/dllist.hpp:147-150 | the element at an index below the size that the walk reaches |
| ZenDLList.DLList.InsertAfter | zen/dllist.hpp:152-163 | on the chain the element lands right after the position and consistency is kept; a node the chain does not reach changes nothing the chain sees; the size grows by one either way |
| ZenDLList.DLList.First | zen/dllist.hpp:165-168 | the first element of a non-empty list |
| ZenDLList.PrependDropsMiddle | zen/dllist.hpp:115-129 | appending 1 and 2 and prepending 0 gives the elements 0 and 2 with size 3 |
| ZenDLList.InsertAfterHead | zen/dllist_test.cc:34-44 | 1, 3, 4 with 2 inserted after the head reads 1, 2, 3, 4 |
| ZenLexer.ByteGlyph | zen/lexgen/lexer.hpp:70-77 | a byte of the stream becomes the glyph of the same code, never `eof` |
| ZenLexer.Plain | zen/lexgen/lexer.hpp:39-40 | `Token(type)`: the type, and no value |
| ZenLexer.HasValue | zen/lexgen/lexer.hpp:52-54 | true exactly when the token carries a value |
| ZenLexer.ClassifierRanges | zen/lexgen/lexer.cc:12-30 | the backtick starts an identifier while `_` and digits do not; identifier glyphs are ASCII and not whitespace; `eof` is neither |
| ZenLexer.IsAlpha | zen/lexgen/lexer.cc:12-14 | the backtick counts as a letter and `_` does not; a letter is an ASCII glyph |
| ZenLexer.IsDecimal | zen/lexgen/lexer.cc:20-22 | a digit is an ASCII glyph and not a letter |
| ZenLexer.IsWhitespace | zen/lexgen/lexer.cc:28-30 | whitespace is neither a letter nor a digit, and never `eof` |
| ZenLexer.IsIdentStart | zen/lexgen/lexer.cc:16-18 | an identifier never starts with a digit or whitespace |
| ZenLexer.IsIdentPart | zen/lexgen/lexer.cc:24-26 | every identifier start is an identifier part; no part is whitespace, `eof` or non-ASCII |
| ZenLexer.Punctuation | zen/lexgen/lexer.cc:104-109 | the six punctuation glyphs and their token types; none is whitespace, an identifier start or `eof` |
| ZenLexer.Escape | zen/lexgen/lexer.cc:77-87 | exactly the eight escape letters decode, each to a control character |
| ZenLexer.EscapeInjective | zen/lexgen/lexer.cc:77-87 | distinct escape letters decode to distinct characters |
| ZenLexer.NextChar | zen/lexgen/lexer.hpp:70-77 | the next glyph and the input after it; at the end `eof` and nothing consumed |
| ZenLexer.SkipWhitespace | zen/lexgen/lexer.cc:99-102 | stops at a glyph that is not whitespace, having consumed a prefix of the input |
| ZenLexer.TakeWhileSpec | zen/lexgen/lexer.cc:32-42 | take_while never fails; it diverges only at the end of the input |
| ZenLexer.TakeWhileRun | zen/lexgen/lexer.cc:32-42 | collects the longest run of accepted glyphs and consumes the glyph after it; it diverges exactly when every remaining glyph and `eof` are accepted |
| ZenLexer.TakeWhileStep | zen/lexgen/lexer.cc:33-40 | after one accepted glyph, that glyph followed by what the rest collects |
| ZenLexer.PrefixedTwice | zen/lexgen/lexer.cc:39 | prefixing two runs one after the other is prefixing their concatenation |
| ZenLexer.LeadingGlyphs | zen/lexgen/lexer.cc:63-70 | the number of leading bytes with a given glyph: all of them have it and the next does not |
| ZenLexer.DropGlyphsStep | zen/lexgen/lexer.cc:63-70 | dropping the leading copies of a glyph past one more of it |
| ZenLexer.KeywordSpec | zen/lexgen/lexer.cc:61-72 | try_keyword never yields a keyword: it consumes the copies of `name[0]` and returns empty, diverging only when `name[0]` is `eof` at the end of the input |
| ZenLexer.EscapeSpec | zen/lexgen/lexer.cc:74-88 | consumes one glyph; the decoded escape for an escape letter, otherwise unexpected_character |
| ZenLexer.CloseCharSpec | zen/lexgen/lexer.cc:133-138 | a character token when the next glyph is a single quote, otherwise unexpected_character |
| ZenLexer.CharLiteralSpec | zen/lexgen/lexer.cc:122-139 | a character literal never diverges |
| ZenLexer.StringSpec | zen/lexgen/lexer.cc:141-160 | a string literal consumes input; a finished one is a string token whose text extends what was collected, a failure is an unexpected character, and a loop that never ends has used up the input |
| ZenLexer.LexSpec | zen/lexgen/lexer.cc:90-164 | `lex()` consumes at least one byte, except at the end of input, where it gives `eof` and nothing else does |
| ZenLexer.LexFromSpec | zen/lexgen/lexer.cc:104-163 | after whitespace, a token is never `eof` or the `pub` keyword, and a failure is an unexpected character |
| ZenLexer.LexWordSpec | zen/lexgen/lexer.cc:113-163 | past the punctuation a token is an identifier, a character or a string, and a failure is an unexpected character |
| ZenLexer.Lexer.constructor | zen/lexgen/lexer.hpp:95-96 | the lexer reads the given bytes from the given offset |
| ZenLexer.Lexer.GetChar | zen/lexgen/lexer.hpp:70-77 | returns and consumes the next glyph as NextChar says; the offset counts the consumed byte |
| ZenLexer.Lexer.PeekChar | zen/lexgen/lexer.hpp:79-85 | the glyph get_char would return, with nothing consumed |
| ZenLexer.Lexer.TakeWhile | zen/lexgen/lexer.cc:32-42 | the string extended with the run TakeWhileSpec describes, with the same input left over and the same divergence |
| ZenLexer.Lexer.TryKeyword | zen/lexgen/lexer.cc:61-72 | returns what KeywordSpec says and leaves the input it says |
| ZenLexer.Lexer.LexEscapeSequence | zen/lexgen/lexer.cc:74-88 | returns what EscapeSpec says and leaves the input it says |
| ZenLexer.Lexer.Lex | zen/lexgen/lexer.cc:90-164 | returns the token, error or divergence LexSpec describes and leaves the input it says; the offset counts every consumed byte |
| ZenLexer.Lexer.LexFrom | zen/lexgen/lexer.cc:104-111 | the punctuation checks and the keyword attempt, as LexFromSpec describes |
| ZenLexer.Lexer.LexWord | zen/lexgen/lexer.cc:113-163 | the identifier, character, string and error branches, as LexWordSpec describes |
| ZenLexer.Lexer.LexCharLiteral | zen/lexgen/lexer.cc:122-139 | the character-literal branch, as CharLiteralSpec describes |
| ZenLexer.Lexer.LexString | zen/lexgen/lexer.cc:141-160 | the string-literal loop, as StringSpec describes from an empty text |
| ZenLexer.LexAtEnd | zen/lexgen/lexer.cc:92-97 | at the end of the input lex returns an eof token without a value |
| ZenLexer.SkipAllWhitespace | zen/lexgen/lexer.cc:99-102 | skipping whitespace up to the end of the input ends at `eof` with nothing left |
| ZenLexer.WhitespaceThenEndFails | zen/lexgen/lexer.cc:95-163 | input of whitespace only lexes to unexpected_character, not to an eof token |
| ZenLexer.PunctuationSwallowsNext | zen/lexgen/lexer.cc:44-50 | a punctuation glyph gives its token and consumes the glyph after it too |
| ZenLexer.TakeWhileWord | zen/lexgen/lexer.cc:32-42 | take_while over accepted glyphs followed by a rejected one collects the glyphs and consumes the rejected one |
| ZenLexer.TakeWhileEnd | zen/lexgen/lexer.cc:32-42 | take_while over accepted glyphs up to the end, with `eof` rejected, collects them all |
| ZenLexer.StringSpecValue | zen/lexgen/lexer.cc:141-160 | a string literal that lexes yields a string token whose text extends the text so far |
| ZenLexer.LexNeverKeyword | zen/lexgen/lexer.cc:111 | lex never returns the pub keyword token, whatever the input |
| ZenLexer.LexFromNeverKeyword | zen/lexgen/lexer.cc:104-163 | the same from the first glyph that is not whitespace |
| ZenLexer.LexWordNeverKeyword | zen/lexgen/lexer.cc:113-163 | the same after the keyword attempt |
| ZenLexer.PlainString | zen/lexgen/lexer.cc:141-160 | a string body without double quote or backslash lexes to that text, stopping right after the closing quote |
| ZenLexer.EscapeDroppedFromString | zen/lexgen/lexer.cc:145-154 | an escape inside a string literal is consumed and its glyph dropped from the text |
| ZenLexer.UnterminatedStringDiverges | zen/lexgen/lexer.cc:144-159 | a string literal that is never closed keeps the loop running |
| ZenLexer.CharLiterals | zen/lexgen/lexer.cc:122-139 | a glyph between single quotes is a character token; a wrong closer is unexpected_character |
| ZenLexer.EscapedCharLiteral | zen/lexgen/lexer.cc:126-129 | after a backslash one glyph is skipped before the escape letter, and the token's glyph is never assigned |
| ZenLexer.OneGlyphEscapeFails | zen/lexgen/lexer.cc:126-137 | `'\n'` fails, because the closing quote is read as the escape letter |
| ZenLexer.LexStart | zen/lexgen/lexer.cc:92-102 | a first glyph that is not whitespace is where lexing starts |
| ZenLexer.LexFromWord | zen/lexgen/lexer.cc:111-113 | past punctuation, the keyword attempt drops the `p`s that follow the first glyph |
| ZenLexer.LexStringLiteral | zen/lexgen/lexer.cc:111-160 | a plain string literal lexes to its text less the leading `p`s, stopping after the closing quote |
| ZenLexer.LexIdentifier | zen/lexgen/lexer.cc:111-120 | an identifier is its first glyph and the run of identifier glyphs after it, less the `p`s right after the first glyph |
| ZenLexer.CanLexStrings | zen/lexgen/lexer_test.cc:10-18 | `"Foo the bar."` lexes to the string token `Foo the bar.` |
| ZenLexer.CanLexIdentifiers | zen/lexgen/lexer_test.cc:20-28 | `foo bar bax` lexes to the identifier `foo`, consuming the space after it |
| ZenLexer.AppleLexesToAle | zen/lexgen/lexer.cc:61-72 | `apple!` lexes to the identifier `ale` |
| ZenLexer.PubIsIdentifier | zen/lexgen/lexer.cc:111-120 | `pub!` lexes to the identifier `pub`, not to the keyword |
| ZenLexer.LeadingPsLeaveString | zen/lexgen/lexer.cc:111-160 | the string literal `"pp"` lexes to an empty string |
| ZenMacros.Index | include/zen/macros.h:117 | a count argument names a table entry only when it is a single number token |
| ZenMacros.Rseq | include/zen/macros.h:22 | `ZEN_RSEQ_N()` is the twenty numbers from 20 down to 1 |
| ZenMacros.ArgN | include/zen/macros.h:21 | `ZEN_ARG_N` yields the argument after the twenty named ones, present exactly when there are more than twenty |
| ZenMacros.VaLength | include/zen/macros.h:19-22 | `ZEN_VA_LENGTH` of up to 20 arguments is their count; from 21 on it is the argument at position 20 |
| ZenMacros.GetVaArg | include/zen/macros.h:142-162 | `ZEN_GET_VA_ARG(n, ...)` is the 0-based n-th argument, defined exactly for a number below 20 and below the argument count |
| ZenMacros.Calls | include/zen/macros.h:97-116 | the calls `m(0, args)` to `m(n - 1, args)` in ascending order |
| ZenMacros.Join | include/zen/macros.h:120-140 | joining the calls with a separator starts with the first call |
| ZenMacros.RepeatTable | include/zen/macros.h:97-116 | `ZEN_REPEAT_WITH_k` for k >= 1 starts with m(0, ...) and is no shorter than m(k - 1, ...) |
| ZenMacros.Flatten | include/zen/macros.h:97-118 | the calls written side by side start with the first call |
| ZenMacros.FlattenEmpty | include/zen/macros.h:97-118 | calls side by side expand to nothing exactly when every call does |
| ZenMacros.RepeatWith | include/zen/macros.h:117 | `ZEN_REPEAT_WITH(s, n, m, ...)` expands exactly when `n` names one of the entries 0 to 19 |
| ZenMacros.Repeat | include/zen/macros.h:97-118 | `ZEN_REPEAT(n, m, ...)` expands exactly when n is a number below 20, and then to m(0, ...) .. m(n - 1, ...) side by side, with no separator |
| ZenMacros.Enum | include/zen/macros.h:140 | `ZEN_ENUM(n, m, ...)` expands exactly when `n` names one of the entries 0 to 19 |
| ZenMacros.JoinSnoc | include/zen/macros.h:97-116 | joining one more part adds the separator and that part at the end |
| ZenMacros.RepeatTableJoins | include/zen/macros.h:97-116 | each entry `ZEN_REPEAT_WITH_k` is exactly the k calls of m, in ascending order, separated by s |
| ZenMacros.EnumIsRepeatWithComma | include/zen/macros.h:120-140 | `ZEN_ENUM` is `ZEN_REPEAT_WITH` with a comma as separator |
| ZenMacros.JoinEmptyIsFlatten | include/zen/macros.h:118 | with an empty separator the parts are laid one after another |
| ZenMacros.ForEachImpl | include/zen/macros.h:165-166 | `ZEN_FOR_EACH_IMPL` discards the selected argument and calls m with the index and the token `arg` |
| ZenMacros.ForEachWith | include/zen/macros.h:167 | `ZEN_FOR_EACH_WITH` of up to 20 arguments expands exactly when there are fewer than 20; from 21 on it repeats by the argument at position 20 |
| ZenMacros.ForEach | include/zen/macros.h:168 | `ZEN_FOR_EACH` of fewer than 20 arguments is one `ZEN_FOR_EACH_IMPL` call per argument, side by side |
| ZenMacros.ForEachEnum | include/zen/macros.h:169 | `ZEN_FOR_EACH_ENUM` of fewer than 20 arguments is one call per argument, separated by commas; with exactly 20 it has no expansion |
| ZenMacros.ForEachWithCalls | include/zen/macros.h:165-167 | for one to nineteen arguments `ZEN_FOR_EACH_WITH` calls m once per position with `arg`, never with the arguments themselves |
| ZenMacros.ForEachIgnoresArguments | include/zen/macros.h:165-169 | `ZEN_FOR_EACH_WITH` depends only on the number of arguments |
| ZenMacros.ForEachOfTwentyFails | include/zen/macros.h:167 | twenty arguments count to 20, which names no `ZEN_REPEAT_WITH` entry |
| ZenMacros.VaLengthTests | test/macros.cpp:6-7 | `ZEN_VA_LENGTH(0,1,2,3)` is 4 and `ZEN_VA_LENGTH(foo,bar,baz)` is 3 |
| ZenMacros.GetVaArgTests | test/macros.cpp:9-12 | `ZEN_GET_VA_ARG(k, 1,2,3,4)` is k + 1 for k from 0 to 3, and there is no fifth argument |
| ZenMacros.RepeatTableThree | include/zen/macros.h:100 | the entry of three calls written out |
| ZenMacros.EnumMacroWorks | test/macros.cpp:18-27 | `bool ZEN_ENUM(3, ZEN_ASSIGN_INDEXED, true)` declares `var0`, `var1` and `var2` as true |
| ZenMacros.SumIsTwelve | test/macros.cpp:29-34 | `0 * 4 + 1 * 4 + 2 * 4` evaluates to 12 |
| ZenMacros.RepeatWithMacroWorks | test/macros.cpp:29-34 | `ZEN_REPEAT_WITH(+, 3, ZEN_ADD_CONST_TO_INDEX, 4)` expands to `0 * 4 + 1 * 4 + 2 * 4`, which is 12 |
| ZenMacros.RepeatWithMacroWorksWithNonTrivialAmount | test/macros.cpp:36-39 | the same with the count given as `ZEN_VA_LENGTH(foo,bar,baz)` |
| ZenMacros.RepeatThree | include/zen/macros.h:100 | three calls of a declaring macro give the three declarations |
| ZenMacros.RepeatMacroWorks | test/macros.cpp:41-50 | `ZEN_REPEAT(3, ZEN_INIT_BOOL, true)` declares `var0`, `var1` and `var2` as true |
| ZenMacros.ForEachMacroWorks | test/macros.cpp:52-59 | `ZEN_FOR_EACH(DECLARE_VARS_NUMBERED, foo, bar, baz)` declares `arg0`, `arg1` and `arg2`, not `foo0`, `bar1` and `baz2` |
| ZenMacroGenerator.Writer.constructor | generate.py:164 | the output file starts with nothing written |
| ZenMacroGenerator.Writer.Write | generate.py:10-162 | `out.write(text)` appends the text after everything written before |
| ZenMacroGenerator.Separated | generate.py:38-41 | a loop that writes a separator before every item but the first makes 2n - 1 writes, none for no items |
| ZenMacroGenerator.SeparatedJoins | generate.py:38-41 | the text of the separated writes is the items joined by the separator |
| ZenMacroGenerator.SeparatedStep | generate.py:38-41 | one more item adds the separator, unless it is the first, and the item |
| ZenMacroGenerator.FlattenAppend | generate.py:10-162 | the text of two runs of writes is the text of the first followed by that of the second |
| ZenMacroGenerator.TableStep | generate.py:107-113 | the text of a table one entry longer ends in that entry |
| ZenMacroGenerator.ArgNParams | generate.py:33-34 | the n parameters `_0,` to `_{n-1},` |
| ZenMacroGenerator.RseqItems | generate.py:38-41 | the numbers from `max` down to 1 |
| ZenMacroGenerator.DeferLines | generate.py:60-61 | one line for each of `ZEN_DEFER_3` to `ZEN_DEFER_{max-1}`, none when `max` is 3 or less |
| ZenMacroGenerator.RepeatCalls | generate.py:109-112 | exactly `i` strings, string j being ` m(j,__VA_ARGS__)` with j in decimal: the calls of repeat entry i |
| ZenMacroGenerator.EnumCalls | generate.py:122-125 | exactly `i` strings, string j being ` m(j, __VA_ARGS__)` with j in decimal: the calls of enum entry i |
| ZenMacroGenerator.ArgNames | generate.py:131 | the parameter names `arg0` to `argi` |
| ZenMacroGenerator.WriteArgN | generate.py:32-35 | writes the opening, the n parameters and `N,...) N` of `ZEN_ARG_N` |
| ZenMacroGenerator.WriteSeparated | generate.py:38-41 | writes the items with the separator before every one but the first |
| ZenMacroGenerator.WriteRseq | generate.py:37-41 | writes the `ZEN_RSEQ_N` definition with the numbers separated by commas |
| ZenMacroGenerator.WriteDefers | generate.py:43-62 | writes the documentation, `ZEN_DEFER`, `ZEN_DEFER_2`, the chained entries and `ZEN_DEFER_N` |
| ZenMacroGenerator.WriteRepeatWithEntry | generate.py:108-113 | writes one `ZEN_REPEAT_WITH_i` definition |
| ZenMacroGenerator.WriteRepeatWithTable | generate.py:107-113 | writes the entries `ZEN_REPEAT_WITH_0` to `ZEN_REPEAT_WITH_{max-1}` in order |
| ZenMacroGenerator.WriteRepeatWith | generate.py:106-117 | writes the repeat table, its dispatcher and `ZEN_REPEAT` |
| ZenMacroGenerator.WriteEnumEntry | generate.py:121-126 | writes one `ZEN_ENUM_IMPL_i` definition |
| ZenMacroGenerator.WriteEnumTable | generate.py:120-126 | writes the entries `ZEN_ENUM_IMPL_0` to `ZEN_ENUM_IMPL_{max-1}` in order |
| ZenMacroGenerator.WriteEnum | generate.py:119-127 | writes the enum table and `ZEN_ENUM` |
| ZenMacroGenerator.WriteGetVaArg | generate.py:129-132 | writes one `ZEN_GET_VA_ARG_i` line per entry and the dispatcher |
| ZenMacroGenerator.WriteHead | generate.py:10-104 | writes the file comment, `ZEN_ARG_N`, `ZEN_RSEQ_N`, the defer family and the utilities up to `ZEN_VA_MAX_LENGH` |
| ZenMacroGenerator.WriteTables | generate.py:106-132 | writes the repeat, enum and argument-selection tables |
| ZenMacroGenerator.WriteClosing | generate.py:136-162 | writes the `ZEN_FOR_EACH` family and the end of the include guard |
| ZenMacroGenerator.GenerateMacroHeader | generate.py:9-162 | every write of `generate_macro_header`, in order |
| ZenMacroGenerator.ArgNWrites | generate.py:32-35 | the writes of `ZEN_ARG_N`: its head, one `_i,` parameter for each i below `max_va_args` in order, and the tail `N,...) N` |
| ZenMacroGenerator.RseqWrites | generate.py:37-41 | the writes of `ZEN_RSEQ_N()`: the head, then `max_va_args` down to 1 separated by commas |
| ZenMacroGenerator.DeferLine | generate.py:60-61 | the line for `ZEN_DEFER_i` starts with its name and ends the line |
| ZenMacroGenerator.DeferWrites | generate.py:43-62 | the writes of the defer macros: the two fixed lines, one line for each i from 3 below `max_va_args`, then `ZEN_DEFER_N` |
| ZenMacroGenerator.RepeatWithEntry | generate.py:108-113 | the writes for `ZEN_REPEAT_WITH_i`: its header, the i calls separated by ` s`, then a newline |
| ZenMacroGenerator.RepeatWithTable | generate.py:107-113 | the table of `ZEN_REPEAT_WITH_i` for i below `max_va_args` is empty for none and otherwise runs from the header of entry 0 to a newline |
| ZenMacroGenerator.RepeatWithEntries | generate.py:107-113 | the i-th entry of that table is the one for `ZEN_REPEAT_WITH_i` |
| ZenMacroGenerator.RepeatWithWrites | generate.py:106-117 | the `ZEN_REPEAT_WITH` section starts with the table and ends with the two dispatch lines |
| ZenMacroGenerator.EnumEntry | generate.py:121-126 | the writes for `ZEN_ENUM_IMPL_i`: its header, the i calls separated by ` ,`, then a newline |
| ZenMacroGenerator.EnumTable | generate.py:120-126 | the table of `ZEN_ENUM_IMPL_i` is empty for none and otherwise runs from the header of entry 0 to a newline |
| ZenMacroGenerator.EnumEntries | generate.py:120-126 | the i-th entry of that table is the one for `ZEN_ENUM_IMPL_i` |
| ZenMacroGenerator.EnumWrites | generate.py:119-127 | the `ZEN_ENUM` section starts with the table and ends with the dispatch line |
| ZenMacroGenerator.GetVaArgLine | generate.py:131 | the line for `ZEN_GET_VA_ARG_i` starts with its name and `(arg0`, and ends the line |
| ZenMacroGenerator.GetVaArgWrites | generate.py:129-132 | the `ZEN_GET_VA_ARG` section is one line per i below `max_va_args`, in order, then the dispatch line |
| ZenMacroGenerator.MaxLengthWrite | generate.py:63-104 | the block of utility macros starts with the fixed prose and ends with a blank line |
| ZenMacroGenerator.HeadWrites | generate.py:10-104 | the head of the header starts with the preamble and `ZEN_ARG_N` and ends with the utility block |
| ZenMacroGenerator.TableWrites | generate.py:106-132 | the tables start with the first `ZEN_REPEAT_WITH` entry and end with the `ZEN_GET_VA_ARG` dispatch line |
| ZenMacroGenerator.HeaderWrites | generate.py:9-162 | the whole header starts with the preamble and `ZEN_ARG_N` and ends with the `ZEN_FOR_EACH` block and the closing `#endif` |
| ZenMacroGenerator.FlattenEnds | generate.py:10-162 | written parts whose first and last are non-empty start with the first part's first string and end with the last part's last |
| ZenMacroGenerator.TableWritten | generate.py:107-113 | writing entry i after entries 0 .. i - 1 gives the output with entries 0 .. i |
| ZenMacroGenerator.RseqText | generate.py:37-41 | the `ZEN_RSEQ_N()` text is the numbers from `max` down to 1 joined by commas |
| ZenMacroGenerator.DeferChains | generate.py:60-61 | each `ZEN_DEFER_i`, from 3 up, is written in its place and defers through `ZEN_DEFER_{i-1}` |
| ZenMacroGenerator.RepeatWithEntryText | generate.py:108-113 | the text of `ZEN_REPEAT_WITH_i` holds exactly i calls in ascending order, joined by ` s` |
| ZenMacroGenerator.EnumEntryText | generate.py:121-126 | the text of `ZEN_ENUM_IMPL_i` holds the same calls, joined by ` ,` |
| ZenMacroGenerator.GetVaArgSelectsLast | generate.py:131 | `ZEN_GET_VA_ARG_i` names `arg0` to `argi` and expands to the last of them |
| ZenMacroGenerator.MaxLengthDefined | generate.py:102-104 | `ZEN_VA_MAX_LENGH` is defined as `max_va_args`, 20 by default, the table size the macros assume |
| ZenMacroGenerator.RepeatCallsOfTwo | include/zen/macros.h:99 | the two calls of `ZEN_REPEAT_WITH_2`, joined by ` s` |
| ZenMacroGenerator.RepeatWithSecondEntry | include/zen/macros.h:99 | the generated `ZEN_REPEAT_WITH_2` line is the one in the header |
| ZenMacroGenerator.EnumCallsOfTwo | include/zen/macros.h:122 | the two calls of `ZEN_ENUM_IMPL_2`, joined by ` ,` |
| ZenMacroGenerator.EnumSecondEntry | include/zen/macros.h:122 | the generated `ZEN_ENUM_IMPL_2` line is the one in the header |
| ZenMacroGenerator.ArgNamesOfTwo | include/zen/macros.h:144 | the parameters of `ZEN_GET_VA_ARG_2` joined by `, ` |
| ZenMacroGenerator.GetVaArgSecondEntry | include/zen/macros.h:144 | the generated `ZEN_GET_VA_ARG_2` line is the one in the header |
| MetaTerm.Bool | zen/meta/primitives.hpp:9-10 | `bool_<B>` is a `bool` constant of value 1 exactly when B is true |
| MetaTerm.U | zen/meta/primitives.hpp:15-16 | `u_<I>` is a `std::size_t` constant of value I |
| MetaTerm.S | zen/meta/primitives.hpp:29-30 | `s_<D>` is a `std::ptrdiff_t` constant of value D |
| MetaTerm.ApplyMember | zen/meta/primitives.hpp:43-50 | only `template_<T>` has an `apply` member, which instantiates T with the arguments; any other type lacks it |
| MetaTerm.ConstantsDistinct | zen/meta/primitives.hpp:9-30 | `u_<0>` and `s_<0>` are different types, and `bool_<true>` is not `true_` |
| MetaTerm.TemplateApplyIsInstance | zen/meta/primitives.hpp:43-50 | `template_<T>::apply<Ts...>::type` is `T<Ts...>` |
| MetaCommon.WidenOf | zen/meta/common.hpp:57-75 | `widen_` of two types exists exactly when they are the same, and is that type; otherwise the missing implementation of `widen_` is reported |
| MetaCommon.WidenOfSame | zen/meta/common.hpp:72-75 | `widen_<T, T>` is T |
| MetaCommon.WidenOfDifferent | zen/meta/common.hpp:57-70 | two different types reach the missing `widen_impl_` |
| MetaCommon.SetTupleElement | zen/meta/common.hpp:94-111 | the setter exists exactly for the instantiated indices 0-2 and 4-9 and a tuple long enough; otherwise only the declaration remains |
| MetaCommon.SetTupleElementReplaces | zen/meta/common.hpp:97-101 | the new tuple has the same length, R at position I and every other element unchanged |
| MetaCommon.NoSetterForIndexThree | zen/meta/common.hpp:103-111 | index 3 is never instantiated, so setting element 3 is always ill-formed |
| MetaCommon.FoldOfNonTuple | zen/meta/common.hpp:80-83 | `fold_` over anything but a non-empty tuple, `tuple<>` included, is InitT |
| MetaCommon.FoldOfWrongTuple | zen/meta/common.hpp:85-88 | `fold_` over a 1-tuple or a tuple of three or more elements names `fold_` with the wrong number of arguments |
| MetaCommon.FoldIsRightFold | zen/meta/common.hpp:80-88 | `fold_` with `template_<F>` over right-nested pairs ending in a non-tuple is the right fold of F over the elements |
| MetaCommon.FoldOf | zen/meta/common.hpp:80-88 | on a non-empty tuple, `fold_` has a member only for a tuple of exactly two types, because the recursion passes the tail as separate arguments, and only with an accumulator that has an `apply` member; a two-type tuple with any other accumulator has none |
| MetaMath.IntegralOf | zen/meta/primitives.hpp:9-30 | the value type and value of an integral constant, of `true_` (true) and of `false_` (false) |
| MetaMath.ValueOf | zen/meta/math.hpp:42-56 | `T::value` of every type that has a value type and a value |
| MetaMath.TruthValue | zen/meta/eval.hpp:111-114 | a value converts to a `bool` template argument exactly when it is 0 or 1, and is true exactly for 1 |
| MetaMath.Arith | zen/meta/math.hpp:26-56 | `std::size_t` arithmetic wraps modulo 2^64, `std::ptrdiff_t` overflow is not a constant expression, and `bool` takes only 0 or 1 |
| MetaMath.EqOf | zen/meta/math.hpp:12-19 | `eq_<T1, T2>` has value 1 exactly when the two types are identical, and 0 otherwise |
| MetaMath.MultOf | zen/meta/math.hpp:26-40 | only two integral constants have a product; it needs one value type, and its value is N1 * N2 in that type |
| MetaMath.IncOf | zen/meta/math.hpp:53-62 | keeps the value type and adds one in that type's arithmetic |
| MetaMath.DecOf | zen/meta/math.hpp:42-51 | keeps the value type and subtracts one in that type's arithmetic |
| MetaMath.BoolConstantValues | zen/meta/primitives.hpp:9-13 | `bool_<B>` has value B, `true_` has value true and `false_` has value false |
| MetaMath.SizedConstantValues | zen/meta/primitives.hpp:15-30 | `u_<I>` carries the `std::size_t` I and `s_<D>` the `std::ptrdiff_t` D |
| MetaMath.EqIffIdentical | zen/meta/math.hpp:12-19 | `eq_` holds exactly for identical types, so `u0_` and `s0_` are not equal |
| MetaMath.MultOfConstants | zen/meta/math.hpp:32-34 | the product of two constants of one value type is their product in that type |
| MetaMath.MultExample | zen/meta/eval_test.cc:12 | `mult_t<u1_, u2_>::value` is 2 |
| MetaMath.IncDecOfConstant | zen/meta/math.hpp:42-56 | `inc_` and `dec_` of a constant add or subtract one, keeping the value type |
| MetaMath.DecOfZeroWraps | zen/meta/math.hpp:42-45 | `dec_` of an unsigned 0 wraps to the largest `std::size_t` |
| MetaMath.DecUndoesInc | zen/meta/math.hpp:42-56 | `dec_` undoes `inc_` on every `std::size_t` value, across the wrap |
| MetaMath.IncOfTrueIsNarrowing | zen/meta/math.hpp:53-56 | `inc_<true_>` is ill-formed because `bool` cannot hold 2, while `inc_<false_>` is `bool_<true>` |
| MetaMath.FacBody | zen/meta/math.hpp:64-71 | the body of `fac_<N>` is a `cond_` of three `case_` terms: N = 0 gives 1, N = 1 gives 1, and the `else_` case is guarded by `true_` |
| MetaMath.FacValue | zen/meta/math.hpp:64-71 | the value `fac_` computes in `std::size_t` arithmetic is below 2^64 |
| MetaMath.FacValueIsFactorial | zen/meta/math.hpp:64-71 | that value is n! reduced modulo 2^64 |
| MetaMaybe.HasValueMember | zen/meta/maybe/types.hpp:10-18 | `has_value` is true for `some_`, false for `none_`, and absent from every other type |
| MetaMaybe.SomeIsNotNone | zen/meta/maybe/types.hpp:20-24 | `is_none_` is true only for `none_`, and `some_<T>` has a value while `none_` has none |
| MetaMaybe.IsNoneOf | zen/meta/maybe/types.hpp:16-24 | a type `is_none_` accepts has `has_value` false, and no template instance is accepted |
| MetaFind.FindFirst | zen/meta/find.hpp:14-21 | find yields `some_` of the first element that satisfies the predicate, every earlier one failing, and `none_` exactly when none does |
| MetaFind.FindCases | zen/meta/find.hpp:16-20 | the three cases: `none_` on an empty range, `some_` of a satisfying head, and otherwise the search of the rest |
| MetaFind.FindOf | zen/meta/find.hpp:14-21 | `find_` gives `none_` or `some_<T>` of an element T the predicate accepts |
| MetaEval.CompileAll | zen/meta/eval.hpp:86-89 | compiling an argument pack keeps its length |
| MetaEval.CompileAllElementwise | zen/meta/eval.hpp:86-89 | a compiled argument pack holds the compiled form of each argument at the same position; when the pack fails to compile, some argument failed |
| MetaEval.Compile | zen/meta/eval.hpp:76-89 | `compile_` keeps every leaf; on any other instance it keeps the template and the number of arguments; it fails only on a `cond_` case with no `test_type` |
| MetaEval.CompileCond | zen/meta/eval.hpp:63-74 | a `cond_` compiles exactly when every case is a `case_`; the result is a `fail_helper_` for no cases and an `if_` otherwise |
| MetaEval.EvalFail | zen/meta/eval.hpp:50-53 | `eval_` of `fail_helper_<T>` never has a value, and its assertion trips exactly when T::value is non-zero |
| MetaEval.Defun | zen/meta/eval.hpp:162-164 | `defun_t<T>`'s value is a leaf, and a body that does not compile has none |
| MetaEval.TypeMember | zen/meta/math.hpp:64-71 | `fac_`, `is_even_` and `is_odd_` take exactly one argument and their `type` member is already a value |
| MetaEval.StaticTypeMember | zen/meta/eval.hpp:36-53 | a fixed-arity template given the wrong number of arguments has no member; `cond_` and the templates `eval_` treats specially have none; an unimplemented hook fails naming itself; `constant_` and `some_` give back their argument |
| MetaEval.Unimplemented | zen/meta/iterator.hpp:64-73 | exactly `deref_impl_`, `size_impl_`, `nth_impl_` and `nth_` are the hooks with no implementation |
| MetaEval.EvalUnimplemented | zen/meta/sequence.hpp:24-35 | evaluating an instance of `deref_`, `size_` or `nth_` always fails, and once its arguments evaluate it fails with that hook's missing-implementation error |
| MetaEval.EvalConstant | zen/meta/common.hpp:52-55 | evaluating `constant_<T>` gives the value of T |
| MetaEval.EvalSome | zen/meta/maybe/types.hpp:10-14 | evaluating `some_<T>` gives the value of T |
| MetaEval.Eval | zen/meta/eval.hpp:91-94 | whatever `eval_t` produces is a value: a type that no specialisation of `eval_` rewrites further |
| MetaEval.EvalInst | zen/meta/eval.hpp:111-129 | the specialisation of `eval_` that a template instance selects produces only values |
| MetaEval.EvalIf | zen/meta/eval.hpp:101-114 | evaluating `if_` produces only values |
| MetaEval.EvalApply | zen/meta/eval.hpp:157-160 | evaluating `apply_<Fn, list_<...>>` produces only values |
| MetaEval.EvalGeneric | zen/meta/eval.hpp:121-124 | the generic evaluation of a template instance produces only values |
| MetaEval.EvalAll | zen/meta/eval.hpp:121-124 | evaluating an argument pack keeps its length and yields only values |
| MetaEval.CompileCondFree | zen/meta/eval.hpp:76-89 | compiling a term with no `cond_` in it gives back the same term |
| MetaEval.CompileAllCondFree | zen/meta/eval.hpp:86-89 | compiling a pack of `cond_`-free terms gives back the same pack |
| MetaEval.CompileInstance | zen/meta/eval.hpp:86-89 | an instance of any template other than `cond_` compiles exactly when each of its arguments does, and then it is the same template over the compiled arguments |
| MetaEval.Cases | zen/meta/eval.hpp:27-31 | the list of `case_` terms has one case per test and consequent pair |
| MetaEval.CompileCondChain | zen/meta/eval.hpp:63-84 | `cond_<case_<t1, e1>, ..., case_<tn, en>>` compiles to the nested chain `if_<t1, e1, ... if_<tn, en, fail_>>`; the tests and consequents are copied uncompiled, and an empty `cond_` becomes `fail_` |
| MetaEval.CompileCondNotACase | zen/meta/eval.hpp:71-74 | a `cond_` whose first element is not a `case_` fails to compile because that element has no `test_type` member |
| MetaEval.IfChainAppend | zen/meta/eval.hpp:71-74 | adding one more case at the end nests one more `if_` just before the final else branch |
| MetaEval.ElseEndsChain | zen/meta/eval.hpp:33-34 | `else_<T>` is `case_<true_, T>`, so a chain ending in it compiles to a last `if_` over `true_`; that `if_` evaluates to T, so its `fail_` is never reached |
| MetaEval.EvalLeaf | zen/meta/eval.hpp:91-94 | evaluating a value, such as an integral constant, gives the value itself |
| MetaEval.EvalAllLeaves | zen/meta/eval.hpp:121-124 | evaluating a pack of values gives the same pack |
| MetaEval.EvalIdempotent | zen/meta/eval.hpp:91-94 | evaluating the result of an evaluation again changes nothing |
| MetaEval.EvalOfConstant | zen/meta/eval_test.cc:14 | `eval_t<u1_>` is `u1_`, whose value is 1 |
| MetaEval.IfTakesThen | zen/meta/eval.hpp:101-114 | an `if_` whose test evaluates to true evaluates as its then branch; the else branch is never evaluated, so it may be any term |
| MetaEval.IfTakesElse | zen/meta/eval.hpp:106-114 | an `if_` whose test evaluates to false evaluates as its else branch |
| MetaEval.IfTestFails | zen/meta/eval.hpp:111-114 | an `if_` fails when its test fails to evaluate or is not a boolean, and a failing test's error is passed on |
| MetaEval.EvalLambda | zen/meta/eval.hpp:116-119 | `lambda_<T>` evaluates as T |
| MetaEval.DefunCompilesThenEvaluates | zen/meta/eval.hpp:162-164 | `defun_t<T>` compiles T and then evaluates the compiled term |
| MetaEval.FailNeverEvaluates | zen/meta/eval.hpp:50-53 | no `fail_helper_<T>` ever evaluates to a value, and `fail_` stops on the assertion "failed to evaluate expression" |
| MetaEval.GenericReducesArguments | zen/meta/eval.hpp:121-124 | a generic template instance first evaluates its arguments, then takes the `type` member of the template over those values and evaluates that; if the member is missing, the evaluation fails with that error |
| MetaEval.EvalReducedArguments | zen/meta/eval.hpp:121-124 | evaluating the arguments beforehand does not change the result of a generic instance |
| MetaEval.EvalArgumentFails | zen/meta/eval.hpp:121-124 | when one argument fails to evaluate, the whole generic instance fails with the same error |
| MetaEval.ApplyReducesArguments | zen/meta/eval.hpp:157-160 | `apply_<template_<F>, list_<As...>>` evaluates as F over the evaluated arguments; a function type without an `apply` member fails |
| MetaEval.StaticMember | zen/meta/eval.hpp:121-124 | every template not defined through `defun_t` takes its `type` member from the table, with no evaluation in between |
| MetaEval.ApplyReducesArgumentsFail | zen/meta/eval.hpp:157-160 | an `apply_` whose arguments fail to evaluate fails with the same error, whatever the function |
| MetaEval.EvalTabled | zen/meta/eval.hpp:121-124 | an instance whose member over the evaluated arguments is already a value evaluates to that member |
| MetaEval.EvalSingle | zen/meta/eval.hpp:121-124 | a pack of one term evaluates to that term's value |
| MetaEval.EvalPair | zen/meta/eval.hpp:121-124 | a pack of two terms evaluates to the values of both, in order |
| MetaEval.ZenIncMult | zen/meta/math.hpp:26-62 | the library's `inc_<u2_>` is `u3_` and `mult_<u3_, u3_>` is `u9_`, while `mult_` over an unevaluated `inc_` term has no implementation |
| MetaEval.EvalMultOfIncIn | zen/meta/eval_test.cc:18 | `mult_<inc_<u2_>, u3_>` evaluates to 9 in any table that agrees with the library on the two steps it takes |
| MetaEval.EvalMultOfInc | zen/meta/eval_test.cc:18 | `eval_t<mult_<inc_<u2_>, u3_>>` is 9, although `mult_t` of the unevaluated terms has no product |
| MetaEval.EvalMonotone | zen/meta/eval.hpp:91-160 | with more room for recursion, an evaluation that finished gives the same result; only running out of depth depends on the bound |
| MetaEval.EvalInstMonotone | zen/meta/eval.hpp:111-160 | the same bound independence for the specialisation an instance selects |
| MetaEval.EvalIfMonotone | zen/meta/eval.hpp:101-114 | the same bound independence for `if_` |
| MetaEval.EvalApplyMonotone | zen/meta/eval.hpp:157-160 | the same bound independence for `apply_` |
| MetaEval.EvalGenericMonotone | zen/meta/eval.hpp:121-124 | the same bound independence for the generic evaluation |
| MetaEval.EvalAllMonotone | zen/meta/eval.hpp:121-124 | the same bound independence for argument packs |
| MetaEval.TypeMemberMonotone | zen/meta/eval.hpp:162-164 | the same bound independence for the `type` member of templates defined through `defun_t` |
| MetaEval.CallIsInstance | zen/meta/eval.hpp:47-48 | `call_<F, Args...>` evaluates like `F<Args...>` itself, whenever both evaluations finish |
| MetaEval.CallWithFailingArguments | zen/meta/eval.hpp:47-48 | when an argument fails, `call_<F, Args...>` and `F<Args...>` fail in the same way |
| MetaEval.CallWithValues | zen/meta/eval.hpp:47-48 | when the arguments have values, `call_<F, Args...>` gives the same result as `F<Args...>` |
| MetaDefun.ZenCountRow | zen/meta/math.hpp:12-51 | the library's `eq_<u_<N>, u0_>`, `eq_<u_<N>, u1_>` and `dec_<u_<N>>` have the members that `eq_impl_` and `dec_impl_` define, for every N |
| MetaDefun.ZenProductRow | zen/meta/math.hpp:31-34 | the library's `mult_` has its product member for every pair that `fac_` multiplies |
| MetaDefun.CountTableOfRows | zen/meta/math.hpp:12-51 | a table whose equality and decrement rows hold for every K up to N holds for all of them together |
| MetaDefun.ProductTableOfRows | zen/meta/math.hpp:31-34 | the same for the product rows |
| MetaDefun.ZenTables | zen/meta/math.hpp:12-51 | the library's table has every equality, decrement and product row, up to any N |
| MetaDefun.EvalEqOfValues | zen/meta/math.hpp:12-19 | `eq_<A, B>` over two values evaluates to `bool_<true>` exactly when A and B are the same type |
| MetaDefun.EvalDecOfSize | zen/meta/math.hpp:42-51 | `dec_<u_<N>>` evaluates to `u_<N - 1>` for N >= 1 |
| MetaDefun.EvalCallOfOne | zen/meta/eval.hpp:47-48 | `call_<F, A>`, where A evaluates to V and `F<V>::type` is the value R, evaluates to R |
| MetaDefun.InstOfLeaf | zen/meta/eval.hpp:121-124 | `F<V>` over a value V evaluates to its `type` member once that member is a value |
| MetaDefun.IfOnEq | zen/meta/eval.hpp:111-114 | `if_<eq_<A, B>, T, E>` over two values evaluates as T exactly when A and B are the same type, and as E otherwise |
| MetaDefun.FacCompiles | zen/meta/math.hpp:64-71 | the `cond_` body of `fac_<N>` compiles to an `if_` chain whose last test is `true_` |
| MetaDefun.FacDefun | zen/meta/math.hpp:64-71 | `fac_<N>::type` is the evaluation of that compiled `if_` chain |
| MetaDefun.FacUnfolds | zen/meta/math.hpp:64-71 | `fac_<u0_>` and `fac_<u1_>` are 1, and for larger N `fac_<u_<N>>` evaluates `mult_<call_<fac_, dec_<N>>, N>` |
| MetaDefun.FacStep | zen/meta/math.hpp:69 | given that `fac_<u_<N - 1>>` is (N-1)!, the else branch `mult_<call_<fac_, dec_<N>>, N>` evaluates to N! |
| MetaDefun.FacFromPrevious | zen/meta/math.hpp:64-71 | `fac_<u_<N>>` is N! once `fac_<u_<N - 1>>` is (N-1)! |
| MetaDefun.FacMember | zen/meta/math.hpp:64-71 | `fac_<u_<N>>::type` is `u_<N!>`, computed in `std::size_t` arithmetic, for every N and every table with the equality, decrement and product rows up to N |
| MetaDefun.ZenFac | zen/meta/math.hpp:64-74 | with the library's own table, `fac_t<u_<N>>` is the factorial of N in `std::size_t` arithmetic |
| MetaDefun.FacExamples | zen/meta/math_test.cc:6 | `fac_t<u2_>` is 2 and `fac_t<u3_>` is 6 |
| MetaDefun.CondFreeIf | zen/meta/eval.hpp:24-25 | an `if_` over `cond_`-free terms is itself `cond_`-free |
| MetaDefun.ParityBodiesCompile | zen/meta/eval_test.cc:30-34 | the `if_` bodies of `is_even_` and `is_odd_` compile to themselves |
| MetaDefun.ParityDefun | zen/meta/eval_test.cc:30-34 | `is_even_<N>::type` (or `is_odd_`) is the evaluation of its `if_` body |
| MetaDefun.ParityUnfolds | zen/meta/eval_test.cc:30-34 | `is_even_<u0_>` is `true_` and `is_odd_<u0_>` is `false_`; for N > 0 each evaluates the other over `dec_<N>`, and the branch not taken is never evaluated |
| MetaDefun.EvalOfPredecessor | zen/meta/eval_test.cc:31-34 | `F<dec_<u_<N>>>` evaluates to `F<u_<N - 1>>::type` once that member is a value |
| MetaDefun.ParityBase | zen/meta/eval_test.cc:31-34 | at N = 0, `is_even_` is `true_` and `is_odd_` is `false_` |
| MetaDefun.ParityStep | zen/meta/eval_test.cc:31-34 | for N >= 1, `is_even_<u_<N>>` has the truth value of `is_odd_<u_<N - 1>>`, and the other way round |
| MetaDefun.ParityMember | zen/meta/eval_test.cc:24-34 | `is_even_<u_<N>>::type` is `true_` exactly when N is even, and `is_odd_<u_<N>>::type` exactly when N is odd, so the mutual recursion stops at 0 |
| MetaDefun.ZenParity | zen/meta/eval_test.cc:24-34 | the same with the library's own table |
| MetaDefun.ParityExamples | zen/meta/eval_test.cc:36-43 | the eight assertions of the mutual recursion test, for N = 0..3 |
| MetaDefun.IfExample | zen/meta/math_test.cc:7 | `eval_t<if_<bool_<1 == 1>, u1_, u2_>>` is `u1_` |
| MetaDefun.NextNIsCases | zen/meta/iterator.hpp:46-53 | the member of the generic `next_n_impl_` is a `cond_` of three `case_` terms |
| MetaDefun.ZenCase | zen/meta/eval.hpp:27-31 | `case_` has `test_type` and `then_type` but no `type` member |
| MetaDefun.EvalCondOfCase | zen/meta/eval.hpp:27-39 | an uncompiled `cond_` whose first `case_` is over two values has no value: evaluation reaches `case_`, which has no `type` |
| MetaDefun.GenericNextNNeedsCompile | zen/meta/iterator.hpp:46-53 | the member of the generic `next_n_impl_` is an uncompiled `cond_`, so evaluating it directly fails |
| MetaDefun.GenericNextNNeedsCompileIn | zen/meta/iterator.hpp:46-53 | the same, in any table where `case_` over two values has no member |
| MetaDefun.GenericNextNCompiled | zen/meta/iterator.hpp:46-53 | once compiled and evaluated, the generic `next_n` by 0 is the iterator itself, and `next_n` of `none_` is `none_` |
| MetaDefun.ZenIsNone | zen/meta/maybe/types.hpp:20-24 | the library's `is_none_<T>` is true exactly for `none_` |
| MetaIterator.GenericNextN | zen/meta/iterator.hpp:46-53 | the member of the generic `next_n_impl_<N, IterT>` exists exactly when N has a `value` |
| MetaIterator.GenericPrevN | zen/meta/iterator.hpp:55-62 | the member of the generic `prev_n_impl_<N, IterT>` exists exactly when N has a `value` |
| MetaIterator.UnitSteps | zen/meta/iterator.hpp:17-25 | `next_` and `prev_` are `next_n` and `prev_n` by `u1_`, on every iterator except the maybe iterator |
| MetaIterator.GenericNextNShape | zen/meta/iterator.hpp:46-53 | the generic `next_n` is a `cond_` of three cases: N is 0 gives the iterator, `is_none_` of the iterator gives `none_`, and otherwise `next_n_impl_<inc_<N>, next_<IterT>>` |
| MetaIterator.GenericPrevNShape | zen/meta/iterator.hpp:55-62 | the generic `prev_n` tests `prev_<IterT>` for `none_` and recurses with `dec_<N>` from `prev_<IterT>` |
| MetaIterator.ListNextN | zen/meta/list/iterator.hpp:15-22 | `next_n` on a list iterator exists exactly when N has a value; it is `none_` or an iterator into the same list at a valid index |
| MetaIterator.ListPrevN | zen/meta/list/iterator.hpp:24-31 | `prev_n` on a list iterator exists exactly when N has a value; it is `none_` or an iterator into the same list at a non-zero index no greater than I |
| MetaIterator.NextNOf | zen/meta/iterator.hpp:46-53 | `next_n_impl_<N, IterT>` needs N to have a value; on a non-list iterator it is an unevaluated `cond_`; on a list it stays in the list |
| MetaIterator.PrevNOf | zen/meta/iterator.hpp:55-62 | `prev_n_impl_<N, IterT>` exists exactly when N has a value; on a non-list iterator it is an unevaluated `cond_`; on a list it never moves forward |
| MetaIterator.NextOf | zen/meta/maybe/iterator.hpp:18-26 | on a maybe iterator `next_` is `none_` exactly at the second position, and `some_` of the second position from the first; on a list it exists exactly when the container is a tuple |
| MetaIterator.PrevOf | zen/meta/maybe/iterator.hpp:28-36 | `prev_` always exists; on a maybe iterator it is `none_` exactly at the first position, and `some_` of the first position from the second |
| MetaIterator.ListNextNSpec | zen/meta/list/iterator.hpp:15-22 | on a list, `next_n` by N from index I is the iterator at I + N, or `none_` once I + N reaches the list's size |
| MetaIterator.ListNextNInBounds | zen/meta/list/iterator.hpp:15-22 | `next_n` on a list never yields the one-past-the-end index, and keeps the container |
| MetaIterator.ListPrevNSpec | zen/meta/list/iterator.hpp:24-31 | on a list, `prev_n` by N from I is the iterator at I - N when N < I and `none_` otherwise, so stepping back by I from I gives `none_` |
| MetaIterator.ListPrevNKeepsContainer | zen/meta/list/iterator.hpp:24-31 | `prev_n` on a list keeps the container and never increases the index |
| MetaIterator.ListNextNByZero | zen/meta/list/iterator.hpp:15-22 | `next_n` by 0 from a valid index is the same iterator |
| MetaIterator.MaybeIteratorTable | zen/meta/maybe/iterator.hpp:18-36 | a maybe iterator has two positions: next of the first is the second and next of the second is `none_`; prev of the second is the first and prev of the first is `none_` |
| MetaLambda.NumberedBinder | zen/meta/lambda.hpp:16-33 | each of `_1` .. `_9` is recognised by `is_type_binder`, and `_n` is `arg_n_<n - 1>` |
| MetaLambda.NumberedBindersDistinct | zen/meta/lambda.hpp:16-47 | the nine numbered binders are pairwise distinct; `has_type_binder` holds of any pack that contains one, and any instance whose arguments contain one is a lambda expression |
| MetaLambda.HasTypeBinderOf | zen/meta/lambda.hpp:29-41 | `has_type_binder<Ts...>` is true exactly when one of Ts is an `arg_n_` binder |
| MetaLambda.SubstituteFrom | zen/meta/lambda.hpp:49-66 | a successful substitution keeps the number of parameters |
| MetaLambda.ApplySequence | zen/meta/lambda.hpp:74-83 | `apply_sequence<Fn, std::tuple<Ts...>>` is `Fn<Ts...>`; for any other type it has no member |
| MetaLambda.PlaceholdersMonotone | zen/meta/lambda.hpp:49-66 | a prefix of the parameters has no more `_` placeholders than the whole list |
| MetaLambda.SubstituteFromSpec | zen/meta/lambda.hpp:49-66 | the walk from index I succeeds exactly when every later `_` finds an argument and a tuple setter; it keeps every earlier parameter and puts the right argument, or the original parameter, at each later position |
| MetaLambda.SubstituteParameters | zen/meta/lambda.hpp:49-66 | a successful substitution keeps the number of parameters and every parameter that is not `_`; a failure is a missing argument or a missing tuple setter |
| MetaLambda.SubstituteFromErrors | zen/meta/lambda.hpp:54-63 | the walk from any index fails only for a missing argument or a missing tuple setter |
| MetaLambda.SubstituteParametersSpec | zen/meta/lambda.hpp:49-66 | `substitute_parameters_<0, 0, ...>` replaces each `_`, left to right, by the next unused argument and keeps every other parameter; it succeeds exactly when every placeholder finds an argument and a setter for its position |
| MetaLambda.EnoughArguments | zen/meta/lambda.hpp:57-60 | a successful substitution had at least as many arguments as placeholders |
| MetaLambda.SurplusArgumentsUnused | zen/meta/lambda.hpp:49-66 | with at least as many arguments as placeholders, and a setter for each placeholder position, substitution succeeds; extra arguments are unused |
| MetaLambda.ApplyLambdaReapplies | zen/meta/lambda.hpp:88-99 | `apply_lambda_<Fn<Ps...>, As...>` is Fn over the parameters with the placeholders substituted |
| MetaLambda.ApplyLambdaOf | zen/meta/lambda.hpp:85-99 | `apply_lambda_` is defined only on template instances, and gives an instance of the same template with as many parameters |
| MetaLambda.LambdaExprExamples | zen/meta/lambda.hpp:43-47 | an instance with a binder among its direct arguments is a lambda expression; a nested binder, an instance without arguments and a non-template type are not |
| MetaRange.RangeRecord | zen/meta/range.hpp:33-42 | `range_<B, E>` always has a `type`, a `range_t` whose `begin_type` is B and whose `end_type` is E |
| MetaRange.RangeIncAdvances | zen/meta/range.hpp:44-47 | `inc_` of a range advances `begin_type` by `next_t` and keeps `end_type` |
| MetaRange.RangeIncOf | zen/meta/range.hpp:44-47 | `inc_` of a range exists exactly when its begin has a `next_`; then `begin_type` is that `next_` and `end_type` is unchanged |
| MetaRange.BeginOf | zen/meta/range.hpp:21-25 | `begin_` exists exactly for lists, maybes and cons cells, and is incomplete for every other type |
| MetaRange.EndOf | zen/meta/range.hpp:27-31 | `end_` exists exactly for maybes and cons cells, so every type with an `end_` has a `begin_`, and is incomplete otherwise |
| MetaRange.BeginEndDeclaredOnly | zen/meta/range.hpp:21-31 | `begin_` and `end_` of a type that no specialisation covers are incomplete |
| MetaRange.ConsBeginEnd | zen/meta/cons.hpp:18-36 | `begin_` of a cons cell is the cell and `begin_` of `nil_` is `nil_`; `end_` of both is `nil_` |
| MetaRange.MaybeBeginEnd | zen/meta/maybe/iterator.hpp:38-56 | `begin_` and `end_` of `some_<T>` and of `none_` are the two positions of the maybe iterator, so even for `none_` begin differs from end |
| MetaRange.MaybeNextThenPrev | zen/meta/maybe/iterator.hpp:18-46 | on a maybe, going next and then prev from `begin_` gives back `begin_` |
| MetaRange.ListBegin | zen/meta/list.hpp:12-15 | `begin_` of every list, the empty one included, is the list iterator at index 0 |
| MetaRange.ListSetNth | zen/meta/list.hpp:17-20 | `set_nth_impl_` on a list puts R at index I and keeps the length and the other elements |
| MetaRange.SetNthImplOf | zen/meta/list.hpp:17-20 | `set_nth_impl_` succeeds only on a list and an index inside it, and gives a list of the same length holding R at that index; any other type reports a missing implementation |
| MetaRange.SetNthAlias | zen/meta/sequence.hpp:42-43 | `set_nth_<T, I, R>` names `set_nth_impl_<T, I, T>`: R does not occur in it |
| MetaRange.SetNthTOf | zen/meta/sequence.hpp:42-46 | a successful `set_nth_t<T, I, R>` is a list of the same length holding T itself at index I |
| MetaRange.SetNthIgnoresReplacement | zen/meta/sequence.hpp:42-46 | the alias `set_nth_<T, I, R>` is `set_nth_impl_<T, I, T>`, so R is dropped and `set_nth_t` does not depend on it |

## Left out

- Compile-time recursion depth: `eval_` has no bound of its own. The model's fuel parameter stands in for the compiler's limit, and only the `OutOfFuel` outcome depends on it.
- Environments: the `EnvT` parameter of `eval_` is never read, and positional argument lookup is commented out in the source. The model has no environment.
- The table of `type` members: the model's evaluator takes it as a `Library` parameter, and `ZenMembers` is the library's own table. The lemmas hold for any table that agrees with the library's on the rows they use.
- `ZEN_MAKE_TUPLE_SETTER`: the setters it generates are modelled by what they do. There are setters for indices 0-2 and 4-9 only, as the expansions in zen/meta/common.hpp list them. The macros they rely on are not part of this model.
- `MetaLambda.SubstituteFrom`: models the rule that `substitute_parameters_` spells out. As written, the template instantiates every case of its `cond_` eagerly, including `tuple_element_t<I, ParamTs>` when I is the tuple's size, so it does not compile.
- `MetaFind.FindOf`: models the rule of `find_`'s three cases over the remaining elements. The predicate's value is a function parameter, because `cond_t`, `size_` and `deref_` have no definition to evaluate.
- include/zen/meta.hpp, zen/tuple.hpp and include/zen/match.hpp are not part of this model. They are an earlier draft that does not compile, a header that depends on undefined templates, and a macro skeleton with no behaviour.
- `ZEN_HAS_COMMA`, `ZEN_NARGS`, `ZEN_FOR` and `ZEN_JOIN` appear in test/test_zen_macros.cc but are not defined in include/zen/macros.h, so they are not modelled.
- The plain expansion helpers `ZEN_DEFER`, `ZEN_EXPAND`, `ZEN_EVAL`, `ZEN_CONCAT`, `ZEN_STATIC_ASSERT` and `ZEN_UNUSED` are not modelled as macros. The lines the generator writes for `ZEN_DEFER` are modelled; the text of `ZEN_EXPAND`, `ZEN_EVAL`, `ZEN_CONCAT`, `ZEN_STATIC_ASSERT` and `ZEN_UNUSED` is part of the `Prose.utilities` parameter.
- generate.py: the time stamp, the file write and the `__main__` entry (generate.py:30, 164-165) are I/O. The fixed prose the generator copies is a `Prose` parameter, and `max_va_args` is an argument. That prose includes the definitions of `ZEN_VA_LENGTH` and `ZEN_VA_LENGTH_IMPL` (generate.py:28-29, in `Prose.preamble`) and of `ZEN_EMPTY` (generate.py:45, in `Prose.deferDoc`).
- `Program::print_help` (zen/po.hpp:141-147) writes to a stream and is not modelled.
- `ZEN_AUTO_SIZE` is defined by no file of the library. It is taken to be the largest 64-bit `size_t`.
- `Either<L, void>`: its copy and move constructors name `other.data.left`, which that specialisation does not have (zen/either.hpp:252-262). They are modelled as copying the value the flag says is there.
- `ZEN_UNWRAP` (zen/either.hpp:320-323) panics; `ZEN_TRY` and `ZEN_TRY2` return from the caller. `Try` models the early return as a value.
- `ZenBoxedEither.Either.Unwrap`: the exception it throws is the `Err` side of a `Result`.
- `ZenEither.Either.Right`: the `ZEN_ASSERT` of `operator*`, `operator->` and `right()` and the `ZEN_PANIC` of `unwrap()` on a left-valued either (zen/either.hpp:195-224) are not modelled as outcomes; the function requires a right-valued either instead.
- Union storage: in zen/either.hpp:128-131 `left_value` and `right_value` are members of one union and share storage, so reading the member the tag does not select is undefined behaviour. The model keeps two separate fields, and the inactive one holds an arbitrary value.
- Boxes and ownership: `Box<T>` in the boxed `Either` and `Maybe` is modelled by the value it holds. The moved-from state of a moved value is modelled only where the source sets it, as in `Maybe`'s move constructor.
- The converting constructors of `Either` (zen/either.hpp:159-175) are the method `ZenEither.Convert`, with the conversions of the payload types as function parameters. As written they do not compile whenever `L2, R2` differ from `L, R`: they read the private members of another specialisation, and the friend declaration at zen/either.hpp:122-124 names a lowercase `either`, which is no template of the library. The test at zen/either_test.cc names the undeclared `zen::either<int,bool>` too. The model gives the behaviour the constructors evidently intend.
- Integer widths at run time: sizes, indices and offsets are unbounded naturals. A `size_t` wrap-around of `DLList::_sz`, `Vector::_sz` or the lexer's offset is not modelled.
- `ZenVector.Vector.Prepend`: requires that the size does not exceed the capacity field. The source copies the elements into a buffer of capacity + 1 slots, which overflows once `append` has grown the buffer past that field. `PrependAfterGrowthOverflows` reaches such a state.
- `ZenVector.Vector.FromRange`: models the range constructor of zen/vector.hpp:59-70. No call in the source can reach that constructor. `RangeT` occurs only inside `std::enable_if_t<IsRange<RangeT>::value, RangeT>`, which is a non-deduced context, and the template arguments of a constructor template cannot be given explicitly. The model states what the constructor's body would do if it were called.
- `ZenVector.Vector.EnsureCapacity`: requires that the new capacity holds the current elements whenever it reallocates. Otherwise the source's copy writes past the new buffer.
- Raw allocation: zen/allocator.hpp is a `malloc` call. An allocation is a fresh array of the requested number of elements.
- Aliasing beyond the objects modelled: `Vector`'s buffers and `DLList`'s nodes belong to their container. Two containers sharing storage is not modelled, except for the entries that `sequence_map`'s copy assignment shares.
- `Vector::begin`/`end`, `DLList::range` and `DLList::last` are not modelled. The first two are raw pointers over the buffer, and `range` wraps `begin`/`end`. `last` assigns `nullptr` inside its assertion (zen/dllist.hpp:170-173).
- `sequence_map::operator[]` returns a `Value*` where a pair reference is declared (zen/sequence_map.hpp:86-92), so it is not modelled. Iteration is the `Pairs()` sequence, in insertion order. Copy-assigning a map to itself is excluded by the method's requires.
- `stream`, `peek_stream` and `buffered_stream` dispatch through virtual methods. The model has the one concrete stream, `BufferedStream`. The user's `read()` is the sequence of tokens it will still deliver.
- The stream hierarchy as written: `buffered_stream` derives only from `peek_stream` (zen/stream.hpp:38), so `stream::skip` is not one of its members and its `get() override` (zen/stream.hpp:49) overrides nothing. `ZenStream.BufferedStream.Skip` gives it the `skip` that `stream` describes, over its own `get()`.
- `ZenStream.BufferedStream.Peek`: requires an offset of at least 1. `peek_stream` declares the default offset 0 (zen/stream.hpp:32), for which `buffer[offset-1]` reads outside the buffer; that case is not modelled.
- `from_utf8`: the overload over a character array is the same byte-to-glyph copy as the `string_view` one, so only one is modelled.
- The lexer's stream: the `Lexer` reads the sequence of bytes not yet consumed instead of an abstract peekable stream. A loop of the source that never ends is the `Diverges` outcome.
- Out of scope: the file system (zen/fs*), the allocator, the value types (zen/value.hpp, include/zen/value.hpp), reflection and serialisation (zen/lens.hpp, zen/reflect.hpp, zen/serde.hpp), zen/cli.hpp, the lexgen parser and AST, and the cloning and memory helpers.
