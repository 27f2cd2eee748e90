# dcargs: instantiators and argument lowering

dcargs builds a command-line interface from the type annotations of a dataclass
or function. This project models two of its parts.

- **The instantiator factory** (`dcargs/_instantiators.py`). A type annotation
  becomes an *instantiator* (strings to a typed value) and its metadata: `nargs`
  (an integer or `"+"`), `metavar` and `choices`. The annotation is a closed
  `Type` datatype: `NoneT`, `Bool`, `Enum`, `Scalar`, `Literal`, `FixedTuple`,
  `Seq`, `Dict`, `Union`, `TypeVar`, `Any` and `Annotated`.
  - Each Python closure becomes a case of the `Instantiator` datatype, holding
    what the closure captured. Running it is the function `Instantiators.Apply`.
  - Errors at construction (`UnsupportedTypeAnnotationError`, `BuildError`) are
    kept apart from errors while instantiating (`ValueError`, a failed assert,
    `KeyError`, `IndexError`, `ZeroDivisionError`), because a union only catches
    `ValueError`.
  - The loops the source writes imperatively are methods with loop invariants,
    each proved equal to the specification function:
    - the tuple, sequence, dict and union instantiators;
    - the reordering of union options;
    - the metavar merge;
    - the construction loops of tuples and unions.
- **The argument-lowering pipeline** (`dcargs/_arguments.py`).
  `ArgumentDefinition.lowered` folds seven rules over a frozen record, starting
  from the all-default record. The record is the `Lowered` datatype and each rule
  is a function. `Arguments.Lower` composes them, and a rule that raises makes the
  whole pipeline return an error.
  - `add_argument` builds its keyword dictionary step by step. It is a method over
    a local `map<Kw, KwValue>`.
  - `_PatchedList` is a value with its own membership test.

Default sentinels are `Concrete(v) | MissingProp | MissingNonprop | ExcludeFromCall`.
`IsMissing` means "one of the missing singletons". `ExcludeFromCall` is not missing.

Where the code and its docstring disagree, the model follows the code.
`_join_union_metavars` lists `None, INT => NONE|INT` as an example, but the code
upper-cases nothing and returns `None|INT` (`InstantiationProperties.JoinUnionMetavarsPlain`).
The boolean-flag rule's assertion message (`_arguments.py:178-181`) is written without an
`f` prefix, so it reads `{arg.field.name}` literally; the model carries that literal text
(`Arguments.BoolDefaultMessage`).

## Model

| member | source | states |
|---|---|---|
| Instantiators.CheckChoices | dcargs/_instantiators.py:79-81 | definition of `check_choices`: fails with `invalid choice` when choices are set and a token is not among them (partner: `CheckChoicesMeaning`) |
| Instantiators.FromType | dcargs/_instantiators.py:96-220 | definition of `instantiator_from_type`: a bound type variable is replaced by its binding; `Any`, unbound variables and non-converter classes are rejected; NoneType, bool, enums and converter classes get a one-token base case with their choices and metavar; other annotations go to their factories (partners: `ConstructionProperties` lemmas) |
| Instantiators.FromInner | dcargs/_instantiators.py:250-267 | definition of `_instantiator_from_type_inner`: builds the element and rejects a variable-length one where a fixed length is required |
| Instantiators.FromTuple | dcargs/_instantiators.py:306-351 | definition of `_instantiator_from_tuple`: builds every element with a fixed length; nargs is their sum and the metavar their metavars joined by spaces (partners: `TupleBuilds`, `TupleShape`) |
| Instantiators.FromSequence | dcargs/_instantiators.py:522-563 | definition of `_instantiator_from_sequence`: builds the element with a fixed length; nargs `"+"`, the element's choices (partner: `SequenceShape`) |
| Instantiators.FromDict | dcargs/_instantiators.py:466-519 | definition of `_instantiator_from_dict`: builds key and value with a fixed length; nargs `"+"`, no choices (partner: `DictShape`) |
| Instantiators.FromUnion | dcargs/_instantiators.py:390-463 | definition of `_instantiator_from_union`: NoneType first, every option built, nargs by the first-option rule, the joined metavar; an empty union ends in IndexError (partners: `UnionBuilds`, `UnionShape`, `UnionEmpty`) |
| Instantiators.FromLiteral | dcargs/_instantiators.py:566-580 | definition of `_instantiator_from_literal`: one token, the values' texts as choices and metavar (partners: `LiteralInstantiator`, `LiteralRoundTrip`) |
| Instantiators.NoneFirst | dcargs/_instantiators.py:393-399 | definition of the option reordering: NoneType, when present, is removed once and put first (partner: `NoneFirstPermutes`) |
| Instantiators.UnionNargs | dcargs/_instantiators.py:404-424 | definition of the `nargs`/`first` loop as a fold over the built options (partners: `UnionNargsFirst`, `UnionNargsShared`, `UnionNargsDisagree`) |
| Instantiators.JoinUnionMetavars | dcargs/_instantiators.py:354-387 | definition of `_join_union_metavars`: merge brace groups, wrap spaced metavars, join with `|` (partners: `MergedGroups`, `JoinTwo` and the docstring examples) |
| Instantiators.ApplyBase | dcargs/_instantiators.py:119-220 | definition of `instantiator_base_case`: exactly one token; bool and enum by name, KeyError otherwise; a converter through `typ(string)`, ValueError when it raises (partners: `BoolInstantiator`, `EnumInstantiator`, `ScalarInstantiator`) |
| Instantiators.Apply | dcargs/_instantiators.py:119-580 | definition of running each closure: NoneType, the base case, literals, and the tuple, sequence, dict and union instantiators (partners: `TupleAccepts`, `SequenceAccepts`, `DictAccepts`, `UnionFirstOption` and the `InstantiatorLoops` methods) |
| Instantiators.TupleLoop | dcargs/_instantiators.py:338-345 | definition of the tuple loop: each part takes its slice in turn and its value is appended (partners: `TupleLoopOk`, `TupleLoopItems`, `RunTupleParts`) |
| Instantiators.SeqLoop | dcargs/_instantiators.py:552-557 | definition of the sequence loop: one converted element per chunk of `nargs` tokens (partners: `SeqLoopOk`, `SeqLoopItems`, `RunSequence`) |
| Instantiators.DictPair | dcargs/_instantiators.py:494-511 | definition of one dict pair: both choice checks, then value and key converted (partners: `DictPairOk`, `DictPairOrder`, `RunPair`) |
| Instantiators.DictLoop | dcargs/_instantiators.py:493-511 | definition of the dict loop: each pair stored with `out[k] = v` (partners: `DictLoopOk`, `DictLoopItems`, `RunPairs`) |
| Instantiators.UnionLoop | dcargs/_instantiators.py:431-457 | definition of the union loop: the first option whose choices and arity fit and which does not raise ValueError wins; the others add an error (partners: `UnionLoopNone`, `UnionLoopFirst`, `RunUnion`) |
| Instantiators.Slice | dcargs/_instantiators.py:338-345 | Python slicing: inside the bounds it is the subsequence `s[i..j]` |
| Instantiators.IndexOf | dcargs/_instantiators.py:575 | the first position of a text in the literal's texts, or none exactly when it is absent |
| Instantiators.AllInMeaning | dcargs/_instantiators.py:79-81 | the choice test holds iff every token is among the choices |
| Instantiators.CheckChoicesMeaning | dcargs/_instantiators.py:79-81 | fails exactly when choices are set and some token is outside them, and then with `invalid choice` naming the tokens |
| Instantiators.MaxOfBound | dcargs/_instantiators.py:320-333 | every element rank is at most the maximum, so a tuple or union ranks no lower than its elements |
| Instantiators.ElementRank | dcargs/_instantiators.py:320-333 | an element of a tuple or union has no higher type-variable rank than its parent (termination of the recursion) |
| Instantiators.RemoveFirstSubset | dcargs/_instantiators.py:394-399 | `options.remove` only drops elements |
| Instantiators.RemoveFirstAt | dcargs/_instantiators.py:396 | removing the first occurrence, found at index i, cuts out exactly that element |
| Instantiators.Merged | dcargs/_instantiators.py:368-381 | merging a non-empty metavar list leaves a non-empty list, so `merged_metavars[-1]` always exists; what the merged list holds is `InstantiationProperties.MergedGroups` |
| Instantiators.WrapAll | dcargs/_instantiators.py:383-385 | wrapping keeps one metavar per merged metavar |
| Instantiators.ApplyTuple | dcargs/_instantiators.py:334-345 | with the right token count the tuple instantiator is its loop from the first part, its values made a tuple, or the loop's error |
| Instantiators.ApplyDict | dcargs/_instantiators.py:487-512 | with whole pairs the dict instantiator is its loop over `len // pair_nargs` pairs from index 0, its entries made a dict, or the loop's error |
| Instantiators.DictLoopPasses | dcargs/_instantiators.py:493-511 | a pair that passes both choice checks and converts is stored with `out[k] = v`, and the loop goes on at the next pair |
| Instantiators.DictLoopFails | dcargs/_instantiators.py:493-511 | a pair that fails a choice check or a conversion stops the loop with that error |
| InstantiatorLoops.RunTuple | dcargs/_instantiators.py:334-345 | the loop advancing `i` and appending to `out` computes exactly the tuple instantiator's result |
| InstantiatorLoops.RunTupleParts | dcargs/_instantiators.py:338-345 | the loop over parts, advancing `i` by each part's arity, computes exactly the tuple loop |
| InstantiatorLoops.RunSequence | dcargs/_instantiators.py:542-557 | the stepped loop over chunks computes exactly the sequence instantiator's result |
| InstantiatorLoops.RunDict | dcargs/_instantiators.py:487-512 | the loop advancing `index` and writing into `out` computes exactly the dict instantiator's result |
| InstantiatorLoops.RunPair | dcargs/_instantiators.py:494-511 | the slicing, the two choice checks and the two conversions of one pair compute exactly that pair's result |
| InstantiatorLoops.RunPairs | dcargs/_instantiators.py:492-511 | the `for _ in range(len(strings) // pair_nargs)` loop computes exactly the dict loop |
| InstantiatorLoops.RunUnion | dcargs/_instantiators.py:429-457 | the loop over options accumulating `errors` computes exactly the union instantiator's result |
| InstantiatorLoops.MoveNoneFirst | dcargs/_instantiators.py:394-399 | `remove` then `insert(0, NoneType)` gives the specified reordering |
| InstantiatorLoops.JoinMetavars | dcargs/_instantiators.py:368-387 | the in-place merge and wrap of `merged_metavars` gives the specified join |
| InstantiatorLoops.PrependNothing | dcargs/_instantiators.py:320-333 | an empty finished prefix leaves the construction result unchanged |
| InstantiatorLoops.PrependStep | dcargs/_instantiators.py:320-333 | one element built moves from the pending result to the finished prefix |
| InstantiatorLoops.PrependDone | dcargs/_instantiators.py:320-333 | nothing left to build: the finished prefix is the result |
| InstantiatorLoops.BuildTuple | dcargs/_instantiators.py:306-351 | the element loop with its `nargs` sum and variable-length check builds exactly what the factory builds |
| InstantiatorLoops.BuildUnion | dcargs/_instantiators.py:390-463 | the option loop updating `nargs` and `first` builds exactly what the factory builds |
| ConstructionProperties.TypeVarTransparent | dcargs/_instantiators.py:108-112 | a bound type variable builds exactly what its bound type builds |
| ConstructionProperties.UnboundTypeVarRejected | dcargs/_instantiators.py:139-146 | an unbound type variable is rejected as not callable |
| ConstructionProperties.AnyRejected | dcargs/_instantiators.py:115-116 | a type containing `Any` anywhere is rejected; `Any` itself with "not a parsable type"; without empty unions the rejection is an `UnsupportedTypeAnnotationError` |
| ConstructionProperties.BuildFailsUnsupported | dcargs/_instantiators.py:96-463 | without empty unions, every construction failure is an `UnsupportedTypeAnnotationError` (never the IndexError of an empty union) |
| ConstructionProperties.BuildFailsUnsupportedInner | dcargs/_instantiators.py:250-267 | the same through the inner entry point |
| ConstructionProperties.BuildFailsUnsupportedUnion | dcargs/_instantiators.py:390-463 | the same for a union |
| ConstructionProperties.BuildFailsUnsupportedParts | dcargs/_instantiators.py:320-333 | the same for an element list of a tuple or union |
| ConstructionProperties.AnyRejectedInner | dcargs/_instantiators.py:250-267 | the same through the inner entry point |
| ConstructionProperties.AnyRejectedTuple | dcargs/_instantiators.py:320-333 | a fixed tuple with an element containing `Any` is rejected |
| ConstructionProperties.AnyRejectedUnion | dcargs/_instantiators.py:406-413 | a union with an option containing `Any` is rejected |
| ConstructionProperties.AnyRejectedParts | dcargs/_instantiators.py:320-333 | an element list containing `Any` fails to build |
| ConstructionProperties.NoneInstantiator | dcargs/_instantiators.py:119-131 | `NoneType`: one token, choices `("None",)`, accepts exactly `["None"]` and returns None |
| ConstructionProperties.BoolInstantiator | dcargs/_instantiators.py:187-220 | `bool`: one token, choices True/False, accepts exactly those and converts each to its value |
| ConstructionProperties.EnumInstantiator | dcargs/_instantiators.py:187-220 | an enum: one token, member names as choices, a member name gives that member, anything else a KeyError |
| ConstructionProperties.ScalarInstantiator | dcargs/_instantiators.py:139-220 | a non-converter class is rejected; a converter takes one token through `typ(string)`, fails with ValueError when that fails, and raises the unpacking ValueError on other counts |
| ConstructionProperties.ChoicesGuardInstantiator | dcargs/_instantiators.py:182-220 | for None, bool, enum and literal types, a token converts iff it passes the choice check |
| ConstructionProperties.LiteralInstantiator | dcargs/_instantiators.py:566-580 | `Literal`: one token, the values' texts as choices in order, accepts a token iff it is a choice, IndexError on no token |
| ConstructionProperties.LiteralRoundTrip | dcargs/_instantiators.py:566-580 | with distinct texts, a value's own text converts back to that value |
| ConstructionProperties.BuildPartsOk | dcargs/_instantiators.py:320-333 | the element list builds iff every remaining element builds |
| ConstructionProperties.BuildPartsItems | dcargs/_instantiators.py:320-333 | a built element list has one part per remaining element, in order, each what that element builds |
| ConstructionProperties.TupleBuilds | dcargs/_instantiators.py:306-333 | a fixed tuple builds iff every element builds; an element of arity `"+"` makes it fail |
| ConstructionProperties.TupleShape | dcargs/_instantiators.py:306-351 | a built fixed tuple has one part per element, in order, each what that element builds, all of integer arity; `nargs` is the sum of the element arities; no choices |
| ConstructionProperties.SequenceShape | dcargs/_instantiators.py:522-563 | a sequence builds iff its element does; nargs `"+"`, the inner choices pass through, a variable-length element is rejected |
| ConstructionProperties.DictShape | dcargs/_instantiators.py:466-519 | a dict builds iff key and value do; nargs `"+"`, no choices, integer key and value arities |
| ConstructionProperties.FirstIndex | dcargs/_instantiators.py:394-399 | the index of the first occurrence |
| ConstructionProperties.NoneFirstSplit | dcargs/_instantiators.py:394-399 | NoneType is cut out at its first occurrence and put in front of the others |
| ConstructionProperties.RemoveFirstAbsent | dcargs/_instantiators.py:394-399 | without an occurrence nothing is removed |
| ConstructionProperties.NonNoneConcat | dcargs/_instantiators.py:394-399 | the non-None options of a concatenation concatenate |
| ConstructionProperties.NoneFirstPermutes | dcargs/_instantiators.py:394-399 | the reordering is a permutation, keeps the other options in order, and puts NoneType first when present |
| ConstructionProperties.NoneFirstKeeps | dcargs/_instantiators.py:394-399 | every option survives the reordering |
| ConstructionProperties.NoneFirstOrder | dcargs/_instantiators.py:394-399 | the reordering keeps the non-None options in their order |
| ConstructionProperties.UnionNargsFirst | dcargs/_instantiators.py:404-424 | nargs stays 1, and no non-None option is seen, exactly when every option is NoneType |
| ConstructionProperties.UnionNargsShared | dcargs/_instantiators.py:404-424 | when all non-None options share an arity, that arity is the union's nargs |
| ConstructionProperties.UnionNargsDisagree | dcargs/_instantiators.py:404-424 | when two non-None options disagree, nargs is `"+"` |
| ConstructionProperties.UnionEmpty | dcargs/_instantiators.py:369 | an empty union crashes with IndexError when its metavars are joined |
| ConstructionProperties.UnionBuilds | dcargs/_instantiators.py:390-413 | a non-empty union builds iff every option builds |
| ConstructionProperties.UnionShape | dcargs/_instantiators.py:390-463 | a built union has one part per option in None-first order, each what that option builds; nargs by the first-option rule, the joined metavar, no choices |
| ConstructionProperties.ElementsAgree | dcargs/_instantiators.py:394-399 | permuted options all build iff the original ones do |
| InstantiationProperties.ChunkBounds | dcargs/_instantiators.py:552-557 | with a divisible count every chunk lies inside the tokens and the last one ends at their end |
| InstantiationProperties.MulMonotone | dcargs/_instantiators.py:552-557 | helper: `j * n` does not decrease as `j` grows, used for the chunk bounds |
| InstantiationProperties.ChunkStartIs | dcargs/_instantiators.py:552-557 | after j steps of n from `index` the loop is at `index + j*n` |
| InstantiationProperties.StartNext | dcargs/_instantiators.py:493-497 | one more step of n moves the start by n |
| InstantiationProperties.OffsetStep | dcargs/_instantiators.py:338-345 | the start of part i+1 is the start of part i plus its arity |
| InstantiationProperties.OffsetBound | dcargs/_instantiators.py:338-345 | every part starts within the total arity |
| InstantiationProperties.TupleLoopOk | dcargs/_instantiators.py:338-345 | the tuple loop succeeds iff every remaining part accepts its chunk |
| InstantiationProperties.TupleLoopItems | dcargs/_instantiators.py:338-345 | the tuple loop appends, for each part, what that part made of its chunk |
| InstantiationProperties.TupleLoopStep | dcargs/_instantiators.py:340-344 | a part that accepts its chunk appends its value and moves on by its arity; one that does not stops the loop with an error |
| InstantiationProperties.TupleArity | dcargs/_instantiators.py:334-335 | a fixed tuple given the wrong number of tokens fails its assertion |
| InstantiationProperties.TupleOffsets | dcargs/_instantiators.py:338-345 | the chunks are consecutive, non-overlapping and cover all tokens |
| InstantiationProperties.TupleAccepts | dcargs/_instantiators.py:334-345 | with the right count a tuple succeeds iff each part accepts its chunk |
| InstantiationProperties.TupleComponents | dcargs/_instantiators.py:334-345 | a successful tuple has one component per part, each that part's value of its chunk |
| InstantiationProperties.Converted | dcargs/_instantiators.py:552-557 | one converted element per chunk |
| InstantiationProperties.AllConvertMeaning | dcargs/_instantiators.py:552-557 | all chunks convert iff each chunk converts |
| InstantiationProperties.ConvertedAt | dcargs/_instantiators.py:552-557 | converted element k is what chunk k converts to |
| InstantiationProperties.SeqLoopOk | dcargs/_instantiators.py:552-557 | the sequence loop succeeds iff every remaining chunk converts |
| InstantiationProperties.SeqLoopItems | dcargs/_instantiators.py:552-557 | the sequence loop yields, in order, the converted chunks |
| InstantiationProperties.SeqChunksCount | dcargs/_instantiators.py:554 | with a divisible count, after j chunks `len / n - j` chunks remain |
| InstantiationProperties.SeqChunksAt | dcargs/_instantiators.py:554-555 | chunk k starts k steps of n after the loop's start |
| InstantiationProperties.SequenceNotDivisible | dcargs/_instantiators.py:545-550 | a token count the inner arity does not divide raises ValueError |
| InstantiationProperties.SequenceChunks | dcargs/_instantiators.py:552-557 | chunk k is exactly tokens `k*n` to `k*n+n` |
| InstantiationProperties.SequenceAccepts | dcargs/_instantiators.py:542-557 | with a divisible count a sequence succeeds iff every chunk converts |
| InstantiationProperties.SequenceElements | dcargs/_instantiators.py:542-557 | the result is the container of the converted chunks, `len / n` of them, in order |
| InstantiationProperties.PairChunks | dcargs/_instantiators.py:493-497 | one key/value token pair per remaining pair |
| InstantiationProperties.PairChunksAt | dcargs/_instantiators.py:493-497 | pair j is read k then v from j steps of `pair_nargs` after the start |
| InstantiationProperties.DictPairOk | dcargs/_instantiators.py:499-511 | a pair is accepted iff both choice checks pass and key and value convert, and then gives the entry of the converted key and value |
| InstantiationProperties.DictPairOrder | dcargs/_instantiators.py:499-511 | the key's choice check comes first, then the value's, then the value is converted before the key |
| InstantiationProperties.AllPairsOkMeaning | dcargs/_instantiators.py:493-511 | all pairs are accepted iff each pair is |
| InstantiationProperties.PairEntries | dcargs/_instantiators.py:493-511 | one entry per accepted pair |
| InstantiationProperties.PairEntriesAt | dcargs/_instantiators.py:493-511 | entry c is what pair c gives |
| InstantiationProperties.PairEntriesFirst | dcargs/_instantiators.py:493-511 | the first pair's entry heads the entries |
| InstantiationProperties.LastValueAbsent | dcargs/_instantiators.py:511 | no value exactly when no pair has the key |
| InstantiationProperties.LastValueFrom | dcargs/_instantiators.py:511 | the value comes from a pair with that key after which no pair has it |
| InstantiationProperties.StoreLast | dcargs/_instantiators.py:511 | storing one more entry keeps every key on the value of its last entry |
| InstantiationProperties.StoreAllCons | dcargs/_instantiators.py:511 | storing the entries is storing the first, then the rest |
| InstantiationProperties.StoreAllDistinct | dcargs/_instantiators.py:511 | storing entries keeps the keys distinct |
| InstantiationProperties.StoreAllLookup | dcargs/_instantiators.py:511 | after storing, each key holds the value of the last entry naming it |
| InstantiationProperties.DictLoopItems | dcargs/_instantiators.py:493-511 | when every pair is accepted the dict loop stores their entries in order |
| InstantiationProperties.DictLoopOk | dcargs/_instantiators.py:493-511 | the dict loop succeeds iff every remaining pair is accepted |
| InstantiationProperties.DictZeroArity | dcargs/_instantiators.py:488-489 | key and value arities adding up to zero divide by zero |
| InstantiationProperties.DictIncompletePairs | dcargs/_instantiators.py:489-490 | a token count that is not a whole number of pairs raises "incomplete set of key value pairs" |
| InstantiationProperties.DictAccepts | dcargs/_instantiators.py:487-512 | with whole pairs a dict succeeds iff every pair passes its choice checks and converts |
| InstantiationProperties.DictLastWins | dcargs/_instantiators.py:487-512 | a successful dict has distinct keys and a later duplicate key overwrites the earlier value |
| InstantiationProperties.UnionLoopNone | dcargs/_instantiators.py:431-457 | options that are not used each add one error, in order |
| InstantiationProperties.UnionLoopFirst | dcargs/_instantiators.py:431-457 | the first used option decides the loop's result |
| InstantiationProperties.UnionNoOption | dcargs/_instantiators.py:429-457 | when no option is used the union raises ValueError listing one error per option, in order |
| InstantiationProperties.UnionFirstOption | dcargs/_instantiators.py:429-457 | the first option whose choices and arity fit and which does not raise gives the union's result |
| InstantiationProperties.UnionResultFromOption | dcargs/_instantiators.py:429-457 | every union result comes from an option whose choices and arity fit |
| InstantiationProperties.FirstTaker | dcargs/_instantiators.py:431-445 | the first option that is used |
| InstantiationProperties.WrapAllBraces | dcargs/_instantiators.py:382-384 | a part with a space is wrapped in braces, the others are unchanged |
| InstantiationProperties.MergeStepLast | dcargs/_instantiators.py:370-381 | after one merge step the last metavar is a brace group iff the current one is |
| InstantiationProperties.MergedLast | dcargs/_instantiators.py:368-381 | the merged list ends in a brace group iff the input does |
| InstantiationProperties.MergedNoAdjacent | dcargs/_instantiators.py:368-381 | after merging no two neighbours are both brace groups |
| InstantiationProperties.MergedLength | dcargs/_instantiators.py:368-381 | merging never lengthens the list |
| InstantiationProperties.MergedPlain | dcargs/_instantiators.py:368-381 | a list without brace groups is left unchanged |
| InstantiationProperties.Inside | dcargs/_instantiators.py:379 | helper: the text between the braces of a brace group, which it was wrapped in |
| InstantiationProperties.Insides | dcargs/_instantiators.py:379 | helper: one inside per brace group of a run |
| InstantiationProperties.RenderAll | dcargs/_instantiators.py:368-381 | helper: one rendered metavar per group |
| InstantiationProperties.GroupStep | dcargs/_instantiators.py:370-381 | helper: one step of cutting the metavars into groups never leaves the groups empty |
| InstantiationProperties.Groups | dcargs/_instantiators.py:368-381 | helper: a non-empty metavar list has at least one group |
| InstantiationProperties.FlattenSnoc | dcargs/_instantiators.py:368-381 | helper: flattening one more group appends its metavars |
| InstantiationProperties.GroupStepFlatten | dcargs/_instantiators.py:370-381 | helper: one step appends exactly the current metavar |
| InstantiationProperties.GroupsFlatten | dcargs/_instantiators.py:368-381 | the groups hold exactly the metavars, in order, so non-brace metavars survive in order |
| InstantiationProperties.GroupStepShape | dcargs/_instantiators.py:370-381 | helper: one step keeps every group a brace run or a single other metavar |
| InstantiationProperties.GroupsShape | dcargs/_instantiators.py:368-381 | every group is a run of brace groups or one other metavar |
| InstantiationProperties.GroupStepMaximal | dcargs/_instantiators.py:370-381 | helper: one step keeps neighbouring brace runs apart |
| InstantiationProperties.GroupsMaximal | dcargs/_instantiators.py:368-381 | the runs are maximal: no two neighbouring groups are both brace runs |
| InstantiationProperties.RenderSingle | dcargs/_instantiators.py:368-381 | a group of one metavar renders as that metavar |
| InstantiationProperties.MergeBraces | dcargs/_instantiators.py:379 | helper: `{j}` cut before its last character, a comma and `{y}` after its first give `{j,y}` |
| InstantiationProperties.RenderExtend | dcargs/_instantiators.py:376-379 | the merge step `prev[:-1] + "," + curr[1:]` turns a rendered run into the rendering of the longer run |
| InstantiationProperties.RenderBraced | dcargs/_instantiators.py:376-381 | a rendered group is a brace group exactly when the group is a brace run |
| InstantiationProperties.MergedGroups | dcargs/_instantiators.py:368-381 | the merged list is the groups rendered in order: each maximal run of brace groups becomes one brace group of their insides joined by commas, and every other metavar is kept as it is |
| InstantiationProperties.WrapUnspaced | dcargs/_instantiators.py:383-385 | a metavar without a space is not wrapped |
| InstantiationProperties.WrapSpaced | dcargs/_instantiators.py:383-385 | a metavar with a space is wrapped in braces |
| InstantiationProperties.JoinTwo | dcargs/_instantiators.py:368-387 | two metavars that are not both brace groups are each wrapped if spaced and joined by `|` |
| InstantiationProperties.JoinWrapsSpaced | dcargs/_instantiators.py:368-387 | an unspaced metavar and a spaced one join to `a|{b}` |
| InstantiationProperties.JoinUnionMetavarsPlain | dcargs/_instantiators.py:354-387 | `None, INT` joins to `None|INT` |
| InstantiationProperties.JoinUnionMetavarsMerges | dcargs/_instantiators.py:359 | `{0,1,2}, {3,4}` joins to `{0,1,2,3,4}` |
| InstantiationProperties.JoinUnionMetavarsMergesThenJoins | dcargs/_instantiators.py:360 | `{0,1,2}, {3,4}, STR` joins to `{0,1,2,3,4}|STR` |
| InstantiationProperties.JoinUnionMetavarsWrapsNone | dcargs/_instantiators.py:361 | `{None}, INT [INT ...]` joins to `{None}|{INT [INT ...]}` |
| InstantiationProperties.JoinUnionMetavarsWrapsSequence | dcargs/_instantiators.py:362 | `STR, INT [INT ...]` joins to `STR|{INT [INT ...]}` |
| InstantiationProperties.JoinUnionMetavarsWrapsTuple | dcargs/_instantiators.py:363 | `STR, INT INT` joins to `STR|{INT INT}` |
| Values.DictPut | dcargs/_instantiators.py:511 | definition of `out[k] = v` on an insertion-ordered dict (partners: `DictPutLookup`, `DictPutDistinct`, `DictPutFrom`) |
| Values.MakeContainer | dcargs/_instantiators.py:556-557 | definition of `container_type(out)`: sets keep one copy of each element, the last one, by structural equality (partner: `Dedup`) |
| Values.DictPutLookup | dcargs/_instantiators.py:511 | `out[k] = v` makes `k` map to `v` and leaves every other key alone |
| Values.DictPutDistinct | dcargs/_instantiators.py:511 | `out[k] = v` keeps keys distinct and adds only the entry for `k` |
| Values.DictPutFrom | dcargs/_instantiators.py:511 | `out[k] = v` adds no entry other than the one for `k` |
| Values.Dedup | dcargs/_instantiators.py:556-557 | building a set keeps exactly the same elements, each once |
| Text.EscapePercent | dcargs/_arguments.py:279-283 | escaping never shortens the text and leaves only empty text empty |
| Text.EscapePercentRoundTrip | dcargs/_arguments.py:279-283 | every `%` became `%%` and nothing else changed: unescaping gives the docstring back |
| Text.EscapeWithoutPercent | dcargs/_arguments.py:279-283 | a docstring without `%` is left as it is |
| Text.Upper | dcargs/_instantiators.py:216 | `typ.__name__.upper()` on ASCII: the same length, each lower-case ASCII letter replaced by its upper-case one and every other character kept |
| Text.JoinSnoc | dcargs/_instantiators.py:379-387 | helper: joining one more part appends the separator and that part |
| Text.DigitChar | dcargs/_arguments.py:253-254 | helper: the digit character of a number below ten |
| Text.NatText | dcargs/_arguments.py:253-254 | `str(n)` of a non-negative int: non-empty, decimal digits only, no leading zero |
| Text.NatTextValue | dcargs/_arguments.py:253-254 | `int(str(n)) == n`: the decimal text reads back as the number |
| Arguments.PatchedList.Contains | dcargs/_arguments.py:47-48 | definition of `_PatchedList.__contains__`: in the list, or `MISSING_NONPROP` (partner: `AddArgument`) |
| Arguments.Lowered.IsFixed | dcargs/_arguments.py:114-119 | definition of `is_fixed`: no instantiator (partner: `FixedArguments`) |
| Arguments.HandleDefaults | dcargs/_arguments.py:136-146 | definition of rule 1: a missing default becomes None with `required=True`, any other default is copied (partner: `RequiredArguments`) |
| Arguments.HandleBooleanFlags | dcargs/_arguments.py:149-181 | definition of rule 2: a bool field with a default, not positional and without FLAG_CONVERSION_OFF becomes `store_true`/`store_false`, or fails its assertion, with a message that names no field, when the default is not a bool (partners: `FlagPolarity`, `BoolDefaultRejected`, `NonFlagsUntouched`) |
| Arguments.RecursiveInstantiator | dcargs/_arguments.py:184-234 | definition of rule 3: FIXED or an unsupported type with a default fixes the argument; an unsupported type without one raises; a built type sets instantiator, choices, nargs and metavar (partners: `FixedArguments`, `UnsupportedRejected`, `BuiltArguments`) |
| Arguments.AsStr | dcargs/_arguments.py:244-254 | definition of `as_str`: a string is itself, an enum its name, a mapping and a sequence (bytes included) the tokens of their elements, anything else `str(x)` (partners: the `DefaultRoundTrips` lemmas) |
| Arguments.ConvertDefaults | dcargs/_arguments.py:237-263 | definition of rule 4: a default that is not None, not missing and not a flag's becomes the tuple of its `as_str` tokens (partner: `DefaultsAsTokens`) |
| Arguments.DefaultText | dcargs/_arguments.py:297-318 | definition of the default part of the help: fixed, flag, unset, iterable or plain default text (partners: `FixedArguments`, `FlagPolarity`, `DefaultsAsTokens`, `DefaultExcludedHelp`) |
| Arguments.GenerateHelptext | dcargs/_arguments.py:266-323 | definition of rule 5: SUPPRESS, the escaped docstring followed by `(required)` or the default text (partners: `SuppressedHelp`, `DocstringEscaped`, `NoHelpAssertion`) |
| Arguments.SetNameOrFlag | dcargs/_arguments.py:326-343 | definition of rule 6: the positional name, or the `--` flag with `no-` for `store_false`, and the dest (partner: `Names`) |
| Arguments.PositionalSpecialHandling | dcargs/_arguments.py:346-351 | definition of rule 7: positionals lose dest and required; optional ones get `?`/`*` and a bracketed metavar (partners: `BuiltArguments`, `NonPositionalUntouched`) |
| Arguments.Lower | dcargs/_arguments.py:85-97 | definition of `lowered`: the seven rules in order from the default record, stopping at the first error (partner: `LastRules`) |
| Arguments.AllKwsComplete | dcargs/_arguments.py:65 | the keyword set covers every field of the lowered record |
| Arguments.SetFields | dcargs/_arguments.py:65-67 | the keyword dictionary holds exactly the non-None fields other than the instantiator, with their values |
| Arguments.AddArgument | dcargs/_arguments.py:59-79 | no instantiator or name keyword; default always `MISSING_NONPROP`; the other keywords are exactly the non-None fields; choices become a patched list that admits the default; an empty name becomes the dummy field name |
| ArgumentProperties.FlagTypeBuilds | dcargs/_arguments.py:153-162 | a type that resolves to `bool` has an instantiator |
| ArgumentProperties.FixedHasMissingDefault | dcargs/_arguments.py:114-119 | after rules 1 to 4 a fixed argument has default `MISSING_PROP` |
| ArgumentProperties.NoHelpAssertion | dcargs/_arguments.py:287-291 | the assertion in help generation never fails |
| ArgumentProperties.FixedArguments | dcargs/_arguments.py:184-234 | fixed iff marked FIXED, or not a flag candidate and its type does not build; then no instantiator, default `MISSING_PROP`, not required, metavar `{fixed}` (bracketed when positional), help `(fixed to: ...)` |
| ArgumentProperties.BoolDefaultRejected | dcargs/_arguments.py:149-181 | a flag candidate with a default that is not a bool fails the assertion, and only then; its message is the literal text `Expected a boolean as a default for {arg.field.name}, but got {lowered.default}.`, the same for every field |
| ArgumentProperties.UnsupportedRejected | dcargs/_arguments.py:207-216 | an unsupported type without a default and without FIXED raises, naming the field, and only then |
| ArgumentProperties.EmptyUnionCrashes | dcargs/_arguments.py:207-209 | an empty union crashes the pipeline exactly when the argument is not fixed |
| ArgumentProperties.NonFlagsUntouched | dcargs/_arguments.py:153-162 | missing default, positional, FLAG_CONVERSION_OFF or a non-bool type leave the record unchanged |
| ArgumentProperties.ActionOnlyForFlags | dcargs/_arguments.py:149-181 | an action is set exactly for flag candidates |
| ArgumentProperties.FlagPolarity | dcargs/_arguments.py:163-177 | default False gives `store_true`, True gives `store_false` with a `no-` flag; identity instantiator, not required, no nargs, default kept, help `(sets: name=...)` |
| ArgumentProperties.RequiredArguments | dcargs/_arguments.py:141-146 | a missing default makes a non-fixed argument required with default None and help `(required)`; positionals pass no `required` |
| ArgumentProperties.Names | dcargs/_arguments.py:326-343 | positional name without `--`; `store_false` gets `--` and `no-`; others `--`; dest is the field name (cleared for positionals) |
| ArgumentProperties.BuiltArguments | dcargs/_arguments.py:217-234 | a buildable non-flag type gives its instantiator, choices, nargs and metavar; an optional positional gets `?` or `*` and a bracketed metavar |
| ArgumentProperties.NonPositionalUntouched | dcargs/_arguments.py:350-351 | the positional rule leaves keyword arguments unchanged |
| ArgumentProperties.StrTupleTokens | dcargs/_arguments.py:244-263 | iterating the token tuple gives back its strings |
| ArgumentProperties.BuiltDefaults | dcargs/_arguments.py:136-263 | for a non-fixed, non-flag argument of a built type, rules 1 to 4 give the record of that build with the converted default |
| ArgumentProperties.LastRules | dcargs/_arguments.py:266-351 | once help generation succeeds, the pipeline succeeds with that help and the default of rule 4 |
| ArgumentProperties.DefaultsAsTokens | dcargs/_arguments.py:237-323 | a non-None default of a built type becomes the token tuple of `as_str`, with help `(default: t1 t2 ...)` |
| ArgumentProperties.DefaultNoneHelp | dcargs/_arguments.py:256-318 | a None default stays None, with help `(default: None)` |
| ArgumentProperties.DefaultExcludedHelp | dcargs/_arguments.py:256-306 | EXCLUDE_FROM_CALL becomes the token tuple of its text, with help `(unset by default)` |
| ArgumentProperties.SuppressedHelp | dcargs/_arguments.py:273-274 | SUPPRESS sets the help to SUPPRESS and nothing else |
| ArgumentProperties.DocstringEscaped | dcargs/_arguments.py:277-283 | the docstring contributes one part iff it is non-empty, with every `%` doubled |
| DefaultRoundTrips.StrRoundTrip | dcargs/_arguments.py:245-246 | a string default's tokens convert back to it |
| DefaultRoundTrips.EnumRoundTrip | dcargs/_arguments.py:247-248 | an enum default's token (its name) converts back to the member |
| DefaultRoundTrips.BoolRoundTrip | dcargs/_arguments.py:253-254 | a bool default's token converts back to it |
| DefaultRoundTrips.AsStrItemsStrings | dcargs/_arguments.py:251-252 | a sequence of strings flattens to those strings |
| DefaultRoundTrips.StringsAsStr | dcargs/_arguments.py:251-252 | a sequence of strings becomes its strings |
| DefaultRoundTrips.BytesAsStr | dcargs/_arguments.py:251-252 | a `bytes` default is a sequence of ints: one decimal token per byte, each reading back as that byte, the same tokens the help text lists |
| DefaultRoundTrips.BytesExample | dcargs/_arguments.py:251-252 | `b"ab"` becomes the tokens `97 98` |
| DefaultRoundTrips.SingleChunks | dcargs/_instantiators.py:552-557 | with arity 1 chunk k is the k-th token |
| DefaultRoundTrips.StringsBuild | dcargs/_instantiators.py:522-563 | a list, tuple or deque of `str` builds the sequence instantiator over one-token `str` elements |
| DefaultRoundTrips.StringsParse | dcargs/_instantiators.py:542-557 | that instantiator gives back the container of the given strings |
| DefaultRoundTrips.StringsRoundTrip | dcargs/_arguments.py:244-263 | a list, tuple or deque of strings as default converts back to itself through its instantiator |
| TestVectors.StrToIntBuilds | dcargs/_instantiators.py:466-519 | `Dict[str, int]` takes one token per key and one per value |
| TestVectors.ExamplePairs | dcargs/_instantiators.py:499-511 | `hey 5` and `hello 2` are accepted pairs, `hello hey` fails converting `hey` to int |
| TestVectors.DictAcceptedRun | tests/test_dict_namedtuple.py:18-21 | the built dict instantiator turns `hey 5 hello 2` into `{"hey": 5, "hello": 2}` |
| TestVectors.DictBadValueRun | tests/test_dict_namedtuple.py:26-27 | the built dict instantiator fails on `hey 5 hello hey`, converting `hey` to int |
| TestVectors.DictAccepted | tests/test_dict_namedtuple.py:18-21 | `hey 5 hello 2` gives `{"hey": 5, "hello": 2}` |
| TestVectors.DictBadValue | tests/test_dict_namedtuple.py:26-27 | `hey 5 hello hey` fails converting `hey` to int |
| TestVectors.DictIncomplete | tests/test_dict_namedtuple.py:28-29 | `hey 5 hello` is an incomplete set of pairs |
| TestVectors.PlainDocstringHelp | dcargs/_arguments.py:277-323 | a docstring without `%` is followed by the default text |
| TestVectors.ExampleDocsPlain | tests/test_dict_namedtuple.py:180-191 | helper: the two test docstrings are non-empty and have no `%` |
| TestVectors.RequiredHelp | tests/test_dict_namedtuple.py:189 | `x: int` without a default: `Documentation 1 (required)`, required, flag `--x` |
| TestVectors.DefaultHelpText | tests/test_dict_namedtuple.py:191 | helper: the text pieces for the default `3` concatenate to `Documentation 3 (default: 3)` |
| TestVectors.DefaultHelp | tests/test_dict_namedtuple.py:191 | `z: int = 3`: `Documentation 3 (default: 3)` |
| TestVectors.DefaultTokens | tests/test_dict_namedtuple.py:180-191 | the same field is optional and its default reaches argparse as `("3",)` |

## Left out

- Runtime reflection in `instantiator_from_type` (`inspect.signature`, `callable`, `_builtin_set`) is not modelled. A `Scalar` type carries one flag that says whether it is a valid `str -> T` converter.
- Scalar conversion `typ(string)`, float parsing and `bytes(string, encoding="ascii")` are the parameter `parse`, an uninterpreted partial function. A `None` result means it raised ValueError.
- The `_strings` helpers (`make_field_name`, `format_metavar`, `multi_metavar_from_single`, `dummy_field_name`) are the `Helpers` parameter. The `_strings` module is not part of this model, so the hyphen/underscore interchangeability that lives there is not checked.
- `termcolor.colored` and `shlex.quote` are treated as the identity on help and metavar text. They only add colour and quoting.
- `parser.add_argument` itself is an argparse call: the model stops at the name and the keyword dictionary passed to it.
- `_resolver.apply_type_from_typevar` is modelled as one lookup of the argument type in `type_from_typevar`. `_resolver` is not part of this model.
- Python's `str`/`repr` of values is approximated by `Values.Str` and `Values.Repr`. Enum members and collections are rendered structurally, not by Python's exact text.
- Text.Upper: upper-cases ASCII letters only. Python's `str.upper` applies the full Unicode case mapping (`ß` becomes `SS`), so a type name with non-ASCII letters gets a different metavar in the source.
- Values.Str: the `str()` of a `bytes` value shows each byte as the character of that code, without Python's `\x..` escapes.
- Set and frozenset containers keep the last occurrence of each element, in order (`Values.Dedup`), because Python's hash order is not modelled.
- Values.DictPut: keys are compared by structural equality of the value model. Python's `==` and hash across types (`1 == True`, `1 == 1.0`) and between floats (`0.0 == -0.0`) are not modelled, so `Dict[Union[int, bool], str]` on `1 a True b` gives two entries here and one in Python.
- Values.Dedup: set members are compared by the same structural equality, so `0.0` and `-0.0` stay two members here, where Python keeps one. Python's rule that `nan` is not equal to itself, which keeps two `nan` members, is not modelled either.
- The sentinel texts `MISSING_PROP`, `MISSING_NONPROP` and `EXCLUDE_FROM_CALL` are parameters (`Sentinels`), because `_fields` is not part of this model. They are treated as non-iterable values.
- Type-variable bindings must be acyclic (`Ranked`), so that resolution terminates. The source assumes this without checking.
- `cached_property` memoisation of `lowered` is not modelled, because it does not change results.
- Value assembly, subcommands, `_fields`, `_calling`, `_parsers` and serialisation are not part of this model. This includes argparse's own rejection of `--params` with no tokens (tests/test_dict_namedtuple.py:30-31).
- Markers other than FIXED, POSITIONAL, SUPPRESS and FLAG_CONVERSION_OFF are not modelled, because these rules read no others.
- `TestVectors.ExampleParse` is a stand-in for `str` and `int` on decimal literals. It is used only by the test vectors.
