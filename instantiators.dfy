/**
 * dcargs' instantiator factory (`dcargs/_instantiators.py`): from a type annotation it
 * builds an instantiator, a function from command-line tokens to a typed value, and the
 * metadata (`nargs`, `metavar`, `choices`) handed on to argparse.
 *
 * Each Python closure is represented by the variables it captures (`Instantiator`), and
 * `Apply` is what calling it does. Construction errors (`BuildError`, whose `Unsupported`
 * case is `UnsupportedTypeAnnotationError`) are kept apart from the exceptions an
 * instantiator raises when it runs (`Error`).
 */
module Instantiators {
  import opened Wrappers
  import opened Text
  import opened Values
  import opened StringHelpers

  /** `InstantiatorMetadata.nargs`: an int, or "+". */
  datatype Nargs = Exactly(n: nat) | Plus

  datatype Metadata = Metadata(nargs: Nargs, metavar: string, choices: Option<seq<string>>)

  /** The type annotations the factory dispatches on. */
  datatype Type =
    | NoneT
    | Bool
    | Enum(enumName: string, members: seq<string>)
    /** Any other class; `isConverter` says whether it passes the `(arg: str) -> T` checks. */
    | Scalar(typeName: string, isConverter: bool)
    | Literal(values: seq<PyValue>)
    | FixedTuple(elems: seq<Type>)
    /** list, set, frozenset, deque, Sequence (a list) and `Tuple[T, ...]`. */
    | Seq(container: Container, elem: Type)
    | Dict(key: Type, val: Type)
    | Union(options: seq<Type>)
    | TypeVar(name: string)
    | Any
    /** `Annotated[T, ...]` and `Final[T]`. */
    | Annotated(inner: Type)

  /** The three kinds of type `instantiator_base_case` handles. */
  datatype Base = BoolBase | EnumBase(enumName: string, members: seq<string>) | ScalarBase(typeName: string)

  /** A closure returned by the factory, as the variables it captures. */
  datatype Instantiator =
    | NoneInst
    | BaseInst(base: Base)
    | LiteralInst(values: seq<PyValue>, texts: seq<string>)
    | TupleInst(parts: seq<Part>, nargs: nat)
    | UnionInst(parts: seq<Part>)
    | DictInst(key: Part, keyNargs: nat, val: Part, valNargs: nat)
    | SeqInst(container: Container, inner: Part)

  /** An element type together with what the factory built for it. */
  datatype Part = Part(typ: Type, inst: Instantiator, meta: Metadata)

  datatype Built = Built(inst: Instantiator, meta: Metadata)

  datatype UnsupportedReason =
    | AnyNotParsable
    | NotAConverter(typeName: string)
    | NotCallable(varName: string)
    | VariableLengthNested(typ: Type)

  datatype BuildError =
    | Unsupported(reason: UnsupportedReason)
    /** `metavars[0]` on a union without options. */
    | BuildIndexError

  /** Why one option of a union was passed over. */
  datatype OptionError =
    | ChoiceMismatch(option: Type)
    | ArityMismatch(option: Type, count: nat)
    | Raised(option: Type, reason: ValueReason)

  datatype ValueReason =
    | InvalidChoice(strings: seq<string>)
    | UnpackMismatch(count: nat)
    | ConversionFailed(typeName: string, text: string)
    | NotInLiteral(text: string)
    | IncompletePairs
    | NotDivisible(count: nat, divisor: nat)
    | NoOptionMatched(errors: seq<OptionError>)

  /** The exceptions an instantiator can raise. Unions only catch `ValueError`. */
  datatype Error =
    | ValueError(reason: ValueReason)
    | AssertionError
    | KeyError(key: string)
    | IndexError
    | ZeroDivisionError

  /** `typ(string)` for a scalar class: the converted value, or None for a ValueError. */
  type ScalarParser = (string, string) -> Option<PyValue>

  /** Python's `s[i:j]`, which clamps to the sequence. */
  function Slice<T>(s: seq<T>, i: nat, j: nat): (r: seq<T>)
    ensures i <= j <= |s| ==> r == s[i..j]
  {
    var lo := if i <= |s| then i else |s|;
    var hi := if j <= lo then lo else if j <= |s| then j else |s|;
    s[lo..hi]
  }

  // ---------------------------------------------------------------------------
  // Choices
  // ---------------------------------------------------------------------------

  predicate AllIn(xs: seq<string>, ys: seq<string>)
  {
    xs == [] || (xs[0] in ys && AllIn(xs[1..], ys))
  }

  lemma {:induction false} AllInMeaning(xs: seq<string>, ys: seq<string>)
    ensures AllIn(xs, ys) <==> forall x :: x in xs ==> x in ys
  {
    if xs != [] {
      AllInMeaning(xs[1..], ys);
      assert forall x :: x in xs <==> x == xs[0] || x in xs[1..];
    }
  }

  /** `InstantiatorMetadata.check_choices`. */
  function CheckChoices(meta: Metadata, strings: seq<string>): Result<(), Error>
  {
    match meta.choices
    case None => Ok(())
    case Some(choices) => if !AllIn(strings, choices) then Err(ValueError(InvalidChoice(strings))) else Ok(())
  }

  /** `check_choices` raises iff there are choices and some token is not among them. */
  lemma CheckChoicesMeaning(meta: Metadata, strings: seq<string>)
    ensures CheckChoices(meta, strings).Err? <==> meta.choices.Some? && exists s :: s in strings && s !in meta.choices.value
    ensures CheckChoices(meta, strings).Err? ==> CheckChoices(meta, strings).error == ValueError(InvalidChoice(strings))
  {
    if meta.choices.Some? {
      AllInMeaning(strings, meta.choices.value);
    }
  }

  // ---------------------------------------------------------------------------
  // Termination of type-variable resolution
  // ---------------------------------------------------------------------------

  function MaxOf(s: seq<nat>): nat
  {
    if s == [] then 0 else if s[0] >= MaxOf(s[1..]) then s[0] else MaxOf(s[1..])
  }

  lemma {:induction false} MaxOfBound(s: seq<nat>, i: nat)
    requires i < |s|
    ensures s[i] <= MaxOf(s)
  {
    if i > 0 { MaxOfBound(s[1..], i - 1); }
  }

  /** The largest rank of a type variable occurring in `t`. */
  ghost function VarRank(t: Type, rank: map<string, nat>): nat
  {
    match t
    case TypeVar(v) => if v in rank then rank[v] else 0
    case FixedTuple(ts) => MaxOf(seq(|ts|, i requires 0 <= i < |ts| => VarRank(ts[i], rank)))
    case Union(ts) => MaxOf(seq(|ts|, i requires 0 <= i < |ts| => VarRank(ts[i], rank)))
    case Seq(_, e) => VarRank(e, rank)
    case Dict(k, v) => if VarRank(k, rank) >= VarRank(v, rank) then VarRank(k, rank) else VarRank(v, rank)
    case Annotated(e) => VarRank(e, rank)
    case _ => 0
  }

  /**
   * The binding map is acyclic: every bound type only mentions type variables of a
   * strictly smaller rank. Without this, resolving a type variable need not terminate.
   */
  ghost predicate Ranked(env: map<string, Type>, rank: map<string, nat>)
  {
    forall v :: v in env ==> v in rank && VarRank(env[v], rank) < rank[v]
  }

  function Elements(t: Type): seq<Type>
  {
    match t
    case FixedTuple(ts) => ts
    case Union(ts) => ts
    case _ => []
  }

  lemma ElementRank(parent: Type, t: Type, rank: map<string, nat>)
    requires parent.FixedTuple? || parent.Union?
    requires t in Elements(parent)
    ensures VarRank(t, rank) <= VarRank(parent, rank)
  {
    var ts := Elements(parent);
    var i :| 0 <= i < |ts| && ts[i] == t;
    var s := seq(|ts|, j requires 0 <= j < |ts| => VarRank(ts[j], rank));
    MaxOfBound(s, i);
  }

  // ---------------------------------------------------------------------------
  // Construction: instantiator_from_type and its helpers
  // ---------------------------------------------------------------------------

  function BraceJoin(h: Helpers, names: seq<string>): string
  {
    "{" + Join(",", seq(|names|, i requires 0 <= i < |names| => h.formatMetavar(names[i]))) + "}"
  }

  /** `instantiator_from_type`. */
  function FromType(t: Type, env: map<string, Type>, ghost rank: map<string, nat>, h: Helpers): Result<Built, BuildError>
    requires Ranked(env, rank)
    decreases VarRank(t, rank), t, 3, 0
  {
    if t.TypeVar? && t.name in env then
      FromType(env[t.name], env, rank, h)
    else
      match t
      case Any => Err(Unsupported(AnyNotParsable))
      case NoneT => Ok(Built(NoneInst, Metadata(Exactly(1), "{" + h.formatMetavar("None") + "}", Some(["None"]))))
      case Annotated(inner) => FromType(inner, env, rank, h)
      case Seq(c, elem) => FromSequence(t, env, rank, h)
      case FixedTuple(elems) => FromTuple(t, env, rank, h)
      case Dict(k, v) => FromDict(t, env, rank, h)
      case Union(options) => FromUnion(t, env, rank, h)
      case Literal(values) => Ok(FromLiteral(values, h))
      case TypeVar(v) => Err(Unsupported(NotCallable(v)))
      case Scalar(name, ok) =>
        if !ok then Err(Unsupported(NotAConverter(name)))
        else Ok(Built(BaseInst(ScalarBase(name)), Metadata(Exactly(1), h.formatMetavar(Upper(name)), None)))
      case Bool => Ok(Built(BaseInst(BoolBase), Metadata(Exactly(1), BraceJoin(h, ["True", "False"]), Some(["True", "False"]))))
      case Enum(name, members) => Ok(Built(BaseInst(EnumBase(name, members)), Metadata(Exactly(1), BraceJoin(h, members), Some(members))))
  }

  /** `_instantiator_from_type_inner`; `fixedLength` is `allow_sequences="fixed_length"`. */
  function FromInner(t: Type, env: map<string, Type>, ghost rank: map<string, nat>, h: Helpers, fixedLength: bool): (r: Result<Built, BuildError>)
    requires Ranked(env, rank)
    decreases VarRank(t, rank), t, 4, 0
  {
    var out :- FromType(t, env, rank, h);
    if fixedLength && out.meta.nargs.Plus? then Err(Unsupported(VariableLengthNested(t))) else Ok(out)
  }

  /** `_instantiator_from_sequence`. */
  function FromSequence(t: Type, env: map<string, Type>, ghost rank: map<string, nat>, h: Helpers): Result<Built, BuildError>
    requires Ranked(env, rank) && t.Seq?
    decreases VarRank(t, rank), t, 2, 0
  {
    var inner :- FromInner(t.elem, env, rank, h, true);
    Ok(Built(SeqInst(t.container, Part(t.elem, inner.inst, inner.meta)),
             Metadata(Plus, h.multiMetavarFromSingle(inner.meta.metavar), inner.meta.choices)))
  }

  /** `_instantiator_from_dict`. */
  function FromDict(t: Type, env: map<string, Type>, ghost rank: map<string, nat>, h: Helpers): Result<Built, BuildError>
    requires Ranked(env, rank) && t.Dict?
    decreases VarRank(t, rank), t, 2, 0
  {
    var k :- FromInner(t.key, env, rank, h, true);
    var v :- FromInner(t.val, env, rank, h, true);
    Ok(Built(DictInst(Part(t.key, k.inst, k.meta), Count(k.meta.nargs), Part(t.val, v.inst, v.meta), Count(v.meta.nargs)),
             Metadata(Plus, h.multiMetavarFromSingle(k.meta.metavar + " " + v.meta.metavar), None)))
  }

  /** The integer of an `nargs` that the fixed-length check has already vetted. */
  function Count(n: Nargs): nat
  {
    if n.Exactly? then n.n else 0
  }

  /** The element instantiators of a union or tuple, built left to right. */
  function BuildParts(parent: Type, ts: seq<Type>, env: map<string, Type>, ghost rank: map<string, nat>, h: Helpers,
                      fixedLength: bool, i: nat): Result<seq<Part>, BuildError>
    requires Ranked(env, rank)
    requires parent.FixedTuple? || parent.Union?
    requires forall j :: 0 <= j < |ts| ==> ts[j] in Elements(parent)
    decreases VarRank(parent, rank), parent, 1, |ts| - i
  {
    if i >= |ts| then Ok([])
    else
      ElementRank(parent, ts[i], rank);
      var b :- FromInner(ts[i], env, rank, h, fixedLength);
      var rest :- BuildParts(parent, ts, env, rank, h, fixedLength, i + 1);
      Ok([Part(ts[i], b.inst, b.meta)] + rest)
  }

  /** `nargs` after `nargs += b.nargs` has run over `parts`. */
  function SumNargs(parts: seq<Part>): nat
  {
    if parts == [] then 0 else SumNargs(parts[..|parts| - 1]) + Count(parts[|parts| - 1].meta.nargs)
  }

  function Metavars(parts: seq<Part>): seq<string>
  {
    seq(|parts|, i requires 0 <= i < |parts| => parts[i].meta.metavar)
  }

  /** `_instantiator_from_tuple` for a fixed-length tuple. */
  function FromTuple(t: Type, env: map<string, Type>, ghost rank: map<string, nat>, h: Helpers): Result<Built, BuildError>
    requires Ranked(env, rank) && t.FixedTuple?
    decreases VarRank(t, rank), t, 2, 0
  {
    var parts :- BuildParts(t, t.elems, env, rank, h, true, 0);
    var nargs := SumNargs(parts);
    Ok(Built(TupleInst(parts, nargs), Metadata(Exactly(nargs), Join(" ", Metavars(parts)), None)))
  }

  /** `options.remove(NoneType)`: drops the first occurrence of `x`. */
  function RemoveFirst(s: seq<Type>, x: Type): seq<Type>
  {
    if s == [] then [] else if s[0] == x then s[1..] else [s[0]] + RemoveFirst(s[1..], x)
  }

  /** Removing the first occurrence, found at `i`, cuts out exactly that element. */
  lemma {:induction false} RemoveFirstAt(s: seq<Type>, x: Type, i: nat)
    requires i < |s| && s[i] == x && x !in s[..i]
    ensures RemoveFirst(s, x) == s[..i] + s[i + 1..]
  {
    if i > 0 {
      assert s[0] in s[..i];
      assert s[1..][..i - 1] == s[1..i];
      RemoveFirstAt(s[1..], x, i - 1);
      assert s[..i] == [s[0]] + s[1..][..i - 1];
      assert s[i + 1..] == s[1..][i..];
    }
  }

  /** The union's options with `NoneType` moved to the front. */
  function NoneFirst(options: seq<Type>): seq<Type>
  {
    if NoneT in options then [NoneT] + RemoveFirst(options, NoneT) else options
  }

  lemma {:induction false} RemoveFirstSubset(s: seq<Type>, x: Type)
    ensures forall y :: y in RemoveFirst(s, x) ==> y in s
  {
    if s != [] && s[0] != x { RemoveFirstSubset(s[1..], x); }
  }

  /** One pass of the loop over `first` and `nargs` (407-424). */
  function NargsStep(state: (Nargs, bool), p: Part): (Nargs, bool)
  {
    var (nargs, first) := state;
    if p.typ == NoneT then state
    else if first then (p.meta.nargs, false)
    else if nargs != p.meta.nargs then (Plus, false)
    else (nargs, false)
  }

  /** `(nargs, first)` once the loop has run over `parts`. */
  function UnionNargs(parts: seq<Part>): (Nargs, bool)
  {
    if parts == [] then (Exactly(1), true)
    else NargsStep(UnionNargs(parts[..|parts| - 1]), parts[|parts| - 1])
  }

  /** `_instantiator_from_union`. */
  function FromUnion(t: Type, env: map<string, Type>, ghost rank: map<string, nat>, h: Helpers): Result<Built, BuildError>
    requires Ranked(env, rank) && t.Union?
    decreases VarRank(t, rank), t, 2, 0
  {
    var options := NoneFirst(t.options);
    RemoveFirstSubset(t.options, NoneT);
    var parts :- BuildParts(t, options, env, rank, h, false, 0);
    if parts == [] then Err(BuildIndexError)
    else Ok(Built(UnionInst(parts), Metadata(UnionNargs(parts).0, JoinUnionMetavars(Metavars(parts)), None)))
  }

  /** `x.name if isinstance(x, enum.Enum) else str(x)`. */
  function LiteralText(x: PyValue): string
  {
    if x.PyEnum? then x.member else Str(x)
  }

  /** `_instantiator_from_literal`. */
  function FromLiteral(values: seq<PyValue>, h: Helpers): Built
  {
    var texts := seq(|values|, i requires 0 <= i < |values| => LiteralText(values[i]));
    Built(LiteralInst(values, texts), Metadata(Exactly(1), BraceJoin(h, texts), Some(texts)))
  }

  // ---------------------------------------------------------------------------
  // _join_union_metavars
  // ---------------------------------------------------------------------------

  /** One step of the merge loop: adjacent `{...}` groups become one group. */
  function MergeStep(merged: seq<string>, curr: string): seq<string>
    requires |merged| > 0
  {
    var prev := merged[|merged| - 1];
    if IsBraced(prev) && IsBraced(curr)
    then merged[..|merged| - 1] + [prev[..|prev| - 1] + "," + curr[1..]]
    else merged + [curr]
  }

  /** `merged_metavars` after the first loop has consumed all of `metavars`. */
  function Merged(metavars: seq<string>): (r: seq<string>)
    requires |metavars| > 0
    ensures |r| > 0
  {
    if |metavars| == 1 then [metavars[0]]
    else MergeStep(Merged(metavars[..|metavars| - 1]), metavars[|metavars| - 1])
  }

  function WrapIfSpaced(m: string): string
  {
    if ' ' in m then "{" + m + "}" else m
  }

  function WrapAll(ms: seq<string>): (r: seq<string>)
    ensures |r| == |ms|
  {
    seq(|ms|, i requires 0 <= i < |ms| => WrapIfSpaced(ms[i]))
  }

  /** `_join_union_metavars`. */
  function JoinUnionMetavars(metavars: seq<string>): string
    requires |metavars| > 0
  {
    Join("|", WrapAll(Merged(metavars)))
  }

  // ---------------------------------------------------------------------------
  // Running an instantiator
  // ---------------------------------------------------------------------------

  function IndexOf(texts: seq<string>, s: string): (r: Option<nat>)
    ensures r.Some? ==> r.value < |texts| && texts[r.value] == s && s !in texts[..r.value]
    ensures r.None? <==> s !in texts
  {
    if texts == [] then None
    else if texts[0] == s then Some(0)
    else match IndexOf(texts[1..], s)
      case None => None
      case Some(k) => assert texts[..k + 1] == [texts[0]] + texts[1..][..k]; Some(k + 1)
  }

  /** `instantiator_base_case`. */
  function ApplyBase(base: Base, strings: seq<string>, parse: ScalarParser): Result<PyValue, Error>
  {
    if |strings| != 1 then Err(ValueError(UnpackMismatch(|strings|)))
    else
      var s := strings[0];
      match base
      case BoolBase =>
        if s == "True" then Ok(PyBool(true)) else if s == "False" then Ok(PyBool(false)) else Err(KeyError(s))
      case EnumBase(name, members) => if s in members then Ok(PyEnum(name, s)) else Err(KeyError(s))
      case ScalarBase(name) =>
        match parse(name, s)
        case Some(v) => Ok(v)
        case None => Err(ValueError(ConversionFailed(name, s)))
  }

  /** Whether `len(strings) == metadata.nargs or metadata.nargs == "+"`. */
  predicate ArityMatches(n: Nargs, count: nat)
  {
    n.Plus? || n.n == count
  }

  /** Python's `a // b` on the token counts the instantiators divide. */
  function FloorDiv(a: nat, b: nat): nat
    requires b > 0
  {
    a / b
  }

  /** Python's `a % b` on the token counts the instantiators divide. */
  function Mod(a: nat, b: nat): nat
    requires b > 0
  {
    a % b
  }

  /** Calling the closure `inst` on `strings`. */
  function Apply(inst: Instantiator, strings: seq<string>, parse: ScalarParser): Result<PyValue, Error>
    decreases inst, 1, 0
  {
    match inst
    case NoneInst => if strings == ["None"] then Ok(PyNone) else Err(AssertionError)
    case BaseInst(base) => ApplyBase(base, strings, parse)
    case LiteralInst(values, texts) =>
      if |strings| == 0 then Err(IndexError)
      else (match IndexOf(texts, strings[0])
            case None => Err(ValueError(NotInLiteral(strings[0])))
            case Some(k) => if k < |values| then Ok(values[k]) else Err(IndexError))
    case TupleInst(parts, nargs) =>
      if |strings| != nargs then Err(AssertionError)
      else
        var items :- TupleLoop(inst, strings, parse, 0, 0, []);
        Ok(PyCollection(TupleC, items))
    case UnionInst(parts) => UnionLoop(inst, strings, parse, 0, [])
    case DictInst(key, kn, val, vn) =>
      if kn + vn == 0 then Err(ZeroDivisionError)
      else if Mod(|strings|, kn + vn) != 0 then Err(ValueError(IncompletePairs))
      else
        var entries :- DictLoop(inst, strings, parse, 0, FloorDiv(|strings|, kn + vn), []);
        Ok(PyDict(entries))
    case SeqInst(container, inner) =>
      match inner.meta.nargs
      case Plus => Err(AssertionError)
      case Exactly(n) =>
        if n == 0 then Err(ZeroDivisionError)
        else if Mod(|strings|, n) != 0 then Err(ValueError(NotDivisible(|strings|, n)))
        else
          var items :- SeqLoop(inst, n, strings, parse, 0, []);
          Ok(MakeContainer(container, items))
  }

  /** The loop of `fixed_length_tuple_instantiator`: part `i` reads tokens from `index` on. */
  function TupleLoop(inst: Instantiator, strings: seq<string>, parse: ScalarParser, i: nat, index: nat, out: seq<PyValue>): Result<seq<PyValue>, Error>
    requires inst.TupleInst?
    decreases inst, 0, |inst.parts| - i
  {
    if i >= |inst.parts| then Ok(out)
    else
      var p := inst.parts[i];
      match p.meta.nargs
      case Plus => Err(AssertionError)
      case Exactly(n) =>
        var chunk := Slice(strings, index, index + n);
        var _ :- CheckChoices(p.meta, chunk);
        var v :- Apply(p.inst, chunk, parse);
        TupleLoop(inst, strings, parse, i + 1, index + n, out + [v])
  }

  /** The loop of `union_instantiator`, with the errors gathered so far. */
  function UnionLoop(inst: Instantiator, strings: seq<string>, parse: ScalarParser, i: nat, errors: seq<OptionError>): Result<PyValue, Error>
    requires inst.UnionInst?
    decreases inst, 0, |inst.parts| - i
  {
    if i >= |inst.parts| then Err(ValueError(NoOptionMatched(errors)))
    else
      var p := inst.parts[i];
      if CheckChoices(p.meta, strings).Err? then
        UnionLoop(inst, strings, parse, i + 1, errors + [ChoiceMismatch(p.typ)])
      else if ArityMatches(p.meta.nargs, |strings|) then
        match Apply(p.inst, strings, parse)
        case Ok(v) => Ok(v)
        case Err(e) =>
          if e.ValueError? then UnionLoop(inst, strings, parse, i + 1, errors + [Raised(p.typ, e.reason)])
          else Err(e)
      else
        UnionLoop(inst, strings, parse, i + 1, errors + [ArityMismatch(p.typ, |strings|)])
  }

  /** One pair of `dict_instantiator`: both choice checks, then the value, then the key. */
  function DictPair(inst: Instantiator, k: seq<string>, v: seq<string>, parse: ScalarParser): Result<Entry, Error>
    requires inst.DictInst?
    decreases inst, 0, 0
  {
    if CheckChoices(inst.key.meta, k).Err? then Err(ValueError(InvalidChoice(k)))
    else if CheckChoices(inst.val.meta, v).Err? then Err(ValueError(InvalidChoice(v)))
    else
      // Python evaluates the right-hand side of `out[key(k)] = val(v)` first.
      var value :- Apply(inst.val.inst, v, parse);
      var key :- Apply(inst.key.inst, k, parse);
      Ok(Entry(key, value))
  }

  /** The loop of `dict_instantiator`: `remaining` pairs are left, starting at `index`. */
  function DictLoop(inst: Instantiator, strings: seq<string>, parse: ScalarParser, index: nat, remaining: nat, out: seq<Entry>): Result<seq<Entry>, Error>
    requires inst.DictInst?
    decreases inst, 0, 1, remaining
  {
    if remaining == 0 then Ok(out)
    else
      var e :- DictPair(inst, Slice(strings, index, index + inst.keyNargs),
                        Slice(strings, index + inst.keyNargs, index + inst.keyNargs + inst.valNargs), parse);
      DictLoop(inst, strings, parse, index + inst.keyNargs + inst.valNargs, remaining - 1, DictPut(out, e.key, e.val))
  }

  /** With the right number of tokens, a tuple instantiator is its loop over the parts from the first one. */
  lemma ApplyTuple(inst: Instantiator, strings: seq<string>, parse: ScalarParser)
    requires inst.TupleInst? && |strings| == inst.nargs
    ensures var loop := TupleLoop(inst, strings, parse, 0, 0, []);
      Apply(inst, strings, parse) == if loop.Err? then Err(loop.error) else Ok(PyCollection(TupleC, loop.value))
  {
  }

  /** With a whole number of pairs, a dict instantiator is its loop over the pairs from the first one. */
  lemma ApplyDict(inst: Instantiator, strings: seq<string>, parse: ScalarParser)
    requires inst.DictInst? && inst.keyNargs + inst.valNargs > 0 && Mod(|strings|, inst.keyNargs + inst.valNargs) == 0
    ensures var loop := DictLoop(inst, strings, parse, 0, FloorDiv(|strings|, inst.keyNargs + inst.valNargs), []);
      Apply(inst, strings, parse) == if loop.Err? then Err(loop.error) else Ok(PyDict(loop.value))
  {
  }

  /** A pair that fails stops the dict loop with its error. */
  lemma DictLoopFails(inst: Instantiator, strings: seq<string>, parse: ScalarParser, index: nat, remaining: nat, out: seq<Entry>,
                      k: seq<string>, v: seq<string>)
    requires inst.DictInst? && remaining > 0
    requires k == Slice(strings, index, index + inst.keyNargs)
    requires v == Slice(strings, index + inst.keyNargs, index + inst.keyNargs + inst.valNargs)
    requires DictPair(inst, k, v, parse).Err?
    ensures DictLoop(inst, strings, parse, index, remaining, out) == Err(DictPair(inst, k, v, parse).error)
  {
  }

  /** A pair that passes is stored, and the dict loop goes on with the next pair. */
  lemma DictLoopPasses(inst: Instantiator, strings: seq<string>, parse: ScalarParser, index: nat, remaining: nat, out: seq<Entry>,
                       k: seq<string>, v: seq<string>)
    requires inst.DictInst? && remaining > 0
    requires k == Slice(strings, index, index + inst.keyNargs)
    requires v == Slice(strings, index + inst.keyNargs, index + inst.keyNargs + inst.valNargs)
    requires DictPair(inst, k, v, parse).Ok?
    ensures DictLoop(inst, strings, parse, index, remaining, out)
         == DictLoop(inst, strings, parse, index + inst.keyNargs + inst.valNargs, remaining - 1,
                     DictPut(out, DictPair(inst, k, v, parse).value.key, DictPair(inst, k, v, parse).value.val))
  {
  }

  /** The loop of `sequence_instantiator`, over `range(0, len(strings), n)`. */
  function SeqLoop(inst: Instantiator, n: nat, strings: seq<string>, parse: ScalarParser, i: nat, out: seq<PyValue>): Result<seq<PyValue>, Error>
    requires inst.SeqInst? && n > 0
    decreases inst, 0, |strings| - i
  {
    if i >= |strings| then Ok(out)
    else
      var v :- Apply(inst.inner.inst, Slice(strings, i, i + n), parse);
      SeqLoop(inst, n, strings, parse, i + n, out + [v])
  }
}
