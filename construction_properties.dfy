/**
 * What `instantiator_from_type` builds: type-variable transparency, the rejection of
 * `Any`, the metadata of the scalar cases, and the shape of tuple, sequence, dict and
 * union instantiators.
 */
module ConstructionProperties {
  import opened Wrappers
  import opened Text
  import opened Values
  import opened StringHelpers
  import opened Instantiators

  // ---------------------------------------------------------------------------
  // Type variables and Any
  // ---------------------------------------------------------------------------

  /** A bound type variable is built exactly as the type it is bound to. */
  lemma TypeVarTransparent(v: string, env: map<string, Type>, rank: map<string, nat>, h: Helpers)
    requires Ranked(env, rank) && v in env
    ensures FromType(TypeVar(v), env, rank, h) == FromType(env[v], env, rank, h)
  {
  }

  /** An unbound type variable is not a converter. */
  lemma UnboundTypeVarRejected(v: string, env: map<string, Type>, rank: map<string, nat>, h: Helpers)
    requires Ranked(env, rank) && v !in env
    ensures FromType(TypeVar(v), env, rank, h) == Err(Unsupported(NotCallable(v)))
  {
  }

  /** `Any` occurs somewhere in the annotation (type variables are not followed). */
  predicate ContainsAny(t: Type)
  {
    match t
    case Any => true
    case Annotated(e) => ContainsAny(e)
    case Seq(_, e) => ContainsAny(e)
    case Dict(k, v) => ContainsAny(k) || ContainsAny(v)
    case FixedTuple(ts) => exists i | 0 <= i < |ts| :: ContainsAny(ts[i])
    case Union(ts) => exists i | 0 <= i < |ts| :: ContainsAny(ts[i])
    case _ => false
  }

  /** `Any` is rejected wherever it appears, however deeply nested. */
  lemma {:induction false} AnyRejected(t: Type, env: map<string, Type>, rank: map<string, nat>, h: Helpers)
    requires Ranked(env, rank) && ContainsAny(t)
    ensures FromType(t, env, rank, h).Err?
    ensures t == Any ==> FromType(t, env, rank, h) == Err(Unsupported(AnyNotParsable))
    ensures NoEmptyUnion(t) && BindingsNoEmptyUnion(env) ==> FromType(t, env, rank, h).error.Unsupported?
    decreases VarRank(t, rank), t, 3, 0
  {
    if NoEmptyUnion(t) && BindingsNoEmptyUnion(env) {
      BuildFailsUnsupported(t, env, rank, h);
    }
    match t
    case Any =>
    case Annotated(e) => AnyRejected(e, env, rank, h);
    case Seq(_, e) => AnyRejectedInner(e, env, rank, h, true);
    case Dict(k, v) =>
      if ContainsAny(k) {
        AnyRejectedInner(k, env, rank, h, true);
      } else {
        AnyRejectedInner(v, env, rank, h, true);
      }
    case FixedTuple(ts) => AnyRejectedTuple(t, env, rank, h);
    case Union(ts) => AnyRejectedUnion(t, env, rank, h);
  }

  lemma {:induction false} AnyRejectedTuple(t: Type, env: map<string, Type>, rank: map<string, nat>, h: Helpers)
    requires Ranked(env, rank) && t.FixedTuple? && ContainsAny(t)
    ensures FromType(t, env, rank, h).Err?
    decreases VarRank(t, rank), t, 2, 0
  {
    var i :| 0 <= i < |t.elems| && ContainsAny(t.elems[i]);
    AnyRejectedParts(t, t.elems, env, rank, h, true, 0, i);
  }

  lemma {:induction false} AnyRejectedUnion(t: Type, env: map<string, Type>, rank: map<string, nat>, h: Helpers)
    requires Ranked(env, rank) && t.Union? && ContainsAny(t)
    ensures FromType(t, env, rank, h).Err?
    decreases VarRank(t, rank), t, 2, 0
  {
    var i :| 0 <= i < |t.options| && ContainsAny(t.options[i]);
    var options := NoneFirst(t.options);
    RemoveFirstSubset(t.options, NoneT);
    NoneFirstKeeps(t.options, t.options[i]);
    var j :| 0 <= j < |options| && options[j] == t.options[i];
    AnyRejectedParts(t, options, env, rank, h, false, 0, j);
  }

  lemma {:induction false} AnyRejectedInner(t: Type, env: map<string, Type>, rank: map<string, nat>, h: Helpers, fixedLength: bool)
    requires Ranked(env, rank) && ContainsAny(t)
    ensures FromInner(t, env, rank, h, fixedLength).Err?
    decreases VarRank(t, rank), t, 4, 0
  {
    AnyRejected(t, env, rank, h);
  }

  lemma {:induction false} AnyRejectedParts(parent: Type, ts: seq<Type>, env: map<string, Type>, rank: map<string, nat>, h: Helpers,
                                            fixedLength: bool, i: nat, bad: nat)
    requires Ranked(env, rank)
    requires parent.FixedTuple? || parent.Union?
    requires forall j :: 0 <= j < |ts| ==> ts[j] in Elements(parent)
    requires i <= bad < |ts| && ContainsAny(ts[bad])
    ensures BuildParts(parent, ts, env, rank, h, fixedLength, i).Err?
    decreases VarRank(parent, rank), parent, 1, |ts| - i
  {
    ElementRank(parent, ts[i], rank);
    if i == bad {
      AnyRejectedInner(ts[i], env, rank, h, fixedLength);
    } else if FromInner(ts[i], env, rank, h, fixedLength).Ok? {
      AnyRejectedParts(parent, ts, env, rank, h, fixedLength, i + 1, bad);
    }
  }

  /** Every union inside `t` has options; Python cannot spell a union without any. */
  predicate NoEmptyUnion(t: Type)
  {
    match t
    case Annotated(e) => NoEmptyUnion(e)
    case Seq(_, e) => NoEmptyUnion(e)
    case Dict(k, v) => NoEmptyUnion(k) && NoEmptyUnion(v)
    case FixedTuple(ts) => forall i | 0 <= i < |ts| :: NoEmptyUnion(ts[i])
    case Union(ts) => ts != [] && forall i | 0 <= i < |ts| :: NoEmptyUnion(ts[i])
    case _ => true
  }

  predicate BindingsNoEmptyUnion(env: map<string, Type>)
  {
    forall v :: v in env ==> NoEmptyUnion(env[v])
  }

  /**
   * Without a union that has no options, construction only ever fails with
   * `UnsupportedTypeAnnotationError`.
   */
  lemma {:induction false} BuildFailsUnsupported(t: Type, env: map<string, Type>, rank: map<string, nat>, h: Helpers)
    requires Ranked(env, rank) && NoEmptyUnion(t) && BindingsNoEmptyUnion(env)
    ensures FromType(t, env, rank, h).Err? ==> FromType(t, env, rank, h).error.Unsupported?
    decreases VarRank(t, rank), t, 3, 0
  {
    if t.TypeVar? && t.name in env {
      BuildFailsUnsupported(env[t.name], env, rank, h);
    } else {
      match t
      case Annotated(e) => BuildFailsUnsupported(e, env, rank, h);
      case Seq(_, e) => BuildFailsUnsupportedInner(e, env, rank, h, true);
      case Dict(k, v) =>
        BuildFailsUnsupportedInner(k, env, rank, h, true);
        BuildFailsUnsupportedInner(v, env, rank, h, true);
      case FixedTuple(ts) => BuildFailsUnsupportedParts(t, ts, env, rank, h, true, 0);
      case Union(ts) => BuildFailsUnsupportedUnion(t, env, rank, h);
      case _ =>
    }
  }

  lemma {:induction false} BuildFailsUnsupportedInner(t: Type, env: map<string, Type>, rank: map<string, nat>, h: Helpers, fixedLength: bool)
    requires Ranked(env, rank) && NoEmptyUnion(t) && BindingsNoEmptyUnion(env)
    ensures FromInner(t, env, rank, h, fixedLength).Err? ==> FromInner(t, env, rank, h, fixedLength).error.Unsupported?
    decreases VarRank(t, rank), t, 4, 0
  {
    BuildFailsUnsupported(t, env, rank, h);
  }

  lemma {:induction false} BuildFailsUnsupportedUnion(t: Type, env: map<string, Type>, rank: map<string, nat>, h: Helpers)
    requires Ranked(env, rank) && t.Union? && NoEmptyUnion(t) && BindingsNoEmptyUnion(env)
    ensures FromType(t, env, rank, h).Err? ==> FromType(t, env, rank, h).error.Unsupported?
    decreases VarRank(t, rank), t, 2, 0
  {
    var options := NoneFirst(t.options);
    RemoveFirstSubset(t.options, NoneT);
    NoneFirstPermutes(t.options);
    assert |options| == |multiset(options)| == |t.options| > 0;
    forall j | 0 <= j < |options| ensures NoEmptyUnion(options[j]) {
      assert options[j] in multiset(options);
    }
    BuildFailsUnsupportedParts(t, options, env, rank, h, false, 0);
    if BuildParts(t, options, env, rank, h, false, 0).Ok? {
      BuildPartsItems(t, options, env, rank, h, false, 0);
    }
  }

  lemma {:induction false} BuildFailsUnsupportedParts(parent: Type, ts: seq<Type>, env: map<string, Type>, rank: map<string, nat>,
                                                      h: Helpers, fixedLength: bool, i: nat)
    requires Ranked(env, rank) && BindingsNoEmptyUnion(env)
    requires parent.FixedTuple? || parent.Union?
    requires forall j :: 0 <= j < |ts| ==> ts[j] in Elements(parent) && NoEmptyUnion(ts[j])
    ensures BuildParts(parent, ts, env, rank, h, fixedLength, i).Err? ==> BuildParts(parent, ts, env, rank, h, fixedLength, i).error.Unsupported?
    decreases VarRank(parent, rank), parent, 1, |ts| - i
  {
    if i < |ts| {
      ElementRank(parent, ts[i], rank);
      BuildFailsUnsupportedInner(ts[i], env, rank, h, fixedLength);
      if FromInner(ts[i], env, rank, h, fixedLength).Ok? {
        BuildFailsUnsupportedParts(parent, ts, env, rank, h, fixedLength, i + 1);
      }
    }
  }

  // ---------------------------------------------------------------------------
  // NoneType, bool, enums, scalars and literals
  // ---------------------------------------------------------------------------

  /** `NoneType`: one token, the only choice is "None", and it yields None. */
  lemma NoneInstantiator(env: map<string, Type>, rank: map<string, nat>, h: Helpers, parse: ScalarParser)
    requires Ranked(env, rank)
    ensures FromType(NoneT, env, rank, h).Ok?
    ensures var b := FromType(NoneT, env, rank, h).value;
      && b.meta.nargs == Exactly(1)
      && b.meta.choices == Some(["None"])
      && (forall strings :: Apply(b.inst, strings, parse).Ok? <==> strings == ["None"])
      && Apply(b.inst, ["None"], parse) == Ok(PyNone)
  {
  }

  /** `bool`: one token, choices True/False, and exactly those two tokens convert. */
  lemma BoolInstantiator(env: map<string, Type>, rank: map<string, nat>, h: Helpers, parse: ScalarParser)
    requires Ranked(env, rank)
    ensures FromType(Bool, env, rank, h).Ok?
    ensures var b := FromType(Bool, env, rank, h).value;
      && b.meta.nargs == Exactly(1)
      && b.meta.choices == Some(["True", "False"])
      && Apply(b.inst, ["True"], parse) == Ok(PyBool(true))
      && Apply(b.inst, ["False"], parse) == Ok(PyBool(false))
      && (forall strings :: Apply(b.inst, strings, parse).Ok? <==> strings == ["True"] || strings == ["False"])
  {
  }

  /** An enum: its member names are the choices, and a member name yields that member. */
  lemma EnumInstantiator(name: string, members: seq<string>, env: map<string, Type>, rank: map<string, nat>, h: Helpers, parse: ScalarParser)
    requires Ranked(env, rank)
    ensures FromType(Enum(name, members), env, rank, h).Ok?
    ensures var b := FromType(Enum(name, members), env, rank, h).value;
      && b.meta.nargs == Exactly(1)
      && b.meta.choices == Some(members)
      && (forall s :: Apply(b.inst, [s], parse) == if s in members then Ok(PyEnum(name, s)) else Err(KeyError(s)))
  {
  }

  /** Any other class: rejected unless it is a converter, otherwise one token through `typ(string)`. */
  lemma ScalarInstantiator(name: string, ok: bool, env: map<string, Type>, rank: map<string, nat>, h: Helpers, parse: ScalarParser)
    requires Ranked(env, rank)
    ensures !ok ==> FromType(Scalar(name, ok), env, rank, h) == Err(Unsupported(NotAConverter(name)))
    ensures ok ==> FromType(Scalar(name, ok), env, rank, h).Ok?
    ensures ok ==> var b := FromType(Scalar(name, ok), env, rank, h).value;
      && b.meta == Metadata(Exactly(1), h.formatMetavar(Upper(name)), None)
      && (forall s :: Apply(b.inst, [s], parse) == if parse(name, s).Some? then Ok(parse(name, s).value) else Err(ValueError(ConversionFailed(name, s))))
      && (forall strings :: |strings| != 1 ==> Apply(b.inst, strings, parse) == Err(ValueError(UnpackMismatch(|strings|))))
  {
  }

  /**
   * For the cases whose instantiator relies on `choices` ("other inputs should be caught
   * by `choices` before the instantiator runs"), a token that passes the choice check
   * always converts.
   */
  lemma {:induction false} ChoicesGuardInstantiator(t: Type, s: string, env: map<string, Type>, rank: map<string, nat>, h: Helpers, parse: ScalarParser)
    requires Ranked(env, rank)
    requires t.NoneT? || t.Bool? || t.Enum? || t.Literal?
    ensures FromType(t, env, rank, h).Ok?
    ensures var b := FromType(t, env, rank, h).value;
      b.meta.nargs == Exactly(1) && (CheckChoices(b.meta, [s]).Ok? <==> Apply(b.inst, [s], parse).Ok?)
  {
    var b := FromType(t, env, rank, h).value;
    assert s in [s];
    CheckChoicesMeaning(b.meta, [s]);
    if t.Literal? {
      LiteralInstantiator(t.values, h, parse);
    }
  }

  /** `Literal[...]`: the texts are the choices, and a text yields its first value. */
  lemma {:induction false} LiteralInstantiator(values: seq<PyValue>, h: Helpers, parse: ScalarParser)
    ensures var b := FromLiteral(values, h);
      && b.meta.nargs == Exactly(1)
      && b.meta.choices.Some?
      && |b.meta.choices.value| == |values|
      && (forall i :: 0 <= i < |values| ==> b.meta.choices.value[i] == LiteralText(values[i]))
      && Apply(b.inst, [], parse) == Err(IndexError)
      && (forall s :: Apply(b.inst, [s], parse).Ok? <==> s in b.meta.choices.value)
  {
    var b := FromLiteral(values, h);
    var texts := b.inst.texts;
    forall s ensures Apply(b.inst, [s], parse).Ok? <==> s in texts {
      assert [s][0] == s;
    }
  }

  /** With texts that tell the values apart, a value's own text converts back to it. */
  lemma {:induction false} LiteralRoundTrip(values: seq<PyValue>, h: Helpers, parse: ScalarParser, i: nat)
    requires i < |values|
    requires forall j, k :: 0 <= j < k < |values| ==> LiteralText(values[j]) != LiteralText(values[k])
    ensures Apply(FromLiteral(values, h).inst, [LiteralText(values[i])], parse) == Ok(values[i])
  {
    var b := FromLiteral(values, h);
    var texts := b.inst.texts;
    assert texts[i] == LiteralText(values[i]);
    assert forall k | 0 <= k < |texts| && k != i :: texts[k] != texts[i];
  }

  // ---------------------------------------------------------------------------
  // Element lists built left to right
  // ---------------------------------------------------------------------------

  /** The element list succeeds exactly when every element builds. */
  lemma {:induction false} BuildPartsOk(parent: Type, ts: seq<Type>, env: map<string, Type>, rank: map<string, nat>, h: Helpers,
                                        fixedLength: bool, i: nat)
    requires Ranked(env, rank)
    requires parent.FixedTuple? || parent.Union?
    requires forall j :: 0 <= j < |ts| ==> ts[j] in Elements(parent)
    requires i <= |ts|
    ensures BuildParts(parent, ts, env, rank, h, fixedLength, i).Ok?
        <==> forall j :: i <= j < |ts| ==> FromInner(ts[j], env, rank, h, fixedLength).Ok?
    decreases |ts| - i
  {
    if i < |ts| {
      BuildPartsOk(parent, ts, env, rank, h, fixedLength, i + 1);
    }
  }

  /** A successful element list has one part per element, in order, each what the factory built for it. */
  lemma {:induction false} BuildPartsItems(parent: Type, ts: seq<Type>, env: map<string, Type>, rank: map<string, nat>, h: Helpers,
                                           fixedLength: bool, i: nat)
    requires Ranked(env, rank)
    requires parent.FixedTuple? || parent.Union?
    requires forall j :: 0 <= j < |ts| ==> ts[j] in Elements(parent)
    requires i <= |ts| && BuildParts(parent, ts, env, rank, h, fixedLength, i).Ok?
    ensures var ps := BuildParts(parent, ts, env, rank, h, fixedLength, i).value;
      && |ps| == |ts| - i
      && forall j :: 0 <= j < |ps| ==>
           ps[j].typ == ts[i + j] && FromInner(ts[i + j], env, rank, h, fixedLength) == Ok(Built(ps[j].inst, ps[j].meta))
    decreases |ts| - i
  {
    if i < |ts| {
      var b := FromInner(ts[i], env, rank, h, fixedLength);
      var rest := BuildParts(parent, ts, env, rank, h, fixedLength, i + 1);
      BuildPartsItems(parent, ts, env, rank, h, fixedLength, i + 1);
      var ps := BuildParts(parent, ts, env, rank, h, fixedLength, i).value;
      assert ps == [Part(ts[i], b.value.inst, b.value.meta)] + rest.value;
      forall j | 0 <= j < |ps|
        ensures ps[j].typ == ts[i + j] && FromInner(ts[i + j], env, rank, h, fixedLength) == Ok(Built(ps[j].inst, ps[j].meta))
      {
        if j > 0 {
          assert ps[j] == rest.value[j - 1];
          assert i + j == (i + 1) + (j - 1);
        }
      }
    }
  }

  /** Every part built for a fixed-length context has an integer arity. */
  predicate AllFixed(parts: seq<Part>)
  {
    forall j :: 0 <= j < |parts| ==> parts[j].meta.nargs.Exactly?
  }

  /** A fixed tuple builds exactly when every element builds with an integer arity. */
  lemma TupleBuilds(ts: seq<Type>, env: map<string, Type>, rank: map<string, nat>, h: Helpers)
    requires Ranked(env, rank)
    ensures FromType(FixedTuple(ts), env, rank, h).Ok? <==> forall j :: 0 <= j < |ts| ==> FromInner(ts[j], env, rank, h, true).Ok?
    ensures (exists j :: 0 <= j < |ts| && FromType(ts[j], env, rank, h).Ok? && FromType(ts[j], env, rank, h).value.meta.nargs.Plus?)
            ==> FromType(FixedTuple(ts), env, rank, h).Err?
  {
    var t := FixedTuple(ts);
    BuildPartsOk(t, ts, env, rank, h, true, 0);
    assert FromType(t, env, rank, h) == FromTuple(t, env, rank, h);
  }

  /**
   * A fixed tuple: one part per element type, in order, each with an integer arity;
   * the tuple takes their sum.
   */
  lemma TupleShape(ts: seq<Type>, env: map<string, Type>, rank: map<string, nat>, h: Helpers, b: Built)
    requires Ranked(env, rank) && FromType(FixedTuple(ts), env, rank, h) == Ok(b)
    ensures b.inst.TupleInst? && |b.inst.parts| == |ts| && AllFixed(b.inst.parts)
    ensures forall j :: 0 <= j < |ts| ==>
      b.inst.parts[j].typ == ts[j] && FromType(ts[j], env, rank, h) == Ok(Built(b.inst.parts[j].inst, b.inst.parts[j].meta))
    ensures b.inst.nargs == SumNargs(b.inst.parts) && b.meta.nargs == Exactly(b.inst.nargs) && b.meta.choices.None?
  {
    var t := FixedTuple(ts);
    assert FromType(t, env, rank, h) == FromTuple(t, env, rank, h);
    BuildPartsItems(t, ts, env, rank, h, true, 0);
    var ps := BuildParts(t, ts, env, rank, h, true, 0).value;
    forall j | 0 <= j < |ts|
      ensures ps[j].typ == ts[j] && FromType(ts[j], env, rank, h) == Ok(Built(ps[j].inst, ps[j].meta)) && ps[j].meta.nargs.Exactly?
    {
      assert 0 + j == j;
    }
  }

  /** A variable-length sequence: arity "+", the inner choices pass through, the inner arity is an integer. */
  lemma SequenceShape(c: Container, e: Type, env: map<string, Type>, rank: map<string, nat>, h: Helpers)
    requires Ranked(env, rank)
    ensures FromType(Seq(c, e), env, rank, h).Ok? <==> FromInner(e, env, rank, h, true).Ok?
    ensures FromType(e, env, rank, h).Ok? && FromType(e, env, rank, h).value.meta.nargs.Plus?
            ==> FromType(Seq(c, e), env, rank, h) == Err(Unsupported(VariableLengthNested(e)))
    ensures FromType(Seq(c, e), env, rank, h).Ok? ==>
      var b := FromType(Seq(c, e), env, rank, h).value;
      var inner := FromType(e, env, rank, h).value;
      && b.inst == SeqInst(c, Part(e, inner.inst, inner.meta))
      && inner.meta.nargs.Exactly?
      && b.meta == Metadata(Plus, h.multiMetavarFromSingle(inner.meta.metavar), inner.meta.choices)
  {
  }

  /** A dict: arity "+", no choices, and both key and value have an integer arity. */
  lemma DictShape(k: Type, v: Type, env: map<string, Type>, rank: map<string, nat>, h: Helpers)
    requires Ranked(env, rank)
    ensures FromType(Dict(k, v), env, rank, h).Ok? <==> FromInner(k, env, rank, h, true).Ok? && FromInner(v, env, rank, h, true).Ok?
    ensures FromType(Dict(k, v), env, rank, h).Ok? ==>
      var b := FromType(Dict(k, v), env, rank, h).value;
      var kb := FromType(k, env, rank, h).value;
      var vb := FromType(v, env, rank, h).value;
      && kb.meta.nargs.Exactly? && vb.meta.nargs.Exactly?
      && b.inst == DictInst(Part(k, kb.inst, kb.meta), kb.meta.nargs.n, Part(v, vb.inst, vb.meta), vb.meta.nargs.n)
      && b.meta == Metadata(Plus, h.multiMetavarFromSingle(kb.meta.metavar + " " + vb.meta.metavar), None)
  {
  }

  // ---------------------------------------------------------------------------
  // Unions
  // ---------------------------------------------------------------------------

  /** The elements of `s` other than `NoneType`, in order. */
  function NonNone(s: seq<Type>): seq<Type>
  {
    if s == [] then [] else (if s[0] == NoneT then [] else [s[0]]) + NonNone(s[1..])
  }

  /** The position of the first occurrence of `x`. */
  function FirstIndex(s: seq<Type>, x: Type): (k: nat)
    requires x in s
    ensures k < |s| && s[k] == x && x !in s[..k]
  {
    if s[0] == x then 0
    else
      assert x in s[1..];
      var k := FirstIndex(s[1..], x);
      assert s[..k + 1] == [s[0]] + s[1..][..k];
      k + 1
  }

  lemma {:induction false} RemoveFirstAbsent(s: seq<Type>, x: Type)
    requires x !in s
    ensures RemoveFirst(s, x) == s
  {
    if s != [] {
      assert x !in s[1..];
      RemoveFirstAbsent(s[1..], x);
      assert s == [s[0]] + s[1..];
    }
  }

  lemma {:induction false} NonNoneConcat(a: seq<Type>, b: seq<Type>)
    ensures NonNone(a + b) == NonNone(a) + NonNone(b)
  {
    if a != [] {
      assert (a + b)[1..] == a[1..] + b;
      NonNoneConcat(a[1..], b);
    } else {
      assert a + b == b;
    }
  }

  /** With its first `NoneType` at `k`, the options are `front + [NoneType] + back`, and the reordering is `[NoneType] + front + back`. */
  lemma NoneFirstSplit(options: seq<Type>)
    requires NoneT in options
    ensures var k := FirstIndex(options, NoneT);
      && options == options[..k] + [NoneT] + options[k + 1..]
      && NoneFirst(options) == [NoneT] + (options[..k] + options[k + 1..])
  {
    var k := FirstIndex(options, NoneT);
    RemoveFirstAt(options, NoneT, k);
  }

  /** Moving `NoneType` to the front permutes the options. */
  lemma NoneFirstPermutes(options: seq<Type>)
    ensures multiset(NoneFirst(options)) == multiset(options)
  {
    if NoneT in options {
      NoneFirstSplit(options);
    }
  }

  /** Moving `NoneType` to the front keeps the other options in their order. */
  lemma NoneFirstOrder(options: seq<Type>)
    ensures NonNone(NoneFirst(options)) == NonNone(options)
  {
    if NoneT in options {
      NoneFirstSplit(options);
      var k := FirstIndex(options, NoneT);
      var front, back := options[..k], options[k + 1..];
      NonNoneConcat(front + [NoneT], back);
      NonNoneConcat(front, [NoneT]);
      assert NonNone([NoneT]) == [];
      NonNoneConcat(front, back);
      NonNoneConcat([NoneT], front + back);
    }
  }

  lemma NoneFirstKeeps(options: seq<Type>, y: Type)
    requires y in options
    ensures y in NoneFirst(options)
  {
    NoneFirstPermutes(options);
    assert y in multiset(options);
  }

  /** At least one option other than `NoneType`, and they all have arity `n`. */
  ghost predicate SharedNargs(parts: seq<Part>, n: Nargs)
  {
    && (exists j :: 0 <= j < |parts| && parts[j].typ != NoneT)
    && forall j :: 0 <= j < |parts| && parts[j].typ != NoneT ==> parts[j].meta.nargs == n
  }

  /** Two options other than `NoneType` have different arities. */
  ghost predicate NargsDisagree(parts: seq<Part>)
  {
    exists j, k :: 0 <= j < |parts| && 0 <= k < |parts| && parts[j].typ != NoneT && parts[k].typ != NoneT
                   && parts[j].meta.nargs != parts[k].meta.nargs
  }

  /** `first` stays set iff every option is `NoneType`, and then the union's arity is 1. */
  lemma {:induction false} UnionNargsFirst(parts: seq<Part>)
    ensures UnionNargs(parts).1 <==> forall j :: 0 <= j < |parts| ==> parts[j].typ == NoneT
    ensures UnionNargs(parts).1 ==> UnionNargs(parts).0 == Exactly(1)
  {
    if parts != [] {
      var pre := parts[..|parts| - 1];
      UnionNargsFirst(pre);
      assert forall j :: 0 <= j < |pre| ==> pre[j] == parts[j];
    }
  }

  /** When the options other than `NoneType` agree on an arity, the union takes it. */
  lemma {:induction false} UnionNargsShared(parts: seq<Part>, n: Nargs)
    requires SharedNargs(parts, n)
    ensures UnionNargs(parts).0 == n
  {
    var last := |parts| - 1;
    var pre, p := parts[..last], parts[last];
    assert forall j :: 0 <= j < |pre| ==> pre[j] == parts[j];
    if p.typ == NoneT {
      var j :| 0 <= j < |parts| && parts[j].typ != NoneT;
      assert j < last;
      assert SharedNargs(pre, n);
      UnionNargsShared(pre, n);
    } else if !UnionNargs(pre).1 {
      UnionNargsFirst(pre);
      var j :| 0 <= j < |pre| && pre[j].typ != NoneT;
      assert SharedNargs(pre, n);
      UnionNargsShared(pre, n);
    }
  }

  /** When two options other than `NoneType` differ in arity, the union takes "+". */
  lemma {:induction false} UnionNargsDisagree(parts: seq<Part>)
    requires NargsDisagree(parts)
    ensures UnionNargs(parts).0 == Plus
  {
    var last := |parts| - 1;
    var pre, p := parts[..last], parts[last];
    assert forall j :: 0 <= j < |pre| ==> pre[j] == parts[j];
    var j, k :| 0 <= j < |parts| && 0 <= k < |parts| && parts[j].typ != NoneT && parts[k].typ != NoneT
                && parts[j].meta.nargs != parts[k].meta.nargs;
    if j < last && k < last {
      assert NargsDisagree(pre);
      UnionNargsDisagree(pre);
      UnionNargsFirst(pre);
    } else {
      var m := if j < last then j else k;
      assert m < last && pre[m].typ != NoneT && pre[m].meta.nargs != p.meta.nargs;
      UnionNargsFirst(pre);
      if NargsDisagree(pre) {
        UnionNargsDisagree(pre);
      } else {
        assert SharedNargs(pre, pre[m].meta.nargs);
        UnionNargsShared(pre, pre[m].meta.nargs);
      }
    }
  }

  /** A union without options fails on `options[0]`. */
  lemma UnionEmpty(env: map<string, Type>, rank: map<string, nat>, h: Helpers)
    requires Ranked(env, rank)
    ensures FromType(Union([]), env, rank, h) == Err(BuildIndexError)
  {
    assert FromType(Union([]), env, rank, h) == FromUnion(Union([]), env, rank, h);
    assert NoneFirst([]) == [];
    assert BuildParts(Union([]), [], env, rank, h, false, 0) == Ok([]);
  }

  /** A union with options builds exactly when every option builds, each with sequences allowed. */
  lemma UnionBuilds(ts: seq<Type>, env: map<string, Type>, rank: map<string, nat>, h: Helpers)
    requires Ranked(env, rank) && ts != []
    ensures FromType(Union(ts), env, rank, h).Ok? <==> forall j :: 0 <= j < |ts| ==> FromType(ts[j], env, rank, h).Ok?
  {
    var t := Union(ts);
    var options := NoneFirst(ts);
    RemoveFirstSubset(ts, NoneT);
    NoneFirstPermutes(ts);
    BuildPartsOk(t, options, env, rank, h, false, 0);
    assert |options| == |ts| by {
      assert |multiset(options)| == |multiset(ts)|;
    }
    forall j | 0 <= j < |options|
      ensures FromInner(options[j], env, rank, h, false) == FromType(options[j], env, rank, h)
    {
    }
    ElementsAgree(ts, options, env, rank, h);
    assert FromType(t, env, rank, h) == FromUnion(t, env, rank, h);
  }

  /**
   * A union that builds: `NoneType` first, one part per option; the arity follows
   * `UnionNargs`, the metavar joins the options' metavars, and there are no choices.
   */
  lemma UnionShape(ts: seq<Type>, env: map<string, Type>, rank: map<string, nat>, h: Helpers, b: Built)
    requires Ranked(env, rank) && FromType(Union(ts), env, rank, h) == Ok(b)
    ensures b.inst.UnionInst? && |b.inst.parts| == |NoneFirst(ts)| > 0
    ensures forall j :: 0 <= j < |NoneFirst(ts)| ==>
      b.inst.parts[j].typ == NoneFirst(ts)[j] && FromType(NoneFirst(ts)[j], env, rank, h) == Ok(Built(b.inst.parts[j].inst, b.inst.parts[j].meta))
    ensures b.meta.nargs == UnionNargs(b.inst.parts).0
    ensures b.meta.metavar == JoinUnionMetavars(Metavars(b.inst.parts))
    ensures b.meta.choices.None?
  {
    var t := Union(ts);
    var options := NoneFirst(ts);
    RemoveFirstSubset(ts, NoneT);
    assert FromType(t, env, rank, h) == FromUnion(t, env, rank, h);
    BuildPartsItems(t, options, env, rank, h, false, 0);
    var ps := BuildParts(t, options, env, rank, h, false, 0).value;
    forall j | 0 <= j < |options|
      ensures ps[j].typ == options[j] && FromType(options[j], env, rank, h) == Ok(Built(ps[j].inst, ps[j].meta))
    {
      assert 0 + j == j;
    }
  }

  /** Two lists with the same elements either all build or do not. */
  lemma ElementsAgree(ts: seq<Type>, options: seq<Type>, env: map<string, Type>, rank: map<string, nat>, h: Helpers)
    requires Ranked(env, rank)
    requires multiset(options) == multiset(ts)
    ensures (forall j :: 0 <= j < |options| ==> FromType(options[j], env, rank, h).Ok?)
        <==> (forall j :: 0 <= j < |ts| ==> FromType(ts[j], env, rank, h).Ok?)
  {
    forall j | 0 <= j < |ts| ensures ts[j] in options {
      assert ts[j] in multiset(ts);
    }
    forall j | 0 <= j < |options| ensures options[j] in ts {
      assert options[j] in multiset(options);
    }
  }
}
