/**
 * The parts of `dcargs/_instantiators.py` that work step by step: the loops inside the
 * instantiator closures, the construction loops of tuples and unions, the reordering of
 * union options and the merging of union metavars. Each method is proved to compute
 * exactly what the matching function of `Instantiators` specifies.
 */
module InstantiatorLoops {
  import opened Wrappers
  import opened Text
  import opened Values
  import opened StringHelpers
  import opened Instantiators

  /** `fixed_length_tuple_instantiator`. */
  method RunTuple(inst: Instantiator, strings: seq<string>, parse: ScalarParser) returns (r: Result<PyValue, Error>)
    requires inst.TupleInst?
    ensures r == Apply(inst, strings, parse)
  {
    if |strings| != inst.nargs {
      return Err(AssertionError);
    }
    var items := RunTupleParts(inst, strings, parse);
    if items.Err? {
      return Err(items.error);
    }
    return Ok(PyCollection(TupleC, items.value));
  }

  /** The loop of `fixed_length_tuple_instantiator`: each part checks and converts its own tokens. */
  method RunTupleParts(inst: Instantiator, strings: seq<string>, parse: ScalarParser) returns (r: Result<seq<PyValue>, Error>)
    requires inst.TupleInst?
    ensures r == TupleLoop(inst, strings, parse, 0, 0, [])
  {
    var out: seq<PyValue> := [];
    var i: nat, index: nat := 0, 0;
    while i < |inst.parts|
      invariant 0 <= i <= |inst.parts|
      invariant TupleLoop(inst, strings, parse, 0, 0, []) == TupleLoop(inst, strings, parse, i, index, out)
    {
      var meta := inst.parts[i].meta;
      if meta.nargs.Plus? {
        return Err(AssertionError);
      }
      var chunk := Slice(strings, index, index + meta.nargs.n);
      var checked := CheckChoices(meta, chunk);
      if checked.Err? {
        return Err(checked.error);
      }
      var v := Apply(inst.parts[i].inst, chunk, parse);
      if v.Err? {
        return Err(v.error);
      }
      out := out + [v.value];
      i, index := i + 1, index + meta.nargs.n;
    }
    return Ok(out);
  }

  /** `sequence_instantiator`. */
  method RunSequence(inst: Instantiator, strings: seq<string>, parse: ScalarParser) returns (r: Result<PyValue, Error>)
    requires inst.SeqInst?
    ensures r == Apply(inst, strings, parse)
  {
    var nargs := inst.inner.meta.nargs;
    if nargs.Plus? {
      return Err(AssertionError);
    }
    var n := nargs.n;
    if n == 0 {
      return Err(ZeroDivisionError);
    }
    if Mod(|strings|, n) != 0 {
      return Err(ValueError(NotDivisible(|strings|, n)));
    }
    var out: seq<PyValue> := [];
    var i := 0;
    while i < |strings|
      invariant SeqLoop(inst, n, strings, parse, 0, []) == SeqLoop(inst, n, strings, parse, i, out)
      decreases |strings| - i
    {
      var v := Apply(inst.inner.inst, Slice(strings, i, i + n), parse);
      if v.Err? {
        return Err(v.error);
      }
      out := out + [v.value];
      i := i + n;
    }
    return Ok(MakeContainer(inst.container, out));
  }

  /** One pass of the loop of `dict_instantiator`: the choice checks, then `out[key(k)] = val(v)`. */
  method RunPair(inst: Instantiator, k: seq<string>, v: seq<string>, parse: ScalarParser) returns (r: Result<Entry, Error>)
    requires inst.DictInst?
    ensures r == DictPair(inst, k, v, parse)
  {
    if CheckChoices(inst.key.meta, k).Err? {
      return Err(ValueError(InvalidChoice(k)));
    }
    if CheckChoices(inst.val.meta, v).Err? {
      return Err(ValueError(InvalidChoice(v)));
    }
    var value := Apply(inst.val.inst, v, parse);
    if value.Err? {
      return Err(value.error);
    }
    var key := Apply(inst.key.inst, k, parse);
    if key.Err? {
      return Err(key.error);
    }
    return Ok(Entry(key.value, value.value));
  }

  /** `dict_instantiator`: a whole number of key/value pairs, read left to right. */
  method RunDict(inst: Instantiator, strings: seq<string>, parse: ScalarParser) returns (r: Result<PyValue, Error>)
    requires inst.DictInst?
    ensures r == Apply(inst, strings, parse)
  {
    var pairNargs := inst.keyNargs + inst.valNargs;
    if pairNargs == 0 {
      return Err(ZeroDivisionError);
    }
    if Mod(|strings|, pairNargs) != 0 {
      return Err(ValueError(IncompletePairs));
    }
    ApplyDict(inst, strings, parse);
    var entries := RunPairs(inst, strings, parse, FloorDiv(|strings|, pairNargs));
    if entries.Err? {
      return Err(entries.error);
    }
    return Ok(PyDict(entries.value));
  }

  /** The loop of `dict_instantiator` over `count` pairs. */
  method RunPairs(inst: Instantiator, strings: seq<string>, parse: ScalarParser, count: nat) returns (r: Result<seq<Entry>, Error>)
    requires inst.DictInst?
    ensures r == DictLoop(inst, strings, parse, 0, count, [])
  {
    var kn, vn := inst.keyNargs, inst.valNargs;
    var out: seq<Entry> := [];
    var index, done := 0, 0;
    while done < count
      invariant 0 <= done <= count
      invariant DictLoop(inst, strings, parse, 0, count, []) == DictLoop(inst, strings, parse, index, count - done, out)
    {
      var k := Slice(strings, index, index + kn);
      var v := Slice(strings, index + kn, index + kn + vn);
      var e := RunPair(inst, k, v, parse);
      if e.Err? {
        return Err(e.error);
      }
      index := index + kn + vn;
      out := DictPut(out, e.value.key, e.value.val);
      done := done + 1;
    }
    return Ok(out);
  }

  /** `union_instantiator`: the first option that accepts the tokens wins. */
  method RunUnion(inst: Instantiator, strings: seq<string>, parse: ScalarParser) returns (r: Result<PyValue, Error>)
    requires inst.UnionInst?
    ensures r == Apply(inst, strings, parse)
  {
    var errors: seq<OptionError> := [];
    var i := 0;
    while i < |inst.parts|
      invariant 0 <= i <= |inst.parts|
      invariant Apply(inst, strings, parse) == UnionLoop(inst, strings, parse, i, errors)
    {
      var p := inst.parts[i];
      if CheckChoices(p.meta, strings).Err? {
        errors := errors + [ChoiceMismatch(p.typ)];
      } else if ArityMatches(p.meta.nargs, |strings|) {
        var v := Apply(p.inst, strings, parse);
        if v.Ok? || !v.error.ValueError? {
          return v;
        }
        errors := errors + [Raised(p.typ, v.error.reason)];
      } else {
        errors := errors + [ArityMismatch(p.typ, |strings|)];
      }
      i := i + 1;
    }
    return Err(ValueError(NoOptionMatched(errors)));
  }

  /** `options.remove(NoneType); options.insert(0, NoneType)`. */
  method MoveNoneFirst(options: seq<Type>) returns (r: seq<Type>)
    ensures r == NoneFirst(options)
  {
    r := options;
    if NoneT in r {
      var i := 0;
      while r[i] != NoneT
        invariant 0 <= i < |r|
        decreases |r| - i
        invariant NoneT !in r[..i] && NoneT in r[i..]
      {
        assert r[..i + 1] == r[..i] + [r[i]];
        assert r[i..] == [r[i]] + r[i + 1..];
        i := i + 1;
      }
      RemoveFirstAt(r, NoneT, i);
      r := r[..i] + r[i + 1..];
      r := [NoneT] + r;
    }
  }

  /** `_join_union_metavars`, with `merged_metavars` updated in place. */
  method JoinMetavars(metavars: seq<string>) returns (s: string)
    requires |metavars| > 0
    ensures s == JoinUnionMetavars(metavars)
  {
    var merged := [metavars[0]];
    var i := 1;
    assert metavars[..1] == [metavars[0]];
    while i < |metavars|
      invariant 1 <= i <= |metavars|
      invariant merged == Merged(metavars[..i])
    {
      assert metavars[..i + 1][..i] == metavars[..i];
      var prev := merged[|merged| - 1];
      var curr := metavars[i];
      if IsBraced(prev) && IsBraced(curr) {
        assert merged[|merged| - 1 := prev[..|prev| - 1] + "," + curr[1..]]
            == merged[..|merged| - 1] + [prev[..|prev| - 1] + "," + curr[1..]];
        merged := merged[|merged| - 1 := prev[..|prev| - 1] + "," + curr[1..]];
      } else {
        merged := merged + [curr];
      }
      i := i + 1;
    }
    assert metavars[..i] == metavars;
    ghost var before := merged;
    var j := 0;
    while j < |merged|
      invariant 0 <= j <= |merged| == |before|
      invariant forall k :: 0 <= k < j ==> merged[k] == WrapIfSpaced(before[k])
      invariant forall k :: j <= k < |merged| ==> merged[k] == before[k]
    {
      if ' ' in merged[j] {
        merged := merged[j := "{" + merged[j] + "}"];
      }
      j := j + 1;
    }
    assert merged == WrapAll(before);
    s := Join("|", merged);
  }

  /** `Ok(done + rest)`, or the error. */
  function Prepend(done: seq<Part>, rest: Result<seq<Part>, BuildError>): Result<seq<Part>, BuildError>
  {
    match rest
    case Ok(ps) => Ok(done + ps)
    case Err(e) => Err(e)
  }

  lemma PrependNothing(r: Result<seq<Part>, BuildError>)
    ensures Prepend([], r) == r
  {
    if r.Ok? { assert [] + r.value == r.value; }
  }

  /** One more element built: it moves from the pending result to the finished prefix. */
  lemma PrependStep(parent: Type, ts: seq<Type>, env: map<string, Type>, rank: map<string, nat>, h: Helpers,
                    fixedLength: bool, i: nat, parts: seq<Part>, b: Built)
    requires Ranked(env, rank)
    requires parent.FixedTuple? || parent.Union?
    requires forall j :: 0 <= j < |ts| ==> ts[j] in Elements(parent)
    requires i < |ts| && FromInner(ts[i], env, rank, h, fixedLength) == Ok(b)
    ensures Prepend(parts, BuildParts(parent, ts, env, rank, h, fixedLength, i))
         == Prepend(parts + [Part(ts[i], b.inst, b.meta)], BuildParts(parent, ts, env, rank, h, fixedLength, i + 1))
  {
    var p := Part(ts[i], b.inst, b.meta);
    match BuildParts(parent, ts, env, rank, h, fixedLength, i + 1)
    case Ok(ps) =>
      assert parts + ([p] + ps) == (parts + [p]) + ps;
    case Err(_) =>
  }

  /** Nothing left to build: the finished prefix is the whole result. */
  lemma PrependDone(parent: Type, ts: seq<Type>, env: map<string, Type>, rank: map<string, nat>, h: Helpers,
                    fixedLength: bool, parts: seq<Part>)
    requires Ranked(env, rank)
    requires parent.FixedTuple? || parent.Union?
    requires forall j :: 0 <= j < |ts| ==> ts[j] in Elements(parent)
    ensures Prepend(parts, BuildParts(parent, ts, env, rank, h, fixedLength, |ts|)) == Ok(parts)
  {
    assert parts + [] == parts;
  }

  /** The construction loop of `_instantiator_from_tuple` (320-333). */
  method BuildTuple(t: Type, env: map<string, Type>, ghost rank: map<string, nat>, h: Helpers) returns (r: Result<Built, BuildError>)
    requires Ranked(env, rank) && t.FixedTuple?
    ensures r == FromType(t, env, rank, h)
  {
    var parts: seq<Part> := [];
    var nargs := 0;
    var i := 0;
    PrependNothing(BuildParts(t, t.elems, env, rank, h, true, 0));
    while i < |t.elems|
      invariant 0 <= i <= |t.elems|
      invariant BuildParts(t, t.elems, env, rank, h, true, 0) == Prepend(parts, BuildParts(t, t.elems, env, rank, h, true, i))
      invariant nargs == SumNargs(parts)
    {
      var b := FromInner(t.elems[i], env, rank, h, true);
      if b.Err? {
        return Err(b.error);
      }
      PrependStep(t, t.elems, env, rank, h, true, i, parts, b.value);
      assert (parts + [Part(t.elems[i], b.value.inst, b.value.meta)])[..|parts|] == parts;
      parts := parts + [Part(t.elems[i], b.value.inst, b.value.meta)];
      nargs := nargs + Count(b.value.meta.nargs);
      i := i + 1;
    }
    PrependDone(t, t.elems, env, rank, h, true, parts);
    return Ok(Built(TupleInst(parts, nargs), Metadata(Exactly(nargs), Join(" ", Metavars(parts)), None)));
  }

  /** The construction of `_instantiator_from_union`, with its loop over `nargs` and `first`. */
  method BuildUnion(t: Type, env: map<string, Type>, ghost rank: map<string, nat>, h: Helpers) returns (r: Result<Built, BuildError>)
    requires Ranked(env, rank) && t.Union?
    ensures r == FromType(t, env, rank, h)
  {
    var options := MoveNoneFirst(t.options);
    RemoveFirstSubset(t.options, NoneT);
    var parts: seq<Part> := [];
    var nargs, first := Exactly(1), true;
    var i := 0;
    PrependNothing(BuildParts(t, options, env, rank, h, false, 0));
    while i < |options|
      invariant 0 <= i <= |options|
      invariant BuildParts(t, options, env, rank, h, false, 0) == Prepend(parts, BuildParts(t, options, env, rank, h, false, i))
      invariant (nargs, first) == UnionNargs(parts)
    {
      var b := FromInner(options[i], env, rank, h, false);
      if b.Err? {
        return Err(b.error);
      }
      var p := Part(options[i], b.value.inst, b.value.meta);
      PrependStep(t, options, env, rank, h, false, i, parts, b.value);
      assert (parts + [p])[..|parts|] == parts;
      parts := parts + [p];
      if options[i] != NoneT {
        if first {
          nargs, first := p.meta.nargs, false;
        } else if nargs != p.meta.nargs {
          nargs := Plus;
        }
      }
      i := i + 1;
    }
    PrependDone(t, options, env, rank, h, false, parts);
    if parts == [] {
      return Err(BuildIndexError);
    }
    var metavar := JoinMetavars(Metavars(parts));
    return Ok(Built(UnionInst(parts), Metadata(nargs, metavar, None)));
  }
}
