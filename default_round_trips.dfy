/**
 * Rule 4 writes a default as the tokens a user would type (`as_str`) so that the
 * argument's instantiator can turn it back into a value. For the annotations below the
 * round trip returns the default itself.
 */
module DefaultRoundTrips {
  import opened Wrappers
  import opened Values
  import opened StringHelpers
  import opened Instantiators
  import opened InstantiationProperties
  import opened Arguments
  import opened Text

  /** `typ(string)` for `str` is the string itself. */
  ghost predicate StrParsesToItself(parse: ScalarParser)
  {
    forall s :: parse("str", s) == Some(PyStr(s))
  }

  lemma StrRoundTrip(s: string, env: map<string, Type>, rank: map<string, nat>, h: Helpers, parse: ScalarParser)
    requires Ranked(env, rank) && StrParsesToItself(parse)
    ensures FromType(Scalar("str", true), env, rank, h).Ok?
    ensures Apply(FromType(Scalar("str", true), env, rank, h).value.inst, AsStr(PyStr(s)), parse) == Ok(PyStr(s))
  {
  }

  lemma EnumRoundTrip(name: string, members: seq<string>, m: string, env: map<string, Type>, rank: map<string, nat>, h: Helpers, parse: ScalarParser)
    requires Ranked(env, rank) && m in members
    ensures FromType(Enum(name, members), env, rank, h).Ok?
    ensures Apply(FromType(Enum(name, members), env, rank, h).value.inst, AsStr(PyEnum(name, m)), parse) == Ok(PyEnum(name, m))
  {
  }

  /** A bool that is not a flag (positional, or with flag conversion off) is written `True`/`False`. */
  lemma BoolRoundTrip(b: bool, env: map<string, Type>, rank: map<string, nat>, h: Helpers, parse: ScalarParser)
    requires Ranked(env, rank)
    ensures FromType(Bool, env, rank, h).Ok?
    ensures Apply(FromType(Bool, env, rank, h).value.inst, AsStr(PyBool(b)), parse) == Ok(PyBool(b))
  {
    assert AsStr(PyBool(b)) == [if b then "True" else "False"];
  }

  lemma {:induction false} AsStrItemsStrings(c: Container, xs: seq<string>, i: nat)
    requires c.IsSequence() && i <= |xs|
    ensures AsStrItems(PyCollection(c, PyStrs(xs)), i) == xs[i..]
    decreases |xs| - i
  {
    if i < |xs| {
      AsStrItemsStrings(c, xs, i + 1);
      assert AsStr(PyStrs(xs)[i]) == [xs[i]];
      assert xs[i..] == [xs[i]] + xs[i + 1..];
    }
  }

  /** A list, tuple or deque of strings is written as its strings, in order. */
  lemma StringsAsStr(c: Container, xs: seq<string>)
    requires c.IsSequence()
    ensures AsStr(PyCollection(c, PyStrs(xs))) == xs
  {
    AsStrItemsStrings(c, xs, 0);
  }

  /** A `bytes` default is a sequence of ints: one decimal token per byte, each reading back as that byte. */
  lemma BytesAsStr(d: seq<Byte>)
    ensures |AsStr(PyBytes(d))| == |d|
    ensures forall i :: 0 <= i < |d| ==> IsDigits(AsStr(PyBytes(d))[i]) && DigitsValue(AsStr(PyBytes(d))[i]) == d[i] as int
    ensures StrAll(Iterate(PyBytes(d))) == AsStr(PyBytes(d))
  {
    var toks := AsStr(PyBytes(d));
    var it := Iterate(PyBytes(d));
    assert |toks| == |it| == |d|;
    forall i | 0 <= i < |d| ensures IsDigits(toks[i]) && DigitsValue(toks[i]) == d[i] as int {
      assert toks[i] == NatText(d[i] as nat);
      NatTextValue(d[i] as nat);
    }
    forall i | 0 <= i < |d| ensures StrAll(it)[i] == toks[i] {
      assert it[i] == PyOther(NatText(d[i] as nat));
    }
  }

  /** `b"ab"` is written as the tokens `97 98`, not as its text. */
  lemma BytesExample()
    ensures AsStr(PyBytes([97, 98])) == ["97", "98"]
  {
    var d: seq<Byte> := [97, 98];
    assert NatText(97) == "97" by { assert NatText(9) == "9"; }
    assert NatText(98) == "98" by { assert NatText(9) == "9"; }
    assert AsStr(PyBytes(d)) == [NatText(d[0] as nat), NatText(d[1] as nat)];
  }

  /** One token per chunk when the element takes one token. */
  lemma SingleChunks(xs: seq<string>)
    ensures |SeqChunks(xs, 1, 0)| == |xs|
    ensures forall k :: 0 <= k < |xs| ==> SeqChunks(xs, 1, 0)[k] == [xs[k]]
  {
    assert |xs| % 1 == 0 && |xs| / 1 == |xs|;
    SequenceChunks(xs, 1);
    forall k | 0 <= k < |xs| ensures SeqChunks(xs, 1, 0)[k] == [xs[k]] {
      assert k * 1 == k;
    }
  }

  /** The instantiator of `c[str]`, with metavar `m` for the element. */
  function StringsInst(c: Container, m: string): Instantiator
  {
    SeqInst(c, Part(Scalar("str", true), BaseInst(ScalarBase("str")), Metadata(Exactly(1), m, None)))
  }

  /** `c[str]` builds a sequence instantiator over one-token string elements. */
  lemma StringsBuild(c: Container, env: map<string, Type>, rank: map<string, nat>, h: Helpers)
    requires Ranked(env, rank) && c.IsSequence()
    ensures FromType(Seq(c, Scalar("str", true)), env, rank, h) == FromSequence(Seq(c, Scalar("str", true)), env, rank, h)
    ensures FromType(Seq(c, Scalar("str", true)), env, rank, h).Ok?
    ensures FromType(Seq(c, Scalar("str", true)), env, rank, h).value.inst == StringsInst(c, h.formatMetavar(Upper("str")))
  {
    var elem := FromType(Scalar("str", true), env, rank, h).value;
    assert FromInner(Scalar("str", true), env, rank, h, true) == Ok(elem);
  }

  /** A sequence of string elements turns the tokens `xs` into the strings `xs`. */
  lemma StringsParse(c: Container, m: string, xs: seq<string>, parse: ScalarParser)
    requires StrParsesToItself(parse) && c.IsSequence()
    ensures Apply(StringsInst(c, m), xs, parse) == Ok(PyCollection(c, PyStrs(xs)))
  {
    var inner := Part(Scalar("str", true), BaseInst(ScalarBase("str")), Metadata(Exactly(1), m, None));
    SingleChunks(xs);
    assert |xs| % 1 == 0;
    var cs := SeqChunks(xs, 1, 0);
    assert forall k :: 0 <= k < |cs| ==> Apply(inner.inst, cs[k], parse) == Ok(PyStr(xs[k]));
    AllConvertMeaning(inner.inst, cs, parse);
    SequenceElements(c, inner, xs, parse);
    forall k | 0 <= k < |xs| ensures Converted(inner.inst, cs, parse)[k] == PyStrs(xs)[k] {
      ConvertedAt(inner.inst, cs, parse, k);
    }
    assert Converted(inner.inst, cs, parse) == PyStrs(xs);
  }

  /** `List[str]` (or `Tuple[str, ...]`, `Deque[str]`): the tokens of a default parse back to it. */
  lemma StringsRoundTrip(c: Container, xs: seq<string>, env: map<string, Type>, rank: map<string, nat>, h: Helpers, parse: ScalarParser)
    requires Ranked(env, rank) && StrParsesToItself(parse) && c.IsSequence()
    ensures FromType(Seq(c, Scalar("str", true)), env, rank, h).Ok?
    ensures Apply(FromType(Seq(c, Scalar("str", true)), env, rank, h).value.inst, AsStr(PyCollection(c, PyStrs(xs))), parse)
            == Ok(PyCollection(c, PyStrs(xs)))
  {
    StringsBuild(c, env, rank, h);
    StringsAsStr(c, xs);
    StringsParse(c, h.formatMetavar(Upper("str")), xs, parse);
  }
}
