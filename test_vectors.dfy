/**
 * Concrete inputs from dcargs' own tests (`tests/test_dict_namedtuple.py`), worked
 * through the model.
 */
module TestVectors {
  import opened Wrappers
  import opened Text
  import opened Values
  import opened StringHelpers
  import opened Instantiators
  import opened Arguments
  import opened ArgumentProperties
  import opened InstantiationProperties

  predicate IsDecimal(s: string)
  {
    s != "" && forall i :: 0 <= i < |s| ==> '0' <= s[i] <= '9'
  }

  /** A stand-in for `str(s)` and `int(s)` on unsigned decimal literals; ints are carried by their text. */
  function ExampleParse(typeName: string, s: string): Option<PyValue>
  {
    if typeName == "str" then Some(PyStr(s))
    else if typeName == "int" && IsDecimal(s) then Some(PyOther(s))
    else None
  }

  const StrToInt := Dict(Scalar("str", true), Scalar("int", true))

  /** The instantiator of `Dict[str, int]`, with metavars `km` and `vm` for key and value. */
  function StrToIntInst(km: string, vm: string): Instantiator
  {
    DictInst(Part(Scalar("str", true), BaseInst(ScalarBase("str")), Metadata(Exactly(1), km, None)), 1,
             Part(Scalar("int", true), BaseInst(ScalarBase("int")), Metadata(Exactly(1), vm, None)), 1)
  }

  /** What `Dict[str, int]` builds: one token per key and per value, with no choices. */
  lemma StrToIntBuilds(h: Helpers)
    ensures FromType(StrToInt, map[], map[], h).Ok?
    ensures FromType(StrToInt, map[], map[], h).value.inst == StrToIntInst(h.formatMetavar(Upper("str")), h.formatMetavar(Upper("int")))
  {
    var key := FromType(Scalar("str", true), map[], map[], h).value;
    var val := FromType(Scalar("int", true), map[], map[], h).value;
    assert FromInner(Scalar("str", true), map[], map[], h, true) == Ok(key);
    assert FromInner(Scalar("int", true), map[], map[], h, true) == Ok(val);
    assert FromType(StrToInt, map[], map[], h) == FromDict(StrToInt, map[], map[], h);
  }

  /** The two pairs of `hey 5 hello 2` convert to `"hey": 5` and `"hello": 2`. */
  lemma ExamplePairs(km: string, vm: string)
    ensures DictPair(StrToIntInst(km, vm), ["hey"], ["5"], ExampleParse) == Ok(Entry(PyStr("hey"), PyOther("5")))
    ensures DictPair(StrToIntInst(km, vm), ["hello"], ["2"], ExampleParse) == Ok(Entry(PyStr("hello"), PyOther("2")))
    ensures DictPair(StrToIntInst(km, vm), ["hello"], ["hey"], ExampleParse) == Err(ValueError(ConversionFailed("int", "hey")))
  {
    var inst := StrToIntInst(km, vm);
    assert "hey"[0] == 'h';
    assert IsDecimal("5") && IsDecimal("2") && !IsDecimal("hey");
    DictPairOk(inst, ["hey"], ["5"], ExampleParse);
    DictPairOk(inst, ["hello"], ["2"], ExampleParse);
    DictPairOrder(inst, ["hello"], ["hey"], ExampleParse);
  }

  /** `--params hey 5 hello 2` gives `{"hey": 5, "hello": 2}` (lines 18-21). */
  lemma DictAcceptedRun(km: string, vm: string)
    ensures Apply(StrToIntInst(km, vm), ["hey", "5", "hello", "2"], ExampleParse)
            == Ok(PyDict([Entry(PyStr("hey"), PyOther("5")), Entry(PyStr("hello"), PyOther("2"))]))
  {
    var inst := StrToIntInst(km, vm);
    var ok := ["hey", "5", "hello", "2"];
    assert Slice(ok, 0, 1) == ["hey"] && Slice(ok, 1, 2) == ["5"] && Slice(ok, 2, 3) == ["hello"] && Slice(ok, 3, 4) == ["2"];
    ExamplePairs(km, vm);
    var e1 := DictPut([], PyStr("hey"), PyOther("5"));
    assert e1 == [Entry(PyStr("hey"), PyOther("5"))];
    var e2 := DictPut(e1, PyStr("hello"), PyOther("2"));
    assert e2 == [Entry(PyStr("hey"), PyOther("5")), Entry(PyStr("hello"), PyOther("2"))];
    DictLoopPasses(inst, ok, ExampleParse, 0, 2, [], ["hey"], ["5"]);
    DictLoopPasses(inst, ok, ExampleParse, 2, 1, e1, ["hello"], ["2"]);
    assert Mod(4, 2) == 0 && FloorDiv(4, 2) == 2;
    ApplyDict(inst, ok, ExampleParse);
  }

  lemma DictAccepted(h: Helpers)
    ensures FromType(StrToInt, map[], map[], h).Ok?
    ensures Apply(FromType(StrToInt, map[], map[], h).value.inst, ["hey", "5", "hello", "2"], ExampleParse)
            == Ok(PyDict([Entry(PyStr("hey"), PyOther("5")), Entry(PyStr("hello"), PyOther("2"))]))
  {
    StrToIntBuilds(h);
    DictAcceptedRun(h.formatMetavar(Upper("str")), h.formatMetavar(Upper("int")));
  }

  /** `--params hey 5 hello hey` fails: the second value is not an int (line 27). */
  lemma DictBadValueRun(km: string, vm: string)
    ensures Apply(StrToIntInst(km, vm), ["hey", "5", "hello", "hey"], ExampleParse) == Err(ValueError(ConversionFailed("int", "hey")))
  {
    var inst := StrToIntInst(km, vm);
    var bad := ["hey", "5", "hello", "hey"];
    assert Slice(bad, 0, 1) == ["hey"] && Slice(bad, 1, 2) == ["5"] && Slice(bad, 2, 3) == ["hello"] && Slice(bad, 3, 4) == ["hey"];
    ExamplePairs(km, vm);
    var e1 := DictPut([], PyStr("hey"), PyOther("5"));
    DictLoopPasses(inst, bad, ExampleParse, 0, 2, [], ["hey"], ["5"]);
    DictLoopFails(inst, bad, ExampleParse, 2, 1, e1, ["hello"], ["hey"]);
    assert Mod(4, 2) == 0 && FloorDiv(4, 2) == 2;
    ApplyDict(inst, bad, ExampleParse);
  }

  lemma DictBadValue(h: Helpers)
    ensures FromType(StrToInt, map[], map[], h).Ok?
    ensures Apply(FromType(StrToInt, map[], map[], h).value.inst, ["hey", "5", "hello", "hey"], ExampleParse)
            == Err(ValueError(ConversionFailed("int", "hey")))
  {
    StrToIntBuilds(h);
    DictBadValueRun(h.formatMetavar(Upper("str")), h.formatMetavar(Upper("int")));
  }

  /** `--params hey 5 hello` fails: the last pair is incomplete (line 29). */
  lemma DictIncomplete(h: Helpers)
    ensures FromType(StrToInt, map[], map[], h).Ok?
    ensures Apply(FromType(StrToInt, map[], map[], h).value.inst, ["hey", "5", "hello"], ExampleParse) == Err(ValueError(IncompletePairs))
  {
    StrToIntBuilds(h);
  }

  /** The help of an unsuppressed field whose docstring has no `%`. */
  lemma PlainDocstringHelp(arg: ArgumentDefinition, last: string)
    requires Suppress !in arg.field.markers
    requires arg.field.helptext.Some? && arg.field.helptext.value != ""
    requires forall i :: 0 <= i < |arg.field.helptext.value| ==> arg.field.helptext.value[i] != '%'
    ensures HelpWith(arg, last) == arg.field.helptext.value + " " + last
  {
    var doc := arg.field.helptext.value;
    EscapeWithoutPercent(doc);
    assert DocParts(arg.field.helptext) == [doc];
    assert DocParts(arg.field.helptext) + [last] == [doc, last];
    assert [doc, last][1..] == [last];
    assert Join(" ", [doc, last]) == doc + " " + Join(" ", [last]);
  }

  /** The docstrings of the test's fields contain no `%`. */
  lemma ExampleDocsPlain(doc: string)
    requires doc == "Documentation 1" || doc == "Documentation 3"
    ensures doc != "" && forall i :: 0 <= i < |doc| ==> doc[i] != '%'
  {
  }

  /** `x: int  # Documentation 1` without a default: `Documentation 1 (required)` (line 189). */
  lemma RequiredHelp(doc: string, d: DefaultValue, h: Helpers, st: Sentinels)
    requires doc == "Documentation 1" && d.IsMissing()
    ensures var arg := ArgumentDefinition("", FieldDefinition("x", Scalar("int", true), d, Some(doc), {}), map[]);
      && Lower(arg, map[], h, st).Ok?
      && Lower(arg, map[], h, st).value.help == Some("Documentation 1 (required)")
      && Lower(arg, map[], h, st).value.required == Some(true)
      && Lower(arg, map[], h, st).value.nameOrFlag == "--" + h.makeFieldName(["", "x"])
  {
    var arg := ArgumentDefinition("", FieldDefinition("x", Scalar("int", true), d, Some(doc), {}), map[]);
    var b := FromType(Scalar("int", true), map[], map[], h).value;
    ExampleDocsPlain(doc);
    BuiltArguments(arg, map[], h, st, b);
    RequiredArguments(arg, map[], h, st);
    Names(arg, map[], h, st);
    PlainDocstringHelp(arg, "(required)");
    assert doc + " " + "(required)" == "Documentation 1 (required)";
  }

  lemma DefaultHelpText(doc: string, three: string)
    requires doc == "Documentation 3" && three == "3"
    ensures doc + " " + ("(default: " + Join(" ", [three]) + ")") == "Documentation 3 (default: 3)"
  {
  }

  /** `z: int = 3  # Documentation 3`: `Documentation 3 (default: 3)` (line 191). */
  lemma DefaultHelp(doc: string, three: string, h: Helpers, st: Sentinels)
    requires doc == "Documentation 3" && three == "3"
    ensures var arg := ArgumentDefinition("", FieldDefinition("z", Scalar("int", true), Concrete(PyOther(three)), Some(doc), {}), map[]);
      && Lower(arg, map[], h, st).Ok?
      && Lower(arg, map[], h, st).value.help == Some("Documentation 3 (default: 3)")
  {
    var arg := ArgumentDefinition("", FieldDefinition("z", Scalar("int", true), Concrete(PyOther(three)), Some(doc), {}), map[]);
    var b := FromType(Scalar("int", true), map[], map[], h).value;
    ExampleDocsPlain(doc);
    DefaultsAsTokens(arg, map[], h, st, b);
    assert AsStr(arg.field.default.v) == [three];
    PlainDocstringHelp(arg, "(default: " + Join(" ", [three]) + ")");
    DefaultHelpText(doc, three);
  }

  /** The same field is optional, and its default `3` reaches argparse as the token tuple `("3",)`. */
  lemma DefaultTokens(doc: string, three: string, h: Helpers, st: Sentinels)
    requires doc == "Documentation 3" && three == "3"
    ensures var arg := ArgumentDefinition("", FieldDefinition("z", Scalar("int", true), Concrete(PyOther(three)), Some(doc), {}), map[]);
      && Lower(arg, map[], h, st).Ok?
      && Lower(arg, map[], h, st).value.required == Some(false)
      && Lower(arg, map[], h, st).value.default == Concrete(PyCollection(TupleC, [PyStr("3")]))
  {
    var arg := ArgumentDefinition("", FieldDefinition("z", Scalar("int", true), Concrete(PyOther(three)), Some(doc), {}), map[]);
    var b := FromType(Scalar("int", true), map[], map[], h).value;
    DefaultsAsTokens(arg, map[], h, st, b);
    RequiredArguments(arg, map[], h, st);
    assert AsStr(arg.field.default.v) == [three];
    assert PyStrs([three]) == [PyStr("3")];
  }
}
