/**
 * dcargs' argument-lowering pipeline (`dcargs/_arguments.py`). A field definition is
 * lowered into the keyword arguments of argparse's `add_argument()` by seven rules, each a
 * functional update of a frozen `LoweredArgumentDefinition` record, applied left to right
 * from the all-default record. An exception a rule raises is an `Err`.
 */
module Arguments {
  import opened Wrappers
  import opened Text
  import opened Values
  import opened StringHelpers
  import opened Instantiators

  // ---------------------------------------------------------------------------
  // Field definitions
  // ---------------------------------------------------------------------------

  /** The markers of `dcargs.conf._markers` that this module reads. */
  datatype Marker = Fixed | Positional | Suppress | FlagConversionOff

  /**
   * A field default: a Python value, or one of the sentinels of `_fields`
   * (`MISSING_PROP`, `MISSING_NONPROP`, `EXCLUDE_FROM_CALL`). Python's `None` is
   * `Concrete(PyNone)`.
   */
  datatype DefaultValue = Concrete(v: PyValue) | MissingProp | MissingNonprop | ExcludeFromCall {
    /** Membership in `_fields.MISSING_SINGLETONS`. */
    predicate IsMissing() { MissingProp? || MissingNonprop? }
  }

  /** The `str()` of each sentinel; `_fields` is not part of this model. */
  datatype Sentinels = Sentinels(missingProp: string, missingNonprop: string, excludeFromCall: string)

  /** `str(default)`. */
  function DefaultStr(d: DefaultValue, st: Sentinels): string
  {
    match d
    case Concrete(v) => Str(v)
    case MissingProp => st.missingProp
    case MissingNonprop => st.missingNonprop
    case ExcludeFromCall => st.excludeFromCall
  }

  /** `_fields.FieldDefinition`, as far as the rules read it. */
  datatype FieldDefinition = FieldDefinition(
    name: string,
    typ: Type,
    default: DefaultValue,
    helptext: Option<string>,
    markers: set<Marker>)
  {
    predicate IsPositional() { Positional in markers }
  }

  /** `ArgumentDefinition`: a field under a nesting prefix, with the type-variable bindings in scope. */
  datatype ArgumentDefinition = ArgumentDefinition(prefix: string, field: FieldDefinition, typeFromTypevar: map<string, Type>)

  // ---------------------------------------------------------------------------
  // The lowered record
  // ---------------------------------------------------------------------------

  datatype Action = StoreTrue | StoreFalse

  /** The `nargs` handed to argparse: the metadata's, or `"?"` / `"*"` for optional positionals. */
  datatype NargsValue = Tokens(n: Nargs) | ZeroOrOne | ZeroOrMore

  /** The `instantiator` field: `lambda x: x` for flags, or one built from the type. */
  datatype LoweredInstantiator = FlagIdentity | Standard(inst: Instantiator)

  /** `LoweredArgumentDefinition`. */
  datatype Lowered = Lowered(
    instantiator: Option<LoweredInstantiator>,
    nameOrFlag: string,
    default: DefaultValue,
    dest: Option<string>,
    required: Option<bool>,
    action: Option<Action>,
    nargs: Option<NargsValue>,
    choices: Option<seq<string>>,
    metavar: Option<string>,
    help: Option<string>)
  {
    /** `is_fixed()`: no instantiator, so the value is always the field default. */
    predicate IsFixed() { instantiator.None? }
  }

  /** The record every lowering starts from: all dataclass defaults. */
  const Initial := Lowered(None, "", Concrete(PyNone), None, Some(false), None, None, None, None, None)

  /** `argparse.SUPPRESS`. */
  const SuppressText := "==SUPPRESS=="

  /** The metavar of a fixed argument (`termcolor.colored` is taken to be the identity). */
  const FixedMetavar := "{fixed}"

  /**
   * The message of the boolean-flag rule's `assert False`. It is not an f-string, so the
   * braces stay as they are and the message never names the field.
   */
  const BoolDefaultMessage := "Expected a boolean as a default for {arg.field.name}, but got {lowered.default}."

  datatype LoweringError =
    /** The `assert False` of the boolean-flag rule, with its message. */
    | BoolDefaultNotBool(message: string)
    /** `UnsupportedTypeAnnotationError` for a field without a default. */
    | UnsupportedField(fieldName: string)
    /** The `IndexError` of a union without options, which no rule catches. */
    | BuildCrash
    /** The assertion in help generation that a fixed argument has a missing default. */
    | HelpAssertion

  /** `make_field_name([prefix, name])`. */
  function FieldName(arg: ArgumentDefinition, h: Helpers): string
  {
    h.makeFieldName([arg.prefix, arg.field.name])
  }

  // ---------------------------------------------------------------------------
  // Rule 1: defaults
  // ---------------------------------------------------------------------------

  /** `_rule_handle_defaults`. */
  function HandleDefaults(arg: ArgumentDefinition, l: Lowered): Lowered
  {
    if arg.field.default.IsMissing() then l.(default := Concrete(PyNone), required := Some(true))
    else l.(default := arg.field.default)
  }

  // ---------------------------------------------------------------------------
  // Rule 2: boolean flags
  // ---------------------------------------------------------------------------

  /** `_resolver.apply_type_from_typevar`, at the top level of the annotation. */
  function ResolveTop(t: Type, env: map<string, Type>): Type
  {
    if t.TypeVar? && t.name in env then env[t.name] else t
  }

  /** The fields the boolean-flag rule turns into a flag (or rejects). */
  predicate FlagCandidate(arg: ArgumentDefinition)
  {
    ResolveTop(arg.field.typ, arg.typeFromTypevar) == Bool
    && !arg.field.default.IsMissing()
    && !arg.field.IsPositional()
    && FlagConversionOff !in arg.field.markers
  }

  /** `_rule_handle_boolean_flags`. */
  function HandleBooleanFlags(arg: ArgumentDefinition, l: Lowered): Result<Lowered, LoweringError>
  {
    if ResolveTop(arg.field.typ, arg.typeFromTypevar) != Bool then Ok(l)
    else if arg.field.default.IsMissing() || arg.field.IsPositional() || FlagConversionOff in arg.field.markers then Ok(l)
    else if arg.field.default == Concrete(PyBool(false)) then Ok(l.(action := Some(StoreTrue), instantiator := Some(FlagIdentity)))
    else if arg.field.default == Concrete(PyBool(true)) then Ok(l.(action := Some(StoreFalse), instantiator := Some(FlagIdentity)))
    else Err(BoolDefaultNotBool(BoolDefaultMessage))
  }

  // ---------------------------------------------------------------------------
  // Rule 3: instantiator from the type
  // ---------------------------------------------------------------------------

  /** `_rule_recursive_instantiator_from_type`. */
  function RecursiveInstantiator(arg: ArgumentDefinition, l: Lowered, ghost rank: map<string, nat>, h: Helpers): Result<Lowered, LoweringError>
    requires Ranked(arg.typeFromTypevar, rank)
  {
    if Fixed in arg.field.markers then
      Ok(l.(instantiator := None, metavar := Some(FixedMetavar), required := Some(false), default := MissingProp))
    else if l.instantiator.Some? then Ok(l)
    else
      match FromType(arg.field.typ, arg.typeFromTypevar, rank, h)
      case Err(Unsupported(_)) =>
        if arg.field.default.IsMissing() then Err(UnsupportedField(FieldName(arg, h)))
        else Ok(l.(metavar := Some(FixedMetavar), required := Some(false), default := MissingProp))
      case Err(BuildIndexError) => Err(BuildCrash)
      case Ok(b) =>
        Ok(l.(instantiator := Some(Standard(b.inst)), choices := b.meta.choices,
              nargs := Some(Tokens(b.meta.nargs)), metavar := Some(b.meta.metavar)))
  }

  // ---------------------------------------------------------------------------
  // Rule 4: defaults as strings
  // ---------------------------------------------------------------------------

  /** The nested `as_str`: the command-line tokens a default value is written as. */
  function AsStr(x: PyValue): seq<string>
    decreases x, 1
  {
    match x
    case PyStr(s) => [s]
    case PyEnum(_, m) => [m]
    case PyBytes(d) => seq(|d|, i requires 0 <= i < |d| => NatText(d[i] as nat))
    case PyDict(_) => AsStrEntries(x, 0)
    case PyCollection(kind, _) => if kind.IsSequence() then AsStrItems(x, 0) else [Str(x)]
    case _ => [Str(x)]
  }

  /** `as_str` chained over the items of a sequence, from position `i` on. */
  function AsStrItems(x: PyValue, i: nat): seq<string>
    requires x.PyCollection?
    decreases x, 0, |x.items| - i
  {
    if i >= |x.items| then [] else AsStr(x.items[i]) + AsStrItems(x, i + 1)
  }

  /** `as_str` chained over key, value, key, value ... of a mapping, from entry `i` on. */
  function AsStrEntries(x: PyValue, i: nat): seq<string>
    requires x.PyDict?
    decreases x, 0, |x.entries| - i
  {
    if i >= |x.entries| then [] else AsStr(x.entries[i].key) + AsStr(x.entries[i].val) + AsStrEntries(x, i + 1)
  }

  /** `as_str` on a default that is not missing. */
  function DefaultTokens(d: DefaultValue, st: Sentinels): seq<string>
  {
    if d.Concrete? then AsStr(d.v) else [DefaultStr(d, st)]
  }

  /** Python strings, one per text. */
  function PyStrs(xs: seq<string>): seq<PyValue>
  {
    seq(|xs|, i requires 0 <= i < |xs| => PyStr(xs[i]))
  }

  /** A tuple of Python strings. */
  function StrTuple(xs: seq<string>): PyValue
  {
    PyCollection(TupleC, PyStrs(xs))
  }

  /** `_rule_convert_defaults_to_strings`. */
  function ConvertDefaults(l: Lowered, st: Sentinels): Lowered
  {
    if l.default == Concrete(PyNone) || l.default.IsMissing() || l.action.Some? then l
    else l.(default := Concrete(StrTuple(DefaultTokens(l.default, st))))
  }

  // ---------------------------------------------------------------------------
  // Rule 5: help text
  // ---------------------------------------------------------------------------

  /** The docstring part of the help: present when non-empty, with `%` escaped for argparse. */
  function DocParts(helptext: Option<string>): seq<string>
  {
    if helptext.Some? && helptext.value != "" then [EscapePercent(helptext.value)] else []
  }

  /** `hasattr(default, "__iter__")`; the sentinels are taken not to be iterable. */
  predicate DefaultIterable(d: DefaultValue)
  {
    d.Concrete? && IsIterable(d.v)
  }

  function StrAll(xs: seq<PyValue>): seq<string>
  {
    seq(|xs|, i requires 0 <= i < |xs| => Str(xs[i]))
  }

  /** The text describing the default of an argument that is not required (297-318). */
  function DefaultText(arg: ArgumentDefinition, l: Lowered, default: DefaultValue, st: Sentinels): string
  {
    if l.instantiator.None? then "(fixed to: " + DefaultStr(arg.field.default, st) + ")"
    else if l.action == Some(StoreTrue) then "(sets: " + arg.field.name + "=True)"
    else if l.action == Some(StoreFalse) then "(sets: " + arg.field.name + "=False)"
    else if arg.field.default == ExcludeFromCall then "(unset by default)"
    else if l.nargs.Some? && DefaultIterable(default) then "(default: " + Join(" ", StrAll(Iterate(default.v))) + ")"
    else "(default: " + DefaultStr(default, st) + ")"
  }

  /** `_rule_generate_helptext`. */
  function GenerateHelptext(arg: ArgumentDefinition, l: Lowered, st: Sentinels): Result<Lowered, LoweringError>
  {
    if Suppress in arg.field.markers then Ok(l.(help := Some(SuppressText)))
    else if l.IsFixed() && !l.default.IsMissing() then Err(HelpAssertion)
    else
      var default := if l.IsFixed() then arg.field.default else l.default;
      var last := if l.required != Some(true) then DefaultText(arg, l, default, st) else "(required)";
      Ok(l.(help := Some(Join(" ", DocParts(arg.field.helptext) + [last]))))
  }

  // ---------------------------------------------------------------------------
  // Rules 6 and 7: names and positionals
  // ---------------------------------------------------------------------------

  /** `_rule_set_name_or_flag`. */
  function SetNameOrFlag(arg: ArgumentDefinition, l: Lowered, h: Helpers): Lowered
  {
    var nameOrFlag :=
      if arg.field.IsPositional() then FieldName(arg, h)
      else if l.action == Some(StoreFalse) then "--" + h.makeFieldName([arg.prefix, "no-" + arg.field.name])
      else "--" + FieldName(arg, h);
    l.(nameOrFlag := nameOrFlag, dest := Some(FieldName(arg, h)))
  }

  /** `_rule_positional_special_handling`. */
  function PositionalSpecialHandling(arg: ArgumentDefinition, l: Lowered): Lowered
  {
    if !arg.field.IsPositional() then l
    else if l.required == Some(true) then l.(dest := None, required := None)
    else
      var metavar := if l.metavar.Some? then Some("[" + l.metavar.value + "]") else None;
      var nargs := if l.nargs == Some(Tokens(Exactly(1))) then ZeroOrOne else ZeroOrMore;
      l.(dest := None, required := None, metavar := metavar, nargs := Some(nargs))
  }

  // ---------------------------------------------------------------------------
  // The pipeline
  // ---------------------------------------------------------------------------

  /** Rules 1 to 4, after which a fixed argument has a missing default. */
  function LoweredDefaults(arg: ArgumentDefinition, ghost rank: map<string, nat>, h: Helpers, st: Sentinels): Result<Lowered, LoweringError>
    requires Ranked(arg.typeFromTypevar, rank)
  {
    var l1 := HandleDefaults(arg, Initial);
    var l2 :- HandleBooleanFlags(arg, l1);
    var l3 :- RecursiveInstantiator(arg, l2, rank, h);
    Ok(ConvertDefaults(l3, st))
  }

  /** `ArgumentDefinition.lowered`: the seven rules folded over `Initial`. */
  function Lower(arg: ArgumentDefinition, ghost rank: map<string, nat>, h: Helpers, st: Sentinels): Result<Lowered, LoweringError>
    requires Ranked(arg.typeFromTypevar, rank)
  {
    var l4 :- LoweredDefaults(arg, rank, h, st);
    var l5 :- GenerateHelptext(arg, l4, st);
    Ok(PositionalSpecialHandling(arg, SetNameOrFlag(arg, l5, h)))
  }

  // ---------------------------------------------------------------------------
  // add_argument
  // ---------------------------------------------------------------------------

  /** `_PatchedList`: a choices list that also admits `MISSING_NONPROP`. */
  datatype PatchedList = PatchedList(items: seq<string>) {
    /** `list.__contains__`: the choices are strings, compared by value. */
    predicate ListContains(x: DefaultValue)
    {
      x.Concrete? && x.v.PyStr? && x.v.s in items
    }

    /** `_PatchedList.__contains__`. */
    predicate Contains(x: DefaultValue)
    {
      ListContains(x) || x == MissingNonprop
    }
  }

  /** The keys of `dataclasses.asdict(lowered)`. */
  datatype Kw = InstantiatorKw | NameOrFlagKw | DefaultKw | DestKw | RequiredKw | ActionKw | NargsKw | ChoicesKw | MetavarKw | HelpKw

  datatype KwValue =
    | NoneValue
    | InstantiatorValue(inst: LoweredInstantiator)
    | TextValue(text: string)
    | DefaultVal(default: DefaultValue)
    | BoolValue(b: bool)
    | ActionValue(action: Action)
    | NargsVal(nargs: NargsValue)
    | ChoicesValue(choices: seq<string>)
    | PatchedChoices(patched: PatchedList)

  /** The value `dataclasses.asdict(lowered)` holds under `k`. */
  function FieldValue(l: Lowered, k: Kw): KwValue
  {
    match k
    case InstantiatorKw => if l.instantiator.Some? then InstantiatorValue(l.instantiator.value) else NoneValue
    case NameOrFlagKw => TextValue(l.nameOrFlag)
    case DefaultKw => if l.default == Concrete(PyNone) then NoneValue else DefaultVal(l.default)
    case DestKw => if l.dest.Some? then TextValue(l.dest.value) else NoneValue
    case RequiredKw => if l.required.Some? then BoolValue(l.required.value) else NoneValue
    case ActionKw => if l.action.Some? then ActionValue(l.action.value) else NoneValue
    case NargsKw => if l.nargs.Some? then NargsVal(l.nargs.value) else NoneValue
    case ChoicesKw => if l.choices.Some? then ChoicesValue(l.choices.value) else NoneValue
    case MetavarKw => if l.metavar.Some? then TextValue(l.metavar.value) else NoneValue
    case HelpKw => if l.help.Some? then TextValue(l.help.value) else NoneValue
  }

  const AllKws: set<Kw> :=
    {InstantiatorKw, NameOrFlagKw, DefaultKw, DestKw, RequiredKw, ActionKw, NargsKw, ChoicesKw, MetavarKw, HelpKw}

  lemma AllKwsComplete()
    ensures forall k: Kw :: k in AllKws
  {
    forall k: Kw ensures k in AllKws {
      match k
      case InstantiatorKw => case NameOrFlagKw => case DefaultKw => case DestKw => case RequiredKw =>
      case ActionKw => case NargsKw => case ChoicesKw => case MetavarKw => case HelpKw =>
    }
  }

  /** `dataclasses.asdict(lowered)`. */
  function AsDict(l: Lowered): map<Kw, KwValue>
  {
    map k | k in AllKws :: FieldValue(l, k)
  }

  /** `asdict(lowered)` without `instantiator` and without the fields that are None. */
  method SetFields(l: Lowered) returns (kwargs: map<Kw, KwValue>)
    ensures forall k :: k in kwargs <==> k != InstantiatorKw && FieldValue(l, k) != NoneValue
    ensures forall k :: k in kwargs ==> kwargs[k] == FieldValue(l, k)
  {
    kwargs := AsDict(l);
    AllKwsComplete();
    assert forall k :: k in kwargs && kwargs[k] == FieldValue(l, k);
    kwargs := kwargs - {InstantiatorKw};
    kwargs := map k | k in kwargs && kwargs[k] != NoneValue :: kwargs[k];
  }

  /**
   * The keyword arguments `add_argument` passes to argparse, and the name or flag passed
   * positionally. The default is always `MISSING_NONPROP` (the field default is applied
   * later), and patched choices admit it.
   */
  method AddArgument(l: Lowered, h: Helpers) returns (nameOrFlag: string, kwargs: map<Kw, KwValue>)
    ensures nameOrFlag == if l.nameOrFlag == "" then h.dummyFieldName else l.nameOrFlag
    ensures InstantiatorKw !in kwargs && NameOrFlagKw !in kwargs
    ensures DefaultKw in kwargs && kwargs[DefaultKw] == DefaultVal(MissingNonprop)
    ensures forall k :: k != InstantiatorKw && k != NameOrFlagKw && k != DefaultKw ==>
      (k in kwargs <==> FieldValue(l, k) != NoneValue)
    ensures forall k :: k in kwargs && k != DefaultKw && k != ChoicesKw ==> kwargs[k] == FieldValue(l, k)
    ensures l.choices.Some? ==> ChoicesKw in kwargs && kwargs[ChoicesKw] == PatchedChoices(PatchedList(l.choices.value))
    ensures ChoicesKw in kwargs ==> kwargs[ChoicesKw].PatchedChoices? && kwargs[ChoicesKw].patched.Contains(kwargs[DefaultKw].default)
  {
    kwargs := SetFields(l);
    assert NameOrFlagKw in kwargs;
    nameOrFlag := kwargs[NameOrFlagKw].text;
    kwargs := kwargs - {NameOrFlagKw};
    if |nameOrFlag| == 0 {
      nameOrFlag := h.dummyFieldName;
    }
    kwargs := kwargs[DefaultKw := DefaultVal(MissingNonprop)];
    if ChoicesKw in kwargs {
      kwargs := kwargs[ChoicesKw := PatchedChoices(PatchedList(kwargs[ChoicesKw].choices))];
    }
  }
}
