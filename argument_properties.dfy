/**
 * Properties of the lowering pipeline: what `ArgumentDefinition.lowered` hands to
 * argparse for each kind of field, which fields it rejects, and that the help-text
 * assertion about fixed arguments cannot fail.
 */
module ArgumentProperties {
  import opened Wrappers
  import opened Text
  import opened Values
  import opened StringHelpers
  import opened Instantiators
  import opened Arguments

  /** `help` once rule 5 has run: suppressed, or the docstring part followed by `last`. */
  function HelpWith(arg: ArgumentDefinition, last: string): string
  {
    if Suppress in arg.field.markers then SuppressText else Join(" ", DocParts(arg.field.helptext) + [last])
  }

  /** A field whose annotation resolves to `bool` always has an instantiator. */
  lemma FlagTypeBuilds(arg: ArgumentDefinition, rank: map<string, nat>, h: Helpers)
    requires Ranked(arg.typeFromTypevar, rank)
    requires ResolveTop(arg.field.typ, arg.typeFromTypevar) == Bool
    ensures FromType(arg.field.typ, arg.typeFromTypevar, rank, h).Ok?
  {
    var t := arg.field.typ;
    if t.TypeVar? && t.name in arg.typeFromTypevar {
      assert FromType(t, arg.typeFromTypevar, rank, h) == FromType(Bool, arg.typeFromTypevar, rank, h);
    }
  }

  // ---------------------------------------------------------------------------
  // Fixed arguments
  // ---------------------------------------------------------------------------

  /** After rules 1 to 4, an argument without an instantiator has the default `MISSING_PROP`. */
  lemma FixedHasMissingDefault(arg: ArgumentDefinition, rank: map<string, nat>, h: Helpers, st: Sentinels)
    requires Ranked(arg.typeFromTypevar, rank)
    ensures LoweredDefaults(arg, rank, h, st).Ok? && LoweredDefaults(arg, rank, h, st).value.IsFixed()
            ==> LoweredDefaults(arg, rank, h, st).value.default == MissingProp
  {
  }

  /** Hence the assertion of help generation (`assert default in MISSING_SINGLETONS`) never fails. */
  lemma NoHelpAssertion(arg: ArgumentDefinition, rank: map<string, nat>, h: Helpers, st: Sentinels)
    requires Ranked(arg.typeFromTypevar, rank)
    ensures Lower(arg, rank, h, st) != Err(HelpAssertion)
  {
    FixedHasMissingDefault(arg, rank, h, st);
  }

  /**
   * An argument is fixed exactly when it carries the `FIXED` marker or it is not a flag
   * and its type has no instantiator; it then has default `MISSING_PROP`, is not required,
   * and its help shows the field default.
   */
  lemma FixedArguments(arg: ArgumentDefinition, rank: map<string, nat>, h: Helpers, st: Sentinels)
    requires Ranked(arg.typeFromTypevar, rank)
    requires Lower(arg, rank, h, st).Ok?
    ensures Lower(arg, rank, h, st).value.IsFixed()
            <==> Fixed in arg.field.markers || (!FlagCandidate(arg) && FromType(arg.field.typ, arg.typeFromTypevar, rank, h).Err?)
    ensures Lower(arg, rank, h, st).value.IsFixed() ==>
      var l := Lower(arg, rank, h, st).value;
      && l.default == MissingProp
      && l.required == (if arg.field.IsPositional() then None else Some(false))
      && l.metavar == Some(if arg.field.IsPositional() then "[" + FixedMetavar + "]" else FixedMetavar)
      && l.help == Some(HelpWith(arg, "(fixed to: " + DefaultStr(arg.field.default, st) + ")"))
  {
    if FlagCandidate(arg) {
      FlagTypeBuilds(arg, rank, h);
    }
  }

  // ---------------------------------------------------------------------------
  // Errors
  // ---------------------------------------------------------------------------

  /**
   * A flag candidate whose default is not a bool is rejected, and nothing else is for that
   * reason. The message is the same literal text whatever the field is called.
   */
  lemma BoolDefaultRejected(arg: ArgumentDefinition, rank: map<string, nat>, h: Helpers, st: Sentinels)
    requires Ranked(arg.typeFromTypevar, rank)
    ensures Lower(arg, rank, h, st).Err? && Lower(arg, rank, h, st).error.BoolDefaultNotBool?
            <==> FlagCandidate(arg) && !(arg.field.default.Concrete? && arg.field.default.v.PyBool?)
    ensures Lower(arg, rank, h, st).Err? && Lower(arg, rank, h, st).error.BoolDefaultNotBool?
            ==> Lower(arg, rank, h, st).error.message == BoolDefaultMessage
  {
  }

  /** An unsupported annotation is an error exactly when the field is not fixed and has no default. */
  lemma UnsupportedRejected(arg: ArgumentDefinition, rank: map<string, nat>, h: Helpers, st: Sentinels)
    requires Ranked(arg.typeFromTypevar, rank)
    ensures Lower(arg, rank, h, st).Err? && Lower(arg, rank, h, st).error.UnsupportedField?
            <==> && Fixed !in arg.field.markers
                 && arg.field.default.IsMissing()
                 && FromType(arg.field.typ, arg.typeFromTypevar, rank, h).Err?
                 && FromType(arg.field.typ, arg.typeFromTypevar, rank, h).error.Unsupported?
    ensures Lower(arg, rank, h, st).Err? && Lower(arg, rank, h, st).error.UnsupportedField?
            ==> Lower(arg, rank, h, st).error.fieldName == FieldName(arg, h)
  {
  }

  /** The `IndexError` of an empty union escapes unless the field is fixed. */
  lemma EmptyUnionCrashes(arg: ArgumentDefinition, rank: map<string, nat>, h: Helpers, st: Sentinels)
    requires Ranked(arg.typeFromTypevar, rank)
    ensures Lower(arg, rank, h, st) == Err(BuildCrash)
            <==> Fixed !in arg.field.markers && FromType(arg.field.typ, arg.typeFromTypevar, rank, h) == Err(BuildIndexError)
  {
    if FlagCandidate(arg) {
      FlagTypeBuilds(arg, rank, h);
    }
  }

  // ---------------------------------------------------------------------------
  // Flags
  // ---------------------------------------------------------------------------

  /** The boolean-flag rule leaves every other field as it is. */
  lemma NonFlagsUntouched(arg: ArgumentDefinition, l: Lowered)
    requires !FlagCandidate(arg)
    ensures HandleBooleanFlags(arg, l) == Ok(l)
  {
  }

  /** Only flag candidates get an action. */
  lemma ActionOnlyForFlags(arg: ArgumentDefinition, rank: map<string, nat>, h: Helpers, st: Sentinels)
    requires Ranked(arg.typeFromTypevar, rank)
    requires Lower(arg, rank, h, st).Ok?
    ensures Lower(arg, rank, h, st).value.action.Some? <==> FlagCandidate(arg)
  {
  }

  /**
   * A bool field with default `False` becomes `--name` storing true; with default `True`
   * it becomes `--no-name` storing false. Either way argparse hands over the bool itself,
   * no token count is given, and the help says what passing the flag sets.
   */
  lemma FlagPolarity(arg: ArgumentDefinition, rank: map<string, nat>, h: Helpers, st: Sentinels, b: bool)
    requires Ranked(arg.typeFromTypevar, rank)
    requires FlagCandidate(arg) && Fixed !in arg.field.markers
    requires arg.field.default == Concrete(PyBool(b))
    ensures Lower(arg, rank, h, st).Ok?
    ensures
      var l := Lower(arg, rank, h, st).value;
      && l.action == Some(if b then StoreFalse else StoreTrue)
      && l.instantiator == Some(FlagIdentity)
      && l.nameOrFlag == "--" + h.makeFieldName([arg.prefix, if b then "no-" + arg.field.name else arg.field.name])
      && l.dest == Some(FieldName(arg, h))
      && l.required == Some(false)
      && l.nargs == None
      && l.default == Concrete(PyBool(b))
      && l.help == Some(HelpWith(arg, "(sets: " + arg.field.name + (if b then "=False)" else "=True)")))
  {
  }

  // ---------------------------------------------------------------------------
  // Required arguments, names and instantiators
  // ---------------------------------------------------------------------------

  /**
   * A keyword argument is required exactly when its field has no default and is not
   * fixed; its help then ends in `(required)`. A positional passes no `required`.
   */
  lemma RequiredArguments(arg: ArgumentDefinition, rank: map<string, nat>, h: Helpers, st: Sentinels)
    requires Ranked(arg.typeFromTypevar, rank)
    requires Lower(arg, rank, h, st).Ok?
    ensures Lower(arg, rank, h, st).value.required
            == if arg.field.IsPositional() then None else Some(arg.field.default.IsMissing() && Fixed !in arg.field.markers)
    ensures arg.field.default.IsMissing() && Fixed !in arg.field.markers
            ==> && Lower(arg, rank, h, st).value.help == Some(HelpWith(arg, "(required)"))
                && Lower(arg, rank, h, st).value.default == Concrete(PyNone)
  {
  }

  /** The name or flag, and `dest`, of every lowered argument. */
  lemma Names(arg: ArgumentDefinition, rank: map<string, nat>, h: Helpers, st: Sentinels)
    requires Ranked(arg.typeFromTypevar, rank)
    requires Lower(arg, rank, h, st).Ok?
    ensures
      var l := Lower(arg, rank, h, st).value;
      && l.nameOrFlag == (if arg.field.IsPositional() then FieldName(arg, h)
                          else if l.action == Some(StoreFalse) then "--" + h.makeFieldName([arg.prefix, "no-" + arg.field.name])
                          else "--" + FieldName(arg, h))
      && l.dest == (if arg.field.IsPositional() then None else Some(FieldName(arg, h)))
  {
  }

  /**
   * A field that is neither fixed nor a flag and whose type has an instantiator is parsed
   * by that instantiator, with the choices, token count and metavar of its metadata; an
   * optional positional asks for `?` (one token) or `*` instead and brackets its metavar.
   */
  lemma BuiltArguments(arg: ArgumentDefinition, rank: map<string, nat>, h: Helpers, st: Sentinels, b: Built)
    requires Ranked(arg.typeFromTypevar, rank)
    requires Fixed !in arg.field.markers && !FlagCandidate(arg)
    requires FromType(arg.field.typ, arg.typeFromTypevar, rank, h) == Ok(b)
    ensures Lower(arg, rank, h, st).Ok?
    ensures
      var l := Lower(arg, rank, h, st).value;
      && l.instantiator == Some(Standard(b.inst))
      && l.choices == b.meta.choices
      && l.action == None
      && (!arg.field.IsPositional() || arg.field.default.IsMissing() ==>
            l.nargs == Some(Tokens(b.meta.nargs)) && l.metavar == Some(b.meta.metavar))
      && (arg.field.IsPositional() && !arg.field.default.IsMissing() ==>
            && l.nargs == Some(if b.meta.nargs == Exactly(1) then ZeroOrOne else ZeroOrMore)
            && l.metavar == Some("[" + b.meta.metavar + "]"))
  {
  }

  /** The positional rule leaves keyword arguments as they are. */
  lemma NonPositionalUntouched(arg: ArgumentDefinition, l: Lowered)
    requires !arg.field.IsPositional()
    ensures PositionalSpecialHandling(arg, l) == l
  {
  }

  // ---------------------------------------------------------------------------
  // Defaults
  // ---------------------------------------------------------------------------

  lemma {:induction false} StrTupleTokens(xs: seq<string>)
    ensures StrAll(Iterate(StrTuple(xs))) == xs
  {
    assert IsIterable(StrTuple(xs));
  }

  /** What rules 1 to 4 make of a field that is neither fixed nor a flag and whose type builds `b`. */
  function BuiltLowered(arg: ArgumentDefinition, b: Built, st: Sentinels): Lowered
  {
    ConvertDefaults(HandleDefaults(arg, Initial).(instantiator := Some(Standard(b.inst)), choices := b.meta.choices,
                                                  nargs := Some(Tokens(b.meta.nargs)), metavar := Some(b.meta.metavar)), st)
  }

  /** Rules 1 to 4 leave the boolean-flag rule out and take the instantiator and metadata of the type. */
  lemma BuiltDefaults(arg: ArgumentDefinition, rank: map<string, nat>, h: Helpers, st: Sentinels, b: Built)
    requires Ranked(arg.typeFromTypevar, rank)
    requires Fixed !in arg.field.markers && !FlagCandidate(arg)
    requires FromType(arg.field.typ, arg.typeFromTypevar, rank, h) == Ok(b)
    ensures LoweredDefaults(arg, rank, h, st) == Ok(BuiltLowered(arg, b, st))
  {
  }

  /** Rules 6 and 7 keep the help and the default that rule 5 leaves. */
  lemma LastRules(arg: ArgumentDefinition, rank: map<string, nat>, h: Helpers, st: Sentinels, l4: Lowered)
    requires Ranked(arg.typeFromTypevar, rank)
    requires LoweredDefaults(arg, rank, h, st) == Ok(l4) && GenerateHelptext(arg, l4, st).Ok?
    ensures Lower(arg, rank, h, st).Ok?
    ensures Lower(arg, rank, h, st).value.help == GenerateHelptext(arg, l4, st).value.help
    ensures Lower(arg, rank, h, st).value.default == l4.default
  {
  }

  /**
   * A concrete default other than `None`, of an argument built from its type, is handed over
   * as the tuple of its `as_str` tokens, and the help shows those tokens.
   */
  lemma DefaultsAsTokens(arg: ArgumentDefinition, rank: map<string, nat>, h: Helpers, st: Sentinels, b: Built)
    requires Ranked(arg.typeFromTypevar, rank)
    requires Fixed !in arg.field.markers && !FlagCandidate(arg)
    requires FromType(arg.field.typ, arg.typeFromTypevar, rank, h) == Ok(b)
    requires arg.field.default.Concrete? && arg.field.default.v != PyNone
    ensures Lower(arg, rank, h, st).Ok?
    ensures Lower(arg, rank, h, st).value.default == Concrete(StrTuple(AsStr(arg.field.default.v)))
    ensures Lower(arg, rank, h, st).value.help == Some(HelpWith(arg, "(default: " + Join(" ", AsStr(arg.field.default.v)) + ")"))
  {
    BuiltDefaults(arg, rank, h, st, b);
    var l4 := BuiltLowered(arg, b, st);
    var xs := AsStr(arg.field.default.v);
    assert l4.default == Concrete(StrTuple(xs));
    StrTupleTokens(xs);
    var last := "(default: " + Join(" ", xs) + ")";
    assert DefaultText(arg, l4, l4.default, st) == last;
    assert GenerateHelptext(arg, l4, st) == Ok(l4.(help := Some(HelpWith(arg, last))));
    LastRules(arg, rank, h, st, l4);
  }

  /** A `None` default of an argument built from its type stays `None`, and the help says so. */
  lemma DefaultNoneHelp(arg: ArgumentDefinition, rank: map<string, nat>, h: Helpers, st: Sentinels, b: Built)
    requires Ranked(arg.typeFromTypevar, rank)
    requires Fixed !in arg.field.markers && !FlagCandidate(arg)
    requires FromType(arg.field.typ, arg.typeFromTypevar, rank, h) == Ok(b)
    requires arg.field.default == Concrete(PyNone)
    ensures Lower(arg, rank, h, st).Ok?
    ensures Lower(arg, rank, h, st).value.default == Concrete(PyNone)
    ensures Lower(arg, rank, h, st).value.help == Some(HelpWith(arg, "(default: None)"))
  {
    BuiltDefaults(arg, rank, h, st, b);
    var l4 := BuiltLowered(arg, b, st);
    assert l4.default == Concrete(PyNone);
    assert DefaultStr(arg.field.default, st) == "None";
    assert "(default: " + "None" + ")" == "(default: None)";
    assert DefaultText(arg, l4, l4.default, st) == "(default: None)";
    assert GenerateHelptext(arg, l4, st) == Ok(l4.(help := Some(HelpWith(arg, "(default: None)"))));
    LastRules(arg, rank, h, st, l4);
  }

  /** A default excluded from the call is handed over as the sentinel's token, and the help calls it unset. */
  lemma DefaultExcludedHelp(arg: ArgumentDefinition, rank: map<string, nat>, h: Helpers, st: Sentinels, b: Built)
    requires Ranked(arg.typeFromTypevar, rank)
    requires Fixed !in arg.field.markers && !FlagCandidate(arg)
    requires FromType(arg.field.typ, arg.typeFromTypevar, rank, h) == Ok(b)
    requires arg.field.default == ExcludeFromCall
    ensures Lower(arg, rank, h, st).Ok?
    ensures Lower(arg, rank, h, st).value.default == Concrete(StrTuple([st.excludeFromCall]))
    ensures Lower(arg, rank, h, st).value.help == Some(HelpWith(arg, "(unset by default)"))
  {
    BuiltDefaults(arg, rank, h, st, b);
    var l4 := BuiltLowered(arg, b, st);
    assert l4.default == Concrete(StrTuple([st.excludeFromCall]));
    assert GenerateHelptext(arg, l4, st) == Ok(l4.(help := Some(HelpWith(arg, "(unset by default)"))));
    LastRules(arg, rank, h, st, l4);
  }

  // ---------------------------------------------------------------------------
  // Help text
  // ---------------------------------------------------------------------------

  /** The `SUPPRESS` marker hides the argument and changes nothing else. */
  lemma SuppressedHelp(arg: ArgumentDefinition, l: Lowered, st: Sentinels)
    requires Suppress in arg.field.markers
    ensures GenerateHelptext(arg, l, st) == Ok(l.(help := Some(SuppressText)))
  {
  }

  /** The docstring is shown with every `%` doubled, which argparse reads back as the docstring. */
  lemma DocstringEscaped(helptext: Option<string>)
    ensures |DocParts(helptext)| <= 1
    ensures |DocParts(helptext)| == 1 <==> helptext.Some? && helptext.value != ""
    ensures |DocParts(helptext)| == 1 ==>
      UnescapePercent(DocParts(helptext)[0]) == helptext.value && PercentsPaired(DocParts(helptext)[0])
  {
    if helptext.Some? && helptext.value != "" {
      EscapePercentRoundTrip(helptext.value);
    }
  }
}
