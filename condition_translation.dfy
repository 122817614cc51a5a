/** The translation of one FetchXML `<condition>` into a Web API filter expression: the
    attribute's property, the operator as a comparison, a string function or a
    `Microsoft.Dynamics.CRM` query function, and the value as a literal of the attribute's
    type. */
module ConditionTranslation {
  import opened Wrappers
  import opened Text
  import opened UrlEncoding
  import opened LikeWildcards
  import opened FetchXml
  import opened Metadata
  import opened Navigation

  // ---- value literals ----

  /** The CLR type a value is converted to before it is written into the URL. */
  datatype ValueType = StringValue | DateTimeValue | BoolValue | GuidValue | IntValue | LongValue | DecimalValue | DoubleValue

  /** The parsing and printing the model does not reproduce: `DateTimeOffset.Parse` with the
      `yyyy-MM-dd` or `u` format, `Guid.Parse(..).ToString()`, and the culture-dependent
      conversion of a string to `decimal` or `double` and back. */
  datatype ValueCodec = ValueCodec(date: string -> Result<string>, guid: string -> Result<string>,
                                   decimal: string -> Result<string>, double: string -> Result<string>)

  /** The literal type of an attribute, by its metadata type code; string when unknown. */
  function ValueTypeOf(t: Option<AttributeTypeCode>): ValueType {
    match t
    case Some(Money) => DecimalValue
    case Some(Decimal) => DecimalValue
    case Some(BigInt) => LongValue
    case Some(Boolean) => BoolValue
    case Some(Double) => DoubleValue
    case Some(Integer) => IntValue
    case Some(State) => IntValue
    case Some(Status) => IntValue
    case Some(Picklist) => IntValue
    case Some(EntityName) => IntValue
    case Some(Uniqueidentifier) => GuidValue
    case Some(Lookup) => GuidValue
    case Some(Customer) => GuidValue
    case Some(Owner) => GuidValue
    case Some(DateTime) => DateTimeValue
    case _ => StringValue
  }

  /** The OData string literal: quotes doubled, then URL-encoded, between single quotes. */
  function QuotedString(s: string): string {
    "'" + UrlEncode(Replace(s, "'", "''")) + "'"
  }

  /** A single-quoted literal with no quote inside, so the quotes delimit it unambiguously. */
  predicate IsQuotedLiteral(t: string) {
    |t| >= 2 && t[0] == '\'' && t[|t| - 1] == '\'' && '\'' !in t[1..|t| - 1]
  }

  /** `FormatValue(type, s)`, with `None` for a null string. */
  function FormatValue(codec: ValueCodec, t: ValueType, s: Option<string>): (r: Result<string>)
    ensures s.None? && t != BoolValue ==> r.Err?
    ensures t == StringValue && s.Some? ==> r == Ok(QuotedString(s.value)) && IsQuotedLiteral(r.value)
    ensures t == BoolValue ==> r.Ok? && (r.value == "true" <==> s == Some("1")) && (r.value == "false" <==> s != Some("1"))
    ensures t == IntValue ==> (r.Ok? <==> s.Some? && ParseInteger(s.value, Int32Min, Int32Max).Ok?)
    ensures t == LongValue ==> (r.Ok? <==> s.Some? && ParseInteger(s.value, Int64Min, Int64Max).Ok?)
    // an integer literal denotes the number the value denotes
    ensures t == IntValue && r.Ok? ==> ParseInteger(r.value, Int32Min, Int32Max) == ParseInteger(s.value, Int32Min, Int32Max)
    ensures t == LongValue && r.Ok? ==> ParseInteger(r.value, Int64Min, Int64Max) == ParseInteger(s.value, Int64Min, Int64Max)
  {
    match t
    case StringValue =>
      if s.None? then Err(NullReference("Object reference not set to an instance of an object."))
      else
        QuotedLiteralOfQuotedString(s.value);
        Ok(QuotedString(s.value))
    case DateTimeValue =>
      if s.None? then Err(NullReference("Value cannot be null. (Parameter 'input')")) else codec.date(s.value)
    case BoolValue =>
      Ok(if s == Some("1") then "true" else "false")
    case GuidValue =>
      if s.None? then Err(NullReference("Value cannot be null. (Parameter 'input')")) else codec.guid(s.value)
    case IntValue =>
      if s.None? then Err(InvalidCast("Null object cannot be converted to a value type."))
      else
        var n :- ParseInteger(s.value, Int32Min, Int32Max);
        IntegerLiteral(n, Int32Min, Int32Max);
        Ok(UrlEncode(IntToString(n)))
    case LongValue =>
      if s.None? then Err(InvalidCast("Null object cannot be converted to a value type."))
      else
        var n :- ParseInteger(s.value, Int64Min, Int64Max);
        IntegerLiteral(n, Int64Min, Int64Max);
        Ok(UrlEncode(IntToString(n)))
    case DecimalValue =>
      if s.None? then Err(InvalidCast("Null object cannot be converted to a value type."))
      else var text :- codec.decimal(s.value); Ok(UrlEncode(text))
    case DoubleValue =>
      if s.None? then Err(InvalidCast("Null object cannot be converted to a value type."))
      else var text :- codec.double(s.value); Ok(UrlEncode(text))
  }

  /** An integer's decimal form is left alone by URL encoding and parses back to it. */
  lemma IntegerLiteral(n: int, lo: int, hi: int)
    requires lo <= n <= hi
    ensures UrlEncode(IntToString(n)) == IntToString(n)
    ensures ParseInteger(UrlEncode(IntToString(n)), lo, hi) == Ok(n)
  {
    var s := IntToString(n);
    var d := NatToString(if n < 0 then -n else n);
    assert AllUrlSafe(d);
    if n < 0 {
      assert s == "-" + d;
      assert forall i :: 1 <= i < |s| ==> s[i] == d[i - 1];
    }
    assert AllUrlSafe(s);
    UrlEncodeSafe(s);
    IntToStringParses(n, lo, hi);
  }

  lemma QuotedLiteralOfQuotedString(s: string)
    ensures IsQuotedLiteral(QuotedString(s))
  {
    var e := UrlEncode(Replace(s, "'", "''"));
    UrlEncodeOutputAlphabet(Replace(s, "'", "''"));
    var t := QuotedString(s);
    assert t[1..|t| - 1] == e;
  }

  /** OData's reading of a string literal's body: a doubled quote stands for one quote. */
  function UndoubleQuotes(t: string): string
    decreases |t|
  {
    if |t| >= 2 && t[0] == '\'' && t[1] == '\'' then "'" + UndoubleQuotes(t[2..])
    else if t == [] then []
    else [t[0]] + UndoubleQuotes(t[1..])
  }

  /** Doubling the quotes is undone by reading the literal back. */
  lemma {:induction false} UndoubleDoubledQuotes(s: string)
    ensures UndoubleQuotes(Replace(s, "'", "''")) == s
  {
    if s != [] {
      UndoubleDoubledQuotes(s[1..]);
      var rest := Replace(s[1..], "'", "''");
      if s[0] == '\'' {
        ReplaceHit(s[1..], "'", "''");
        assert "'" + s[1..] == s;
        assert ("''" + rest)[2..] == rest;
      } else {
        ReplaceCons(s[0], s[1..], "'", "''");
        assert [s[0]] + s[1..] == s;
        assert ([s[0]] + rest)[1..] == rest;
      }
    }
  }

  /** A string literal decodes to the value: percent-decoding its body gives the UTF-8 bytes
      of the value with doubled quotes, and undoubling those gives the value back. */
  lemma StringLiteralRoundTrip(s: string)
    ensures var t := QuotedString(s);
      PercentDecode(t[1..|t| - 1]) == Utf8String(Replace(s, "'", "''"))
      && UndoubleQuotes(Replace(s, "'", "''")) == s
  {
    var t := QuotedString(s);
    assert t[1..|t| - 1] == UrlEncode(Replace(s, "'", "''"));
    PercentDecodeUrlEncode(Replace(s, "'", "''"));
    UndoubleDoubledQuotes(s);
  }

  /** Every value of a list formatted in order; the first failure wins. */
  function FormatAll(codec: ValueCodec, t: ValueType, values: seq<string>): (r: Result<seq<string>>)
    ensures r.Ok? ==> |r.value| == |values| && forall i :: 0 <= i < |values| ==> FormatValue(codec, t, Some(values[i])) == Ok(r.value[i])
    ensures r.Err? ==> exists i :: 0 <= i < |values| && FormatValue(codec, t, Some(values[i])) == Err(r.error)
  {
    if values == [] then Ok([])
    else
      var head :- FormatValue(codec, t, Some(values[0]));
      var tail :- FormatAll(codec, t, values[1..]);
      Ok([head] + tail)
  }

  /** The values as numbered parameters `Property1=..`, `Property2=..`. */
  function FormatNumbered(codec: ValueCodec, t: ValueType, values: seq<string>): (r: Result<seq<string>>)
    ensures r.Ok? ==> |r.value| == |values| && forall i :: 0 <= i < |values| ==>
      exists v :: FormatValue(codec, t, Some(values[i])) == Ok(v) && r.value[i] == "Property" + IntToString(i + 1) + "=" + v
    ensures r.Err? ==> exists i :: 0 <= i < |values| && FormatValue(codec, t, Some(values[i])) == Err(r.error)
  {
    var literals :- FormatAll(codec, t, values);
    Ok(seq(|literals|, i requires 0 <= i < |literals| => "Property" + IntToString(i + 1) + "=" + literals[i]))
  }

  // ---- operators ----

  /** How many values a query function takes: none, the `value` attribute, the `<value>`
      children as numbered parameters, or the `<value>` children as a list. */
  datatype Arity = NoValue | OneValue | Numbered | ValueList

  /** What the translator makes of an operator. */
  datatype OperatorForm =
    | Comparison(symbol: string)                 // `<property> <symbol> <value>`
    | NullTest(test: string)                     // `<property> eq null`, `<property> ne null`
    | LikeMatch(negated: bool)                   // `eq`, `contains`, `startswith` or `endswith` by the `%` wildcards
    | StringMatch(func: string, negated: bool)   // `startswith(..)` or `endswith(..)` on the value
    | QueryFunction(name: string, arity: Arity, parameterType: ValueType)
    | Unsupported(spelling: string)

  /** The operator table of `GetCondition`. */
  function FormOf(op: Operator): (f: OperatorForm)
    ensures f.Unsupported? <==> op.Unrecognised?
    ensures f.QueryFunction? ==> f.parameterType == StringValue || f.parameterType == LongValue
    ensures f.QueryFunction? && f.parameterType == LongValue ==> f.arity == OneValue || f.arity == Numbered
  {
    match op
    case Eq => Comparison("eq")
    case Ne => Comparison("ne")
    case Lt => Comparison("lt")
    case Le => Comparison("le")
    case Gt => Comparison("gt")
    case Ge => Comparison("ge")
    case Neq => Comparison("ne")
    case Null => NullTest(" eq null")
    case NotNull => NullTest(" ne null")
    case Like => LikeMatch(false)
    case NotLike => LikeMatch(true)
    case BeginsWith => StringMatch("startswith", false)
    case NotBeginWith => StringMatch("startswith", true)
    case EndsWith => StringMatch("endswith", false)
    case NotEndWith => StringMatch("endswith", true)
    case Above => QueryFunction("Above", OneValue, StringValue)
    case EqOrAbove => QueryFunction("AboveOrEqual", OneValue, StringValue)
    case Between => QueryFunction("Between", ValueList, StringValue)
    case ContainValues => QueryFunction("ContainValues", ValueList, StringValue)
    case NotContainValues => QueryFunction("DoesNotContainValues", ValueList, StringValue)
    case EqBusinessId => QueryFunction("EqualBusinessId", NoValue, StringValue)
    case EqUserId => QueryFunction("EqualUserId", NoValue, StringValue)
    case EqUserLanguage => QueryFunction("EqualUserLanguage", NoValue, StringValue)
    case EqUserOrUserHierarchy => QueryFunction("EqualUserOrUserHierarchy", NoValue, StringValue)
    case EqUserOrUserHierarchyAndTeams => QueryFunction("EqualUserOrUserHierarchyAndTeams", NoValue, StringValue)
    case EqUserOrUserTeams => QueryFunction("EqualUserOrUserTeams", NoValue, StringValue)
    case EqUserTeams => QueryFunction("EqualUserTeams", NoValue, StringValue)
    case In => QueryFunction("In", ValueList, StringValue)
    case InFiscalPeriod => QueryFunction("InFiscalPeriod", OneValue, LongValue)
    case InFiscalPeriodAndYear => QueryFunction("InFiscalPeriodAndYear", Numbered, LongValue)
    case InFiscalYear => QueryFunction("InFiscalYear", OneValue, LongValue)
    case InOrAfterFiscalPeriodAndYear => QueryFunction("InOrAfterFiscalPeriodAndYear", Numbered, LongValue)
    case InOrBeforeFiscalPeriodAndYear => QueryFunction("InOrBeforeFiscalPeriodAndYear", Numbered, LongValue)
    case LastSevenDays => QueryFunction("Last7Days", NoValue, StringValue)
    case LastFiscalPeriod => QueryFunction("LastFiscalPeriod", NoValue, StringValue)
    case LastFiscalYear => QueryFunction("LastFiscalYear", NoValue, StringValue)
    case LastMonth => QueryFunction("LastMonth", NoValue, StringValue)
    case LastWeek => QueryFunction("LastWeek", NoValue, StringValue)
    case LastXDays => QueryFunction("LastXDays", OneValue, LongValue)
    case LastXFiscalPeriods => QueryFunction("LastXFiscalPeriods", OneValue, LongValue)
    case LastXFiscalYears => QueryFunction("LastXFiscalYears", OneValue, LongValue)
    case LastXHours => QueryFunction("LastXHours", OneValue, LongValue)
    case LastXMonths => QueryFunction("LastXMonths", OneValue, LongValue)
    case LastXWeeks => QueryFunction("LastXWeeks", OneValue, LongValue)
    case LastXYears => QueryFunction("LastXYears", OneValue, LongValue)
    case LastYear => QueryFunction("LastYear", NoValue, StringValue)
    case NextSevenDays => QueryFunction("Next7Days", NoValue, StringValue)
    case NextFiscalPeriod => QueryFunction("NextFiscalPeriod", NoValue, StringValue)
    case NextFiscalYear => QueryFunction("NextFiscalYear", NoValue, StringValue)
    case NextMonth => QueryFunction("NextMonth", NoValue, StringValue)
    case NextWeek => QueryFunction("NextWeek", NoValue, StringValue)
    case NextXDays => QueryFunction("NextXDays", OneValue, LongValue)
    case NextXFiscalPeriods => QueryFunction("NextXFiscalPeriods", OneValue, LongValue)
    case NextXFiscalYears => QueryFunction("NextXFiscalYears", OneValue, LongValue)
    case NextXHours => QueryFunction("NextXHours", OneValue, LongValue)
    case NextXMonths => QueryFunction("NextXMonths", OneValue, LongValue)
    case NextXWeeks => QueryFunction("NextXWeeks", OneValue, LongValue)
    case NextXYears => QueryFunction("NextXYears", OneValue, LongValue)
    case NextYear => QueryFunction("NextYear", NoValue, StringValue)
    case NotBetween => QueryFunction("NotBetween", ValueList, StringValue)
    case NeBusinessId => QueryFunction("NotEqualBusinessId", NoValue, StringValue)
    case NeUserId => QueryFunction("NotEqualUserId", NoValue, StringValue)
    case NotIn => QueryFunction("NotIn", ValueList, StringValue)
    case NotUnder => QueryFunction("NotUnder", OneValue, StringValue)
    case OlderThanXDays => QueryFunction("OlderThanXDays", OneValue, LongValue)
    case OlderThanXHours => QueryFunction("OlderThanXHours", OneValue, LongValue)
    case OlderThanXMinutes => QueryFunction("OlderThanXMinutes", OneValue, LongValue)
    case OlderThanXMonths => QueryFunction("OlderThanXMonths", OneValue, LongValue)
    case OlderThanXWeeks => QueryFunction("OlderThanXWeeks", OneValue, LongValue)
    case OlderThanXYears => QueryFunction("OlderThanXYears", OneValue, LongValue)
    case On => QueryFunction("On", OneValue, StringValue)
    case OnOrAfter => QueryFunction("OnOrAfter", OneValue, StringValue)
    case OnOrBefore => QueryFunction("OnOrBefore", OneValue, StringValue)
    case ThisFiscalPeriod => QueryFunction("ThisFiscalPeriod", NoValue, StringValue)
    case ThisFiscalYear => QueryFunction("ThisFiscalYear", NoValue, StringValue)
    case ThisMonth => QueryFunction("ThisMonth", NoValue, StringValue)
    case ThisWeek => QueryFunction("ThisWeek", NoValue, StringValue)
    case ThisYear => QueryFunction("ThisYear", NoValue, StringValue)
    case Today => QueryFunction("Today", NoValue, StringValue)
    case Tomorrow => QueryFunction("Tomorrow", NoValue, StringValue)
    case Under => QueryFunction("Under", OneValue, StringValue)
    case EqOrUnder => QueryFunction("UnderOrEqual", OneValue, StringValue)
    case Yesterday => QueryFunction("Yesterday", NoValue, StringValue)
    case Unrecognised(spelling) => Unsupported(spelling)
  }

  // ---- LIKE patterns ----

  /** A LIKE value taken apart: whether it began and ended with `%`, and the text between
      with its escaped wildcards decoded. */
  datatype LikeParts = LikeParts(initial: bool, terminal: bool, text: string)

  /** Whether a LIKE value starts with `%`. */
  predicate HasInitialWildcard(value: string) {
    value != [] && value[0] == '%'
  }

  /** A LIKE value once a leading `%` is removed. */
  function AfterInitial(value: string): string {
    if HasInitialWildcard(value) then value[1..] else value
  }

  /** Whether a LIKE value ends with `%` once a leading `%` is removed. */
  predicate HasTerminalWildcard(value: string) {
    var v := AfterInitial(value);
    v != [] && v[|v| - 1] == '%'
  }

  /** The middle of a LIKE value once one leading and one trailing `%` are removed. */
  function LikeCore(value: string): string {
    var v := AfterInitial(value);
    if HasTerminalWildcard(value) then v[..|v| - 1] else v
  }

  function LikePattern(value: string): (r: Result<LikeParts>)
    ensures r.Ok? <==> WildcardsEscaped(LikeCore(value))
    ensures r.Ok? ==> r.value == LikeParts(HasInitialWildcard(value), HasTerminalWildcard(value), Unescaped(LikeCore(value)))
  {
    var core := LikeCore(value);
    if WildcardsEscaped(core) then
      UnescapeDecodesAcceptedPatterns(core);
      Ok(LikeParts(HasInitialWildcard(value), HasTerminalWildcard(value), UnescapeLikeWildcards(core)))
    else
      Err(NotSupported("OData queries do not support complex LIKE wildcards. Only % at the start or end of the value is supported"))
  }

  /** The escaping a FetchXML author applies to a literal: each `%`, `_` and `[` bracketed. */
  function EscapeLike(x: string): (r: string)
    ensures x != [] ==> r != [] && r[0] != '%' && r[|r| - 1] != '%'
  {
    if x == [] then []
    else (if IsBracketable(x[0]) then ['[', x[0], ']'] else [x[0]]) + EscapeLike(x[1..])
  }

  lemma {:induction false} EscapeLikeAccepted(x: string)
    requires ']' !in x
    ensures WildcardsEscaped(EscapeLike(x)) && Unescaped(EscapeLike(x)) == x
  {
    if x != [] {
      EscapeLikeAccepted(x[1..]);
      var e := EscapeLike(x);
      var rest := EscapeLike(x[1..]);
      if IsBracketable(x[0]) {
        assert e == ['[', x[0], ']'] + rest;
        assert e[3..] == rest;
      } else {
        assert e == [x[0]] + rest;
        assert e[1..] == rest;
      }
      assert [x[0]] + x[1..] == x;
    }
  }

  /** A text wrapped in the chosen wildcards. */
  function Wrap(e: string, initial: bool, terminal: bool): string {
    (if initial then "%" else "") + e + (if terminal then "%" else "")
  }

  lemma InitialOfWrapped(e: string, initial: bool, terminal: bool)
    requires e != [] && e[0] != '%'
    ensures HasInitialWildcard(Wrap(e, initial, terminal)) == initial
    ensures AfterInitial(Wrap(e, initial, terminal)) == e + (if terminal then "%" else "")
  {
    var v := e + (if terminal then "%" else "");
    if initial {
      assert Wrap(e, initial, terminal) == "%" + v;
      assert ("%" + v)[1..] == v;
    } else {
      assert Wrap(e, initial, terminal) == v;
      assert v[0] == e[0];
    }
  }

  lemma TerminalOfWrapped(e: string, terminal: bool)
    requires e != [] && e[|e| - 1] != '%'
    ensures var v := e + (if terminal then "%" else "");
      (v != [] && v[|v| - 1] == '%') == terminal && (if terminal then v[..|v| - 1] else v) == e
  {
    var v := e + (if terminal then "%" else "");
    if terminal {
      assert v == e + "%";
      assert v[..|v| - 1] == e;
    } else {
      assert v == e;
    }
  }

  /** The wildcards around a text that neither starts nor ends with `%` are recognised. */
  lemma LikeCoreOfWrapped(e: string, initial: bool, terminal: bool)
    requires e != [] && e[0] != '%' && e[|e| - 1] != '%'
    ensures var value := Wrap(e, initial, terminal);
      HasInitialWildcard(value) == initial && HasTerminalWildcard(value) == terminal && LikeCore(value) == e
  {
    InitialOfWrapped(e, initial, terminal);
    TerminalOfWrapped(e, terminal);
  }

  /** A literal escaped and wrapped in the wildcards is taken apart into the same literal
      and wildcards: the LIKE translation loses nothing for values without `]`. */
  lemma LikePatternRoundTrip(x: string, initial: bool, terminal: bool)
    requires x != [] && ']' !in x
    ensures LikePattern(Wrap(EscapeLike(x), initial, terminal)) == Ok(LikeParts(initial, terminal, x))
  {
    LikeCoreOfWrapped(EscapeLike(x), initial, terminal);
    EscapeLikeAccepted(x);
  }

  // ---- conditions ----

  /** `GetPropertyName(attr)`: a lookup is filtered through its `_<name>_value` property. */
  function GetPropertyName(attr: AttributeMetadata): (r: string) {
    if attr.isLookup then "_" + attr.logicalName + "_value" else attr.logicalName
  }

  /** The entity a condition applies to and the navigation path in front of its property:
      the current entity and path, or the link its `entityname` names. */
  function ConditionTarget(store: MetadataStore, entityName: string, linkAlias: string, rootItems: seq<Item>, navigation: string)
    : (r: Result<(string, string)>)
    ensures linkAlias == "" && r.Ok? ==> r.value == (entityName, navigation)
    ensures linkAlias != "" && r.Ok? ==>
      FindLinkEntity(store, entityName, rootItems, linkAlias).Ok?
      && FindLinkEntity(store, entityName, rootItems, linkAlias).value.Some?
      && var found := FindLinkEntity(store, entityName, rootItems, linkAlias).value.value;
         !found.child && r.value == (found.link.name, found.navigation)
         && AliasMatches(found.link, linkAlias) && InTree(found.link, rootItems)
    ensures linkAlias != "" && FindLinkEntity(store, entityName, rootItems, linkAlias) == Ok(None) ==>
      r == Err(NotSupported("Cannot find filter entity " + linkAlias))
    // filters on links below the first level are refused
    ensures r.Ok? ==> SplitCount(r.value.1, '/') < 3
  {
    var target :- if linkAlias == "" then Ok((entityName, navigation)) else LinkTarget(store, entityName, rootItems, linkAlias);
    :- Need(SplitCount(target.1, '/') < 3, NotSupported("Cannot filter on nested link-entity " + target.1 + ". Try rearranging your query to have filters in first-level link-entities only"));
    Ok(target)
  }

  /** The entity and navigation path of the link a condition's `entityname` names. */
  function LinkTarget(store: MetadataStore, entityName: string, rootItems: seq<Item>, linkAlias: string): (r: Result<(string, string)>)
    ensures r.Ok? ==>
      FindLinkEntity(store, entityName, rootItems, linkAlias).Ok?
      && FindLinkEntity(store, entityName, rootItems, linkAlias).value.Some?
      && var found := FindLinkEntity(store, entityName, rootItems, linkAlias).value.value;
         !found.child && r.value == (found.link.name, found.navigation)
         && AliasMatches(found.link, linkAlias) && InTree(found.link, rootItems)
    ensures FindLinkEntity(store, entityName, rootItems, linkAlias) == Ok(None) ==>
      r == Err(NotSupported("Cannot find filter entity " + linkAlias))
  {
    var found :- FindLinkEntity(store, entityName, rootItems, linkAlias);
    :- Need(found.Some?, NotSupported("Cannot find filter entity " + linkAlias));
    :- Need(!found.value.child, NotSupported("Cannot apply filter to child collection " + found.value.navigation));
    Ok((found.value.link.name, found.value.navigation))
  }

  /** A value is appended as a literal: it is present, non-empty, and the expression built
      so far holds no parenthesis. */
  predicate TakesLiteral(result: string, value: Option<string>) {
    value.Some? && value.value != "" && '(' !in result
  }

  /** The final step of `GetCondition`: a value is appended as a literal of the attribute's
      type unless the expression already holds a parenthesis; otherwise a `valueof` column. */
  function AppendValue(codec: ValueCodec, result: string, value: Option<string>, valueOf: string, attr: AttributeMetadata)
    : (r: Result<string>)
    ensures r.Ok? ==> StartsWith(r.value, result)
    // the literal of the attribute's type follows the expression, and only its failure fails
    ensures TakesLiteral(result, value) ==> (r.Ok? <==> FormatValue(codec, ValueTypeOf(attr.attributeType), value).Ok?)
    ensures TakesLiteral(result, value) && r.Ok? ==> r.value == result + FormatValue(codec, ValueTypeOf(attr.attributeType), value).value
    // otherwise the `valueof` column follows it, and an absent one adds nothing
    ensures !TakesLiteral(result, value) ==> r == Ok(result + valueOf)
  {
    if value.Some? && value.value != "" && '(' !in result then
      var literal :- FormatValue(codec, ValueTypeOf(attr.attributeType), value);
      StartsWithConcat(result, literal);
      Ok(result + literal)
    else if valueOf != "" then
      StartsWithConcat(result, valueOf);
      Ok(result + valueOf)
    else
      StartsWithConcat(result, "");
      assert result + valueOf == result;
      Ok(result)
  }

  /** The start of every query-function call: `<path>Microsoft.Dynamics.CRM.<name>(PropertyName='<attribute>'`. */
  function FunctionPrefix(name: string, navigation: string, attr: AttributeMetadata): string {
    navigation + "Microsoft.Dynamics.CRM." + UrlEncode(name) + "(PropertyName='" + UrlEncode(attr.logicalName) + "'"
  }

  /** The query-function call `<path>Microsoft.Dynamics.CRM.<name>(PropertyName='<attribute>'..)`. */
  function FunctionCall(codec: ValueCodec, name: string, arity: Arity, parameterType: ValueType, value: Option<string>,
                        values: Option<seq<string>>, navigation: string, attr: AttributeMetadata): (r: Result<string>)
    ensures r.Ok? ==> StartsWith(r.value, FunctionPrefix(name, navigation, attr)) && r.value[|r.value| - 1] == ')'
    ensures arity == NoValue ==> r == Ok(FunctionPrefix(name, navigation, attr) + ")")
    ensures arity == OneValue ==> (r.Ok? <==> FormatValue(codec, parameterType, value).Ok?)
    ensures arity == OneValue && r.Ok? ==>
      r.value == FunctionPrefix(name, navigation, attr) + ",PropertyValue=" + FormatValue(codec, parameterType, value).value + ")"
    ensures arity == ValueList ==> (r.Ok? <==> values.Some? && FormatAll(codec, parameterType, values.value).Ok?)
    ensures arity == ValueList && r.Ok? ==>
      r.value == FunctionPrefix(name, navigation, attr) + ",PropertyValues=[" + Join(",", FormatAll(codec, parameterType, values.value).value) + "])"
    ensures arity == Numbered ==> (r.Ok? <==> values.Some? && FormatNumbered(codec, parameterType, values.value).Ok?)
    ensures arity == Numbered && r.Ok? ==>
      r.value == FunctionPrefix(name, navigation, attr) + "," + Join(",", FormatNumbered(codec, parameterType, values.value).value) + ")"
  {
    var call := FunctionPrefix(name, navigation, attr);
    match arity
    case ValueList =>
      if values.None? then Err(NullReference("Value cannot be null. (Parameter 'source')"))
      else
        var literals :- FormatAll(codec, parameterType, values.value);
        StartsWithConcat(call, ",PropertyValues=[" + Join(",", literals) + "])");
        Ok(call + ",PropertyValues=[" + Join(",", literals) + "])")
    case NoValue =>
      StartsWithConcat(call, ")");
      Ok(call + ")")
    case OneValue =>
      var literal :- FormatValue(codec, parameterType, value);
      StartsWithConcat(call, ",PropertyValue=" + literal + ")");
      Ok(call + ",PropertyValue=" + literal + ")")
    case Numbered =>
      if values.None? then Err(NullReference("Value cannot be null. (Parameter 'source')"))
      else
        var parameters :- FormatNumbered(codec, parameterType, values.value);
        StartsWithConcat(call, "," + Join(",", parameters) + ")");
        Ok(call + "," + Join(",", parameters) + ")")
  }

  /** The expression for an operator, once the attribute and the path are known; `value`,
      `values` and `valueOf` are the condition's. */
  function ApplyOperator(codec: ValueCodec, form: OperatorForm, value: Option<string>, values: Option<seq<string>>,
                         valueOf: string, navigation: string, attr: AttributeMetadata): (r: Result<string>)
    // a comparison or null test is `<path><property>` and the operator, then the value
    ensures form.Comparison? ==>
      r == AppendValue(codec, navigation + GetPropertyName(attr) + " " + form.symbol + " ", value, valueOf, attr)
    ensures form.NullTest? ==> r == AppendValue(codec, navigation + GetPropertyName(attr) + form.test, value, valueOf, attr)
    // the string operators test the property or the encoded column name
    ensures form.LikeMatch? && value.Some? ==>
      r == LikeCondition(codec, form.negated, value.value, valueOf, navigation + GetPropertyName(attr),
                         UrlEncode(navigation + attr.logicalName), attr)
    ensures form.StringMatch? && value.Some? ==>
      r == StringMatchCondition(codec, form.func, form.negated, value.value, valueOf, UrlEncode(navigation + attr.logicalName), attr)
    ensures (form.LikeMatch? || form.StringMatch?) && value.None? ==> r.Err?
    // a query function is called on the path, whatever the value
    ensures form.QueryFunction? ==>
      r == FunctionCall(codec, form.name, form.arity, form.parameterType, value, values, navigation, attr)
    ensures form.Unsupported? ==> r == Err(NotSupported("Unsupported OData condition operator '" + form.spelling + "'"))
  {
    var property := navigation + GetPropertyName(attr);
    var column := UrlEncode(navigation + attr.logicalName);
    match form
    case Comparison(symbol) => AppendValue(codec, property + " " + symbol + " ", value, valueOf, attr)
    case NullTest(test) => AppendValue(codec, property + test, value, valueOf, attr)
    case LikeMatch(negated) =>
      if value.None? then Err(NullReference("Object reference not set to an instance of an object."))
      else LikeCondition(codec, negated, value.value, valueOf, property, column, attr)
    case StringMatch(func, negated) =>
      if value.None? then Err(NullReference("Object reference not set to an instance of an object."))
      else StringMatchCondition(codec, func, negated, value.value, valueOf, column, attr)
    case QueryFunction(name, arity, parameterType) => FunctionCall(codec, name, arity, parameterType, value, values, navigation, attr)
    case Unsupported(spelling) => Err(NotSupported("Unsupported OData condition operator '" + spelling + "'"))
  }

  /** A `like` or `not-like` condition on a non-null value. */
  function LikeCondition(codec: ValueCodec, negated: bool, value: string, valueOf: string, property: string, column: string,
                         attr: AttributeMetadata): (r: Result<string>)
    ensures LikePattern(value).Err? ==> r == Err(LikePattern(value).error)
    // without wildcards: an equality with the decoded text as the value
    ensures LikePattern(value).Ok? && !LikePattern(value).value.initial && !LikePattern(value).value.terminal ==>
      r == AppendValue(codec, if negated then "not " + (property + " eq ") else property + " eq ",
                       Some(LikePattern(value).value.text), valueOf, attr)
    // with wildcards: the string function on the quoted decoded text, never followed by a literal
    ensures LikePattern(value).Ok? && (LikePattern(value).value.initial || LikePattern(value).value.terminal) ==>
      var parts := LikePattern(value).value;
      var call := LikeFunction(parts) + "(" + column + ", " + QuotedString(parts.text) + ")";
      r == Ok((if negated then "not " + call else call) + valueOf)
  {
    match LikePattern(value)
    case Err(e) => Err(e)
    case Ok(parts) =>
      var test := LikeTest(parts, property, column);
      assert parts.initial || parts.terminal ==> '(' in test by {
        if parts.initial || parts.terminal {
          assert test[|LikeFunction(parts)|] == '(';
        }
      }
      assert '(' in test ==> '(' in "not " + test by {
        if '(' in test {
          var k :| 0 <= k < |test| && test[k] == '(';
          assert ("not " + test)[k + 4] == '(';
        }
      }
      AppendValue(codec, if negated then "not " + test else test, Some(parts.text), valueOf, attr)
  }

  /** A `begins-with`, `ends-with` or negated condition on a non-null value: the string
      function on the quoted value, never followed by a literal. */
  function StringMatchCondition(codec: ValueCodec, func: string, negated: bool, value: string, valueOf: string, column: string,
                                attr: AttributeMetadata): (r: Result<string>)
    ensures var call := func + "(" + column + ", " + QuotedString(value) + ")";
      r == Ok((if negated then "not " + call else call) + valueOf)
  {
    var test := func + "(" + column + ", " + QuotedString(value) + ")";
    assert test[|func|] == '(';
    assert ("not " + test)[|func| + 4] == '(';
    AppendValue(codec, if negated then "not " + test else test, Some(value), valueOf, attr)
  }

  /** The test a LIKE value becomes: an equality without wildcards, otherwise a string
      function on the decoded text. */
  function LikeTest(parts: LikeParts, property: string, column: string): string {
    if !parts.initial && !parts.terminal then property + " eq "
    else LikeFunction(parts) + "(" + column + ", " + QuotedString(parts.text) + ")"
  }

  /** The string function a LIKE with wildcards becomes. */
  function LikeFunction(parts: LikeParts): string {
    if parts.initial && parts.terminal then "contains" else if parts.initial then "endswith" else "startswith"
  }

  /** `GetCondition(entityName, condition, rootItems, navigation)`. */
  function GetCondition(store: MetadataStore, codec: ValueCodec, entityName: string, c: Condition, rootItems: seq<Item>,
                        navigation: string): (r: Result<string>)
    ensures c.attribute == "" ==> r == Ok("")
    // a rendered condition is the operator's expression on the attribute the target entity
    // defines under that name, at the target's path
    ensures c.attribute != "" && r.Ok? ==>
      ConditionTarget(store, entityName, c.entityName, rootItems, navigation).Ok?
      && var target := ConditionTarget(store, entityName, c.entityName, rootItems, navigation).value;
         target.0 in store && FindAttribute(store[target.0], c.attribute).Ok? && FindAttribute(store[target.0], c.attribute).value.Some?
         && r == ApplyOperator(codec, FormOf(c.op), c.value, c.values, c.valueOf, target.1,
                               FindAttribute(store[target.0], c.attribute).value.value)
    ensures c.attribute != "" && c.op.Unrecognised? ==> r.Err?
  {
    if c.attribute == "" then Ok("")
    else ConditionOfForm(store, codec, entityName, c.attribute, c.entityName, FormOf(c.op), c.value, c.values, c.valueOf,
                         rootItems, navigation)
  }

  /** `GetCondition` once the operator is looked up in the table: the target entity and path,
      the attribute's metadata, then the operator's expression. */
  function ConditionOfForm(store: MetadataStore, codec: ValueCodec, entityName: string, attribute: string, linkAlias: string,
                           form: OperatorForm, value: Option<string>, values: Option<seq<string>>, valueOf: string,
                           rootItems: seq<Item>, navigation: string): (r: Result<string>)
    ensures r.Ok? ==>
      ConditionTarget(store, entityName, linkAlias, rootItems, navigation).Ok?
      && var target := ConditionTarget(store, entityName, linkAlias, rootItems, navigation).value;
         target.0 in store && FindAttribute(store[target.0], attribute).Ok? && FindAttribute(store[target.0], attribute).value.Some?
         && r == ApplyOperator(codec, form, value, values, valueOf, target.1, FindAttribute(store[target.0], attribute).value.value)
    // an attribute the target entity does not define is refused
    ensures var target := ConditionTarget(store, entityName, linkAlias, rootItems, navigation);
      target.Ok? && target.value.0 in store && !HasAttribute(store[target.value.0], attribute) ==>
        r == Err(NotSupported("No metadata for attribute: " + target.value.0 + "." + attribute))
    ensures form.Unsupported? ==> r.Err?
  {
    var target :- ConditionTarget(store, entityName, linkAlias, rootItems, navigation);
    var entity :- GetEntity(store, target.0);
    var attr :- FindAttribute(entity, attribute);
    :- Need(attr.Some?, NotSupported("No metadata for attribute: " + target.0 + "." + attribute));
    ApplyOperator(codec, form, value, values, valueOf, target.1, attr.value)
  }

  // ---- how the operators relate ----

  /** `neq` is another spelling of `ne`. */
  lemma NeqIsNe(store: MetadataStore, codec: ValueCodec, entityName: string, c: Condition, rootItems: seq<Item>, navigation: string)
    requires c.op == Neq
    ensures GetCondition(store, codec, entityName, c, rootItems, navigation)
         == GetCondition(store, codec, entityName, c.(op := Ne), rootItems, navigation)
  {
    var d := c.(op := Ne);
    if c.attribute != "" {
      calc {
        GetCondition(store, codec, entityName, c, rootItems, navigation);
        ConditionOfForm(store, codec, entityName, c.attribute, c.entityName, FormOf(Neq), c.value, c.values, c.valueOf, rootItems, navigation);
        { assert FormOf(Neq) == FormOf(Ne); }
        ConditionOfForm(store, codec, entityName, d.attribute, d.entityName, FormOf(Ne), d.value, d.values, d.valueOf, rootItems, navigation);
        GetCondition(store, codec, entityName, d, rootItems, navigation);
      }
    }
  }

  /** `not ` in front of a test does not change what is appended to it. */
  lemma AppendValueAfterNot(codec: ValueCodec, test: string, value: Option<string>, valueOf: string, attr: AttributeMetadata)
    ensures var p := AppendValue(codec, test, value, valueOf, attr);
            var n := AppendValue(codec, "not " + test, value, valueOf, attr);
            (p.Ok? <==> n.Ok?) && (p.Ok? ==> n.value == "not " + p.value)
  {
    NoParenInNot(test);
    if value.Some? && value.value != "" && '(' !in test {
      var literal := FormatValue(codec, ValueTypeOf(attr.attributeType), value);
      if literal.Ok? {
        SeqAssocString("not ", test, literal.value);
      }
    } else if valueOf != "" {
      SeqAssocString("not ", test, valueOf);
    }
  }

  /** `not ` holds no parenthesis. */
  lemma NoParenInNot(test: string)
    ensures ('(' in "not " + test) == ('(' in test)
  {
    if '(' in test {
      var i :| 0 <= i < |test| && test[i] == '(';
      assert ("not " + test)[i + 4] == '(';
    }
    if '(' in "not " + test {
      var i :| 0 <= i < |"not " + test| && ("not " + test)[i] == '(';
      assert i >= 4 && test[i - 4] == '(';
    }
  }

  lemma SeqAssocString(a: string, b: string, c: string)
    ensures (a + b) + c == a + (b + c)
  {
  }

  lemma NegatedLikeIsNot(codec: ValueCodec, value: string, valueOf: string, property: string, column: string,
                         attr: AttributeMetadata)
    ensures var p := LikeCondition(codec, false, value, valueOf, property, column, attr);
            var n := LikeCondition(codec, true, value, valueOf, property, column, attr);
            (p.Ok? <==> n.Ok?) && (p.Ok? ==> n.value == "not " + p.value)
  {
    match LikePattern(value)
    case Ok(parts) =>
      if !parts.initial && !parts.terminal {
        AppendValueAfterNot(codec, property + " eq ", Some(parts.text), valueOf, attr);
      } else {
        var call := LikeFunction(parts) + "(" + column + ", " + QuotedString(parts.text) + ")";
        assert ("not " + call) + valueOf == "not " + (call + valueOf);
      }
    case Err(_) =>
  }

  lemma NegatedStringMatchIsNot(codec: ValueCodec, func: string, value: string, valueOf: string, column: string,
                                attr: AttributeMetadata)
    ensures var p := StringMatchCondition(codec, func, false, value, valueOf, column, attr);
            var n := StringMatchCondition(codec, func, true, value, valueOf, column, attr);
            (p.Ok? <==> n.Ok?) && (p.Ok? ==> n.value == "not " + p.value)
  {
    var call := func + "(" + column + ", " + QuotedString(value) + ")";
    assert ("not " + call) + valueOf == "not " + (call + valueOf);
  }

  /** The negated string operators (`not-like`, `not-begin-with`, `not-end-with`) are the
      plain ones behind `not `. */
  lemma NegatedMatchIsNot(codec: ValueCodec, pos: Operator, neg: Operator, value: Option<string>, values: Option<seq<string>>,
                          valueOf: string, navigation: string, attr: AttributeMetadata)
    requires (pos, neg) == (Like, NotLike) || (pos, neg) == (BeginsWith, NotBeginWith) || (pos, neg) == (EndsWith, NotEndWith)
    ensures var p := ApplyOperator(codec, FormOf(pos), value, values, valueOf, navigation, attr);
            var n := ApplyOperator(codec, FormOf(neg), value, values, valueOf, navigation, attr);
            (p.Ok? <==> n.Ok?) && (p.Ok? ==> n.value == "not " + p.value)
  {
    if pos == Like {
      assert FormOf(pos) == LikeMatch(false) && FormOf(neg) == LikeMatch(true);
      NegatedLikeApplied(codec, value, values, valueOf, navigation, attr);
    } else {
      var func := if pos == BeginsWith then "startswith" else "endswith";
      assert FormOf(pos) == StringMatch(func, false) && FormOf(neg) == StringMatch(func, true);
      NegatedStringMatchApplied(codec, func, value, values, valueOf, navigation, attr);
    }
  }

  lemma NegatedLikeApplied(codec: ValueCodec, value: Option<string>, values: Option<seq<string>>, valueOf: string,
                           navigation: string, attr: AttributeMetadata)
    ensures var p := ApplyOperator(codec, LikeMatch(false), value, values, valueOf, navigation, attr);
            var n := ApplyOperator(codec, LikeMatch(true), value, values, valueOf, navigation, attr);
            (p.Ok? <==> n.Ok?) && (p.Ok? ==> n.value == "not " + p.value)
  {
    if value.Some? {
      var property, column := navigation + GetPropertyName(attr), UrlEncode(navigation + attr.logicalName);
      assert ApplyOperator(codec, LikeMatch(false), value, values, valueOf, navigation, attr)
          == LikeCondition(codec, false, value.value, valueOf, property, column, attr);
      assert ApplyOperator(codec, LikeMatch(true), value, values, valueOf, navigation, attr)
          == LikeCondition(codec, true, value.value, valueOf, property, column, attr);
      NegatedLikeIsNot(codec, value.value, valueOf, property, column, attr);
    }
  }

  lemma NegatedStringMatchApplied(codec: ValueCodec, func: string, value: Option<string>, values: Option<seq<string>>,
                                  valueOf: string, navigation: string, attr: AttributeMetadata)
    ensures var p := ApplyOperator(codec, StringMatch(func, false), value, values, valueOf, navigation, attr);
            var n := ApplyOperator(codec, StringMatch(func, true), value, values, valueOf, navigation, attr);
            (p.Ok? <==> n.Ok?) && (p.Ok? ==> n.value == "not " + p.value)
  {
    if value.Some? {
      NegatedStringMatchIsNot(codec, func, value.value, valueOf, UrlEncode(navigation + attr.logicalName), attr);
    }
  }

  /** A LIKE value without wildcards is an equality test on the decoded value. */
  lemma LikeWithoutWildcardsIsEquality(codec: ValueCodec, x: string, values: Option<seq<string>>, valueOf: string,
                                       navigation: string, attr: AttributeMetadata)
    requires x != [] && ']' !in x
    ensures ApplyOperator(codec, FormOf(Like), Some(EscapeLike(x)), values, valueOf, navigation, attr)
         == ApplyOperator(codec, FormOf(Eq), Some(x), values, valueOf, navigation, attr)
  {
    var property, column := navigation + GetPropertyName(attr), UrlEncode(navigation + attr.logicalName);
    LikeAndEqForms();
    LikePatternRoundTrip(x, false, false);
    assert Wrap(EscapeLike(x), false, false) == EscapeLike(x);
    assert LikeCondition(codec, false, EscapeLike(x), valueOf, property, column, attr)
        == AppendValue(codec, property + " eq ", Some(x), valueOf, attr);
    EqSymbolText(property);
  }

  /** `like` is the LIKE form and `eq` the comparison written `eq`. */
  lemma LikeAndEqForms()
    ensures FormOf(Like) == LikeMatch(false) && FormOf(Eq) == Comparison("eq")
  {
  }

  /** The comparison text of `eq` on a property. */
  lemma EqSymbolText(property: string)
    ensures property + " " + "eq" + " " == property + " eq "
  {
  }

  /** A LIKE value with wildcards is the matching string function on the decoded value,
      with only the `valueof` column, if any, after it. */
  lemma {:induction false} LikeWithWildcardsIsFunction(codec: ValueCodec, x: string, initial: bool, terminal: bool,
                                                       values: Option<seq<string>>, valueOf: string,
                                                       navigation: string, attr: AttributeMetadata)
    requires x != [] && ']' !in x && (initial || terminal)
    ensures ApplyOperator(codec, FormOf(Like), Some(Wrap(EscapeLike(x), initial, terminal)), values, valueOf, navigation, attr)
         == Ok(LikeFunction(LikeParts(initial, terminal, x)) + "(" + UrlEncode(navigation + attr.logicalName) + ", "
               + QuotedString(x) + ")" + valueOf)
  {
    LikePatternRoundTrip(x, initial, terminal);
    assert FormOf(Like) == LikeMatch(false);
  }

  /** `%x%` is `contains(<column>, 'x')`. */
  lemma LikeWithBothWildcardsIsContains(codec: ValueCodec, x: string, values: Option<seq<string>>,
                                        navigation: string, attr: AttributeMetadata)
    requires x != [] && ']' !in x
    ensures ApplyOperator(codec, FormOf(Like), Some(Wrap(EscapeLike(x), true, true)), values, "", navigation, attr)
         == Ok("contains(" + UrlEncode(navigation + attr.logicalName) + ", " + QuotedString(x) + ")")
  {
    LikeWithWildcardsIsFunction(codec, x, true, true, values, "", navigation, attr);
    var f := LikeFunction(LikeParts(true, true, x));
    var column, quoted := UrlEncode(navigation + attr.logicalName), QuotedString(x);
    assert f + "(" == "contains(";
    var call := f + "(" + column + ", " + quoted + ")";
    assert call + "" == call;
    assert call == "contains(" + column + ", " + quoted + ")";
  }

  /** `%x` is `endswith(<column>, 'x')`. */
  lemma LikeWithLeadingWildcardIsEndsWith(codec: ValueCodec, x: string, values: Option<seq<string>>,
                                          navigation: string, attr: AttributeMetadata)
    requires x != [] && ']' !in x
    ensures ApplyOperator(codec, FormOf(Like), Some(Wrap(EscapeLike(x), true, false)), values, "", navigation, attr)
         == Ok("endswith(" + UrlEncode(navigation + attr.logicalName) + ", " + QuotedString(x) + ")")
  {
    LikeWithWildcardsIsFunction(codec, x, true, false, values, "", navigation, attr);
    var f := LikeFunction(LikeParts(true, false, x));
    var column, quoted := UrlEncode(navigation + attr.logicalName), QuotedString(x);
    assert f + "(" == "endswith(";
    var call := f + "(" + column + ", " + quoted + ")";
    assert call + "" == call;
    assert call == "endswith(" + column + ", " + quoted + ")";
  }

  /** `x%` is `startswith(<column>, 'x')`. */
  lemma LikeWithTrailingWildcardIsStartsWith(codec: ValueCodec, x: string, values: Option<seq<string>>,
                                             navigation: string, attr: AttributeMetadata)
    requires x != [] && ']' !in x
    ensures ApplyOperator(codec, FormOf(Like), Some(Wrap(EscapeLike(x), false, true)), values, "", navigation, attr)
         == Ok("startswith(" + UrlEncode(navigation + attr.logicalName) + ", " + QuotedString(x) + ")")
  {
    LikeWithWildcardsIsFunction(codec, x, false, true, values, "", navigation, attr);
    var f := LikeFunction(LikeParts(false, true, x));
    var column, quoted := UrlEncode(navigation + attr.logicalName), QuotedString(x);
    assert f + "(" == "startswith(";
    var call := f + "(" + column + ", " + quoted + ")";
    assert call + "" == call;
    assert call == "startswith(" + column + ", " + quoted + ")";
  }

  // ---- worked examples ----

  /** The attribute `name`, a plain string column. */
  function NameAttribute(): AttributeMetadata {
    AttributeMetadata("name", Some(String), false)
  }

  /** The literal of the string `FXB`, as the equality test expects it. */
  lemma QuotedFXB()
    ensures QuotedString("FXB") == "'FXB'"
  {
    ReplaceAbsent("FXB", "'", "''");
    UrlEncodeSafe("FXB");
  }

  /** The literal of `[FXB`: the bracket is URL-encoded inside the quotes. */
  lemma QuotedBracketFXB()
    ensures QuotedString("[FXB") == "'%5bFXB'"
  {
    ReplaceAbsent("[FXB", "'", "''");
    UrlEncodeAppend("[", "FXB");
    UrlEncodeSafe("FXB");
    assert Utf8('[') == [0x5b];
    assert UrlEncode("[") == "%5b";
  }

  /** `[[]FXB%` is the LIKE pattern for the prefix `[FXB`. */
  lemma EscapedBracketFXB()
    ensures Wrap(EscapeLike("[FXB"), false, true) == "[[]FXB%"
  {
    assert EscapeLike("B") == "B";
    assert EscapeLike("XB") == "XB";
    assert EscapeLike("FXB") == "FXB";
  }

  /** `<condition attribute="name" operator="eq" value="FXB" />` is `name eq 'FXB'`. */
  lemma EqualityExample(codec: ValueCodec)
    ensures ApplyOperator(codec, FormOf(Eq), Some("FXB"), None, "", "", NameAttribute()) == Ok("name eq 'FXB'")
  {
    assert FormOf(Eq) == Comparison("eq");
    QuotedFXB();
    EqualityText();
  }

  /** The text of `name eq ` followed by the literal. */
  lemma EqualityText()
    ensures var test := "" + GetPropertyName(NameAttribute()) + " " + "eq" + " ";
      TakesLiteral(test, Some("FXB")) && test + "'FXB'" == "name eq 'FXB'"
  {
    var test := "" + GetPropertyName(NameAttribute()) + " " + "eq" + " ";
    assert test == "name eq ";
  }

  /** `<condition attribute="name" operator="like" value="[[]FXB%" />`, a prefix with an
      escaped `[`, is `startswith(name, '%5bFXB')`. */
  lemma EscapedPrefixExample(codec: ValueCodec)
    ensures ApplyOperator(codec, FormOf(Like), Some("[[]FXB%"), None, "", "", NameAttribute()) == Ok("startswith(name, '%5bFXB')")
  {
    EscapedBracketFXB();
    LikeWithTrailingWildcardIsStartsWith(codec, "[FXB", None, "", NameAttribute());
    ColumnName();
    QuotedBracketFXB();
    StartsWithCallText();
  }

  /** The encoded column of the attribute `name`. */
  lemma ColumnName()
    ensures UrlEncode("" + NameAttribute().logicalName) == "name"
  {
    assert "" + "name" == "name";
    UrlEncodeSafe("name");
  }

  /** The text of the `startswith` call on `name` and the encoded prefix. */
  lemma StartsWithCallText()
    ensures "startswith(" + "name" + ", " + "'%5bFXB'" + ")" == "startswith(name, '%5bFXB')"
  {
  }
}
