/** `$filter` back to FetchXML: a tree of `and`/`or` over `eq` comparisons of a property
    with a constant becomes nested `<filter>` elements over `<condition operator="eq">`. */
module ReverseFilter {
  import opened Wrappers
  import opened FetchXml
  import opened ODataTree

  predicate IsLogical(kind: BinaryOperatorKind) {
    kind == AndKind || kind == OrKind
  }

  /** A comparison that is not an `and`/`or` of two comparisons: the property on the left
      (through at most one conversion), the constant on the right, and `eq` between them. */
  function LeafCondition(kind: BinaryOperatorKind, left: QueryNode, right: QueryNode): (r: Result<Item>)
    ensures r.Ok? <==> (left.PropertyAccess? || (left.ConvertNode? && left.source.PropertyAccess?))
                       && right.Constant? && right.text.Some? && kind == EqualKind
    ensures r.Ok? ==> r.value.ConditionItem? && r.value.condition.op == Eq
                      && r.value.condition.value == right.text
    // the attribute is the property compared, read through the conversion when there is one,
    // and the condition applies to the entity itself
    ensures r.Ok? ==> r.value.condition.attribute == (if left.ConvertNode? then left.source.name else left.name)
                      && r.value.condition.entityName == ""
                      && r.value.condition.valueOf == "" && r.value.condition.values.None?
    ensures !left.PropertyAccess? && !left.ConvertNode? ==> r == Err(Format("Unhandled filter source"))
  {
    var source := if left.ConvertNode? then left.source else left;
    if !source.PropertyAccess? then Err(Format("Unhandled filter source"))
    else if !right.Constant? then Err(Format("Unhandled filter target"))
    else if right.text.None? then Err(NullReference("Object reference not set to an instance of an object."))
    else if kind != EqualKind then Err(Format("Unhandled filter operator"))
    else Ok(ConditionItem(Condition("", source.name, Eq, right.text, "", None)))
  }

  /** `ParseCondition(BinaryOperatorNode op)`: an `and`/`or` whose two operands are both
      binary operators becomes a filter of that type over the two converted operands, left
      first; anything else is a single condition. */
  function ParseCondition(op: QueryNode): (r: Result<Item>)
    requires op.BinaryOperator?
    ensures r.Ok? ==> r.value.FilterItem? || r.value.ConditionItem?
    decreases op
  {
    if op.left.BinaryOperator? && op.right.BinaryOperator? && IsLogical(op.kind) then
      var lhs :- ParseCondition(op.left);
      var rhs :- ParseCondition(op.right);
      Ok(FilterItem(Filter(if op.kind == AndKind then And else Or, [lhs, rhs])))
    else
      LeafCondition(op.kind, op.left, op.right)
  }

  /** `ParseCondition(FilterClause filter)`: nothing without a clause or when its expression
      is not a binary operator. */
  function ParseClauseCondition(filter: Option<QueryNode>): (r: Result<Option<Item>>)
    ensures filter.None? || !filter.value.BinaryOperator? ==> r == Ok(None)
    ensures filter.Some? && filter.value.BinaryOperator? ==>
              (r.Ok? <==> ParseCondition(filter.value).Ok?)
              && (r.Ok? ==> r.value == Some(ParseCondition(filter.value).value))
  {
    match filter
    case None => Ok(None)
    case Some(expression) =>
      if expression.BinaryOperator? then
        var item :- ParseCondition(expression);
        Ok(Some(item))
      else Ok(None)
  }

  /** `ParseFilter(filter)`: a lone condition is wrapped in an `and` filter of its own, so
      what reaches the entity is always a filter. */
  function ParseFilter(filter: Option<QueryNode>): (r: Result<Option<Item>>)
    ensures ParseClauseCondition(filter).Ok? <==> r.Ok?
    ensures r.Ok? && r.value.Some? ==> r.value.value.FilterItem?
    ensures r.Ok? ==> (r.value.None? <==> ParseClauseCondition(filter).value.None?)
    ensures r.Ok? && r.value.Some? && ParseClauseCondition(filter).value.value.ConditionItem? ==>
              r.value.value.filter == Filter(And, [ParseClauseCondition(filter).value.value])
  {
    var condition :- ParseClauseCondition(filter);
    match condition
    case Some(ConditionItem(c)) => Ok(Some(FilterItem(Filter(And, [ConditionItem(c)]))))
    case _ => Ok(condition)
  }

  /** The filter trees the translation produces: conditions comparing an attribute of the
      current entity for equality with a value, combined two at a time by `and`/`or`. */
  predicate WellFormed(item: Item)
    decreases item
  {
    match item
    case ConditionItem(c) =>
      c.entityName == "" && c.op == Eq && c.value.Some? && c.valueOf == "" && c.values.None?
    case FilterItem(f) =>
      |f.items| == 2 && WellFormed(f.items[0]) && WellFormed(f.items[1])
    case _ => false
  }

  /** The `$filter` expression a well-formed filter tree stands for. */
  function Render(item: Item): (r: QueryNode)
    requires WellFormed(item)
    ensures r.BinaryOperator?
    decreases item
  {
    match item
    case ConditionItem(c) => BinaryOperator(EqualKind, PropertyAccess(c.attribute), Constant(c.value))
    case FilterItem(f) =>
      BinaryOperator(if f.filterType == And then AndKind else OrKind, Render(f.items[0]), Render(f.items[1]))
  }

  /** Every filter tree the translation produces is well formed. */
  lemma {:induction false} ParsedIsWellFormed(op: QueryNode)
    requires op.BinaryOperator?
    ensures ParseCondition(op).Ok? ==> WellFormed(ParseCondition(op).value)
    decreases op
  {
    if op.left.BinaryOperator? && op.right.BinaryOperator? && IsLogical(op.kind) {
      ParsedIsWellFormed(op.left);
      ParsedIsWellFormed(op.right);
    }
  }

  /** Translating the expression of a well-formed filter tree gives back that tree. */
  lemma {:induction false} ParseRenderRoundTrip(item: Item)
    requires WellFormed(item)
    ensures ParseCondition(Render(item)) == Ok(item)
    decreases item
  {
    match item
    case ConditionItem(c) =>
    case FilterItem(f) =>
      ParseRenderRoundTrip(f.items[0]);
      ParseRenderRoundTrip(f.items[1]);
      assert f.items == [f.items[0], f.items[1]];
  }

  /** `p eq 'v'` and the condition it stands for. */
  function EqualsConstant(p: string, v: string): QueryNode {
    BinaryOperator(EqualKind, PropertyAccess(p), Constant(Some(v)))
  }

  function EqCondition(p: string, v: string): Item {
    ConditionItem(Condition("", p, Eq, Some(v), "", None))
  }

  /** A property wrapped in a type conversion compares as the property itself. */
  lemma ConvertedPropertyUnwrapped(p: string, v: string)
    ensures ParseCondition(BinaryOperator(EqualKind, ConvertNode(PropertyAccess(p)), Constant(Some(v))))
         == ParseCondition(EqualsConstant(p, v))
         == Ok(EqCondition(p, v))
  {
  }

  /** `name eq 'FXB' and (websiteurl eq 'xrmtoolbox.com' or websiteurl eq 'fetchxmlbuilder.com')`
      becomes an `and` filter over the first condition and an `or` filter over the other two. */
  lemma NestedFilterExample()
    ensures ParseFilter(Some(BinaryOperator(AndKind, EqualsConstant("name", "FXB"),
                                            BinaryOperator(OrKind, EqualsConstant("websiteurl", "xrmtoolbox.com"),
                                                           EqualsConstant("websiteurl", "fetchxmlbuilder.com")))))
            == Ok(Some(FilterItem(Filter(And, [EqCondition("name", "FXB"),
                                               FilterItem(Filter(Or, [EqCondition("websiteurl", "xrmtoolbox.com"),
                                                                      EqCondition("websiteurl", "fetchxmlbuilder.com")]))]))))
  {
    var either := BinaryOperator(OrKind, EqualsConstant("websiteurl", "xrmtoolbox.com"),
                                 EqualsConstant("websiteurl", "fetchxmlbuilder.com"));
    assert ParseCondition(EqualsConstant("name", "FXB")) == Ok(EqCondition("name", "FXB"));
    assert ParseCondition(either) == Ok(FilterItem(Filter(Or, [EqCondition("websiteurl", "xrmtoolbox.com"),
                                                               EqCondition("websiteurl", "fetchxmlbuilder.com")])));
  }

  /** `(name eq 'FXB')` alone is wrapped in an `and` filter of its own. */
  lemma SimpleFilterExample()
    ensures ParseFilter(Some(EqualsConstant("name", "FXB"))) == Ok(Some(FilterItem(Filter(And, [EqCondition("name", "FXB")]))))
  {
  }
}
