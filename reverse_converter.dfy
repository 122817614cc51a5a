/** The reverse translator: a parsed Web API query back to a FetchXML tree. The entity comes
    from the resource path, and its children are gathered from `$select`/`$expand`,
    `$filter`, `$orderby` and `$apply` and then ordered by rank. */
module ReverseConverter {
  import opened Wrappers
  import opened Text
  import opened FetchXml
  import opened ODataTree
  import opened RankOrder
  import opened ReverseNames
  import opened ReverseSelect
  import opened ReverseFilter
  import ForwardConverter

  // ---------------------------------------------------------------- $orderby

  /** The clauses of a `$orderby` chain, first key first. */
  function SortKeys(orderBy: Option<OrderByClause>): seq<OrderByClause>
    decreases orderBy
  {
    match orderBy
    case None => []
    case Some(clause) => [clause] + SortKeys(clause.thenBy)
  }

  /** Every key sorts on a property. */
  predicate SortableKeys(keys: seq<OrderByClause>) {
    forall k :: 0 <= k < |keys| ==> keys[k].expression.PropertyAccess?
  }

  /** The `<order>` a sort key becomes. */
  function SortOrder(clause: OrderByClause): Item
    requires clause.expression.PropertyAccess?
  {
    OrderItem(Order(Some(clause.expression.name), "", clause.direction == Descending))
  }

  /** `ParseSorts(orderByClause)`: one `<order>` per key of the chain, in chain order, each
      naming the sorted property and descending exactly for a descending key. */
  function ParseSorts(orderBy: Option<OrderByClause>): (r: Result<seq<Item>>)
    ensures r.Ok? <==> SortableKeys(SortKeys(orderBy))
    ensures r.Ok? ==> |r.value| == |SortKeys(orderBy)|
                      && forall k :: 0 <= k < |r.value| ==> r.value[k] == SortOrder(SortKeys(orderBy)[k])
    decreases orderBy
  {
    match orderBy
    case None => Ok([])
    case Some(clause) =>
      if !clause.expression.PropertyAccess? then
        assert SortKeys(orderBy)[0] == clause;
        Err(Format("Unhandled sort expression type"))
      else
        var rest := ParseSorts(clause.thenBy);
        if rest.Err? then
          var keys, later := SortKeys(orderBy), SortKeys(clause.thenBy);
          var k :| 0 <= k < |later| && !later[k].expression.PropertyAccess?;
          assert keys[k + 1] == later[k];
          Err(rest.error)
        else
          Ok([SortOrder(clause)] + rest.value)
  }

  // ---------------------------------------------------------------- $apply

  /** A grouping property becomes an attribute grouped by, aliased with its own name. */
  function GroupingAttribute(name: string): Item {
    AttributeItem(Attribute(Some(name), name, Some(true), None))
  }

  /** A `$count` aggregate becomes a `count` of the key attribute under the given alias. */
  function CountAttribute(key: string, alias: string): Item {
    AttributeItem(Attribute(Some(key), alias, None, Some(Count)))
  }

  /** The attributes of the aggregate expressions of a `groupby`: `$count` becomes a count of
      the primary key of the one entity set whose type is the query's entity; any other
      aggregate expression gives nothing. */
  function AggregateItems(expressions: seq<AggregateChild>, entityName: string, sets: seq<EntitySet>)
    : (r: Result<seq<Item>>)
    ensures r.Ok? ==> |r.value| <= |expressions|
    ensures r.Ok? ==> forall x :: x in r.value ==> IsCount(x, CountedKey(entityName, sets))
    // every expression is an aggregate expression, and each `$count` gives one count of the
    // key under its own alias, in order
    ensures r.Ok? ==> forall k :: 0 <= k < |expressions| ==> expressions[k].AggregateExpression?
    ensures r.Ok? ==> |r.value| == |CountAliases(expressions)|
                      && forall i :: 0 <= i < |r.value| ==>
                           r.value[i] == CountAttribute(CountedKey(entityName, sets), CountAliases(expressions)[i])
  {
    if expressions == [] then Ok([])
    else
      match expressions[0]
      case OtherAggregateChild => Err(Format("Unhandled aggregate expression"))
      case AggregateExpression(isCount, alias) =>
        var first :- (if isCount then CountOf(entityName, sets, alias) else Ok([]));
        var rest :- AggregateItems(expressions[1..], entityName, sets);
        Ok(first + rest)
  }

  /** The aliases of the `$count` expressions, in order. */
  function CountAliases(expressions: seq<AggregateChild>): (r: seq<string>)
    ensures |r| <= |expressions|
  {
    if expressions == [] then []
    else
      (if expressions[0].AggregateExpression? && expressions[0].isCount then [expressions[0].alias] else [])
      + CountAliases(expressions[1..])
  }

  /** `x` counts the given key attribute, under some alias. */
  predicate IsCount(x: Item, key: string) {
    x.AttributeItem? && x.attribute.name == Some(key) && x.attribute.groupBy.None? && x.attribute.aggregate == Some(Count)
  }

  /** The key attribute a `$count` counts, when the model determines one. */
  function CountedKey(entityName: string, sets: seq<EntitySet>): string {
    var entitySet := SingleSetNamed(sets, entityName);
    if entitySet.Ok? && GetPrimaryKey(entitySet.value.entityType).Ok? then GetPrimaryKey(entitySet.value.entityType).value else ""
  }

  function CountOf(entityName: string, sets: seq<EntitySet>, alias: string): (r: Result<seq<Item>>)
    ensures r.Ok? ==> r.value == [CountAttribute(CountedKey(entityName, sets), alias)]
  {
    var entitySet :- SingleSetNamed(sets, entityName);
    var key :- GetPrimaryKey(entitySet.entityType);
    Ok([CountAttribute(key, alias)])
  }

  /** The attributes of the transformation nested in a `groupby`: none without one, those of
      an `aggregate`, and an error for any other. */
  function ChildItems(child: Option<ChildTransformation>, entityName: string, sets: seq<EntitySet>)
    : (r: Result<seq<Item>>)
  {
    match child
    case None => Ok([])
    case Some(OtherChildTransformation) => Err(Format("Unhandled transformation type"))
    case Some(AggregateTransformation(expressions)) => AggregateItems(expressions, entityName, sets)
  }

  /** The attributes of a list of transformations: for each `groupby`, its groupings and then
      its aggregates. */
  function TransformationItems(transformations: seq<Transformation>, entityName: string, sets: seq<EntitySet>)
    : (r: Result<seq<Item>>)
  {
    if transformations == [] then Ok([])
    else
      match transformations[0]
      case OtherTransformation => Err(Format("Unhandled transformation type"))
      case GroupBy(properties, child) =>
        var aggregates :- ChildItems(child, entityName, sets);
        var rest :- TransformationItems(transformations[1..], entityName, sets);
        Ok(seq(|properties|, i requires 0 <= i < |properties| => GroupingAttribute(properties[i])) + aggregates + rest)
  }

  /** `ParseApply(applyClause, entity)`: nothing without a clause; with one, the attributes
      grouped by are the grouping properties, in order. */
  function ParseApply(apply: Option<seq<Transformation>>, entityName: string, sets: seq<EntitySet>)
    : (r: Result<seq<Item>>)
    ensures apply.None? ==> r == Ok([])
    ensures apply.Some? && r.Ok? ==> GroupedNames(r.value) == GroupingProperties(apply.value)
  {
    match apply
    case None => Ok([])
    case Some(transformations) =>
      ApplyGroupsByGroupingProperties(transformations, entityName, sets);
      TransformationItems(transformations, entityName, sets)
  }

  /** The names of the attributes grouped by, in order. */
  function GroupedNames(items: seq<Item>): seq<string> {
    if items == [] then []
    else
      (if items[0].AttributeItem? && items[0].attribute.groupBy == Some(true) && items[0].attribute.name.Some?
       then [items[0].attribute.name.value] else [])
      + GroupedNames(items[1..])
  }

  /** The grouping properties of all the `groupby` transformations, in order. */
  function GroupingProperties(transformations: seq<Transformation>): seq<string> {
    if transformations == [] then []
    else
      (if transformations[0].GroupBy? then transformations[0].groupingProperties else [])
      + GroupingProperties(transformations[1..])
  }

  lemma {:induction false} GroupedNamesConcat(a: seq<Item>, b: seq<Item>)
    ensures GroupedNames(a + b) == GroupedNames(a) + GroupedNames(b)
  {
    if a != [] {
      assert (a + b)[0] == a[0] && (a + b)[1..] == a[1..] + b;
      GroupedNamesConcat(a[1..], b);
    } else {
      assert a + b == b;
    }
  }

  lemma {:induction false} GroupedNamesOfGroupings(properties: seq<string>)
    ensures GroupedNames(seq(|properties|, i requires 0 <= i < |properties| => GroupingAttribute(properties[i]))) == properties
  {
    var s := seq(|properties|, i requires 0 <= i < |properties| => GroupingAttribute(properties[i]));
    if properties != [] {
      GroupedNamesOfGroupings(properties[1..]);
      assert s[1..] == seq(|properties[1..]|, i requires 0 <= i < |properties[1..]| => GroupingAttribute(properties[1..][i]));
      assert properties == [properties[0]] + properties[1..];
    }
  }

  lemma {:induction false} NoGroupedNamesInAggregates(expressions: seq<AggregateChild>, entityName: string, sets: seq<EntitySet>)
    ensures AggregateItems(expressions, entityName, sets).Ok? ==> GroupedNames(AggregateItems(expressions, entityName, sets).value) == []
  {
    var r := AggregateItems(expressions, entityName, sets);
    if r.Ok? {
      NoGroupedNamesInCounts(r.value);
    }
  }

  lemma {:induction false} NoGroupedNamesInCounts(items: seq<Item>)
    requires forall x :: x in items ==> x.AttributeItem? && x.attribute.groupBy.None?
    ensures GroupedNames(items) == []
  {
    if items != [] {
      assert items[0] in items;
      NoGroupedNamesInCounts(items[1..]);
    }
  }

  /** The attributes grouped by are exactly the grouping properties, in the order given. */
  lemma {:induction false} ApplyGroupsByGroupingProperties(transformations: seq<Transformation>, entityName: string,
                                                            sets: seq<EntitySet>)
    ensures TransformationItems(transformations, entityName, sets).Ok? ==>
              GroupedNames(TransformationItems(transformations, entityName, sets).value) == GroupingProperties(transformations)
  {
    var r := TransformationItems(transformations, entityName, sets);
    if r.Ok? && transformations != [] {
      var t := transformations[0];
      var groups := seq(|t.groupingProperties|, i requires 0 <= i < |t.groupingProperties| => GroupingAttribute(t.groupingProperties[i]));
      var aggregates := ChildItems(t.child, entityName, sets).value;
      var rest := TransformationItems(transformations[1..], entityName, sets).value;
      assert r.value == groups + aggregates + rest;
      ApplyGroupsByGroupingProperties(transformations[1..], entityName, sets);
      GroupedNamesOfGroupings(t.groupingProperties);
      if t.child.Some? {
        NoGroupedNamesInAggregates(t.child.value.expressions, entityName, sets);
      }
      GroupedNamesConcat(groups + aggregates, rest);
      GroupedNamesConcat(groups, aggregates);
    }
  }

  // ---------------------------------------------------------------- assembly

  /** The filter item, when there is one, as a list. */
  function Optional(item: Option<Item>): seq<Item> {
    if item.Some? then [item.value] else []
  }

  /** `ConvertWebAPIToFetchXml(odata)` after parsing: `top` printed when given; the entity
      from the path; its children the selected items, the filter, the sorts and the
      groupings and aggregates, ordered by rank; `aggregate` set when `$apply` produced any
      attribute. The sorts are produced lazily, so their error surfaces only once every
      other part has been translated. */
  function ConvertedFetch(query: ParsedQuery, sets: seq<EntitySet>): (r: Result<Fetch>)
  {
    var entity :- ParseEntity(query.path);
    var selected :- SelectedItems(query.selectExpand);
    var filter :- ParseFilter(query.filter);
    var applied :- ParseApply(query.apply, entity.name, sets);
    var sorts :- ParseSorts(query.orderBy);
    Ok(Assembled(query.top, entity.name, selected + Optional(filter) + sorts + applied, applied != []))
  }

  /** The `<fetch>` for one entity: `top` printed when given, the children in rank order. */
  function Assembled(top: Option<int>, name: string, gathered: seq<Item>, aggregate: bool): Fetch {
    Fetch(if top.Some? then IntToString(top.value) else "", aggregate, [EntityItem(Entity(name, OrderByRank(gathered)))])
  }

  /** `ConvertWebAPIToFetchXml(odata)`: fills the list of children step by step and then
      sorts it. */
  method ConvertWebAPIToFetchXml(query: ParsedQuery, sets: seq<EntitySet>) returns (r: Result<Fetch>)
    ensures r == ConvertedFetch(query, sets)
  {
    var top := if query.top.Some? then IntToString(query.top.value) else "";
    var entity := ParseEntity(query.path);
    if entity.Err? {
      return Err(entity.error);
    }
    var items := ParseSelect(query.selectExpand);
    if items.Err? {
      return Err(items.error);
    }
    var children := items.value;
    var filter := ParseFilter(query.filter);
    if filter.Err? {
      return Err(filter.error);
    }
    var sorts := ParseSorts(query.orderBy);
    var groupingsAndAggregates := ParseApply(query.apply, entity.value.name, sets);
    if groupingsAndAggregates.Err? {
      return Err(groupingsAndAggregates.error);
    }
    if filter.value.Some? {
      children := children + [filter.value.value];
    }
    assert children == items.value + Optional(filter.value);
    if sorts.Err? {
      return Err(sorts.error);
    }
    children := children + sorts.value;
    children := children + groupingsAndAggregates.value;
    var aggregate := false;
    if |groupingsAndAggregates.value| > 0 {
      aggregate := true;
    }
    var ordered := OrderByRank(children);
    assert ConvertedFetch(query, sets)
        == Ok(Assembled(query.top, entity.value.name, children, groupingsAndAggregates.value != []));
    return Ok(Fetch(top, aggregate, [EntityItem(Entity(entity.value.name, ordered))]));
  }

  /** The children gathered before ordering: selected items, filter, sorts, then the
      attributes of `$apply`. */
  function Gathered(query: ParsedQuery, sets: seq<EntitySet>): seq<Item>
    requires ConvertedFetch(query, sets).Ok?
  {
    SelectedItems(query.selectExpand).value
    + Optional(ParseFilter(query.filter).value)
    + ParseSorts(query.orderBy).value
    + ParseApply(query.apply, ParseEntity(query.path).value.name, sets).value
  }

  /** A translated query is one entity, named by the path, whose children are exactly the
      gathered items, in rank order, with the items of one rank in the order gathered. */
  lemma ConvertedEntity(query: ParsedQuery, sets: seq<EntitySet>, k: nat)
    requires ConvertedFetch(query, sets).Ok?
    ensures ParseEntity(query.path).Ok?
    ensures var fetch := ConvertedFetch(query, sets).value;
            var children := Gathered(query, sets);
            && |fetch.items| == 1 && fetch.items[0].EntityItem?
            && fetch.items[0].entity.name == ParseEntity(query.path).value.name
            && SortedByRank(fetch.items[0].entity.items)
            && multiset(fetch.items[0].entity.items) == multiset(children)
            && WithRank(fetch.items[0].entity.items, k) == WithRank(children, k)
  {
    var children := Gathered(query, sets);
    assert ConvertedFetch(query, sets).value.items[0].entity.items == OrderByRank(children);
    OrderByRankSorted(children);
    OrderByRankStable(children, k);
  }

  /** `aggregate` is set exactly when `$apply` produced an attribute. */
  lemma AggregateIffApplied(query: ParsedQuery, sets: seq<EntitySet>)
    requires ConvertedFetch(query, sets).Ok?
    ensures ParseEntity(query.path).Ok?
    ensures ParseApply(query.apply, ParseEntity(query.path).value.name, sets).Ok?
    ensures ConvertedFetch(query, sets).value.aggregate
            <==> ParseApply(query.apply, ParseEntity(query.path).value.name, sets).value != []
  {
  }

  /** A `$orderby` the translator cannot handle is reported only when every other part
      translates; an error in `$apply` is reported instead of it. */
  lemma SortErrorsComeLast(query: ParsedQuery, sets: seq<EntitySet>)
    requires ParseSorts(query.orderBy).Err?
    ensures ConvertedFetch(query, sets).Err?
    ensures ParseEntity(query.path).Ok? && SelectedItems(query.selectExpand).Ok? && ParseFilter(query.filter).Ok?
            && ParseApply(query.apply, ParseEntity(query.path).value.name, sets).Err?
            ==> ConvertedFetch(query, sets).error == ParseApply(query.apply, ParseEntity(query.path).value.name, sets).error
  {
  }

  /** The `top` written out reads back, in the forward direction, as the `$top` given. */
  lemma TopReadsBack(query: ParsedQuery, sets: seq<EntitySet>)
    requires ConvertedFetch(query, sets).Ok?
    requires query.top.None? || Int32Min <= query.top.value <= Int32Max
    ensures ForwardConverter.ConvertTop(ConvertedFetch(query, sets).value.top) == Ok(query.top)
  {
    var top := ConvertedFetch(query, sets).value.top;
    if query.top.Some? {
      assert top == IntToString(query.top.value);
      ForwardConverter.TopRoundTrip(query.top.value);
    } else {
      assert top == "";
    }
  }
}
