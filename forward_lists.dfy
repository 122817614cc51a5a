/** The LINQ pipelines of the forward translator: each picks one kind of child out of an
    entity's or link's children and maps it to a piece of the Web API query (`$select`
    properties, `$orderby` keys, `$filter` groups, `$expand` links, `groupby` and
    `aggregate` expressions). A pipeline that fails on one child fails as a whole, with the
    error of the first child that fails. */
module ForwardLists {
  import opened Wrappers
  import opened Text
  import opened FetchXml
  import opened Metadata
  import opened Navigation
  import opened ODataQuery
  import opened ConditionTranslation

  // ---- picking children (`OfType<T>().Where(..)`) ----

  /** The `<attribute>` children, in document order. */
  function AttributesOf(items: seq<Item>): (r: seq<Attribute>)
    ensures forall a :: a in r <==> AttributeItem(a) in items
  {
    if items == [] then []
    else (if items[0].AttributeItem? then [items[0].attribute] else []) + AttributesOf(items[1..])
  }

  /** The names of the `<attribute>` children that have a name. */
  function SelectedNames(items: seq<Item>): (r: seq<string>)
    ensures forall n :: n in r <==> exists a :: AttributeItem(a) in items && a.name == Some(n)
  {
    if items == [] then []
    else (if items[0].AttributeItem? && items[0].attribute.name.Some? then [items[0].attribute.name.value] else [])
         + SelectedNames(items[1..])
  }

  /** The `<order>` children that name an attribute. */
  function OrdersOf(items: seq<Item>): (r: seq<Order>)
    ensures forall o :: o in r <==> OrderItem(o) in items && o.attribute.Some?
    ensures forall i :: 0 <= i < |r| ==> r[i].attribute.Some?
  {
    if items == [] then []
    else (if items[0].OrderItem? && items[0].order.attribute.Some? then [items[0].order] else []) + OrdersOf(items[1..])
  }

  /** The `<condition>` children. */
  function ConditionsOf(items: seq<Item>): (r: seq<Condition>)
    ensures forall c :: c in r <==> ConditionItem(c) in items
  {
    if items == [] then []
    else (if items[0].ConditionItem? then [items[0].condition] else []) + ConditionsOf(items[1..])
  }

  /** The `<filter>` children that have children of their own. */
  function FiltersOf(items: seq<Item>): (r: seq<Filter>)
    ensures forall f :: f in r <==> FilterItem(f) in items && f.items != []
  {
    if items == [] then []
    else (if items[0].FilterItem? && items[0].filter.items != [] then [items[0].filter] else []) + FiltersOf(items[1..])
  }

  /** The `<link-entity>` children that have children of their own. */
  function JoinedLinks(items: seq<Item>): (r: seq<LinkEntity>)
    ensures forall l :: l in r <==> LinkItem(l) in items && l.items != []
  {
    if items == [] then []
    else (if items[0].LinkItem? && items[0].link.items != [] then [items[0].link] else []) + JoinedLinks(items[1..])
  }

  // ---- group by and aggregates ----

  /** `ConvertGroups(items)`: the names of the attributes that carry a `groupby`, a missing
      name rendering as nothing. */
  function ConvertGroups(items: seq<Item>): (r: seq<string>)
    ensures forall g :: g in r <==> exists a :: AttributeItem(a) in items && a.groupBy.Some? && a.name.GetOr("") == g
  {
    GroupNames(AttributesOf(items))
  }

  function GroupNames(attributes: seq<Attribute>): (r: seq<string>)
    ensures forall g :: g in r <==> exists a :: a in attributes && a.groupBy.Some? && a.name.GetOr("") == g
    ensures |r| <= |attributes|
  {
    if attributes == [] then []
    else
      var a := attributes[0];
      var rest := GroupNames(attributes[1..]);
      assert forall b :: b in attributes <==> b == a || b in attributes[1..];
      (if a.groupBy.Some? then [a.name.GetOr("")] else []) + rest
  }

  /** The group list keeps the attributes' order and multiplicity: the list of a
      concatenation is the concatenation of the lists, and one attribute contributes its
      name exactly when it carries a `groupby`. */
  lemma {:induction false} GroupNamesAppend(a: seq<Attribute>, b: seq<Attribute>)
    ensures GroupNames(a + b) == GroupNames(a) + GroupNames(b)
  {
    if a == [] {
      assert a + b == b;
    } else {
      assert (a + b)[0] == a[0] && (a + b)[1..] == a[1..] + b;
      GroupNamesAppend(a[1..], b);
    }
  }

  lemma GroupNamesSingle(a: Attribute)
    ensures GroupNames([a]) == if a.groupBy.Some? then [a.name.GetOr("")] else []
  {
    assert [a][1..] == [];
  }

  lemma {:induction false} AttributesOfAppend(a: seq<Item>, b: seq<Item>)
    ensures AttributesOf(a + b) == AttributesOf(a) + AttributesOf(b)
  {
    if a == [] {
      assert a + b == b;
    } else {
      assert (a + b)[0] == a[0] && (a + b)[1..] == a[1..] + b;
      AttributesOfAppend(a[1..], b);
    }
  }

  /** `ConvertGroups` is a homomorphism over the children: the groups of two runs of children
      are the groups of the first run followed by those of the second, and a single child
      gives its name when it is an attribute with `groupby` and nothing otherwise. */
  lemma ConvertGroupsAppend(a: seq<Item>, b: seq<Item>)
    ensures ConvertGroups(a + b) == ConvertGroups(a) + ConvertGroups(b)
  {
    AttributesOfAppend(a, b);
    GroupNamesAppend(AttributesOf(a), AttributesOf(b));
  }

  lemma ConvertGroupsSingle(item: Item)
    ensures ConvertGroups([item]) == if item.AttributeItem? && item.attribute.groupBy.Some? then [item.attribute.name.GetOr("")] else []
  {
    assert [item][1..] == [];
    if item.AttributeItem? {
      assert AttributesOf([item]) == [item.attribute];
      GroupNamesSingle(item.attribute);
    }
  }

  /** `GetAggregateType(aggregate)`: the aggregation method of OData's `with` clause. */
  function GetAggregateType(aggregate: AggregateType): (r: Result<string>)
    ensures r.Err? <==> aggregate == Count
    ensures aggregate == Count ==> r == Err(NotSupported("Unknown aggregate type count"))
    ensures r.Ok? ==> |r.value| >= 3
  {
    match aggregate
    case Avg => Ok("average")
    case CountColumn => Ok("countdistinct")
    case Max => Ok("max")
    case Min => Ok("min")
    case Sum => Ok("sum")
    case Count => Err(NotSupported("Unknown aggregate type count"))
  }

  /** Different aggregate types become different aggregation methods. */
  lemma GetAggregateTypeInjective(a: AggregateType, b: AggregateType)
    requires GetAggregateType(a).Ok? && GetAggregateType(a) == GetAggregateType(b)
    ensures a == b
  {
  }

  /** The attributes that carry an `aggregate`. */
  function AggregatedAttributes(items: seq<Item>): (r: seq<Attribute>)
    ensures forall a :: a in r <==> AttributeItem(a) in items && a.aggregate.Some?
  {
    if items == [] then []
    else (if items[0].AttributeItem? && items[0].attribute.aggregate.Some? then [items[0].attribute] else [])
         + AggregatedAttributes(items[1..])
  }

  /** One aggregate expression: `$count as <alias>` for a row count, otherwise
      `<name> with <method> as <alias>`. */
  function AggregateText(a: Attribute): (r: string)
    requires a.aggregate.Some?
    ensures Text.EndsWith(r, " as " + a.alias)
    // the row count is told apart from every column aggregate by its text alone
    ensures r == "$count as " + a.alias <==> a.aggregate == Some(Count)
    // a column aggregate names the column and the aggregation method
    ensures a.aggregate != Some(Count) ==>
      r == a.name.GetOr("") + " with " + GetAggregateType(a.aggregate.value).value + " as " + a.alias
  {
    if a.aggregate == Some(Count) then
      assert ("$count" + " as " + a.alias)[|"$count"|..] == " as " + a.alias;
      "$count" + " as " + a.alias
    else
      var aggregation := GetAggregateType(a.aggregate.value).value;
      var r := a.name.GetOr("") + " with " + aggregation + " as " + a.alias;
      assert r[|a.name.GetOr("") + " with " + aggregation|..] == " as " + a.alias;
      assert |r| > |"$count as " + a.alias|;
      r
  }

  /** `ConvertAggregates(items)`: the aggregate expression of every aggregated attribute. */
  function ConvertAggregates(items: seq<Item>): (r: seq<string>)
    ensures |r| == |AggregatedAttributes(items)|
    ensures forall i :: 0 <= i < |r| ==> r[i] == AggregateText(AggregatedAttributes(items)[i])
  {
    AggregateTexts(AggregatedAttributes(items))
  }

  function AggregateTexts(attributes: seq<Attribute>): (r: seq<string>)
    requires forall a :: a in attributes ==> a.aggregate.Some?
    ensures |r| == |attributes| && forall i :: 0 <= i < |r| ==> r[i] == AggregateText(attributes[i])
  {
    if attributes == [] then [] else [AggregateText(attributes[0])] + AggregateTexts(attributes[1..])
  }

  // ---- $select ----

  /** `p` is the property of an attribute of the entity with logical name `n`. */
  predicate PropertyFor(entity: EntityMetadata, n: string, p: string) {
    exists a :: a in entity.attributes && a.logicalName == n && p == GetPropertyName(a)
  }

  /** `ConvertSelect(entityName, items)` / `GetAttributeNames`: the property of every named
      attribute, looked up in the entity's metadata. */
  function ConvertSelect(store: MetadataStore, entityName: string, items: seq<Item>): (r: Result<seq<string>>)
    ensures entityName !in store ==> r == Err(MetadataNotFound(entityName))
    ensures r.Ok? ==> (entityName in store && |r.value| == |SelectedNames(items)|
      && forall i :: 0 <= i < |r.value| ==> PropertyFor(store[entityName], SelectedNames(items)[i], r.value[i]))
  {
    var entity :- GetEntity(store, entityName);
    AttributeNames(entity, entityName, SelectedNames(items))
  }

  /** `GetAttributeNames`: the attributes are looked up one after the other as the result is
      enumerated, so the first name that fails decides the error. */
  function AttributeNames(entity: EntityMetadata, entityName: string, names: seq<string>): (r: Result<seq<string>>)
    ensures r.Ok? ==> (|r.value| == |names|
      && forall i :: 0 <= i < |names| ==> PropertyFor(entity, names[i], r.value[i]))
    ensures r.Err? ==> exists i :: 0 <= i < |names| && AttributeProperty(entity, entityName, names[i]) == Err(r.error)
  {
    var outcomes := seq(|names|, i requires 0 <= i < |names| => AttributeProperty(entity, entityName, names[i]));
    var r := Collect(outcomes);
    assert r.Ok? ==> forall i :: 0 <= i < |names| ==> AttributeProperty(entity, entityName, names[i]) == Ok(r.value[i]);
    r
  }

  /** The property of the one attribute named `name`. */
  function AttributeProperty(entity: EntityMetadata, entityName: string, name: string): (r: Result<string>)
    ensures r.Ok? ==> PropertyFor(entity, name, r.value)
    ensures !HasAttribute(entity, name) ==> r == Err(NotSupported("Unknown attribute " + entityName + "." + name))
  {
    var attr :- FindAttribute(entity, name);
    if attr.Some? then Ok(GetPropertyName(attr.value)) else Err(NotSupported("Unknown attribute " + entityName + "." + name))
  }

  /** A selected name the metadata does not know makes the translation fail. */
  lemma ConvertSelectRefusesUnknown(store: MetadataStore, entityName: string, items: seq<Item>, n: string)
    requires entityName in store && n in SelectedNames(items) && !HasAttribute(store[entityName], n)
    ensures ConvertSelect(store, entityName, items).Err?
  {
    var names := SelectedNames(items);
    var i :| 0 <= i < |names| && names[i] == n;
  }

  // ---- $orderby ----

  /** The error for a sort inside a `<link-entity>`. */
  function SortOnLinkError(alias: string, attribute: string): Error {
    NotSupported("OData queries do not support ordering on link entities. Please remove the sort on " + alias + "." + attribute)
  }

  /** The error for a sort on an attribute the metadata does not list. */
  function UnknownSortError(entityName: string, attribute: string): Error {
    NotSupported("No metadata for attribute " + entityName + "." + attribute)
  }

  /** `ConvertOrder(entityName, order)`: a sort key on the entity's own attribute. */
  function ConvertOrderItem(store: MetadataStore, entityName: string, o: Order): (r: Result<OrderOData>)
    requires o.attribute.Some?
    ensures o.alias != "" ==>
      r == Err(SortOnLinkError(o.alias, o.attribute.value))
    ensures r.Ok? ==> (o.alias == "" && entityName in store && r.value.descending == o.descending
      && PropertyFor(store[entityName], o.attribute.value, r.value.propertyName))
    ensures o.alias == "" && entityName in store && !HasAttribute(store[entityName], o.attribute.value) ==>
      r == Err(UnknownSortError(entityName, o.attribute.value))
  {
    if o.alias != "" then Err(SortOnLinkError(o.alias, o.attribute.value))
    else
      var entity :- GetEntity(store, entityName);
      var attr :- FindAttribute(entity, o.attribute.value);
      :- Need(attr.Some?, UnknownSortError(entityName, o.attribute.value));
      Ok(OrderOData(GetPropertyName(attr.value), o.descending))
  }

  /** `ConvertOrder(entityName, items)`: the sort keys in document order. */
  function ConvertOrder(store: MetadataStore, entityName: string, items: seq<Item>): (r: Result<seq<OrderOData>>)
    ensures r.Ok? ==> (|r.value| == |OrdersOf(items)|
      && forall i :: 0 <= i < |r.value| ==> ConvertOrderItem(store, entityName, OrdersOf(items)[i]) == Ok(r.value[i]))
    ensures r.Err? ==> exists i :: 0 <= i < |OrdersOf(items)| && ConvertOrderItem(store, entityName, OrdersOf(items)[i]) == Err(r.error)
  {
    var orders := OrdersOf(items);
    Collect(seq(|orders|, i requires 0 <= i < |orders| => ConvertOrderItem(store, entityName, orders[i])))
  }

  // ---- $filter ----

  /** `ConvertConditions(entityName, items, rootItems, navigation)`: every condition's expression,
      enumerated in order, so the first condition that fails decides the error. */
  function ConvertConditions(store: MetadataStore, codec: ValueCodec, entityName: string, conditions: seq<Condition>,
                             rootItems: seq<Item>, navigation: string): (r: Result<seq<string>>)
    ensures r.Ok? ==> (|r.value| == |conditions|
      && forall i :: 0 <= i < |conditions| ==> GetCondition(store, codec, entityName, conditions[i], rootItems, navigation) == Ok(r.value[i]))
    ensures r.Err? ==> exists i :: 0 <= i < |conditions| && GetCondition(store, codec, entityName, conditions[i], rootItems, navigation) == Err(r.error)
  {
    var outcomes := seq(|conditions|, i requires 0 <= i < |conditions| => GetCondition(store, codec, entityName, conditions[i], rootItems, navigation));
    Collect(outcomes)
  }

  /** The values of a sequence of outcomes, or the first error among them. */
  function Collect<T>(outcomes: seq<Result<T>>): (r: Result<seq<T>>)
    ensures r.Ok? ==> |r.value| == |outcomes| && forall i :: 0 <= i < |outcomes| ==> outcomes[i] == Ok(r.value[i])
    ensures r.Err? ==> exists i :: 0 <= i < |outcomes| && outcomes[i] == Err(r.error)
  {
    if outcomes == [] then Ok([])
    else
      var head :- outcomes[0];
      var tail :- Collect(outcomes[1..]);
      assert forall i :: 1 <= i < |outcomes| ==> outcomes[i] == outcomes[1..][i - 1];
      Ok([head] + tail)
  }

  /** `ConvertFilters(entityName, items, rootItems, navigation)`: one group per non-empty
      `<filter>` child, holding its conditions and, recursively, its nested groups. */
  function ConvertFilters(store: MetadataStore, codec: ValueCodec, entityName: string, items: seq<Item>,
                          rootItems: seq<Item>, navigation: string): (r: Result<seq<FilterOData>>)
    ensures FiltersOf(items) == [] ==> r == Ok([])
    ensures r.Ok? ==> (|r.value| == |FiltersOf(items)|
      && forall i :: 0 <= i < |r.value| ==> FilterShaped(r.value[i], FiltersOf(items)[i]))
    decreases TreeSize(items), 1
  {
    if items == [] then Ok([])
    else
      var picked := if items[0].FilterItem? && items[0].filter.items != [] then [items[0].filter] else [];
      var head :- if picked != [] then
          var f :- ConvertFilter(store, codec, entityName, items[0].filter, rootItems, navigation);
          Ok([f])
        else Ok([]);
      var tail :- ConvertFilters(store, codec, entityName, items[1..], rootItems, navigation);
      ShapedConcat(head, picked, tail, FiltersOf(items[1..]));
      Ok(head + tail)
  }

  lemma ShapedConcat(h: seq<FilterOData>, fh: seq<Filter>, t: seq<FilterOData>, ft: seq<Filter>)
    requires |h| == |fh| && forall i :: 0 <= i < |h| ==> FilterShaped(h[i], fh[i])
    requires |t| == |ft| && forall i :: 0 <= i < |t| ==> FilterShaped(t[i], ft[i])
    ensures |h + t| == |fh + ft| && forall i :: 0 <= i < |h + t| ==> FilterShaped((h + t)[i], (fh + ft)[i])
  {
    forall i | 0 <= i < |h + t| ensures FilterShaped((h + t)[i], (fh + ft)[i]) {
      if i >= |h| {
        assert (h + t)[i] == t[i - |h|] && (fh + ft)[i] == ft[i - |h|];
      }
    }
  }

  /** A group has the filter's logical operator, one entry per condition and one nested
      group per non-empty nested filter. */
  predicate FilterShaped(g: FilterOData, f: Filter) {
    g.isAnd == (f.filterType == And) && |g.conditions| == |ConditionsOf(f.items)| && |g.filters| == |FiltersOf(f.items)|
  }

  function ConvertFilter(store: MetadataStore, codec: ValueCodec, entityName: string, f: Filter,
                         rootItems: seq<Item>, navigation: string): (r: Result<FilterOData>)
    ensures r.Ok? ==> (FilterShaped(r.value, f)
      && forall i :: 0 <= i < |r.value.conditions| ==>
           GetCondition(store, codec, entityName, ConditionsOf(f.items)[i], rootItems, navigation) == Ok(r.value.conditions[i]))
    decreases TreeSize(f.items), 2
  {
    var conditions :- ConvertConditions(store, codec, entityName, ConditionsOf(f.items), rootItems, navigation);
    var filters :- ConvertFilters(store, codec, entityName, f.items, rootItems, navigation);
    Ok(FilterOData(f.filterType == And, conditions, filters))
  }

  /** A translated `<filter>` holds the translation of its own conditions and, as nested
      groups, the translation of its own nested filters; it fails with the error of its first
      failing condition, or else with that of its nested groups. */
  lemma ConvertFilterContents(store: MetadataStore, codec: ValueCodec, entityName: string, f: Filter,
                              rootItems: seq<Item>, navigation: string)
    ensures var r := ConvertFilter(store, codec, entityName, f, rootItems, navigation);
      var conditions := ConvertConditions(store, codec, entityName, ConditionsOf(f.items), rootItems, navigation);
      var groups := ConvertFilters(store, codec, entityName, f.items, rootItems, navigation);
      (r.Ok? <==> conditions.Ok? && groups.Ok?)
      && (r.Ok? ==> r.value == FilterOData(f.filterType == And, conditions.value, groups.value))
      && (conditions.Err? ==> r == Err(conditions.error))
      && (conditions.Ok? && groups.Err? ==> r == Err(groups.error))
  {
  }

  /** Each of `groups` is the translation of the corresponding `<filter>` of `filters`. */
  predicate FiltersConverted(store: MetadataStore, codec: ValueCodec, entityName: string, rootItems: seq<Item>,
                             navigation: string, groups: seq<FilterOData>, filters: seq<Filter>) {
    |groups| == |filters| && forall i :: 0 <= i < |groups| ==> FilterConverted(store, codec, entityName, rootItems, navigation, groups[i], filters[i])
  }

  predicate FilterConverted(store: MetadataStore, codec: ValueCodec, entityName: string, rootItems: seq<Item>,
                            navigation: string, group: FilterOData, filter: Filter) {
    ConvertFilter(store, codec, entityName, filter, rootItems, navigation) == Ok(group)
  }

  lemma FiltersConvertedConcat(store: MetadataStore, codec: ValueCodec, entityName: string, rootItems: seq<Item>,
                               navigation: string, h: seq<FilterOData>, fh: seq<Filter>, t: seq<FilterOData>, ft: seq<Filter>)
    requires FiltersConverted(store, codec, entityName, rootItems, navigation, h, fh)
    requires FiltersConverted(store, codec, entityName, rootItems, navigation, t, ft)
    ensures FiltersConverted(store, codec, entityName, rootItems, navigation, h + t, fh + ft)
  {
    forall i | |h| <= i < |h + t|
      ensures FilterConverted(store, codec, entityName, rootItems, navigation, (h + t)[i], (fh + ft)[i])
    {
      IndexInSecond(fh, ft, i);
      IndexInSecond(h, t, i);
    }
  }

  lemma IndexInFirst<T>(a: seq<T>, b: seq<T>, i: int)
    requires 0 <= i < |a|
    ensures (a + b)[i] == a[i]
  {
  }

  lemma IndexInSecond<T>(a: seq<T>, b: seq<T>, i: int)
    requires |a| <= i < |a + b|
    ensures (a + b)[i] == b[i - |a|]
  {
  }

  /** Each group `ConvertFilters` returns is the translation of the corresponding non-empty
      `<filter>` child. */
  lemma {:induction false} ConvertFiltersElements(store: MetadataStore, codec: ValueCodec, entityName: string, items: seq<Item>,
                                                  rootItems: seq<Item>, navigation: string)
    requires ConvertFilters(store, codec, entityName, items, rootItems, navigation).Ok?
    ensures FiltersConverted(store, codec, entityName, rootItems, navigation,
                             ConvertFilters(store, codec, entityName, items, rootItems, navigation).value, FiltersOf(items))
  {
    if items != [] {
      var groups := ConvertFilters(store, codec, entityName, items, rootItems, navigation);
      var tail := ConvertFilters(store, codec, entityName, items[1..], rootItems, navigation);
      var picked := if items[0].FilterItem? && items[0].filter.items != [] then [items[0].filter] else [];
      assert FiltersOf(items) == picked + FiltersOf(items[1..]);
      assert tail.Ok?;
      ConvertFiltersElements(store, codec, entityName, items[1..], rootItems, navigation);
      var head := groups.value[..|picked|];
      assert groups.value == head + tail.value;
      assert FiltersConverted(store, codec, entityName, rootItems, navigation, head, picked);
      FiltersConvertedConcat(store, codec, entityName, rootItems, navigation, head, picked, tail.value, FiltersOf(items[1..]));
    }
  }

  // ---- $expand ----

  /** `ConvertJoins(entityName, items, rootItems)`: one expansion per `<link-entity>` child
      with children, in document order. */
  function ConvertJoins(store: MetadataStore, codec: ValueCodec, entityName: string, items: seq<Item>,
                        rootItems: seq<Item>): (r: Result<seq<LinkEntityOData>>)
    ensures JoinedLinks(items) == [] ==> r == Ok([])
    ensures r.Ok? ==> (|r.value| == |JoinedLinks(items)|
      && forall i :: 0 <= i < |r.value| ==> Expands(store, entityName, JoinedLinks(items)[i], r.value[i]))
    decreases TreeSize(items), 1
  {
    if items == [] then Ok([])
    else
      var picked := if items[0].LinkItem? && items[0].link.items != [] then [items[0].link] else [];
      var head :- if picked != [] then
          var e :- ConvertJoin(store, codec, entityName, items[0].link, rootItems);
          Ok([e])
        else Ok([]);
      var tail :- ConvertJoins(store, codec, entityName, items[1..], rootItems);
      ExpandsConcat(store, entityName, head, picked, tail, JoinedLinks(items[1..]));
      Ok(head + tail)
  }

  lemma ExpandsConcat(store: MetadataStore, entityName: string, h: seq<LinkEntityOData>, lh: seq<LinkEntity>,
                      t: seq<LinkEntityOData>, lt: seq<LinkEntity>)
    requires |h| == |lh| && forall i :: 0 <= i < |h| ==> Expands(store, entityName, lh[i], h[i])
    requires |t| == |lt| && forall i :: 0 <= i < |t| ==> Expands(store, entityName, lt[i], t[i])
    ensures |h + t| == |lh + lt| && forall i :: 0 <= i < |h + t| ==> Expands(store, entityName, (lh + lt)[i], (h + t)[i])
  {
    forall i | 0 <= i < |h + t| ensures Expands(store, entityName, (lh + lt)[i], (h + t)[i]) {
      if i >= |h| {
        assert (h + t)[i] == t[i - |h|] && (lh + lt)[i] == lt[i - |h|];
      }
    }
  }

  /** An expansion follows the link's navigation property, and carries filters only for an
      outer join or a collection: an inner join to a single record is filtered separately. */
  predicate Expands(store: MetadataStore, entityName: string, link: LinkEntity, e: LinkEntityOData) {
    var nav := LinkItemToNavigationProperty(store, entityName, link);
    nav.Ok? && e.propertyName == nav.value.propertyName
    && (link.linkType != "outer" && !nav.value.child ==> e.filter == [])
  }

  /** The expansion of one link: the navigation property, then the select list, filters and
      nested expansions of the link, or of the far link of a many-to-many pair. */
  function ConvertJoin(store: MetadataStore, codec: ValueCodec, entityName: string, link: LinkEntity,
                       rootItems: seq<Item>): (r: Result<LinkEntityOData>)
    requires link.items != []
    ensures r.Ok? ==> Expands(store, entityName, link, r.value)
    decreases TreeSize(link.items), 2
  {
    var nav :- LinkItemToNavigationProperty(store, entityName, link);
    var current := Current(link, nav);
    // the far link of a many-to-many pair has no children: `OfType` on a null array
    :- Need(current.items != [], NullReference("Value cannot be null. (Parameter 'source')"));
    var select :- ConvertSelect(store, current.name, current.items);
    var filter :- if link.linkType == "outer" || nav.child then ConvertFilters(store, codec, current.name, current.items, rootItems, "")
                  else Ok([]);
    var expand :- ConvertJoins(store, codec, current.name, current.items, rootItems);
    Ok(LinkEntityOData(nav.propertyName, select, expand, filter))
  }

  /** The rest of a translated link comes from the link, or from the far link of a
      many-to-many pair: its `$select` and nested `$expand` are those of that link's children,
      and its `$filter` is that of those children when the link is outer or collection-valued
      (and empty otherwise). */
  lemma ConvertJoinContents(store: MetadataStore, codec: ValueCodec, entityName: string, link: LinkEntity,
                            rootItems: seq<Item>)
    requires link.items != []
    requires ConvertJoin(store, codec, entityName, link, rootItems).Ok?
    ensures var r := ConvertJoin(store, codec, entityName, link, rootItems).value;
      var nav := LinkItemToNavigationProperty(store, entityName, link).value;
      var current := Current(link, nav);
      current.items != []
      && r.propertyName == nav.propertyName
      && ConvertSelect(store, current.name, current.items) == Ok(r.select)
      && ConvertJoins(store, codec, current.name, current.items, rootItems) == Ok(r.expand)
      && (if link.linkType == "outer" || nav.child
          then ConvertFilters(store, codec, current.name, current.items, rootItems, "") == Ok(r.filter)
          else r.filter == [])
  {
    var nav := LinkItemToNavigationProperty(store, entityName, link);
    assert nav.Ok?;
    var current := Current(link, nav.value);
    assert current.items != [];
    var select := ConvertSelect(store, current.name, current.items);
    assert select.Ok?;
    var filter := if link.linkType == "outer" || nav.value.child then ConvertFilters(store, codec, current.name, current.items, rootItems, "")
                  else Ok([]);
    assert filter.Ok?;
    var expand := ConvertJoins(store, codec, current.name, current.items, rootItems);
    assert expand.Ok?;
    assert ConvertJoin(store, codec, entityName, link, rootItems)
        == Ok(LinkEntityOData(nav.value.propertyName, select.value, expand.value, filter.value));
  }

  /** The link whose children the expansion is built from: the far link of a many-to-many
      pair, which is nested in the link and so a smaller tree, or the link itself. */
  function Current(link: LinkEntity, nav: Navigation): (current: LinkEntity)
    requires nav.next.Some? ==> nav.next.value in Links(link.items)
    ensures TreeSize(current.items) <= TreeSize(link.items)
  {
    if nav.next.Some? then
      ItemSizeWithin(link.items, LinkItem(nav.next.value));
      nav.next.value
    else link
  }

  /** Each of `expands` is the translation of the corresponding link of `links`. */
  predicate JoinsConverted(store: MetadataStore, codec: ValueCodec, entityName: string, rootItems: seq<Item>,
                           expands: seq<LinkEntityOData>, links: seq<LinkEntity>) {
    |expands| == |links| && forall i :: 0 <= i < |expands| ==> JoinConverted(store, codec, entityName, rootItems, expands[i], links[i])
  }

  predicate JoinConverted(store: MetadataStore, codec: ValueCodec, entityName: string, rootItems: seq<Item>,
                          expand: LinkEntityOData, link: LinkEntity) {
    link.items != [] && ConvertJoin(store, codec, entityName, link, rootItems) == Ok(expand)
  }

  lemma JoinsConvertedConcat(store: MetadataStore, codec: ValueCodec, entityName: string, rootItems: seq<Item>,
                             h: seq<LinkEntityOData>, lh: seq<LinkEntity>, t: seq<LinkEntityOData>, lt: seq<LinkEntity>)
    requires JoinsConverted(store, codec, entityName, rootItems, h, lh)
    requires JoinsConverted(store, codec, entityName, rootItems, t, lt)
    ensures JoinsConverted(store, codec, entityName, rootItems, h + t, lh + lt)
  {
    forall i | 0 <= i < |h|
      ensures JoinConverted(store, codec, entityName, rootItems, (h + t)[i], (lh + lt)[i])
    {
      IndexInFirst(lh, lt, i);
      IndexInFirst(h, t, i);
    }
    forall i | |h| <= i < |h + t|
      ensures JoinConverted(store, codec, entityName, rootItems, (h + t)[i], (lh + lt)[i])
    {
      IndexInSecond(lh, lt, i);
      IndexInSecond(h, t, i);
    }
  }

  /** Each expansion `ConvertJoins` returns is the translation of the corresponding
      `<link-entity>` child that has children. */
  lemma {:induction false} ConvertJoinsElements(store: MetadataStore, codec: ValueCodec, entityName: string, items: seq<Item>,
                                                rootItems: seq<Item>)
    requires ConvertJoins(store, codec, entityName, items, rootItems).Ok?
    ensures JoinsConverted(store, codec, entityName, rootItems,
                           ConvertJoins(store, codec, entityName, items, rootItems).value, JoinedLinks(items))
  {
    if items != [] {
      var expands := ConvertJoins(store, codec, entityName, items, rootItems);
      var tail := ConvertJoins(store, codec, entityName, items[1..], rootItems);
      var picked := if items[0].LinkItem? && items[0].link.items != [] then [items[0].link] else [];
      assert JoinedLinks(items) == picked + JoinedLinks(items[1..]);
      assert tail.Ok?;
      ConvertJoinsElements(store, codec, entityName, items[1..], rootItems);
      var head := expands.value[..|picked|];
      assert expands.value == head + tail.value;
      assert JoinsConverted(store, codec, entityName, rootItems, head, picked);
      JoinsConvertedConcat(store, codec, entityName, rootItems, head, picked, tail.value, JoinedLinks(items[1..]));
    }
  }
}
