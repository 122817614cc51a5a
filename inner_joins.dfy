/** The filters that make an `inner` link behave as an inner join once it is turned into an
    `$expand` (which by itself keeps rows without a related record): a single-valued link
    must have its own filter or a non-null key, a collection-valued link becomes an
    `any(..)` test over a fresh range variable `o1`, `o2`, .. drawn from a counter that the
    whole traversal shares. */
module InnerJoins {
  import opened Wrappers
  import opened Text
  import opened FetchXml
  import opened Metadata
  import opened Navigation
  import opened ODataQuery
  import opened ConditionTranslation
  import opened ForwardLists

  /** A link that is joined as an inner join: `link-type="inner"` or none. */
  predicate IsInnerJoin(link: LinkEntity) {
    link.linkType == "inner" || link.linkType == ""
  }

  /** The filters produced, the counter afterwards, and the counter values that became
      range variables, in the order they were drawn. */
  datatype InnerJoinResult = InnerJoinResult(filters: seq<FilterOData>, count: nat, used: seq<nat>)

  /** The range variable drawn at counter value `n`. */
  function RangeVariable(n: nat): string {
    "o" + IntToString(n)
  }

  /** The counter values drawn, one after the other, starting at `from`. */
  predicate Consecutive(used: seq<nat>, from: nat) {
    forall i :: 0 <= i < |used| ==> used[i] == from + i
  }

  /** The one-condition group `<prefix>/<key> ne null` that requires a related record. */
  function NotNullFilter(prefix: string, key: string): FilterOData {
    FilterOData(false, [prefix + "/" + key + " ne null"], [])
  }

  /** The one-condition group `<property>/any(<variable>:<filters>)`. */
  function AnyFilter(propertyName: string, rangeVariable: string, inner: seq<FilterOData>): FilterOData {
    FilterOData(false, [propertyName + "/any(" + rangeVariable + ":" + Join(" and ", GroupTexts(inner)) + ")"], [])
  }

  /** One result followed by another. */
  function Chain(a: InnerJoinResult, b: InnerJoinResult): InnerJoinResult {
    InnerJoinResult(a.filters + b.filters, b.count, a.used + b.used)
  }

  /** The result that contributes nothing and leaves the counter at `count`. */
  function NoJoin(count: nat): InnerJoinResult {
    InnerJoinResult([], count, [])
  }

  /** `ConvertInnerJoinFilters(entityName, items, rootItems, path, ref count)`: the filters of
      every inner link among `items`, in document order, threading the counter. */
  function InnerJoinFilters(store: MetadataStore, codec: ValueCodec, entityName: string, items: seq<Item>,
                            rootItems: seq<Item>, path: string, count: nat): (r: Result<InnerJoinResult>)
    // every range variable is fresh: the counter values are drawn one by one
    ensures r.Ok? ==> r.value.count == count + |r.value.used| && Consecutive(r.value.used, count)
    decreases TreeSize(items), 0
  {
    if items == [] then Ok(NoJoin(count))
    else
      var head :- ItemJoin(store, codec, entityName, items[0], rootItems, path, count);
      var tail :- InnerJoinFilters(store, codec, entityName, items[1..], rootItems, path, head.count);
      ChainConsecutive(head, tail, count);
      Ok(Chain(head, tail))
  }

  /** One child: an inner link contributes its filters, anything else nothing. */
  function ItemJoin(store: MetadataStore, codec: ValueCodec, entityName: string, item: Item,
                    rootItems: seq<Item>, path: string, count: nat): (r: Result<InnerJoinResult>)
    ensures r.Ok? ==> r.value.count == count + |r.value.used| && Consecutive(r.value.used, count)
    decreases if item.LinkItem? then TreeSize(item.link.items) else 0, 3
  {
    if item.LinkItem? && IsInnerJoin(item.link) then
      InnerJoinFilter(store, codec, entityName, item.link, rootItems, path, count)
    else Ok(NoJoin(count))
  }

  lemma ChainConsecutive(a: InnerJoinResult, b: InnerJoinResult, from: nat)
    requires a.count == from + |a.used| && Consecutive(a.used, from)
    requires b.count == a.count + |b.used| && Consecutive(b.used, a.count)
    ensures Chain(a, b).count == from + |Chain(a, b).used| && Consecutive(Chain(a, b).used, from)
  {
    var u := a.used + b.used;
    forall i | 0 <= i < |u| ensures u[i] == from + i {
      if i >= |a.used| {
        assert u[i] == b.used[i - |a.used|];
      }
    }
  }

  /** The loop body of `ConvertInnerJoinFilters` for one inner link: the link's navigation
      property, then the filters for a single record or for a collection. */
  function InnerJoinFilter(store: MetadataStore, codec: ValueCodec, entityName: string, link: LinkEntity,
                           rootItems: seq<Item>, path: string, count: nat): (r: Result<InnerJoinResult>)
    ensures r.Ok? ==> r.value.count == count + |r.value.used| && Consecutive(r.value.used, count)
    decreases TreeSize(link.items), 2
  {
    var nav :- LinkItemToNavigationProperty(store, entityName, link);
    var current := Current(link, nav);
    if nav.child then CollectionFilter(store, codec, current, rootItems, path + nav.propertyName, path, count)
    else SingleRecordFilter(store, codec, current, rootItems, path + nav.propertyName, path, count)
  }

  /** The refusal of a nested single-valued inner link without a filter of its own. */
  function NestedInnerJoinError(propertyName: string): Error {
    NotSupported("Cannot include inner join on nested link-entity " + propertyName
                 + ". Try rearranging your query to have inner joins on first-level link-entities only")
  }

  /** The test that a related record exists, needed only when the link has no filter of its
      own (`own`): `<prefix>/<primary key> ne null`. */
  function RequireRecord(store: MetadataStore, entityName: string, own: seq<FilterOData>, prefix: string): Result<seq<FilterOData>> {
    if own != [] then Ok([])
    else
      var target :- GetEntity(store, entityName);
      Ok([NotNullFilter(prefix, target.primaryIdAttribute)])
  }

  /** Whether a navigation path goes below the first level. */
  predicate IsNested(propertyName: string) {
    SplitCount(propertyName, '/') >= 2
  }

  /** For a single related record: below the first level a link without a filter of its own is
      refused, at the first level it needs the test that the record exists. */
  function SingleRecordPresence(store: MetadataStore, entityName: string, own: seq<FilterOData>, propertyName: string): Result<seq<FilterOData>> {
    if own == [] && IsNested(propertyName) then Err(NestedInnerJoinError(propertyName))
    else RequireRecord(store, entityName, own, propertyName)
  }

  /** A single related record (`current`, reached by `propertyName`): a test that the record
      exists unless the link has filters of its own, those filters, then the filters of its own
      inner links, whose path is `path + propertyName + "/"`. A link without children
      behaves as one with an empty list of children. */
  function SingleRecordFilter(store: MetadataStore, codec: ValueCodec, current: LinkEntity, rootItems: seq<Item>,
                              propertyName: string, path: string, count: nat): (r: Result<InnerJoinResult>)
    ensures r.Ok? ==> r.value.count == count + |r.value.used| && Consecutive(r.value.used, count)
    decreases TreeSize(current.items), 1
  {
    var own :- ConvertFilters(store, codec, current.name, current.items, rootItems, propertyName + "/");
    var presence :- SingleRecordPresence(store, current.name, own, propertyName);
    var nested :- InnerJoinFilters(store, codec, current.name, current.items, rootItems, path + propertyName + "/", count);
    Ok(InnerJoinResult(presence + own + nested.filters, nested.count, nested.used))
  }

  /** A collection of related records (`current`, reached by `propertyName`): one `any` test
      over the next range variable, holding the link's own filters or a test that a record
      exists, and the filters of its own inner links. */
  function CollectionFilter(store: MetadataStore, codec: ValueCodec, current: LinkEntity, rootItems: seq<Item>,
                            propertyName: string, path: string, count: nat): (r: Result<InnerJoinResult>)
    ensures r.Ok? ==> r.value.count == count + |r.value.used| && Consecutive(r.value.used, count)
    decreases TreeSize(current.items), 1
  {
    var rangeVariable := RangeVariable(count);
    var own :- ConvertFilters(store, codec, current.name, current.items, rootItems, rangeVariable + "/");
    var presence :- RequireRecord(store, current.name, own, rangeVariable);
    var nested :- InnerJoinFilters(store, codec, current.name, current.items, rootItems, path + rangeVariable + "/", count + 1);
    ChainConsecutive(InnerJoinResult([], count + 1, [count]), nested, count);
    Ok(InnerJoinResult([AnyFilter(propertyName, rangeVariable, own + presence + nested.filters)], nested.count, [count] + nested.used))
  }

  // ---- properties ----

  /** Outer links contribute nothing: without inner links among the children there are no
      filters and no range variables. */
  lemma {:induction false} OnlyInnerLinksContribute(store: MetadataStore, codec: ValueCodec, entityName: string,
                                                    items: seq<Item>, rootItems: seq<Item>, path: string, count: nat)
    requires forall l :: LinkItem(l) in items ==> !IsInnerJoin(l)
    ensures InnerJoinFilters(store, codec, entityName, items, rootItems, path, count) == Ok(NoJoin(count))
    decreases |items|
  {
    if items != [] {
      assert forall l :: LinkItem(l) in items[1..] ==> LinkItem(l) in items;
      OnlyInnerLinksContribute(store, codec, entityName, items[1..], rootItems, path, count);
    }
  }

  /** Below the first level, a single related record without a filter of its own is refused. */
  lemma NestedUnfilteredIsRefused(store: MetadataStore, codec: ValueCodec, current: LinkEntity, rootItems: seq<Item>,
                                  propertyName: string, path: string, count: nat)
    requires FiltersOf(current.items) == [] && IsNested(propertyName)
    ensures SingleRecordFilter(store, codec, current, rootItems, propertyName, path, count) == Err(NestedInnerJoinError(propertyName))
  {
  }

  /** At the first level, a single related record without a filter of its own is required to
      exist: its primary key must not be null. */
  lemma UnfilteredRecordMustExist(store: MetadataStore, codec: ValueCodec, current: LinkEntity, rootItems: seq<Item>,
                                  propertyName: string, path: string, count: nat)
    requires FiltersOf(current.items) == [] && !IsNested(propertyName)
    requires SingleRecordFilter(store, codec, current, rootItems, propertyName, path, count).Ok?
    ensures current.name in store
    ensures SingleRecordFilter(store, codec, current, rootItems, propertyName, path, count).value.filters[0]
            == NotNullFilter(propertyName, store[current.name].primaryIdAttribute)
  {
  }

  /** A collection becomes exactly one `any` test, over the range variable drawn first. */
  lemma CollectionIsOneAnyTest(store: MetadataStore, codec: ValueCodec, current: LinkEntity, rootItems: seq<Item>,
                               propertyName: string, path: string, count: nat)
    requires CollectionFilter(store, codec, current, rootItems, propertyName, path, count).Ok?
    ensures var r := CollectionFilter(store, codec, current, rootItems, propertyName, path, count).value;
      |r.filters| == 1 && |r.used| >= 1 && r.used[0] == count && |r.filters[0].conditions| == 1
      && StartsWith(r.filters[0].conditions[0], propertyName + "/any(" + RangeVariable(count) + ":")
  {
    var rangeVariable := RangeVariable(count);
    var own := ConvertFilters(store, codec, current.name, current.items, rootItems, rangeVariable + "/").value;
    var presence := RequireRecord(store, current.name, own, rangeVariable).value;
    var nested := InnerJoinFilters(store, codec, current.name, current.items, rootItems, path + rangeVariable + "/", count + 1).value;
    var r := CollectionFilter(store, codec, current, rootItems, propertyName, path, count).value;
    assert r.filters == [AnyFilter(propertyName, rangeVariable, own + presence + nested.filters)];
    assert r.used == [count] + nested.used;
    AnyFilterShape(propertyName, rangeVariable, own + presence + nested.filters);
  }

  /** An `any` group holds one condition, opened by the property and the range variable. */
  lemma AnyFilterShape(propertyName: string, rangeVariable: string, inner: seq<FilterOData>)
    ensures var f := AnyFilter(propertyName, rangeVariable, inner);
      |f.conditions| == 1 && StartsWith(f.conditions[0], propertyName + "/any(" + rangeVariable + ":")
  {
    var opening := propertyName + "/any(" + rangeVariable + ":";
    var closing := Join(" and ", GroupTexts(inner)) + ")";
    StartsWithConcat(opening, closing);
    assert opening + Join(" and ", GroupTexts(inner)) + ")" == opening + closing;
  }

  /** The number of collection-valued inner links in a tree of children, counting the inner
      links below each inner link that is followed (outer links and their subtrees are not
      walked). */
  function CollectionInnerLinks(store: MetadataStore, entityName: string, items: seq<Item>): nat
    decreases TreeSize(items), 0
  {
    if items == [] then 0
    else ItemCollections(store, entityName, items[0]) + CollectionInnerLinks(store, entityName, items[1..])
  }

  function ItemCollections(store: MetadataStore, entityName: string, item: Item): nat
    decreases if item.LinkItem? then TreeSize(item.link.items) else 0, 3
  {
    if item.LinkItem? && IsInnerJoin(item.link) then LinkCollections(store, entityName, item.link) else 0
  }

  function LinkCollections(store: MetadataStore, entityName: string, link: LinkEntity): nat
    decreases TreeSize(link.items), 2
  {
    match LinkItemToNavigationProperty(store, entityName, link)
    case Err(_) => 0
    case Ok(nav) =>
      var current := Current(link, nav);
      (if nav.child then 1 else 0) + CollectionInnerLinks(store, current.name, current.items)
  }

  /** One range variable is drawn per collection-valued inner link, and no other: the counter
      advances by exactly the number of such links. */
  lemma {:induction false} InnerJoinFiltersCount(store: MetadataStore, codec: ValueCodec, entityName: string, items: seq<Item>,
                                                 rootItems: seq<Item>, path: string, count: nat)
    requires InnerJoinFilters(store, codec, entityName, items, rootItems, path, count).Ok?
    ensures var r := InnerJoinFilters(store, codec, entityName, items, rootItems, path, count).value;
      |r.used| == CollectionInnerLinks(store, entityName, items) && r.count == count + CollectionInnerLinks(store, entityName, items)
    decreases TreeSize(items), 0
  {
    if items != [] {
      var head := ItemJoin(store, codec, entityName, items[0], rootItems, path, count);
      assert head.Ok?;
      var tail := InnerJoinFilters(store, codec, entityName, items[1..], rootItems, path, head.value.count);
      assert tail.Ok?;
      if items[0].LinkItem? && IsInnerJoin(items[0].link) {
        InnerJoinFilterCount(store, codec, entityName, items[0].link, rootItems, path, count);
      }
      InnerJoinFiltersCount(store, codec, entityName, items[1..], rootItems, path, head.value.count);
    }
  }

  lemma {:induction false} InnerJoinFilterCount(store: MetadataStore, codec: ValueCodec, entityName: string, link: LinkEntity,
                                                rootItems: seq<Item>, path: string, count: nat)
    requires InnerJoinFilter(store, codec, entityName, link, rootItems, path, count).Ok?
    ensures |InnerJoinFilter(store, codec, entityName, link, rootItems, path, count).value.used| == LinkCollections(store, entityName, link)
    decreases TreeSize(link.items), 2
  {
    var nav := LinkItemToNavigationProperty(store, entityName, link).value;
    var current := Current(link, nav);
    var propertyName := path + nav.propertyName;
    if nav.child {
      var r := CollectionFilter(store, codec, current, rootItems, propertyName, path, count);
      assert r.Ok?;
      var rangeVariable := RangeVariable(count);
      var nestedPath := path + rangeVariable + "/";
      assert InnerJoinFilters(store, codec, current.name, current.items, rootItems, nestedPath, count + 1).Ok?;
      InnerJoinFiltersCount(store, codec, current.name, current.items, rootItems, nestedPath, count + 1);
    } else {
      var r := SingleRecordFilter(store, codec, current, rootItems, propertyName, path, count);
      assert r.Ok?;
      var nestedPath := path + propertyName + "/";
      assert InnerJoinFilters(store, codec, current.name, current.items, rootItems, nestedPath, count).Ok?;
      InnerJoinFiltersCount(store, codec, current.name, current.items, rootItems, nestedPath, count);
    }
  }

  /** Range variables drawn one after the other are pairwise different names. */
  lemma RangeVariablesDistinct(used: seq<nat>, from: nat, i: nat, j: nat)
    requires Consecutive(used, from)
    requires i < |used| && j < |used| && i != j
    ensures RangeVariable(used[i]) != RangeVariable(used[j])
  {
    if RangeVariable(used[i]) == RangeVariable(used[j]) {
      assert RangeVariable(used[i])[1..] == IntToString(used[i]);
      assert RangeVariable(used[j])[1..] == IntToString(used[j]);
      IntToStringInjective(used[i], used[j]);
    }
  }

  // ---- the imperative traversal ----

  /** The specification result with the results of the links already visited in front. */
  function Prefixed(done: InnerJoinResult, rest: Result<InnerJoinResult>): Result<InnerJoinResult> {
    if rest.Err? then rest else Ok(Chain(done, rest.value))
  }

  /** Visiting one more child moves its result from the remaining to the visited part. */
  lemma PrefixedStep(done: InnerJoinResult, head: InnerJoinResult, rest: Result<InnerJoinResult>)
    ensures Prefixed(done, Prefixed(head, rest)) == Prefixed(Chain(done, head), rest)
  {
    if rest.Ok? {
      assert done.filters + (head.filters + rest.value.filters) == (done.filters + head.filters) + rest.value.filters;
      assert done.used + (head.used + rest.value.used) == (done.used + head.used) + rest.value.used;
    }
  }

  /** `ConvertInnerJoinFilters`: a loop over the children that appends each inner link's
      filters to a list and advances the shared counter. */
  method ConvertInnerJoinFilters(store: MetadataStore, codec: ValueCodec, entityName: string, items: seq<Item>,
                                 rootItems: seq<Item>, path: string, count0: nat) returns (r: Result<seq<FilterOData>>, count: nat)
    ensures var spec := InnerJoinFilters(store, codec, entityName, items, rootItems, path, count0);
      (r.Ok? <==> spec.Ok?) && (r.Ok? ==> r.value == spec.value.filters && count == spec.value.count)
      && (r.Err? ==> r.error == spec.error)
    decreases TreeSize(items), 0
  {
    var filters: seq<FilterOData> := [];
    count := count0;
    ghost var used: seq<nat> := [];
    ghost var spec := InnerJoinFilters(store, codec, entityName, items, rootItems, path, count0);
    var i := 0;
    assert items[0..] == items;
    assert spec.Ok? ==> spec.value.filters == [] + spec.value.filters && spec.value.used == [] + spec.value.used;
    while i < |items|
      invariant 0 <= i <= |items|
      invariant spec == Prefixed(InnerJoinResult(filters, count, used), InnerJoinFilters(store, codec, entityName, items[i..], rootItems, path, count))
    {
      var item := items[i];
      ghost var done := InnerJoinResult(filters, count, used);
      ghost var step := ItemJoin(store, codec, entityName, item, rootItems, path, count);
      assert items[i..][0] == item && items[i..][1..] == items[i + 1..];
      if item.LinkItem? && IsInnerJoin(item.link) {
        ItemSizeWithin(items, item);
        var part, next := ConvertInnerJoinLink(store, codec, entityName, item.link, rootItems, path, count);
        if part.Err? {
          return Err(part.error), next;
        }
        filters := filters + part.value;
        used := used + step.value.used;
        count := next;
      } else {
        assert filters + [] == filters && used + [] == used;
      }
      PrefixedStep(done, step.value, InnerJoinFilters(store, codec, entityName, items[i + 1..], rootItems, path, count));
      i := i + 1;
    }
    assert items[i..] == [];
    assert filters + [] == filters && used + [] == used;
    r := Ok(filters);
  }

  /** The loop body for one inner link. */
  method ConvertInnerJoinLink(store: MetadataStore, codec: ValueCodec, entityName: string, link: LinkEntity,
                              rootItems: seq<Item>, path: string, count0: nat) returns (r: Result<seq<FilterOData>>, count: nat)
    ensures var spec := InnerJoinFilter(store, codec, entityName, link, rootItems, path, count0);
      (r.Ok? <==> spec.Ok?) && (r.Ok? ==> r.value == spec.value.filters && count == spec.value.count)
      && (r.Err? ==> r.error == spec.error)
    decreases TreeSize(link.items), 2
  {
    var nav := LinkItemToNavigationProperty(store, entityName, link);
    if nav.Err? {
      return Err(nav.error), count0;
    }
    var current := Current(link, nav.value);
    if !nav.value.child {
      r, count := SingleRecordJoin(store, codec, current, rootItems, path + nav.value.propertyName, path, count0);
    } else {
      r, count := CollectionJoin(store, codec, current, rootItems, path + nav.value.propertyName, path, count0);
    }
  }

  /** The branch for a single related record. A link without children behaves as one with an
      empty list of children, so the C# converter's two null tests need no branch of their own. */
  method SingleRecordJoin(store: MetadataStore, codec: ValueCodec, current: LinkEntity, rootItems: seq<Item>,
                          propertyName: string, path: string, count0: nat) returns (r: Result<seq<FilterOData>>, count: nat)
    ensures var spec := SingleRecordFilter(store, codec, current, rootItems, propertyName, path, count0);
      (r.Ok? <==> spec.Ok?) && (r.Ok? ==> r.value == spec.value.filters && count == spec.value.count)
      && (r.Err? ==> r.error == spec.error)
    decreases TreeSize(current.items), 1
  {
    count := count0;
    var childFilter := ConvertFilters(store, codec, current.name, current.items, rootItems, propertyName + "/");
    if childFilter.Err? {
      return Err(childFilter.error), count;
    }
    var presence := SingleRecordPresence(store, current.name, childFilter.value, propertyName);
    if presence.Err? {
      return Err(presence.error), count;
    }
    var nested;
    nested, count := ConvertInnerJoinFilters(store, codec, current.name, current.items, rootItems, path + propertyName + "/", count);
    if nested.Err? {
      return Err(nested.error), count;
    }
    r := Ok(presence.value + childFilter.value + nested.value);
  }

  /** The branch for a collection of related records: the range variable takes the counter's
      value and the counter moves on before the nested links are visited. */
  method CollectionJoin(store: MetadataStore, codec: ValueCodec, current: LinkEntity, rootItems: seq<Item>,
                        propertyName: string, path: string, count0: nat) returns (r: Result<seq<FilterOData>>, count: nat)
    ensures var spec := CollectionFilter(store, codec, current, rootItems, propertyName, path, count0);
      (r.Ok? <==> spec.Ok?) && (r.Ok? ==> r.value == spec.value.filters && count == spec.value.count)
      && (r.Err? ==> r.error == spec.error)
    decreases TreeSize(current.items), 1
  {
    count := count0;
    var rangeVariable := RangeVariable(count);
    count := count + 1;
    var childFilter := ConvertFilters(store, codec, current.name, current.items, rootItems, rangeVariable + "/");
    if childFilter.Err? {
      return Err(childFilter.error), count;
    }
    var presence := RequireRecord(store, current.name, childFilter.value, rangeVariable);
    if presence.Err? {
      return Err(presence.error), count;
    }
    var nested;
    nested, count := ConvertInnerJoinFilters(store, codec, current.name, current.items, rootItems, path + rangeVariable + "/", count);
    if nested.Err? {
      return Err(nested.error), count;
    }
    r := Ok([AnyFilter(propertyName, rangeVariable, childFilter.value + presence.value + nested.value)]);
  }
}
