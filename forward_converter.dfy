/** `FetchXmlToWebAPIConverter.ConvertOData` and `ConvertFetchXmlToWebAPI`: a parsed
    `<fetch>` becomes a Web API URL. The root `<entity>` names the entity set; its children
    fill in `$select`, `$orderby`, `$filter`, `$expand` (or `$apply` for an aggregate query)
    and the inner-join filters; `top` becomes `$top`. */
module ForwardConverter {
  import opened Wrappers
  import opened Text
  import opened FetchXml
  import opened Metadata
  import opened ODataQuery
  import opened ConditionTranslation
  import opened ForwardLists
  import opened InnerJoins

  /** The first `<entity>` among the children of `<fetch>`. */
  function FirstEntity(items: seq<Item>): (r: Option<Entity>)
    ensures r.Some? ==> EntityItem(r.value) in items
    ensures r.None? <==> forall i :: i in items ==> !i.EntityItem?
  {
    if items == [] then None
    else if items[0].EntityItem? then Some(items[0].entity)
    else FirstEntity(items[1..])
  }

  /** `fetch.top` as `Int32.Parse` reads it; an absent or empty attribute sets no limit. */
  function ConvertTop(top: string): (r: Result<Option<int>>)
    ensures top == "" <==> r == Ok(None)
    ensures r.Ok? && r.value.Some? ==> Int32Min <= r.value.value <= Int32Max
  {
    if top == "" then Ok(None)
    else
      var n :- ParseInteger(top, Int32Min, Int32Max);
      Ok(Some(n))
  }

  /** `ConvertOData(fetch)`: the root query. A `<fetch>` without children (a null `Items`
      array) fails in `Where`; an `<entity>` without children yields only the collection and
      `$top`. */
  function ConvertODataSpec(store: MetadataStore, codec: ValueCodec, fetch: Fetch): (r: Result<EntityQuery>)
    ensures fetch.items == [] ==> r == Err(NullReference("Value cannot be null. (Parameter 'source')"))
    ensures fetch.items != [] && FirstEntity(fetch.items).None? ==> r == Err(NotSupported("Fetch must contain entity definition"))
    // the path is the entity set of the root entity
    ensures r.Ok? ==> (FirstEntity(fetch.items).Some? && FirstEntity(fetch.items).value.name in store
                      && r.value.propertyName == CollectionName(store[FirstEntity(fetch.items).value.name]))
    // groups and aggregates only when the query asks for aggregation
    ensures r.Ok? && !fetch.aggregate ==> r.value.groups == [] && r.value.aggregates == []
    ensures r.Ok? ==> ConvertTop(fetch.top) == Ok(r.value.top)
    // an entity without children gives the bare collection; otherwise every list is the
    // conversion of the entity's children
    ensures r.Ok? ==> var e := FirstEntity(fetch.items).value;
      var bare := EntityQuery(r.value.propertyName, [], [], [], r.value.top, [], [], []);
      (e.items == [] ==> r.value == bare)
      && (e.items != [] ==> AllListsConvert(store, codec, e) && Filled(store, codec, e, bare, r.value)
                            && r.value.groups == (if fetch.aggregate then ConvertGroups(e.items) else [])
                            && r.value.aggregates == (if fetch.aggregate then ConvertAggregates(e.items) else []))
  {
    if fetch.items == [] then Err(NullReference("Value cannot be null. (Parameter 'source')"))
    else if FirstEntity(fetch.items).None? then Err(NotSupported("Fetch must contain entity definition"))
    else
      var entity := FirstEntity(fetch.items).value;
      var metadata :- GetEntity(store, entity.name);
      var top :- ConvertTop(fetch.top);
      var empty := EntityQuery(CollectionName(metadata), [], [], [], top, [], [], []);
      if entity.items == [] then Ok(empty)
      else EntityLists(store, codec, fetch.aggregate, entity, empty)
  }

  /** The lists an `<entity>` with children adds to the query `q`, in the order the C# converter
      appends them: groups and aggregates (only for an aggregate query), then `$select`,
      `$orderby`, `$filter`, `$expand` and the inner-join filters. */
  function EntityLists(store: MetadataStore, codec: ValueCodec, aggregate: bool, entity: Entity, q: EntityQuery): (r: Result<EntityQuery>)
    ensures r.Ok? ==> r.value.propertyName == q.propertyName && r.value.top == q.top
    // the groups and aggregates are those of the entity's attributes, for an aggregate query only
    ensures r.Ok? ==> r.value.groups == q.groups + (if aggregate then ConvertGroups(entity.items) else [])
                      && r.value.aggregates == q.aggregates + (if aggregate then ConvertAggregates(entity.items) else [])
    ensures r.Ok? <==> AllListsConvert(store, codec, entity)
    ensures r.Ok? ==> Filled(store, codec, entity, q, r.value)
  {
    WithSelect(store, codec, entity,
               if aggregate then q.(groups := q.groups + ConvertGroups(entity.items),
                                    aggregates := q.aggregates + ConvertAggregates(entity.items))
               else q)
  }

  /** Every list of the entity converts: `$select`, `$orderby`, `$filter`, `$expand` and the
      inner-join filters. */
  predicate AllListsConvert(store: MetadataStore, codec: ValueCodec, e: Entity) {
    ConvertSelect(store, e.name, e.items).Ok? && ConvertOrder(store, e.name, e.items).Ok?
    && ConvertFilters(store, codec, e.name, e.items, e.items, "").Ok?
    && ConvertJoins(store, codec, e.name, e.items, e.items).Ok?
    && InnerJoinFilters(store, codec, e.name, e.items, e.items, "", 1).Ok?
  }

  /** `r` is `q` with the entity's lists appended: its columns to `$select`, its sort keys to
      `$orderby`, its `<filter>` groups and then its inner-join filters to `$filter`, its
      expanded links to `$expand`. */
  predicate Filled(store: MetadataStore, codec: ValueCodec, e: Entity, q: EntityQuery, r: EntityQuery)
    requires AllListsConvert(store, codec, e)
  {
    r.select == q.select + ConvertSelect(store, e.name, e.items).value
    && r.orderBy == q.orderBy + ConvertOrder(store, e.name, e.items).value
    && r.filter == q.filter + ConvertFilters(store, codec, e.name, e.items, e.items, "").value
                   + InnerJoinFilters(store, codec, e.name, e.items, e.items, "", 1).value.filters
    && r.expand == q.expand + ConvertJoins(store, codec, e.name, e.items, e.items).value
  }

  function WithSelect(store: MetadataStore, codec: ValueCodec, entity: Entity, q: EntityQuery): (r: Result<EntityQuery>)
    ensures r.Ok? ==> (r.value.propertyName == q.propertyName && r.value.top == q.top
                      && r.value.groups == q.groups && r.value.aggregates == q.aggregates)
    ensures r.Ok? <==> AllListsConvert(store, codec, entity)
    ensures r.Ok? ==> Filled(store, codec, entity, q, r.value)
    // the first list to fail is `$select`
    ensures ConvertSelect(store, entity.name, entity.items).Err? ==> r == Err(ConvertSelect(store, entity.name, entity.items).error)
  {
    var select :- ConvertSelect(store, entity.name, entity.items);
    WithOrder(store, codec, entity, q.(select := q.select + select))
  }

  function WithOrder(store: MetadataStore, codec: ValueCodec, entity: Entity, q: EntityQuery): (r: Result<EntityQuery>)
    ensures r.Ok? <==> ConvertOrder(store, entity.name, entity.items).Ok? && ConvertFilters(store, codec, entity.name, entity.items, entity.items, "").Ok?
                       && ConvertJoins(store, codec, entity.name, entity.items, entity.items).Ok? && InnerJoinFilters(store, codec, entity.name, entity.items, entity.items, "", 1).Ok?
    ensures r.Ok? ==> (r.value.propertyName == q.propertyName && r.value.top == q.top
                      && r.value.groups == q.groups && r.value.aggregates == q.aggregates && r.value.select == q.select
                      && r.value.orderBy == q.orderBy + ConvertOrder(store, entity.name, entity.items).value
                      && r.value.filter == q.filter + ConvertFilters(store, codec, entity.name, entity.items, entity.items, "").value + InnerJoinFilters(store, codec, entity.name, entity.items, entity.items, "", 1).value.filters
                      && r.value.expand == q.expand + ConvertJoins(store, codec, entity.name, entity.items, entity.items).value)
    ensures ConvertOrder(store, entity.name, entity.items).Err? ==> r == Err(ConvertOrder(store, entity.name, entity.items).error)
  {
    var orderBy :- ConvertOrder(store, entity.name, entity.items);
    WithFilters(store, codec, entity, q.(orderBy := q.orderBy + orderBy))
  }

  function WithFilters(store: MetadataStore, codec: ValueCodec, entity: Entity, q: EntityQuery): (r: Result<EntityQuery>)
    ensures r.Ok? <==> ConvertFilters(store, codec, entity.name, entity.items, entity.items, "").Ok? && ConvertJoins(store, codec, entity.name, entity.items, entity.items).Ok? && InnerJoinFilters(store, codec, entity.name, entity.items, entity.items, "", 1).Ok?
    ensures r.Ok? ==> (r.value.propertyName == q.propertyName && r.value.top == q.top
                      && r.value.groups == q.groups && r.value.aggregates == q.aggregates
                      && r.value.select == q.select && r.value.orderBy == q.orderBy
                      && r.value.filter == q.filter + ConvertFilters(store, codec, entity.name, entity.items, entity.items, "").value + InnerJoinFilters(store, codec, entity.name, entity.items, entity.items, "", 1).value.filters
                      && r.value.expand == q.expand + ConvertJoins(store, codec, entity.name, entity.items, entity.items).value)
    ensures ConvertFilters(store, codec, entity.name, entity.items, entity.items, "").Err? ==> r == Err(ConvertFilters(store, codec, entity.name, entity.items, entity.items, "").error)
  {
    var filter :- ConvertFilters(store, codec, entity.name, entity.items, entity.items, "");
    WithJoins(store, codec, entity, q.(filter := q.filter + filter))
  }

  function WithJoins(store: MetadataStore, codec: ValueCodec, entity: Entity, q: EntityQuery): (r: Result<EntityQuery>)
    ensures r.Ok? <==> ConvertJoins(store, codec, entity.name, entity.items, entity.items).Ok? && InnerJoinFilters(store, codec, entity.name, entity.items, entity.items, "", 1).Ok?
    ensures r.Ok? ==> (r.value.propertyName == q.propertyName && r.value.top == q.top
                      && r.value.groups == q.groups && r.value.aggregates == q.aggregates
                      && r.value.select == q.select && r.value.orderBy == q.orderBy
                      && r.value.expand == q.expand + ConvertJoins(store, codec, entity.name, entity.items, entity.items).value
                      && r.value.filter == q.filter + InnerJoinFilters(store, codec, entity.name, entity.items, entity.items, "", 1).value.filters)
    ensures ConvertJoins(store, codec, entity.name, entity.items, entity.items).Err? ==> r == Err(ConvertJoins(store, codec, entity.name, entity.items, entity.items).error)
  {
    var expand :- ConvertJoins(store, codec, entity.name, entity.items, entity.items);
    WithInnerJoinFilters(store, codec, entity, q.(expand := q.expand + expand))
  }

  /** The inner-join filters go after the `<filter>` groups; range variables start at `o1`. */
  function WithInnerJoinFilters(store: MetadataStore, codec: ValueCodec, entity: Entity, q: EntityQuery): (r: Result<EntityQuery>)
    ensures r.Ok? <==> InnerJoinFilters(store, codec, entity.name, entity.items, entity.items, "", 1).Ok?
    ensures r.Ok? ==> r.value == q.(filter := q.filter + InnerJoinFilters(store, codec, entity.name, entity.items, entity.items, "", 1).value.filters)
    ensures r.Err? ==> r.error == InnerJoinFilters(store, codec, entity.name, entity.items, entity.items, "", 1).error
  {
    var inner :- InnerJoinFilters(store, codec, entity.name, entity.items, entity.items, "", 1);
    Ok(q.(filter := q.filter + inner.filters))
  }

  /** `ConvertOData(fetch)`: fills in a fresh root query one list after the other. */
  method ConvertOData(store: MetadataStore, codec: ValueCodec, fetch: Fetch) returns (r: Result<EntityOData>)
    ensures var spec := ConvertODataSpec(store, codec, fetch);
      (r.Ok? <==> spec.Ok?) && (r.Err? ==> r.error == spec.error)
    ensures r.Ok? ==> fresh(r.value) && r.value.Query() == ConvertODataSpec(store, codec, fetch).value
  {
    if fetch.items == [] {
      return Err(NullReference("Value cannot be null. (Parameter 'source')"));
    }
    var entity := FirstEntity(fetch.items);
    if entity.None? {
      return Err(NotSupported("Fetch must contain entity definition"));
    }
    var e := entity.value;
    var metadata := GetEntity(store, e.name);
    if metadata.Err? {
      return Err(metadata.error);
    }
    var odata := new EntityOData();
    odata.propertyName := CollectionName(metadata.value);
    var top := ConvertTop(fetch.top);
    if top.Err? {
      return Err(top.error);
    }
    odata.top := top.value;
    if e.items == [] {
      return Ok(odata);
    }
    var failure := AddEntityLists(odata, store, codec, fetch.aggregate, e);
    if failure.Some? {
      return Err(failure.value);
    }
    r := Ok(odata);
  }

  /** The second half of `ConvertOData`: the lists of an `<entity>` with children, appended
      to the query one after the other; the first conversion that fails ends it. */
  method AddEntityLists(odata: EntityOData, store: MetadataStore, codec: ValueCodec, aggregate: bool, e: Entity)
    returns (failure: Option<Error>)
    modifies odata
    ensures var spec := EntityLists(store, codec, aggregate, e, old(odata.Query()));
      (failure.None? <==> spec.Ok?) && (failure.Some? ==> failure.value == spec.error)
      && (failure.None? ==> odata.Query() == spec.value)
  {
    if aggregate {
      odata.groups := odata.groups + ConvertGroups(e.items);
      odata.aggregates := odata.aggregates + ConvertAggregates(e.items);
    }
    failure := AddQueryLists(odata, store, codec, e);
  }

  /** `$select`, `$orderby`, `$filter`, `$expand` and the inner-join filters, in that order. */
  method AddQueryLists(odata: EntityOData, store: MetadataStore, codec: ValueCodec, e: Entity)
    returns (failure: Option<Error>)
    modifies odata
    ensures var spec := WithSelect(store, codec, e, old(odata.Query()));
      (failure.None? <==> spec.Ok?) && (failure.Some? ==> failure.value == spec.error)
      && (failure.None? ==> odata.Query() == spec.value)
  {
    failure := AddSelect(odata, store, codec, e);
    if failure.None? {
      failure := AddListsFromOrder(odata, store, codec, e);
    }
  }

  /** `$orderby` and the lists after it. */
  method AddListsFromOrder(odata: EntityOData, store: MetadataStore, codec: ValueCodec, e: Entity)
    returns (failure: Option<Error>)
    modifies odata
    ensures var spec := WithOrder(store, codec, e, old(odata.Query()));
      (failure.None? <==> spec.Ok?) && (failure.Some? ==> failure.value == spec.error)
      && (failure.None? ==> odata.Query() == spec.value)
  {
    failure := AddOrder(odata, store, codec, e);
    if failure.None? {
      failure := AddListsFromFilters(odata, store, codec, e);
    }
  }

  /** `$filter` and the lists after it. */
  method AddListsFromFilters(odata: EntityOData, store: MetadataStore, codec: ValueCodec, e: Entity)
    returns (failure: Option<Error>)
    modifies odata
    ensures var spec := WithFilters(store, codec, e, old(odata.Query()));
      (failure.None? <==> spec.Ok?) && (failure.Some? ==> failure.value == spec.error)
      && (failure.None? ==> odata.Query() == spec.value)
  {
    failure := AddFilters(odata, store, codec, e);
    if failure.None? {
      failure := AddListsFromJoins(odata, store, codec, e);
    }
  }

  /** `$expand` and the inner-join filters. */
  method AddListsFromJoins(odata: EntityOData, store: MetadataStore, codec: ValueCodec, e: Entity)
    returns (failure: Option<Error>)
    modifies odata
    ensures var spec := WithJoins(store, codec, e, old(odata.Query()));
      (failure.None? <==> spec.Ok?) && (failure.Some? ==> failure.value == spec.error)
      && (failure.None? ==> odata.Query() == spec.value)
  {
    failure := AddJoins(odata, store, codec, e);
    if failure.None? {
      failure := AddInnerJoinFilters(odata, store, codec, e);
    }
  }

  /** `odata.Select.AddRange(ConvertSelect(entity.name, entity.Items))`. */
  method AddSelect(odata: EntityOData, store: MetadataStore, codec: ValueCodec, e: Entity) returns (failure: Option<Error>)
    modifies odata
    ensures failure.Some? <==> ConvertSelect(store, e.name, e.items).Err?
    ensures failure.Some? ==> failure.value == ConvertSelect(store, e.name, e.items).error && odata.Query() == old(odata.Query())
    ensures failure.None? ==> odata.Query() == old(odata.Query()).(select := old(odata.select) + ConvertSelect(store, e.name, e.items).value)
  {
    var converted := ConvertSelect(store, e.name, e.items);
    if converted.Err? {
      return Some(converted.error);
    }
    odata.select := odata.select + converted.value;
    failure := None;
  }

  /** `odata.OrderBy.AddRange(ConvertOrder(entity.name, entity.Items))`. */
  method AddOrder(odata: EntityOData, store: MetadataStore, codec: ValueCodec, e: Entity) returns (failure: Option<Error>)
    modifies odata
    ensures failure.Some? <==> ConvertOrder(store, e.name, e.items).Err?
    ensures failure.Some? ==> failure.value == ConvertOrder(store, e.name, e.items).error && odata.Query() == old(odata.Query())
    ensures failure.None? ==> odata.Query() == old(odata.Query()).(orderBy := old(odata.orderBy) + ConvertOrder(store, e.name, e.items).value)
  {
    var converted := ConvertOrder(store, e.name, e.items);
    if converted.Err? {
      return Some(converted.error);
    }
    odata.orderBy := odata.orderBy + converted.value;
    failure := None;
  }

  /** `odata.Filter.AddRange(ConvertFilters(entity.name, entity.Items, entity.Items))`. */
  method AddFilters(odata: EntityOData, store: MetadataStore, codec: ValueCodec, e: Entity) returns (failure: Option<Error>)
    modifies odata
    ensures failure.Some? <==> ConvertFilters(store, codec, e.name, e.items, e.items, "").Err?
    ensures failure.Some? ==> failure.value == ConvertFilters(store, codec, e.name, e.items, e.items, "").error && odata.Query() == old(odata.Query())
    ensures failure.None? ==> odata.Query() == old(odata.Query()).(filter := old(odata.filter) + ConvertFilters(store, codec, e.name, e.items, e.items, "").value)
  {
    var converted := ConvertFilters(store, codec, e.name, e.items, e.items, "");
    if converted.Err? {
      return Some(converted.error);
    }
    odata.filter := odata.filter + converted.value;
    failure := None;
  }

  /** `odata.Expand.AddRange(ConvertJoins(entity.name, entity.Items, entity.Items))`. */
  method AddJoins(odata: EntityOData, store: MetadataStore, codec: ValueCodec, e: Entity) returns (failure: Option<Error>)
    modifies odata
    ensures failure.Some? <==> ConvertJoins(store, codec, e.name, e.items, e.items).Err?
    ensures failure.Some? ==> failure.value == ConvertJoins(store, codec, e.name, e.items, e.items).error && odata.Query() == old(odata.Query())
    ensures failure.None? ==> odata.Query() == old(odata.Query()).(expand := old(odata.expand) + ConvertJoins(store, codec, e.name, e.items, e.items).value)
  {
    var converted := ConvertJoins(store, codec, e.name, e.items, e.items);
    if converted.Err? {
      return Some(converted.error);
    }
    odata.expand := odata.expand + converted.value;
    failure := None;
  }

  /** The extra filters that simulate inner joins, with the counter starting at 1. */
  method AddInnerJoinFilters(odata: EntityOData, store: MetadataStore, codec: ValueCodec, e: Entity) returns (failure: Option<Error>)
    modifies odata
    ensures var spec := WithInnerJoinFilters(store, codec, e, old(odata.Query()));
      (failure.None? <==> spec.Ok?) && (failure.Some? ==> failure.value == spec.error)
      && (failure.None? ==> odata.Query() == spec.value)
  {
    var count := 1;
    var inner;
    inner, count := ConvertInnerJoinFilters(store, codec, e.name, e.items, e.items, "", count);
    if inner.Err? {
      return Some(inner.error);
    }
    odata.filter := odata.filter + inner.value;
    failure := None;
  }

  /** `ConvertFetchXmlToWebAPI(fetch)` after deserialisation: refused without a connection,
      otherwise the organisation URL followed by the query. */
  method ConvertFetchXmlToWebAPI(store: MetadataStore, codec: ValueCodec, isConnected: bool, orgUrl: string, fetch: Fetch)
    returns (r: Result<string>)
    ensures !isConnected ==> r == Err(InvalidOperation("Must have an active connection to CRM to compose OData query."))
    ensures isConnected ==> (r.Ok? <==> ConvertODataSpec(store, codec, fetch).Ok?)
    ensures isConnected && r.Ok? ==> r.value == orgUrl + ConvertODataSpec(store, codec, fetch).value.ToString()
    ensures isConnected && r.Err? ==> r.error == ConvertODataSpec(store, codec, fetch).error
  {
    if !isConnected {
      return Err(InvalidOperation("Must have an active connection to CRM to compose OData query."));
    }
    var converted := ConvertOData(store, codec, fetch);
    if converted.Err? {
      return Err(converted.error);
    }
    r := Ok(orgUrl + converted.value.ToString());
  }

  // ---- properties ----

  /** An aggregate query with at least one aggregated attribute has the single option
      `$apply`, whatever else the entity holds. */
  lemma AggregateQueryIsApplyOnly(store: MetadataStore, codec: ValueCodec, fetch: Fetch)
    requires ConvertODataSpec(store, codec, fetch).Ok?
    requires fetch.aggregate && AggregatedAttributes(FirstEntity(fetch.items).value.items) != []
    ensures var q := ConvertODataSpec(store, codec, fetch).value;
      |q.Parts()| == 1 && OptionOf(q.Parts()[0]) == 5
  {
    var q := ConvertODataSpec(store, codec, fetch).value;
    var e := FirstEntity(fetch.items).value;
    assert e.items != [];
    assert q.aggregates == ConvertAggregates(e.items);
    assert q.aggregates != [];
    PartsInCanonicalOrder(q);
  }

  /** A `top` written from a 32-bit integer comes back as that integer. */
  lemma TopRoundTrip(n: int)
    requires Int32Min <= n <= Int32Max
    ensures ConvertTop(IntToString(n)) == Ok(Some(n))
  {
    IntToStringParses(n, Int32Min, Int32Max);
  }
}
