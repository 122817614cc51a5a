/** The FetchXML query tree, as the XML serializer produces it from a `<fetch>` document.
    A child list that the document leaves out (a null `Items` array) is the empty sequence;
    an XML attribute that is left out is the empty string, except where the translator
    distinguishes an absent value from an empty one, where it is an `Option`. */
module FetchXml {
  import opened Wrappers

  /** The `aggregate` attribute of an `<attribute>` element. */
  datatype AggregateType = Count | CountColumn | Sum | Avg | Min | Max

  /** The `type` attribute of a `<filter>` element; `and` when left out. */
  datatype FilterType = And | Or

  /** The `operator` attribute of a `<condition>` element. `Unrecognised` stands for every
      other value of the schema's operator enumeration, carrying its spelling. */
  datatype Operator =
    | Eq | Neq | Ne | Gt | Ge | Le | Lt
    | Like | NotLike | BeginsWith | NotBeginWith | EndsWith | NotEndWith
    | In | NotIn | Between | NotBetween | Null | NotNull
    | Yesterday | Today | Tomorrow | LastSevenDays | NextSevenDays
    | LastWeek | ThisWeek | NextWeek | LastMonth | ThisMonth | NextMonth
    | On | OnOrBefore | OnOrAfter | LastYear | ThisYear | NextYear
    | LastXHours | NextXHours | LastXDays | NextXDays | LastXWeeks | NextXWeeks
    | LastXMonths | NextXMonths | LastXYears | NextXYears
    | OlderThanXMonths | OlderThanXYears | OlderThanXWeeks | OlderThanXDays
    | OlderThanXHours | OlderThanXMinutes
    | EqUserId | NeUserId | EqUserTeams | EqUserOrUserTeams | EqUserOrUserHierarchy
    | EqUserOrUserHierarchyAndTeams | EqBusinessId | NeBusinessId | EqUserLanguage
    | ThisFiscalYear | ThisFiscalPeriod | NextFiscalYear | NextFiscalPeriod
    | LastFiscalYear | LastFiscalPeriod | LastXFiscalYears | LastXFiscalPeriods
    | NextXFiscalYears | NextXFiscalPeriods | InFiscalYear | InFiscalPeriod
    | InFiscalPeriodAndYear | InOrBeforeFiscalPeriodAndYear | InOrAfterFiscalPeriodAndYear
    | Under | EqOrUnder | NotUnder | Above | EqOrAbove
    | ContainValues | NotContainValues
    | Unrecognised(spelling: string)

  /** `<attribute name alias groupby aggregate/>`; `groupBy` is present exactly when the
      document gives a `groupby` attribute, whatever its value. */
  datatype Attribute = Attribute(name: Option<string>, alias: string, groupBy: Option<bool>, aggregate: Option<AggregateType>)

  /** `<order attribute alias descending/>`. */
  datatype Order = Order(attribute: Option<string>, alias: string, descending: bool)

  /** `<condition entityname attribute operator value valueof>` with its `<value>` children;
      `values` is `None` when the element has no `<value>` child (a null `Items` array). */
  datatype Condition = Condition(entityName: string, attribute: string, op: Operator,
                                 value: Option<string>, valueOf: string, values: Option<seq<string>>)

  /** One child of an `<entity>`, `<link-entity>`, `<filter>` or `<fetch>` element. */
  datatype Item =
    | AllAttributes
    | AttributeItem(attribute: Attribute)
    | LinkItem(link: LinkEntity)
    | FilterItem(filter: Filter)
    | ConditionItem(condition: Condition)
    | OrderItem(order: Order)
    | EntityItem(entity: Entity)

  /** `<link-entity name from to alias link-type>`. */
  datatype LinkEntity = LinkEntity(name: string, from: string, to: string, alias: string, linkType: string, items: seq<Item>)

  datatype Filter = Filter(filterType: FilterType, items: seq<Item>)

  datatype Entity = Entity(name: string, items: seq<Item>)

  /** The `<fetch top aggregate>` root. */
  datatype Fetch = Fetch(top: string, aggregate: bool, items: seq<Item>)

  /** The `<link-entity>` children among `items`, in document order. */
  function Links(items: seq<Item>): (r: seq<LinkEntity>)
    ensures |r| <= |items|
    ensures forall l :: l in r <==> LinkItem(l) in items
  {
    if items == [] then []
    else (if items[0].LinkItem? then [items[0].link] else []) + Links(items[1..])
  }

  /** The number of items in a tree of children, counting nested links' children. */
  function TreeSize(items: seq<Item>): (n: nat)
    decreases items
  {
    if items == [] then 0 else ItemSize(items[0]) + TreeSize(items[1..])
  }

  function ItemSize(item: Item): (n: nat)
    ensures n >= 1
    ensures item.LinkItem? ==> n > TreeSize(item.link.items)
    ensures item.FilterItem? ==> n > TreeSize(item.filter.items)
    decreases item
  {
    1 + (match item
         case LinkItem(link) => TreeSize(link.items)
         case FilterItem(filter) => TreeSize(filter.items)
         case EntityItem(entity) => TreeSize(entity.items)
         case _ => 0)
  }

  /** A child is no larger than the tree of children it belongs to. */
  lemma {:induction false} ItemSizeWithin(items: seq<Item>, item: Item)
    requires item in items
    ensures ItemSize(item) <= TreeSize(items)
  {
    if items[0] != item {
      ItemSizeWithin(items[1..], item);
    }
  }
}
