/** The parsed Web API query that the reverse translator starts from: the nodes an OData
    URI parser produces for the resource path, `$select`/`$expand`, `$filter`, `$orderby`
    and `$apply`, cut down to the shapes the translator tells apart. Every shape it does not
    handle is one `Other..` constructor; the parser itself and the service model it reads are
    not part of this model, only the facts the translator asks of them (entity type names,
    declared keys, navigation targets and partners). */
module ODataTree {
  import opened Wrappers

  /** A property of a declared key: a structural property with its name, or anything else. */
  datatype KeyProperty = StructuralKey(name: string) | OtherKey

  /** An entity type: its name and its declared key (`None` for a type that declares none). */
  datatype EdmEntityType = EdmEntityType(name: string, declaredKey: Option<seq<KeyProperty>>)

  /** An entity set of the service model and the type of its entities. */
  datatype EntitySet = EntitySet(name: string, entityType: EdmEntityType)

  /** The type the first resource-path segment designates: a collection whose element type
      has a full name, a collection of anything else, or another type. */
  datatype SetType = NamedCollection(elementName: string) | UnnamedCollection | OtherSetType

  /** A resource-path segment. */
  datatype PathSegment = EntitySetSegment(edmType: SetType) | OtherPathSegment

  /** The partner of a navigation property and the dependent properties of its referential
      constraint (`None` when it has none). */
  datatype Partner = Partner(dependentProperties: Option<seq<string>>)

  /** What a navigation property leads to: a collection of entities (`None` when its element
      type is not an entity type), a single entity, or something else. */
  datatype NavigationTarget =
    | EntityCollection(element: Option<EdmEntityType>)
    | SingleEntity(entityType: EdmEntityType)
    | OtherTarget

  /** A segment of an expand path: a navigation property with its identifier, target,
      declaring type and partner, or any other segment. */
  datatype ExpandSegment =
    | NavigationPropertySegment(identifier: string, target: NavigationTarget,
                                declaringType: EdmEntityType, partner: Option<Partner>)
    | OtherExpandSegment

  /** One item of a `$select`/`$expand` clause: an expanded navigation with its own nested
      clause, a selected path (the identifiers of its segments), or another kind of item. */
  datatype SelectItem =
    | ExpandedNavigation(path: seq<ExpandSegment>, nested: Option<SelectExpand>)
    | PathSelect(selectedPath: seq<string>)
    | OtherSelectItem

  /** A `$select`/`$expand` clause: whether every property is selected, and its items. */
  datatype SelectExpand = SelectExpand(allSelected: bool, items: seq<SelectItem>)

  /** The binary operators of a `$filter` expression. */
  datatype BinaryOperatorKind = OrKind | AndKind | EqualKind | NotEqualKind | GreaterThanKind
                              | GreaterThanOrEqualKind | LessThanKind | LessThanOrEqualKind | OtherKind

  /** A node of a `$filter` expression: a binary operator, a type conversion, a property of
      the current entity, a constant (`None` for the null literal) as its text, or any other
      node. */
  datatype QueryNode =
    | BinaryOperator(kind: BinaryOperatorKind, left: QueryNode, right: QueryNode)
    | ConvertNode(source: QueryNode)
    | PropertyAccess(name: string)
    | Constant(text: Option<string>)
    | OtherNode

  datatype Direction = Ascending | Descending

  /** A `$orderby` clause: a sort expression, its direction and the clause for the next key. */
  datatype OrderByClause = OrderByClause(expression: QueryNode, direction: Direction, thenBy: Option<OrderByClause>)

  /** An aggregate expression of an `aggregate(..)` transformation: one whose expression is
      the `$count` virtual property (with its alias), another aggregate expression, or an
      expression of another kind (an entity-set aggregation). */
  datatype AggregateChild =
    | AggregateExpression(isCount: bool, alias: string)
    | OtherAggregateChild

  /** The transformation nested inside a `groupby`. */
  datatype ChildTransformation = AggregateTransformation(expressions: seq<AggregateChild>) | OtherChildTransformation

  /** A transformation of `$apply`: a `groupby` with its grouping properties and its nested
      transformation, or any other transformation. */
  datatype Transformation =
    | GroupBy(groupingProperties: seq<string>, child: Option<ChildTransformation>)
    | OtherTransformation

  /** Everything the translator asks of the parser, one field per `Parse..` call. */
  datatype ParsedQuery = ParsedQuery(path: seq<PathSegment>, top: Option<int>, selectExpand: Option<SelectExpand>,
                                     filter: Option<QueryNode>, orderBy: Option<OrderByClause>,
                                     apply: Option<seq<Transformation>>)
}
