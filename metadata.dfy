/** The read-only entity metadata the forward translator consults: per entity its set name,
    primary key, attributes and relationships. The metadata provider becomes an immutable map
    from logical name to entity metadata; asking for an unknown entity fails. */
module Metadata {
  import opened Wrappers

  /** `AttributeMetadata.AttributeType`. */
  datatype AttributeTypeCode =
    | Boolean | Customer | DateTime | Decimal | Double | Integer | Lookup | Memo | Money
    | Owner | PartyList | Picklist | State | Status | String | Uniqueidentifier
    | CalendarRules | Virtual | BigInt | ManagedProperty | EntityName

  /** An attribute; `isLookup` is true for the lookup metadata class (lookup, customer and
      owner attributes), whose Web API property is `_<name>_value`. */
  datatype AttributeMetadata = AttributeMetadata(logicalName: string, attributeType: Option<AttributeTypeCode>, isLookup: bool)

  /** A one-to-many relationship, listed under the referenced entity as one-to-many and
      under the referencing entity as many-to-one. */
  datatype OneToManyRelationship = OneToManyRelationship(
    referencedEntity: string, referencedAttribute: string,
    referencingEntity: string, referencingAttribute: string,
    referencedNavigation: string, referencingNavigation: string)

  datatype ManyToManyRelationship = ManyToManyRelationship(
    entity1: string, entity1Intersect: string, entity1Navigation: string,
    entity2: string, entity2Intersect: string, entity2Navigation: string)

  datatype EntityMetadata = EntityMetadata(
    logicalName: string,
    entitySetName: Option<string>,
    logicalCollectionName: string,
    primaryIdAttribute: string,
    attributes: seq<AttributeMetadata>,
    oneToMany: seq<OneToManyRelationship>,
    manyToOne: seq<OneToManyRelationship>,
    manyToMany: seq<ManyToManyRelationship>)

  type MetadataStore = map<string, EntityMetadata>

  /** `IMetadataProvider.GetEntity(name)`. */
  function GetEntity(store: MetadataStore, name: string): (r: Result<EntityMetadata>)
    ensures r.Ok? <==> name in store
    ensures r.Ok? ==> r.value == store[name]
  {
    if name in store then Ok(store[name]) else Err(MetadataNotFound(name))
  }

  /** The attributes whose logical name is `name`, in metadata order. */
  function AttributesNamed(attributes: seq<AttributeMetadata>, name: string): (r: seq<AttributeMetadata>)
    ensures forall a :: a in r <==> a in attributes && a.logicalName == name
  {
    if attributes == [] then []
    else (if attributes[0].logicalName == name then [attributes[0]] else []) + AttributesNamed(attributes[1..], name)
  }

  /** Two different attributes of the list have the logical name `name`. */
  predicate NamedTwice(attributes: seq<AttributeMetadata>, name: string) {
    exists i, j :: 0 <= i < j < |attributes| && attributes[i].logicalName == name && attributes[j].logicalName == name
  }

  lemma {:induction false} NamedOnceCount(attributes: seq<AttributeMetadata>, name: string)
    ensures |AttributesNamed(attributes, name)| >= 1 <==> exists i :: 0 <= i < |attributes| && attributes[i].logicalName == name
  {
    if attributes != [] {
      var rest := attributes[1..];
      NamedOnceCount(rest, name);
      if exists i :: 0 <= i < |rest| && rest[i].logicalName == name {
        var i :| 0 <= i < |rest| && rest[i].logicalName == name;
        assert attributes[i + 1] == rest[i];
      }
      if exists i :: 0 <= i < |attributes| && attributes[i].logicalName == name {
        var i :| 0 <= i < |attributes| && attributes[i].logicalName == name;
        if i > 0 {
          assert rest[i - 1] == attributes[i];
        }
      }
    }
  }

  /** Splits a pair of equally named attributes at the head of the list. */
  lemma NamedTwiceCons(attributes: seq<AttributeMetadata>, name: string)
    requires attributes != []
    ensures NamedTwice(attributes, name) <==>
      (attributes[0].logicalName == name && exists j :: 0 <= j < |attributes[1..]| && attributes[1..][j].logicalName == name)
      || NamedTwice(attributes[1..], name)
  {
    var rest := attributes[1..];
    if NamedTwice(attributes, name) {
      var i, j :| 0 <= i < j < |attributes| && attributes[i].logicalName == name && attributes[j].logicalName == name;
      assert rest[j - 1] == attributes[j];
      if i > 0 {
        assert rest[i - 1] == attributes[i];
      }
    }
    if NamedTwice(rest, name) {
      var i, j :| 0 <= i < j < |rest| && rest[i].logicalName == name && rest[j].logicalName == name;
      assert attributes[i + 1] == rest[i] && attributes[j + 1] == rest[j];
    }
    if attributes[0].logicalName == name && exists j :: 0 <= j < |rest| && rest[j].logicalName == name {
      var j :| 0 <= j < |rest| && rest[j].logicalName == name;
      assert attributes[j + 1] == rest[j];
    }
  }

  lemma {:induction false} NamedTwiceCount(attributes: seq<AttributeMetadata>, name: string)
    ensures |AttributesNamed(attributes, name)| >= 2 <==> NamedTwice(attributes, name)
  {
    if attributes != [] {
      var rest := attributes[1..];
      NamedTwiceCount(rest, name);
      NamedOnceCount(rest, name);
      NamedTwiceCons(attributes, name);
      if attributes[0].logicalName == name {
        assert |AttributesNamed(attributes, name)| == 1 + |AttributesNamed(rest, name)|;
      } else {
        assert AttributesNamed(attributes, name) == AttributesNamed(rest, name);
      }
    }
  }

  /** Some attribute of the entity has the logical name `name`. */
  predicate HasAttribute(entity: EntityMetadata, name: string) {
    exists a :: a in entity.attributes && a.logicalName == name
  }

  /** `entity.Attributes.SingleOrDefault(a => a.LogicalName == name)`: none, the one, or an
      error when the name occurs more than once. */
  function FindAttribute(entity: EntityMetadata, name: string): (r: Result<Option<AttributeMetadata>>)
    ensures r.Ok? && r.value.Some? ==> r.value.value in entity.attributes && r.value.value.logicalName == name
    ensures r == Ok(None) <==> !HasAttribute(entity, name)
    // `SingleOrDefault` refuses a name that two attributes share
    ensures r.Err? <==> NamedTwice(entity.attributes, name)
    ensures r.Err? ==> r.error == InvalidOperation("Sequence contains more than one matching element")
  {
    var found := AttributesNamed(entity.attributes, name);
    NamedTwiceCount(entity.attributes, name);
    if |found| == 0 then Ok(None)
    else if |found| == 1 then assert found[0] in found; Ok(Some(found[0]))
    else assert found[0] in found; Err(InvalidOperation("Sequence contains more than one matching element"))
  }

  /** `EntitySetName ?? LogicalCollectionName`. */
  function CollectionName(entity: EntityMetadata): string {
    entity.entitySetName.GetOr(entity.logicalCollectionName)
  }
}
