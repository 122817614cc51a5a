/** How the forward translator turns a `<link-entity>` into a Web API navigation property,
    and how it finds the link an aliased condition refers to. A link is resolved against the
    relationships of the entity it hangs from: a one-to-many relationship gives a collection
    (child) property, a many-to-one relationship a single-valued property, and a
    many-to-many relationship, written in FetchXML as a link to the intersect entity with one
    nested link to the far entity, a collection property that skips the intersect entity. */
module Navigation {
  import opened Wrappers
  import opened Text
  import opened Metadata
  import opened FetchXml

  /** A resolved link: the property name, whether it is a collection, and for a
      many-to-many relationship the nested link to the far entity. */
  datatype Navigation = Navigation(propertyName: string, child: bool, next: Option<LinkEntity>)

  /** Which key of the nested link the entity-2 side of a many-to-many relationship is
      compared with: `NextFrom` is what FetchXmlToWebAPIConverter.cs line 1052 does,
      `NextTo` the key the entity-1 side uses and the one that names the intersect
      attribute. */
  datatype NextKey = NextFrom | NextTo

  predicate OneToManyMatches(rel: OneToManyRelationship, entityName: string, link: LinkEntity) {
    rel.referencedEntity == entityName && rel.referencedAttribute == link.to
    && rel.referencingEntity == link.name && rel.referencingAttribute == link.from
  }

  predicate ManyToOneMatches(rel: OneToManyRelationship, entityName: string, link: LinkEntity) {
    rel.referencingEntity == entityName && rel.referencingAttribute == link.to
    && rel.referencedEntity == link.name && rel.referencedAttribute == link.from
  }

  /** The link leaves `entityName` for the intersect entity of `rel` from entity 1. */
  predicate Entity1Matches(rel: ManyToManyRelationship, entityName: string, link: LinkEntity) {
    rel.entity1 == entityName && rel.entity1Intersect == link.from
  }

  /** The nested link reaches entity 2 of `rel` from the intersect entity. */
  predicate Entity1NextMatches(rel: ManyToManyRelationship, next: LinkEntity) {
    rel.entity2 == next.name && rel.entity2Intersect == next.to
  }

  predicate Entity2Matches(rel: ManyToManyRelationship, entityName: string, link: LinkEntity) {
    rel.entity2 == entityName && rel.entity2Intersect == link.from
  }

  function NextKeyOf(next: LinkEntity, key: NextKey): string {
    if key == NextFrom then next.from else next.to
  }

  predicate Entity2NextMatches(rel: ManyToManyRelationship, next: LinkEntity, key: NextKey) {
    rel.entity1 == next.name && rel.entity1Intersect == NextKeyOf(next, key)
  }

  /** `i` indexes the first one-to-many relationship of `rels` that the link follows. */
  predicate FirstOneToManyAt(rels: seq<OneToManyRelationship>, i: int, entityName: string, link: LinkEntity) {
    0 <= i < |rels| && OneToManyMatches(rels[i], entityName, link)
    && forall j :: 0 <= j < i ==> !OneToManyMatches(rels[j], entityName, link)
  }

  /** `i` indexes the first many-to-one relationship of `rels` that the link follows. */
  predicate FirstManyToOneAt(rels: seq<OneToManyRelationship>, i: int, entityName: string, link: LinkEntity) {
    0 <= i < |rels| && ManyToOneMatches(rels[i], entityName, link)
    && forall j :: 0 <= j < i ==> !ManyToOneMatches(rels[j], entityName, link)
  }

  /** The first one-to-many relationship of `rels` that the link follows. */
  function FirstOneToMany(rels: seq<OneToManyRelationship>, entityName: string, link: LinkEntity): (r: Option<OneToManyRelationship>)
    ensures r.Some? ==> exists i :: FirstOneToManyAt(rels, i, entityName, link) && rels[i] == r.value
    ensures r.None? <==> forall rel :: rel in rels ==> !OneToManyMatches(rel, entityName, link)
  {
    if rels == [] then None
    else if OneToManyMatches(rels[0], entityName, link) then
      assert FirstOneToManyAt(rels, 0, entityName, link);
      Some(rels[0])
    else
      var r := FirstOneToMany(rels[1..], entityName, link);
      assert r.Some? ==> exists i :: FirstOneToManyAt(rels, i, entityName, link) && rels[i] == r.value by {
        if r.Some? {
          var i :| FirstOneToManyAt(rels[1..], i, entityName, link) && rels[1..][i] == r.value;
          assert FirstOneToManyAt(rels, i + 1, entityName, link);
        }
      }
      r
  }

  /** The first many-to-one relationship of `rels` that the link follows. */
  function FirstManyToOne(rels: seq<OneToManyRelationship>, entityName: string, link: LinkEntity): (r: Option<OneToManyRelationship>)
    ensures r.Some? ==> exists i :: FirstManyToOneAt(rels, i, entityName, link) && rels[i] == r.value
    ensures r.None? <==> forall rel :: rel in rels ==> !ManyToOneMatches(rel, entityName, link)
  {
    if rels == [] then None
    else if ManyToOneMatches(rels[0], entityName, link) then
      assert FirstManyToOneAt(rels, 0, entityName, link);
      Some(rels[0])
    else
      var r := FirstManyToOne(rels[1..], entityName, link);
      assert r.Some? ==> exists i :: FirstManyToOneAt(rels, i, entityName, link) && rels[i] == r.value by {
        if r.Some? {
          var i :| FirstManyToOneAt(rels[1..], i, entityName, link) && rels[1..][i] == r.value;
          assert FirstManyToOneAt(rels, i + 1, entityName, link);
        }
      }
      r
  }

  /** The link's nested links, as the many-to-many branches inspect them: an absent child
      list fails, and more than one nested link is not a many-to-many shape. */
  function NestedLinks(link: LinkEntity): (r: Result<seq<LinkEntity>>)
    ensures r.Ok? <==> link.items != [] && |Links(link.items)| <= 1
    ensures r.Ok? ==> r.value == Links(link.items)
    ensures r.Err? ==> r.error.NullReference? || r.error == NotSupported("Invalid M:M-relation definition for OData")
  {
    if link.items == [] then Err(NullReference("Value cannot be null. (Parameter 'source')"))
    else
      var links := Links(link.items);
      :- Need(|links| <= 1, NotSupported("Invalid M:M-relation definition for OData"));
      Ok(links)
  }

  /** The link reaches entity 2 of `rel` from entity 1 through its one nested link. */
  predicate Entity1Follows(rel: ManyToManyRelationship, entityName: string, link: LinkEntity) {
    Entity1Matches(rel, entityName, link) && |Links(link.items)| == 1 && Entity1NextMatches(rel, Links(link.items)[0])
  }

  /** The link reaches entity 1 of `rel` from entity 2 through its one nested link. */
  predicate Entity2Follows(rel: ManyToManyRelationship, entityName: string, link: LinkEntity, key: NextKey) {
    Entity2Matches(rel, entityName, link) && |Links(link.items)| == 1 && Entity2NextMatches(rel, Links(link.items)[0], key)
  }

  predicate FirstEntity1At(rels: seq<ManyToManyRelationship>, i: int, entityName: string, link: LinkEntity) {
    0 <= i < |rels| && Entity1Follows(rels[i], entityName, link)
    && forall j :: 0 <= j < i ==> !Entity1Follows(rels[j], entityName, link)
  }

  predicate FirstEntity2At(rels: seq<ManyToManyRelationship>, i: int, entityName: string, link: LinkEntity, key: NextKey) {
    0 <= i < |rels| && Entity2Follows(rels[i], entityName, link, key)
    && forall j :: 0 <= j < i ==> !Entity2Follows(rels[j], entityName, link, key)
  }

  /** The loop over the many-to-many relationships with the entity as entity 1: the first
      relationship the link follows wins; the nested links are inspected (and can fail)
      as soon as one relationship leaves from the link's `from` attribute. */
  function ManyToManyFromEntity1(rels: seq<ManyToManyRelationship>, entityName: string, link: LinkEntity): (r: Result<Option<Navigation>>)
    ensures r.Ok? && r.value.Some? ==>
      exists i :: FirstEntity1At(rels, i, entityName, link)
        && r.value.value == Navigation(rels[i].entity1Navigation, true, Some(Links(link.items)[0]))
    ensures r == Ok(None) <==> forall i :: 0 <= i < |rels| ==> Entity1PassedOver(rels[i], entityName, link)
    ensures r.Err? ==> NestedLinks(link).Err? && r.error == NestedLinks(link).error
  {
    if rels == [] then Ok(None)
    else
      var follows :- if Entity1Matches(rels[0], entityName, link) then
                       var links :- NestedLinks(link);
                       Ok(|links| == 1 && Entity1NextMatches(rels[0], links[0]))
                     else Ok(false);
      if follows then
        assert FirstEntity1At(rels, 0, entityName, link);
        Ok(Some(Navigation(rels[0].entity1Navigation, true, Some(Links(link.items)[0]))))
      else
        var r := ManyToManyFromEntity1(rels[1..], entityName, link);
        Entity1PassedOverShift(rels, entityName, link);
        assert r.Ok? && r.value.Some? ==> exists i :: FirstEntity1At(rels, i, entityName, link)
                                                 && r.value.value == Navigation(rels[i].entity1Navigation, true, Some(Links(link.items)[0])) by {
          if r.Ok? && r.value.Some? {
            FirstEntity1Shift(rels, entityName, link, r.value.value);
          }
        }
        r
  }

  /** The loop goes past `rel` without an answer and without failing. */
  predicate Entity1PassedOver(rel: ManyToManyRelationship, entityName: string, link: LinkEntity) {
    !Entity1Follows(rel, entityName, link) && (NestedLinks(link).Err? ==> !Entity1Matches(rel, entityName, link))
  }

  lemma Entity1PassedOverShift(rels: seq<ManyToManyRelationship>, entityName: string, link: LinkEntity)
    requires rels != [] && Entity1PassedOver(rels[0], entityName, link)
    ensures (forall i :: 0 <= i < |rels| ==> Entity1PassedOver(rels[i], entityName, link))
        <==> (forall i :: 0 <= i < |rels[1..]| ==> Entity1PassedOver(rels[1..][i], entityName, link))
  {
    if forall i :: 0 <= i < |rels[1..]| ==> Entity1PassedOver(rels[1..][i], entityName, link) {
      forall i | 0 <= i < |rels| ensures Entity1PassedOver(rels[i], entityName, link) {
        if i > 0 { assert rels[i] == rels[1..][i - 1]; }
      }
    }
  }

  lemma FirstEntity1Shift(rels: seq<ManyToManyRelationship>, entityName: string, link: LinkEntity, nav: Navigation)
    requires rels != [] && !Entity1Follows(rels[0], entityName, link)
    requires exists i :: FirstEntity1At(rels[1..], i, entityName, link)
                         && nav == Navigation(rels[1..][i].entity1Navigation, true, Some(Links(link.items)[0]))
    ensures exists i :: FirstEntity1At(rels, i, entityName, link)
                        && nav == Navigation(rels[i].entity1Navigation, true, Some(Links(link.items)[0]))
  {
    var i :| FirstEntity1At(rels[1..], i, entityName, link)
             && nav == Navigation(rels[1..][i].entity1Navigation, true, Some(Links(link.items)[0]));
    assert FirstEntity1At(rels, i + 1, entityName, link);
  }


  /** The loop over the many-to-many relationships with the entity as entity 2, with the
      key of the nested link it compares as a parameter. */
  function ManyToManyFromEntity2(rels: seq<ManyToManyRelationship>, entityName: string, link: LinkEntity, key: NextKey): (r: Result<Option<Navigation>>)
    ensures r.Ok? && r.value.Some? ==>
      exists i :: FirstEntity2At(rels, i, entityName, link, key)
        && r.value.value == Navigation(rels[i].entity2Navigation, true, Some(Links(link.items)[0]))
    ensures r == Ok(None) <==> forall i :: 0 <= i < |rels| ==> Entity2PassedOver(rels[i], entityName, link, key)
    ensures r.Err? ==> NestedLinks(link).Err? && r.error == NestedLinks(link).error
  {
    if rels == [] then Ok(None)
    else
      var follows :- if Entity2Matches(rels[0], entityName, link) then
                       var links :- NestedLinks(link);
                       Ok(|links| == 1 && Entity2NextMatches(rels[0], links[0], key))
                     else Ok(false);
      if follows then
        assert FirstEntity2At(rels, 0, entityName, link, key);
        Ok(Some(Navigation(rels[0].entity2Navigation, true, Some(Links(link.items)[0]))))
      else
        var r := ManyToManyFromEntity2(rels[1..], entityName, link, key);
        Entity2PassedOverShift(rels, entityName, link, key);
        assert r.Ok? && r.value.Some? ==> exists i :: FirstEntity2At(rels, i, entityName, link, key)
                                                 && r.value.value == Navigation(rels[i].entity2Navigation, true, Some(Links(link.items)[0])) by {
          if r.Ok? && r.value.Some? {
            FirstEntity2Shift(rels, entityName, link, key, r.value.value);
          }
        }
        r
  }

  /** The loop goes past `rel` without an answer and without failing. */
  predicate Entity2PassedOver(rel: ManyToManyRelationship, entityName: string, link: LinkEntity, key: NextKey) {
    !Entity2Follows(rel, entityName, link, key) && (NestedLinks(link).Err? ==> !Entity2Matches(rel, entityName, link))
  }

  lemma Entity2PassedOverShift(rels: seq<ManyToManyRelationship>, entityName: string, link: LinkEntity, key: NextKey)
    requires rels != [] && Entity2PassedOver(rels[0], entityName, link, key)
    ensures (forall i :: 0 <= i < |rels| ==> Entity2PassedOver(rels[i], entityName, link, key))
        <==> (forall i :: 0 <= i < |rels[1..]| ==> Entity2PassedOver(rels[1..][i], entityName, link, key))
  {
    if forall i :: 0 <= i < |rels[1..]| ==> Entity2PassedOver(rels[1..][i], entityName, link, key) {
      forall i | 0 <= i < |rels| ensures Entity2PassedOver(rels[i], entityName, link, key) {
        if i > 0 { assert rels[i] == rels[1..][i - 1]; }
      }
    }
  }

  lemma FirstEntity2Shift(rels: seq<ManyToManyRelationship>, entityName: string, link: LinkEntity, key: NextKey, nav: Navigation)
    requires rels != [] && !Entity2Follows(rels[0], entityName, link, key)
    requires exists i :: FirstEntity2At(rels[1..], i, entityName, link, key)
                         && nav == Navigation(rels[1..][i].entity2Navigation, true, Some(Links(link.items)[0]))
    ensures exists i :: FirstEntity2At(rels, i, entityName, link, key)
                        && nav == Navigation(rels[i].entity2Navigation, true, Some(Links(link.items)[0]))
  {
    var i :| FirstEntity2At(rels[1..], i, entityName, link, key)
             && nav == Navigation(rels[1..][i].entity2Navigation, true, Some(Links(link.items)[0]));
    assert FirstEntity2At(rels, i + 1, entityName, link, key);
  }


  /** The error for a link that no relationship of the entity explains. */
  function UnresolvedError(entityName: string, link: LinkEntity): Error {
    NotSupported("Cannot find metadata for relation " + entityName + "." + link.to + " => " + link.name + "." + link.from)
  }

  /** No relationship of `entity` explains the link, and the nested links were not
      inspected or were well formed. */
  predicate Unresolvable(entity: EntityMetadata, entityName: string, link: LinkEntity, key: NextKey) {
    (forall rel :: rel in entity.oneToMany ==> !OneToManyMatches(rel, entityName, link))
    && (forall rel :: rel in entity.manyToOne ==> !ManyToOneMatches(rel, entityName, link))
    && (forall i :: 0 <= i < |entity.manyToMany| ==>
          Entity1PassedOver(entity.manyToMany[i], entityName, link) && Entity2PassedOver(entity.manyToMany[i], entityName, link, key))
  }

  /** `LinkItemToNavigationProperty(entityName, link)`, with the entity-2 key as a parameter. */
  function ResolveLink(store: MetadataStore, entityName: string, link: LinkEntity, key: NextKey): (r: Result<Navigation>)
    ensures entityName !in store ==> r == Err(MetadataNotFound(entityName))
    ensures r.Ok? ==> entityName in store
    // the first one-to-many relationship wins
    ensures entityName in store && (exists rel :: rel in store[entityName].oneToMany && OneToManyMatches(rel, entityName, link)) ==>
      exists i :: FirstOneToManyAt(store[entityName].oneToMany, i, entityName, link)
        && r == Ok(Navigation(store[entityName].oneToMany[i].referencedNavigation, true, None))
    // then the first many-to-one relationship
    ensures (entityName in store && (forall rel :: rel in store[entityName].oneToMany ==> !OneToManyMatches(rel, entityName, link))
             && exists rel :: rel in store[entityName].manyToOne && ManyToOneMatches(rel, entityName, link)) ==>
      exists i :: FirstManyToOneAt(store[entityName].manyToOne, i, entityName, link)
        && r == Ok(Navigation(store[entityName].manyToOne[i].referencingNavigation, false, None))
    ensures r.Ok? && r.value.next.Some? ==> r.value.child && Links(link.items) == [r.value.next.value]
    ensures r.Ok? && !r.value.child ==>
      exists i :: FirstManyToOneAt(store[entityName].manyToOne, i, entityName, link)
        && r.value.propertyName == store[entityName].manyToOne[i].referencingNavigation
    ensures r.Ok? && r.value.child && r.value.next.None? ==>
      exists i :: FirstOneToManyAt(store[entityName].oneToMany, i, entityName, link)
        && r.value.propertyName == store[entityName].oneToMany[i].referencedNavigation
  {
    var entity :- GetEntity(store, entityName);
    var oneToMany := FirstOneToMany(entity.oneToMany, entityName, link);
    if oneToMany.Some? then Ok(Navigation(oneToMany.value.referencedNavigation, true, None))
    else
      var manyToOne := FirstManyToOne(entity.manyToOne, entityName, link);
      if manyToOne.Some? then Ok(Navigation(manyToOne.value.referencingNavigation, false, None))
      else
        var fromEntity1 :- ManyToManyFromEntity1(entity.manyToMany, entityName, link);
        if fromEntity1.Some? then
          assert Links(link.items) == [fromEntity1.value.next.value];
          Ok(fromEntity1.value)
        else
          var fromEntity2 :- ManyToManyFromEntity2(entity.manyToMany, entityName, link, key);
          if fromEntity2.Some? then
            assert Links(link.items) == [fromEntity2.value.next.value];
            Ok(fromEntity2.value)
          else Err(UnresolvedError(entityName, link))
  }

  /** A resolved many-to-many link is the first the entity-1 loop accepts, or, when that
      loop accepts none, the first the entity-2 loop accepts. */
  lemma ResolveLinkManyToMany(store: MetadataStore, entityName: string, link: LinkEntity, key: NextKey)
    requires ResolveLink(store, entityName, link, key).Ok? && ResolveLink(store, entityName, link, key).value.next.Some?
    ensures var nav := ResolveLink(store, entityName, link, key).value;
      var rels := store[entityName].manyToMany;
      (exists i :: FirstEntity1At(rels, i, entityName, link)
                   && nav == Navigation(rels[i].entity1Navigation, true, Some(Links(link.items)[0])))
      || ((forall i :: 0 <= i < |rels| ==> !Entity1Follows(rels[i], entityName, link))
          && exists i :: FirstEntity2At(rels, i, entityName, link, key)
                         && nav == Navigation(rels[i].entity2Navigation, true, Some(Links(link.items)[0])))
  {
  }

  /** The link fails with "Cannot find metadata for relation …" exactly when no
      relationship of the entity explains it. */
  lemma ResolveLinkUnresolved(store: MetadataStore, entityName: string, link: LinkEntity, key: NextKey)
    ensures ResolveLink(store, entityName, link, key) == Err(UnresolvedError(entityName, link)) <==>
      entityName in store && Unresolvable(store[entityName], entityName, link, key)
  {
    if entityName in store {
      ResolveLinkFallsThrough(store, entityName, link, key);
    }
  }

  /** `ResolveLink` reaches its final error exactly when all four searches come back empty. */
  lemma ResolveLinkFallsThrough(store: MetadataStore, entityName: string, link: LinkEntity, key: NextKey)
    requires entityName in store
    ensures var entity := store[entityName];
      ResolveLink(store, entityName, link, key) == Err(UnresolvedError(entityName, link)) <==>
        FirstOneToMany(entity.oneToMany, entityName, link).None? && FirstManyToOne(entity.manyToOne, entityName, link).None?
        && ManyToManyFromEntity1(entity.manyToMany, entityName, link) == Ok(None)
        && ManyToManyFromEntity2(entity.manyToMany, entityName, link, key) == Ok(None)
  {
    var e := UnresolvedError(entityName, link);
    assert e.message[0] == 'C';
  }

  /** The translator as written: the entity-2 side compares the nested link's `from`. */
  function LinkItemToNavigationPropertyAsWritten(store: MetadataStore, entityName: string, link: LinkEntity): Result<Navigation> {
    ResolveLink(store, entityName, link, NextFrom)
  }

  /** The resolution the rest of the model uses: both sides compare the nested link's `to`. */
  function LinkItemToNavigationProperty(store: MetadataStore, entityName: string, link: LinkEntity): Result<Navigation> {
    ResolveLink(store, entityName, link, NextTo)
  }

  /** The link that a many-to-many relationship expects from entity `side` (1 or 2): to
      the intersect entity by that side's intersect attribute, with one nested link from
      the intersect entity to the other side. */
  function ManyToManyLinks(rel: ManyToManyRelationship, intersectEntity: string, fromEntity1: bool,
                           ownKey: string, farKey: string, alias: string, items: seq<Item>): LinkEntity
  {
    var far := if fromEntity1 then LinkEntity(rel.entity2, farKey, rel.entity2Intersect, alias, "", items)
               else LinkEntity(rel.entity1, farKey, rel.entity1Intersect, alias, "", items);
    LinkEntity(intersectEntity, if fromEntity1 then rel.entity1Intersect else rel.entity2Intersect, ownKey, "", "", [LinkItem(far)])
  }

  /** With the corrected key, a many-to-many relationship is followed from either side:
      the link shaped for entity 1 resolves to the entity-1 navigation property and the
      mirror-image link for entity 2 to the entity-2 one, each skipping to its far link. */
  lemma ManyToManyResolvesFromBothSides(rel: ManyToManyRelationship, intersectEntity: string,
                                        ownKey: string, farKey: string, alias: string, items: seq<Item>)
    ensures var link := ManyToManyLinks(rel, intersectEntity, true, ownKey, farKey, alias, items);
      ManyToManyFromEntity1([rel], rel.entity1, link)
        == Ok(Some(Navigation(rel.entity1Navigation, true, Some(link.items[0].link))))
    ensures var link := ManyToManyLinks(rel, intersectEntity, false, ownKey, farKey, alias, items);
      ManyToManyFromEntity2([rel], rel.entity2, link, NextTo)
        == Ok(Some(Navigation(rel.entity2Navigation, true, Some(link.items[0].link))))
  {
    var link1 := ManyToManyLinks(rel, intersectEntity, true, ownKey, farKey, alias, items);
    assert Links(link1.items) == [link1.items[0].link];
    var link2 := ManyToManyLinks(rel, intersectEntity, false, ownKey, farKey, alias, items);
    assert Links(link2.items) == [link2.items[0].link];
  }

  /** With the key as written, the mirror-image link is followed from entity 2 only when
      the far entity's own key happens to equal its intersect attribute. */
  lemma ManyToManyAsWrittenNeedsEqualKeys(rel: ManyToManyRelationship, intersectEntity: string,
                                          ownKey: string, farKey: string, alias: string, items: seq<Item>)
    requires farKey != rel.entity1Intersect
    ensures var link := ManyToManyLinks(rel, intersectEntity, false, ownKey, farKey, alias, items);
      ManyToManyFromEntity2([rel], rel.entity2, link, NextFrom) == Ok(None)
  {
    var link := ManyToManyLinks(rel, intersectEntity, false, ownKey, farKey, alias, items);
    assert Links(link.items) == [link.items[0].link];
  }

  // ---- finding the link an aliased condition names ----

  /** The link an `entityname` attribute names: by alias, or by entity name when it has none. */
  predicate AliasMatches(link: LinkEntity, alias: string) {
    link.alias == alias || (link.alias == "" && link.name == alias)
  }

  /** `link` occurs somewhere below `items`. */
  predicate InTree(link: LinkEntity, items: seq<Item>)
    decreases TreeSize(items)
  {
    items != []
    && ((items[0].LinkItem? && (items[0].link == link || InTree(link, items[0].link.items)))
        || InTree(link, items[1..]))
  }

  /** The links below `items` in document order: each link, then the links below it, then
      its later siblings. */
  function PreOrder(items: seq<Item>): (r: seq<LinkEntity>)
    decreases TreeSize(items)
  {
    if items == [] then []
    else if items[0].LinkItem? then [items[0].link] + PreOrder(items[0].link.items) + PreOrder(items[1..])
    else PreOrder(items[1..])
  }

  /** The first link of `links` that `alias` names. */
  function FirstAliased(links: seq<LinkEntity>, alias: string): (r: Option<LinkEntity>)
    ensures r.Some? ==> exists i :: 0 <= i < |links| && links[i] == r.value && AliasMatches(links[i], alias)
                                    && forall j :: 0 <= j < i ==> !AliasMatches(links[j], alias)
    ensures r.None? <==> forall l :: l in links ==> !AliasMatches(l, alias)
  {
    if links == [] then None
    else if AliasMatches(links[0], alias) then Some(links[0])
    else
      var r := FirstAliased(links[1..], alias);
      assert r.Some? ==> exists i :: 0 <= i < |links| && links[i] == r.value && AliasMatches(links[i], alias)
                                     && forall j :: 0 <= j < i ==> !AliasMatches(links[j], alias) by {
        if r.Some? {
          var i :| 0 <= i < |links[1..]| && links[1..][i] == r.value && AliasMatches(links[1..][i], alias)
                   && forall j :: 0 <= j < i ==> !AliasMatches(links[1..][j], alias);
          assert forall j :: 0 <= j < i + 1 ==> !AliasMatches(links[j], alias) by {
            forall j | 0 <= j < i + 1 ensures !AliasMatches(links[j], alias) {
              if j > 0 { assert links[j] == links[1..][j - 1]; }
            }
          }
        }
      }
      r
  }

  /** The first match in two lists is the first match in the first list, if any, and
      otherwise the first match in the second. */
  lemma {:induction false} FirstAliasedAppend(a: seq<LinkEntity>, b: seq<LinkEntity>, alias: string)
    ensures FirstAliased(a + b, alias) == if FirstAliased(a, alias).Some? then FirstAliased(a, alias) else FirstAliased(b, alias)
  {
    if a == [] {
      assert a + b == b;
    } else {
      assert (a + b)[0] == a[0] && (a + b)[1..] == a[1..] + b;
      FirstAliasedAppend(a[1..], b, alias);
    }
  }

  /** The found link, the navigation path to it (ending in `/`), and whether its own
      navigation property is a collection. */
  datatype Found = Found(link: LinkEntity, navigation: string, child: bool)

  /** `FindLinkEntity`: a pre-order search of the link tree. Every link visited is resolved
      from its parent entity; `skipChildless` says whether a link without children is
      skipped (true) or its absent child list is searched and fails (false, as written). */
  function FindLinkEntityWith(store: MetadataStore, entityName: string, items: seq<Item>, alias: string, path: string,
                              key: NextKey, skipChildless: bool): (r: Result<Option<Found>>)
    ensures r.Ok? && r.value.Some? ==> AliasMatches(r.value.value.link, alias) && InTree(r.value.value.link, items)
    ensures r.Ok? && r.value.Some? ==> StartsWith(r.value.value.navigation, path) && Text.EndsWith(r.value.value.navigation, "/")
    ensures r == Ok(None) ==> forall l :: InTree(l, items) ==> !AliasMatches(l, alias)
    decreases TreeSize(items)
  {
    if items == [] then Ok(None)
    else if !items[0].LinkItem? then FindLinkEntityWith(store, entityName, items[1..], alias, path, key, skipChildless)
    else
      var link := items[0].link;
      var nav :- ResolveLink(store, entityName, link, key);
      var navigation := path + nav.propertyName + "/";
      assert StartsWith(navigation, path) && Text.EndsWith(navigation, "/") by {
        assert navigation[..|path|] == path;
        assert navigation[|navigation| - 1..] == "/";
      }
      if AliasMatches(link, alias) then Ok(Some(Found(link, navigation, nav.child)))
      else
        var inner :- if link.items == [] then (if skipChildless then Ok(None) else Err(NullReference("Value cannot be null. (Parameter 'source')")))
                     else FindLinkEntityWith(store, link.name, link.items, alias, navigation, key, skipChildless);
        if inner.Some? then
          assert StartsWith(inner.value.navigation, path) by {
            assert inner.value.navigation[..|path|] == inner.value.navigation[..|navigation|][..|path|];
          }
          Ok(inner)
        else FindLinkEntityWith(store, entityName, items[1..], alias, path, key, skipChildless)
  }

  /** The link `FindLinkEntityWith` finds is the first link in document order that the
      alias names, and the search finds nothing only when no link is named. */
  lemma {:induction false} FindLinkEntityFirstInPreOrder(store: MetadataStore, entityName: string, items: seq<Item>, alias: string,
                                                         path: string, key: NextKey, skipChildless: bool)
    requires FindLinkEntityWith(store, entityName, items, alias, path, key, skipChildless).Ok?
    ensures var found := FindLinkEntityWith(store, entityName, items, alias, path, key, skipChildless).value;
      (if found.Some? then Some(found.value.link) else None) == FirstAliased(PreOrder(items), alias)
    decreases TreeSize(items)
  {
    if items != [] {
      if !items[0].LinkItem? {
        FindLinkEntityFirstInPreOrder(store, entityName, items[1..], alias, path, key, skipChildless);
      } else {
        var link := items[0].link;
        assert PreOrder(items) == [link] + (PreOrder(link.items) + PreOrder(items[1..]));
        FirstAliasedAppend([link], PreOrder(link.items) + PreOrder(items[1..]), alias);
        FirstAliasedAppend(PreOrder(link.items), PreOrder(items[1..]), alias);
        if !AliasMatches(link, alias) {
          var nav := ResolveLink(store, entityName, link, key).value;
          var navigation := path + nav.propertyName + "/";
          if link.items != [] {
            FindLinkEntityFirstInPreOrder(store, link.name, link.items, alias, navigation, key, skipChildless);
          }
          if link.items == [] || FindLinkEntityWith(store, link.name, link.items, alias, navigation, key, skipChildless).value.None? {
            FindLinkEntityFirstInPreOrder(store, entityName, items[1..], alias, path, key, skipChildless);
          }
        }
      }
    }
  }

  function FindLinkEntityAsWritten(store: MetadataStore, entityName: string, items: seq<Item>, alias: string): Result<Option<Found>> {
    FindLinkEntityWith(store, entityName, items, alias, "", NextFrom, false)
  }

  /** The search the rest of the model uses. */
  function FindLinkEntity(store: MetadataStore, entityName: string, items: seq<Item>, alias: string): Result<Option<Found>> {
    FindLinkEntityWith(store, entityName, items, alias, "", NextTo, true)
  }

  /** As written, a childless link met before the one named makes the search fail: its
      absent child list is searched. */
  lemma ChildlessLinkStopsSearchAsWritten(store: MetadataStore, entityName: string, link: LinkEntity, rest: seq<Item>,
                                          alias: string)
    requires link.items == [] && !AliasMatches(link, alias) && ResolveLink(store, entityName, link, NextFrom).Ok?
    ensures FindLinkEntityAsWritten(store, entityName, [LinkItem(link)] + rest, alias)
         == Err(NullReference("Value cannot be null. (Parameter 'source')"))
  {
    assert ([LinkItem(link)] + rest)[0] == LinkItem(link);
  }

  /** The corrected search passes over a childless link that is not the one named and goes
      on with its siblings. */
  lemma ChildlessLinkSkipped(store: MetadataStore, entityName: string, link: LinkEntity, rest: seq<Item>, alias: string)
    requires link.items == [] && !AliasMatches(link, alias) && ResolveLink(store, entityName, link, NextTo).Ok?
    ensures FindLinkEntity(store, entityName, [LinkItem(link)] + rest, alias)
         == FindLinkEntityWith(store, entityName, rest, alias, "", NextTo, true)
  {
    var items := [LinkItem(link)] + rest;
    assert items[0] == LinkItem(link) && items[1..] == rest;
  }

  /** Skipping childless links changes the outcome only where the search as written fails:
      whenever the search that does not skip them gives an answer, the skipping search gives
      the same one. */
  lemma {:induction false} SkippingChildlessAgrees(store: MetadataStore, entityName: string, items: seq<Item>, alias: string,
                                                   path: string, key: NextKey)
    requires FindLinkEntityWith(store, entityName, items, alias, path, key, false).Ok?
    ensures FindLinkEntityWith(store, entityName, items, alias, path, key, true)
         == FindLinkEntityWith(store, entityName, items, alias, path, key, false)
    decreases TreeSize(items)
  {
    if items != [] {
      if !items[0].LinkItem? {
        SkippingChildlessAgrees(store, entityName, items[1..], alias, path, key);
      } else {
        var link := items[0].link;
        var nav := ResolveLink(store, entityName, link, key).value;
        var navigation := path + nav.propertyName + "/";
        if !AliasMatches(link, alias) {
          SkippingChildlessAgrees(store, link.name, link.items, alias, navigation, key);
          if FindLinkEntityWith(store, link.name, link.items, alias, navigation, key, false).value.None? {
            SkippingChildlessAgrees(store, entityName, items[1..], alias, path, key);
          }
        }
      }
    }
  }
}
