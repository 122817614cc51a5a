/** The names the reverse translator reads off the service model: the entity a query is
    about, the primary key of an entity type, and the logical name behind a lookup's
    `_<name>_value` property. */
module ReverseNames {
  import opened Wrappers
  import opened Text
  import opened FetchXml
  import opened Metadata
  import opened ConditionTranslation
  import opened ODataTree

  /** `SanitizeLookupProperty(name)`: drops one leading `_` and then one trailing `_value`. */
  function SanitizeLookupProperty(name: string): (r: string)
    ensures |name| - 7 <= |r| <= |name|
  {
    var trimmed := if StartsWith(name, "_") then name[1..] else name;
    if Text.EndsWith(trimmed, "_value") then trimmed[..|trimmed| - 6] else trimmed
  }

  /** Sanitizing undoes the property name the forward translator gives a lookup. */
  lemma SanitizeInvertsLookupName(attr: AttributeMetadata)
    requires attr.isLookup
    ensures SanitizeLookupProperty(GetPropertyName(attr)) == attr.logicalName
  {
    var n := attr.logicalName;
    var p := "_" + n + "_value";
    assert StartsWith(p, "_");
    assert p[1..] == n + "_value";
    assert (n + "_value")[|n + "_value"| - 6..] == "_value";
    assert (n + "_value")[..|n|] == n;
  }

  /** A name with neither the lookup prefix nor the lookup suffix is left alone, so the
      forward translator's name for such a plain attribute also comes back unchanged. */
  lemma SanitizeKeepsPlainName(attr: AttributeMetadata)
    requires !attr.isLookup
    requires !StartsWith(attr.logicalName, "_") && !Text.EndsWith(attr.logicalName, "_value")
    ensures SanitizeLookupProperty(GetPropertyName(attr)) == attr.logicalName
  {
  }

  /** The entity type declares exactly one key property, a structural one. */
  predicate HasSingleKey(t: EdmEntityType) {
    t.declaredKey.Some? && |t.declaredKey.value| == 1 && t.declaredKey.value[0].StructuralKey?
  }

  /** `GetPrimaryKey(entityType)`: the name of the single structural key property; a type
      without a declared key fails in `Count()`, and a key of any other size or kind is
      refused. */
  function GetPrimaryKey(t: EdmEntityType): (r: Result<string>)
    ensures r.Ok? <==> HasSingleKey(t)
    ensures r.Ok? ==> t.declaredKey == Some([StructuralKey(r.value)])
    ensures t.declaredKey.Some? && |t.declaredKey.value| != 1 ==> r == Err(Format("Unhandled compound key"))
  {
    match t.declaredKey
    case None => Err(NullReference("Value cannot be null. (Parameter 'source')"))
    case Some(keys) =>
      if |keys| != 1 then Err(Format("Unhandled compound key"))
      else if !keys[0].StructuralKey? then Err(Format("Unhandled key property type"))
      else
        assert keys == [keys[0]];
        Ok(keys[0].name)
  }

  /** `ParseEntity(parser)`: the resource path must be exactly one entity-set segment over a
      collection of a named element type, which names the entity. */
  function ParseEntity(path: seq<PathSegment>): (r: Result<Entity>)
    ensures r.Ok? <==> |path| == 1 && path[0].EntitySetSegment? && path[0].edmType.NamedCollection?
    ensures r.Ok? ==> r.value == Entity(path[0].edmType.elementName, [])
    ensures |path| != 1 ==> r == Err(Format("Unhandled multiple path segments"))
  {
    if |path| != 1 then Err(Format("Unhandled multiple path segments"))
    else if !path[0].EntitySetSegment? then Err(Format("Unhandled path segment type"))
    else
      match path[0].edmType
      case NamedCollection(name) => Ok(Entity(name, []))
      case UnnamedCollection => Err(Format("Unhandled entity set element type"))
      case OtherSetType => Err(Format("Unhandled entity set type"))
  }

  /** `Single(set => set.EntityType().Name == name)` over the entity sets of the model. */
  function SingleSetNamed(sets: seq<EntitySet>, name: string): (r: Result<EntitySet>)
    ensures r.Ok? ==> r.value in sets && r.value.entityType.name == name
    ensures r.Ok? <==> |SetsNamed(sets, name)| == 1
  {
    var found := SetsNamed(sets, name);
    if |found| == 0 then Err(InvalidOperation("Sequence contains no matching element"))
    else if |found| > 1 then Err(InvalidOperation("Sequence contains more than one matching element"))
    else assert found[0] in found; Ok(found[0])
  }

  /** The entity sets whose entity type has the given name, in model order. */
  function SetsNamed(sets: seq<EntitySet>, name: string): (r: seq<EntitySet>)
    ensures forall s :: s in r <==> s in sets && s.entityType.name == name
  {
    if sets == [] then []
    else (if sets[0].entityType.name == name then [sets[0]] else []) + SetsNamed(sets[1..], name)
  }
}
