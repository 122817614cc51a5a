/** `$select` and `$expand` back to FetchXML: each selected property becomes an
    `<attribute>`, each expanded navigation property an outer `<link-entity>` holding the
    items of its own nested clause. */
module ReverseSelect {
  import opened Wrappers
  import opened FetchXml
  import opened ODataTree
  import opened RankOrder
  import opened ReverseNames

  /** The three attributes of the `<link-entity>` an expansion becomes. */
  datatype JoinKeys = JoinKeys(name: string, from: string, to: string)

  /** `Partner.DependentProperties().Single()`: the one dependent property of the partner's
      referential constraint. */
  function SingleDependent(partner: Option<Partner>): (r: Result<string>)
    ensures r.Ok? <==> partner.Some? && partner.value.dependentProperties.Some?
                       && |partner.value.dependentProperties.value| == 1
    ensures r.Ok? ==> partner == Some(Partner(Some([r.value])))
  {
    match partner
    case None => Err(NullReference("Value cannot be null. (Parameter 'navigationProperty')"))
    case Some(p) =>
      match p.dependentProperties
      case None => Err(NullReference("Value cannot be null. (Parameter 'source')"))
      case Some(ds) =>
        if |ds| == 0 then Err(InvalidOperation("Sequence contains no elements"))
        else if |ds| > 1 then Err(InvalidOperation("Sequence contains more than one element"))
        else assert ds == [ds[0]]; Ok(ds[0])
  }

  /** The name, `from` and `to` of the link for a navigation property. A collection-valued
      one joins the lookup its partner is constrained by to the declaring entity's key; a
      single-valued one joins the target's key to the navigation property itself. */
  function LinkKeys(identifier: string, target: NavigationTarget, declaringType: EdmEntityType,
                    partner: Option<Partner>): (r: Result<JoinKeys>)
    ensures target.OtherTarget? ==> r == Err(Format("Unhandled navigation property target type"))
    ensures r.Ok? && target.SingleEntity? ==>
              r.value.name == target.entityType.name && r.value.to == identifier
              && GetPrimaryKey(target.entityType) == Ok(r.value.from)
    ensures r.Ok? && target.EntityCollection? ==>
              target.element.Some? && r.value.name == target.element.value.name
              && SingleDependent(partner).Ok? && r.value.from == SanitizeLookupProperty(SingleDependent(partner).value)
              && GetPrimaryKey(declaringType) == Ok(r.value.to)
  {
    match target
    case EntityCollection(element) =>
      if element.None? then Err(Format("Unhandled expand element type"))
      else
        var dependent :- SingleDependent(partner);
        var to :- GetPrimaryKey(declaringType);
        Ok(JoinKeys(element.value.name, SanitizeLookupProperty(dependent), to))
    case SingleEntity(entityType) =>
      var from :- GetPrimaryKey(entityType);
      Ok(JoinKeys(entityType.name, from, identifier))
    case OtherTarget => Err(Format("Unhandled navigation property target type"))
  }

  /** The FetchXML item one selected item becomes. */
  function SelectedItem(item: SelectItem): (r: Result<Item>)
    ensures r.Ok? ==> r.value.AttributeItem? || r.value.LinkItem?
    // a selected property becomes an attribute of that name, with no alias, grouping or aggregate
    ensures item.PathSelect? && |item.selectedPath| == 1 ==>
      r == Ok(AttributeItem(Attribute(Some(item.selectedPath[0]), "", None, None)))
    // an expanded property becomes an outer link joined on the keys of its navigation property
    ensures r.Ok? && item.ExpandedNavigation? ==>
      |item.path| == 1 && item.path[0].NavigationPropertySegment? &&
      var segment := item.path[0];
      var keys := LinkKeys(segment.identifier, segment.target, segment.declaringType, segment.partner);
      keys.Ok? && r.value.LinkItem? && r.value.link.name == keys.value.name
      && r.value.link.from == keys.value.from && r.value.link.to == keys.value.to
      && r.value.link.linkType == "outer" && r.value.link.alias == ""
    // its children are the nested selection, ordered by rank; a nested error is the expansion's
    ensures item.ExpandedNavigation? ==>
      (r.Ok? <==> |item.path| == 1 && item.path[0].NavigationPropertySegment?
                  && LinkKeys(item.path[0].identifier, item.path[0].target, item.path[0].declaringType, item.path[0].partner).Ok?
                  && SelectedItems(item.nested).Ok?)
    ensures item.ExpandedNavigation? && r.Ok? ==> r.value.link.items == OrderByRank(SelectedItems(item.nested).value)
    ensures (item.ExpandedNavigation? && |item.path| == 1 && item.path[0].NavigationPropertySegment?
             && LinkKeys(item.path[0].identifier, item.path[0].target, item.path[0].declaringType, item.path[0].partner).Ok?
             && SelectedItems(item.nested).Err?)
            ==> r == Err(SelectedItems(item.nested).error)
    decreases item, 0
  {
    match item
    case ExpandedNavigation(path, nested) =>
      if |path| != 1 then Err(Format("Unhandled multiple expand segments"))
      else if !path[0].NavigationPropertySegment? then Err(Format("Unhandled navigation property type"))
      else
        var segment := path[0];
        var keys :- LinkKeys(segment.identifier, segment.target, segment.declaringType, segment.partner);
        var children :- SelectedItems(nested);
        Ok(LinkItem(LinkEntity(keys.name, keys.from, keys.to, "", "outer", OrderByRank(children))))
    case PathSelect(selectedPath) =>
      if |selectedPath| != 1 then Err(Format("Unhandled multiple select segments"))
      else Ok(AttributeItem(Attribute(Some(selectedPath[0]), "", None, None)))
    case OtherSelectItem => Err(Format("Unhandled select type"))
  }

  /** The items of a list of selected items, one each and in order; the first item that
      cannot be translated decides the error. */
  function SelectedItemList(items: seq<SelectItem>): (r: Result<seq<Item>>)
    ensures r.Ok? <==> forall k :: 0 <= k < |items| ==> SelectedItem(items[k]).Ok?
    ensures r.Ok? ==> |r.value| == |items|
                      && forall k :: 0 <= k < |items| ==> r.value[k] == SelectedItem(items[k]).value
    decreases items, 1
  {
    if items == [] then Ok([])
    else
      var first :- SelectedItem(items[0]);
      var rest :- SelectedItemList(items[1..]);
      Ok([first] + rest)
  }

  /** `ParseSelect(select)`: nothing for an absent clause; otherwise `<all-attributes>` when
      every property is selected, followed by the selected items. */
  function SelectedItems(select: Option<SelectExpand>): (r: Result<seq<Item>>)
    ensures select.None? ==> r == Ok([])
    ensures select.Some? ==>
              var clause := select.value;
              var offset := if clause.allSelected then 1 else 0;
              && (r.Ok? <==> forall k :: 0 <= k < |clause.items| ==> SelectedItem(clause.items[k]).Ok?)
              && (r.Ok? ==> |r.value| == offset + |clause.items|
                            && (clause.allSelected ==> r.value[0] == AllAttributes)
                            && forall k :: 0 <= k < |clause.items| ==> r.value[offset + k] == SelectedItem(clause.items[k]).value)
    decreases select, 2
  {
    match select
    case None => Ok([])
    case Some(clause) =>
      var items :- SelectedItemList(clause.items);
      Ok((if clause.allSelected then [AllAttributes] else []) + items)
  }

  /** `done` in front of the items of `r`, or the error of `r`. */
  function Prepended(done: seq<Item>, r: Result<seq<Item>>): Result<seq<Item>> {
    match r
    case Ok(items) => Ok(done + items)
    case Err(e) => Err(e)
  }

  lemma PrependedStep(done: seq<Item>, x: Item, rest: seq<SelectItem>)
    requires rest != [] && SelectedItem(rest[0]) == Ok(x)
    ensures Prepended(done, SelectedItemList(rest)) == Prepended(done + [x], SelectedItemList(rest[1..]))
  {
    var tail := SelectedItemList(rest[1..]);
    if tail.Ok? {
      assert done + ([x] + tail.value) == (done + [x]) + tail.value;
    }
  }

  /** `ParseSelect(select)`: builds the list of items one selected item at a time. */
  method ParseSelect(select: Option<SelectExpand>) returns (r: Result<seq<Item>>)
    ensures r == SelectedItems(select)
    decreases select, 2
  {
    var items: seq<Item> := [];
    if select.None? {
      return Ok(items);
    }
    var clause := select.value;
    if clause.allSelected {
      items := items + [AllAttributes];
    }
    var i := 0;
    assert items == (if clause.allSelected then [AllAttributes] else []);
    assert clause.items[i..] == clause.items;
    assert SelectedItems(select) == Prepended(items, SelectedItemList(clause.items));
    while i < |clause.items|
      invariant 0 <= i <= |clause.items|
      invariant SelectedItems(select) == Prepended(items, SelectedItemList(clause.items[i..]))
    {
      var rest := clause.items[i..];
      assert rest[0] == clause.items[i] && rest[1..] == clause.items[i + 1..];
      var item := ParseSelectedItem(clause.items[i]);
      if item.Err? {
        return Err(item.error);
      }
      PrependedStep(items, item.value, rest);
      items := items + [item.value];
      i := i + 1;
    }
    assert clause.items[i..] == [];
    assert items + [] == items;
    return Ok(items);
  }

  /** One turn of the loop in `ParseSelect`: the item a selected item becomes, with the
      nested clause of an expansion translated by `ParseSelect` and ordered by rank. */
  method ParseSelectedItem(item: SelectItem) returns (r: Result<Item>)
    ensures r == SelectedItem(item)
    decreases item, 0
  {
    match item
    case ExpandedNavigation(path, nested) =>
      if |path| != 1 {
        return Err(Format("Unhandled multiple expand segments"));
      }
      if !path[0].NavigationPropertySegment? {
        return Err(Format("Unhandled navigation property type"));
      }
      var segment := path[0];
      var keys := LinkKeys(segment.identifier, segment.target, segment.declaringType, segment.partner);
      if keys.Err? {
        return Err(keys.error);
      }
      var children := ParseSelect(nested);
      if children.Err? {
        return Err(children.error);
      }
      var link := LinkEntity(keys.value.name, keys.value.from, keys.value.to, "", "outer", OrderByRank(children.value));
      return Ok(LinkItem(link));
    case PathSelect(selectedPath) =>
      if |selectedPath| != 1 {
        return Err(Format("Unhandled multiple select segments"));
      }
      return Ok(AttributeItem(Attribute(Some(selectedPath[0]), "", None, None)));
    case OtherSelectItem =>
      return Err(Format("Unhandled select type"));
  }

  /** An item that is a link is an outer join whose children are in rank order and
      satisfy the same, at every depth. */
  predicate OuterLink(item: Item)
    decreases item
  {
    item.LinkItem? ==>
      item.link.linkType == "outer" && SortedByRank(item.link.items)
      && forall i :: 0 <= i < |item.link.items| ==> OuterLink(item.link.items[i])
  }

  predicate OuterLinks(items: seq<Item>) {
    forall i :: 0 <= i < |items| ==> OuterLink(items[i])
  }

  /** Every expansion, at every depth, becomes an outer link with its items in rank order. */
  lemma {:induction false} SelectedItemsAreOuterLinks(select: Option<SelectExpand>)
    ensures SelectedItems(select).Ok? ==> OuterLinks(SelectedItems(select).value)
    decreases select, 2
  {
    if select.Some? && SelectedItems(select).Ok? {
      var clause := select.value;
      var prefix: seq<Item> := if clause.allSelected then [AllAttributes] else [];
      var listed := SelectedItemList(clause.items).value;
      assert SelectedItems(select).value == prefix + listed;
      SelectedListIsOuterLinks(clause.items);
      assert OuterLinks(prefix) by {
        if prefix != [] {
          assert prefix[0] == AllAttributes;
        }
      }
      OuterLinksConcat(prefix, listed);
    }
  }

  lemma {:induction false} SelectedListIsOuterLinks(items: seq<SelectItem>)
    ensures SelectedItemList(items).Ok? ==> OuterLinks(SelectedItemList(items).value)
    decreases items, 1
  {
    if items != [] && SelectedItemList(items).Ok? {
      var first := SelectedItem(items[0]).value;
      var rest := SelectedItemList(items[1..]).value;
      assert SelectedItemList(items).value == [first] + rest;
      SelectedItemIsOuterLink(items[0]);
      SelectedListIsOuterLinks(items[1..]);
      OuterLinksConcat([first], rest);
    }
  }

  lemma OuterLinksConcat(a: seq<Item>, b: seq<Item>)
    requires OuterLinks(a) && OuterLinks(b)
    ensures OuterLinks(a + b)
  {
    forall i | 0 <= i < |a + b|
      ensures OuterLink((a + b)[i])
    {
      if i >= |a| {
        assert (a + b)[i] == b[i - |a|];
      }
    }
  }

  lemma {:induction false} SelectedItemIsOuterLink(item: SelectItem)
    ensures SelectedItem(item).Ok? ==> OuterLink(SelectedItem(item).value)
    decreases item, 0
  {
    if SelectedItem(item).Ok? && item.ExpandedNavigation? {
      var children := SelectedItems(item.nested).value;
      SelectedItemsAreOuterLinks(item.nested);
      OrderByRankSorted(children);
      OuterLinksPermuted(children, OrderByRank(children));
    }
  }

  /** Reordering items keeps every link they hold. */
  lemma OuterLinksPermuted(s: seq<Item>, t: seq<Item>)
    requires multiset(s) == multiset(t)
    requires OuterLinks(s)
    ensures OuterLinks(t)
  {
    forall j | 0 <= j < |t|
      ensures OuterLink(t[j])
    {
      assert t[j] in multiset(s);
      var i :| 0 <= i < |s| && s[i] == t[j];
    }
  }
}
