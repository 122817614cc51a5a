/** The Web API query the forward translator builds and renders: filter groups, sort keys,
    expanded links and the root entity query with its system query options `$select`,
    `$expand`, `$filter`, `$orderby`, `$top` (section 5.1 of OData Version 4.01 Part 2: URL
    Conventions) and `$apply` (section 3 of the OData Extension for Data Aggregation 4.0). */
module ODataQuery {
  import opened Wrappers
  import opened Text

  /** A group of conditions and nested groups joined by `and` or `or`. */
  datatype FilterOData = FilterOData(isAnd: bool, conditions: seq<string>, filters: seq<FilterOData>) {
    /** The rendered group, or `None` (a null string) when the group has no members. */
    function ToString(): (r: Option<string>)
      ensures r.None? <==> conditions == [] && filters == []
      ensures r.Some? ==> |r.value| >= 2 && r.value[0] == '(' && r.value[|r.value| - 1] == ')'
      decreases this, 1
    {
      if conditions == [] && filters == [] then None
      else
        var items := NonEmpty(conditions) + RenderedGroups(filters);
        Some("(" + Join(Operator(isAnd), items) + ")")
    }
  }

  /** The word that joins the members of a group. */
  function Operator(isAnd: bool): string {
    if isAnd then " and " else " or "
  }

  /** The members that render to a non-empty string, as `Where(c => !String.IsNullOrEmpty(c))` keeps them. */
  function NonEmpty(texts: seq<string>): (r: seq<string>)
    ensures forall t :: t in r <==> t in texts && t != ""
    ensures |r| <= |texts|
  {
    if texts == [] then []
    else (if texts[0] != "" then [texts[0]] else []) + NonEmpty(texts[1..])
  }

  /** The renderings of the nested groups that are not null or empty. */
  function RenderedGroups(filters: seq<FilterOData>): (r: seq<string>)
    ensures |r| <= |filters|
    ensures forall t :: t in r ==> t != ""
    decreases filters, 0
  {
    if filters == [] then []
    else
      var head := filters[0].ToString();
      (if head.Some? then [head.value] else []) + RenderedGroups(filters[1..])
  }

  /** `String.Join` over objects renders a null string as nothing. */
  function GroupText(f: FilterOData): string {
    f.ToString().GetOr("")
  }

  function GroupTexts(filters: seq<FilterOData>): (r: seq<string>)
    ensures |r| == |filters| && forall i :: 0 <= i < |filters| ==> r[i] == GroupText(filters[i])
  {
    if filters == [] then [] else [GroupText(filters[0])] + GroupTexts(filters[1..])
  }

  /** A sort key: property name and direction. */
  datatype OrderOData = OrderOData(propertyName: string, descending: bool) {
    function ToString(): string {
      propertyName + (if descending then " desc" else " asc")
    }
  }

  function OrderTexts(orders: seq<OrderOData>): (r: seq<string>)
    ensures |r| == |orders| && forall i :: 0 <= i < |orders| ==> r[i] == orders[i].ToString()
  {
    if orders == [] then [] else [orders[0].ToString()] + OrderTexts(orders[1..])
  }

  /** An expanded navigation property with its own nested options, separated by `;`. */
  datatype LinkEntityOData = LinkEntityOData(propertyName: string, select: seq<string>,
                                             expand: seq<LinkEntityOData>, filter: seq<FilterOData>) {
    function Parts(): seq<string>
      decreases this, 1
    {
      BaseParts(select, expand, filter)
    }

    function ToString(): string
      decreases this, 2
    {
      Join(";", Parts())
    }
  }

  /** The option names, in the order the renderer emits them. */
  const OptionNames: seq<string> := ["$select=", "$expand=", "$filter=", "$orderby=", "$top=", "$apply="]

  /** The query option `k` with its value, or nothing when the option is not present. */
  function OptionPart(k: nat, present: bool, value: string): seq<string>
    requires k < |OptionNames|
  {
    if present then [OptionNames[k] + value] else []
  }

  /** `$select`, `$expand` and `$filter`, each only when its list is not empty. */
  function BaseParts(select: seq<string>, expand: seq<LinkEntityOData>, filter: seq<FilterOData>): (r: seq<string>)
    decreases expand, 1
  {
    OptionPart(0, select != [], Join(",", select))
    + OptionPart(1, expand != [], Join(",", ExpandTexts(expand)))
    + OptionPart(2, filter != [], Join(" and ", GroupTexts(filter)))
  }

  function ExpandTexts(expand: seq<LinkEntityOData>): (r: seq<string>)
    ensures |r| == |expand|
    // each expanded link is its property name with its own options in parentheses
    ensures forall i :: 0 <= i < |expand| ==> r[i] == expand[i].propertyName + "(" + expand[i].ToString() + ")"
    decreases expand, 0
  {
    if expand == [] then []
    else [expand[0].propertyName + "(" + expand[0].ToString() + ")"] + ExpandTexts(expand[1..])
  }

  /** The root query: the collection and every system query option. */
  datatype EntityQuery = EntityQuery(propertyName: string, select: seq<string>, expand: seq<LinkEntityOData>,
                                     filter: seq<FilterOData>, top: Option<int>, orderBy: seq<OrderOData>,
                                     groups: seq<string>, aggregates: seq<string>) {
    /** The `$apply` transformation that replaces every other option when there are aggregates. */
    function Apply(): string {
      var aggregate := "aggregate(" + Join(",", aggregates) + ")";
      var grouped := if groups != [] then "groupby((" + Join(",", groups) + ")," + aggregate + ")" else aggregate;
      if filter != [] then "filter(" + Join(" and ", GroupTexts(filter)) + ")/" + grouped else grouped
    }

    function Parts(): seq<string> {
      if aggregates != [] then OptionPart(5, true, Apply())
      else
        BaseParts(select, expand, filter)
        + OptionPart(3, orderBy != [], Join(",", OrderTexts(orderBy)))
        + OptionPart(4, top.Some?, if top.Some? then IntToString(top.value) else "")
    }

    function ToString(): string {
      var query := Join("&", Parts());
      "/" + propertyName + (if query == "" then "" else "?" + query)
    }
  }

  /** The root query as the translator fills it in, one list at a time. */
  class EntityOData {
    var propertyName: string
    var select: seq<string>
    var expand: seq<LinkEntityOData>
    var filter: seq<FilterOData>
    var top: Option<int>
    var orderBy: seq<OrderOData>
    var groups: seq<string>
    var aggregates: seq<string>

    /** The query the object currently holds. */
    function Query(): EntityQuery
      reads this
    {
      EntityQuery(propertyName, select, expand, filter, top, orderBy, groups, aggregates)
    }

    function ToString(): string
      reads this
    {
      Query().ToString()
    }

    constructor ()
      ensures Query() == EntityQuery("", [], [], [], None, [], [], [])
    {
      propertyName := "";
      select, expand, filter := [], [], [];
      top := None;
      orderBy, groups, aggregates := [], [], [];
    }
  }

  // ---- properties of the rendering ----

  /** Conditions that all render to something are all kept. */
  lemma {:induction false} NonEmptyKeepsAll(texts: seq<string>)
    requires forall i :: 0 <= i < |texts| ==> texts[i] != ""
    ensures NonEmpty(texts) == texts
  {
    if texts != [] {
      NonEmptyKeepsAll(texts[1..]);
      assert [texts[0]] + texts[1..] == texts;
    }
  }

  /** A group of conditions only is those conditions, in order, joined by `and` or `or`
      and put in parentheses. */
  lemma ConditionsJoined(isAnd: bool, conditions: seq<string>)
    requires conditions != [] && forall i :: 0 <= i < |conditions| ==> conditions[i] != ""
    ensures FilterOData(isAnd, conditions, []).ToString() == Some("(" + Join(Operator(isAnd), conditions) + ")")
  {
    NonEmptyKeepsAll(conditions);
    assert NonEmpty(conditions) + RenderedGroups([]) == conditions;
  }

  /** Two conditions render as `(<a> and <b>)` or `(<a> or <b>)`. */
  lemma TwoConditionsJoined(isAnd: bool, a: string, b: string)
    requires a != "" && b != ""
    ensures FilterOData(isAnd, [a, b], []).ToString() == Some("(" + a + Operator(isAnd) + b + ")")
  {
    var op := Operator(isAnd);
    var f := FilterOData(isAnd, [a, b], []);
    assert f.ToString() == Some("(" + Join(op, NonEmpty([a, b]) + RenderedGroups([])) + ")");
    NonEmptyKeepsAll([a, b]);
    assert NonEmpty([a, b]) + RenderedGroups([]) == [a] + [b];
    JoinAppend(op, [a], [b]);
    JoinSingle(op, a);
    JoinSingle(op, b);
    var joined := Join(op, [a] + [b]);
    assert joined == a + op + b;
    assert "(" + joined + ")" == "(" + a + op + b + ")";
  }

  lemma JoinSingle(sep: string, a: string)
    ensures Join(sep, [a]) == a
  {
  }

  /** The conditions come before the nested groups, and a nested group keeps its own
      parentheses: `(<condition> and (<nested>))`. */
  lemma ConditionThenGroup(isAnd: bool, condition: string, nested: FilterOData)
    requires condition != "" && nested.ToString().Some?
    ensures FilterOData(isAnd, [condition], [nested]).ToString()
            == Some("(" + condition + Operator(isAnd) + nested.ToString().value + ")")
  {
    var op := Operator(isAnd);
    var g := nested.ToString().value;
    var f := FilterOData(isAnd, [condition], [nested]);
    assert f.ToString() == Some("(" + Join(op, NonEmpty([condition]) + RenderedGroups([nested])) + ")");
    assert NonEmpty([condition]) == [condition] by {
      assert [condition][1..] == [];
    }
    assert RenderedGroups([nested]) == [g] by {
      assert [nested][1..] == [];
    }
    JoinAppend(op, [condition], [g]);
    JoinSingle(op, condition);
    JoinSingle(op, g);
    var joined := Join(op, [condition] + [g]);
    assert joined == condition + op + g;
    assert "(" + joined + ")" == "(" + condition + op + g + ")";
  }

  /** Empty conditions are dropped: a group whose only condition is empty renders as `()`. */
  lemma EmptyConditionDropped(isAnd: bool)
    ensures FilterOData(isAnd, [""], []).ToString() == Some("()")
  {
    assert NonEmpty([""]) == [] by {
      assert [""][1..] == [];
    }
    var f := FilterOData(isAnd, [""], []);
    assert f.ToString() == Some("(" + Join(Operator(isAnd), NonEmpty([""]) + RenderedGroups([])) + ")");
    assert NonEmpty([""]) + RenderedGroups([]) == [];
    assert Join(Operator(isAnd), []) == "";
    assert "(" + "" + ")" == "()";
  }

  /** One expanded link is its property name with its own options in parentheses. */
  lemma ExpandedOne(e: LinkEntityOData)
    ensures ExpandTexts([e]) == [e.propertyName + "(" + e.ToString() + ")"]
  {
    assert [e][1..] == [];
  }

  /** An expanded link with a `$select` and a `$filter` but no nested `$expand` renders as
      `<property>($select=<columns>;$filter=<groups>)`: its options are separated by `;`. */
  lemma ExpandedSelectAndFilter(e: LinkEntityOData)
    requires e.select != [] && e.expand == [] && e.filter != []
    ensures ExpandTexts([e]) == [e.propertyName + "($select=" + Join(",", e.select) + ";$filter=" + Join(" and ", GroupTexts(e.filter)) + ")"]
  {
    var columns := Join(",", e.select);
    var groups := Join(" and ", GroupTexts(e.filter));
    var select := "$select=" + columns;
    var filter := "$filter=" + groups;
    assert OptionPart(0, true, columns) == [select];
    assert OptionPart(2, true, groups) == [filter];
    assert e.Parts() == OptionPart(0, true, columns) + OptionPart(1, false, Join(",", ExpandTexts([]))) + OptionPart(2, true, groups);
    assert [select] + [] + [filter] == [select] + [filter];
    JoinAppend(";", [select], [filter]);
    JoinSingle(";", select);
    JoinSingle(";", filter);
    assert e.ToString() == select + ";" + filter;
    ExpandedOne(e);
    assert e.propertyName + "(" + (select + ";" + filter) + ")"
        == e.propertyName + "($select=" + columns + ";$filter=" + groups + ")";
  }

  /** An expanded link with nothing of its own renders as `<property>()`. */
  lemma ExpandedBare(e: LinkEntityOData)
    requires e.select == [] && e.expand == [] && e.filter == []
    ensures ExpandTexts([e]) == [e.propertyName + "()"]
  {
    assert e.Parts() == [];
    assert e.ToString() == "";
    ExpandedOne(e);
    assert e.propertyName + "(" + "" + ")" == e.propertyName + "()";
  }


  /** The position in `OptionNames` of the option a part sets, or -1. */
  function OptionOf(part: string): int {
    OptionFrom(part, 0)
  }

  function OptionFrom(part: string, k: nat): (r: int)
    ensures r == -1 || k <= r < |OptionNames|
    decreases |OptionNames| - k
  {
    if k >= |OptionNames| then -1
    else if StartsWith(part, OptionNames[k]) then k
    else OptionFrom(part, k + 1)
  }

  predicate StrictlyIncreasingOptions(parts: seq<string>) {
    forall i, j :: 0 <= i < j < |parts| ==> 0 <= OptionOf(parts[i]) < OptionOf(parts[j])
  }

  /** The options the parts set. */
  function Options(parts: seq<string>): (r: set<int>)
    ensures forall i :: 0 <= i < |parts| ==> OptionOf(parts[i]) in r
  {
    if parts == [] then {} else {OptionOf(parts[0])} + Options(parts[1..])
  }

  lemma {:induction false} OptionsAppend(a: seq<string>, b: seq<string>)
    ensures Options(a + b) == Options(a) + Options(b)
  {
    if a == [] {
      assert a + b == b;
    } else {
      assert (a + b)[1..] == a[1..] + b;
      OptionsAppend(a[1..], b);
    }
  }

  lemma DifferentCharNotPrefix(s: string, prefix: string, i: nat)
    requires i < |prefix| && i < |s| && s[i] != prefix[i]
    ensures !StartsWith(s, prefix)
  {
    if |prefix| <= |s| {
      assert s[..|prefix|][i] == s[i];
    }
  }

  /** A part made of an option name and a value sets that option: the names differ in
      their second character, so no earlier name is a prefix of it. */
  lemma OptionOfNamed(k: nat, value: string)
    requires k < |OptionNames|
    ensures OptionOf(OptionNames[k] + value) == k
  {
    var p := OptionNames[k] + value;
    StartsWithConcat(OptionNames[k], value);
    OptionFromSkips(p, 0, k);
  }

  lemma {:induction false} OptionFromSkips(p: string, j: nat, k: nat)
    requires j <= k < |OptionNames| && StartsWith(p, OptionNames[k]) && |p| >= 2 && p[1] == OptionNames[k][1]
    ensures OptionFrom(p, j) == k
    decreases k - j
  {
    if j < k {
      DifferentCharNotPrefix(p, OptionNames[j], 1);
      OptionFromSkips(p, j + 1, k);
    }
  }

  /** An option part sets its option, or nothing when it is absent. */
  lemma OptionPartSets(k: nat, present: bool, value: string)
    requires k < |OptionNames|
    ensures |OptionPart(k, present, value)| <= 1
    ensures Options(OptionPart(k, present, value)) == if present then {k} else {}
  {
    if present {
      OptionOfNamed(k, value);
    }
  }

  /** Parts whose options all precede those of a single later part stay strictly increasing. */
  lemma AppendLaterPart(parts: seq<string>, last: seq<string>, k: int)
    requires StrictlyIncreasingOptions(parts)
    requires forall x :: x in Options(parts) ==> 0 <= x < k
    requires |last| <= 1 && Options(last) <= {k}
    ensures StrictlyIncreasingOptions(parts + last)
    ensures Options(parts + last) == Options(parts) + Options(last)
  {
    OptionsAppend(parts, last);
    var r := parts + last;
    forall i, j | 0 <= i < j < |r| ensures 0 <= OptionOf(r[i]) < OptionOf(r[j]) {
      assert r[i] == parts[i];
      if j < |parts| {
        assert r[j] == parts[j];
      } else {
        assert r[j] == last[0];
      }
    }
  }

  /** Five single-option parts for options 0 to 4, concatenated in order. */
  lemma FiveParts(p0: seq<string>, p1: seq<string>, p2: seq<string>, p3: seq<string>, p4: seq<string>)
    requires |p0| <= 1 && Options(p0) <= {0}
    requires |p1| <= 1 && Options(p1) <= {1}
    requires |p2| <= 1 && Options(p2) <= {2}
    requires |p3| <= 1 && Options(p3) <= {3}
    requires |p4| <= 1 && Options(p4) <= {4}
    ensures StrictlyIncreasingOptions(p0 + p1 + p2 + p3 + p4)
    ensures Options(p0 + p1 + p2 + p3 + p4) == Options(p0) + Options(p1) + Options(p2) + Options(p3) + Options(p4)
  {
    assert StrictlyIncreasingOptions(p0) by {
      if |p0| == 1 { assert p0[0] in p0; }
    }
    AppendLaterPart(p0, p1, 1);
    AppendLaterPart(p0 + p1, p2, 2);
    AppendLaterPart(p0 + p1 + p2, p3, 3);
    AppendLaterPart(p0 + p1 + p2 + p3, p4, 4);
  }

  /** Every option appears at most once, in the fixed order `$select`, `$expand`, `$filter`,
      `$orderby`, `$top`; each appears exactly when the query has something for it, and an
      aggregate query has the single option `$apply`. */
  lemma PartsInCanonicalOrder(q: EntityQuery)
    ensures StrictlyIncreasingOptions(q.Parts())
    ensures q.aggregates != [] ==> |q.Parts()| == 1 && OptionOf(q.Parts()[0]) == 5
    ensures q.aggregates == [] ==>
      Options(q.Parts()) == (if q.select != [] then {0} else {}) + (if q.expand != [] then {1} else {})
                            + (if q.filter != [] then {2} else {}) + (if q.orderBy != [] then {3} else {})
                            + (if q.top.Some? then {4} else {})
  {
    if q.aggregates != [] {
      OptionOfNamed(5, q.Apply());
    } else {
      var top := if q.top.Some? then IntToString(q.top.value) else "";
      OptionPartSets(0, q.select != [], Join(",", q.select));
      OptionPartSets(1, q.expand != [], Join(",", ExpandTexts(q.expand)));
      OptionPartSets(2, q.filter != [], Join(" and ", GroupTexts(q.filter)));
      OptionPartSets(3, q.orderBy != [], Join(",", OrderTexts(q.orderBy)));
      OptionPartSets(4, q.top.Some?, top);
      FiveParts(OptionPart(0, q.select != [], Join(",", q.select)),
                OptionPart(1, q.expand != [], Join(",", ExpandTexts(q.expand))),
                OptionPart(2, q.filter != [], Join(" and ", GroupTexts(q.filter))),
                OptionPart(3, q.orderBy != [], Join(",", OrderTexts(q.orderBy))),
                OptionPart(4, q.top.Some?, top));
    }
  }

  /** Every part is non-empty (it starts with its option name). */
  lemma PartsNonEmpty(q: EntityQuery)
    ensures forall i :: 0 <= i < |q.Parts()| ==> q.Parts()[i] != ""
  {
    PartsInCanonicalOrder(q);
    var parts := q.Parts();
    forall i | 0 <= i < |parts| ensures parts[i] != "" {
      assert OptionOf(parts[i]) in Options(parts);
      NothingStartsEmpty(0);
    }
  }

  lemma {:induction false} NothingStartsEmpty(k: nat)
    ensures OptionFrom("", k) == -1
    decreases |OptionNames| - k
  {
    if k < |OptionNames| {
      NothingStartsEmpty(k + 1);
    }
  }

  /** The URL carries a `?` exactly when some option is present. */
  lemma QueryMarkIffOptions(q: EntityQuery)
    ensures q.ToString() == "/" + q.propertyName <==> q.Parts() == []
    ensures q.Parts() != [] ==> q.ToString() == "/" + q.propertyName + "?" + Join("&", q.Parts())
  {
    PartsNonEmpty(q);
    JoinEmptyIff("&", q.Parts());
    if q.Parts() != [] {
      assert q.Parts()[0] != "";
      var query := Join("&", q.Parts());
      assert |q.ToString()| == |"/" + q.propertyName| + 1 + |query|;
    }
  }
}
