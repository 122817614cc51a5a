/** The order in which the reverse translator lists the children of an entity or link:
    a stable sort by the rank of each child's element type. */
module RankOrder {
  import opened FetchXml

  /** The rank of a child: all-attributes, attribute, link-entity, filter, condition, order,
      and last every other kind of element. */
  function Rank(item: Item): (r: nat)
    ensures r <= 6
    ensures r == 6 <==> item.EntityItem?
  {
    match item
    case AllAttributes => 0
    case AttributeItem(_) => 1
    case LinkItem(_) => 2
    case FilterItem(_) => 3
    case ConditionItem(_) => 4
    case OrderItem(_) => 5
    case EntityItem(_) => 6
  }

  /** Items appear in non-decreasing rank. */
  predicate SortedByRank(s: seq<Item>) {
    forall i, j :: 0 <= i < j < |s| ==> Rank(s[i]) <= Rank(s[j])
  }

  /** The items of rank `k`, in their original order. */
  function WithRank(s: seq<Item>, k: nat): (r: seq<Item>)
    ensures |r| <= |s|
  {
    if s == [] then [] else (if Rank(s[0]) == k then [s[0]] else []) + WithRank(s[1..], k)
  }

  /** The items of rank `k` are exactly the items of `s` that have that rank. */
  lemma {:induction false} WithRankMembers(s: seq<Item>, k: nat)
    ensures forall x :: x in WithRank(s, k) <==> x in s && Rank(x) == k
  {
    if s != [] {
      WithRankMembers(s[1..], k);
      assert s == [s[0]] + s[1..];
    }
  }

  /** Places `x` in front of the first item whose rank is not below its own. */
  function InsertByRank(x: Item, s: seq<Item>): (r: seq<Item>)
    ensures |r| == |s| + 1
  {
    if s == [] || Rank(x) <= Rank(s[0]) then [x] + s
    else [s[0]] + InsertByRank(x, s[1..])
  }

  /** Inserting adds `x` and loses nothing. */
  lemma {:induction false} InsertByRankPermutes(x: Item, s: seq<Item>)
    ensures multiset(InsertByRank(x, s)) == multiset(s) + multiset{x}
  {
    if s != [] && Rank(x) > Rank(s[0]) {
      InsertByRankPermutes(x, s[1..]);
      assert s == [s[0]] + s[1..];
    }
  }

  /** `OrderBy(GetTypePreference)`: each item is inserted, from the last to the first, in
      front of the already ordered items of the same or a higher rank, so that items of
      one rank keep the order they came in. */
  function OrderByRank(s: seq<Item>): (r: seq<Item>)
    ensures multiset(r) == multiset(s)
  {
    if s == [] then []
    else
      assert s == [s[0]] + s[1..];
      InsertByRankPermutes(s[0], OrderByRank(s[1..]));
      InsertByRank(s[0], OrderByRank(s[1..]))
  }

  lemma WithRankCons(x: Item, t: seq<Item>, k: nat)
    ensures WithRank([x] + t, k) == (if Rank(x) == k then [x] else []) + WithRank(t, k)
  {
    assert ([x] + t)[0] == x && ([x] + t)[1..] == t;
  }

  lemma SeqAssoc(a: seq<Item>, b: seq<Item>, c: seq<Item>)
    ensures (a + b) + c == a + (b + c)
  {
  }

  /** Inserting `x` adds it in front of the items of its own rank and changes no other
      rank's items: it only ever passes items of a lower rank. */
  lemma {:induction false} InsertByRankWithRank(x: Item, s: seq<Item>, k: nat)
    ensures WithRank(InsertByRank(x, s), k) == (if Rank(x) == k then [x] else []) + WithRank(s, k)
  {
    if s == [] || Rank(x) <= Rank(s[0]) {
      WithRankCons(x, s, k);
    } else {
      var y, rest := s[0], s[1..];
      var mine: seq<Item> := if Rank(x) == k then [x] else [];
      var theirs: seq<Item> := if Rank(y) == k then [y] else [];
      assert s == [y] + rest;
      calc {
        WithRank(InsertByRank(x, s), k);
        WithRank([y] + InsertByRank(x, rest), k);
        { WithRankCons(y, InsertByRank(x, rest), k); }
        theirs + WithRank(InsertByRank(x, rest), k);
        { InsertByRankWithRank(x, rest, k); }
        theirs + (mine + WithRank(rest, k));
        { assert theirs == [] || mine == []; SeqAssoc(theirs, mine, WithRank(rest, k)); SeqAssoc(mine, theirs, WithRank(rest, k)); }
        mine + (theirs + WithRank(rest, k));
        { WithRankCons(y, rest, k); }
        mine + WithRank(s, k);
      }
    }
  }

  /** Every item of the insertion is `x` or an item of `s`. */
  lemma {:induction false} InsertByRankMembers(x: Item, s: seq<Item>)
    ensures forall z :: z in InsertByRank(x, s) ==> z == x || z in s
  {
    InsertByRankPermutes(x, s);
    forall z | z in InsertByRank(x, s)
      ensures z == x || z in s
    {
      assert z in multiset(InsertByRank(x, s));
    }
  }

  /** Inserting into a sorted sequence keeps it sorted. */
  lemma {:induction false} InsertByRankSorted(x: Item, s: seq<Item>)
    requires SortedByRank(s)
    ensures SortedByRank(InsertByRank(x, s))
  {
    if s == [] || Rank(x) <= Rank(s[0]) {
      LowerInFrontSorted(x, s);
    } else {
      var y, rest := s[0], s[1..];
      assert SortedByRank(rest);
      InsertByRankSorted(x, rest);
      InsertByRankMembers(x, rest);
      var r := InsertByRank(x, rest);
      forall z | z in r
        ensures Rank(y) <= Rank(z)
      {
        if z != x {
          var i :| 0 <= i < |rest| && rest[i] == z;
          assert s[i + 1] == z;
        }
      }
      LowerInFrontSorted(y, r);
    }
  }

  /** An item no higher in rank than every item of a sorted sequence can go in front. */
  lemma LowerInFrontSorted(x: Item, s: seq<Item>)
    requires SortedByRank(s)
    requires forall z :: z in s ==> Rank(x) <= Rank(z)
    ensures SortedByRank([x] + s)
  {
    forall i, j | 0 <= i < j < |[x] + s|
      ensures Rank(([x] + s)[i]) <= Rank(([x] + s)[j])
    {
      assert ([x] + s)[j] == s[j - 1];
      if i > 0 {
        assert ([x] + s)[i] == s[i - 1];
      } else {
        assert s[j - 1] in s;
      }
    }
  }

  /** The sorted items are in non-decreasing rank. */
  lemma {:induction false} OrderByRankSorted(s: seq<Item>)
    ensures SortedByRank(OrderByRank(s))
  {
    if s != [] {
      OrderByRankSorted(s[1..]);
      InsertByRankSorted(s[0], OrderByRank(s[1..]));
    }
  }

  /** The sort is stable: the items of each rank keep their relative order. */
  lemma {:induction false} OrderByRankStable(s: seq<Item>, k: nat)
    ensures WithRank(OrderByRank(s), k) == WithRank(s, k)
  {
    if s != [] {
      OrderByRankStable(s[1..], k);
      InsertByRankWithRank(s[0], OrderByRank(s[1..]), k);
      assert s == [s[0]] + s[1..];
      WithRankCons(s[0], s[1..], k);
    }
  }

  /** Items already in rank order are left as they are. */
  lemma {:induction false} OrderByRankKeepsSorted(s: seq<Item>)
    requires SortedByRank(s)
    ensures OrderByRank(s) == s
  {
    if s != [] {
      OrderByRankKeepsSorted(s[1..]);
    }
  }
}
