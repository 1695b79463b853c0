/**
 * A target column of a multi-series table, seen as a flat sequence of observations that
 * each carry their series (item) id, and the grouping by item id with `sort=False` that
 * every per-item metric uses: one group per item, in order of first appearance.
 */
module Grouping {
  import opened Numeric

  type ItemId(==)

  /** One row of a column: the series it belongs to and its value. */
  datatype Obs = Obs(item: ItemId, value: Num)

  /** The rows of one series, in their original order. */
  datatype Group = Group(item: ItemId, values: seq<Num>)

  /** One entry of a per-item result series. */
  datatype ItemScore = ItemScore(item: ItemId, score: Num)

  function ItemsOf(s: seq<Obs>): (xs: seq<ItemId>)
    ensures |xs| == |s| && forall i :: 0 <= i < |s| ==> xs[i] == s[i].item
  {
    if s == [] then [] else [s[0].item] + ItemsOf(s[1..])
  }

  function Values(s: seq<Obs>): (vs: seq<Num>)
    ensures |vs| == |s| && forall i :: 0 <= i < |s| ==> vs[i] == s[i].value
  {
    if s == [] then [] else [s[0].value] + Values(s[1..])
  }

  /** The values of series `x`, in row order. */
  function ValuesOf(s: seq<Obs>, x: ItemId): seq<Num> {
    if s == [] then [] else (if s[0].item == x then [s[0].value] else []) + ValuesOf(s[1..], x)
  }

  /** The rows that do not belong to series `x`, in row order. */
  function Without(s: seq<Obs>, x: ItemId): (t: seq<Obs>)
    ensures |t| <= |s|
  {
    if s == [] then [] else (if s[0].item == x then [] else [s[0]]) + Without(s[1..], x)
  }

  /** The row of the first appearance of `x`, or |s| when `x` does not appear. */
  function FirstIndex(s: seq<Obs>, x: ItemId): (i: nat)
    ensures i <= |s|
  {
    if s == [] then 0 else if s[0].item == x then 0 else 1 + FirstIndex(s[1..], x)
  }

  /** `FirstIndex` is the first row of `x`: no earlier row belongs to `x`, and it is |s| exactly when `x` is absent. */
  lemma {:induction false} FirstIndexIsFirst(s: seq<Obs>, x: ItemId)
    ensures FirstIndex(s, x) < |s| <==> x in ItemsOf(s)
    ensures FirstIndex(s, x) < |s| ==> s[FirstIndex(s, x)].item == x
    ensures forall j :: 0 <= j < FirstIndex(s, x) ==> s[j].item != x
  {
    if s != [] && s[0].item != x {
      FirstIndexIsFirst(s[1..], x);
      assert ItemsOf(s) == [s[0].item] + ItemsOf(s[1..]);
      assert forall j :: 1 <= j < |s| ==> s[j] == s[1..][j - 1];
    }
  }

  function GroupItems(g: seq<Group>): (xs: seq<ItemId>)
    ensures |xs| == |g| && forall k :: 0 <= k < |g| ==> xs[k] == g[k].item
  {
    if g == [] then [] else [g[0].item] + GroupItems(g[1..])
  }

  lemma {:induction false} ValuesOfEmpty(s: seq<Obs>, x: ItemId)
    ensures ValuesOf(s, x) == [] <==> x !in ItemsOf(s)
  {
    if s != [] {
      ValuesOfEmpty(s[1..], x);
    }
  }

  lemma {:induction false} WithoutValues(s: seq<Obs>, x: ItemId, y: ItemId)
    ensures ValuesOf(Without(s, x), y) == if x == y then [] else ValuesOf(s, y)
  {
    if s != [] {
      WithoutValues(s[1..], x, y);
      var w := Without(s[1..], x);
      if s[0].item == x {
        assert Without(s, x) == w;
      } else {
        var t := [s[0]] + w;
        assert Without(s, x) == t;
        assert t[0] == s[0] && t[1..] == w;
        assert ValuesOf(t, y) == (if s[0].item == y then [s[0].value] else []) + ValuesOf(w, y);
      }
    }
  }

  lemma {:induction false} WithoutItems(s: seq<Obs>, x: ItemId, y: ItemId)
    ensures y in ItemsOf(Without(s, x)) <==> y != x && y in ItemsOf(s)
  {
    WithoutValues(s, x, y);
    ValuesOfEmpty(Without(s, x), y);
    ValuesOfEmpty(s, y);
  }

  lemma {:induction false} WithoutAbsent(s: seq<Obs>, x: ItemId)
    requires x !in ItemsOf(s)
    ensures Without(s, x) == s
  {
    if s != [] {
      assert ItemsOf(s[1..]) == ItemsOf(s)[1..];
      WithoutAbsent(s[1..], x);
    }
  }

  /** Removing a series keeps the relative order of first appearance of the others. */
  lemma {:induction false} WithoutFirstIndex(s: seq<Obs>, x: ItemId, y: ItemId, z: ItemId)
    requires y != x && z != x
    requires FirstIndex(Without(s, x), y) < FirstIndex(Without(s, x), z)
    ensures FirstIndex(s, y) < FirstIndex(s, z)
  {
    var w := Without(s[1..], x);
    if s[0].item == x {
      assert Without(s, x) == w;
      WithoutFirstIndex(s[1..], x, y, z);
    } else {
      var t := [s[0]] + w;
      assert Without(s, x) == t;
      assert t[0] == s[0] && t[1..] == w;
      if s[0].item == y {
        assert FirstIndex(s, y) == 0;
      } else if s[0].item != z {
        assert FirstIndex(t, y) == 1 + FirstIndex(w, y);
        assert FirstIndex(t, z) == 1 + FirstIndex(w, z);
        WithoutFirstIndex(s[1..], x, y, z);
      }
    }
  }

  /**
   * `g` is the grouping of `s` by series: each group holds exactly the values of its
   * series in row order, every series of `s` has a group and no other series does, and
   * the groups follow the order of first appearance (so no two share a series).
   */
  ghost predicate IsGrouping(s: seq<Obs>, g: seq<Group>) {
    && (forall k :: 0 <= k < |g| ==> g[k].values == ValuesOf(s, g[k].item) && g[k].values != [])
    && (forall i :: 0 <= i < |s| ==> s[i].item in GroupItems(g))
    && (forall k, l :: 0 <= k < l < |g| ==> FirstIndex(s, g[k].item) < FirstIndex(s, g[l].item))
  }

  lemma {:induction false} StepItemAt(s: seq<Obs>, rest: seq<Group>, k: int)
    requires s != [] && IsGrouping(Without(s[1..], s[0].item), rest)
    requires 0 <= k < |rest|
    ensures rest[k].item != s[0].item
  {
    var w := Without(s[1..], s[0].item);
    assert rest[k].values == ValuesOf(w, rest[k].item) != [];
    ValuesOfEmpty(w, rest[k].item);
    WithoutItems(s[1..], s[0].item, rest[k].item);
  }

  lemma {:induction false} StepValuesAt(s: seq<Obs>, rest: seq<Group>, k: int)
    requires s != [] && IsGrouping(Without(s[1..], s[0].item), rest)
    requires 0 <= k < |rest| && rest[k].item != s[0].item
    ensures rest[k].values == ValuesOf(s, rest[k].item)
  {
    WithoutValues(s[1..], s[0].item, rest[k].item);
  }

  lemma {:induction false} GroupingStepValues(s: seq<Obs>, rest: seq<Group>)
    requires s != [] && IsGrouping(Without(s[1..], s[0].item), rest)
    ensures forall k :: 0 <= k < |rest| ==>
      rest[k].item != s[0].item && rest[k].values == ValuesOf(s, rest[k].item)
  {
    forall k | 0 <= k < |rest|
      ensures rest[k].item != s[0].item && rest[k].values == ValuesOf(s, rest[k].item)
    {
      StepItemAt(s, rest, k);
      StepValuesAt(s, rest, k);
    }
  }

  lemma {:induction false} StepCoverAt(s: seq<Obs>, rest: seq<Group>, i: int)
    requires s != [] && IsGrouping(Without(s[1..], s[0].item), rest)
    requires 0 <= i < |s| && s[i].item != s[0].item
    ensures s[i].item in GroupItems(rest)
  {
    var x, y := s[0].item, s[i].item;
    var w := Without(s[1..], x);
    assert ItemsOf(s[1..])[i - 1] == y;
    WithoutItems(s[1..], x, y);
    var j :| 0 <= j < |w| && ItemsOf(w)[j] == y;
    assert w[j].item == y;
  }

  lemma {:induction false} GroupingStepItems(s: seq<Obs>, rest: seq<Group>)
    requires s != [] && IsGrouping(Without(s[1..], s[0].item), rest)
    ensures forall i :: 0 <= i < |s| ==> s[i].item in GroupItems([Group(s[0].item, ValuesOf(s, s[0].item))] + rest)
  {
    var x := s[0].item;
    var g := [Group(x, ValuesOf(s, x))] + rest;
    assert GroupItems(g) == [x] + GroupItems(rest);
    forall i | 0 <= i < |s| ensures s[i].item in GroupItems(g) {
      if s[i].item != x {
        StepCoverAt(s, rest, i);
      }
    }
  }

  lemma {:induction false} StepOrderAt(s: seq<Obs>, rest: seq<Group>, k: int, l: int)
    requires s != [] && IsGrouping(Without(s[1..], s[0].item), rest)
    requires 0 <= k < l < |rest|
    ensures FirstIndex(s, rest[k].item) < FirstIndex(s, rest[l].item)
  {
    StepItemAt(s, rest, k);
    StepItemAt(s, rest, l);
    WithoutFirstIndex(s[1..], s[0].item, rest[k].item, rest[l].item);
  }

  lemma {:induction false} StepFirstAt(s: seq<Obs>, rest: seq<Group>, l: int)
    requires s != [] && IsGrouping(Without(s[1..], s[0].item), rest)
    requires 0 <= l < |rest|
    ensures FirstIndex(s, s[0].item) < FirstIndex(s, rest[l].item)
  {
    StepItemAt(s, rest, l);
  }

  lemma {:induction false} GroupingStepGroups(s: seq<Obs>, rest: seq<Group>)
    requires s != [] && IsGrouping(Without(s[1..], s[0].item), rest)
    ensures var g := [Group(s[0].item, ValuesOf(s, s[0].item))] + rest;
      forall k :: 0 <= k < |g| ==> g[k].values == ValuesOf(s, g[k].item) && g[k].values != []
  {
    var x := s[0].item;
    var g := [Group(x, ValuesOf(s, x))] + rest;
    GroupingStepValues(s, rest);
    forall k | 0 <= k < |g|
      ensures g[k].values == ValuesOf(s, g[k].item) && g[k].values != []
    {
      if k == 0 {
        assert ItemsOf(s)[0] == x;
        ValuesOfEmpty(s, x);
      } else {
        assert g[k] == rest[k - 1];
      }
    }
  }

  lemma {:induction false} GroupingStepFirst(s: seq<Obs>, rest: seq<Group>)
    requires s != [] && IsGrouping(Without(s[1..], s[0].item), rest)
    ensures var g := [Group(s[0].item, ValuesOf(s, s[0].item))] + rest;
      forall k, l :: 0 <= k < l < |g| ==> FirstIndex(s, g[k].item) < FirstIndex(s, g[l].item)
  {
    forall l | 0 <= l < |rest| ensures FirstIndex(s, s[0].item) < FirstIndex(s, rest[l].item) {
      StepFirstAt(s, rest, l);
    }
    forall k, l | 0 <= k < l < |rest| ensures FirstIndex(s, rest[k].item) < FirstIndex(s, rest[l].item) {
      StepOrderAt(s, rest, k, l);
    }
    OrderCons(s, Group(s[0].item, ValuesOf(s, s[0].item)), rest);
  }

  /** Putting a group that appears first in front of groups in order of first appearance keeps the order. */
  lemma {:induction false} OrderCons(s: seq<Obs>, h: Group, rest: seq<Group>)
    requires forall l :: 0 <= l < |rest| ==> FirstIndex(s, h.item) < FirstIndex(s, rest[l].item)
    requires forall k, l :: 0 <= k < l < |rest| ==> FirstIndex(s, rest[k].item) < FirstIndex(s, rest[l].item)
    ensures var g := [h] + rest;
      forall k, l :: 0 <= k < l < |g| ==> FirstIndex(s, g[k].item) < FirstIndex(s, g[l].item)
  {
    var g := [h] + rest;
    forall k, l | 0 <= k < l < |g|
      ensures FirstIndex(s, g[k].item) < FirstIndex(s, g[l].item)
    {
      assert g[l] == rest[l - 1];
      if k > 0 {
        assert g[k] == rest[k - 1];
        assert FirstIndex(s, rest[k - 1].item) < FirstIndex(s, rest[l - 1].item);
      } else {
        assert FirstIndex(s, h.item) < FirstIndex(s, rest[l - 1].item);
      }
    }
  }

  lemma {:induction false} GroupingStep(s: seq<Obs>, rest: seq<Group>)
    requires s != [] && IsGrouping(Without(s[1..], s[0].item), rest)
    ensures IsGrouping(s, [Group(s[0].item, ValuesOf(s, s[0].item))] + rest)
  {
    GroupingStepGroups(s, rest);
    GroupingStepItems(s, rest);
    GroupingStepFirst(s, rest);
  }

  /** pandas' groupby(level=ITEMID, sort=False): one group per series, first appearance first. */
  function GroupBy(s: seq<Obs>): (g: seq<Group>)
    decreases |s|
    ensures |g| <= |s| && (g == [] <==> s == [])
    ensures s != [] ==> g[0] == Group(s[0].item, ValuesOf(s, s[0].item))
  {
    if s == [] then []
    else [Group(s[0].item, ValuesOf(s, s[0].item))] + GroupBy(Without(s[1..], s[0].item))
  }

  /**
   * The groups are exactly the series: each group holds exactly the values of its series in
   * row order and is not empty, no series is missed, and the groups come in order of first
   * appearance (so no two groups share a series).
   */
  lemma {:induction false} GroupByIsGrouping(s: seq<Obs>)
    decreases |s|
    ensures IsGrouping(s, GroupBy(s))
  {
    if s != [] {
      var w := Without(s[1..], s[0].item);
      GroupByIsGrouping(w);
      GroupingStep(s, GroupBy(w));
    }
  }

  /** Distinct series get distinct groups. */
  lemma {:induction false} GroupItemsDistinct(s: seq<Obs>, k: nat, l: nat)
    requires k < l < |GroupBy(s)|
    ensures GroupBy(s)[k].item != GroupBy(s)[l].item
  {
    GroupByIsGrouping(s);
  }

  lemma {:induction false} WithoutSameItems(s: seq<Obs>, t: seq<Obs>, x: ItemId)
    requires ItemsOf(s) == ItemsOf(t)
    ensures ItemsOf(Without(s, x)) == ItemsOf(Without(t, x))
  {
    if s != [] {
      assert |t| == |s| && s[0].item == t[0].item;
      assert ItemsOf(s[1..]) == ItemsOf(s)[1..] && ItemsOf(t[1..]) == ItemsOf(t)[1..];
      WithoutSameItems(s[1..], t[1..], x);
      var ws, wt := Without(s[1..], x), Without(t[1..], x);
      if s[0].item != x {
        assert Without(s, x) == [s[0]] + ws && Without(t, x) == [t[0]] + wt;
        assert ItemsOf([s[0]] + ws)[1..] == ItemsOf(ws);
        assert ItemsOf([t[0]] + wt)[1..] == ItemsOf(wt);
      } else {
        assert Without(s, x) == ws && Without(t, x) == wt;
      }
    }
  }

  /** The groups, and their order, depend only on the series ids of the rows, not on the values. */
  lemma {:induction false} GroupItemsByItems(s: seq<Obs>, t: seq<Obs>)
    requires ItemsOf(s) == ItemsOf(t)
    decreases |s|
    ensures GroupItems(GroupBy(s)) == GroupItems(GroupBy(t))
  {
    if s != [] {
      assert |t| == |s| && s[0].item == t[0].item;
      var x := s[0].item;
      assert ItemsOf(s[1..]) == ItemsOf(s)[1..] && ItemsOf(t[1..]) == ItemsOf(t)[1..];
      WithoutSameItems(s[1..], t[1..], x);
      GroupItemsByItems(Without(s[1..], x), Without(t[1..], x));
      var gs, gt := GroupBy(s), GroupBy(t);
      assert gs[1..] == GroupBy(Without(s[1..], x)) && gt[1..] == GroupBy(Without(t[1..], x));
      assert GroupItems(gs) == [x] + GroupItems(gs[1..]);
      assert GroupItems(gt) == [x] + GroupItems(gt[1..]);
    } else {
      assert t == [];
    }
  }

  /** Values that are all never negative stay never negative when one series is picked out. */
  lemma {:induction false} ValuesOfNeverNegative(s: seq<Obs>, x: ItemId)
    requires forall i :: 0 <= i < |s| ==> NeverNegative(s[i].value)
    ensures forall j :: 0 <= j < |ValuesOf(s, x)| ==> NeverNegative(ValuesOf(s, x)[j])
  {
    if s != [] {
      ValuesOfNeverNegative(s[1..], x);
    }
  }

  function MeanPerGroup(g: seq<Group>): (r: seq<ItemScore>)
    ensures |r| == |g|
    ensures forall k :: 0 <= k < |g| ==> r[k] == ItemScore(g[k].item, Mean(g[k].values))
  {
    if g == [] then [] else [ItemScore(g[0].item, Mean(g[0].values))] + MeanPerGroup(g[1..])
  }

  /**
   * groupby(level=ITEMID, sort=False).mean(): one entry per series in order of first
   * appearance, each the NaN-skipping mean of that series' own values.
   */
  function PerItemMean(s: seq<Obs>): (r: seq<ItemScore>)
    ensures |r| == |GroupBy(s)|
    ensures forall k :: 0 <= k < |r| ==>
      r[k].item == GroupBy(s)[k].item && r[k].score == Mean(ValuesOf(s, r[k].item))
  {
    GroupByIsGrouping(s);
    MeanPerGroup(GroupBy(s))
  }

  function Sizes(g: seq<Group>): (n: seq<nat>)
    ensures |n| == |g| && forall k :: 0 <= k < |g| ==> n[k] == |g[k].values|
  {
    if g == [] then [] else [|g[0].values|] + Sizes(g[1..])
  }

  /** groupby(level=ITEMID, sort=False).size(): the row count of each series. */
  function GroupSizes(s: seq<Obs>): (n: seq<nat>)
    ensures |n| == |GroupBy(s)|
    ensures forall k :: 0 <= k < |n| ==> n[k] >= 1 && n[k] == |ValuesOf(s, GroupBy(s)[k].item)|
  {
    GroupByIsGrouping(s);
    Sizes(GroupBy(s))
  }

  // ---------------------------------------------------------------- contiguous series

  /** Every series occupies one block of consecutive rows. */
  predicate Contiguous(xs: seq<ItemId>) {
    xs == [] || (Contiguous(xs[1..]) && (xs[0] in xs[1..] ==> xs[1] == xs[0]))
  }

  /** The length of the block of rows of the first series. */
  function RunLength(s: seq<Obs>): (c: nat)
    requires s != []
    ensures 1 <= c <= |s|
    ensures c < |s| ==> s[c].item != s[0].item
  {
    if |s| == 1 || s[1].item != s[0].item then 1 else 1 + RunLength(s[1..])
  }

  /** Every row of the first block belongs to the first series. */
  lemma {:induction false} RunLengthSame(s: seq<Obs>)
    requires s != []
    ensures forall i :: 0 <= i < RunLength(s) ==> s[i].item == s[0].item
  {
    if |s| > 1 && s[1].item == s[0].item {
      RunLengthSame(s[1..]);
      assert forall i :: 1 <= i < RunLength(s) ==> s[i] == s[1..][i - 1];
    }
  }

  lemma {:induction false} ContiguousTail(s: seq<Obs>, c: nat)
    requires c <= |s| && Contiguous(ItemsOf(s))
    ensures Contiguous(ItemsOf(s[c..]))
  {
    if c > 0 {
      assert ItemsOf(s[1..]) == ItemsOf(s)[1..];
      ContiguousTail(s[1..], c - 1);
      assert s[1..][c - 1..] == s[c..];
    }
  }

  lemma {:induction false} RunEndsSeries(s: seq<Obs>, c: nat)
    requires Contiguous(ItemsOf(s)) && 1 <= c <= |s|
    requires forall i :: 0 <= i < c ==> s[i].item == s[0].item
    requires c < |s| ==> s[c].item != s[0].item
    ensures s[0].item !in ItemsOf(s[c..])
  {
    assert ItemsOf(s[1..]) == ItemsOf(s)[1..];
    if c > 1 {
      ContiguousTail(s, 1);
      RunEndsSeries(s[1..], c - 1);
      assert s[1..][c - 1..] == s[c..];
    }
  }

  lemma {:induction false} RunValues(t: seq<Obs>, x: ItemId, c: nat)
    requires c <= |t|
    requires forall i :: 0 <= i < c ==> t[i].item == x
    requires x !in ItemsOf(t[c..])
    ensures ValuesOf(t, x) == Values(t[..c])
    ensures Without(t, x) == t[c..]
  {
    if c == 0 {
      ValuesOfEmpty(t, x);
      WithoutAbsent(t, x);
    } else {
      assert t[1..][c - 1..] == t[c..];
      RunValues(t[1..], x, c - 1);
      assert t[1..][..c - 1] == t[1..c];
      assert Values(t[..c]) == [t[0].value] + Values(t[1..c]);
    }
  }

  /**
   * On contiguous rows, the first group is the first block of rows and the remaining
   * groups are those of the rows after it.
   */
  lemma {:induction false} RunSplit(s: seq<Obs>, c: nat)
    requires Contiguous(ItemsOf(s)) && 1 <= c <= |s|
    requires forall i :: 0 <= i < c ==> s[i].item == s[0].item
    requires c < |s| ==> s[c].item != s[0].item
    ensures s[0].item !in ItemsOf(s[c..])
    ensures Contiguous(ItemsOf(s[c..]))
    ensures GroupBy(s) == [Group(s[0].item, Values(s[..c]))] + GroupBy(s[c..])
  {
    var x := s[0].item;
    RunEndsSeries(s, c);
    ContiguousTail(s, c);
    RunValues(s, x, c);
    assert s[1..][c - 1..] == s[c..];
    RunValues(s[1..], x, c - 1);
    assert GroupBy(s) == [Group(x, ValuesOf(s, x))] + GroupBy(Without(s[1..], x));
  }
}
