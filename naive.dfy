/**
 * The in-sample seasonal-naive error with season 1 of every series: the mean absolute
 * change between consecutive past values of that series. The code takes one `diff` over the
 * whole column and then masks, at the cumulative row counts of the groups, the differences
 * that straddle two series; on contiguous series those are exactly the first rows of
 * every series after the first.
 */
module NaiveError {
  import opened Numeric
  import opened Grouping

  /** `y_past.diff()`: NaN for the first row, then each value minus the one before it. */
  function RawDiff(s: seq<Obs>): (d: seq<Num>)
    ensures |d| == |s|
    ensures forall i {:trigger d[i]} :: 0 < i < |s| ==> d[i] == Sub(s[i].value, s[i - 1].value)
    ensures |s| > 0 ==> d[0].NaN?
  {
    seq(|s|, i requires 0 <= i < |s| => if i == 0 then NaN else Sub(s[i].value, s[i - 1].value))
  }

  /** The entries of `d` at the positions in `cuts` replaced by NaN. */
  function Masked(d: seq<Num>, cuts: set<int>): (r: seq<Num>)
    ensures |r| == |d|
    ensures forall i :: 0 <= i < |d| && i in cuts ==> r[i].NaN?
    ensures forall i :: 0 <= i < |d| && i !in cuts ==> r[i] == d[i]
  {
    seq(|d|, i requires 0 <= i < |d| => if i in cuts then NaN else d[i])
  }

  /** The series with its values replaced by `d`, row for row. */
  function Relabel(s: seq<Obs>, d: seq<Num>): (t: seq<Obs>)
    requires |d| == |s|
    ensures |t| == |s| && forall i :: 0 <= i < |s| ==> t[i] == Obs(s[i].item, d[i])
  {
    seq(|s|, i requires 0 <= i < |s| => Obs(s[i].item, d[i]))
  }

  function Sum(n: seq<nat>): nat {
    if n == [] then 0 else n[0] + Sum(n[1..])
  }

  /** `cumsum(sizes)[:-1]`, every position shifted by `base`. */
  function Cuts(sizes: seq<nat>, base: int): (r: set<int>)
    ensures |sizes| <= 1 ==> r == {}
    ensures |sizes| >= 2 ==> base + sizes[0] in r
  {
    if |sizes| <= 1 then {} else {base + sizes[0]} + Cuts(sizes[1..], base + sizes[0])
  }

  /** Absolute changes between consecutive values. */
  function AbsDiffs(v: seq<Num>): (d: seq<Num>)
    ensures |v| == 0 ==> d == []
    ensures |v| > 0 ==> |d| == |v| - 1 && forall j {:trigger d[j]} :: 0 <= j < |v| - 1 ==> d[j] == Abs(Sub(v[j + 1], v[j]))
  {
    if |v| <= 1 then [] else seq(|v| - 1, j requires 0 <= j < |v| - 1 => Abs(Sub(v[j + 1], v[j])))
  }

  /**
   * The naive-1 error of one series: the NaN-skipping mean of its absolute changes; NaN for
   * a series of at most one value, and for finite values the sum of the absolute changes
   * over their number.
   */
  function SeriesNaiveError(v: seq<Num>): (r: Num)
    ensures |v| <= 1 ==> r.NaN?
    ensures |v| >= 2 && AllFinite(v) ==> r == Fin(FinSum(AbsDiffs(v)) / ((|v| - 1) as real))
  {
    var d := AbsDiffs(v);
    if |v| >= 2 && AllFinite(v) then
      MeanOfFiniteDiffs(v);
      Mean(d)
    else
      Mean(d)
  }

  /** For at least two finite values, the mean change is the sum of the changes over their number. */
  lemma {:induction false} MeanOfFiniteDiffs(v: seq<Num>)
    requires |v| >= 2 && AllFinite(v)
    ensures Mean(AbsDiffs(v)) == Fin(FinSum(AbsDiffs(v)) / ((|v| - 1) as real))
  {
    var d := AbsDiffs(v);
    forall j | 0 <= j < |d| ensures d[j].Fin? {
      assert v[j].Fin? && v[j + 1].Fin?;
    }
    MeanOfFinite(d);
  }

  function NaiveScores(g: seq<Group>): (r: seq<ItemScore>)
    ensures |r| == |g|
    ensures forall k :: 0 <= k < |g| ==> r[k] == ItemScore(g[k].item, SeriesNaiveError(g[k].values))
  {
    if g == [] then []
    else
      var rest := NaiveScores(g[1..]);
      [ItemScore(g[0].item, SeriesNaiveError(g[0].values))] + rest
  }

  /**
   * The naive-1 error the evaluator means: per series, in order of first appearance, the
   * mean absolute change between consecutive values of that series alone.
   */
  function NaiveSpec(s: seq<Obs>): (r: seq<ItemScore>)
    ensures |r| == |GroupBy(s)|
    ensures forall k :: 0 <= k < |r| ==>
      r[k].item == GroupBy(s)[k].item && r[k].score == SeriesNaiveError(ValuesOf(s, r[k].item))
  {
    GroupByIsGrouping(s);
    NaiveScores(GroupBy(s))
  }

  /** The difference of every row with the previous row of the same series; NaN at series starts. */
  function BoundaryMasked(s: seq<Obs>): (d: seq<Num>)
    ensures |d| == |s|
    ensures forall i {:trigger d[i]} :: 0 <= i < |s| && (i == 0 || s[i].item != s[i - 1].item) ==> d[i].NaN?
    ensures forall i {:trigger d[i]} :: 0 < i < |s| && s[i].item == s[i - 1].item ==> d[i] == Sub(s[i].value, s[i - 1].value)
  {
    seq(|s|, i requires 0 <= i < |s| =>
      if i == 0 || s[i].item != s[i - 1].item then NaN else Sub(s[i].value, s[i - 1].value))
  }

  // ---------------------------------------------------------------- sizes and cuts

  lemma {:induction false} ValuesWithoutLength(t: seq<Obs>, x: ItemId)
    ensures |ValuesOf(t, x)| + |Without(t, x)| == |t|
  {
    if t != [] {
      ValuesWithoutLength(t[1..], x);
    }
  }

  /** The group sizes add up to the number of rows. */
  lemma {:induction false} SumGroupSizes(s: seq<Obs>)
    decreases |s|
    ensures Sum(GroupSizes(s)) == |s|
  {
    if s != [] {
      var x := s[0].item;
      var w := Without(s[1..], x);
      var rest := GroupBy(w);
      assert GroupBy(s) == [Group(x, ValuesOf(s, x))] + rest;
      assert Sizes(GroupBy(s)) == [|ValuesOf(s, x)|] + Sizes(rest);
      SumGroupSizes(w);
      ValuesWithoutLength(s[1..], x);
    }
  }

  lemma {:induction false} SumStep(n: seq<nat>, k: nat)
    requires k < |n|
    ensures Sum(n[k..]) == n[k] + Sum(n[k + 1..])
  {
    assert n[k..][1..] == n[k + 1..];
  }

  /** On contiguous rows the group sizes are the first block length and the rest's sizes. */
  lemma {:induction false} RunSizes(s: seq<Obs>)
    requires s != [] && Contiguous(ItemsOf(s))
    ensures var c := RunLength(s);
      && GroupSizes(s) == [c] + GroupSizes(s[c..])
      && Contiguous(ItemsOf(s[c..]))
      && (c < |s| ==> GroupSizes(s[c..]) != [])
  {
    var c := RunLength(s);
    RunLengthSame(s);
    RunSplit(s, c);
    var g := GroupBy(s[c..]);
    assert GroupBy(s) == [Group(s[0].item, Values(s[..c]))] + g;
    assert Sizes(GroupBy(s)) == [c] + Sizes(g);
    if c < |s| {
      assert s[c..][0].item in GroupItems(g);
    }
  }

  /** The lengths of the maximal blocks of consecutive rows of one series. */
  function Blocks(s: seq<Obs>): seq<nat>
    decreases |s|
  {
    if s == [] then [] else [RunLength(s)] + Blocks(s[RunLength(s)..])
  }

  /** On contiguous rows, the group sizes are the block lengths. */
  lemma {:induction false} GroupSizesAreBlocks(s: seq<Obs>)
    requires Contiguous(ItemsOf(s))
    decreases |s|
    ensures GroupSizes(s) == Blocks(s)
  {
    if s == [] {
      assert GroupBy(s) == [];
    } else {
      var c := RunLength(s);
      RunSizes(s);
      GroupSizesAreBlocks(s[c..]);
    }
  }

  /** The first cut of the blocks is the end of the first block; the rest are the cuts of what follows. */
  lemma {:induction false} CutsOfBlocks(s: seq<Obs>, b: int, i: int)
    requires s != []
    ensures var c := RunLength(s);
      (i in Cuts(Blocks(s), b)) == (c < |s| && (i == b + c || i in Cuts(Blocks(s[c..]), b + c)))
  {
    var c := RunLength(s);
    var t := s[c..];
    var bl, rest := Blocks(s), Blocks(t);
    BlocksCons(s);
    assert bl == [c] + rest && (rest != [] <==> c < |s|);
    CutsCons(bl, c, rest, b, i);
  }

  lemma {:induction false} BlocksCons(s: seq<Obs>)
    requires s != []
    ensures Blocks(s) == [RunLength(s)] + Blocks(s[RunLength(s)..])
    ensures Blocks(s[RunLength(s)..]) == [] <==> RunLength(s) == |s|
  {
    var c := RunLength(s);
    if c == |s| {
      assert s[c..] == [];
    }
  }

  lemma {:induction false} CutsCons(sizes: seq<nat>, c: nat, rest: seq<nat>, b: int, i: int)
    requires sizes == [c] + rest
    ensures (i in Cuts(sizes, b)) == (rest != [] && (i == b + c || i in Cuts(rest, b + c)))
  {
    assert sizes[0] == c && sizes[1..] == rest;
  }

  lemma {:induction false} RunSteps(s: seq<Obs>, j: int)
    requires s != [] && 0 < j <= RunLength(s) && j < |s|
    ensures (s[j].item != s[j - 1].item) == (j == RunLength(s))
  {
    RunLengthSame(s);
    assert s[j - 1].item == s[0].item;
  }

  /**
   * One step of `CutAt`, on the membership facts alone: `inS` and `inT` say whether row `i`
   * is a cut of `s` (from `b`) and of the rows after its first block (from `b + c`).
   */
  lemma {:induction false} CutAtStep(s: seq<Obs>, b: int, i: int, c: nat, t: seq<Obs>, inS: bool, inT: bool)
    requires s != [] && c == RunLength(s) && c < |s| && t == s[c..]
    requires inS == (c < |s| && (i == b + c || inT))
    requires inT == (b + c < i < b + c + |t| && t[i - (b + c)].item != t[i - (b + c) - 1].item)
    ensures inS == (b < i < b + |s| && s[i - b].item != s[i - b - 1].item)
  {
    var k := i - b;
    if 0 < k <= c {
      RunSteps(s, k);
    } else if c < k < |s| {
      assert t[k - c] == s[k] && t[k - c - 1] == s[k - 1];
    }
  }

  /** `CutAt` when all rows belong to one block: there is no cut. */
  lemma {:induction false} CutAtSingleRun(s: seq<Obs>, b: int, i: int)
    requires s != [] && RunLength(s) == |s|
    ensures (i in Cuts(Blocks(s), b)) == (b < i < b + |s| && s[i - b].item != s[i - b - 1].item)
  {
    CutsOfBlocks(s, b, i);
    if 0 < i - b < |s| {
      RunSteps(s, i - b);
    }
  }

  /** The cumulative block lengths (shifted by `b`) are exactly the rows where the series changes. */
  lemma {:induction false} CutAt(s: seq<Obs>, b: int, i: int)
    ensures (i in Cuts(Blocks(s), b)) == (b < i < b + |s| && s[i - b].item != s[i - b - 1].item)
  {
    CutAtSizes(s, Blocks(s), b, i);
  }

  /** `CutAt`, by induction over the rows with their block lengths `sizes` given. */
  lemma {:induction false} CutAtSizes(s: seq<Obs>, sizes: seq<nat>, b: int, i: int)
    requires sizes == Blocks(s)
    decreases |s|
    ensures (i in Cuts(sizes, b)) == (b < i < b + |s| && s[i - b].item != s[i - b - 1].item)
  {
    if s != [] {
      var c := RunLength(s);
      if c == |s| {
        CutAtSingleRun(s, b, i);
      } else {
        var t := s[c..];
        var rest := Blocks(t);
        CutAtSizes(t, rest, b + c, i);
        BlocksCons(s);
        CutsCons(sizes, c, rest, b, i);
        CutAtStep(s, b, i, c, t, i in Cuts(sizes, b), i in Cuts(rest, b + c));
      }
    }
  }

  lemma {:induction false} MaskedAt(s: seq<Obs>, cuts: set<int>, i: int)
    requires cuts == Cuts(Blocks(s), 0) && 0 <= i < |s|
    ensures Masked(RawDiff(s), cuts)[i] == BoundaryMasked(s)[i]
  {
    CutAt(s, 0, i);
    var raw, d := RawDiff(s), BoundaryMasked(s);
    if i == 0 || s[i].item != s[i - 1].item {
      assert d[i].NaN?;
    } else {
      assert i !in cuts;
      assert d[i] == Sub(s[i].value, s[i - 1].value) == raw[i];
    }
  }

  /** On contiguous rows, masking the raw difference at the cumulative sizes masks the series starts. */
  lemma {:induction false} MaskedIsBoundaryMasked(s: seq<Obs>)
    requires Contiguous(ItemsOf(s))
    ensures Masked(RawDiff(s), Cuts(GroupSizes(s), 0)) == BoundaryMasked(s)
  {
    var cuts := Cuts(GroupSizes(s), 0);
    GroupSizesAreBlocks(s);
    var a, d := Masked(RawDiff(s), cuts), BoundaryMasked(s);
    forall i | 0 <= i < |s| ensures a[i] == d[i] {
      MaskedAt(s, cuts, i);
    }
  }

  // ---------------------------------------------------------------- meaning of the masked diff

  lemma {:induction false} MeanDropsLeadingNaN(a: seq<Num>)
    ensures Mean([NaN] + a) == Mean(a)
  {
    assert ([NaN] + a)[1..] == a;
    assert DropNaN([NaN] + a) == DropNaN(a);
    MeanIgnoresNaN([NaN] + a, a);
  }

  /** The first block's masked absolute differences: NaN, then its own absolute changes. */
  lemma {:induction false} FirstBlockDiffs(s: seq<Obs>, c: nat)
    requires 1 <= c <= |s|
    requires forall i :: 0 <= i < c ==> s[i].item == s[0].item
    ensures Values(Relabel(s, AbsAll(BoundaryMasked(s)))[..c]) == [NaN] + AbsDiffs(Values(s[..c]))
  {
    var t := Relabel(s, AbsAll(BoundaryMasked(s)));
    var lhs, rhs := Values(t[..c]), [NaN] + AbsDiffs(Values(s[..c]));
    assert |lhs| == |rhs|;
    forall j | 0 <= j < c ensures lhs[j] == rhs[j] {
      if j > 0 {
        assert rhs[j] == AbsDiffs(Values(s[..c]))[j - 1];
        assert s[j].item == s[j - 1].item;
      }
    }
  }

  /** After the first block, the masked differences are those of the remaining rows. */
  lemma {:induction false} RestDiffs(s: seq<Obs>, c: nat)
    requires 1 <= c <= |s|
    requires c < |s| ==> s[c].item != s[c - 1].item
    ensures Relabel(s, AbsAll(BoundaryMasked(s)))[c..] == Relabel(s[c..], AbsAll(BoundaryMasked(s[c..])))
  {
    var t, u := Relabel(s, AbsAll(BoundaryMasked(s)))[c..], Relabel(s[c..], AbsAll(BoundaryMasked(s[c..])));
    assert |t| == |u|;
    forall j | 0 <= j < |t| ensures t[j] == u[j] {
      assert s[c..][j] == s[c + j];
      if j > 0 {
        assert s[c..][j - 1] == s[c + j - 1];
      }
    }
  }

  lemma {:induction false} RelabelItems(s: seq<Obs>, d: seq<Num>)
    requires |d| == |s|
    ensures ItemsOf(Relabel(s, d)) == ItemsOf(s)
  {
    assert forall i :: 0 <= i < |s| ==> ItemsOf(Relabel(s, d))[i] == ItemsOf(s)[i];
  }

  /**
   * On contiguous rows, the per-series mean of the absolute masked differences is the
   * naive-1 error of every series.
   */
  lemma {:induction false} BoundaryMaskedMeaning(s: seq<Obs>)
    requires Contiguous(ItemsOf(s))
    decreases |s|
    ensures MeanPerGroup(GroupBy(Relabel(s, AbsAll(BoundaryMasked(s))))) == NaiveSpec(s)
  {
    if s == [] {
      var t := Relabel(s, AbsAll(BoundaryMasked(s)));
      assert t == [];
      assert GroupBy(t) == [] && GroupBy(s) == [];
    } else {
      var c := RunLength(s);
      MaskedGroupsCons(s);
      BoundaryMaskedMeaning(s[c..]);
      MeanDropsLeadingNaN(AbsDiffs(Values(s[..c])));
      PerGroupCons(Group(s[0].item, [NaN] + AbsDiffs(Values(s[..c]))),
                   GroupBy(Relabel(s[c..], AbsAll(BoundaryMasked(s[c..])))),
                   Group(s[0].item, Values(s[..c])), GroupBy(s[c..]));
    }
  }

  /**
   * The first block of the rows is the first group, both of the rows and of their masked
   * differences; the differences of the first block are its own changes after a leading NaN.
   */
  lemma {:induction false} MaskedGroupsCons(s: seq<Obs>)
    requires Contiguous(ItemsOf(s)) && s != []
    ensures var c := RunLength(s);
      && Contiguous(ItemsOf(s[c..]))
      && GroupBy(Relabel(s, AbsAll(BoundaryMasked(s))))
         == [Group(s[0].item, [NaN] + AbsDiffs(Values(s[..c])))] + GroupBy(Relabel(s[c..], AbsAll(BoundaryMasked(s[c..]))))
      && GroupBy(s) == [Group(s[0].item, Values(s[..c]))] + GroupBy(s[c..])
  {
    RunLengthSame(s);
    RunSplit(s, RunLength(s));
    MaskedRunSplit(s);
  }

  /** The masked-difference half of `MaskedGroupsCons`. */
  lemma {:induction false} MaskedRunSplit(s: seq<Obs>)
    requires Contiguous(ItemsOf(s)) && s != []
    ensures var c := RunLength(s);
      GroupBy(Relabel(s, AbsAll(BoundaryMasked(s))))
      == [Group(s[0].item, [NaN] + AbsDiffs(Values(s[..c])))] + GroupBy(Relabel(s[c..], AbsAll(BoundaryMasked(s[c..]))))
  {
    var c := RunLength(s);
    RunLengthSame(s);
    RelabelRunSplit(s, AbsAll(BoundaryMasked(s)), c);
    FirstBlockDiffs(s, c);
    RestDiffs(s, c);
  }

  /** Relabelling keeps the first block of the rows the first group. */
  lemma {:induction false} RelabelRunSplit(s: seq<Obs>, d: seq<Num>, c: nat)
    requires |d| == |s| && Contiguous(ItemsOf(s)) && 1 <= c <= |s|
    requires forall i :: 0 <= i < c ==> s[i].item == s[0].item
    requires c < |s| ==> s[c].item != s[0].item
    ensures GroupBy(Relabel(s, d)) == [Group(s[0].item, Values(Relabel(s, d)[..c]))] + GroupBy(Relabel(s, d)[c..])
  {
    var t := Relabel(s, d);
    RelabelItems(s, d);
    assert forall i :: 0 <= i < c ==> t[i].item == t[0].item;
    assert c < |s| ==> t[c].item != t[0].item;
    RunSplit(t, c);
  }

  /** Per-group means and naive errors agree on a list when they agree on its head and its tail. */
  lemma {:induction false} PerGroupCons(a: Group, ra: seq<Group>, b: Group, rb: seq<Group>)
    requires a.item == b.item && Mean(a.values) == SeriesNaiveError(b.values)
    requires MeanPerGroup(ra) == NaiveScores(rb)
    ensures MeanPerGroup([a] + ra) == NaiveScores([b] + rb)
  {
    assert ([a] + ra)[1..] == ra && ([b] + rb)[1..] == rb;
  }


  // ---------------------------------------------------------------- the computation

  /**
   * The specification of `in_sample_naive_1_error`: the differences of the whole column,
   * masked at the cumulative group sizes, made absolute and averaged per series. One entry
   * per series in order of first appearance, never negative.
   */
  function MaskedNaiveErrors(s: seq<Obs>): (r: seq<ItemScore>)
    ensures |r| == |GroupBy(s)|
    ensures forall k :: 0 <= k < |r| ==> r[k].item == GroupBy(s)[k].item && NeverNegative(r[k].score)
  {
    var t := Relabel(s, AbsAll(Masked(RawDiff(s), Cuts(GroupSizes(s), 0))));
    RelabelItems(s, AbsAll(Masked(RawDiff(s), Cuts(GroupSizes(s), 0))));
    GroupItemsByItems(t, s);
    GroupByIsGrouping(t);
    var r := MeanPerGroup(GroupBy(t));
    forall k | 0 <= k < |r| ensures r[k].item == GroupBy(s)[k].item && NeverNegative(r[k].score) {
      assert GroupItems(GroupBy(t))[k] == GroupItems(GroupBy(s))[k];
      ValuesOfNeverNegative(t, r[k].item);
      MeanNeverNegative(ValuesOf(t, r[k].item));
    }
    r
  }

  /** When every series' rows are contiguous, the masked computation is the per-series naive-1 error. */
  lemma {:induction false} MaskedNaiveErrorsIsSpec(s: seq<Obs>)
    requires Contiguous(ItemsOf(s))
    ensures MaskedNaiveErrors(s) == NaiveSpec(s)
  {
    MaskedIsBoundaryMasked(s);
    BoundaryMaskedMeaning(s);
  }

  /**
   * `in_sample_naive_1_error`: the differences of the whole column, masked at the cumulative
   * group sizes, made absolute and averaged per series. On contiguous series this is the
   * naive-1 error of every series.
   */
  method InSampleNaive1Error(yPast: seq<Obs>) returns (r: seq<ItemScore>)
    ensures r == MaskedNaiveErrors(yPast)
    ensures Contiguous(ItemsOf(yPast)) ==> r == NaiveSpec(yPast)
  {
    var n := |yPast|;
    var raw := RawDiff(yPast);
    var diff := new Num[n](i requires 0 <= i < n => raw[i]);
    var sizes := GroupSizes(yPast);
    SumGroupSizes(yPast);
    ghost var marked: set<int> := {};
    var pos, k := 0, 0;
    while k + 1 < |sizes|
      invariant k <= |sizes|
      invariant pos + Sum(sizes[k..]) == n
      invariant marked + Cuts(sizes[k..], pos) == Cuts(sizes, 0)
      invariant forall i :: 0 <= i < n ==> diff[i] == if i in marked then NaN else raw[i]
      decreases |sizes| - k
    {
      SumStep(sizes, k);
      SumStep(sizes, k + 1);
      assert sizes[k..][1..] == sizes[k + 1..];
      pos := pos + sizes[k];
      diff[pos] := NaN;
      marked := marked + {pos};
      k := k + 1;
    }
    assert diff[..] == Masked(raw, Cuts(sizes, 0));
    r := MeanPerGroup(GroupBy(Relabel(yPast, AbsAll(diff[..]))));
    if Contiguous(ItemsOf(yPast)) {
      MaskedIsBoundaryMasked(yPast);
      BoundaryMaskedMeaning(yPast);
    }
  }

  // ---------------------------------------------------------------- properties

  /** The naive-1 error of a series is a mean of absolute values: never negative. */
  lemma {:induction false} NaiveNeverNegative(v: seq<Num>)
    ensures NeverNegative(SeriesNaiveError(v))
  {
    MeanNeverNegative(AbsDiffs(v));
  }

  /** A series with a single past value has no change to average: its error is NaN. */
  lemma {:induction false} NaiveSingleValue(a: Num)
    ensures SeriesNaiveError([a]).NaN?
  {
    assert AbsDiffs([a]) == [];
  }

  /** A series with a constant finite past has error 0. */
  lemma {:induction false} NaiveConstant(v: seq<Num>, a: real)
    requires |v| >= 2 && forall j :: 0 <= j < |v| ==> v[j] == Fin(a)
    ensures SeriesNaiveError(v) == Fin(0.0)
  {
    var d := AbsDiffs(v);
    forall j | 0 <= j < |d| ensures d[j] == Fin(0.0) {
      assert v[j] == Fin(a) && v[j + 1] == Fin(a);
    }
    MeanOfZeros(d);
  }

  /** The series 1, 2, 3, 4 changes by 1 at every step: its error is 1. */
  lemma {:induction false} NaiveExample()
    ensures SeriesNaiveError([Fin(1.0), Fin(2.0), Fin(3.0), Fin(4.0)]) == Fin(1.0)
  {
    var v := [Fin(1.0), Fin(2.0), Fin(3.0), Fin(4.0)];
    assert AllFinite(v);
    var d := AbsDiffs(v);
    assert d == [Fin(1.0), Fin(1.0), Fin(1.0)];
    ThreeOnesSum();
  }

  lemma {:induction false} ThreeOnesSum()
    ensures FinSum([Fin(1.0), Fin(1.0), Fin(1.0)]) == 3.0
  {
    var d := [Fin(1.0), Fin(1.0), Fin(1.0)];
    assert d[1..] == [Fin(1.0), Fin(1.0)] && d[1..][1..] == [Fin(1.0)] && d[1..][1..][1..] == [];
  }
}
