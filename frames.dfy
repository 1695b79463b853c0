/**
 * Multi-series tables (TimeSeriesDataFrame): a row index of (item id, time stamp) keys and
 * named columns of values, one value per row; and the split of every series into its past
 * (all but the last `prediction_length` rows) and its future (the last `prediction_length`
 * rows), as `slice_by_timestep(None, -prediction_length)` and
 * `slice_by_timestep(-prediction_length, None)` do with Python slice rules per series.
 */
module Frames {
  import opened Wrappers
  import opened Numeric
  import opened Grouping

  /** One row label: the series it belongs to and its time stamp. */
  datatype Key = Key(item: ItemId, timestamp: int)

  datatype Column = Column(name: string, values: seq<Num>)

  datatype Frame = Frame(index: seq<Key>, columns: seq<Column>)

  /** Every column holds one value per row. */
  predicate WellFormed(f: Frame) {
    forall j :: 0 <= j < |f.columns| ==> |f.columns[j].values| == |f.index|
  }

  function KeyItems(index: seq<Key>): (xs: seq<ItemId>)
    ensures |xs| == |index| && forall i :: 0 <= i < |index| ==> xs[i] == index[i].item
  {
    if index == [] then [] else [index[0].item] + KeyItems(index[1..])
  }

  function Names(cols: seq<Column>): (ns: seq<string>)
    ensures |ns| == |cols| && forall j :: 0 <= j < |cols| ==> ns[j] == cols[j].name
  {
    if cols == [] then [] else [cols[0].name] + Names(cols[1..])
  }

  /** The position of the first column called `name`, or |cols| when there is none. */
  function ColumnIndex(cols: seq<Column>, name: string): (j: nat)
    ensures j <= |cols|
    ensures j < |cols| <==> name in Names(cols)
    ensures j < |cols| ==> cols[j].name == name
  {
    if cols == [] then 0 else if cols[0].name == name then 0 else 1 + ColumnIndex(cols[1..], name)
  }

  /** `frame[name]`: the values of the column called `name`, or nothing (a KeyError). */
  function GetColumn(f: Frame, name: string): (r: Option<seq<Num>>)
    ensures r.Some? <==> name in Names(f.columns)
    ensures r.Some? && WellFormed(f) ==> |r.value| == |f.index|
  {
    var j := ColumnIndex(f.columns, name);
    if j < |f.columns| then Some(f.columns[j].values) else None
  }

  /** A column as a series: every value labelled with the series of its row. */
  function Zip(index: seq<Key>, values: seq<Num>): (s: seq<Obs>)
    requires |values| == |index|
    ensures |s| == |index| && forall i :: 0 <= i < |s| ==> s[i] == Obs(index[i].item, values[i])
  {
    seq(|index|, i requires 0 <= i < |index| => Obs(index[i].item, values[i]))
  }

  /** `frame[name]` as a series over the frame's rows. */
  function SeriesOf(f: Frame, name: string): (s: seq<Obs>)
    requires WellFormed(f) && name in Names(f.columns)
    ensures ItemsOf(s) == KeyItems(f.index)
    ensures |s| == |f.index| && forall i :: 0 <= i < |s| ==> s[i].value == GetColumn(f, name).value[i]
  {
    var s := Zip(f.index, GetColumn(f, name).value);
    assert ItemsOf(s) == KeyItems(f.index);
    s
  }

  /** The number of rows of each series equals `n` (`(num_timesteps_per_item() == n).all()`). */
  predicate AllSeriesHaveLength(index: seq<Key>, n: int) {
    forall i :: 0 <= i < |index| ==> Count(KeyItems(index), index[i].item) == n
  }

  // ---------------------------------------------------------------- row selection

  /** The number of rows of series `x`. */
  function Count(xs: seq<ItemId>, x: ItemId): nat {
    if xs == [] then 0 else Count(xs[..|xs| - 1], x) + (if xs[|xs| - 1] == x then 1 else 0)
  }

  /** The number of rows a mask keeps. */
  function Trues(m: seq<bool>): nat {
    if m == [] then 0 else Trues(m[..|m| - 1]) + (if m[|m| - 1] then 1 else 0)
  }

  /** The entries of `s` whose mask entry is true, in order. */
  function Select<T>(s: seq<T>, m: seq<bool>): (r: seq<T>)
    requires |m| == |s|
    ensures |r| == Trues(m)
  {
    if s == [] then []
    else
      var n := |s| - 1;
      Select(s[..n], m[..n]) + (if m[n] then [s[n]] else [])
  }

  function Not(m: seq<bool>): (r: seq<bool>)
    ensures |r| == |m| && forall i :: 0 <= i < |m| ==> r[i] == !m[i]
  {
    seq(|m|, i requires 0 <= i < |m| => !m[i])
  }

  /** The rows of `f` whose mask entry is true, in every column alike. */
  function SliceRows(f: Frame, m: seq<bool>): (g: Frame)
    requires WellFormed(f) && |m| == |f.index|
    ensures WellFormed(g) && Names(g.columns) == Names(f.columns)
    ensures g.index == Select(f.index, m)
  {
    var cols := seq(|f.columns|, j requires 0 <= j < |f.columns| =>
      Column(f.columns[j].name, Select(f.columns[j].values, m)));
    assert Names(cols) == Names(f.columns);
    Frame(Select(f.index, m), cols)
  }

  /**
   * The boundary that `[:-pl]` and `[-pl:]` share in a series of `count` rows: a negative
   * slice bound counts from the end and is clipped at the start; `-0` is the bound 0.
   */
  function Cut(count: nat, pl: int): (c: nat)
    ensures c <= count
    ensures 0 < pl <= count ==> c == count - pl
    ensures pl >= count ==> c == 0
    ensures pl <= 0 ==> c == if count < -pl then count else -pl
  {
    var b := -pl;
    if b < 0 then (if count + b < 0 then 0 else count + b)
    else if b > count then count else b
  }

  /**
   * The rows kept when every series keeps its first `c` rows: a row is kept when fewer than
   * `c` earlier rows belong to its series.
   */
  function RankMask(xs: seq<ItemId>, c: ItemId -> int): (m: seq<bool>)
    ensures |m| == |xs|
  {
    if xs == [] then []
    else
      var n := |xs| - 1;
      RankMask(xs[..n], c) + [Count(xs[..n], xs[n]) < c(xs[n])]
  }

  /** Where each series of `items` is cut: `Cut` of its number of rows. */
  function Boundaries(items: seq<ItemId>, pl: int): ItemId -> int {
    x => Cut(Count(items, x), pl)
  }

  /** The rows of the past: of every series, the rows before its cut. */
  function PastMask(items: seq<ItemId>, pl: int): (m: seq<bool>)
    ensures |m| == |items|
  {
    RankMask(items, Boundaries(items, pl))
  }

  /** `data.slice_by_timestep(None, -prediction_length)`. */
  function PastOf(f: Frame, pl: int): (g: Frame)
    requires WellFormed(f)
    ensures WellFormed(g) && Names(g.columns) == Names(f.columns)
    ensures Contiguous(KeyItems(f.index)) ==> Contiguous(KeyItems(g.index))
  {
    var m := PastMask(KeyItems(f.index), pl);
    SelectItems(f.index, m);
    SelectContiguous(KeyItems(f.index), m);
    SliceRows(f, m)
  }

  /** `data.slice_by_timestep(-prediction_length, None)`. */
  function FutureOf(f: Frame, pl: int): (g: Frame)
    requires WellFormed(f)
    ensures WellFormed(g) && Names(g.columns) == Names(f.columns)
    ensures Contiguous(KeyItems(f.index)) ==> Contiguous(KeyItems(g.index))
  {
    var m := Not(PastMask(KeyItems(f.index), pl));
    SelectItems(f.index, m);
    SelectContiguous(KeyItems(f.index), m);
    SliceRows(f, m)
  }

  // ---------------------------------------------------------------- lemmas on selection

  function Clamp(n: int, len: nat): (c: nat)
    ensures c <= len
  {
    if n < 0 then 0 else if n > len then len else n
  }

  lemma {:induction false} ValuesOfAppend(a: seq<Obs>, b: seq<Obs>, x: ItemId)
    ensures ValuesOf(a + b, x) == ValuesOf(a, x) + ValuesOf(b, x)
  {
    if a != [] {
      assert (a + b)[0] == a[0];
      assert (a + b)[1..] == a[1..] + b;
      ValuesOfAppend(a[1..], b, x);
      calc {
        ValuesOf(a + b, x);
        (if a[0].item == x then [a[0].value] else []) + ValuesOf(a[1..] + b, x);
        (if a[0].item == x then [a[0].value] else []) + (ValuesOf(a[1..], x) + ValuesOf(b, x));
      }
    } else {
      assert a + b == b;
    }
  }

  lemma {:induction false} CountValues(s: seq<Obs>, x: ItemId)
    ensures |ValuesOf(s, x)| == Count(ItemsOf(s), x)
  {
    if s != [] {
      var n := |s| - 1;
      assert s == s[..n] + [s[n]];
      CountValues(s[..n], x);
      ValuesOfAppend(s[..n], [s[n]], x);
      PrefixItems(s, n);
    }
  }

  lemma {:induction false} PrefixItems(s: seq<Obs>, n: nat)
    requires n <= |s|
    ensures ItemsOf(s)[..n] == ItemsOf(s[..n])
  {
  }

  /** One more row of series `x` extends its kept prefix or its dropped suffix. */
  lemma {:induction false} TakeDropStep(v: seq<Num>, a: Num, k: int)
    ensures |v| < k ==> v[..Clamp(k, |v|)] + [a] == (v + [a])[..Clamp(k, |v| + 1)]
    ensures |v| < k ==> v[Clamp(k, |v|)..] == (v + [a])[Clamp(k, |v| + 1)..]
    ensures |v| >= k ==> v[..Clamp(k, |v|)] == (v + [a])[..Clamp(k, |v| + 1)]
    ensures |v| >= k ==> v[Clamp(k, |v|)..] + [a] == (v + [a])[Clamp(k, |v| + 1)..]
  {
  }

  /**
   * Keeping the rows whose rank within their series is below `c` of that series keeps, of
   * every series, exactly its first `c` values; dropping them keeps the rest.
   */
  lemma {:induction false} SelectValues(s: seq<Obs>, c: ItemId -> int, x: ItemId)
    ensures var m := RankMask(ItemsOf(s), c);
      && ValuesOf(Select(s, m), x) == ValuesOf(s, x)[..Clamp(c(x), |ValuesOf(s, x)|)]
      && ValuesOf(Select(s, Not(m)), x) == ValuesOf(s, x)[Clamp(c(x), |ValuesOf(s, x)|)..]
  {
    SelectValuesKept(s, c, x);
    SelectValuesDropped(s, c, x);
  }

  /** The kept half of `SelectValues`. */
  lemma {:induction false} SelectValuesKept(s: seq<Obs>, c: ItemId -> int, x: ItemId)
    ensures ValuesOf(Select(s, RankMask(ItemsOf(s), c)), x)
         == ValuesOf(s, x)[..Clamp(c(x), |ValuesOf(s, x)|)]
  {
    if s != [] {
      var n := |s| - 1;
      var p, o := s[..n], s[n];
      assert s == p + [o];
      PrefixItems(s, n);
      var mp := RankMask(ItemsOf(p), c);
      var b := Count(ItemsOf(p), o.item) < c(o.item);
      assert RankMask(ItemsOf(s), c) == mp + [b];
      SelectValuesKept(p, c, x);
      SelectSnocValues(p, o, mp, b, x);
      ValuesSnoc(p, o, x, c);
    } else {
      assert ValuesOf(s, x) == [];
    }
  }

  /** The dropped half of `SelectValues`. */
  lemma {:induction false} SelectValuesDropped(s: seq<Obs>, c: ItemId -> int, x: ItemId)
    ensures ValuesOf(Select(s, Not(RankMask(ItemsOf(s), c))), x)
         == ValuesOf(s, x)[Clamp(c(x), |ValuesOf(s, x)|)..]
  {
    if s != [] {
      var n := |s| - 1;
      var p, o := s[..n], s[n];
      assert s == p + [o];
      PrefixItems(s, n);
      var mp := RankMask(ItemsOf(p), c);
      var b := Count(ItemsOf(p), o.item) < c(o.item);
      assert RankMask(ItemsOf(s), c) == mp + [b];
      NotSnoc(mp, b);
      SelectValuesDropped(p, c, x);
      SelectSnocValues(p, o, Not(mp), !b, x);
      ValuesSnoc(p, o, x, c);
    } else {
      assert ValuesOf(s, x) == [];
    }
  }

  /** Appending one row to a selection adds its value to its own series when it is kept. */
  lemma {:induction false} SelectSnocValues(p: seq<Obs>, o: Obs, mp: seq<bool>, b: bool, x: ItemId)
    requires |mp| == |p|
    ensures ValuesOf(Select(p + [o], mp + [b]), x)
         == ValuesOf(Select(p, mp), x) + (if b && o.item == x then [o.value] else [])
  {
    SelectSnoc(p, o, mp, b);
    var kept := if b then [o] else [];
    ValuesOfAppend(Select(p, mp), kept, x);
    assert ValuesOf(kept, x) == (if b && o.item == x then [o.value] else []);
  }

  /**
   * The first `c` values of a series grow by the appended row exactly when the row belongs to
   * the series and fewer than `c` of its rows came before; otherwise the remainder grows.
   */
  lemma {:induction false} ValuesSnoc(p: seq<Obs>, o: Obs, x: ItemId, c: ItemId -> int)
    ensures var v, b := ValuesOf(p, x), Count(ItemsOf(p), o.item) < c(o.item);
      && ValuesOf(p + [o], x)[..Clamp(c(x), |ValuesOf(p + [o], x)|)]
         == v[..Clamp(c(x), |v|)] + (if b && o.item == x then [o.value] else [])
      && ValuesOf(p + [o], x)[Clamp(c(x), |ValuesOf(p + [o], x)|)..]
         == v[Clamp(c(x), |v|)..] + (if !b && o.item == x then [o.value] else [])
  {
    var v := ValuesOf(p, x);
    ValuesOfAppend(p, [o], x);
    if o.item == x {
      CountValues(p, x);
      assert ValuesOf([o], x) == [o.value];
      TakeDropStep(v, o.value, c(x));
    } else {
      assert ValuesOf([o], x) == [];
      assert ValuesOf(p + [o], x) == v;
    }
  }

  lemma {:induction false} SelectSnoc<T>(p: seq<T>, o: T, mp: seq<bool>, b: bool)
    requires |mp| == |p|
    ensures Select(p + [o], mp + [b]) == Select(p, mp) + (if b then [o] else [])
  {
    var s, m := p + [o], mp + [b];
    assert s[..|p|] == p && m[..|p|] == mp;
  }

  lemma {:induction false} NotSnoc(mp: seq<bool>, b: bool)
    ensures Not(mp + [b]) == Not(mp) + [!b]
  {
  }

  lemma {:induction false} SelectItems(index: seq<Key>, m: seq<bool>)
    requires |m| == |index|
    ensures KeyItems(Select(index, m)) == Select(KeyItems(index), m)
  {
    if index != [] {
      var n := |index| - 1;
      var p, o, mp, b := index[..n], index[n], m[..n], m[n];
      assert index == p + [o] && m == mp + [b];
      SelectItems(p, mp);
      var t := if b then [o] else [];
      SelectSnoc(p, o, mp, b);
      KeyItemsSnoc(p, o);
      SelectSnoc(KeyItems(p), o.item, mp, b);
      assert KeyItems(Select(p, mp) + t) == KeyItems(Select(p, mp)) + KeyItems(t);
      assert KeyItems(t) == if b then [o.item] else [];
    }
  }

  lemma {:induction false} KeyItemsSnoc(p: seq<Key>, o: Key)
    ensures KeyItems(p + [o]) == KeyItems(p) + [o.item]
  {
  }


  lemma {:induction false} SelectZip(index: seq<Key>, v: seq<Num>, m: seq<bool>)
    requires |v| == |index| == |m|
    ensures |Select(v, m)| == |Select(index, m)|
    ensures Zip(Select(index, m), Select(v, m)) == Select(Zip(index, v), m)
  {
    if index != [] {
      var n := |index| - 1;
      assert Zip(index, v)[..n] == Zip(index[..n], v[..n]);
      SelectZip(index[..n], v[..n], m[..n]);
    }
  }

  /** A row kept by a mask belongs to a series of the original rows. */
  lemma {:induction false} SelectSubset<T>(s: seq<T>, m: seq<bool>)
    requires |m| == |s|
    ensures forall k :: 0 <= k < |Select(s, m)| ==> Select(s, m)[k] in s
  {
    if s != [] {
      var n := |s| - 1;
      SelectSubset(s[..n], m[..n]);
      forall k | 0 <= k < |Select(s, m)| ensures Select(s, m)[k] in s {
        if k < |Select(s[..n], m[..n])| {
          assert Select(s, m)[k] == Select(s[..n], m[..n])[k];
          assert Select(s, m)[k] in s[..n];
        } else {
          assert Select(s, m)[k] == s[n];
        }
      }
    }
  }

  /** The rows of a series that a rank mask keeps: its first `c`, or all when it has fewer. */
  lemma {:induction false} SelectCount(xs: seq<ItemId>, c: ItemId -> int, x: ItemId)
    ensures var m := RankMask(xs, c);
      && Count(Select(xs, m), x) == Clamp(c(x), Count(xs, x))
      && Count(Select(xs, Not(m)), x) == Count(xs, x) - Clamp(c(x), Count(xs, x))
  {
    var m := RankMask(xs, c);
    if xs != [] {
      var n := |xs| - 1;
      var p, y := xs[..n], xs[n];
      var mp := RankMask(p, c);
      assert m == mp + [Count(p, y) < c(y)];
      assert m[..n] == mp;
      assert Not(m)[..n] == Not(mp);
      SelectCount(p, c, x);
      var kept, dropped := Select(xs, m), Select(xs, Not(m));
      assert kept == Select(p, mp) + (if m[n] then [y] else []);
      assert dropped == Select(p, Not(mp)) + (if m[n] then [] else [y]);
      if m[n] {
        assert kept[..|kept| - 1] == Select(p, mp) && kept[|kept| - 1] == y;
        assert Count(kept, x) == Count(Select(p, mp), x) + (if y == x then 1 else 0);
        assert dropped == Select(p, Not(mp));
      } else {
        assert kept == Select(p, mp);
        assert dropped[..|dropped| - 1] == Select(p, Not(mp)) && dropped[|dropped| - 1] == y;
        assert Count(dropped, x) == Count(Select(p, Not(mp)), x) + (if y == x then 1 else 0);
      }
      assert Count(xs, x) == Count(p, x) + (if y == x then 1 else 0);
      if y == x {
        assert m[n] == (Count(p, x) < c(x));
        assert Count(kept, x) == Clamp(c(x), Count(xs, x));
      } else {
        assert Count(kept, x) == Clamp(c(x), Count(xs, x));
      }
    } else {
      assert Select(xs, m) == [] && Select(xs, Not(m)) == [];
    }
  }

  // ---------------------------------------------------------------- the past / future split

  lemma {:induction false} ColumnIndexByNames(a: seq<Column>, b: seq<Column>, name: string)
    requires Names(a) == Names(b)
    ensures ColumnIndex(a, name) == ColumnIndex(b, name)
  {
    if a != [] {
      assert Names(a[1..]) == Names(a)[1..] && Names(b[1..]) == Names(b)[1..];
      ColumnIndexByNames(a[1..], b[1..], name);
    }
  }

  lemma {:induction false} SliceSeries(f: Frame, m: seq<bool>, name: string)
    requires WellFormed(f) && |m| == |f.index| && name in Names(f.columns)
    ensures SeriesOf(SliceRows(f, m), name) == Select(SeriesOf(f, name), m)
  {
    var g := SliceRows(f, m);
    ColumnIndexByNames(f.columns, g.columns, name);
    SelectZip(f.index, GetColumn(f, name).value, m);
  }

  /** The past and the future of a column are the rows its rank mask keeps and drops. */
  lemma {:induction false} SplitSeries(f: Frame, pl: int, name: string)
    requires WellFormed(f) && name in Names(f.columns)
    ensures var s := SeriesOf(f, name);
      var m := RankMask(ItemsOf(s), Boundaries(KeyItems(f.index), pl));
      && SeriesOf(PastOf(f, pl), name) == Select(s, m)
      && SeriesOf(FutureOf(f, pl), name) == Select(s, Not(m))
  {
    var m := PastMask(KeyItems(f.index), pl);
    assert PastOf(f, pl) == SliceRows(f, m);
    assert FutureOf(f, pl) == SliceRows(f, Not(m));
    SliceSeries(f, m, name);
    SliceSeries(f, Not(m), name);
  }

  /**
   * Splitting at `prediction_length`: the past of every series is its first `Cut` values,
   * the future the remaining ones, and the two together give back the series.
   */
  lemma {:induction false} PastFutureSplit(f: Frame, pl: int, name: string, x: ItemId)
    requires WellFormed(f) && name in Names(f.columns)
    ensures var v := ValuesOf(SeriesOf(f, name), x);
      && ValuesOf(SeriesOf(PastOf(f, pl), name), x) == v[..Cut(|v|, pl)]
      && ValuesOf(SeriesOf(FutureOf(f, pl), name), x) == v[Cut(|v|, pl)..]
      && ValuesOf(SeriesOf(PastOf(f, pl), name), x) + ValuesOf(SeriesOf(FutureOf(f, pl), name), x) == v
  {
    var s := SeriesOf(f, name);
    var b := Boundaries(KeyItems(f.index), pl);
    var v := ValuesOf(s, x);
    var m := RankMask(ItemsOf(s), b);
    var c := Cut(|v|, pl);
    SplitSeries(f, pl, name);
    SelectValues(s, b, x);
    CountValues(s, x);
    assert b(x) == c == Clamp(b(x), |v|);
    var past := ValuesOf(SeriesOf(PastOf(f, pl), name), x);
    var future := ValuesOf(SeriesOf(FutureOf(f, pl), name), x);
    assert past == ValuesOf(Select(s, m), x) == v[..c];
    assert future == ValuesOf(Select(s, Not(m)), x) == v[c..];
    TakeDrop(v, c);
  }

  lemma {:induction false} TakeDrop(v: seq<Num>, c: nat)
    requires c <= |v|
    ensures v[..c] + v[c..] == v
  {
  }

  /**
   * When every series has at least `prediction_length` rows (and that length is positive),
   * every series of the future part has exactly `prediction_length` rows.
   */
  lemma {:induction false} FutureSeriesLength(f: Frame, pl: int)
    requires WellFormed(f) && pl > 0
    requires forall i :: 0 <= i < |f.index| ==> Count(KeyItems(f.index), f.index[i].item) >= pl
    ensures AllSeriesHaveLength(FutureOf(f, pl).index, pl)
  {
    var xs := KeyItems(f.index);
    var m := PastMask(xs, pl);
    var idx := FutureOf(f, pl).index;
    SelectItems(f.index, Not(m));
    SelectSubset(xs, Not(m));
    forall i | 0 <= i < |idx| ensures Count(KeyItems(idx), idx[i].item) == pl {
      var x := idx[i].item;
      assert KeyItems(idx)[i] == x;
      assert x in xs;
      var j :| 0 <= j < |xs| && xs[j] == x;
      assert f.index[j].item == x;
      SelectCount(xs, Boundaries(xs, pl), x);
    }
  }

  // ---------------------------------------------------------------- contiguity

  lemma {:induction false} SelectFront<T>(s: seq<T>, m: seq<bool>)
    requires |m| == |s| && s != []
    ensures Select(s, m) == (if m[0] then [s[0]] else []) + Select(s[1..], m[1..])
  {
    var n := |s| - 1;
    if n > 0 {
      SelectFront(s[..n], m[..n]);
      assert s[..n][1..] == s[1..][..n - 1];
      assert m[..n][1..] == m[1..][..n - 1];
    }
  }

  /** When the first series of a contiguous sequence keeps a row, the first kept row is one of its. */
  lemma {:induction false} SelectHead(xs: seq<ItemId>, m: seq<bool>)
    requires |m| == |xs| && Contiguous(xs) && xs != [] && xs[0] in Select(xs, m)
    ensures Select(xs, m)[0] == xs[0]
  {
    SelectFront(xs, m);
    if !m[0] {
      SelectSubset(xs[1..], m[1..]);
      assert xs[0] in xs[1..];
      SelectHead(xs[1..], m[1..]);
    }
  }

  /** Selecting rows keeps every series in one block. */
  lemma {:induction false} SelectContiguous(xs: seq<ItemId>, m: seq<bool>)
    requires |m| == |xs|
    ensures Contiguous(xs) ==> Contiguous(Select(xs, m))
  {
    if xs != [] && Contiguous(xs) {
      SelectFront(xs, m);
      var t := Select(xs[1..], m[1..]);
      SelectContiguous(xs[1..], m[1..]);
      if m[0] {
        var r := [xs[0]] + t;
        assert r[1..] == t;
        if xs[0] in t {
          SelectSubset(xs[1..], m[1..]);
          assert xs[0] in xs[1..];
          SelectHead(xs[1..], m[1..]);
          assert r[1] == t[0];
        }
        assert Contiguous(r);
      } else {
        assert Select(xs, m) == t;
      }
    } else if xs == [] {
      assert Select(xs, m) == [];
    }
  }
}
