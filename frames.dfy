/**
 * The data a validation call works on: a pandas-like data frame whose columns
 * are named sequences of cells, and the few pandas aggregates (sum, mean,
 * minimum, selection of rows by key) that the employee rules and the summary
 * are built from.
 */
module Frames {

  datatype Option<+T> = None | Some(value: T)

  /** A calendar date as stored in a datetime column. */
  datatype Date = Date(year: int, month: int, day: int)

  /** Timestamp comparison `a >= b`: year, then month, then day. */
  predicate OnOrAfter(a: Date, b: Date)
  {
    a.year > b.year
    || (a.year == b.year && (a.month > b.month || (a.month == b.month && a.day >= b.day)))
  }

  /** One cell of a frame: a typed value or the missing-value marker (None / NaN / NaT). */
  datatype Value = VInt(i: int) | VStr(s: string) | VReal(r: real) | VDate(d: Date) | VNull

  datatype RawFrame = RawFrame(nrows: nat, columns: map<string, seq<Value>>)

  /** Every column of a frame holds exactly one cell per row. */
  predicate Rectangular(f: RawFrame)
  {
    forall c :: c in f.columns ==> |f.columns[c]| == f.nrows
  }

  /** A data frame: `nrows` rows, columns looked up by name (extra columns are allowed). */
  type Frame = f: RawFrame | Rectangular(f) witness RawFrame(0, map[])

  /** `df.at[i, c] = v` on an existing column. */
  function SetCell(df: Frame, c: string, i: nat, v: Value): (r: Frame)
    requires c in df.columns && i < df.nrows
    ensures r.nrows == df.nrows && r.columns.Keys == df.columns.Keys
    ensures r.columns[c] == df.columns[c][i := v]
    ensures r.columns[c][i] == v
    ensures forall j :: 0 <= j < df.nrows && j != i ==> r.columns[c][j] == df.columns[c][j]
    ensures forall d :: d in df.columns && d != c ==> r.columns[d] == df.columns[d]
  {
    RawFrame(df.nrows, df.columns[c := df.columns[c][i := v]])
  }

  // ---------------------------------------------------------------------------
  // Numbers as pandas aggregates see them

  /** A float produced by an aggregate: a number, or NaN for the mean or minimum of nothing. */
  datatype Float = NaN | Num(v: real)

  /** The comparison `x >= k` on a float: false whenever x is NaN. */
  predicate AtLeast(x: Float, k: real)
  {
    x.Num? && x.v >= k
  }

  /** The numeric reading of a cell (ints are widened to floats). */
  function AsReal(v: Value): real
  {
    match v
    case VInt(i) => i as real
    case VReal(r) => r
    case _ => 0.0
  }

  /** The integer reading of a cell (non-integers read as 0). */
  function IntOf(v: Value): int
  {
    if v.VInt? then v.i else 0
  }

  /** The numbers of a column with missing cells dropped (pandas' skipna). */
  function Nums(vs: seq<Value>): (xs: seq<real>)
    ensures |xs| <= |vs|
    ensures xs == [] <==> forall i :: 0 <= i < |vs| ==> vs[i].VNull?
  {
    if vs == [] then []
    else
      var n := |vs| - 1;
      assert forall i :: 0 <= i < n ==> vs[..n][i] == vs[i];
      if vs[n].VNull? then Nums(vs[..n]) else Nums(vs[..n]) + [AsReal(vs[n])]
  }

  function Sum(xs: seq<real>): real
  {
    if xs == [] then 0.0 else Sum(xs[..|xs| - 1]) + xs[|xs| - 1]
  }

  /** `Series.mean()`: NaN on an empty series. */
  function Mean(xs: seq<real>): (m: Float)
    ensures m.Num? <==> |xs| > 0
  {
    if |xs| == 0 then NaN else Num(Sum(xs) / (|xs| as real))
  }

  /** `Series.min()`: NaN on an empty series, otherwise the least element. */
  function Min(xs: seq<real>): (m: Float)
    ensures m.Num? <==> |xs| > 0
    ensures m.Num? ==> m.v in xs && forall x :: x in xs ==> m.v <= x
  {
    if |xs| == 0 then NaN
    else
      var rest := Min(xs[1..]);
      assert forall x :: x in xs ==> x == xs[0] || x in xs[1..];
      if rest.NaN? || xs[0] <= rest.v then Num(xs[0]) else rest
  }

  /** The integer sum of a column (the sum of `IntOf` over its cells). */
  function IntTotal(vs: seq<Value>): int
  {
    if vs == [] then 0 else IntTotal(vs[..|vs| - 1]) + IntOf(vs[|vs| - 1])
  }

  /** The set of non-missing values of a column (`dropna()` seen as a set; the keys of a groupby). */
  function ValueSet(vs: seq<Value>): (s: set<Value>)
    ensures forall v :: v in s <==> v != VNull && v in vs
  {
    set i | 0 <= i < |vs| && !vs[i].VNull? :: vs[i]
  }

  /** `vs[keys.isin(s)]`: the cells of `vs` on the rows whose key lies in `s`, in row order. */
  function MemberValues(keys: seq<Value>, vs: seq<Value>, s: set<Value>): (r: seq<Value>)
    requires |keys| == |vs|
    ensures |r| <= |vs|
    ensures r == [] <==> forall i :: 0 <= i < |keys| ==> keys[i] !in s
  {
    if vs == [] then []
    else
      var n := |vs| - 1;
      assert forall i :: 0 <= i < n ==> keys[..n][i] == keys[i];
      MemberValues(keys[..n], vs[..n], s) + (if keys[n] in s then [vs[n]] else [])
  }

  /** The rows of `vs` carrying the group key `g` (one group of a groupby). */
  function Group(keys: seq<Value>, vs: seq<Value>, g: Value): (r: seq<Value>)
    requires |keys| == |vs|
  {
    MemberValues(keys, vs, {g})
  }

  /** `value_counts()[v]`: the number of rows whose cell equals `v`. */
  function Occurrences(vs: seq<Value>, v: Value): (k: nat)
    ensures k <= |vs|
    ensures k > 0 <==> v in vs
  {
    |Group(vs, vs, v)|
  }

  // ---------------------------------------------------------------------------
  // Facts about the aggregates

  lemma {:induction false} SumAppend(xs: seq<real>, ys: seq<real>)
    ensures Sum(xs + ys) == Sum(xs) + Sum(ys)
    decreases |ys|
  {
    if ys != [] {
      var n := |ys| - 1;
      assert (xs + ys)[..|xs + ys| - 1] == xs + ys[..n];
      assert (xs + ys)[|xs + ys| - 1] == ys[n];
      SumAppend(xs, ys[..n]);
    } else {
      assert xs + ys == xs;
    }
  }

  lemma {:induction false} NumsAppend(a: seq<Value>, b: seq<Value>)
    ensures Nums(a + b) == Nums(a) + Nums(b)
    decreases |b|
  {
    if b != [] {
      var n := |b| - 1;
      assert (a + b)[..|a + b| - 1] == a + b[..n];
      assert (a + b)[|a + b| - 1] == b[n];
      NumsAppend(a, b[..n]);
    } else {
      assert a + b == a;
    }
  }

  lemma {:induction false} IntTotalAppend(a: seq<Value>, b: seq<Value>)
    ensures IntTotal(a + b) == IntTotal(a) + IntTotal(b)
    decreases |b|
  {
    if b != [] {
      var n := |b| - 1;
      assert (a + b)[..|a + b| - 1] == a + b[..n];
      assert (a + b)[|a + b| - 1] == b[n];
      IntTotalAppend(a, b[..n]);
    } else {
      assert a + b == a;
    }
  }

  /** On a column of integers the float sum is the integer sum and no cell is dropped. */
  lemma {:induction false} NumsOfInts(vs: seq<Value>)
    requires forall i :: 0 <= i < |vs| ==> vs[i].VInt?
    ensures |Nums(vs)| == |vs|
    ensures Sum(Nums(vs)) == IntTotal(vs) as real
  {
    if vs != [] {
      var n := |vs| - 1;
      NumsOfInts(vs[..n]);
      SumAppend(Nums(vs[..n]), [AsReal(vs[n])]);
    }
  }

  /** The mean of an integer column with no missing cell is its total over its length. */
  lemma MeanOfInts(vs: seq<Value>)
    requires |vs| > 0 && forall i :: 0 <= i < |vs| ==> vs[i].VInt?
    ensures Mean(Nums(vs)) == Num((IntTotal(vs) as real) / (|vs| as real))
  {
    NumsOfInts(vs);
  }

  /** A series whose sum is an integer total of at least `k` per element averages at least `k`. */
  lemma TotalMeanAtLeast(xs: seq<real>, t: int, k: int)
    requires |xs| > 0 && Sum(xs) == t as real && t >= k * |xs|
    ensures AtLeast(Mean(xs), k as real)
  {
    IntBoundAsReal(t, |xs|, k);
    MeanAtLeast(xs, k as real);
  }

  /** An integer column whose total is at least `k` per row averages at least `k`. */
  lemma IntMeanAtLeast(vs: seq<Value>, k: int)
    requires |vs| > 0 && forall i :: 0 <= i < |vs| ==> vs[i].VInt?
    requires IntTotal(vs) >= k * |vs|
    ensures AtLeast(Mean(Nums(vs)), k as real)
  {
    NumsOfInts(vs);
    TotalMeanAtLeast(Nums(vs), IntTotal(vs), k);
  }

  /** With no missing cell, `Nums` keeps every row, in order. */
  lemma {:induction false} NumsOfPresent(vs: seq<Value>)
    requires forall i :: 0 <= i < |vs| ==> !vs[i].VNull?
    ensures |Nums(vs)| == |vs|
    ensures forall i :: 0 <= i < |vs| ==> Nums(vs)[i] == AsReal(vs[i])
  {
    if vs != [] {
      var n := |vs| - 1;
      NumsOfPresent(vs[..n]);
    }
  }

  /** A number of `Nums(vs)` is the reading of some non-missing cell. */
  lemma {:induction false} NumsMember(vs: seq<Value>, x: real)
    ensures x in Nums(vs) <==> exists i :: 0 <= i < |vs| && !vs[i].VNull? && AsReal(vs[i]) == x
  {
    if vs != [] {
      var n := |vs| - 1;
      NumsMember(vs[..n], x);
      if x in Nums(vs) && !(x in Nums(vs[..n])) {
        assert !vs[n].VNull? && AsReal(vs[n]) == x;
      }
      if exists i :: 0 <= i < |vs| && !vs[i].VNull? && AsReal(vs[i]) == x {
        var i :| 0 <= i < |vs| && !vs[i].VNull? && AsReal(vs[i]) == x;
        if i < n {
          assert vs[..n][i] == vs[i];
        }
      }
    }
  }

  /** A cell of `MemberValues(keys, vs, s)` is the cell of some row whose key lies in `s`, and conversely. */
  lemma {:induction false} MemberValuesMember(keys: seq<Value>, vs: seq<Value>, s: set<Value>, v: Value)
    requires |keys| == |vs|
    ensures v in MemberValues(keys, vs, s) <==> exists i :: 0 <= i < |vs| && keys[i] in s && vs[i] == v
  {
    if vs != [] {
      var n := |vs| - 1;
      MemberValuesMember(keys[..n], vs[..n], s, v);
      if exists i :: 0 <= i < |vs| && keys[i] in s && vs[i] == v {
        var i :| 0 <= i < |vs| && keys[i] in s && vs[i] == v;
        if i < n {
          assert keys[..n][i] == keys[i] && vs[..n][i] == vs[i];
        }
      }
    }
  }

  /** Selecting from a column that has no missing cells keeps it free of missing cells. */
  lemma MemberValuesKind(keys: seq<Value>, vs: seq<Value>, s: set<Value>, ints: bool)
    requires |keys| == |vs|
    requires forall i :: 0 <= i < |vs| ==> !vs[i].VNull? && (ints ==> vs[i].VInt?)
    ensures forall j :: 0 <= j < |MemberValues(keys, vs, s)| ==>
      !MemberValues(keys, vs, s)[j].VNull? && (ints ==> MemberValues(keys, vs, s)[j].VInt?)
  {
    forall j | 0 <= j < |MemberValues(keys, vs, s)|
      ensures !MemberValues(keys, vs, s)[j].VNull? && (ints ==> MemberValues(keys, vs, s)[j].VInt?)
    {
      MemberValuesMember(keys, vs, s, MemberValues(keys, vs, s)[j]);
    }
  }

  /** The mean of a non-empty series meets a threshold exactly when its sum meets the threshold times its size. */
  lemma MeanAtLeast(xs: seq<real>, k: real)
    ensures AtLeast(Mean(xs), k) <==> |xs| > 0 && Sum(xs) >= k * (|xs| as real)
  {
    if |xs| > 0 {
      var n := |xs| as real;
      var m := Sum(xs) / n;
      assert Sum(xs) == m * n;
      if m >= k {
        assert m * n >= k * n;
      } else {
        assert m * n < k * n;
      }
    }
  }

  /** The minimum of a series meets a threshold exactly when the series is non-empty and every element meets it. */
  lemma MinAtLeast(xs: seq<real>, k: real)
    ensures AtLeast(Min(xs), k) <==> |xs| > 0 && forall x :: x in xs ==> x >= k
  {
  }

  lemma {:induction false} SumBounds(xs: seq<real>, lo: real, hi: real)
    requires forall x :: x in xs ==> lo <= x <= hi
    ensures lo * (|xs| as real) <= Sum(xs) <= hi * (|xs| as real)
  {
    if xs != [] {
      var n := |xs| - 1;
      assert forall x :: x in xs[..n] ==> x in xs;
      SumBounds(xs[..n], lo, hi);
      assert xs[n] in xs;
    }
  }

  /** The mean of a non-empty series of values in `[lo, hi]` lies in `[lo, hi]`. */
  lemma MeanBounds(xs: seq<real>, lo: real, hi: real)
    requires |xs| > 0
    requires forall x :: x in xs ==> lo <= x <= hi
    ensures Mean(xs).Num? && lo <= Mean(xs).v <= hi
  {
    SumBounds(xs, lo, hi);
    var n := |xs| as real;
    var m := Sum(xs) / n;
    assert Sum(xs) == m * n;
    if m < lo {
      assert m * n < lo * n;
    }
    if m > hi {
      assert m * n > hi * n;
    }
  }

  // ---------------------------------------------------------------------------
  // Partitioning a column by a key column (groupby)

  predicate NoDuplicates<T(==)>(e: seq<T>)
  {
    forall i, j :: 0 <= i < j < |e| ==> e[i] != e[j]
  }

  /** The sum, over the keys listed in `e`, of each group's integer total. */
  function GroupTotals(keys: seq<Value>, vs: seq<Value>, e: seq<Value>): int
    requires |keys| == |vs|
  {
    if e == [] then 0 else IntTotal(Group(keys, vs, e[0])) + GroupTotals(keys, vs, e[1..])
  }

  /** The sum, over the keys listed in `e`, of each group's size. */
  function GroupSizes(keys: seq<Value>, vs: seq<Value>, e: seq<Value>): int
    requires |keys| == |vs|
  {
    if e == [] then 0 else |Group(keys, vs, e[0])| + GroupSizes(keys, vs, e[1..])
  }

  /** Appending one row adds its cell to the group of its key and to no other. */
  lemma GroupSnoc(keys: seq<Value>, vs: seq<Value>, k: Value, v: Value, g: Value)
    requires |keys| == |vs|
    ensures Group(keys + [k], vs + [v], g) == Group(keys, vs, g) + (if k == g then [v] else [])
  {
    assert (keys + [k])[..|keys|] == keys;
    assert (vs + [v])[..|vs|] == vs;
  }

  lemma {:induction false} GroupSumsSnoc(keys: seq<Value>, vs: seq<Value>, k: Value, v: Value, e: seq<Value>)
    requires |keys| == |vs|
    requires NoDuplicates(e)
    ensures GroupTotals(keys + [k], vs + [v], e) == GroupTotals(keys, vs, e) + (if k in e then IntOf(v) else 0)
    ensures GroupSizes(keys + [k], vs + [v], e) == GroupSizes(keys, vs, e) + (if k in e then 1 else 0)
  {
    if e != [] {
      GroupSnoc(keys, vs, k, v, e[0]);
      IntTotalAppend(Group(keys, vs, e[0]), if k == e[0] then [v] else []);
      GroupSumsSnoc(keys, vs, k, v, e[1..]);
      assert k in e <==> k == e[0] || k in e[1..];
      assert k == e[0] ==> k !in e[1..];
    }
  }

  /**
   * Summing the groups over any duplicate-free listing of the keys that occur
   * gives back the whole column: the groups partition the rows.
   */
  lemma {:induction false} GroupsPartition(keys: seq<Value>, vs: seq<Value>, e: seq<Value>)
    requires |keys| == |vs|
    requires NoDuplicates(e)
    requires forall i :: 0 <= i < |keys| ==> keys[i] in e
    ensures GroupTotals(keys, vs, e) == IntTotal(vs)
    ensures GroupSizes(keys, vs, e) == |vs|
    decreases |vs|
  {
    if vs == [] {
      EmptyGroups(e);
    } else {
      var n := |vs| - 1;
      GroupsPartition(keys[..n], vs[..n], e);
      assert keys[..n] + [keys[n]] == keys && vs[..n] + [vs[n]] == vs;
      GroupSumsSnoc(keys[..n], vs[..n], keys[n], vs[n], e);
    }
  }

  lemma {:induction false} EmptyGroups(e: seq<Value>)
    ensures GroupTotals([], [], e) == 0 && GroupSizes([], [], e) == 0
  {
    if e != [] {
      EmptyGroups(e[1..]);
    }
  }

  /** If every listed group's total reaches `k` times its size, so does the sum over them. */
  lemma {:induction false} GroupTotalsAtLeast(keys: seq<Value>, vs: seq<Value>, e: seq<Value>, k: int)
    requires |keys| == |vs|
    requires forall g :: g in e ==> IntTotal(Group(keys, vs, g)) >= k * |Group(keys, vs, g)|
    ensures GroupTotals(keys, vs, e) >= k * GroupSizes(keys, vs, e)
  {
    if e != [] {
      var t0, s0 := IntTotal(Group(keys, vs, e[0])), |Group(keys, vs, e[0])|;
      assert e[0] in e;
      assert t0 >= k * s0;
      assert forall g :: g in e[1..] ==> g in e;
      GroupTotalsAtLeast(keys, vs, e[1..], k);
      AddBounds(t0, s0, GroupTotals(keys, vs, e[1..]), GroupSizes(keys, vs, e[1..]), k);
    }
  }

  lemma IntBoundAsReal(t: int, n: int, k: int)
    requires t >= k * n
    ensures t as real >= (k as real) * (n as real)
  {
  }

  lemma AddBounds(t0: int, s0: int, t1: int, s1: int, k: int)
    requires t0 >= k * s0 && t1 >= k * s1
    ensures t0 + t1 >= k * (s0 + s1)
  {
    assert k * (s0 + s1) == k * s0 + k * s1;
  }

  /** The keys of a groupby: the non-missing values of a column, each once, in order of first appearance. */
  function Distinct(vs: seq<Value>): (e: seq<Value>)
    ensures NoDuplicates(e)
    ensures forall v :: v in e <==> v in ValueSet(vs)
  {
    if vs == [] then []
    else
      var n := |vs| - 1;
      var d := Distinct(vs[..n]);
      assert forall v :: v in vs <==> v in vs[..n] || v == vs[n];
      if vs[n] in d || vs[n].VNull? then d else d + [vs[n]]
  }
}
