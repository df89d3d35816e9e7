/** Splitting a data set: by rows into a baseline prefix and a production
    suffix, and by columns into the features and the target. */
module DataLoader {
  import opened Tables

  const DefaultTarget: string := "diagnosis"
  const DefaultBaselineRatio: real := 0.7

  /** Python's `int()` on a float: truncation toward zero. */
  function Truncate(x: real): (k: int)
    ensures 0.0 <= x ==> k as real <= x < k as real + 1.0
    ensures x < 0.0 ==> k as real - 1.0 < x <= k as real
  {
    if x >= 0.0 then x.Floor else -((-x).Floor)
  }

  /** The position that the slice bound `k` denotes in a sequence of length
      `n`: a negative bound counts from the end, and a bound out of range
      is clamped to the nearest end. */
  function SliceBound(k: int, n: nat): (b: nat)
    ensures b <= n
    ensures 0 <= k <= n ==> b == k
    ensures k < 0 ==> b == if n + k < 0 then 0 else n + k
    ensures n < k ==> b == n
  {
    if k < 0 then (if n + k < 0 then 0 else n + k)
    else if k > n then n
    else k
  }

  /** `int(len(df) * baseline_ratio)`. */
  function SplitIndex(n: nat, ratio: real): int {
    Truncate(n as real * ratio)
  }

  lemma SplitIndexInRange(n: nat, ratio: real)
    requires 0.0 <= ratio <= 1.0
    ensures SplitIndex(n, ratio) == (n as real * ratio).Floor
    ensures 0 <= SplitIndex(n, ratio) <= n
  {
    assert 0.0 <= n as real * ratio by {
      assert 0.0 * ratio <= n as real * ratio;
    }
    assert n as real * ratio <= n as real * 1.0;
  }

  /** The rows `lo .. hi` of a frame, every column kept (`df.iloc[lo:hi]`). */
  function RowRange(t: Table, lo: nat, hi: nat): (s: Table)
    requires t.Valid() && lo <= hi <= t.length
    ensures s.Valid() && s.columns == t.columns && s.length == hi - lo
    ensures forall c :: c in t.data ==> c in s.data && s.data[c] == t.data[c][lo..hi]
  {
    Table(t.columns, map c | c in t.data :: t.data[c][lo..hi], hi - lo)
  }

  /** Stacks the rows of `b` under those of `a`; both have the same columns. */
  function AppendRows(a: Table, b: Table): (s: Table)
    requires a.Valid() && b.Valid() && a.columns == b.columns
    ensures s.Valid() && s.columns == a.columns && s.length == a.length + b.length
  {
    Table(a.columns, map c | c in a.data :: a.data[c] + b.data[c], a.length + b.length)
  }

  /** Baseline: the first `int(len(df) * baseline_ratio)` rows; production:
      the remaining ones. The slice bound is interpreted as Python does, so
      a ratio outside [0, 1] is not an error. */
  function CreateBaselineAndProduction(df: Table, baselineRatio: real := DefaultBaselineRatio): (parts: (Table, Table))
    requires df.Valid()
    ensures parts.0.Valid() && parts.1.Valid()
    ensures parts.0.columns == df.columns && parts.1.columns == df.columns
    ensures parts.0.length + parts.1.length == df.length
    ensures 0.0 <= baselineRatio <= 1.0 ==> parts.0.length == (df.length as real * baselineRatio).Floor
  {
    var k := SliceBound(SplitIndex(df.length, baselineRatio), df.length);
    assert 0.0 <= baselineRatio <= 1.0 ==> k == (df.length as real * baselineRatio).Floor by {
      if 0.0 <= baselineRatio <= 1.0 {
        SplitIndexInRange(df.length, baselineRatio);
      }
    }
    (RowRange(df, 0, k), RowRange(df, k, df.length))
  }

  /** For a ratio in [0, 1] the baseline is exactly the rows before
      `floor(len * ratio)` and production exactly the rows from there on. */
  lemma SplitIsPrefixAndSuffix(df: Table, baselineRatio: real)
    requires df.Valid() && 0.0 <= baselineRatio <= 1.0
    ensures var k := (df.length as real * baselineRatio).Floor;
      var (baseline, production) := CreateBaselineAndProduction(df, baselineRatio);
      && 0 <= k <= df.length
      && forall c :: c in df.data ==>
           && c in baseline.data && baseline.data[c] == df.data[c][..k]
           && c in production.data && production.data[c] == df.data[c][k..]
  {
    SplitIndexInRange(df.length, baselineRatio);
  }

  /** Baseline followed by production is the original frame, for every
      ratio: no row is lost, duplicated or reordered. */
  lemma SplitRoundTrip(df: Table, baselineRatio: real)
    requires df.Valid()
    ensures var (baseline, production) := CreateBaselineAndProduction(df, baselineRatio);
      AppendRows(baseline, production) == df
  {
    var (baseline, production) := CreateBaselineAndProduction(df, baselineRatio);
    var k := SliceBound(SplitIndex(df.length, baselineRatio), df.length);
    var joined := AppendRows(baseline, production);
    forall c | c in df.data
      ensures joined.data[c] == df.data[c]
    {
      assert df.data[c][..k] + df.data[c][k..] == df.data[c];
    }
    assert joined.data == df.data;
  }

  /** `s` with every occurrence of `x` removed, order kept. */
  function Without(s: seq<string>, x: string): (r: seq<string>)
    ensures x !in r
    ensures forall y :: y != x ==> (y in r <==> y in s)
    ensures |r| <= |s|
  {
    if s == [] then []
    else (if s[0] == x then [] else [s[0]]) + Without(s[1..], x)
  }

  /** Removing a label that occurs once, at `i`, cuts out position `i`. */
  lemma {:induction false} WithoutAt(s: seq<string>, i: nat)
    requires Distinct(s) && i < |s|
    ensures Without(s, s[i]) == s[..i] + s[i + 1..]
  {
    if i == 0 {
      WithoutAbsent(s[1..], s[0]);
    } else {
      WithoutAt(s[1..], i - 1);
      assert s[1..][i - 1] == s[i];
      assert s[1..][..i - 1] + s[1..][i..] == s[1..i] + s[i + 1..];
      assert [s[0]] + s[1..i] == s[..i];
    }
  }

  lemma {:induction false} WithoutAbsent(s: seq<string>, x: string)
    requires x !in s
    ensures Without(s, x) == s
  {
    if s != [] {
      WithoutAbsent(s[1..], x);
      assert [s[0]] + s[1..] == s;
    }
  }

  /** `X = df.drop(columns=[target])`, `y = df[target]`; a missing target is
      a `KeyError`. */
  function SplitFeaturesTarget(df: Table, targetColumn: string := DefaultTarget): (r: Result<(Table, seq<real>)>)
    requires df.Valid()
    ensures r.Err? <==> targetColumn !in df.data
    ensures r.Err? ==> r.error == MissingColumn(targetColumn)
    ensures r.Ok? ==>
      var (x, y) := r.value;
      && x.Valid() && x.length == df.length
      && y == df.data[targetColumn]
      && targetColumn !in x.data && targetColumn !in x.columns
      && (forall c :: c in df.data && c != targetColumn ==> c in x.data && x.data[c] == df.data[c])
  {
    if targetColumn !in df.data then Err(MissingColumn(targetColumn))
    else
      var x := Table(Without(df.columns, targetColumn), df.data - {targetColumn}, df.length);
      DistinctWithout(df.columns, targetColumn);
      Ok((x, df.data[targetColumn]))
  }

  lemma {:induction false} DistinctWithout(s: seq<string>, x: string)
    requires Distinct(s)
    ensures Distinct(Without(s, x))
  {
    if s != [] {
      DistinctWithout(s[1..], x);
      var rest := Without(s[1..], x);
      assert s[0] !in rest by {
        assert s[0] !in s[1..];
      }
    }
  }

  /** Dropping the label at `i` and inserting it back at `i` gives the
      original labels. */
  lemma WithoutReinsert(s: seq<string>, i: nat)
    requires Distinct(s) && i < |s|
    ensures var w := Without(s, s[i]);
      i <= |w| && w[..i] + [s[i]] + w[i..] == s
  {
    WithoutAt(s, i);
    var w := Without(s, s[i]);
    assert w[..i] == s[..i];
    assert w[i..] == s[i + 1..];
  }

  lemma RestoreKey(m: map<string, seq<real>>, k: string)
    requires k in m
    ensures (m - {k})[k := m[k]] == m
  {
  }

  /** Inserts column `name` with `values` at position `i`. */
  function InsertColumn(t: Table, i: nat, name: string, values: seq<real>): Table
    requires i <= |t.columns|
  {
    Table(t.columns[..i] + [name] + t.columns[i..], t.data[name := values], t.length)
  }

  /** Putting the target back at its old position rebuilds the frame: the
      features keep the order of the original columns, and nothing but the
      target is removed. */
  lemma SplitFeaturesTargetRoundTrip(df: Table, targetColumn: string)
    requires df.Valid() && targetColumn in df.data
    ensures var (x, y) := SplitFeaturesTarget(df, targetColumn).value;
      exists i :: 0 <= i <= |x.columns| && InsertColumn(x, i, targetColumn, y) == df
  {
    var x := Table(Without(df.columns, targetColumn), df.data - {targetColumn}, df.length);
    var y := df.data[targetColumn];
    assert SplitFeaturesTarget(df, targetColumn) == Ok((x, y));
    var i :| 0 <= i < |df.columns| && df.columns[i] == targetColumn;
    WithoutReinsert(df.columns, i);
    RestoreKey(df.data, targetColumn);
    assert InsertColumn(x, i, targetColumn, y) == df;
  }
}
