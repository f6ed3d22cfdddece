/**
 * The static helpers over a finished spectrogram (a sequence of spectra):
 * flattening, the global extrema, and the interquartile clipping filter.
 */
module Aggregate {
  import opened Wrappers

  // ---------------------------------------------------------------------
  // __reduce, __extrema, maxApplitude, minApplitude
  // ---------------------------------------------------------------------

  /** `__reduce`: the rows one after another. */
  function Flatten(rows: seq<seq<real>>): seq<real>
    decreases |rows|
  {
    if rows == [] then [] else rows[0] + Flatten(rows[1..])
  }

  /** The number of entries of all rows together. */
  function EntryCount(rows: seq<seq<real>>): nat
    decreases |rows|
  {
    if rows == [] then 0 else |rows[0]| + EntryCount(rows[1..])
  }

  /** Flattening keeps every entry, repeats included: the count and the multiset of entries. */
  lemma {:induction false} FlattenCounts(rows: seq<seq<real>>)
    ensures |Flatten(rows)| == EntryCount(rows)
    ensures forall i :: 0 <= i < |rows| ==> multiset(rows[i]) <= multiset(Flatten(rows))
    decreases |rows|
  {
    if rows != [] {
      FlattenCounts(rows[1..]);
      var f := Flatten(rows);
      assert f == rows[0] + Flatten(rows[1..]);
      assert multiset(f) == multiset(rows[0]) + multiset(Flatten(rows[1..]));
      forall i | 0 <= i < |rows|
        ensures multiset(rows[i]) <= multiset(f)
      {
        if i > 0 {
          assert rows[i] == rows[1..][i - 1];
        }
      }
    }
  }

  /** Every entry of a row is in the flattened rows. */
  lemma {:induction false} FlattenHasEntries(rows: seq<seq<real>>)
    ensures forall i, j :: 0 <= i < |rows| && 0 <= j < |rows[i]| ==> rows[i][j] in Flatten(rows)
    decreases |rows|
  {
    if rows != [] {
      FlattenHasEntries(rows[1..]);
      var f := Flatten(rows);
      assert f == rows[0] + Flatten(rows[1..]);
      forall i, j | 0 <= i < |rows| && 0 <= j < |rows[i]|
        ensures rows[i][j] in f
      {
        if i == 0 {
          assert f[j] == rows[0][j];
        } else {
          assert rows[i] == rows[1..][i - 1];
          assert rows[i][j] in Flatten(rows[1..]);
        }
      }
    }
  }

  /** Everything in the flattened rows is an entry of some row. */
  lemma {:induction false} FlattenOnlyEntries(rows: seq<seq<real>>)
    ensures forall x :: x in Flatten(rows) ==> exists i, j :: 0 <= i < |rows| && 0 <= j < |rows[i]| && rows[i][j] == x
    decreases |rows|
  {
    if rows != [] {
      FlattenOnlyEntries(rows[1..]);
      var f := Flatten(rows);
      assert f == rows[0] + Flatten(rows[1..]);
      forall x | x in f
        ensures exists i, j :: 0 <= i < |rows| && 0 <= j < |rows[i]| && rows[i][j] == x
      {
        if x in rows[0] {
          var j :| 0 <= j < |rows[0]| && rows[0][j] == x;
          assert rows[0][j] == x;
        } else {
          assert x in Flatten(rows[1..]);
          var i, j :| 0 <= i < |rows[1..]| && 0 <= j < |rows[1..][i]| && rows[1..][i][j] == x;
          assert rows[i + 1] == rows[1..][i];
          assert rows[i + 1][j] == x;
        }
      }
    }
  }

  /** The flattened rows are empty exactly when every row is. */
  lemma {:induction false} FlattenEmpty(rows: seq<seq<real>>)
    ensures Flatten(rows) == [] <==> forall i :: 0 <= i < |rows| ==> rows[i] == []
    decreases |rows|
  {
    if rows != [] {
      FlattenEmpty(rows[1..]);
      assert Flatten(rows) == rows[0] + Flatten(rows[1..]);
      if forall i :: 0 <= i < |rows| ==> rows[i] == [] {
        forall i | 0 <= i < |rows[1..]|
          ensures rows[1..][i] == []
        {
          assert rows[1..][i] == rows[i + 1];
        }
      }
      if Flatten(rows) == [] {
        forall i | 0 <= i < |rows|
          ensures rows[i] == []
        {
          if i > 0 {
            assert rows[i] == rows[1..][i - 1];
          }
        }
      }
    }
  }

  /** The flattened rows hold exactly the entries of the rows. */
  lemma FlattenEntries(rows: seq<seq<real>>)
    ensures forall i, j :: 0 <= i < |rows| && 0 <= j < |rows[i]| ==> rows[i][j] in Flatten(rows)
    ensures forall x :: x in Flatten(rows) ==> exists i, j :: 0 <= i < |rows| && 0 <= j < |rows[i]| && rows[i][j] == x
    ensures Flatten(rows) == [] <==> forall i :: 0 <= i < |rows| ==> rows[i] == []
  {
    FlattenHasEntries(rows);
    FlattenOnlyEntries(rows);
    FlattenEmpty(rows);
  }

  /** The reducer of `__extrema`: keep the larger (or the smaller) of the two. */
  function Pick(max: bool, p: real, v: real): real {
    if max then (if p > v then p else v) else (if p < v then p else v)
  }

  /** `reduce` without an initial value, after its first element. */
  function Fold(max: bool, acc: real, rest: seq<real>): (r: real)
    ensures r == acc || r in rest
    ensures max ==> acc <= r && forall x :: x in rest ==> x <= r
    ensures !max ==> r <= acc && forall x :: x in rest ==> r <= x
    decreases |rest|
  {
    if rest == [] then acc
    else
      assert rest == [rest[0]] + rest[1..];
      Fold(max, Pick(max, acc, rest[0]), rest[1..])
  }

  /**
   * `__extrema`: an element that bounds all the others from above (max) or
   * below.  On an empty array `reduce` throws; that is None.
   */
  function Extrema(max: bool, arr: seq<real>): (r: Option<real>)
    ensures r.None? <==> arr == []
    ensures r.Some? ==> r.value in arr
    ensures r.Some? && max ==> forall x :: x in arr ==> x <= r.value
    ensures r.Some? && !max ==> forall x :: x in arr ==> r.value <= x
  {
    if arr == [] then None
    else
      assert arr == [arr[0]] + arr[1..];
      Some(Fold(max, arr[0], arr[1..]))
  }

  /** `maxApplitude`: an entry of the spectrogram no entry exceeds. */
  function MaxAmplitude(sg: seq<seq<real>>): (r: Option<real>)
    ensures r.None? <==> forall i :: 0 <= i < |sg| ==> sg[i] == []
    ensures r.Some? ==> exists i, j :: 0 <= i < |sg| && 0 <= j < |sg[i]| && sg[i][j] == r.value
    ensures r.Some? ==> forall i, j :: 0 <= i < |sg| && 0 <= j < |sg[i]| ==> sg[i][j] <= r.value
  {
    FlattenEntries(sg);
    Extrema(true, Flatten(sg))
  }

  /** `minApplitude`: an entry of the spectrogram no entry is below. */
  function MinAmplitude(sg: seq<seq<real>>): (r: Option<real>)
    ensures r.None? <==> forall i :: 0 <= i < |sg| ==> sg[i] == []
    ensures r.Some? ==> exists i, j :: 0 <= i < |sg| && 0 <= j < |sg[i]| && sg[i][j] == r.value
    ensures r.Some? ==> forall i, j :: 0 <= i < |sg| && 0 <= j < |sg[i]| ==> r.value <= sg[i][j]
  {
    FlattenEntries(sg);
    Extrema(false, Flatten(sg))
  }

  /** A hand-built 2x2 spectrogram. */
  lemma TwoByTwoExtrema()
    ensures MaxAmplitude([[1.0, 4.0], [-2.0, 3.0]]) == Some(4.0)
    ensures MinAmplitude([[1.0, 4.0], [-2.0, 3.0]]) == Some(-2.0)
  {
    var sg := [[1.0, 4.0], [-2.0, 3.0]];
    assert sg[0][1] == 4.0 && sg[1][0] == -2.0;
  }

  // ---------------------------------------------------------------------
  // filterIQR
  // ---------------------------------------------------------------------

  predicate Sorted(s: seq<real>) {
    forall i, j :: 0 <= i < j < |s| ==> s[i] <= s[j]
  }

  function Insert(x: real, s: seq<real>): (r: seq<real>)
    ensures |r| == |s| + 1
    ensures multiset(r) == multiset(s) + multiset{x}
    decreases |s|
  {
    if s == [] || x <= s[0] then [x] + s
    else
      assert s == [s[0]] + s[1..];
      [s[0]] + Insert(x, s[1..])
  }

  /** A lower bound of x and of s bounds every element of the insertion. */
  lemma {:induction false} InsertBound(b: real, x: real, s: seq<real>)
    requires b <= x
    requires forall c :: 0 <= c < |s| ==> b <= s[c]
    ensures forall c :: 0 <= c < |Insert(x, s)| ==> b <= Insert(x, s)[c]
    decreases |s|
  {
    if s != [] && x > s[0] {
      InsertBound(b, x, s[1..]);
      var r := Insert(x, s);
      assert r == [s[0]] + Insert(x, s[1..]);
      forall c | 0 <= c < |r|
        ensures b <= r[c]
      {
        if c > 0 {
          assert r[c] == Insert(x, s[1..])[c - 1];
        }
      }
    }
  }

  lemma {:induction false} InsertSorted(x: real, s: seq<real>)
    requires Sorted(s)
    ensures Sorted(Insert(x, s))
    decreases |s|
  {
    if s != [] && x > s[0] {
      var t := s[1..];
      assert Sorted(t) by {
        forall a, b | 0 <= a < b < |t|
          ensures t[a] <= t[b]
        {
          assert t[a] == s[a + 1] && t[b] == s[b + 1];
        }
      }
      forall c | 0 <= c < |t|
        ensures s[0] <= t[c]
      {
        assert t[c] == s[c + 1];
      }
      var rest := Insert(x, t);
      InsertSorted(x, t);
      InsertBound(s[0], x, t);
      var r := [s[0]] + rest;
      assert Insert(x, s) == r;
      forall a, b | 0 <= a < b < |r|
        ensures r[a] <= r[b]
      {
        if a == 0 {
          assert r[b] == rest[b - 1];
        } else {
          assert r[a] == rest[a - 1] && r[b] == rest[b - 1];
        }
      }
    }
  }

  /** What the numeric `sort` of a copy gives: the values in ascending order. */
  function SortedCopy(s: seq<real>): (r: seq<real>)
    ensures |r| == |s|
    ensures Sorted(r)
    ensures multiset(r) == multiset(s)
    decreases |s|
  {
    if s == [] then []
    else
      assert s == [s[0]] + s[1..];
      InsertSorted(s[0], SortedCopy(s[1..]));
      Insert(s[0], SortedCopy(s[1..]))
  }

  lemma QuartileIndices(n: nat)
    requires n >= 4
    ensures n / 4 <= (3 * n + 3) / 4 < n
  {
  }

  /**
   * The clipping bounds q1 - 1.5 iqr and q3 + 1.5 iqr, where q1 is the
   * sorted values' element at floor(n/4) and q3 the one at ceil(3n/4).
   * With fewer than four values q3's index is past the end, the bounds are
   * NaN and no comparison with them holds: None.
   */
  function IqrFences(values: seq<real>): (f: Option<(real, real)>)
    ensures f.None? <==> |values| < 4
    ensures f.Some? ==>
      var sorted := SortedCopy(values);
      var q1 := sorted[|values| / 4];
      var q3 := sorted[(3 * |values| + 3) / 4];
      && f.value.0 <= q1 <= q3 <= f.value.1
      && f.value.0 == q1 - (q3 - q1) * 1.5
      && f.value.1 == q3 + (q3 - q1) * 1.5
  {
    var sorted := SortedCopy(values);
    var n := |sorted|;
    if n < 4 then None
    else
      QuartileIndices(n);
      var q1 := sorted[n / 4];
      var q3 := sorted[(3 * n + 3) / 4];
      var iqr := q3 - q1;
      Some((q1 - iqr * 1.5, q3 + iqr * 1.5))
  }

  /** The two conditional assignments of the inner loop. */
  function Clip(f: (real, real), x: real): (y: real)
    requires f.0 <= f.1
    ensures f.0 <= y <= f.1
    ensures f.0 < x < f.1 ==> y == x
    ensures x <= f.0 ==> y == f.0
    ensures x >= f.1 ==> y == f.1
  {
    var a := if x <= f.0 then f.0 else x;
    if a >= f.1 then f.1 else a
  }

  lemma ClipIdempotent(f: (real, real))
    requires f.0 <= f.1
    ensures forall x :: Clip(f, Clip(f, x)) == Clip(f, x)
  {
  }

  function Rows(sg: array<array<real>>): (r: seq<seq<real>>)
    reads sg, set i | 0 <= i < sg.Length :: sg[i]
    ensures |r| == sg.Length
    ensures forall i :: 0 <= i < sg.Length ==> r[i] == sg[i][..]
  {
    seq(sg.Length, i requires 0 <= i < sg.Length reads sg, set j | 0 <= j < sg.Length :: sg[j] => sg[i][..])
  }

  /**
   * `filterIQR`: every entry of every row is clipped, in place, into the
   * bounds computed from all entries.  Rows may be shared; clipping twice
   * is clipping once.
   */
  method FilterIQR(sg: array<array<real>>)
    modifies set i | 0 <= i < sg.Length :: sg[i]
    ensures var f := IqrFences(Flatten(old(Rows(sg))));
      forall i, k :: 0 <= i < sg.Length && 0 <= k < sg[i].Length ==>
        sg[i][k] == if f.None? then old(sg[i][k]) else Clip(f.value, old(sg[i][k]))
  {
    var values := Flatten(Rows(sg));
    var fences := IqrFences(values);
    if fences.None? {
      return;
    }
    var f := fences.value;
    ClipIdempotent(f);
    var i := 0;
    while i < sg.Length
      invariant 0 <= i <= sg.Length
      invariant forall r, k :: 0 <= r < sg.Length && 0 <= k < sg[r].Length ==>
        sg[r][k] == old(sg[r][k]) || sg[r][k] == Clip(f, old(sg[r][k]))
      invariant forall r, k :: 0 <= r < i && 0 <= k < sg[r].Length ==> sg[r][k] == Clip(f, old(sg[r][k]))
    {
      var row := sg[i];
      label before:
      ClipRow(row, f);
      forall r, k | 0 <= r < sg.Length && 0 <= k < sg[r].Length
        ensures sg[r][k] == old(sg[r][k]) || sg[r][k] == Clip(f, old(sg[r][k]))
        ensures r <= i ==> sg[r][k] == Clip(f, old(sg[r][k]))
      {
        if sg[r] == row {
          assert sg[r][k] == Clip(f, old@before(sg[r][k]));
        } else {
          assert sg[r][k] == old@before(sg[r][k]);
        }
      }
      i := i + 1;
    }
  }

  /** The inner loop of `filterIQR` over one row. */
  method ClipRow(row: array<real>, f: (real, real))
    requires f.0 <= f.1
    modifies row
    ensures forall c :: 0 <= c < row.Length ==> row[c] == Clip(f, old(row[c]))
  {
    var (minValue, maxValue) := f;
    var k := 0;
    while k < row.Length
      invariant 0 <= k <= row.Length
      invariant forall c :: 0 <= c < k ==> row[c] == Clip(f, old(row[c]))
      invariant forall c :: k <= c < row.Length ==> row[c] == old(row[c])
    {
      row[k] := if row[k] <= minValue then minValue else row[k];
      row[k] := if row[k] >= maxValue then maxValue else row[k];
      k := k + 1;
    }
  }
}
