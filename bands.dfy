/** Bars and the Bollinger band calculation (compute_bb) with the dropna step that follows it.

    Prices are exact reals. The rolling standard deviation is not computed: the caller supplies
    one value per bar, `sd`, that is non-negative and whose square is the population variance
    (divisor L, pandas `ddof=0`) of the trailing window, so no square root is needed. */
module Bands {
  import opened Types

  /** A band value as pandas holds it: a number, or NaN ("no value"). */
  datatype Value = NaN | Num(v: real)

  /** One fetched bar: its timestamp and its closing price. */
  datatype Bar = Bar(ts: Instant, close: real)

  /** A bar with the three columns that compute_bb adds to the frame. */
  datatype BandedBar = BandedBar(ts: Instant, close: real, basis: Value, upper: Value, lower: Value)

  /** The row survives `dropna(subset=["Basis","Upper","Lower"])`. */
  predicate Defined(b: BandedBar) {
    b.basis.Num? && b.upper.Num? && b.lower.Num?
  }

  function Sum(s: seq<real>): real {
    if s == [] then 0.0 else Sum(s[..|s| - 1]) + s[|s| - 1]
  }

  function Mean(s: seq<real>): real
    requires |s| > 0
  {
    Sum(s) / (|s| as real)
  }

  /** Sum of the squared deviations of the elements of `s` from `m`. */
  function SquaredDeviations(s: seq<real>, m: real): real {
    if s == [] then 0.0
    else SquaredDeviations(s[..|s| - 1], m) + (s[|s| - 1] - m) * (s[|s| - 1] - m)
  }

  /** Population variance: the squared deviations divided by the window length, not length - 1. */
  function PopVariance(s: seq<real>): real
    requires |s| > 0
  {
    SquaredDeviations(s, Mean(s)) / (|s| as real)
  }

  function Closes(bars: seq<Bar>): (c: seq<real>)
    ensures |c| == |bars|
    ensures forall i :: 0 <= i < |bars| ==> c[i] == bars[i].close
  {
    seq(|bars|, i requires 0 <= i < |bars| => bars[i].close)
  }

  /** The trailing window of `length` closes that ends at index `i`. */
  function Window(c: seq<real>, i: int, length: nat): (w: seq<real>)
    requires 1 <= length <= i + 1 <= |c|
    ensures |w| == length
    ensures forall k :: 0 <= k < length ==> w[k] == c[i + 1 - length + k]
  {
    c[i + 1 - length .. i + 1]
  }

  /** `sd[i]` is the population standard deviation of the window ending at `i`,
      for every index that has a full window. */
  predicate IsPopStdDev(bars: seq<Bar>, length: nat, sd: seq<real>) {
    length >= 1 && |sd| == |bars| &&
    forall i :: length - 1 <= i < |bars| ==>
      0.0 <= sd[i] && sd[i] * sd[i] == PopVariance(Window(Closes(bars), i, length))
  }

  /** Row `i` of the frame after compute_bb (rolling with min_periods = length). */
  function BandAt(bars: seq<Bar>, sd: seq<real>, length: nat, mult: real, i: nat): BandedBar
    requires length >= 1 && |sd| == |bars| && i < |bars|
  {
    if i + 1 < length then BandedBar(bars[i].ts, bars[i].close, NaN, NaN, NaN)
    else
      var basis := Mean(Window(Closes(bars), i, length));
      BandedBar(bars[i].ts, bars[i].close, Num(basis), Num(basis + mult * sd[i]), Num(basis - mult * sd[i]))
  }

  /** compute_bb followed by `df.assign(...)`: the bars with their basis, upper and lower bands.
      The first length - 1 rows have no band values; every later row has all three. */
  function ComputeBands(bars: seq<Bar>, sd: seq<real>, length: nat, mult: real): (r: seq<BandedBar>)
    requires length >= 1 && |sd| == |bars|
    ensures |r| == |bars|
    ensures forall i :: 0 <= i < |r| ==> r[i].ts == bars[i].ts && r[i].close == bars[i].close
    ensures forall i :: 0 <= i < |r| ==> (Defined(r[i]) <==> i >= length - 1)
    ensures forall i :: 0 <= i < |r| && i < length - 1 ==>
      r[i].basis == NaN && r[i].upper == NaN && r[i].lower == NaN
  {
    seq(|bars|, i requires 0 <= i < |bars| => BandAt(bars, sd, length, mult, i))
  }

  /** `dropna(subset=["Basis","Upper","Lower"])`: keep the rows whose bands are all defined, in order. */
  function DropUndefined(s: seq<BandedBar>): (r: seq<BandedBar>)
    ensures |r| <= |s|
    ensures forall k :: 0 <= k < |r| ==> Defined(r[k])
  {
    if s == [] then []
    else (if Defined(s[0]) then [s[0]] else []) + DropUndefined(s[1..])
  }

  /** dropna loses no defined row: a row is kept exactly when it is in the input and defined. */
  lemma {:induction false} DropUndefinedMembers(s: seq<BandedBar>)
    ensures forall b :: b in DropUndefined(s) <==> b in s && Defined(b)
  {
    if s != [] {
      DropUndefinedMembers(s[1..]);
      assert s == [s[0]] + s[1..];
    }
  }

  /** dropna keeps the order of the rows: filtering a concatenation filters each part in place. */
  lemma {:induction false} DropUndefinedAppend(a: seq<BandedBar>, b: seq<BandedBar>)
    ensures DropUndefined(a + b) == DropUndefined(a) + DropUndefined(b)
  {
    if a != [] {
      assert (a + b)[0] == a[0];
      assert (a + b)[1..] == a[1..] + b;
      DropUndefinedAppend(a[1..], b);
    } else {
      assert a + b == b;
    }
  }

  // ---- Warm-up: what survives dropna

  /** A series whose first k rows are undefined and whose others are defined loses exactly
      its first k rows to dropna. */
  lemma {:induction false} DropUndefinedPrefix(s: seq<BandedBar>, k: nat)
    requires k <= |s|
    requires forall i :: 0 <= i < k ==> !Defined(s[i])
    requires forall i :: k <= i < |s| ==> Defined(s[i])
    ensures DropUndefined(s) == s[k..]
  {
    if s == [] {
    } else if k == 0 {
      DropUndefinedPrefix(s[1..], 0);
      assert [s[0]] + s[1..] == s;
    } else {
      DropUndefinedPrefix(s[1..], k - 1);
      assert s[1..][k - 1..] == s[k..];
    }
  }

  /** The number of leading rows that have no band values: length - 1, or all of them when
      fewer bars were fetched. */
  function WarmUp(n: nat, length: nat): (w: nat)
    requires length >= 1
    ensures w <= n && (w < n <==> n >= length)
  {
    if n >= length then length - 1 else n
  }

  /** After compute_bb and dropna exactly the rows from index length - 1 on remain, so
      max(0, n - length + 1) rows are left of n fetched bars. */
  lemma DefinedBarsAreTheTail(bars: seq<Bar>, sd: seq<real>, length: nat, mult: real)
    requires length >= 1 && |sd| == |bars|
    ensures var r := ComputeBands(bars, sd, length, mult);
      DropUndefined(r) == r[WarmUp(|bars|, length)..]
  {
    var r := ComputeBands(bars, sd, length, mult);
    DropUndefinedPrefix(r, WarmUp(|bars|, length));
  }

  /** When at least two rows survive dropna, the last two of them are the last two fetched bars. */
  lemma LastTwoDefinedAreLastTwoBars(bars: seq<Bar>, sd: seq<real>, length: nat, mult: real)
    requires length >= 1 && |sd| == |bars|
    requires |DropUndefined(ComputeBands(bars, sd, length, mult))| >= 2
    ensures var r := ComputeBands(bars, sd, length, mult);
      var d := DropUndefined(r);
      |bars| >= length + 1 && d[|d| - 1] == r[|bars| - 1] && d[|d| - 2] == r[|bars| - 2]
  {
    DefinedBarsAreTheTail(bars, sd, length, mult);
  }

  /** Fewer than length + 1 bars leave fewer than two defined bars, so no pair to compare. */
  lemma TooFewBarsLeaveNoPair(bars: seq<Bar>, sd: seq<real>, length: nat, mult: real)
    requires length >= 1 && |sd| == |bars|
    ensures |DropUndefined(ComputeBands(bars, sd, length, mult))| >= 2 <==> |bars| >= length + 1
  {
    DefinedBarsAreTheTail(bars, sd, length, mult);
  }

  // ---- Band geometry

  lemma {:induction false} SumWithin(s: seq<real>, lo: real, hi: real)
    requires forall k :: 0 <= k < |s| ==> lo <= s[k] <= hi
    ensures lo * (|s| as real) <= Sum(s) <= hi * (|s| as real)
  {
    if s != [] {
      SumWithin(s[..|s| - 1], lo, hi);
    }
  }

  /** The mean of a window lies between any lower and upper bound of its elements. */
  lemma MeanWithin(s: seq<real>, lo: real, hi: real)
    requires |s| > 0
    requires forall k :: 0 <= k < |s| ==> lo <= s[k] <= hi
    ensures lo <= Mean(s) <= hi
  {
    SumWithin(s, lo, hi);
    var n := |s| as real;
    assert lo * n <= Sum(s) <= hi * n;
    assert Sum(s) / n >= (lo * n) / n;
    assert Sum(s) / n <= (hi * n) / n;
  }

  lemma {:induction false} SumConstant(s: seq<real>, c: real)
    requires forall k :: 0 <= k < |s| ==> s[k] == c
    ensures Sum(s) == c * (|s| as real)
  {
    if s != [] {
      SumConstant(s[..|s| - 1], c);
    }
  }

  lemma {:induction false} NoDeviationFromConstant(s: seq<real>, c: real)
    requires forall k :: 0 <= k < |s| ==> s[k] == c
    ensures SquaredDeviations(s, c) == 0.0
  {
    if s != [] {
      NoDeviationFromConstant(s[..|s| - 1], c);
    }
  }

  /** A window of one repeated close c has zero population variance and mean c. */
  lemma FlatWindowStatistics(s: seq<real>, c: real)
    requires |s| > 0
    requires forall k :: 0 <= k < |s| ==> s[k] == c
    ensures Mean(s) == c && PopVariance(s) == 0.0
  {
    SumConstant(s, c);
    NoDeviationFromConstant(s, c);
  }

  /** Every defined row has its basis between the lowest and the highest close of its window. */
  lemma BasisWithinWindow(bars: seq<Bar>, sd: seq<real>, length: nat, mult: real, i: nat, lo: real, hi: real)
    requires length >= 1 && |sd| == |bars| && length - 1 <= i < |bars|
    requires forall k :: i + 1 - length <= k <= i ==> lo <= bars[k].close <= hi
    ensures var b := ComputeBands(bars, sd, length, mult)[i];
      b.basis.Num? && lo <= b.basis.v <= hi
  {
    var w := Window(Closes(bars), i, length);
    forall k | 0 <= k < |w| ensures lo <= w[k] <= hi {
      assert w[k] == bars[i + 1 - length + k].close;
    }
    MeanWithin(w, lo, hi);
  }

  /** With a non-negative multiplier the bands never invert: lower <= basis <= upper. */
  lemma BandsOrdered(bars: seq<Bar>, sd: seq<real>, length: nat, mult: real, i: nat)
    requires IsPopStdDev(bars, length, sd) && mult >= 0.0 && length - 1 <= i < |bars|
    ensures var b := ComputeBands(bars, sd, length, mult)[i];
      Defined(b) && b.lower.v <= b.basis.v <= b.upper.v
  {
  }

  /** Over a window of one repeated close c the band collapses: basis, upper and lower are all c. */
  lemma FlatWindowCollapses(bars: seq<Bar>, sd: seq<real>, length: nat, mult: real, i: nat, c: real)
    requires IsPopStdDev(bars, length, sd) && length - 1 <= i < |bars|
    requires forall k :: i + 1 - length <= k <= i ==> bars[k].close == c
    ensures var b := ComputeBands(bars, sd, length, mult)[i];
      b.basis == Num(c) && b.upper == Num(c) && b.lower == Num(c)
  {
    var w := Window(Closes(bars), i, length);
    forall k | 0 <= k < |w| ensures w[k] == c {
      assert w[k] == bars[i + 1 - length + k].close;
    }
    FlatWindowStatistics(w, c);
    assert sd[i] * sd[i] == 0.0;
    if sd[i] > 0.0 {
      assert sd[i] * sd[i] > 0.0 * sd[i];
    }
  }
}
