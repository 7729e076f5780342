/** Crossing detection (detect_cross), the loose-mode fallback and the read-only backfill scan. */
module Signals {
  import opened Types
  import opened Bands

  datatype Signal = CrossAbove | CrossBelow | OutsideAbove | OutsideBelow

  // Comparisons of a close with a band value. Any comparison with NaN is false, as in IEEE 754.

  predicate Exceeds(x: real, v: Value) { v.Num? && x > v.v }
  predicate Undercuts(x: real, v: Value) { v.Num? && x < v.v }
  predicate AtMost(x: real, v: Value) { v.Num? && x <= v.v }
  predicate AtLeast(x: real, v: Value) { v.Num? && x >= v.v }

  /** The source's `cross_above`: both upper bands defined, previous close at or below its upper
      band, current close strictly above its upper band. */
  predicate CrossesAbove(prev: BandedBar, cur: BandedBar) {
    prev.upper.Num? && cur.upper.Num? && AtMost(prev.close, prev.upper) && Exceeds(cur.close, cur.upper)
  }

  /** The source's `cross_below`, mirrored on the lower band. */
  predicate CrossesBelow(prev: BandedBar, cur: BandedBar) {
    prev.lower.Num? && cur.lower.Num? && AtLeast(prev.close, prev.lower) && Undercuts(cur.close, cur.lower)
  }

  /** detect_cross: an edge-triggered classification of two adjacent bars, CROSS_ABOVE first. */
  function DetectCross(prev: BandedBar, cur: BandedBar): (r: Option<Signal>)
    ensures r == Some(CrossAbove) <==> CrossesAbove(prev, cur)
    ensures r == Some(CrossBelow) <==> !CrossesAbove(prev, cur) && CrossesBelow(prev, cur)
    ensures r == None <==> !CrossesAbove(prev, cur) && !CrossesBelow(prev, cur)
  {
    if CrossesAbove(prev, cur) then Some(CrossAbove)
    else if CrossesBelow(prev, cur) then Some(CrossBelow)
    else None
  }

  /** The live decision on the latest pair: the strict result, or, when it found nothing and loose
      mode is on, whether the current close is outside the band at all. */
  function Classify(prev: BandedBar, cur: BandedBar, loose: bool): (r: Option<Signal>)
    ensures DetectCross(prev, cur).Some? ==> r == DetectCross(prev, cur)
    ensures !loose ==> r == DetectCross(prev, cur)
    ensures r == Some(OutsideAbove) <==>
      loose && DetectCross(prev, cur) == None && Exceeds(cur.close, cur.upper)
    ensures r == Some(OutsideBelow) <==>
      loose && DetectCross(prev, cur) == None && !Exceeds(cur.close, cur.upper) && Undercuts(cur.close, cur.lower)
  {
    var strict := DetectCross(prev, cur);
    if strict.Some? || !loose then strict
    else if Exceeds(cur.close, cur.upper) then Some(OutsideAbove)
    else if Undercuts(cur.close, cur.lower) then Some(OutsideBelow)
    else None
  }

  // ---- Properties of the classifier

  /** An undefined band on either bar rules out the strict crossing of that band; an undefined
      band on the current bar also rules out the loose signal on that side (loose mode looks at
      the current bar only); a current bar with no band values never signals. */
  lemma UndefinedBandsNeverSignal(prev: BandedBar, cur: BandedBar, loose: bool)
    ensures prev.upper == NaN || cur.upper == NaN ==> Classify(prev, cur, loose) != Some(CrossAbove)
    ensures prev.lower == NaN || cur.lower == NaN ==> Classify(prev, cur, loose) != Some(CrossBelow)
    ensures cur.upper == NaN ==> Classify(prev, cur, loose) != Some(OutsideAbove)
    ensures cur.lower == NaN ==> Classify(prev, cur, loose) != Some(OutsideBelow)
    ensures cur.upper == NaN && cur.lower == NaN ==> Classify(prev, cur, loose) == None
  {
  }

  /** When the current bands are not inverted the two strict conditions exclude each other, so
      the CROSS_ABOVE priority only decides between them for inverted bands, as in the witness. */
  lemma StrictCrossingsExclusive(prev: BandedBar, cur: BandedBar)
    requires cur.upper.Num? && cur.lower.Num? && cur.lower.v <= cur.upper.v
    ensures !(CrossesAbove(prev, cur) && CrossesBelow(prev, cur))
    ensures DetectCross(prev, cur) == Some(CrossBelow) <==> CrossesBelow(prev, cur)
  {
  }

  lemma AbovePriorityOnInvertedBands()
    ensures var prev := BandedBar(0, 1.0, Num(1.0), Num(1.0), Num(1.0));
      var cur := BandedBar(1, 2.0, Num(2.0), Num(1.5), Num(3.0));
      CrossesAbove(prev, cur) && CrossesBelow(prev, cur) && DetectCross(prev, cur) == Some(CrossAbove)
  {
  }

  /** Edge triggering: a bar that crossed a band cannot cross the same band again on the next
      pair, because its close is already beyond it. */
  lemma NoRepeatedCrossing(prev: BandedBar, cur: BandedBar, next: BandedBar)
    ensures DetectCross(prev, cur) == Some(CrossAbove) ==> DetectCross(cur, next) != Some(CrossAbove)
    ensures DetectCross(prev, cur) == Some(CrossBelow) ==> !CrossesBelow(cur, next)
  {
  }

  /** A close rising through the upper band: at or below it before bar k, above it from k on.
      CROSS_ABOVE fires on exactly one pair, the one ending at k. */
  lemma RisingThroughUpperFiresOnce(s: seq<BandedBar>, k: nat)
    requires 1 <= k < |s|
    requires forall j :: 0 <= j < |s| ==> s[j].upper.Num?
    requires forall j :: 0 <= j < k ==> s[j].close <= s[j].upper.v
    requires forall j :: k <= j < |s| ==> s[j].close > s[j].upper.v
    ensures forall j :: 1 <= j < |s| ==> (DetectCross(s[j - 1], s[j]) == Some(CrossAbove) <==> j == k)
  {
    forall j | 1 <= j < |s| ensures DetectCross(s[j - 1], s[j]) == Some(CrossAbove) <==> j == k {
      if j < k {
        assert !Exceeds(s[j].close, s[j].upper);
      } else if j > k {
        assert !AtMost(s[j - 1].close, s[j - 1].upper);
      }
    }
  }

  /** A close within [lower, upper] yields no signal, whatever the previous bar and the mode. */
  lemma WithinBandNoSignal(prev: BandedBar, cur: BandedBar, loose: bool)
    requires cur.upper.Num? && cur.lower.Num?
    requires cur.lower.v <= cur.close <= cur.upper.v
    ensures Classify(prev, cur, loose) == None
  {
  }

  /** Every signal agrees with the side of the band the current close is on. */
  lemma SignalMatchesSide(prev: BandedBar, cur: BandedBar, loose: bool)
    ensures var r := Classify(prev, cur, loose);
      (r == Some(CrossAbove) || r == Some(OutsideAbove) ==> Exceeds(cur.close, cur.upper)) &&
      (r == Some(CrossBelow) || r == Some(OutsideBelow) ==> Undercuts(cur.close, cur.lower))
  {
  }

  /** In loose mode a close above a non-inverted band signals on every bar, with or without an
      edge: the dedup ledger, keyed by bar, is what limits it to one alert per bar. */
  lemma LooseSignalsWhileOutside(prev: BandedBar, cur: BandedBar)
    requires cur.upper.Num? && cur.lower.Num? && cur.lower.v <= cur.upper.v
    ensures Exceeds(cur.close, cur.upper) ==>
      Classify(prev, cur, true) in {Some(CrossAbove), Some(OutsideAbove)}
    ensures Undercuts(cur.close, cur.lower) ==>
      Classify(prev, cur, true) in {Some(CrossBelow), Some(OutsideBelow)}
    ensures !Exceeds(cur.close, cur.upper) && !Undercuts(cur.close, cur.lower) ==>
      Classify(prev, cur, true) == None
  {
  }

  /** A flat run of closes never signals: over every pair of defined rows of a series whose
      closes are all c, the classifier returns nothing in either mode. */
  lemma FlatSeriesNeverSignals(bars: seq<Bar>, sd: seq<real>, length: nat, mult: real, c: real, loose: bool)
    requires IsPopStdDev(bars, length, sd)
    requires forall k :: 0 <= k < |bars| ==> bars[k].close == c
    ensures var d := DropUndefined(ComputeBands(bars, sd, length, mult));
      forall j :: 1 <= j < |d| ==> Classify(d[j - 1], d[j], loose) == None
  {
    var r := ComputeBands(bars, sd, length, mult);
    var d := DropUndefined(r);
    DefinedBarsAreTheTail(bars, sd, length, mult);
    var w := WarmUp(|bars|, length);
    forall j | 1 <= j < |d| ensures Classify(d[j - 1], d[j], loose) == None {
      assert d[j] == r[w + j];
      FlatWindowCollapses(bars, sd, length, mult, w + j, c);
      WithinBandNoSignal(d[j - 1], d[j], loose);
    }
  }

  // ---- Backfill diagnostics

  /** The pair ending at index j crosses a band. */
  predicate CrossAt(s: seq<BandedBar>, j: int)
    requires 1 <= j < |s|
  {
    DetectCross(s[j - 1], s[j]).Some?
  }

  /** The end index of the last crossing pair of `s`, searched from the end. */
  function LatestCrossIndex(s: seq<BandedBar>): (r: Option<nat>)
    ensures r.Some? ==>
      1 <= r.value < |s| && CrossAt(s, r.value) &&
      forall k :: r.value < k < |s| ==> !CrossAt(s, k)
    ensures r.None? ==> forall k :: 1 <= k < |s| ==> !CrossAt(s, k)
    decreases |s|
  {
    if |s| < 2 then None
    else if CrossAt(s, |s| - 1) then Some(|s| - 1)
    else
      var shorter := s[..|s| - 1];
      assert forall k :: 1 <= k < |shorter| ==> CrossAt(shorter, k) == CrossAt(s, k);
      LatestCrossIndex(shorter)
  }

  /** Extending the scanned prefix by one bar: the new last pair wins if it crosses. */
  lemma LatestCrossIndexExtend(s: seq<BandedBar>, i: nat)
    requires 1 <= i < |s|
    ensures LatestCrossIndex(s[..i + 1]) ==
      if DetectCross(s[i - 1], s[i]).Some? then Some(i) else LatestCrossIndex(s[..i])
  {
    var t := s[..i + 1];
    assert t[i - 1] == s[i - 1] && t[i] == s[i];
    assert t[..i] == s[..i];
  }

  /** `df.tail(n)`: the last n rows, or all of them when there are fewer. */
  function Tail(s: seq<BandedBar>, n: nat): (r: seq<BandedBar>)
    ensures |r| == (if n < |s| then n else |s|)
    ensures r == s[|s| - |r|..]
  {
    if n < |s| then s[|s| - n..] else s
  }

  /** What the backfill scan reports: the number of bars scanned when no pair crossed, else the
      kind and the timestamp of the last crossing. */
  datatype Report = NoCrossing(scanned: nat) | LastCrossing(sig: Signal, ts: Instant)

  function ReportOn(sub: seq<BandedBar>): Report {
    match LatestCrossIndex(sub)
    case None => NoCrossing(|sub|)
    case Some(j) => LastCrossing(DetectCross(sub[j - 1], sub[j]).value, sub[j].ts)
  }

  /** The backfill loop: scan consecutive pairs of the last max(2, lookback) defined bars in order,
      each crossing overwriting the one before. It only reads its arguments. */
  method Backfill(defined: seq<BandedBar>, lookback: int) returns (report: Report)
    requires |defined| >= 2
    ensures report == ReportOn(Tail(defined, if lookback > 2 then lookback else 2))
  {
    var sub := Tail(defined, if lookback > 2 then lookback else 2);
    var lastSig: Option<Signal> := None;
    var lastTs: Instant := 0;
    var i := 1;
    while i < |sub|
      invariant 1 <= i <= |sub|
      invariant match LatestCrossIndex(sub[..i])
        case None => lastSig == None
        case Some(j) => j < |sub| && lastSig == Some(DetectCross(sub[j - 1], sub[j]).value) && lastTs == sub[j].ts
    {
      var sig := DetectCross(sub[i - 1], sub[i]);
      LatestCrossIndexExtend(sub, i);
      if sig.Some? {
        lastSig, lastTs := sig, sub[i].ts;
      }
      i := i + 1;
    }
    assert sub[..i] == sub;
    if lastSig.Some? {
      report := LastCrossing(lastSig.value, lastTs);
    } else {
      report := NoCrossing(|sub|);
    }
  }
}
