/**
 * `DecibelBarChart`: the window of history values it draws (the last `maxBars`
 * values, padded with zeros to exactly `maxBars` bars), the clamped bar heights,
 * and the labels shown under the bars. Drawing itself is left out; a negative
 * `maxBars` makes Kotlin's `takeLast`, `take` and `List(n)` throw, which is `None`
 * here.
 */
module BarChart {
  import opened Wrappers

  function Min(a: int, b: int): int {
    if a <= b then a else b
  }

  /** `List(n) { 0f }` */
  function Zeros(n: nat): (z: seq<real>)
    ensures |z| == n && forall i :: 0 <= i < n ==> z[i] == 0.0
  {
    seq(n, _ => 0.0)
  }

  /** `displayedHistory`: the recent values, then zero padding. The first
      min(|history|, maxBars) bars are the newest history values in arrival order,
      and every bar after them is 0. */
  function DisplayedHistory(history: seq<real>, maxBars: int): (r: Option<seq<real>>)
    ensures r.None? <==> maxBars < 0
    ensures r.Some? ==> |r.value| == maxBars
    ensures r.Some? ==>
      var k := Min(|history|, maxBars);
      r.value[..k] == history[|history| - k..] &&
      forall i :: k <= i < maxBars ==> r.value[i] == 0.0
  {
    if maxBars < 0 then None
    else
      var recent := if |history| > maxBars then history[|history| - maxBars..] else history;
      var padded := recent + Zeros(maxBars - |recent|);
      assert padded[..|recent|] == recent;
      Some(padded)
  }

  /** A history longer than the chart shows exactly its last `maxBars` values. */
  lemma LongHistoryShowsNewest(history: seq<real>, maxBars: int)
    requires 0 <= maxBars < |history|
    ensures DisplayedHistory(history, maxBars) == Some(history[|history| - maxBars..])
  {
    var r := DisplayedHistory(history, maxBars).value;
    assert r == r[..maxBars];
  }

  /** A history that fits is shown unchanged, followed by `maxBars - |history|` zeros. */
  lemma ShortHistoryIsPadded(history: seq<real>, maxBars: int)
    requires |history| <= maxBars
    ensures DisplayedHistory(history, maxBars) == Some(history + Zeros(maxBars - |history|))
  {
  }

  /** `coerceIn(lo, hi)` */
  function CoerceIn(x: real, lo: real, hi: real): (r: real)
    requires lo <= hi
    ensures lo <= r <= hi
    ensures lo <= x <= hi ==> r == x
  {
    if x < lo then lo else if x > hi then hi else x
  }

  /** `(value / maxDb).coerceIn(0f, 1f)` */
  function NormalizedHeight(value: real, maxDb: real): (h: real)
    requires maxDb != 0.0
    ensures 0.0 <= h <= 1.0
    ensures 0.0 <= value / maxDb <= 1.0 ==> h == value / maxDb
  {
    CoerceIn(value / maxDb, 0.0, 1.0)
  }

  /** Heights of the bars drawn for the displayed values: each lies between 0 and
      the canvas height, so no bar leaves the canvas. */
  function BarHeights(displayed: seq<real>, canvasHeight: real, maxDb: real): (heights: seq<real>)
    requires canvasHeight >= 0.0 && maxDb != 0.0
    ensures |heights| == |displayed|
    ensures forall i :: 0 <= i < |heights| ==> 0.0 <= heights[i] <= canvasHeight
  {
    seq(|displayed|, i requires 0 <= i < |displayed| =>
      BoundedProduct(canvasHeight, NormalizedHeight(displayed[i], maxDb));
      canvasHeight * NormalizedHeight(displayed[i], maxDb))
  }

  lemma BoundedProduct(c: real, h: real)
    requires c >= 0.0 && 0.0 <= h <= 1.0
    ensures 0.0 <= c * h <= c
  {
  }

  /** `labels.take(maxBars)`: at most `maxBars` labels, from the front. */
  function ShownLabels(labels: seq<string>, maxBars: int): (r: Option<seq<string>>)
    ensures r.None? <==> maxBars < 0
    ensures r.Some? ==> |r.value| == Min(|labels|, maxBars) && r.value == labels[..|r.value|]
  {
    if maxBars < 0 then None
    else if |labels| <= maxBars then Some(labels)
    else Some(labels[..maxBars])
  }
}
