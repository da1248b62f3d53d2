/**
 * `updateDecibelHistory`: the rolling list of the last 60 decibel readings shown
 * by the chart, newest last.
 */
module DecibelHistory {

  const HistoryCapacity: nat := 60

  /** The last `n` entries of `s` (all of them when there are fewer). */
  function LastN(s: seq<real>, n: nat): (r: seq<real>)
    ensures |r| == if |s| <= n then |s| else n
    ensures r == s[|s| - |r|..]
  {
    if |s| <= n then s else s[|s| - n..]
  }

  /** One append: the reading goes last, and only the oldest entry is dropped when
      the list would exceed 60 entries. */
  function AppendReading(history: seq<real>, x: real): (r: seq<real>)
    ensures |history| <= HistoryCapacity ==> r == LastN(history + [x], HistoryCapacity)
    ensures |r| > 0 && r[|r| - 1] == x
  {
    var updated := history + [x];
    if |updated| > HistoryCapacity then updated[1..] else updated
  }

  /** A sequence of appends, first reading first. */
  function AppendAll(history: seq<real>, xs: seq<real>): seq<real>
    decreases |xs|
  {
    if xs == [] then history else AppendAll(AppendReading(history, xs[0]), xs[1..])
  }

  lemma LastNOfLastN(u: seq<real>, rest: seq<real>, n: nat)
    ensures LastN(LastN(u, n) + rest, n) == LastN(u + rest, n)
  {
    if |u| > n {
      var v := LastN(u, n);
      var w := v + rest;
      var z := u + rest;
      assert |w| >= n;
      assert z[|z| - |w|..] == w;
    }
  }

  /** From a history within capacity, any run of appends leaves exactly the last 60
      readings of the whole arrival sequence, in arrival order; so the history never
      exceeds 60 entries. */
  lemma {:induction false} AppendAllKeepsLatest(history: seq<real>, xs: seq<real>)
    requires |history| <= HistoryCapacity
    ensures AppendAll(history, xs) == LastN(history + xs, HistoryCapacity)
    ensures |AppendAll(history, xs)| <= HistoryCapacity
    decreases |xs|
  {
    if xs == [] {
      assert history + xs == history;
    } else {
      var u, rest := history + [xs[0]], xs[1..];
      var h1 := AppendReading(history, xs[0]);
      assert h1 == LastN(u, HistoryCapacity);
      assert AppendAll(history, xs) == AppendAll(h1, rest);
      AppendAllKeepsLatest(h1, rest);
      LastNOfLastN(u, rest, HistoryCapacity);
      SplitFirst(history, xs);
    }
  }

  lemma SplitFirst(history: seq<real>, xs: seq<real>)
    requires xs != []
    ensures history + [xs[0]] + xs[1..] == history + xs
  {
    assert [xs[0]] + xs[1..] == xs;
  }

  /** After 61 appends to an empty history, 60 readings remain and the first one is
      gone. */
  lemma SixtyOneAppends(xs: seq<real>)
    requires |xs| == HistoryCapacity + 1
    ensures AppendAll([], xs) == xs[1..]
  {
    AppendAllKeepsLatest([], xs);
    assert [] + xs == xs;
  }
}
