/**
 * The noise labels shown next to a decibel value. The integer version, with five
 * bands, labels saved thresholds (the repository and the profile screen carry the
 * same copy of it); the floating version, with four bands, labels the live reading
 * on the home screen.
 */
module NoiseLabels {

  /** Number of band boundaries at or below `x`, for boundaries listed in ascending order. */
  function CutsPassed(cuts: seq<real>, x: real): (n: nat)
    ensures n <= |cuts|
  {
    if cuts == [] then 0
    else (if cuts[0] <= x then 1 else 0) + CutsPassed(cuts[1..], x)
  }

  /** More boundaries lie at or below a larger value. */
  lemma {:induction false} CutsPassedMonotone(cuts: seq<real>, x: real, y: real)
    requires x <= y
    ensures CutsPassed(cuts, x) <= CutsPassed(cuts, y)
  {
    if cuts != [] {
      CutsPassedMonotone(cuts[1..], x, y);
    }
  }

  // ---------------------------------------------------------------------------
  // Integer labels: `getNoiseLabel(decibel: Int)`

  const IntLabels: seq<string> := ["Very Quiet", "Quiet", "Moderate", "Loud", "Very Loud"]
  const IntCuts: seq<real> := [30.0, 60.0, 80.0, 90.0]

  /** The `when` of the source, with its catch-all branch. The label is the one of
      the band the value falls in, the band being the number of boundaries 30, 60,
      80, 90 the value has reached; so the catch-all "Unknown" is never returned. */
  function IntNoiseLabel(decibel: int): (r: string)
    ensures r == IntLabels[CutsPassed(IntCuts, decibel as real)]
    ensures r in IntLabels && r != "Unknown"
  {
    var x := decibel as real;
    var c3: seq<real> := [90.0];
    var c2: seq<real> := [80.0, 90.0];
    var c1: seq<real> := [60.0, 80.0, 90.0];
    assert c3[1..] == [] && c2[1..] == c3 && c1[1..] == c2 && IntCuts[1..] == c1;
    assert CutsPassed(c3, x) == (if 90.0 <= x then 1 else 0);
    assert CutsPassed(c2, x) == (if 80.0 <= x then 1 else 0) + CutsPassed(c3, x);
    assert CutsPassed(c1, x) == (if 60.0 <= x then 1 else 0) + CutsPassed(c2, x);
    assert CutsPassed(IntCuts, x) == (if 30.0 <= x then 1 else 0) + CutsPassed(c1, x);
    if decibel < 30 then "Very Quiet"
    else if 30 <= decibel <= 59 then "Quiet"
    else if 60 <= decibel <= 79 then "Moderate"
    else if 80 <= decibel <= 89 then "Loud"
    else if decibel >= 90 then "Very Loud"
    else "Unknown"
  }

  /** The five bands: below 30, 30..59, 60..79, 80..89, and 90 or more. */
  lemma IntNoiseLabelBands(decibel: int)
    ensures decibel < 30 <==> IntNoiseLabel(decibel) == "Very Quiet"
    ensures 30 <= decibel <= 59 <==> IntNoiseLabel(decibel) == "Quiet"
    ensures 60 <= decibel <= 79 <==> IntNoiseLabel(decibel) == "Moderate"
    ensures 80 <= decibel <= 89 <==> IntNoiseLabel(decibel) == "Loud"
    ensures decibel >= 90 <==> IntNoiseLabel(decibel) == "Very Loud"
  {
  }

  /** Position of a label in the quiet-to-loud order (the labels outside the order rank last). */
  function IntLabelRank(name: string): (k: nat)
    ensures k <= |IntLabels|
    ensures k < |IntLabels| ==> IntLabels[k] == name
  {
    if name == IntLabels[0] then 0
    else if name == IntLabels[1] then 1
    else if name == IntLabels[2] then 2
    else if name == IntLabels[3] then 3
    else if name == IntLabels[4] then 4
    else 5
  }

  /** A louder value never gets a quieter label. */
  lemma IntNoiseLabelMonotone(a: int, b: int)
    requires a <= b
    ensures IntLabelRank(IntNoiseLabel(a)) <= IntLabelRank(IntNoiseLabel(b))
  {
    CutsPassedMonotone(IntCuts, a as real, b as real);
  }

  // ---------------------------------------------------------------------------
  // Floating labels: `getNoiseLabel(decibel: Float)` on the home screen

  const FloatLabels: seq<string> := ["Quiet", "Normal", "Loud", "Very Loud"]
  const FloatCuts: seq<real> := [30.0, 60.0, 85.0]

  /** The label of the band the value falls in, the band being the number of
      boundaries 30, 60, 85 the value has reached. */
  function FloatNoiseLabel(decibel: real): (r: string)
    ensures r == FloatLabels[CutsPassed(FloatCuts, decibel)]
    ensures r in FloatLabels
  {
    var c2: seq<real> := [85.0];
    var c1: seq<real> := [60.0, 85.0];
    assert c2[1..] == [] && c1[1..] == c2 && FloatCuts[1..] == c1;
    assert CutsPassed(c2, decibel) == (if 85.0 <= decibel then 1 else 0);
    assert CutsPassed(c1, decibel) == (if 60.0 <= decibel then 1 else 0) + CutsPassed(c2, decibel);
    assert CutsPassed(FloatCuts, decibel) == (if 30.0 <= decibel then 1 else 0) + CutsPassed(c1, decibel);
    if decibel < 30.0 then "Quiet"
    else if decibel < 60.0 then "Normal"
    else if decibel < 85.0 then "Loud"
    else "Very Loud"
  }

  function FloatLabelRank(name: string): (k: nat)
    ensures k <= |FloatLabels|
    ensures k < |FloatLabels| ==> FloatLabels[k] == name
  {
    if name == FloatLabels[0] then 0
    else if name == FloatLabels[1] then 1
    else if name == FloatLabels[2] then 2
    else if name == FloatLabels[3] then 3
    else 4
  }

  /** The four bands: below 30, [30, 60), [60, 85), and 85 or more. */
  lemma FloatNoiseLabelBands(decibel: real)
    ensures decibel < 30.0 <==> FloatNoiseLabel(decibel) == "Quiet"
    ensures 30.0 <= decibel < 60.0 <==> FloatNoiseLabel(decibel) == "Normal"
    ensures 60.0 <= decibel < 85.0 <==> FloatNoiseLabel(decibel) == "Loud"
    ensures decibel >= 85.0 <==> FloatNoiseLabel(decibel) == "Very Loud"
  {
  }

  /** A louder value never gets a quieter label. */
  lemma FloatNoiseLabelMonotone(a: real, b: real)
    requires a <= b
    ensures FloatLabelRank(FloatNoiseLabel(a)) <= FloatLabelRank(FloatNoiseLabel(b))
  {
    CutsPassedMonotone(FloatCuts, a, b);
  }
}
