/**
 * Client helpers of the inspection page: the weather normaliser, the
 * conversion of detector anomalies into the boxes drawn on the image, and the
 * approximate comparison of two boxes.
 */
module InspectionHelpers {
  import opened Wrappers
  import opened Text

  /** A coordinate as the client holds it; None is `undefined`, read past the end of a short array. */
  type Coord = Option<real>
  type Coords = seq<Coord>

  /** A box drawn on the thermal image. */
  datatype Box = Box(
    n: Coords, color: string, idx: int, klass: string, conf: real,
    aiDetected: Option<bool>, rejectedBy: Option<string>, rejectedAt: Option<string>, userAdded: Option<bool>)

  /** JavaScript truthiness of an optional text: present and non-empty. */
  predicate Truthy(s: Option<string>) { s.Some? && s.value != "" }

  /** `a || b` on an optional text. */
  function Or(a: Option<string>, b: string): (r: string)
    ensures Truthy(a) ==> r == a.value
    ensures !Truthy(a) ==> r == b
  {
    if Truthy(a) then a.value else b
  }

  // ---------------------------------------------------------------- weather

  /** The three weathers the inspection records. */
  predicate IsWeather(s: string) { s == "SUNNY" || s == "CLOUDY" || s == "RAINY" }

  /**
   * `normalizeWeather`: the trimmed, upper-cased text when it names one of the
   * three weathers, else null; a non-text value (None) gives null.
   */
  function NormalizeWeather(w: Option<string>): (r: Option<string>)
    ensures r.Some? <==> w.Some? && IsWeather(Upper(Trim(w.value, JsSpace)))
    ensures r.Some? ==> r.value == Upper(Trim(w.value, JsSpace)) && IsWeather(r.value)
  {
    if w.None? || w.value == "" then
      assert w.Some? ==> Upper(Trim(w.value, JsSpace)) == "";
      None
    else
      var normalized := Upper(Trim(w.value, JsSpace));
      if IsWeather(normalized) then Some(normalized) else None
  }

  /** A text without surrounding spaces is its own trim. */
  lemma TrimUnchanged(s: string)
    requires s != [] && !JsSpace(s[0]) && !JsSpace(s[|s| - 1])
    ensures Trim(s, JsSpace) == s
  {
    assert TrimStart(s, JsSpace) == s;
    assert TrimEnd(s, JsSpace) == s;
  }

  /** A text without lower-case ASCII letters is its own upper case. */
  lemma UpperUnchanged(s: string)
    requires forall i :: 0 <= i < |s| ==> !('a' <= s[i] <= 'z')
    ensures Upper(s) == s
  {
  }

  lemma WeatherIsUpper(r: string)
    requires IsWeather(r)
    ensures r != [] && forall i :: 0 <= i < |r| ==> 'A' <= r[i] <= 'Z'
  {
    if r == "SUNNY" {
    } else if r == "CLOUDY" {
    } else {
    }
  }

  /** A normalised weather normalises to itself. */
  lemma NormalizeWeatherIdempotent(w: Option<string>)
    requires NormalizeWeather(w).Some?
    ensures NormalizeWeather(NormalizeWeather(w)) == NormalizeWeather(w)
  {
    WeatherFixed(NormalizeWeather(w).value);
  }

  /** Each of the three weathers normalises to itself. */
  lemma WeatherFixed(r: string)
    requires IsWeather(r)
    ensures NormalizeWeather(Some(r)) == Some(r)
  {
    WeatherIsUpper(r);
    UpperUnchanged(r);
    TrimUnchanged(r);
    assert Upper(Trim(r, JsSpace)) == r;
  }

  // ---------------------------------------------------------------- anomalies to boxes

  /** An anomaly as the detection endpoint returns it (`klass` is its `class`); None fields are absent. */
  datatype AnomalyResponse = AnomalyResponse(
    box: Option<seq<real>>, klass: Option<string>, confidence: Option<real>, conf: Option<real>,
    manual: Option<bool>, rejectedBy: Option<string>, rejectedAt: Option<string>)

  /** The colour of each known class, and the fallback under "default". */
  const ClassColors: map<string, string> := map[
    "Loose Joint Faulty" := "#ef4444",
    "Loose Joint Potentially Faulty" := "#f59e0b",
    "Point Overload Faulty" := "#8b5cf6",
    "Point Overload Potentially Faulty" := "#06b6d4",
    "Full Wire Overload (Potentially Faulty)" := "#10b981",
    "default" := "#3b82f6"]

  const DefaultColor := "#3b82f6"
  const UnknownClass := "Unknown"

  /** The first four entries of `xs`; an entry past its end is undefined. */
  function FirstFour(xs: seq<real>): (r: Coords)
    ensures |r| == 4
    ensures forall i :: 0 <= i < 4 ==> r[i] == if i < |xs| then Some(xs[i]) else None
  {
    seq(4, i requires 0 <= i < 4 => if i < |xs| then Some(xs[i]) else None)
  }

  function ColorOf(className: string): string
  {
    if className in ClassColors && ClassColors[className] != "" then ClassColors[className] else DefaultColor
  }

  function ConfidenceOf(a: AnomalyResponse): real
  {
    if a.confidence.Some? then a.confidence.value else if a.conf.Some? then a.conf.value else 0.0
  }

  /** The box drawn for the anomaly at `index`. */
  function ToBox(a: AnomalyResponse, index: int): Box
  {
    var coordinates := if a.box.Some? then a.box.value else [0.0, 0.0, 0.0, 0.0];
    var className := Or(a.klass, UnknownClass);
    Box(FirstFour(coordinates), ColorOf(className), index + 1, className, ConfidenceOf(a),
        Some(a.manual != Some(true)), a.rejectedBy, a.rejectedAt, None)
  }

  /**
   * `mapAnomaliestoBoxes`: one box per anomaly, in order, numbered from 1. A
   * missing box is drawn at the origin, a missing class is "Unknown", the
   * confidence is the first of `confidence` and `conf` that is present, else
   * 0, and only an anomaly marked manual is not AI-detected.
   */
  function MapAnomaliesToBoxes(anomalies: seq<AnomalyResponse>): (r: seq<Box>)
    ensures |r| == |anomalies|
    ensures forall i :: 0 <= i < |r| ==> (
      var a := anomalies[i];
      r[i].idx == i + 1
      && r[i].n == FirstFour(if a.box.Some? then a.box.value else [0.0, 0.0, 0.0, 0.0])
      && r[i].klass == (if Truthy(a.klass) then a.klass.value else UnknownClass)
      && (r[i].klass in ClassColors ==> r[i].color == ClassColors[r[i].klass])
      && (r[i].klass !in ClassColors ==> r[i].color == DefaultColor)
      && r[i].conf == (if a.confidence.Some? then a.confidence.value else if a.conf.Some? then a.conf.value else 0.0)
      && (r[i].aiDetected == Some(false) <==> a.manual == Some(true))
      && r[i].aiDetected.Some?
      && r[i].rejectedBy == a.rejectedBy && r[i].rejectedAt == a.rejectedAt)
  {
    seq(|anomalies|, i requires 0 <= i < |anomalies| => ToBox(anomalies[i], i))
  }

  /** Boxes made from a response are numbered apart, so an index names one box. */
  lemma MappedIndicesDistinct(anomalies: seq<AnomalyResponse>)
    ensures var boxes := MapAnomaliesToBoxes(anomalies);
      forall i, j :: 0 <= i < |boxes| && 0 <= j < |boxes| && boxes[i].idx == boxes[j].idx ==> i == j
  {
  }

  // ---------------------------------------------------------------- approximate equality

  function Abs(x: real): real { if x < 0.0 then -x else x }

  /**
   * Coordinates `i` of the two boxes are not further apart than `eps`. An
   * undefined coordinate becomes NaN, and a comparison with NaN is false, so
   * it never counts as too far.
   */
  predicate CloseAt(a: Coords, b: Coords, i: int, eps: real)
    requires 0 <= i < |a| && 0 <= i < |b|
  {
    a[i].None? || b[i].None? || Abs(a[i].value - b[i].value) <= eps
  }

  /** Both boxes are present with at least four coordinates, and the first four are close. */
  predicate ApproximatelyEqual(a: Option<Coords>, b: Option<Coords>, eps: real)
  {
    a.Some? && b.Some? && |a.value| >= 4 && |b.value| >= 4
    && forall i :: 0 <= i < 4 ==> CloseAt(a.value, b.value, i, eps)
  }

  /**
   * `boxesApproximatelyEqual`: the early-exit scan over the first four coordinates.
   * The tolerance defaults to 1e-3 in the program; here every caller passes it.
   */
  method BoxesApproximatelyEqual(a: Option<Coords>, b: Option<Coords>, eps: real) returns (r: bool)
    ensures r <==> ApproximatelyEqual(a, b, eps)
  {
    if a.None? || b.None? || |a.value| < 4 || |b.value| < 4 {
      return false;
    }
    var i := 0;
    while i < 4
      invariant 0 <= i <= 4
      invariant forall k :: 0 <= k < i ==> CloseAt(a.value, b.value, k, eps)
    {
      if a.value[i].Some? && b.value[i].Some? && Abs(a.value[i].value - b.value[i].value) > eps {
        assert !CloseAt(a.value, b.value, i, eps);
        return false;
      }
      i := i + 1;
    }
    return true;
  }

  /** The comparison does not depend on the order of its arguments. */
  lemma ApproximatelyEqualSymmetric(a: Option<Coords>, b: Option<Coords>, eps: real)
    ensures ApproximatelyEqual(a, b, eps) <==> ApproximatelyEqual(b, a, eps)
  {
    if a.Some? && b.Some? && |a.value| >= 4 && |b.value| >= 4 {
      forall i | 0 <= i < 4 ensures CloseAt(a.value, b.value, i, eps) <==> CloseAt(b.value, a.value, i, eps) {
        if a.value[i].Some? && b.value[i].Some? {
          assert Abs(a.value[i].value - b.value[i].value) == Abs(b.value[i].value - a.value[i].value);
        }
      }
    }
  }

  /** A box with four defined coordinates is approximately equal to itself, for any non-negative `eps`. */
  lemma ApproximatelyEqualReflexive(a: Coords, eps: real)
    requires |a| >= 4 && eps >= 0.0
    ensures ApproximatelyEqual(Some(a), Some(a), eps)
  {
  }
}
