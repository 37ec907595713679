/** The map from a glucose value to a screen row (bg_to_y and its two clamping modes). */
module GraphMapping {
  import opened Config

  /** C's conversion of a floating value to an integer: the fractional part is dropped,
      so the result moves toward zero. */
  function TruncToInt(r: real): (i: int)
    ensures r >= 0.0 ==> i as real <= r < i as real + 1.0
    ensures r < 0.0 ==> i as real - 1.0 < r <= i as real
  {
    if r >= 0.0 then r.Floor else -((-r).Floor)
  }

  /** The row the expression of bg_to_y computes before its conversion to `int`,
      in exact arithmetic: `height - (bg - min) / (max - min) * height - 1`. */
  function LinearY(height: int, bg: int, p: Prefs): real
    requires GraphBoundsDiffer(p)
  {
    height as real
      - (bg - p.bottomOfGraph) as real / (p.topOfGraph - p.bottomOfGraph) as real * height as real
      - 1.0
  }

  /** The unclamped row, after the conversion to `int`. */
  function RawY(height: int, bg: int, p: Prefs): int
    requires GraphBoundsDiffer(p)
  {
    TruncToInt(LinearY(height, bg, p))
  }

  /** bg_to_y: the raw row, held inside [min, max] only when `fitInBounds` is set. */
  function BgToY(height: int, bg: int, min: int, max: int, fitInBounds: bool, p: Prefs): (y: int)
    requires GraphBoundsDiffer(p)
    ensures !fitInBounds ==> y == RawY(height, bg, p)
    ensures fitInBounds && min <= max ==> min <= y <= max
    ensures fitInBounds && min <= RawY(height, bg, p) <= max ==> y == RawY(height, bg, p)
    ensures fitInBounds && RawY(height, bg, p) < min ==> y == min
    ensures fitInBounds && RawY(height, bg, p) >= min && RawY(height, bg, p) > max ==> y == max
  {
    var y := RawY(height, bg, p);
    if fitInBounds then
      if y < min then min
      else if y > max then max
      else y
    else
      y
  }

  /** bg_to_y_for_point: a point of side GRAPH_POINT_SIZE always lies wholly inside the band. */
  function BgToYForPoint(height: int, bg: int, p: Prefs): (y: int)
    requires GraphBoundsDiffer(p)
    ensures height >= GRAPH_POINT_SIZE ==> 0 <= y <= height - GRAPH_POINT_SIZE
    ensures 0 <= RawY(height, bg, p) <= height - GRAPH_POINT_SIZE ==> y == RawY(height, bg, p)
    ensures RawY(height, bg, p) < 0 ==> y == 0
    ensures height >= GRAPH_POINT_SIZE && RawY(height, bg, p) > height - GRAPH_POINT_SIZE
      ==> y == height - GRAPH_POINT_SIZE
  {
    BgToY(height, bg, 0, height - GRAPH_POINT_SIZE, true, p)
  }

  /** bg_to_y_for_line: the bounds -1 and height - 1 are passed but never applied. */
  function BgToYForLine(height: int, bg: int, p: Prefs): (y: int)
    requires GraphBoundsDiffer(p)
    ensures y == RawY(height, bg, p)
  {
    BgToY(height, bg, -1, height - 1, false, p)
  }

  /** Truncation toward zero never reverses the order of two values. */
  lemma TruncToIntMonotone(r1: real, r2: real)
    requires r1 <= r2
    ensures TruncToInt(r1) <= TruncToInt(r2)
  {
  }

  /** The bottom of the graph maps to the last row, the top of the graph to the row above the first. */
  lemma RawYAtGraphBounds(height: int, p: Prefs)
    requires GraphBoundsDiffer(p)
    ensures RawY(height, p.bottomOfGraph, p) == height - 1
    ensures RawY(height, p.topOfGraph, p) == -1
  {
    var d := (p.topOfGraph - p.bottomOfGraph) as real;
    assert (p.topOfGraph - p.bottomOfGraph) as real / d == 1.0;
    assert LinearY(height, p.topOfGraph, p) == -1.0;
    assert LinearY(height, p.bottomOfGraph, p) == (height - 1) as real;
  }

  /** A higher glucose value never maps to a lower point on the screen. */
  lemma LinearYMonotone(height: int, bg1: int, bg2: int, p: Prefs)
    requires p.topOfGraph > p.bottomOfGraph && height >= 0
    requires bg1 <= bg2
    ensures LinearY(height, bg2, p) <= LinearY(height, bg1, p)
  {
  }

  /** The raw row is non-increasing in the glucose value. */
  lemma RawYMonotone(height: int, bg1: int, bg2: int, p: Prefs)
    requires p.topOfGraph > p.bottomOfGraph && height >= 0
    requires bg1 <= bg2
    ensures RawY(height, bg2, p) <= RawY(height, bg1, p)
  {
    LinearYMonotone(height, bg1, bg2, p);
    TruncToIntMonotone(LinearY(height, bg2, p), LinearY(height, bg1, p));
  }

  /** Point mode keeps the order of the raw rows: its clamp is monotone. */
  lemma PointYMonotone(height: int, bg1: int, bg2: int, p: Prefs)
    requires p.topOfGraph > p.bottomOfGraph && height >= GRAPH_POINT_SIZE
    requires bg1 <= bg2
    ensures BgToYForPoint(height, bg2, p) <= BgToYForPoint(height, bg1, p)
  {
    RawYMonotone(height, bg1, bg2, p);
  }

  /** With height 100 and graph bounds 40..400, a line for 400 lands on row -1 (just above
      the surface) and a line for 500 on row -28: line mode does not clamp to [-1, height - 1]. */
  lemma LineYLeavesBand()
    ensures BgToYForLine(100, 400, Prefs(40, 400, 70, 180, 50)) == -1
    ensures BgToYForLine(100, 500, Prefs(40, 400, 70, 180, 50)) == -28
  {
    var p := Prefs(40, 400, 70, 180, 50);
    RawYAtGraphBounds(100, p);
    assert LinearY(100, 500, p) == 100.0 - 460.0 / 360.0 * 100.0 - 1.0;
  }
}
