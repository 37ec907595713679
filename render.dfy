/** One frame of the graph (graph_update_proc), as the sequence of drawing calls it issues. */
module GraphRender {
  import opened Config
  import opened GraphMapping

  /** The two drawing primitives the graph uses: a filled rectangle given by its origin and
      size, and a line between two points. */
  datatype DrawCommand =
    | FillRect(x: int, y: int, w: int, h: int)
    | DrawLine(x0: int, y0: int, x1: int, y1: int)

  /** plot_point: a filled square of side GRAPH_POINT_SIZE with its corner at (x, y). */
  function PlotPoint(x: int, y: int): (r: DrawCommand)
    ensures r.FillRect? && r.x == x && r.y == y
    ensures r.w == r.h == GRAPH_POINT_SIZE > 0
  {
    FillRect(x, y, GRAPH_POINT_SIZE, GRAPH_POINT_SIZE)
  }

  /** Column of reading `i`: the newest reading sits `padding` slots left of the right edge. */
  function PointX(width: int, i: int, padding: int): int {
    width - GRAPH_POINT_SIZE * (1 + i + padding)
  }

  /** The square drawn for reading `i`, whose stored byte is `sgv` (the glucose value is twice it). */
  function ReadingPoint(i: int, sgv: Byte, width: int, height: int, padding: int, p: Prefs): DrawCommand
    requires GraphBoundsDiffer(p)
  {
    PlotPoint(PointX(width, i, padding), BgToYForPoint(height, sgv as int * 2, p))
  }

  /** The squares drawn for the readings `sgvs`, in index order; zero entries are skipped. */
  function ReadingCommands(sgvs: seq<Byte>, width: int, height: int, padding: int, p: Prefs): seq<DrawCommand>
    requires GraphBoundsDiffer(p)
    decreases |sgvs|
  {
    if |sgvs| == 0 then []
    else
      var i := |sgvs| - 1;
      ReadingCommands(sgvs[..i], width, height, padding, p)
        + (if sgvs[i] as int * 2 == 0 then [] else [ReadingPoint(i, sgvs[i], width, height, padding, p)])
  }

  /** A dashed horizontal line at row `y`: segments of length `len` starting at `x`, `x + step`, ...
      while the start is left of `width`. */
  function Dashes(x: int, step: int, len: int, width: int, y: int): seq<DrawCommand>
    requires step > 0
    decreases width - x
  {
    if x >= width then []
    else [DrawLine(x, y, x + len, y)] + Dashes(x + step, step, len, width, y)
  }

  /** The target range bounds as the frame stores them, in a `uint16_t` array: top first. */
  function Limits(p: Prefs): seq<int> {
    [ToU16(p.topOfRange), ToU16(p.bottomOfRange)]
  }

  /** The dashed line (2 px on, 2 px off) drawn for one target range bound. */
  function TargetLine(width: int, height: int, limit: int, p: Prefs): seq<DrawCommand>
    requires GraphBoundsDiffer(p)
  {
    Dashes(0, 4, 2, width, BgToYForLine(height, limit, p))
  }

  /** The dashed line (1 px on, 7 px off) drawn for one gridline value. */
  function GridLine(width: int, height: int, g: int, p: Prefs): seq<DrawCommand>
    requires GraphBoundsDiffer(p)
  {
    Dashes(2, 8, 1, width, BgToYForLine(height, g, p))
  }

  /** A multiple of the gridline spacing that gets no gridline. */
  predicate GridSkipped(g: int, p: Prefs) {
    g <= p.bottomOfGraph || g == Limits(p)[0] || g == Limits(p)[1]
  }

  /** The gridline values the loop over `g`, `g + spacing`, ... below the top of the graph keeps. */
  function GridValuesFrom(g: int, p: Prefs): seq<int>
    requires p.hGridlines > 0
    decreases p.topOfGraph - g
  {
    if g >= p.topOfGraph then []
    else (if GridSkipped(g, p) then [] else [g]) + GridValuesFrom(g + p.hGridlines, p)
  }

  /** The gridline values of one frame, in increasing order; none when the spacing is not positive. */
  function GridValues(p: Prefs): seq<int> {
    if p.hGridlines > 0 then GridValuesFrom(0, p) else []
  }

  /** The gridlines drawn for the values `gs`, one after the other. */
  function GridLines(width: int, height: int, gs: seq<int>, p: Prefs): seq<DrawCommand>
    requires GraphBoundsDiffer(p)
  {
    if gs == [] then [] else GridLine(width, height, gs[0], p) + GridLines(width, height, gs[1..], p)
  }

  /** Everything one frame draws: the readings, the two target lines, then the gridlines. */
  function Frame(sgvs: seq<Byte>, width: int, height: int, padding: int, p: Prefs): seq<DrawCommand>
    requires GraphBoundsDiffer(p)
  {
    ReadingCommands(sgvs, width, height, padding, p)
      + TargetLine(width, height, Limits(p)[0], p)
      + TargetLine(width, height, Limits(p)[1], p)
      + GridLines(width, height, GridValues(p), p)
  }

  /** The inner loop shared by the target lines and the gridlines: one segment per step. */
  method DrawDashes(start: int, step: int, len: int, width: int, y: int) returns (segs: seq<DrawCommand>)
    requires step > 0
    ensures segs == Dashes(start, step, len, width, y)
  {
    segs := [];
    var x := start;
    while x < width
      invariant segs + Dashes(x, step, len, width, y) == Dashes(start, step, len, width, y)
      decreases width - x
    {
      segs := segs + [DrawLine(x, y, x + len, y)];
      x := x + step;
    }
  }

  /** The loop over the readings: one square per non-zero entry among the first `count`. */
  method DrawReadings(sgvs: array<Byte>, count: int, width: int, height: int, padding: int, p: Prefs)
    returns (cmds: seq<DrawCommand>)
    requires 0 <= count <= sgvs.Length
    requires GraphBoundsDiffer(p)
    ensures cmds == ReadingCommands(sgvs[..count], width, height, padding, p)
  {
    cmds := [];
    var i := 0;
    while i < count
      invariant 0 <= i <= count
      invariant cmds == ReadingCommands(sgvs[..i], width, height, padding, p)
    {
      // The stored byte is half the glucose value.
      var bg := sgvs[i] as int * 2;
      assert sgvs[..i + 1][..i] == sgvs[..i];
      if bg != 0 {
        var x := PointX(width, i, padding);
        var y := BgToYForPoint(height, bg, p);
        cmds := cmds + [PlotPoint(x, y)];
      }
      i := i + 1;
    }
    assert sgvs[..count] == sgvs[..i];
  }

  /** The loop over the two target range bounds, top first. */
  method DrawTargetLines(width: int, height: int, p: Prefs) returns (cmds: seq<DrawCommand>)
    requires GraphBoundsDiffer(p)
    ensures cmds == TargetLine(width, height, Limits(p)[0], p) + TargetLine(width, height, Limits(p)[1], p)
  {
    var limits := Limits(p);
    cmds := [];
    var i := 0;
    while i < |limits|
      invariant 0 <= i <= |limits|
      invariant cmds == (if i >= 1 then TargetLine(width, height, limits[0], p) else [])
        + (if i >= 2 then TargetLine(width, height, limits[1], p) else [])
    {
      var y := BgToYForLine(height, limits[i], p);
      var segs := DrawDashes(0, 4, 2, width, y);
      cmds := cmds + segs;
      i := i + 1;
    }
  }

  /** The loop over the multiples of the gridline spacing below the top of the graph. */
  method DrawGridlines(width: int, height: int, p: Prefs) returns (cmds: seq<DrawCommand>)
    requires GraphBoundsDiffer(p)
    ensures cmds == GridLines(width, height, GridValues(p), p)
  {
    cmds := [];
    var limits := Limits(p);
    var frequency := p.hGridlines;
    if frequency > 0 {
      var g := 0;
      while g < p.topOfGraph
        invariant cmds + GridLines(width, height, GridValuesFrom(g, p), p)
          == GridLines(width, height, GridValuesFrom(0, p), p)
        decreases p.topOfGraph - g
      {
        var rest := GridValuesFrom(g + frequency, p);
        if g <= p.bottomOfGraph || g == limits[0] || g == limits[1] {
          assert GridValuesFrom(g, p) == rest;
        } else {
          var y := BgToYForLine(height, g, p);
          var segs := DrawDashes(2, 8, 1, width, y);
          assert GridValuesFrom(g, p) == [g] + rest;
          assert ([g] + rest)[1..] == rest;
          cmds := cmds + segs;
        }
        g := g + frequency;
      }
    }
  }

  /** graph_update_proc: the drawing calls of one frame for the first `count` readings of
      `sgvs`. It only reads the buffer. */
  method GraphUpdateProc(sgvs: array<Byte>, count: int, width: int, height: int, padding: int, p: Prefs)
    returns (cmds: seq<DrawCommand>)
    requires 0 <= count <= sgvs.Length
    requires GraphBoundsDiffer(p)
    ensures cmds == Frame(sgvs[..count], width, height, padding, p)
  {
    var points := DrawReadings(sgvs, count, width, height, padding, p);
    var targets := DrawTargetLines(width, height, p);
    var grid := DrawGridlines(width, height, p);
    cmds := points + targets + grid;
  }

  /** Segment `k` of a dashed line starts at `x + k * step`, and there is a segment `k`
      exactly when that start is left of `width`. */
  lemma {:induction false} DashesAt(x: int, step: int, len: int, width: int, y: int, k: nat)
    requires step > 0
    ensures k < |Dashes(x, step, len, width, y)| <==> x + k * step < width
    ensures k < |Dashes(x, step, len, width, y)| ==>
      Dashes(x, step, len, width, y)[k] == DrawLine(x + k * step, y, x + k * step + len, y)
    decreases k
  {
    if x < width && k > 0 {
      DashesAt(x + step, step, len, width, y, k - 1);
      assert x + step + (k - 1) * step == x + k * step;
    } else if x >= width {
      assert k * step >= 0;
    }
  }

  /** A dashed line consists of line segments only. */
  lemma {:induction false} DashesAreLines(x: int, step: int, len: int, width: int, y: int)
    requires step > 0
    ensures forall c :: c in Dashes(x, step, len, width, y) ==> c.DrawLine?
    decreases width - x
  {
    if x < width {
      DashesAreLines(x + step, step, len, width, y);
    }
  }

  /** Gridlines consist of line segments only. */
  lemma {:induction false} GridLinesAreLines(width: int, height: int, gs: seq<int>, p: Prefs)
    requires GraphBoundsDiffer(p)
    ensures forall c :: c in GridLines(width, height, gs, p) ==> c.DrawLine?
    decreases |gs|
  {
    if gs != [] {
      DashesAreLines(2, 8, 1, width, BgToYForLine(height, gs[0], p));
      GridLinesAreLines(width, height, gs[1..], p);
    }
  }

  /** One square per reading that is not zero: their number is the number of entries
      minus the number of zero entries. */
  lemma {:induction false} ReadingCount(sgvs: seq<Byte>, width: int, height: int, padding: int, p: Prefs)
    requires GraphBoundsDiffer(p)
    ensures |ReadingCommands(sgvs, width, height, padding, p)| == |sgvs| - multiset(sgvs)[0]
    decreases |sgvs|
  {
    if |sgvs| > 0 {
      var i := |sgvs| - 1;
      ReadingCount(sgvs[..i], width, height, padding, p);
      assert sgvs == sgvs[..i] + [sgvs[i]];
      assert multiset(sgvs) == multiset(sgvs[..i]) + multiset{sgvs[i]};
    }
  }

  /** The squares drawn are exactly those of the non-zero readings, each at the column of its index. */
  lemma {:induction false} ReadingMembership(sgvs: seq<Byte>, width: int, height: int, padding: int, p: Prefs)
    requires GraphBoundsDiffer(p)
    ensures forall i :: 0 <= i < |sgvs| && sgvs[i] != 0 ==>
      ReadingPoint(i, sgvs[i], width, height, padding, p) in ReadingCommands(sgvs, width, height, padding, p)
    ensures forall c :: c in ReadingCommands(sgvs, width, height, padding, p) ==>
      exists i :: 0 <= i < |sgvs| && sgvs[i] != 0 && c == ReadingPoint(i, sgvs[i], width, height, padding, p)
    decreases |sgvs|
  {
    if |sgvs| > 0 {
      var n := |sgvs| - 1;
      var prefix := sgvs[..n];
      ReadingMembership(prefix, width, height, padding, p);
      forall c | c in ReadingCommands(prefix, width, height, padding, p)
        ensures exists i :: 0 <= i < |sgvs| && sgvs[i] != 0 && c == ReadingPoint(i, sgvs[i], width, height, padding, p)
      {
        var i :| 0 <= i < |prefix| && prefix[i] != 0 && c == ReadingPoint(i, prefix[i], width, height, padding, p);
        assert sgvs[i] == prefix[i];
      }
      forall i | 0 <= i < n && sgvs[i] != 0
        ensures ReadingPoint(i, sgvs[i], width, height, padding, p) in ReadingCommands(sgvs, width, height, padding, p)
      {
        assert prefix[i] == sgvs[i];
      }
    }
  }

  /** A later index gets a column strictly further left. */
  lemma PointXDecreasing(width: int, i: int, j: int, padding: int)
    requires i < j
    ensures PointX(width, j, padding) < PointX(width, i, padding)
  {
  }

  /** Every square drawn for the readings `sgvs` lies right of the column of any index `m`
      at or past their end. */
  lemma {:induction false} ReadingsRightOf(sgvs: seq<Byte>, width: int, height: int, padding: int, p: Prefs, m: int)
    requires GraphBoundsDiffer(p) && |sgvs| <= m
    ensures forall c :: c in ReadingCommands(sgvs, width, height, padding, p) ==>
      c.FillRect? && c.x > PointX(width, m, padding)
    decreases |sgvs|
  {
    if |sgvs| > 0 {
      var n := |sgvs| - 1;
      ReadingsRightOf(sgvs[..n], width, height, padding, p, m);
      PointXDecreasing(width, n, m, padding);
    }
  }

  /** The squares run from right to left: a later reading is drawn strictly further left. */
  lemma {:induction false} ReadingOrder(sgvs: seq<Byte>, width: int, height: int, padding: int, p: Prefs)
    requires GraphBoundsDiffer(p)
    ensures forall k :: 0 <= k < |ReadingCommands(sgvs, width, height, padding, p)| ==>
      ReadingCommands(sgvs, width, height, padding, p)[k].FillRect?
    ensures forall j, k :: 0 <= j < k < |ReadingCommands(sgvs, width, height, padding, p)| ==>
      ReadingCommands(sgvs, width, height, padding, p)[j].x > ReadingCommands(sgvs, width, height, padding, p)[k].x
    decreases |sgvs|
  {
    if |sgvs| > 0 {
      var n := |sgvs| - 1;
      var r := ReadingCommands(sgvs[..n], width, height, padding, p);
      ReadingOrder(sgvs[..n], width, height, padding, p);
      ReadingsRightOf(sgvs[..n], width, height, padding, p, n);
      if sgvs[n] != 0 {
        var all := r + [ReadingPoint(n, sgvs[n], width, height, padding, p)];
        assert ReadingCommands(sgvs, width, height, padding, p) == all;
        forall j, k | 0 <= j < k < |all| ensures all[j].x > all[k].x {
          assert all[j] == r[j] && r[j] in r;
        }
      }
    }
  }

  /** In a whole frame the squares come first and are exactly the readings' squares;
      everything after them is a line segment. */
  lemma FramePoints(sgvs: seq<Byte>, width: int, height: int, padding: int, p: Prefs)
    requires GraphBoundsDiffer(p)
    ensures var r := ReadingCommands(sgvs, width, height, padding, p);
      var f := Frame(sgvs, width, height, padding, p);
      |r| <= |f| && f[..|r|] == r && forall k :: |r| <= k < |f| ==> f[k].DrawLine?
  {
    var r := ReadingCommands(sgvs, width, height, padding, p);
    var t0 := TargetLine(width, height, Limits(p)[0], p);
    var t1 := TargetLine(width, height, Limits(p)[1], p);
    var gl := GridLines(width, height, GridValues(p), p);
    DashesAreLines(0, 4, 2, width, BgToYForLine(height, Limits(p)[0], p));
    DashesAreLines(0, 4, 2, width, BgToYForLine(height, Limits(p)[1], p));
    GridLinesAreLines(width, height, GridValues(p), p);
    var f := Frame(sgvs, width, height, padding, p);
    assert f == r + (t0 + t1 + gl);
    forall k | |r| <= k < |f| ensures f[k].DrawLine? {
      assert f[k] in t0 + t1 + gl;
    }
  }

  /** At least one whole period is at least one period long. */
  lemma MulAtLeastOnce(d: int, f: int)
    requires d >= 1 && f > 0
    ensures d * f >= f
  {
    assert (d - 1) * f >= 0;
  }

  /** Euclidean remainders are unique: a quotient and a remainder in [0, f) that rebuild `n`
      are the ones `/` and `%` give. */
  lemma ModUnique(n: int, f: int, q: int, r: int)
    requires f > 0 && 0 <= r < f && n == q * f + r
    ensures n % f == r
  {
    var q0, r0 := n / f, n % f;
    assert (q - q0) * f == r0 - r;
    if q > q0 {
      MulAtLeastOnce(q - q0, f);
      assert false;
    } else if q < q0 {
      MulAtLeastOnce(q0 - q, f);
      assert false;
    }
  }

  /** A value lies on the grid started at `s` exactly when it is `s` itself or lies on the grid
      started one period later. */
  lemma GridStep(s: int, f: int, g: int)
    requires f > 0
    ensures (s <= g && (g - s) % f == 0) <==> (g == s || (s + f <= g && (g - s - f) % f == 0))
  {
    var a := g - s - f;
    ModUnique(a + f, f, a / f + 1, a % f);
    if s < g < s + f {
      ModUnique(g - s, f, 0, g - s);
    }
  }

  /** From `s` on, the gridline loop keeps exactly the values `s + k * spacing` below the top of
      the graph that are above its bottom and equal to neither target bound, in increasing order. */
  lemma {:induction false} GridValuesFromExact(s: int, p: Prefs)
    requires p.hGridlines > 0
    ensures forall g :: g in GridValuesFrom(s, p) <==>
      s <= g < p.topOfGraph && (g - s) % p.hGridlines == 0 && !GridSkipped(g, p)
    ensures forall j, k :: 0 <= j < k < |GridValuesFrom(s, p)| ==> GridValuesFrom(s, p)[j] < GridValuesFrom(s, p)[k]
    decreases p.topOfGraph - s
  {
    var f := p.hGridlines;
    if s < p.topOfGraph {
      var rest := GridValuesFrom(s + f, p);
      GridValuesFromExact(s + f, p);
      forall g ensures g in GridValuesFrom(s, p) <==>
        s <= g < p.topOfGraph && (g - s) % f == 0 && !GridSkipped(g, p)
      {
        GridStep(s, f, g);
      }
      var head := if GridSkipped(s, p) then [] else [s];
      assert GridValuesFrom(s, p) == head + rest;
      forall j, k | 0 <= j < k < |GridValuesFrom(s, p)|
        ensures GridValuesFrom(s, p)[j] < GridValuesFrom(s, p)[k]
      {
        if j < |head| {
          assert GridValuesFrom(s, p)[k] in rest;
        }
      }
    }
  }

  /** The gridline values are the non-negative multiples of the spacing strictly between the graph
      bounds that equal neither target bound (as stored in 16 bits); none when the spacing is
      not positive. They come in increasing order. */
  lemma GridValuesExact(p: Prefs)
    ensures forall g :: g in GridValues(p) <==>
      p.hGridlines > 0 && 0 <= g && g % p.hGridlines == 0
      && p.bottomOfGraph < g < p.topOfGraph
      && g != ToU16(p.topOfRange) && g != ToU16(p.bottomOfRange)
    ensures forall j, k :: 0 <= j < k < |GridValues(p)| ==> GridValues(p)[j] < GridValues(p)[k]
  {
    if p.hGridlines > 0 {
      GridValuesFromExact(0, p);
    }
  }

  /** With spacing 50, graph bounds 40..400 and target bounds 70..180, gridlines are drawn at
      50, 100, ..., 350: 50 lies above the bottom of the graph, so it is kept. */
  lemma GridlineExample()
    ensures GridValues(Prefs(40, 400, 70, 180, 50)) == [50, 100, 150, 200, 250, 300, 350]
  {
  }

  /** Readings 0, 120, 180 with no padding: the zero entry is skipped and the other two are
      drawn at columns width - 2 * GRAPH_POINT_SIZE and width - 3 * GRAPH_POINT_SIZE. */
  lemma ReadingExample(width: int, height: int, p: Prefs)
    requires GraphBoundsDiffer(p)
    ensures ReadingCommands([0, 120, 180], width, height, 0, p) == [
      PlotPoint(width - 2 * GRAPH_POINT_SIZE, BgToYForPoint(height, 240, p)),
      PlotPoint(width - 3 * GRAPH_POINT_SIZE, BgToYForPoint(height, 360, p))]
  {
    var s: seq<Byte> := [0, 120, 180];
    assert s[..2] == [0, 120] && s[..2][..1] == [0] && s[..2][..1][..0] == [];
    assert ReadingCommands([0], width, height, 0, p) == [];
    assert ReadingCommands([0, 120], width, height, 0, p) == [ReadingPoint(1, 120, width, height, 0, p)];
    assert PointX(width, 1, 0) == width - 2 * GRAPH_POINT_SIZE;
    assert PointX(width, 2, 0) == width - 3 * GRAPH_POINT_SIZE;
  }
}
