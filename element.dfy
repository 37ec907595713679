/** The graph element: the reading buffer it owns and the operations the watch face calls on it. */
module Element {
  import opened Config
  import opened GraphRender

  function Min(a: int, b: int): (m: int)
    ensures m <= a && m <= b && (m == a || m == b)
  {
    if a < b then a else b
  }

  /** The stored readings and their count (GraphData), together with two stand-ins for effects
      outside the graph: `dirty` records that the layer has been marked for redrawing at least
      once (nothing here clears it, so it is not a pending-redraw flag), and
      `statusRefreshes` counts the refreshes asked of the connection status component. */
  class GraphElement {
    var sgvs: array<Byte>
    var count: int
    var dirty: bool
    var statusRefreshes: nat

    /** The count never exceeds the fixed capacity of the buffer. */
    ghost predicate Valid()
      reads this
    {
      sgvs.Length == GRAPH_MAX_SGV_COUNT && 0 <= count <= sgvs.Length
    }

    /** The readings the graph draws. */
    ghost function Readings(): seq<Byte>
      reads this, sgvs
      requires Valid()
    {
      sgvs[..count]
    }

    /** graph_element_create: a buffer of GRAPH_MAX_SGV_COUNT bytes and no readings yet. */
    constructor ()
      ensures Valid() && fresh(sgvs)
      ensures Readings() == [] && !dirty && statusRefreshes == 0
    {
      sgvs := new Byte[GRAPH_MAX_SGV_COUNT];
      count := 0;
      dirty := false;
      statusRefreshes := 0;
    }

    /** graph_element_update: the count is cut down to the capacity (never raised), that many
        bytes are copied to the front of the buffer, the rest of the buffer is left as it was,
        the layer is marked dirty and the connection status is refreshed. */
    method Update(inputCount: int, values: seq<Byte>)
      requires Valid()
      requires 0 <= inputCount && Min(inputCount, GRAPH_MAX_SGV_COUNT) <= |values|
      modifies this, sgvs
      ensures Valid() && sgvs == old(sgvs)
      ensures count == Min(inputCount, GRAPH_MAX_SGV_COUNT)
      ensures Readings() == values[..count]
      ensures sgvs[count..] == old(sgvs[..])[count..]
      ensures dirty && statusRefreshes == old(statusRefreshes) + 1
    {
      var n := if inputCount > GRAPH_MAX_SGV_COUNT then GRAPH_MAX_SGV_COUNT else inputCount;
      count := n;
      // The byte-by-byte copy of memcpy.
      var i := 0;
      while i < n
        invariant 0 <= i <= n
        invariant sgvs[..i] == values[..i]
        invariant sgvs[n..] == old(sgvs[n..])
        modifies sgvs
      {
        sgvs[i] := values[i];
        i := i + 1;
      }
      dirty := true;
      statusRefreshes := statusRefreshes + 1;
    }

    /** graph_element_tick: only the connection status is refreshed; the readings are untouched
        and no redraw is asked for. */
    method Tick()
      requires Valid()
      modifies this`statusRefreshes
      ensures Valid() && Readings() == old(Readings()) && dirty == old(dirty)
      ensures statusRefreshes == old(statusRefreshes) + 1
    {
      statusRefreshes := statusRefreshes + 1;
    }

    /** The drawing calls of one frame of this element (the layer's update procedure). */
    method Render(width: int, height: int, padding: int, p: Prefs) returns (cmds: seq<DrawCommand>)
      requires Valid() && GraphBoundsDiffer(p)
      ensures cmds == Frame(Readings(), width, height, padding, p)
    {
      cmds := GraphUpdateProc(sgvs, count, width, height, padding, p);
    }
  }

  /** Two frames with only a tick between them draw the same thing. */
  method RenderTickRender(e: GraphElement, width: int, height: int, padding: int, p: Prefs)
    returns (first: seq<DrawCommand>, second: seq<DrawCommand>)
    requires e.Valid() && GraphBoundsDiffer(p)
    modifies e
    ensures first == second
  {
    first := e.Render(width, height, padding, p);
    e.Tick();
    second := e.Render(width, height, padding, p);
  }

  /** An update with `n` readings, of which `z` are zero, followed by a frame: when `n` fits in
      the buffer the frame draws exactly `n - z` squares, all before its line segments. */
  method UpdateThenRender(e: GraphElement, n: int, values: seq<Byte>, width: int, height: int, padding: int, p: Prefs)
    returns (cmds: seq<DrawCommand>)
    requires e.Valid() && GraphBoundsDiffer(p)
    requires 0 <= n <= GRAPH_MAX_SGV_COUNT && n <= |values|
    modifies e, e.sgvs
    ensures var points := n - multiset(values[..n])[0];
      0 <= points <= |cmds|
      && (forall k :: 0 <= k < points ==> cmds[k].FillRect?)
      && (forall k :: points <= k < |cmds| ==> cmds[k].DrawLine?)
  {
    e.Update(n, values);
    cmds := e.Render(width, height, padding, p);
    ReadingCount(values[..n], width, height, padding, p);
    ReadingOrder(values[..n], width, height, padding, p);
    FramePoints(values[..n], width, height, padding, p);
  }
}
