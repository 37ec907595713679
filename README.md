# Glucose trend graph of the urchin-cgm watch face, in Dafny

This project models the graph element of the urchin-cgm Pebble watch face
(`src/graph_element.c`): the fixed-capacity buffer of recent sensor glucose
values (sgvs) it owns, the map from a glucose value to a screen row
(`bg_to_y` with its point and line modes), and the layout of one frame
(`graph_update_proc`): one filled square per non-zero reading, two dashed
target-range lines and sparser dashed horizontal gridlines.

Modules:

- `Config` (`config.dfy`): the two compile-time constants `GRAPH_POINT_SIZE`
  and `GRAPH_MAX_SGV_COUNT`, the byte type of a stored reading, the display
  preferences (`Prefs`) and the conversion to `uint16_t`. The constants are
  defined in `config.h`, which is not part of this model, so they are
  declared as arbitrary positive values: every property holds for any of them.
- `GraphMapping` (`mapping.dfy`): `bg_to_y`, `bg_to_y_for_point` and
  `bg_to_y_for_line`. Line 17 computes in `float` and converts to `int`; the
  model computes the same expression in exact real arithmetic (`LinearY`)
  and then truncates toward zero (`TruncToInt`), C's rule for converting a
  floating value to an integer (section 6.3.1.4 of ISO C11).
- `GraphRender` (`render.dfy`): the draw commands of one frame. Functions
  (`ReadingCommands`, `Dashes`, `GridValues`, `GridLines`, `Frame`) specify
  the frame; the methods `DrawReadings`, `DrawDashes`, `DrawTargetLines`,
  `DrawGridlines` and `GraphUpdateProc` run the loops of `graph_update_proc`
  and are proved to produce exactly that frame. Lemmas state what a frame
  contains.
- `Element` (`element.dfy`): the class `GraphElement`, holding the `sgvs`
  array and `count`, with `Update` (`graph_element_update`), `Tick`
  (`graph_element_tick`) and `Render`. The field `dirty` records
  `layer_mark_dirty`; the field `statusRefreshes` counts calls to
  `connection_status_component_refresh`.

Behaviour of the code worth noting:

- Gridlines: the loop starts at `g = 0` and skips only `g <= bottom_of_graph`
  and the two target bounds. With spacing 50, graph bounds 40..400 and
  target bounds 70 and 180, the code draws 50, 100, ..., 350; 50 is drawn
  because it lies above 40 (`GridlineExample`). Likewise `g = 0` is drawn
  when `bottom_of_graph` is negative.
- Reading columns: readings 0, 120, 180 with no padding are drawn at
  `width - 2 * GRAPH_POINT_SIZE` and `width - 3 * GRAPH_POINT_SIZE`
  (indices 1 and 2 in `w - P * (1 + i + padding)`), see `ReadingExample`.
- The target bounds are stored in a `uint16_t` array (line 54), so they are
  reduced modulo 2^16 both where their lines are drawn and where gridlines
  are compared with them.
- `bg_to_y` only needs the graph bounds to differ (it divides by their
  difference); monotonicity is proved for `top_of_graph > bottom_of_graph`
  and a non-negative height.

## Model

| member | source | states |
|---|---|---|
| `Config.ToU16` | src/graph_element.c:54 | storing a target bound in `uint16_t` gives a value in [0, 65536) congruent to it modulo 2^16, and leaves values already in that range alone |
| `GraphMapping.TruncToInt` | src/graph_element.c:17 | the conversion to `int` drops the fraction toward zero: for a non-negative value the result is at most it and within one below it, for a negative value at least it and within one above it |
| `GraphMapping.BgToY` | src/graph_element.c:13-26 | without `fit_in_bounds` the result is the raw row; with it and `min <= max` the result lies in [min, max]; it equals the raw row when that is already inside, is `min` when the raw row is below `min`, and is `max` when the raw row is above `max` (and not below `min`) |
| `GraphMapping.BgToYForPoint` | src/graph_element.c:28-30 | when `height >= GRAPH_POINT_SIZE` the row lies in [0, height - GRAPH_POINT_SIZE]; a raw row already in that range is kept, a raw row above the surface goes to 0, and one below the band goes to height - GRAPH_POINT_SIZE |
| `GraphMapping.BgToYForLine` | src/graph_element.c:32-34 | the line row is always the raw row: the bounds -1 and height - 1 passed in are never applied |
| `GraphMapping.TruncToIntMonotone` | src/graph_element.c:17 | truncation toward zero preserves order |
| `GraphMapping.RawYAtGraphBounds` | src/graph_element.c:17 | the bottom of the graph maps to row height - 1 and the top of the graph to row -1 |
| `GraphMapping.LinearYMonotone` | src/graph_element.c:17 | before conversion, the row is non-increasing in the glucose value when top_of_graph > bottom_of_graph and height >= 0 |
| `GraphMapping.RawYMonotone` | src/graph_element.c:17 | after conversion the row is still non-increasing in the glucose value |
| `GraphMapping.PointYMonotone` | src/graph_element.c:18-30 | the clamped point row is non-increasing in the glucose value |
| `GraphMapping.LineYLeavesBand` | src/graph_element.c:13-34 | with height 100 and graph bounds 40..400, value 400 gives line row -1 and value 500 gives -28, below the -1 bound that line mode passes but does not apply |
| `GraphRender.PlotPoint` | src/graph_element.c:8-11 | a reading's mark is a filled rectangle whose corner is (x, y) and whose width and height are both GRAPH_POINT_SIZE |
| `GraphRender.DrawDashes` | src/graph_element.c:57-59 | the dash loop emits exactly the segments of `Dashes`: one per start x, x + step, ... left of the width |
| `GraphRender.DrawReadings` | src/graph_element.c:42-51 | the reading loop emits exactly `ReadingCommands` of the first `count` readings |
| `GraphRender.DrawTargetLines` | src/graph_element.c:53-60 | the limits loop emits the dashed line of the top of range, then that of the bottom of range, each at its line-mode row |
| `GraphRender.DrawGridlines` | src/graph_element.c:62-76 | the gridline loop emits the gridlines of exactly the values `GridValues`, in increasing order, and nothing when the spacing is not positive |
| `GraphRender.GraphUpdateProc` | src/graph_element.c:36-77 | one frame is the reading squares, the two target lines and the gridlines, in that order, computed from the buffer without changing it |
| `GraphRender.DashesAt` | src/graph_element.c:57-59 | segment k of a dashed line runs from x + k * step for `len` pixels on its row, and segment k exists exactly when x + k * step < width (target lines: 0, 4, 8, ...; gridlines: 2, 10, 18, ...) |
| `GraphRender.ReadingCount` | src/graph_element.c:42-51 | the number of squares is the number of readings minus the number of zero readings |
| `GraphRender.ReadingMembership` | src/graph_element.c:42-51 | every non-zero reading i gets a square at column w - P * (1 + i + padding) and point-mode row of twice its byte, and every square drawn is such a square |
| `GraphRender.PointXDecreasing` | src/graph_element.c:48 | the column w - P * (1 + i + padding) is strictly decreasing in the reading index i |
| `GraphRender.ReadingOrder` | src/graph_element.c:48 | the squares are filled rectangles and their columns strictly decrease, so no reading is drawn twice |
| `GraphRender.FramePoints` | src/graph_element.c:36-77 | a frame starts with the reading squares and everything after them is a line segment |
| `GraphRender.GridValuesFromExact` | src/graph_element.c:67-70 | from a start s the gridline loop keeps exactly the values s + k * spacing below the top of the graph that are above its bottom and equal neither target bound, increasing |
| `GraphRender.GridValuesExact` | src/graph_element.c:63-70 | gridlines are drawn exactly at the non-negative multiples of the spacing strictly between the graph bounds that equal neither stored target bound; none when the spacing is not positive |
| `GraphRender.GridlineExample` | src/graph_element.c:63-76 | spacing 50, graph bounds 40..400, target bounds 70 and 180 give gridlines at 50, 100, ..., 350 |
| `GraphRender.ReadingExample` | src/graph_element.c:42-51 | readings 0, 120, 180 with no padding draw two squares, at w - 2P and w - 3P, for glucose values 240 and 360 |
| `Element.GraphElement.constructor` | src/graph_element.c:79-96 | a new element owns a fresh buffer of GRAPH_MAX_SGV_COUNT bytes and holds no readings |
| `Element.GraphElement.Update` | src/graph_element.c:105-116 | the count becomes min(input count, GRAPH_MAX_SGV_COUNT); the first count bytes equal the input, the rest of the buffer is unchanged, no write goes past the capacity; the layer is marked dirty and the connection status refreshed |
| `Element.GraphElement.Tick` | src/graph_element.c:118-120 | only the connection status is refreshed: readings, count and the dirty mark are unchanged |
| `Element.GraphElement.Render` | src/graph_element.c:36-42 | a frame of the element is the frame of its stored readings |
| `Element.RenderTickRender` | src/graph_element.c:118-120 | two frames with only a tick between them are identical |
| `Element.UpdateThenRender` | src/graph_element.c:105-113 | after an update with n readings that fit in the buffer, a frame draws exactly n minus the number of zero readings squares, followed only by line segments |

## Left out

- The Pebble graphics and layer calls (`graphics_context_set_fill_color` with `GColorBlack`, `graphics_fill_rect` and its corner arguments `0, GCornerNone`, `graphics_draw_line`, `layer_create_with_data`, `layer_add_child`, `layer_destroy`) are replaced by a list of draw commands; clipping off-surface coordinates is the host's job.
- The 16-bit `GPoint`, `GRect` and `GSize` fields: coordinates are unbounded integers, so a coordinate outside the `int16_t` range is not wrapped.
- The IEEE `float` rounding of line 17: the model uses exact arithmetic followed by truncation toward zero; a value within a rounding error of an integer may convert differently on the device.
- Overflow of `int` arithmetic (the gridline counter `g += h_gridline_frequency`, the column formula): integers are unbounded.
- `malloc` and `free` in `graph_element_create` and `graph_element_destroy`: the constructor allocates the array; `graph_element_destroy` is not modelled. The fresh buffer holds arbitrary bytes, as after `malloc`; the count is 0, so no byte is read before an update writes it.
- The connection status component (`connection_status_component_create`, `destroy`, `refresh`): foreign calls, represented only by the `statusRefreshes` counter.
- `dict_find` and the `DictionaryIterator` decoding: `Update` takes the count and the bytes directly.
- `get_prefs()` and `graph_staleness_padding()`: their values are parameters (`Prefs`, `padding`); `preferences.h` and `staleness.h` are not part of this model.
- `Element.GraphElement.Update`: requires a non-negative count, because the code clamps only from above and a negative count would reach `memcpy` as a huge size; it also requires at least min(count, capacity) input bytes, the number `memcpy` reads.
- The signedness of `char`: stored readings are taken as unsigned bytes 0..255, as the buffer's values are described.
