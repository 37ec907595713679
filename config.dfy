/** Compile-time constants of the watch face and the preference values the graph reads. */
module Config {
  /** A strictly positive integer. */
  type Positive = n: int | n > 0 witness 1

  /** One stored reading: a glucose concentration halved so that it fits in one unsigned byte. */
  type Byte = n: int | 0 <= n < 256

  /** Side, in pixels, of the square drawn for one reading. Its value lives outside this
      model, so every property below holds for any positive side. */
  const GRAPH_POINT_SIZE: Positive

  /** Capacity of the reading buffer. Its value lives outside this model, so every
      property below holds for any positive capacity. */
  const GRAPH_MAX_SGV_COUNT: Positive

  /** The display preferences the graph reads on every frame, in concentration units. */
  datatype Prefs = Prefs(
    bottomOfGraph: int,
    topOfGraph: int,
    bottomOfRange: int,
    topOfRange: int,
    hGridlines: int)

  /** The graph bounds may not coincide: the mapping divides by their difference. */
  predicate GraphBoundsDiffer(p: Prefs) {
    p.topOfGraph != p.bottomOfGraph
  }

  /** Conversion of an `int` to `uint16_t`: reduction modulo 2^16. */
  function ToU16(v: int): (r: int)
    ensures 0 <= r < 0x1_0000
    ensures (r - v) % 0x1_0000 == 0
    ensures 0 <= v < 0x1_0000 ==> r == v
  {
    v % 0x1_0000
  }
}
