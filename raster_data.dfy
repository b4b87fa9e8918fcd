/**
 * `RasterData`: a flat, channel-interleaved, row-major pixel buffer.
 * Element (y, x, c) lives at `y*cols*channels + x*channels + c`.
 */
module Raster {

  /** One more than the largest `uint64_t`. */
  const U64Limit: nat := 0x1_0000_0000_0000_0000

  /** Number of elements a buffer of these dimensions holds. */
  function Size(channels: nat, rows: nat, cols: nat): nat {
    channels * rows * cols
  }

  /** `RasterData::index`: the flat position of channel `c` of pixel (y, x). */
  function Index(channels: nat, cols: nat, y: nat, x: nat, c: nat): nat {
    y * cols * channels + x * channels + c
  }

  /** The inverse of `Index` on a buffer with `channels` channels and `cols` columns. */
  function Coordinates(channels: nat, cols: nat, i: nat): (yxc: (nat, nat, nat))
    requires channels > 0 && cols > 0
  {
    (i / channels / cols, (i / channels) % cols, i % channels)
  }

  /** If `a < b` and `e < d` then `a*d + e < b*d`. */
  lemma {:induction false} MulStep(a: nat, b: nat, d: nat, e: nat)
    requires a < b && e < d
    ensures a * d + e < b * d
    decreases b
  {
    assert b * d == (b - 1) * d + d;
    if a < b - 1 {
      MulStep(a, b - 1, d, e);
    }
  }

  /** Quotient and remainder by `d` are determined by the value. */
  lemma {:induction false} QuotRemUnique(q1: nat, r1: nat, q2: nat, r2: nat, d: nat)
    requires r1 < d && r2 < d
    requires q1 * d + r1 == q2 * d + r2
    ensures q1 == q2 && r1 == r2
  {
    if q1 < q2 {
      MulStep(q1, q2, d, r1);
    } else if q2 < q1 {
      MulStep(q2, q1, d, r2);
    }
  }

  /** The index splits into a pixel number times `channels` plus the channel. */
  lemma IndexAsPixel(channels: nat, cols: nat, y: nat, x: nat, c: nat)
    ensures Index(channels, cols, y, x, c) == (y * cols + x) * channels + c
  {
  }

  /** Every in-bounds triple indexes inside the buffer. */
  lemma {:induction false} IndexInBounds(channels: nat, rows: nat, cols: nat, y: nat, x: nat, c: nat)
    requires y < rows && x < cols && c < channels
    ensures Index(channels, cols, y, x, c) < Size(channels, rows, cols)
  {
    IndexAsPixel(channels, cols, y, x, c);
    MulStep(y, rows, cols, x);
    MulStep(y * cols + x, rows * cols, channels, c);
    assert rows * cols * channels == channels * rows * cols;
  }

  /** Distinct in-bounds triples index distinct elements. */
  lemma {:induction false} IndexInjective(channels: nat, cols: nat, y1: nat, x1: nat, c1: nat, y2: nat, x2: nat, c2: nat)
    requires x1 < cols && x2 < cols && c1 < channels && c2 < channels
    requires Index(channels, cols, y1, x1, c1) == Index(channels, cols, y2, x2, c2)
    ensures y1 == y2 && x1 == x2 && c1 == c2
  {
    IndexAsPixel(channels, cols, y1, x1, c1);
    IndexAsPixel(channels, cols, y2, x2, c2);
    QuotRemUnique(y1 * cols + x1, c1, y2 * cols + x2, c2, channels);
    QuotRemUnique(y1, x1, y2, x2, cols);
  }

  /** `Coordinates` recovers the triple from its index. */
  lemma {:induction false} CoordinatesOfIndex(channels: nat, cols: nat, y: nat, x: nat, c: nat)
    requires x < cols && c < channels
    ensures Coordinates(channels, cols, Index(channels, cols, y, x, c)) == (y, x, c)
  {
    var i := Index(channels, cols, y, x, c);
    IndexAsPixel(channels, cols, y, x, c);
    QuotRemUnique(i / channels, i % channels, y * cols + x, c, channels);
    var p := i / channels;
    QuotRemUnique(p / cols, p % cols, y, x, cols);
  }

  /** Every element of the buffer is the index of exactly the triple `Coordinates` gives. */
  lemma {:induction false} IndexOfCoordinates(channels: nat, rows: nat, cols: nat, i: nat)
    requires channels > 0 && cols > 0 && i < Size(channels, rows, cols)
    ensures var (y, x, c) := Coordinates(channels, cols, i);
      y < rows && x < cols && c < channels && Index(channels, cols, y, x, c) == i
  {
    var (y, x, c) := Coordinates(channels, cols, i);
    var p := i / channels;
    assert i == p * channels + c;
    assert p == y * cols + x;
    IndexAsPixel(channels, cols, y, x, c);
    assert Size(channels, rows, cols) == rows * cols * channels;
    if y >= rows {
      MulMono(rows, y, cols);
      MulMono(rows * cols, p, channels);
      assert false;
    }
  }

  /** Multiplication by a natural number is monotone. */
  lemma MulMono(a: nat, b: nat, d: nat)
    requires a <= b
    ensures a * d <= b * d
  {
    if a < b && d > 0 {
      MulStep(a, b, d, 0);
    }
  }

  /**
   * The buffer object. `data == null` is the empty or moved-from state. The
   * dimensions are `uint64_t` fields; their product is kept below 2^64.
   */
  class RasterData<T(0)> {
    var data: array?<T>
    var channels: nat
    var rows: nat
    var cols: nat

    ghost predicate Valid()
      reads this
    {
      && channels < U64Limit && rows < U64Limit && cols < U64Limit
      && Size(channels, rows, cols) < U64Limit
      && (data != null ==> data.Length == Size(channels, rows, cols))
    }

    /** `RasterData()`: no buffer and all three dimensions zero. */
    constructor Empty()
      ensures Valid()
      ensures data == null && channels == 0 && rows == 0 && cols == 0
    {
      data := null;
      channels, rows, cols := 0, 0, 0;
    }

    /** `RasterData(channels, rows, cols)`: a fresh buffer of exactly `channels*rows*cols` elements. */
    constructor (channels: nat, rows: nat, cols: nat)
      requires Size(channels, rows, cols) < U64Limit
      requires channels < U64Limit && rows < U64Limit && cols < U64Limit
      ensures Valid()
      ensures data != null && fresh(data) && data.Length == Size(channels, rows, cols)
      ensures this.channels == channels && this.rows == rows && this.cols == cols
    {
      data := new T[Size(channels, rows, cols)];
      this.channels, this.rows, this.cols := channels, rows, cols;
    }

    /**
     * Move constructor: takes the other object's buffer and dimensions; the
     * other object keeps its dimensions but loses its buffer.
     */
    constructor Moved(other: RasterData<T>)
      requires other.Valid()
      modifies other
      ensures Valid() && other.Valid()
      ensures data == old(other.data)
      ensures channels == old(other.channels) && rows == old(other.rows) && cols == old(other.cols)
      ensures other.data == null
      ensures other.channels == old(other.channels) && other.rows == old(other.rows)
      ensures other.cols == old(other.cols)
    {
      data := other.data;
      channels, rows, cols := other.channels, other.rows, other.cols;
      new;
      other.data := null;
    }

    /**
     * `moveFrom`: `unique_ptr` move assignment (release, then reset) of the
     * buffer, then plain copies of the three `uint64_t` dimensions, so the
     * source keeps its dimensions. Moving an object into itself keeps it.
     */
    method MoveFrom(other: RasterData<T>)
      requires Valid() && other.Valid()
      modifies this, other
      ensures Valid() && other.Valid()
      ensures data == old(other.data)
      ensures channels == old(other.channels) && rows == old(other.rows) && cols == old(other.cols)
      ensures other != this ==> other.data == null
      ensures other.channels == old(other.channels) && other.rows == old(other.rows)
      ensures other.cols == old(other.cols)
    {
      var released := other.data;
      other.data := null;
      data := released;
      channels := other.channels;
      rows := other.rows;
      cols := other.cols;
    }

    /** Const `pixelComponent`: the element at `Index(y, x, c)`. Out-of-range indices are undefined behaviour. */
    method PixelComponent(y: nat, x: nat, c: nat) returns (v: T)
      requires Valid() && data != null
      requires y < rows && x < cols && c < channels
      ensures Index(channels, cols, y, x, c) < data.Length
      ensures v == data[Index(channels, cols, y, x, c)]
    {
      IndexInBounds(channels, rows, cols, y, x, c);
      v := data[Index(channels, cols, y, x, c)];
    }

    /**
     * A write through the mutable `pixelComponent` reference: exactly the
     * element at `Index(y, x, c)` changes; the dimensions do not.
     */
    method SetPixelComponent(y: nat, x: nat, c: nat, v: T)
      requires Valid() && data != null
      requires y < rows && x < cols && c < channels
      modifies data
      ensures Valid() && unchanged(this)
      ensures Index(channels, cols, y, x, c) < data.Length
      ensures data[..] == old(data[..])[Index(channels, cols, y, x, c) := v]
    {
      IndexInBounds(channels, rows, cols, y, x, c);
      data[Index(channels, cols, y, x, c)] := v;
    }
  }

  /** Distinct in-bounds triples address distinct elements of the buffer. */
  lemma DistinctTriplesDistinctIndices(channels: nat, rows: nat, cols: nat,
                                       y: nat, x: nat, c: nat, y2: nat, x2: nat, c2: nat)
    requires y < rows && x < cols && c < channels
    requires y2 < rows && x2 < cols && c2 < channels
    requires (y2, x2, c2) != (y, x, c)
    ensures Index(channels, cols, y, x, c) != Index(channels, cols, y2, x2, c2)
  {
    if Index(channels, cols, y, x, c) == Index(channels, cols, y2, x2, c2) {
      IndexInjective(channels, cols, y, x, c, y2, x2, c2);
    }
  }

  /** After a write at (y, x, c), every other in-bounds triple reads its old value. */
  lemma OtherComponentsUnchanged<T>(before: seq<T>, channels: nat, rows: nat, cols: nat,
                                    y: nat, x: nat, c: nat, v: T, y2: nat, x2: nat, c2: nat)
    requires |before| == Size(channels, rows, cols)
    requires y < rows && x < cols && c < channels
    requires y2 < rows && x2 < cols && c2 < channels
    requires (y2, x2, c2) != (y, x, c)
    ensures Index(channels, cols, y, x, c) < |before| && Index(channels, cols, y2, x2, c2) < |before|
    ensures before[Index(channels, cols, y, x, c) := v][Index(channels, cols, y2, x2, c2)]
         == before[Index(channels, cols, y2, x2, c2)]
  {
    IndexInBounds(channels, rows, cols, y, x, c);
    IndexInBounds(channels, rows, cols, y2, x2, c2);
    DistinctTriplesDistinctIndices(channels, rows, cols, y, x, c, y2, x2, c2);
  }
}
