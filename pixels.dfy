/** Pixel values of the LED strip toy and the per-pixel alpha compositing of its layers. */
module Pixels {

  /** An unsigned 8-bit value, the element type of the output buffer and of a fading curve. */
  newtype byte = b: int | 0 <= b < 256

  /** int.MaxValue of the source's 32-bit int. */
  const IntMax: int := 2147483647

  /** The `Limit` extension the source uses for clamping: the value forced into [lo, hi]. */
  function Limit(v: int, lo: int, hi: int): (r: int)
    requires lo <= hi
    ensures lo <= r <= hi
    ensures lo <= v <= hi ==> r == v
    ensures v < lo ==> r == lo
    ensures v > hi ==> r == hi
  {
    if v < lo then lo else if v > hi then hi else v
  }

  /** One sample of a layer: four int channels, each clamped to 0..255 when it is used. */
  datatype RGBA = RGBA(red: int, green: int, blue: int, alpha: int)

  /** A two-dimensional `RGBAData[,]` array, indexed `[x, y]`: `dim0` and `dim1` are its lengths. */
  datatype RawGrid = RawGrid(dim0: nat, dim1: nat, cells: seq<seq<RGBA>>)

  predicate WellShaped(g: RawGrid) {
    |g.cells| == g.dim0 && forall x :: 0 <= x < |g.cells| ==> |g.cells[x]| == g.dim1
  }

  /** A rectangular layer grid (a C# two-dimensional array is never ragged). */
  type Grid = g: RawGrid | WellShaped(g) witness RawGrid(0, 0, [])

  function Cell(g: Grid, x: nat, y: nat): RGBA
    requires x < g.dim0 && y < g.dim1
  {
    g.cells[x][y]
  }

  /** Every grid of the stack covers the pixel (x, y). */
  predicate Covers(stack: seq<Grid>, x: nat, y: nat) {
    forall j :: 0 <= j < |stack| ==> x < stack[j].dim0 && y < stack[j].dim1
  }

  /**
   * The entry `AlphaMappingTable.AlphaMapping[a, v]`: the share `a/255` of the value `v`,
   * rounded down. Both indices must lie in 0..255, as for the 256 x 256 table.
   */
  function AlphaMapping(a: int, v: int): (r: int)
    requires 0 <= a <= 255 && 0 <= v <= 255
    ensures 0 <= r <= a && r <= v
    ensures a == 0 ==> r == 0
    ensures a == 255 ==> r == v
  {
    MulBelow(a, v, 255);
    MulBelow(v, a, 255);
    a * v / 255
  }

  lemma MulBelow(a: int, v: int, n: int)
    requires 0 <= a && 0 <= v <= n
    ensures a * v <= a * n
  {
  }

  /** The three accumulator slots `Value[x, y, 0..2]` of one pixel. */
  datatype Slots = Slots(s0: int, s1: int, s2: int)

  const Black: Slots := Slots(0, 0, 0)

  /** Every slot is a valid index of the alpha mapping table and of a fading curve. */
  predicate InRange(s: Slots) {
    0 <= s.s0 <= 255 && 0 <= s.s1 <= 255 && 0 <= s.s2 <= 255
  }

  /** One slot after a sample with alpha `a` (1..255) and channel value `c` is laid over it. */
  function BlendChannel(a: int, acc: int, c: int): (r: int)
    requires 1 <= a <= 255 && 0 <= acc <= 255
    ensures 0 <= r <= 255
  {
    AlphaMapping(255 - a, acc) + AlphaMapping(a, Limit(c, 0, 255))
  }

  /**
   * One compositing step for one pixel. A sample whose clamped alpha is 0 leaves the slots
   * alone; otherwise slot 0 is blended with the red channel, slot 1 with the BLUE channel
   * and slot 2 with the GREEN channel, as the source does.
   */
  function BlendPixel(acc: Slots, p: RGBA): (r: Slots)
    requires InRange(acc)
    ensures InRange(r)
  {
    var a := Limit(p.alpha, 0, 255);
    if a == 0 then acc
    else Slots(BlendChannel(a, acc.s0, p.red),
               BlendChannel(a, acc.s1, p.blue),
               BlendChannel(a, acc.s2, p.green))
  }

  /** The slots of pixel (x, y) after the layers of `stack` were laid, in order, over black. */
  function CompositeAt(stack: seq<Grid>, x: nat, y: nat): (r: Slots)
    requires Covers(stack, x, y)
    ensures InRange(r)
    decreases |stack|
  {
    if stack == [] then Black
    else BlendPixel(CompositeAt(stack[..|stack| - 1], x, y), Cell(stack[|stack| - 1], x, y))
  }

  /** Laying one more layer over a stack is one compositing step on the pixel. */
  lemma {:induction false} CompositeAtSnoc(stack: seq<Grid>, g: Grid, x: nat, y: nat)
    requires Covers(stack, x, y) && x < g.dim0 && y < g.dim1
    ensures Covers(stack + [g], x, y)
    ensures CompositeAt(stack + [g], x, y) == BlendPixel(CompositeAt(stack, x, y), Cell(g, x, y))
  {
    assert (stack + [g])[..|stack|] == stack;
  }

  /** A sample whose alpha is 0 or less leaves every slot as it was. */
  lemma TransparentSampleKeepsSlots(acc: Slots, p: RGBA)
    requires InRange(acc) && p.alpha <= 0
    ensures BlendPixel(acc, p) == acc
  {
  }

  /**
   * A layer that is transparent at (x, y) does not change the pixel: it contributes nothing
   * and does not clear the layers beneath it.
   */
  lemma {:induction false} TransparentLayerKeepsPixel(stack: seq<Grid>, g: Grid, x: nat, y: nat)
    requires Covers(stack, x, y) && x < g.dim0 && y < g.dim1
    requires Cell(g, x, y).alpha <= 0
    ensures Covers(stack + [g], x, y)
    ensures CompositeAt(stack + [g], x, y) == CompositeAt(stack, x, y)
  {
    CompositeAtSnoc(stack, g, x, y);
  }

  /**
   * A layer that is opaque at (x, y) replaces the pixel: whatever lies beneath it, the slots
   * become its clamped red, blue and green channels, in that order.
   */
  lemma {:induction false} OpaqueLayerReplacesPixel(stack: seq<Grid>, g: Grid, x: nat, y: nat)
    requires Covers(stack, x, y) && x < g.dim0 && y < g.dim1
    requires Cell(g, x, y).alpha >= 255
    ensures Covers(stack + [g], x, y)
    ensures CompositeAt(stack + [g], x, y)
         == Slots(Limit(Cell(g, x, y).red, 0, 255), Limit(Cell(g, x, y).blue, 0, 255), Limit(Cell(g, x, y).green, 0, 255))
  {
    CompositeAtSnoc(stack, g, x, y);
  }

  /** The pixel of a stack depends only on the samples at that pixel, not on the rest of the grids. */
  lemma {:induction false} CompositeAtIsLocal(s: seq<Grid>, t: seq<Grid>, x: nat, y: nat)
    requires Covers(s, x, y) && Covers(t, x, y) && |s| == |t|
    requires forall j :: 0 <= j < |s| ==> Cell(s[j], x, y) == Cell(t[j], x, y)
    ensures CompositeAt(s, x, y) == CompositeAt(t, x, y)
    decreases |s|
  {
    if s != [] {
      CompositeAtIsLocal(s[..|s| - 1], t[..|t| - 1], x, y);
    }
  }

  /** A one-pixel grid holding the single sample p. */
  function Single(p: RGBA): (g: Grid)
    ensures g.dim0 == 1 && g.dim1 == 1 && Cell(g, 0, 0) == p
  {
    RawGrid(1, 1, [[p]])
  }

  /**
   * The compositing step on a sample whose alpha lies in 1..255: every slot is blended with
   * that alpha, slot 0 with the red channel, slot 1 with blue and slot 2 with green.
   */
  lemma BlendVisibleSample(acc: Slots, p: RGBA)
    requires InRange(acc) && 1 <= p.alpha <= 255
    ensures BlendPixel(acc, p)
         == Slots(BlendChannel(p.alpha, acc.s0, p.red), BlendChannel(p.alpha, acc.s1, p.blue),
                  BlendChannel(p.alpha, acc.s2, p.green))
  {
  }

  /** Half alpha over a full slot keeps 127 of it. */
  lemma HalfAlphaOverFull()
    ensures BlendChannel(128, 255, 0) == 127
  {
  }

  /** Half alpha over an empty slot yields 128 of a full channel and 0 of an empty one. */
  lemma HalfAlphaOverEmpty()
    ensures BlendChannel(128, 0, 255) == 128 && BlendChannel(128, 0, 0) == 0
  {
  }

  /** Half-transparent green over full red: red drops to 127 and slot 2 gets green 128. */
  lemma HalfGreenOverRed()
    ensures BlendPixel(Slots(255, 0, 0), RGBA(0, 255, 0, 128)) == Slots(127, 0, 128)
  {
    BlendVisibleSample(Slots(255, 0, 0), RGBA(0, 255, 0, 128));
    HalfAlphaOverFull();
    HalfAlphaOverEmpty();
  }

  /** A single opaque red layer composites to full red in slot 0. */
  lemma OpaqueRedAlone(red: RGBA)
    requires red == RGBA(255, 0, 0, 255)
    ensures CompositeAt([Single(red)], 0, 0) == Slots(255, 0, 0)
  {
    assert [Single(red)] == [] + [Single(red)];
    OpaqueLayerReplacesPixel([], Single(red), 0, 0);
  }

  /**
   * Opaque red under half-transparent green: with the alpha table rounding down, the slots
   * hold red 127 and green 128, the green value sitting in slot 2.
   */
  lemma RedUnderHalfGreen(red: RGBA, green: RGBA)
    requires red == RGBA(255, 0, 0, 255) && green == RGBA(0, 255, 0, 128)
    ensures CompositeAt([Single(red), Single(green)], 0, 0) == Slots(127, 0, 128)
  {
    var below := [Single(red)];
    assert [Single(red), Single(green)] == below + [Single(green)];
    CompositeAtSnoc(below, Single(green), 0, 0);
    OpaqueRedAlone(red);
    HalfGreenOverRed();
  }
}
