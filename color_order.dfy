/** How the three corrected slot values of a pixel are laid out as bytes for the strip's colour order. */
module ColorOrder {
  import opened Pixels
  import opened FadingCurve

  /** `RGBOrderEnum`; `OtherOrder` is any other value, which the source treats as RGB. */
  datatype RGBOrder = RGB | RBG | GRB | GBR | BRG | BGR | OtherOrder(code: int)

  /**
   * The bytes written at offsets o, o + 1 and o + 2 for corrected slot values c0, c1, c2, as
   * the switch in the source places them. The names GBR and BRG do not describe these
   * placements: GBR puts slot 2 first and BRG puts slot 1 first.
   */
  function Place(order: RGBOrder, c0: byte, c1: byte, c2: byte): (b: seq<byte>)
    ensures |b| == 3
  {
    match order
    case RBG => [c0, c2, c1]
    case GRB => [c1, c0, c2]
    case GBR => [c2, c0, c1]
    case BRG => [c1, c2, c0]
    case BGR => [c2, c1, c0]
    case RGB => [c0, c1, c2]
    case OtherOrder(_) => [c0, c1, c2]
  }

  /** The offset (0, 1 or 2) at which `Place` puts slot k. */
  function OffsetOf(order: RGBOrder, k: int): (o: int)
    requires 0 <= k < 3
    ensures 0 <= o < 3
  {
    match order
    case RBG => [0, 2, 1][k]
    case GRB => [1, 0, 2][k]
    case GBR => [1, 2, 0][k]
    case BRG => [2, 0, 1][k]
    case BGR => [2, 1, 0][k]
    case RGB => k
    case OtherOrder(_) => k
  }

  /**
   * Placement is a permutation of the three slots: slot k lands at `OffsetOf(order, k)` and
   * distinct slots land at distinct offsets, so each slot value is written exactly once.
   */
  lemma PlaceIsPermutation(order: RGBOrder, c0: byte, c1: byte, c2: byte)
    ensures var b := Place(order, c0, c1, c2);
            b[OffsetOf(order, 0)] == c0 && b[OffsetOf(order, 1)] == c1 && b[OffsetOf(order, 2)] == c2
    ensures OffsetOf(order, 0) != OffsetOf(order, 1) && OffsetOf(order, 1) != OffsetOf(order, 2)
         && OffsetOf(order, 0) != OffsetOf(order, 2)
  {
  }

  /** The bytes of a composited pixel: each slot corrected through the fading table, then placed. */
  function PackLed(order: RGBOrder, curve: CurveData, s: Slots): (b: seq<byte>)
    requires InRange(s)
    ensures |b| == 3
    ensures b[OffsetOf(order, 0)] == curve[s.s0] && b[OffsetOf(order, 1)] == curve[s.s1]
         && b[OffsetOf(order, 2)] == curve[s.s2]
  {
    PlaceIsPermutation(order, curve[s.s0], curve[s.s1], curve[s.s2]);
    Place(order, curve[s.s0], curve[s.s1], curve[s.s2])
  }

  /**
   * The default order RBG undoes the compositor's swap of blue and green: an opaque sample is
   * emitted as its corrected red, green and blue, in that order. Under RGB the same sample is
   * emitted as red, blue, green.
   */
  lemma DefaultOrderEmitsRedGreenBlue(acc: Slots, p: RGBA, curve: CurveData)
    requires InRange(acc) && p.alpha >= 255
    ensures PackLed(RBG, curve, BlendPixel(acc, p))
         == [curve[Limit(p.red, 0, 255)], curve[Limit(p.green, 0, 255)], curve[Limit(p.blue, 0, 255)]]
    ensures PackLed(RGB, curve, BlendPixel(acc, p))
         == [curve[Limit(p.red, 0, 255)], curve[Limit(p.blue, 0, 255)], curve[Limit(p.green, 0, 255)]]
  {
    var r, g, b := Limit(p.red, 0, 255), Limit(p.green, 0, 255), Limit(p.blue, 0, 255);
    assert BlendPixel(acc, p) == Slots(r, b, g) by {
      assert BlendChannel(255, acc.s0, p.red) == r;
      assert BlendChannel(255, acc.s1, p.blue) == b;
      assert BlendChannel(255, acc.s2, p.green) == g;
    }
  }

  /** Slots (10, 20, 30) under the linear curve: BGR writes 30, 20, 10 and RGB writes 10, 20, 30. */
  lemma TenTwentyThirty()
    ensures PackLed(BGR, LinearCurve(), Slots(10, 20, 30)) == [30, 20, 10]
    ensures PackLed(RGB, LinearCurve(), Slots(10, 20, 30)) == [10, 20, 30]
  {
    var c := LinearCurve();
    assert c[10] == 10 && c[20] == 20 && c[30] == 30;
  }
}
