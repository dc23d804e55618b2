# LED strip toy of DirectOutput, modelled in Dafny

This project models the addressable LED strip toy of DirectOutput (`LedStrip`). The toy
holds a set of RGBA layers, each a width x height grid. On every update it:

- alpha-composites the layers into a three-slot accumulator per pixel;
- passes each slot through the brightness-correction table of its fading curve;
- lays the three bytes of each LED out in the strip's colour order;
- writes them at the byte offset the wiring topology assigns to the pixel;
- hands the whole buffer to the bound output controller.

Modules:

- `Pixels` (pixels.dfy): samples, grids, the `Limit` clamp, the alpha mapping table and the compositing step. `CompositeAt` defines the composite of a layer stack at one pixel.
- `Arrangement` (arrangement.dfy): the sixteen wiring formulas `LedIndex` and the fallback for an unrecognized value. It also defines their inverse `Coord` and proves that each formula is a bijection from the w x h pixels onto the LED numbers 0 .. w*h - 1.
- `FadingCurve` (fading_curve.dfy): the 256-entry correction table and how the toy resolves its curve by name against the cabinet's registry (`InitFadingCurve`).
- `ColorOrder` (color_order.dfy): the byte placement of the six colour orders, modelled literally, and the packing of one LED.
- `LedStripToy` (led_strip.dfy):
  - `class LedStrip` holds the device state: the mapping table as an `array2`, the output buffer as an `array`, and the layer dictionary as a `map`. Two ghost logs record the `SetValues` calls made on the controller and the "unknown arrangement" diagnostics.
  - `Frame` is the specification of the buffer that one `SetOutputData` pass produces.
  - `method SetOutputData` is an imperative pass over arrays, like the source's, proved against `Frame`.

Points where the model takes a position:

- **Green/blue swap.** The compositor feeds slot 1 from a sample's blue channel and slot 2 from its green channel. The model keeps this swap (`BlendPixel`). With the default colour order RBG, the strip receives red, green, blue (`ColorOrder.DefaultOrderEmitsRedGreenBlue`). Under RGB it receives red, blue, green.
- **Opaque red under 50% green.** This gives slots (127, 0, 128): red 127 in slot 0 and green 128 in slot 2. As an (R, G, B) triple, that is (127, 128, 0), what source-over compositing of these two samples gives.
- **No clamping of the accumulator.** The source does not clamp the accumulator before the `(int)` table lookup. The model follows the code and proves that a clamp there would be redundant: with the table rounding down, every slot stays in 0..255 (`BlendChannel`).
- **Layer order.** Layers are composited in the enumeration order of the layer dictionary. That order is a parameter, `order`, which must list every key exactly once (`IsEnumeration`). The code takes whatever order the dictionary gives. The model covers every such order; ascending key order is one such order.
- **Reset payload.** `Reset` sends `NumberOfLeds` zero bytes (not `NumberOfOutputs`) starting at output `FirstLedNumber * 3`, as the code does.

## Model

| member | source | states |
|---|---|---|
| Arrangement.CoordOfLedIndex | DirectOutput/Cab/Toys/Layer/LedStrip.cs:255-321 | For each of the 16 arrangements and the fallback, the LED number of every pixel lies in [0, W*H), and `Coord` recovers the pixel from it. |
| Arrangement.LedIndexOfCoord | DirectOutput/Cab/Toys/Layer/LedStrip.cs:255-321 | Every LED number in [0, W*H) is the LED of the pixel `Coord` names, so the wiring map is onto (with `CoordOfLedIndex`, a bijection). |
| Arrangement.LedIndexInjective | DirectOutput/Cab/Toys/Layer/LedStrip.cs:255-321 | Distinct pixels are wired to distinct LEDs. |
| Arrangement.UnrecognizedIsLeftRightTopDown | DirectOutput/Cab/Toys/Layer/LedStrip.cs:310-317 | An unknown arrangement value gives exactly the LeftRightTopDown number y*W + x. |
| Arrangement.LedIndex | DirectOutput/Cab/Toys/Layer/LedStrip.cs:260-318 | Every arrangement, and the fallback, wires each pixel of a W x H matrix to an LED number in [0, W*H). |
| Arrangement.ThreeByTwoRows | DirectOutput/Cab/Toys/Layer/LedStrip.cs:262-273 | On a 3 x 2 strip, read (0,0) (1,0) (2,0) (0,1) (1,1) (2,1): LeftRightTopDown and any unknown value number it 0 1 2 3 4 5, LeftRightBottomUp 3 4 5 0 1 2, RightLeftTopDown 2 1 0 5 4 3, RightLeftBottomUp 5 4 3 2 1 0. |
| Arrangement.ThreeByTwoColumns | DirectOutput/Cab/Toys/Layer/LedStrip.cs:274-285 | In the same reading order: TopDownLeftRight 0 2 4 1 3 5, TopDownRightLeft 4 2 0 5 3 1, BottomUpLeftRight 1 3 5 0 2 4, BottomUpRightLeft 5 3 1 4 2 0. |
| Arrangement.ThreeByTwoRowSerpentines | DirectOutput/Cab/Toys/Layer/LedStrip.cs:286-297 | LeftRightAlternateTopDown 0 1 2 5 4 3, LeftRightAlternateBottomUp 5 4 3 0 1 2, RightLeftAlternateTopDown 2 1 0 3 4 5, RightLeftAlternateBottomUp 3 4 5 2 1 0: every other row runs backwards. |
| Arrangement.ThreeByTwoColumnSerpentines | DirectOutput/Cab/Toys/Layer/LedStrip.cs:298-309 | TopDownAlternateLeftRight 0 3 4 1 2 5, TopDownAlternateRightLeft 5 2 1 4 3 0, BottomUpAlternateLeftRight 1 2 5 0 3 4, BottomUpAlternateRightLeft 4 3 0 5 2 1: every other column runs backwards. |
| LedStripToy.LedStrip.BuildMappingTables | DirectOutput/Cab/Toys/Layer/LedStrip.cs:248-324 | A fresh W x H table holds 3 * LedNr for every pixel. One diagnostic is logged for an unknown arrangement when the table is non-empty, and none otherwise. |
| Pixels.Limit | DirectOutput/Cab/Toys/Layer/LedStrip.cs:349 | The clamp lands in [lo, hi], is the identity inside it and gives lo or hi outside it. |
| Pixels.AlphaMapping | DirectOutput/Cab/Toys/Layer/LedStrip.cs:352-354 | The table entry is at most both indices, and is 0 for alpha 0 and the value itself for alpha 255. |
| Pixels.BlendChannel | DirectOutput/Cab/Toys/Layer/LedStrip.cs:352-354 | A blended slot stays in 0..255, so the unclamped `(int)Value` indexing of the alpha table and of the fading table is in bounds. |
| Pixels.CompositeAt | DirectOutput/Cab/Toys/Layer/LedStrip.cs:338-359 | The composite of any layer stack over the zeroed accumulator is a valid slot triple. |
| Pixels.CompositeAtSnoc | DirectOutput/Cab/Toys/Layer/LedStrip.cs:340-358 | Unfolding step: the composite with one more layer on top is `BlendPixel` of the composite below and the new layer's sample. |
| Pixels.TransparentSampleKeepsSlots | DirectOutput/Cab/Toys/Layer/LedStrip.cs:349-350 | A sample whose clamped alpha is 0 leaves all three slots unchanged. |
| Pixels.BlendPixel | DirectOutput/Cab/Toys/Layer/LedStrip.cs:349-355 | One compositing step keeps every slot in 0..255. |
| Pixels.BlendVisibleSample | DirectOutput/Cab/Toys/Layer/LedStrip.cs:349-355 | Unfolding step used by the examples: for alpha 1..255, slot 0 is blended with red, slot 1 with blue and slot 2 with green. |
| Pixels.TransparentLayerKeepsPixel | DirectOutput/Cab/Toys/Layer/LedStrip.cs:349-355 | A layer transparent at a pixel leaves that pixel's composite as it was. |
| Pixels.OpaqueLayerReplacesPixel | DirectOutput/Cab/Toys/Layer/LedStrip.cs:349-355 | A layer opaque at a pixel replaces it with its clamped red, blue and green, in that slot order. |
| Pixels.CompositeAtIsLocal | DirectOutput/Cab/Toys/Layer/LedStrip.cs:345-357 | A pixel's composite depends only on the layers' samples at that pixel. |
| Pixels.RedUnderHalfGreen | DirectOutput/Cab/Toys/Layer/LedStrip.cs:349-355 | Opaque red under 50% green composites to slots (127, 0, 128). |
| Pixels.HalfGreenOverRed | DirectOutput/Cab/Toys/Layer/LedStrip.cs:352-354 | One 50% green step over full red gives (127, 0, 128). |
| LedStripToy.BlendLayer | DirectOutput/Cab/Toys/Layer/LedStrip.cs:340-359 | One pass of the layer loop turns an accumulator holding the composite of the layers below into one holding the composite with this layer added, at every pixel. |
| ColorOrder.Place | DirectOutput/Cab/Toys/Layer/LedStrip.cs:364-439 | Each colour order writes exactly three bytes per LED. |
| ColorOrder.PlaceIsPermutation | DirectOutput/Cab/Toys/Layer/LedStrip.cs:364-439 | Each colour order puts slot k at offset `OffsetOf(order, k)`, and the three offsets are distinct. So each corrected slot is written once, at the offsets the switch names, GBR and BRG included. |
| ColorOrder.DefaultOrderEmitsRedGreenBlue | DirectOutput/Cab/Toys/Layer/LedStrip.cs:352-437 | An opaque sample is emitted as corrected R, G, B under RBG, the default colour order (line 89), and as R, B, G under RGB. |
| ColorOrder.PackLed | DirectOutput/Cab/Toys/Layer/LedStrip.cs:363-435 | One LED is three bytes, and corrected slot k lands at offset `OffsetOf(order, k)`. |
| ColorOrder.TenTwentyThirty | DirectOutput/Cab/Toys/Layer/LedStrip.cs:414-437 | Slots (10, 20, 30) under a linear curve are written 30 20 10 by BGR and 10 20 30 by RGB. |
| FadingCurve.LinearCurve | DirectOutput/Cab/Toys/Layer/LedStrip.cs:156 | The linear curve maps every brightness to itself. |
| FadingCurve.ResolveFadingCurve | DirectOutput/Cab/Toys/Layer/LedStrip.cs:134-159 | The resolution order, and which names get registered. In order: a registered curve; else, for a non-blank curve-type name, a curve of that type; else, for a non-blank name, a linear curve with the name added to the registry; else an anonymous linear curve. Existing entries are kept. In the third case the registry becomes the old one with the name bound to a linear curve; in the other cases it is unchanged. |
| FadingCurve.BlankNames | DirectOutput/Cab/Toys/Layer/LedStrip.cs:140 | `IsNullOrWhiteSpace` holds for the empty name and for names of spaces, tabs, newlines, no-break and ideographic spaces, and fails for "Linear" and " x ". |
| FadingCurve.ResolveIsStable | DirectOutput/Cab/Toys/Layer/LedStrip.cs:134-159 | Resolving again against the registry the first lookup left behind gives the same curve and the same registry. |
| LedStripToy.LedStrip.InitFadingCurve | DirectOutput/Cab/Toys/Layer/LedStrip.cs:134-159 | The toy's curve and the cabinet's registry become those the resolution order gives. |
| LedStripToy.LedStrip.Init | DirectOutput/Cab/Toys/Layer/LedStrip.cs:194-206 | The controller is bound only if the cabinet has one of that name that accepts raw values; otherwise the old binding stays. Init yields the mapping table, a zeroed buffer of `NumberOfOutputs` bytes and the resolved curve, and leaves layers and the controller log alone. |
| LedStripToy.LedStrip.Reset | DirectOutput/Cab/Toys/Layer/LedStrip.cs:213-216 | Exactly one call is logged: `NumberOfLeds` zero bytes at output `FirstLedNumber * 3`, a 32-bit product. |
| LedStripToy.LedStrip.UpdateOutputs | DirectOutput/Cab/Toys/Layer/LedStrip.cs:221-229 | With no bound controller or no layers, nothing changes and nothing is logged. Otherwise the buffer becomes the frame of the current layers, and exactly one `SetValues(NumberOfOutputs, buffer)` is logged. |
| LedStripToy.LedStrip.SetLayer | DirectOutput/Cab/Toys/Layer/LedStrip.cs:235-241 | The grid is stored under its key exactly when it is W x H; otherwise, and for every other key, the layers are unchanged. |
| LedStripToy.LedStrip.SetOutputData | DirectOutput/Cab/Toys/Layer/LedStrip.cs:333-442 | With layers, the buffer becomes `Frame` of the layers in enumeration order, whatever it held before. Without layers it is unchanged. |
| LedStripToy.EveryLayerComposited | DirectOutput/Cab/Toys/Layer/LedStrip.cs:340-342 | Over a full enumeration of the layer dictionary, every stored layer is composited: its grid sits in the stack at exactly one position. |
| LedStripToy.WiredApart | DirectOutput/Cab/Toys/Layer/LedStrip.cs:260-320 | No pixel other than (x, y) is wired to the LED of (x, y), so writing one LED's triple leaves every other LED's bytes alone. |
| LedStripToy.FrameFromTriples | DirectOutput/Cab/Toys/Layer/LedStrip.cs:362-439 | A buffer of `3 * W * H` bytes holding every pixel's packed triple at three times its LED number is exactly the frame. |
| LedStripToy.LedStrip.WriteOutputs | DirectOutput/Cab/Toys/Layer/LedStrip.cs:362-439 | The mapping loop writes every byte of the buffer, and the result is the frame. |
| LedStripToy.Frame | DirectOutput/Cab/Toys/Layer/LedStrip.cs:362-439 | The frame has `3 * W * H` bytes. |
| LedStripToy.FrameAt | DirectOutput/Cab/Toys/Layer/LedStrip.cs:371-435 | Given n, the LED number of pixel (x, y), the three bytes of that pixel sit at 3 * n and the two offsets after it, inside the buffer, in the colour order. |
| LedStripToy.UpdateTwice | DirectOutput/Cab/Toys/Layer/LedStrip.cs:221-229 | Two updates with no layer change in between produce identical buffers, and both are sent. |
| LedStripToy.ClampDimension | DirectOutput/Cab/Toys/Layer/LedStrip.cs:26-44 | The `Width` and `Height` setters turn a negative value into 0 and keep any other. |
| LedStripToy.ClampFirstLedNumber | DirectOutput/Cab/Toys/Layer/LedStrip.cs:112-116 | The `FirstLedNumber` setter turns any value below 1 into exactly 1 and keeps any other C# int. |
| LedStripToy.LedStrip.NumberOfLeds | DirectOutput/Cab/Toys/Layer/LedStrip.cs:53-56 | One LED per pixel of the matrix: there are none exactly when the width or the height is 0. |
| LedStripToy.LedStrip.NumberOfOutputs | DirectOutput/Cab/Toys/Layer/LedStrip.cs:53-68 | The output count is three per LED: divisible by 3, with quotient `NumberOfLeds`. |
| LedStripToy.Wrap32 | DirectOutput/Cab/Toys/Layer/LedStrip.cs:215 | The C# int value of an exact result: in int range, equal to the exact result when that fits, and congruent to it modulo 2^32. |
| LedStripToy.LedStrip.constructor | DirectOutput/Cab/Toys/Layer/LedStrip.cs:18-168 | A toy whose configuration passed through the setters: clamped dimensions and first LED, no controller, no curve, no layers, empty buffers. |
| LedStripToy.LedStrip.Default | DirectOutput/Cab/Toys/Layer/LedStrip.cs:18-118 | The default configuration: 1 x 1, LeftRightTopDown, RBG, first LED 1, curve "Linear". |

## Left out

- `AlphaMappingTable` is not part of this model. Its entry `[a, v]` is modelled as a*v/255, rounded down, which is what keeps every slot in 0..255.
- `Curve` is not part of this model. The table of a fresh curve of each `CurveTypeEnum` type is a parameter (`curveTypes`). A linear curve is the identity table. `Cabinet.Curves.Add(name)` is modelled as registering a linear curve under the name.
- `Enum.TryParse` and `Enum.GetNames` are reduced to a lookup of the name among the keys of `curveTypes`.
- `Log.Exception` is modelled as a ghost log of the arrangement values reported. The message text is left out.
- `ISupportsSetValues.SetValues` is modelled as a ghost log of calls. What the controller does with the bytes is left out.
- The enumeration order of `LedStripLayerDictionary` is not part of this model. It is passed in as `order`.
- Layers change only through `SetLayer`. Writes made directly into the public `Layers` dictionary are not modelled, and neither is a null grid (`SetLayer(k, null)` throws in the source). Such a write skips the dimension check: a grid smaller than W x H makes the compositing loop throw an index-out-of-range exception, and a larger one is composited over its top-left W x H corner.
- Layer grids are values. A caller mutating an `RGBAData[,]` after `SetLayer` (aliasing) is not modelled.
- Configuration is fixed. Width, height, arrangement, colour order, first LED number and the two names are set once, through the setters, in the constructor, and are constant afterwards. The source lets a caller change them after `Init`, leaving the table and the buffer stale; that case is not modelled.
- 32-bit overflow of `Width * Height * 3` (`NumberOfLeds`, `NumberOfOutputs`, the buffer size and the mapping offsets) is not modelled. Integers there are unbounded. Only the `FirstLedNumber * 3` offset of `Reset` is wrapped.
- The `Value` accumulator is `float` in the source. It is modelled as `int`, because it only ever holds sums of table entries.
- WriteOutputs: the six copies of the placement loop are written as one loop that places the three bytes of each LED through `Place`. The order of the three writes within one LED is not modelled, because the three offsets are distinct.
- ColorOrder.PlaceIsPermutation: stated as 'slot k lands at offset OffsetOf(k), and the offsets are distinct'. It does not add a multiset equation on the three bytes.
- The `Cabinet` reference that `Init` stores is left out, because nothing in the core reads it.
- Null strings (a null `FadingCurveName` or `OutputControllerName`) are not modelled. The default `OutputControllerName`, null in the source, is modelled as "". So for a cabinet with a controller registered under "", the model's `Init` binds it, whereas the source's lookup of null would not.
- `Reset` on a toy with no bound controller (a null dereference in the source) is excluded by its precondition.
- Timer-driven scheduling, and any concurrency between `SetLayer` and `UpdateOutputs`, is not modelled.
- DirectOutput/GlobalConfig/Config.cs is not part of this model, because it is file lookup and XML serialisation.
- DirectOutput_Test/Form1.cs is not part of this model, because it is a user-interface handler.
