/**
 * The addressable LED strip toy: it owns its layers, the cached pixel-to-output mapping table
 * and the output buffer, and on every update composites the layers into the buffer and hands
 * it to the output controller it is bound to.
 */
module LedStripToy {
  import opened Pixels
  import opened Arrangement
  import opened FadingCurve
  import opened ColorOrder

  datatype Option<T> = None | Some(value: T)

  /** One call `ISupportsSetValues.SetValues(firstOutput, values)` on the named output controller. */
  datatype SetValuesCall = SetValues(controller: string, firstOutput: int, values: seq<byte>)

  /** The value of a C# `int` expression whose exact result is v (unchecked 32-bit wrap-around). */
  function Wrap32(v: int): (r: int)
    ensures -2147483648 <= r <= IntMax
    ensures -2147483648 <= v <= IntMax ==> r == v
    ensures (r - v) % 4294967296 == 0
  {
    (v + 2147483648) % 4294967296 - 2147483648
  }

  /** `Width` and `Height` setters: negative values become 0. */
  function ClampDimension(v: int): (r: nat)
    ensures r <= IntMax
    ensures v < 0 ==> r == 0
    ensures 0 <= v <= IntMax ==> r == v
  {
    Limit(v, 0, IntMax)
  }

  /** `FirstLedNumber` setter: values below 1 become 1. */
  function ClampFirstLedNumber(v: int): (r: int)
    ensures 1 <= r <= IntMax
    ensures v < 1 ==> r == 1
    ensures 1 <= v <= IntMax ==> r == v
  {
    Limit(v, 1, IntMax)
  }

  /** `order` lists every key of `layers` exactly once; it stands for the dictionary's enumeration order. */
  predicate IsEnumeration(order: seq<int>, layers: map<int, Grid>) {
    (forall i :: 0 <= i < |order| ==> order[i] in layers)
    && (forall k :: k in layers ==> k in order)
    && (forall i, j :: 0 <= i < j < |order| ==> order[i] != order[j])
  }

  /** The layer grids in enumeration order. */
  function LayerStack(order: seq<int>, layers: map<int, Grid>): (s: seq<Grid>)
    requires forall i :: 0 <= i < |order| ==> order[i] in layers
    ensures |s| == |order| && forall i :: 0 <= i < |order| ==> s[i] == layers[order[i]]
  {
    seq(|order|, i requires 0 <= i < |order| => layers[order[i]])
  }

  /** Over a full enumeration, every stored layer is composited: it sits in the stack at exactly one position. */
  lemma EveryLayerComposited(order: seq<int>, layers: map<int, Grid>, k: int)
    requires IsEnumeration(order, layers) && k in layers
    ensures exists i :: 0 <= i < |order| && order[i] == k && LayerStack(order, layers)[i] == layers[k]
                        && forall j :: 0 <= j < |order| && j != i ==> order[j] != k
  {
    var i :| 0 <= i < |order| && order[i] == k;
    assert LayerStack(order, layers)[i] == layers[k];
  }

  /** Every grid of the stack has exactly w x h cells. */
  predicate AllSized(stack: seq<Grid>, w: nat, h: nat) {
    forall j :: 0 <= j < |stack| ==> stack[j].dim0 == w && stack[j].dim1 == h
  }

  /**
   * The output buffer one compositing pass produces: byte i belongs to LED i / 3, which is
   * wired to pixel `Coord(arr, w, h, i / 3)`, and is the byte at offset i % 3 of that pixel's
   * corrected, colour-ordered slots.
   */
  function Frame(arr: LedStripArrangement, order: RGBOrder, curve: CurveData, w: nat, h: nat, stack: seq<Grid>): (f: seq<byte>)
    requires AllSized(stack, w, h)
    ensures |f| == 3 * (w * h)
  {
    seq(3 * (w * h), i requires 0 <= i < 3 * (w * h) =>
      var c := Coord(arr, w, h, i / 3);
      PackLed(order, curve, CompositeAt(stack, c.0, c.1))[i % 3])
  }

  /**
   * The three bytes of pixel (x, y) sit at 3 * n and the two offsets after it, in the colour
   * order, n being the LED the pixel is wired to; since LED numbers are a bijection, these
   * triples tile the buffer.
   */
  lemma FrameAt(arr: LedStripArrangement, order: RGBOrder, curve: CurveData, w: nat, h: nat, stack: seq<Grid>, x: nat, y: nat, n: int, k: nat)
    requires AllSized(stack, w, h) && x < w && y < h && k < 3
    requires n == LedIndex(arr, w, h, x, y)
    ensures 0 <= 3 * n + k < 3 * (w * h)
    ensures Frame(arr, order, curve, w, h, stack)[3 * n + k] == PackLed(order, curve, CompositeAt(stack, x, y))[k]
  {
    CoordOfLedIndex(arr, w, h, x, y);
    FrameAtLed(arr, order, curve, w, h, stack, n, x, y, k);
  }

  /** Byte k of LED n in the frame is byte k of the packed pixel wired to LED n. */
  lemma FrameAtLed(arr: LedStripArrangement, order: RGBOrder, curve: CurveData, w: nat, h: nat, stack: seq<Grid>, n: int, x: nat, y: nat, k: nat)
    requires AllSized(stack, w, h) && 0 <= n < w * h && x < w && y < h && k < 3
    requires Coord(arr, w, h, n) == (x, y)
    ensures 0 <= 3 * n + k < 3 * (w * h)
    ensures Frame(arr, order, curve, w, h, stack)[3 * n + k] == PackLed(order, curve, CompositeAt(stack, x, y))[k]
  {
    LedOfByte(n, k);
  }

  /** Byte 3 * n + k of the buffer is byte k of LED n. */
  lemma LedOfByte(n: int, k: nat)
    requires k < 3
    ensures (3 * n + k) / 3 == n && (3 * n + k) % 3 == k
  {
  }

  /** The slots `Value[x, y, 0..2]` of the accumulator. */
  function SlotsAt(value: array3<int>, x: nat, y: nat): Slots
    requires x < value.Length0 && y < value.Length1 && value.Length2 == 3
    reads value
  {
    Slots(value[x, y, 0], value[x, y, 1], value[x, y, 2])
  }

  /** Pixel (x', y') comes before pixel (x, y) in the row-by-row scan of the source's loops. */
  predicate ScannedBefore(x': nat, y': nat, x: nat, y: nat) {
    y' < y || (y' == y && x' < x)
  }

  /**
   * One pass of the layer loop of `SetOutputData`: lays grid g over the accumulator, which
   * holds the composite of `below`, pixel by pixel in the source's y-then-x order.
   */
  method BlendLayer(value: array3<int>, g: Grid, ghost below: seq<Grid>)
    requires value.Length2 == 3 && g.dim0 == value.Length0 && g.dim1 == value.Length1
    requires AllSized(below, value.Length0, value.Length1)
    requires forall x: nat, y: nat :: x < value.Length0 && y < value.Length1 ==> SlotsAt(value, x, y) == CompositeAt(below, x, y)
    modifies value
    ensures AllSized(below + [g], value.Length0, value.Length1)
    ensures forall x: nat, y: nat :: x < value.Length0 && y < value.Length1 ==> SlotsAt(value, x, y) == CompositeAt(below + [g], x, y)
  {
    var w, h := value.Length0, value.Length1;
    assert AllSized(below + [g], w, h);
    var y := 0;
    while y < h
      invariant 0 <= y <= h
      invariant forall x': nat, y': nat :: x' < w && y' < h ==>
        SlotsAt(value, x', y') == if y' < y then CompositeAt(below + [g], x', y') else CompositeAt(below, x', y')
    {
      var x := 0;
      while x < w
        invariant 0 <= x <= w
        invariant forall x': nat, y': nat :: x' < w && y' < h ==>
          SlotsAt(value, x', y') == if ScannedBefore(x', y', x, y) then CompositeAt(below + [g], x', y') else CompositeAt(below, x', y')
      {
        var p := Cell(g, x, y);
        var alpha := Limit(p.alpha, 0, 255);
        CompositeAtSnoc(below, g, x, y);
        if alpha != 0 {
          var s0 := AlphaMapping(255 - alpha, value[x, y, 0]) + AlphaMapping(alpha, Limit(p.red, 0, 255));
          var s1 := AlphaMapping(255 - alpha, value[x, y, 1]) + AlphaMapping(alpha, Limit(p.blue, 0, 255));
          var s2 := AlphaMapping(255 - alpha, value[x, y, 2]) + AlphaMapping(alpha, Limit(p.green, 0, 255));
          value[x, y, 0] := s0;
          value[x, y, 1] := s1;
          value[x, y, 2] := s2;
        }
        x := x + 1;
      }
      y := y + 1;
    }
  }

  /** Bytes o, o + 1 and o + 2 of the buffer hold the three bytes b. */
  ghost predicate TripleAt(a: array<byte>, o: int, b: seq<byte>)
    reads a
  {
    |b| == 3 && 0 <= o && o + 3 <= a.Length && a[o] == b[0] && a[o + 1] == b[1] && a[o + 2] == b[2]
  }

  /** Every other pixel of the matrix is wired to an LED other than the one pixel (x, y) is wired to. */
  lemma WiredApart(arr: LedStripArrangement, w: nat, h: nat, x: nat, y: nat)
    requires x < w && y < h
    ensures forall x': nat, y': nat :: x' < w && y' < h && (x' != x || y' != y) ==>
      LedIndex(arr, w, h, x', y') != LedIndex(arr, w, h, x, y)
  {
    forall x': nat, y': nat | x' < w && y' < h && (x' != x || y' != y)
      ensures LedIndex(arr, w, h, x', y') != LedIndex(arr, w, h, x, y)
    {
      if LedIndex(arr, w, h, x', y') == LedIndex(arr, w, h, x, y) {
        LedIndexInjective(arr, w, h, x', y', x, y);
      }
    }
  }

  /** A buffer holding every pixel's packed triple at its LED's offset holds the whole frame. */
  lemma FrameFromTriples(a: array<byte>, arr: LedStripArrangement, order: RGBOrder, curve: CurveData, w: nat, h: nat, stack: seq<Grid>)
    requires AllSized(stack, w, h) && a.Length == 3 * (w * h)
    requires forall x: nat, y: nat :: x < w && y < h ==>
      TripleAt(a, 3 * LedIndex(arr, w, h, x, y), PackLed(order, curve, CompositeAt(stack, x, y)))
    ensures a[..] == Frame(arr, order, curve, w, h, stack)
  {
    ghost var frame := Frame(arr, order, curve, w, h, stack);
    forall i | 0 <= i < a.Length
      ensures a[i] == frame[i]
    {
      var c := Coord(arr, w, h, i / 3);
      LedIndexOfCoord(arr, w, h, i / 3);
      assert TripleAt(a, 3 * (i / 3), PackLed(order, curve, CompositeAt(stack, c.0, c.1)));
    }
  }

  /** Writes the three bytes of one LED at offsets o, o + 1 and o + 2 and nothing else. */
  method WriteTriple(a: array<byte>, o: int, b: seq<byte>)
    requires |b| == 3 && 0 <= o && o + 3 <= a.Length
    modifies a
    ensures TripleAt(a, o, b)
    ensures forall i :: 0 <= i < a.Length && (i < o || o + 3 <= i) ==> a[i] == old(a[i])
  {
    a[o] := b[0];
    a[o + 1] := b[1];
    a[o + 2] := b[2];
  }

  /** The part of the cabinet the toy consults at `Init`: its curve registry and its output controllers. */
  class Cabinet {
    var curves: map<string, CurveData>
    /** Output controllers by name; the flag says whether the controller implements `ISupportsSetValues`. */
    var outputControllers: map<string, bool>

    constructor (curves: map<string, CurveData>, outputControllers: map<string, bool>)
      ensures this.curves == curves && this.outputControllers == outputControllers
    {
      this.curves := curves;
      this.outputControllers := outputControllers;
    }
  }

  class LedStrip {
    // Configuration, applied through the clamping setters before the toy is initialized.
    const width: nat
    const height: nat
    const arrangement: LedStripArrangement
    const colorOrder: RGBOrder
    const firstLedNumber: int
    const fadingCurveName: string
    const outputControllerName: string

    /** The bound `ISupportsSetValues` controller, by name; None while it is null. */
    var outputController: Option<string>
    /** `FadingCurve.Data`; None while the curve is null. */
    var fadingCurve: Option<CurveData>
    /** `OutputMappingTable[x, y]`: the byte offset of pixel (x, y) in the output buffer. */
    var outputMappingTable: array2<int>
    var outputData: array<byte>
    var layers: map<int, Grid>

    /** Every `SetValues` call made on the output controller, in order. */
    ghost var sinkLog: seq<SetValuesCall>
    /** The arrangement value of every "unknown arrangement" diagnostic logged, in order. */
    ghost var exceptionLog: seq<LedStripArrangement>

    /** The number of LEDs: one per pixel of the width x height matrix, none when either is 0. */
    function NumberOfLeds(): (n: nat)
      ensures n == 0 <==> width == 0 || height == 0
    {
      width * height
    }

    /** The number of outputs needed: three bytes per LED. */
    function NumberOfOutputs(): (n: nat)
      ensures n % 3 == 0 && n / 3 == NumberOfLeds()
    {
      NumberOfLeds() * 3
    }

    /** What `Init` establishes: the mapping table and the buffer have the configured size and a curve is set. */
    ghost predicate Ready()
      reads this, outputMappingTable
    {
      outputMappingTable.Length0 == width && outputMappingTable.Length1 == height
      && outputData.Length == NumberOfOutputs()
      && fadingCurve.Some?
      && forall x: nat, y: nat :: x < width && y < height ==>
           outputMappingTable[x, y] == 3 * LedIndex(arrangement, width, height, x, y)
    }

    ghost predicate Valid()
      reads this, outputMappingTable
    {
      firstLedNumber >= 1
      && (forall k :: k in layers ==> layers[k].dim0 == width && layers[k].dim1 == height)
      && (outputController.Some? ==> Ready())
    }

    /** The buffer the current layers produce, when composited in the given order. */
    ghost function CurrentFrame(order: seq<int>): (f: seq<byte>)
      reads this, outputMappingTable
      requires Valid() && Ready() && IsEnumeration(order, layers)
      ensures |f| == NumberOfOutputs()
    {
      Frame(arrangement, colorOrder, fadingCurve.value, width, height, LayerStack(order, layers))
    }

    /** A toy with the given configuration property values, each passed through its setter. */
    constructor (width: int, height: int, arrangement: LedStripArrangement, colorOrder: RGBOrder,
                 firstLedNumber: int, fadingCurveName: string, outputControllerName: string)
      ensures Valid()
      ensures this.width == ClampDimension(width) && this.height == ClampDimension(height)
      ensures this.firstLedNumber == ClampFirstLedNumber(firstLedNumber)
      ensures this.arrangement == arrangement && this.colorOrder == colorOrder
      ensures this.fadingCurveName == fadingCurveName && this.outputControllerName == outputControllerName
      ensures outputController == None && fadingCurve == None && layers == map[]
      ensures outputData.Length == 0 && outputMappingTable.Length0 == 0 && outputMappingTable.Length1 == 0
      ensures sinkLog == [] && exceptionLog == []
    {
      this.width := ClampDimension(width);
      this.height := ClampDimension(height);
      this.arrangement := arrangement;
      this.colorOrder := colorOrder;
      this.firstLedNumber := ClampFirstLedNumber(firstLedNumber);
      this.fadingCurveName := fadingCurveName;
      this.outputControllerName := outputControllerName;
      outputController := None;
      fadingCurve := None;
      outputMappingTable := new int[0, 0];
      outputData := new byte[0];
      layers := map[];
      sinkLog := [];
      exceptionLog := [];
    }

    /** A toy with the source's default configuration: a 1 x 1 strip, RBG order, first LED 1, curve "Linear". */
    constructor Default()
      ensures Valid()
      ensures width == 1 && height == 1 && arrangement == LeftRightTopDown && colorOrder == RBG
      ensures firstLedNumber == 1 && fadingCurveName == "Linear" && outputControllerName == ""
      ensures outputController == None && fadingCurve == None && layers == map[]
      ensures sinkLog == [] && exceptionLog == []
    {
      width, height := 1, 1;
      arrangement, colorOrder := LeftRightTopDown, RBG;
      firstLedNumber := 1;
      fadingCurveName, outputControllerName := "Linear", "";
      outputController := None;
      fadingCurve := None;
      outputMappingTable := new int[0, 0];
      outputData := new byte[0];
      layers := map[];
      sinkLog := [];
      exceptionLog := [];
    }

    /**
     * Fills a fresh width x height table with 3 * LedIndex of each pixel. An unrecognized
     * arrangement falls back to LeftRightTopDown and logs one diagnostic for the whole build
     * (none when the table is empty).
     */
    method BuildMappingTables()
      modifies this`outputMappingTable, this`exceptionLog
      ensures fresh(outputMappingTable)
      ensures outputMappingTable.Length0 == width && outputMappingTable.Length1 == height
      ensures forall x: nat, y: nat :: x < width && y < height ==>
                outputMappingTable[x, y] == 3 * LedIndex(arrangement, width, height, x, y)
      ensures exceptionLog == old(exceptionLog)
                + if IsFallback(arrangement) && width > 0 && height > 0 then [arrangement] else []
    {
      var table := new int[width, height];
      var firstException := true;
      var y := 0;
      while y < height
        invariant 0 <= y <= height
        invariant forall x': nat, y': nat :: x' < width && y' < y ==>
                    table[x', y'] == 3 * LedIndex(arrangement, width, height, x', y')
        invariant firstException == !(IsFallback(arrangement) && width > 0 && y > 0)
        invariant exceptionLog == old(exceptionLog) + if firstException then [] else [arrangement]
      {
        var x := 0;
        while x < width
          invariant 0 <= x <= width
          invariant forall x': nat, y': nat :: x' < width && y' < height && ScannedBefore(x', y', x, y) ==>
                      table[x', y'] == 3 * LedIndex(arrangement, width, height, x', y')
          invariant firstException == !(IsFallback(arrangement) && ((width > 0 && y > 0) || x > 0))
          invariant exceptionLog == old(exceptionLog) + if firstException then [] else [arrangement]
        {
          var ledNr := LedIndex(arrangement, width, height, x, y);
          if IsFallback(arrangement) && firstException {
            exceptionLog := exceptionLog + [arrangement];
            firstException := false;
          }
          table[x, y] := ledNr * 3;
          x := x + 1;
        }
        y := y + 1;
      }
      outputMappingTable := table;
    }

    /** `InitFadingCurve`: resolves the configured curve name against the cabinet's registry. */
    method InitFadingCurve(cabinet: Cabinet, curveTypes: map<string, CurveData>)
      modifies this`fadingCurve, cabinet`curves
      ensures var r := ResolveFadingCurve(fadingCurveName, old(cabinet.curves), curveTypes);
              fadingCurve == Some(r.data) && cabinet.curves == r.curves
    {
      var r := ResolveFadingCurve(fadingCurveName, cabinet.curves, curveTypes);
      fadingCurve := Some(r.data);
      cabinet.curves := r.curves;
    }

    /**
     * `Init`: binds the configured output controller when the cabinet has one of that name
     * that accepts raw values (otherwise the earlier binding stays), builds the mapping table,
     * allocates a zeroed buffer of `NumberOfOutputs` bytes and resolves the fading curve.
     */
    method Init(cabinet: Cabinet, curveTypes: map<string, CurveData>)
      requires Valid()
      modifies this, cabinet`curves
      ensures Valid() && Ready()
      ensures fresh(outputData) && fresh(outputMappingTable)
      ensures outputData[..] == seq(NumberOfOutputs(), _ => 0)
      ensures outputController
           == if outputControllerName in cabinet.outputControllers && cabinet.outputControllers[outputControllerName]
              then Some(outputControllerName) else old(outputController)
      ensures var r := ResolveFadingCurve(fadingCurveName, old(cabinet.curves), curveTypes);
              fadingCurve == Some(r.data) && cabinet.curves == r.curves
      ensures layers == old(layers) && sinkLog == old(sinkLog)
      ensures exceptionLog == old(exceptionLog)
                + if IsFallback(arrangement) && width > 0 && height > 0 then [arrangement] else []
    {
      if outputControllerName in cabinet.outputControllers && cabinet.outputControllers[outputControllerName] {
        outputController := Some(outputControllerName);
      }
      BuildMappingTables();
      outputData := new byte[NumberOfOutputs()](_ => 0);
      InitFadingCurve(cabinet, curveTypes);
    }

    /** `SetLayer`: stores the grid under the key only when its dimensions are exactly width x height. */
    method SetLayer(layerNr: int, ledData: Grid)
      requires Valid()
      modifies this`layers
      ensures Valid()
      ensures layers == if ledData.dim0 == width && ledData.dim1 == height
                        then old(layers)[layerNr := ledData] else old(layers)
    {
      if ledData.dim0 == width && ledData.dim1 == height {
        layers := layers[layerNr := ledData];
      }
    }

    /**
     * `SetOutputData`: when there are layers, composites them in the given order into a fresh
     * accumulator and writes every pixel's corrected, colour-ordered bytes at its mapped
     * offset. Every byte of the buffer is written, so the result does not depend on what the
     * buffer held before.
     */
    method SetOutputData(order: seq<int>)
      requires Valid() && Ready() && IsEnumeration(order, layers)
      modifies outputData
      ensures outputData[..] == if |layers| > 0 then CurrentFrame(order) else old(outputData[..])
    {
      if |layers| > 0 {
        ghost var stack := LayerStack(order, layers);
        var value := new int[width, height, 3]((_, _, _) => 0);
        var i := 0;
        while i < |order|
          invariant 0 <= i <= |order|
          invariant forall x: nat, y: nat :: x < width && y < height ==> SlotsAt(value, x, y) == CompositeAt(stack[..i], x, y)
        {
          assert stack[..i + 1] == stack[..i] + [stack[i]];
          BlendLayer(value, layers[order[i]], stack[..i]);
          i := i + 1;
        }
        assert stack[..|order|] == stack;
        WriteOutputs(value, stack);
      }
    }

    /** The second half of `SetOutputData`: the fading table and the colour order applied pixel by pixel. */
    method WriteOutputs(value: array3<int>, ghost stack: seq<Grid>)
      requires Valid() && Ready() && AllSized(stack, width, height)
      requires value.Length0 == width && value.Length1 == height && value.Length2 == 3
      requires forall x: nat, y: nat :: x < width && y < height ==> SlotsAt(value, x, y) == CompositeAt(stack, x, y)
      modifies outputData
      ensures outputData[..] == Frame(arrangement, colorOrder, fadingCurve.value, width, height, stack)
    {
      var fadingTable := fadingCurve.value;
      var y := 0;
      while y < height
        invariant 0 <= y <= height
        invariant forall x': nat, y': nat :: x' < width && y' < y ==>
          TripleAt(outputData, 3 * LedIndex(arrangement, width, height, x', y'), PackLed(colorOrder, fadingTable, CompositeAt(stack, x', y')))
      {
        var x := 0;
        while x < width
          invariant 0 <= x <= width
          invariant forall x': nat, y': nat :: x' < width && y' < height && ScannedBefore(x', y', x, y) ==>
            TripleAt(outputData, 3 * LedIndex(arrangement, width, height, x', y'), PackLed(colorOrder, fadingTable, CompositeAt(stack, x', y')))
        {
          CoordOfLedIndex(arrangement, width, height, x, y);
          WiredApart(arrangement, width, height, x, y);
          var outputNumber := outputMappingTable[x, y];
          WriteTriple(outputData, outputNumber, PackLed(colorOrder, fadingTable, SlotsAt(value, x, y)));
          x := x + 1;
        }
        y := y + 1;
      }
      FrameFromTriples(outputData, arrangement, colorOrder, fadingTable, width, height, stack);
    }

    /**
     * `UpdateOutputs`: with a bound controller and at least one layer, recomputes the buffer
     * and sends all of it with `SetValues(NumberOfOutputs, OutputData)`; otherwise nothing happens.
     */
    method UpdateOutputs(order: seq<int>)
      requires Valid() && IsEnumeration(order, layers)
      modifies outputData, this`sinkLog
      ensures Valid()
      ensures if outputController.Some? && |layers| > 0 then
                outputData[..] == CurrentFrame(order)
                && sinkLog == old(sinkLog) + [SetValues(outputController.value, NumberOfOutputs(), outputData[..])]
              else
                outputData[..] == old(outputData[..]) && sinkLog == old(sinkLog)
    {
      if outputController.Some? && |layers| > 0 {
        SetOutputData(order);
        sinkLog := sinkLog + [SetValues(outputController.value, NumberOfOutputs(), outputData[..])];
      }
    }

    /**
     * `Reset`: sends `NumberOfLeds` zero bytes (not `NumberOfOutputs`) starting at output
     * `FirstLedNumber * 3`, as a 32-bit product. The bound controller is dereferenced, so it
     * must be there.
     */
    method Reset()
      requires Valid() && outputController.Some?
      modifies this`sinkLog
      ensures Valid()
      ensures sinkLog == old(sinkLog)
                + [SetValues(outputController.value, Wrap32(firstLedNumber * 3), seq(NumberOfLeds(), _ => 0))]
    {
      sinkLog := sinkLog + [SetValues(outputController.value, Wrap32(firstLedNumber * 3), seq(NumberOfLeds(), _ => 0))];
    }
  }

  /**
   * Two updates with no layer change in between leave the same buffer and send the same
   * bytes twice.
   */
  method UpdateTwice(strip: LedStrip, order: seq<int>) returns (first: seq<byte>, second: seq<byte>)
    requires strip.Valid() && IsEnumeration(order, strip.layers)
    requires strip.outputController.Some? && |strip.layers| > 0
    modifies strip.outputData, strip`sinkLog
    ensures first == second == strip.CurrentFrame(order)
    ensures strip.sinkLog == old(strip.sinkLog) + [SetValues(strip.outputController.value, strip.NumberOfOutputs(), first)]
                                              + [SetValues(strip.outputController.value, strip.NumberOfOutputs(), second)]
  {
    strip.UpdateOutputs(order);
    first := strip.outputData[..];
    strip.UpdateOutputs(order);
    second := strip.outputData[..];
  }
}
