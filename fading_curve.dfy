/**
 * The brightness-correction table of the strip ("fading curve") and how the toy resolves it
 * by name against the cabinet's curve registry.
 */
module FadingCurve {
  import opened Pixels

  /** `Curve.Data`: one output byte for each brightness 0..255. */
  type CurveData = s: seq<byte> | |s| == 256 witness seq(256, _ => 0)

  /** The table of a linear curve: every brightness is passed through unchanged. */
  function LinearCurve(): (c: CurveData)
    ensures forall i :: 0 <= i < 256 ==> c[i] as int == i
  {
    seq(256, i requires 0 <= i < 256 => i as byte)
  }

  /** `char.IsWhiteSpace`: the Unicode space, line and paragraph separators and the controls U+0009..U+000D, U+0085. */
  predicate IsWhiteSpace(c: char) {
    c == '\U{20}' || c == '\U{A0}' || c == '\U{1680}' || ('\U{2000}' <= c <= '\U{200A}')
    || c == '\U{2028}' || c == '\U{2029}' || c == '\U{202F}' || c == '\U{205F}' || c == '\U{3000}'
    || ('\U{9}' <= c <= '\U{D}') || c == '\U{85}'
  }

  /** `IsNullOrWhiteSpace` for a (non-null) string: empty or made of white space only. */
  predicate IsNullOrWhiteSpace(s: string) {
    forall i :: 0 <= i < |s| ==> IsWhiteSpace(s[i])
  }

  /**
   * Names made of white space only count as blank, the empty name included; a curve name such
   * as "Linear" does not.
   */
  lemma BlankNames()
    ensures IsNullOrWhiteSpace("") && IsNullOrWhiteSpace(" \t\n") && IsNullOrWhiteSpace("\U{A0}\U{3000}")
    ensures !IsNullOrWhiteSpace("Linear") && !IsNullOrWhiteSpace(" x ")
  {
    assert !IsWhiteSpace("Linear"[0]);
    assert !IsWhiteSpace(" x "[1]);
  }

  /** The curve the toy ends up with, and the curve registry after the lookup. */
  datatype CurveChoice = CurveChoice(data: CurveData, curves: map<string, CurveData>)

  /**
   * `InitFadingCurve`. `curves` is the cabinet's registry by name; `curveTypes` gives, for each
   * name of `Curve.CurveTypeEnum`, the table a fresh curve of that type holds. In order: a
   * registered curve of that name; else, for a non-blank name, a fresh curve of the type so
   * named; else, for any other non-blank name, a linear curve, the name being registered (with
   * a linear curve) as a side effect; else, for a blank name, an anonymous linear curve.
   */
  function ResolveFadingCurve(name: string, curves: map<string, CurveData>, curveTypes: map<string, CurveData>): (r: CurveChoice)
    ensures forall k :: k in curves ==> k in r.curves && r.curves[k] == curves[k]
    ensures forall k :: k in r.curves && k !in curves ==> k == name && !IsNullOrWhiteSpace(name) && name !in curveTypes
    ensures name in curves ==> r.data == curves[name]
    ensures name in r.curves ==> r.curves[name] == r.data
    ensures name !in curves && !IsNullOrWhiteSpace(name) && name in curveTypes ==> r.data == curveTypes[name]
    ensures name !in curves && (IsNullOrWhiteSpace(name) || name !in curveTypes) ==> r.data == LinearCurve()
    ensures name !in curves && !IsNullOrWhiteSpace(name) && name !in curveTypes ==> r.curves == curves[name := LinearCurve()]
    ensures name in curves || IsNullOrWhiteSpace(name) || name in curveTypes ==> r.curves == curves
  {
    if name in curves then CurveChoice(curves[name], curves)
    else if !IsNullOrWhiteSpace(name) then
      if name in curveTypes then CurveChoice(curveTypes[name], curves)
      else CurveChoice(LinearCurve(), curves[name := LinearCurve()])
    else CurveChoice(LinearCurve(), curves)
  }

  /**
   * Resolving a name a second time, against the registry the first resolution left behind,
   * chooses the same curve and registers nothing more: a name registered by the first lookup
   * is found by the second.
   */
  lemma ResolveIsStable(name: string, curves: map<string, CurveData>, curveTypes: map<string, CurveData>)
    ensures var r := ResolveFadingCurve(name, curves, curveTypes);
            ResolveFadingCurve(name, r.curves, curveTypes) == r
  {
    var r := ResolveFadingCurve(name, curves, curveTypes);
    if name !in curves && !IsNullOrWhiteSpace(name) && name !in curveTypes {
      assert name in r.curves;
    }
  }
}
