/**
 * The colour of a progress bar: piecewise-linear interpolation between six
 * anchor colours at 0, 30, 70, 80, 90 and 100 percent. The source computes
 * `int(a + (b - a) * ((p - lo) / w))` in floating point; for the percentages
 * the calculator produces (multiples of ten) that equals the exact floor of
 * `(a * w + (b - a) * (p - lo)) / w`, whose numerator is never negative.
 */
module Colour {
  import opened Progress

  datatype Rgb = Rgb(r: int, g: int, b: int)

  const Grey: Rgb := Rgb(224, 224, 224)        // #e0e0e0
  const OrangeRed: Rgb := Rgb(255, 69, 0)      // #ff4500
  const Yellow: Rgb := Rgb(255, 255, 0)        // #ffff00
  const YellowGreen: Rgb := Rgb(154, 205, 50)  // #9acd32
  const Green: Rgb := Rgb(0, 255, 0)           // #00ff00
  const Blue: Rgb := Rgb(0, 0, 255)            // #0000ff

  predicate IsChannel(x: int)
  {
    0 <= x <= 255
  }

  predicate InGamut(c: Rgb)
  {
    IsChannel(c.r) && IsChannel(c.g) && IsChannel(c.b)
  }

  function Min(x: int, y: int): int { if x <= y then x else y }
  function Max(x: int, y: int): int { if x <= y then y else x }

  /** One channel, `int(from + (to - from) * ((p - lo) / width))`, between `from` and `to`. */
  function Channel(from: int, to: int, lo: int, width: int, p: int): (x: int)
    requires IsChannel(from) && IsChannel(to)
    requires 0 < width && lo <= p <= lo + width
    ensures Min(from, to) <= x <= Max(from, to)
    ensures p == lo ==> x == from
    ensures p == lo + width ==> x == to
  {
    var n := from * width + (to - from) * (p - lo);
    BoundsOfStep(from, to, width, p - lo);
    DivBetween(n, width, Min(from, to), Max(from, to));
    if p == lo then DivExact(from, width); n / width
    else if p == lo + width then DivExact(to, width); n / width
    else n / width
  }

  lemma BoundsOfStep(from: int, to: int, width: int, k: int)
    requires 0 < width && 0 <= k <= width
    ensures Min(from, to) * width <= from * width + (to - from) * k <= Max(from, to) * width
    ensures k == 0 ==> from * width + (to - from) * k == from * width
    ensures k == width ==> from * width + (to - from) * k == to * width
  {
    if from <= to {
      MulMonotone(to - from, k, width);
    } else {
      MulMonotone(from - to, k, width);
    }
  }

  lemma MulMonotone(a: int, k: int, width: int)
    requires 0 <= a && 0 <= k <= width
    ensures 0 <= a * k <= a * width
  {
  }

  /** Floor division by a positive divisor keeps bounds that are multiples of it. */
  lemma DivBetween(n: int, width: int, lo: int, hi: int)
    requires 0 < width && lo * width <= n <= hi * width
    ensures lo <= n / width <= hi
  {
    var q, r := n / width, n % width;
    assert n == q * width + r && 0 <= r < width;
    if q < lo {
      assert q * width + width <= lo * width by { MulMonotone(width, q + 1 - q, 1); MulLe(q + 1, lo, width); }
    }
    if q > hi {
      assert (hi + 1) * width <= q * width by { MulLe(hi + 1, q, width); }
    }
  }

  lemma MulLe(a: int, b: int, width: int)
    requires a <= b && 0 < width
    ensures a * width <= b * width
  {
    assert b * width - a * width == (b - a) * width;
  }

  lemma DivExact(a: int, width: int)
    requires 0 < width
    ensures (a * width) / width == a
  {
    DivBetween(a * width, width, a, a);
  }

  /** Channel-wise interpolation from colour `a` at `lo` to colour `b` at `hi`. */
  function Lerp(a: Rgb, b: Rgb, lo: int, hi: int, p: int): (c: Rgb)
    requires InGamut(a) && InGamut(b)
    requires lo < hi && lo <= p <= hi
    ensures InGamut(c)
    ensures p == lo ==> c == a
    ensures p == hi ==> c == b
  {
    Rgb(Channel(a.r, b.r, lo, hi - lo, p), Channel(a.g, b.g, lo, hi - lo, p), Channel(a.b, b.b, lo, hi - lo, p))
  }

  /** The colour ladder as written, one branch per range, literals where the source uses them. */
  function ColourOf(p: int): (c: Rgb)
    requires ProgressValue(p)
    ensures InGamut(c)
    ensures p == 0 ==> c == Grey
    ensures p == 100 ==> c == Blue
  {
    if p == 0 then Grey
    else if p < 30 then
      Rgb(Channel(224, 255, 0, 30, p), Channel(224, 69, 0, 30, p), Channel(224, 0, 0, 30, p))
    else if p < 70 then
      Rgb(255, Channel(69, 255, 30, 40, p), Channel(0, 0, 30, 40, p))
    else if p < 80 then
      Rgb(Channel(255, 154, 70, 10, p), 255, Channel(0, 50, 70, 10, p))
    else if p < 90 then
      Rgb(Channel(154, 0, 80, 10, p), Channel(205, 255, 80, 10, p), Channel(50, 0, 80, 10, p))
    else if p < 100 then
      Rgb(Channel(0, 0, 90, 10, p), Channel(255, 0, 90, 10, p), Channel(0, 255, 90, 10, p))
    else Blue
  }

  /** An anchor of the ladder: a percentage and the colour it has there. */
  datatype Anchor = Anchor(at: int, colour: Rgb)

  const Anchors: seq<Anchor> := [
    Anchor(0, Grey), Anchor(30, OrangeRed), Anchor(70, Yellow),
    Anchor(80, YellowGreen), Anchor(90, Green), Anchor(100, Blue)]

  /** Anchor positions strictly increase and every anchor colour is in gamut. */
  predicate WellFormed(anchors: seq<Anchor>)
  {
    && |anchors| > 0
    && (forall i :: 0 <= i < |anchors| ==> InGamut(anchors[i].colour))
    && (forall i :: 0 < i < |anchors| ==> anchors[i - 1].at < anchors[i].at)
  }

  /**
   * A reference definition of piecewise-linear interpolation over any anchor
   * table: interpolate inside the first segment that contains `p`, and take
   * the last anchor's colour from its position on.
   */
  function Interpolate(anchors: seq<Anchor>, p: int): (c: Rgb)
    requires WellFormed(anchors)
    requires anchors[0].at <= p
    ensures InGamut(c)
  {
    if |anchors| == 1 || p >= anchors[|anchors| - 1].at then anchors[|anchors| - 1].colour
    else if p < anchors[1].at then Lerp(anchors[0].colour, anchors[1].colour, anchors[0].at, anchors[1].at, p)
    else Interpolate(anchors[1..], p)
  }

  /** Dropping the first anchor once `p` is past the first segment. */
  lemma InterpolateTail(anchors: seq<Anchor>, p: int)
    requires WellFormed(anchors) && |anchors| > 1
    requires anchors[1].at <= p < anchors[|anchors| - 1].at
    ensures WellFormed(anchors[1..])
    ensures Interpolate(anchors, p) == Interpolate(anchors[1..], p)
  {
    assert forall i :: 0 < i < |anchors[1..]| ==> anchors[1..][i - 1] == anchors[i] && anchors[1..][i] == anchors[i + 1];
  }

  lemma AnchorsWellFormed()
    ensures WellFormed(Anchors)
    ensures Anchors[1..] == [Anchor(30, OrangeRed), Anchor(70, Yellow), Anchor(80, YellowGreen), Anchor(90, Green), Anchor(100, Blue)]
    ensures Anchors[1..][1..] == [Anchor(70, Yellow), Anchor(80, YellowGreen), Anchor(90, Green), Anchor(100, Blue)]
    ensures Anchors[1..][1..][1..] == [Anchor(80, YellowGreen), Anchor(90, Green), Anchor(100, Blue)]
    ensures Anchors[1..][1..][1..][1..] == [Anchor(90, Green), Anchor(100, Blue)]
  {
  }

  /** The ladder as written is the piecewise-linear interpolation over its six anchors. */
  lemma ColourIsInterpolation(p: int)
    requires ProgressValue(p)
    ensures WellFormed(Anchors)
    ensures ColourOf(p) == Interpolate(Anchors, p)
  {
    AnchorsWellFormed();
    var a1 := Anchors[1..];
    var a2 := a1[1..];
    var a3 := a2[1..];
    var a4 := a3[1..];
    if p < 30 {
      assert Interpolate(Anchors, p) == Lerp(Grey, OrangeRed, 0, 30, p);
    } else if p == 100 {
      assert Interpolate(Anchors, p) == Blue;
    } else {
      InterpolateTail(Anchors, p);
      if p < 70 {
        assert Interpolate(a1, p) == Lerp(OrangeRed, Yellow, 30, 70, p);
      } else {
        InterpolateTail(a1, p);
        if p < 80 {
          // only 70 is reachable here; the source keeps green at 255 on this range
          assert p == 70;
          assert Interpolate(a2, p) == Lerp(Yellow, YellowGreen, 70, 80, p);
        } else {
          InterpolateTail(a2, p);
          if p < 90 {
            assert p == 80;
            assert Interpolate(a3, p) == Lerp(YellowGreen, Green, 80, 90, p);
          } else {
            InterpolateTail(a3, p);
            assert p == 90;
            assert Interpolate(a4, p) == Lerp(Green, Blue, 90, 100, p);
          }
        }
      }
    }
  }

  /** At each anchor the colour is exactly the anchor's colour. */
  lemma ColourAtAnchors()
    ensures ColourOf(0) == Grey && ColourOf(30) == OrangeRed && ColourOf(70) == Yellow
    ensures ColourOf(80) == YellowGreen && ColourOf(90) == Green && ColourOf(100) == Blue
    ensures ColourOf(10) == Rgb(234, 172, 149)
  {
  }
}
