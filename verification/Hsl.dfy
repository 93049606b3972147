/** Conversion between RGB and HSL, over exact reals. */
module Hsl {
  import opened Blending

  datatype Hsla = Hsla(h: real, s: real, l: real, a: real)

  function Abs(x: real): real { if x < 0.0 then -x else x }

  function Min(x: real, y: real): real { if x <= y then x else y }

  function Max(x: real, y: real): real { if x >= y then x else y }

  function Clamp(x: real): real { if x < 0.0 then 0.0 else if x > 1.0 then 1.0 else x }

  /** The remainder by 2 with the sign of the dividend. */
  function Rem2(x: real): real {
    if x >= 0.0 then x - 2.0 * (x / 2.0).Floor as real else -(-x - 2.0 * (-x / 2.0).Floor as real)
  }

  /** The remainder by 6 that is never negative. */
  function RemEuclid6(x: real): real {
    x - 6.0 * (x / 6.0).Floor as real
  }

  /** How far the middle channel has risen: up in even sectors of the colour wheel, down in odd ones. */
  function Rise(h6: real): real {
    1.0 - Abs(Rem2(h6) - 1.0)
  }

  /** Which channel is highest, middle and lowest in each of the six sectors. */
  function Sector(h6: real, cm: real, xm: real, m: real, a: real): Rgba {
    match h6.Floor
    case 0 => Rgba(cm, xm, m, a)
    case 6 => Rgba(cm, xm, m, a)
    case 1 => Rgba(xm, cm, m, a)
    case 2 => Rgba(m, cm, xm, a)
    case 3 => Rgba(m, xm, cm, a)
    case 4 => Rgba(xm, m, cm, a)
    case _ => Rgba(cm, m, xm, a)
  }

  function Clamped(c: Rgba): Rgba {
    Rgba(Clamp(c.r), Clamp(c.g), Clamp(c.b), c.a)
  }

  /** Twice the distance of the lightness to black or white, whichever is nearer. */
  function Room(l: real): real {
    1.0 - Abs(2.0 * l - 1.0)
  }

  function Chroma(s: real, l: real): real {
    Room(l) * s
  }

  /** The middle channel, part of the way from the lowest to the highest. */
  function Between(low: real, spread: real, rise: real): real {
    spread * rise + low
  }

  function FromChroma(h6: real, c: real, l: real, a: real): Rgba {
    var m := l - c / 2.0;
    Clamped(Sector(h6, c + m, Between(m, c, Rise(h6)), m, a))
  }

  function ToRgb(color: Hsla): Rgba {
    FromChroma(color.h * 6.0, Chroma(color.s, color.l), color.l, color.a)
  }

  function Highest(c: Rgba): real { Max(c.r, Max(c.g, c.b)) }

  function Lowest(c: Rgba): real { Min(c.r, Min(c.g, c.b)) }

  function Saturation(delta: real, l: real): real {
    if l == 0.0 || l == 1.0 then 0.0
    else if l < 0.5 then delta / (2.0 * l)
    else delta / (2.0 - 2.0 * l)
  }

  /** The hue in sixths of the wheel. */
  function Hue6(c: Rgba, max: real, delta: real): real
    requires delta != 0.0
  {
    if max == c.r then RemEuclid6((c.g - c.b) / delta)
    else if max == c.g then (c.b - c.r) / delta + 2.0
    else (c.r - c.g) / delta + 4.0
  }

  function ToHsl(color: Rgba): Hsla {
    var max, min := Highest(color), Lowest(color);
    var delta := max - min;
    var l := (max + min) / 2.0;
    Hsla(if delta == 0.0 then 0.0 else Hue6(color, max, delta) / 6.0, Saturation(delta, l), l, color.a)
  }

  // ----- from RGB to HSL and back -----

  lemma {:induction false} Divides(n: real, d: real)
    requires d > 0.0
    ensures d * (n / d) == n
    ensures -d <= n <= d ==> -1.0 <= n / d <= 1.0
    ensures (n > 0.0 <==> n / d > 0.0) && (n < d <==> n / d < 1.0) && (n > -d <==> n / d > -1.0)
  {
    var q := n / d;
    assert q * d == n;
    Compare(q, 1.0, d);
    Compare(q, 0.0, d);
    Compare(q, -1.0, d);
  }

  lemma {:induction false} Compare(q: real, k: real, d: real)
    requires d > 0.0
    ensures (q * d < k * d <==> q < k) && (q * d > k * d <==> q > k)
  {
    var e := (q - k) * d;
    assert e == q * d - k * d;
    if q > k {
      assert e > 0.0;
    } else if q < k {
      assert (k - q) * d > 0.0;
    }
  }

  lemma {:induction false} FloorIs(x: real, k: int)
    requires k as real <= x < k as real + 1.0
    ensures x.Floor == k
  {
  }

  lemma {:induction false} RiseIn(h6: real, k: int)
    requires 0 <= k < 6 && k as real <= h6 < k as real + 1.0
    ensures Rise(h6) == if k % 2 == 0 then h6 - k as real else k as real + 1.0 - h6
    ensures h6.Floor == k
  {
    FloorIs(h6, k);
    FloorIs(h6 / 2.0, k / 2);
  }

  /** The chroma computed from saturation and lightness is the spread of the channels. */
  lemma {:induction false} ChromaIsSpread(max: real, min: real)
    requires 0.0 <= min <= max <= 1.0
    ensures var l := (max + min) / 2.0; Chroma(Saturation(max - min, l), l) == max - min
  {
    var l, delta := (max + min) / 2.0, max - min;
    if l == 0.0 || l == 1.0 {
      assert delta == 0.0;
    } else if l < 0.5 {
      Divides(delta, 2.0 * l);
    } else {
      Divides(delta, 2.0 - 2.0 * l);
    }
  }

  lemma {:induction false} Opposite(d: real, t: real)
    ensures d * (-t) == -(d * t)
  {
  }

  /** A colour with some saturation, its spread and the lowest channel. */
  predicate Spreads(color: Rgba, max: real, min: real, delta: real) {
    max == Highest(color) && min == Lowest(color) && delta == max - min && delta > 0.0
  }

  /** The colour that hue, spread and lowest channel give back. */
  function OnWheel(h6: real, max: real, min: real, delta: real, a: real): Rgba {
    Sector(h6, max, Between(min, delta, Rise(h6)), min, a)
  }

  lemma {:induction false} RedWrapsBack(color: Rgba, max: real, min: real, delta: real, t: real)
    requires Spreads(color, max, min, delta) && max == color.r && color.g < color.b
    requires t == (color.g - color.b) / delta
    ensures RemEuclid6(t) == t + 6.0 && 5.0 <= t + 6.0 < 6.0
    ensures OnWheel(t + 6.0, max, min, delta, color.a) == color
  {
    Divides(color.g - color.b, delta);
    Opposite(delta, t);
    FloorIs(t / 6.0, -1);
    RiseIn(t + 6.0, 5);
  }

  lemma {:induction false} RedRisesBack(color: Rgba, max: real, min: real, delta: real, t: real)
    requires Spreads(color, max, min, delta) && max == color.r && color.g >= color.b
    requires t == (color.g - color.b) / delta
    ensures RemEuclid6(t) == t && 0.0 <= t <= 1.0
    ensures OnWheel(t, max, min, delta, color.a) == color
  {
    Divides(color.g - color.b, delta);
    FloorIs(t / 6.0, 0);
    RiseIn(t, if t < 1.0 then 0 else 1);
  }

  lemma {:induction false} RedComesBack(color: Rgba, max: real, min: real, delta: real)
    requires Spreads(color, max, min, delta) && max == color.r
    ensures 0.0 <= Hue6(color, max, delta) < 6.0
    ensures OnWheel(Hue6(color, max, delta), max, min, delta, color.a) == color
  {
    var t := (color.g - color.b) / delta;
    if color.g < color.b {
      RedWrapsBack(color, max, min, delta, t);
    } else {
      RedRisesBack(color, max, min, delta, t);
    }
  }

  lemma {:induction false} GreenComesBack(color: Rgba, max: real, min: real, delta: real)
    requires Spreads(color, max, min, delta) && max == color.g && max != color.r
    ensures 0.0 <= Hue6(color, max, delta) < 6.0
    ensures OnWheel(Hue6(color, max, delta), max, min, delta, color.a) == color
  {
    var n := color.b - color.r;
    var t := n / delta;
    Divides(n, delta);
    Opposite(delta, t);
    RiseIn(t + 2.0, if t < 0.0 then 1 else if t < 1.0 then 2 else 3);
  }

  lemma {:induction false} BlueComesBack(color: Rgba, max: real, min: real, delta: real)
    requires Spreads(color, max, min, delta) && max != color.g && max != color.r
    ensures 0.0 <= Hue6(color, max, delta) < 6.0
    ensures OnWheel(Hue6(color, max, delta), max, min, delta, color.a) == color
  {
    var n := color.r - color.g;
    var t := n / delta;
    Divides(n, delta);
    Opposite(delta, t);
    RiseIn(t + 4.0, if t < 0.0 then 3 else 4);
  }

  lemma {:induction false} HueComesBack(color: Rgba, max: real, min: real, delta: real)
    requires Spreads(color, max, min, delta)
    ensures 0.0 <= Hue6(color, max, delta) < 6.0
    ensures OnWheel(Hue6(color, max, delta), max, min, delta, color.a) == color
  {
    if max == color.r {
      RedComesBack(color, max, min, delta);
    } else if max == color.g {
      GreenComesBack(color, max, min, delta);
    } else {
      BlueComesBack(color, max, min, delta);
    }
  }

  lemma {:induction false} GrayComesBack(h6: real, v: real, a: real)
    requires Unit(v)
    ensures FromChroma(h6, 0.0, v, a) == Rgba(v, v, v, a)
  {
    assert 0.0 * Rise(h6) == 0.0;
  }

  lemma {:induction false} SpreadComesBack(color: Rgba, max: real, min: real, delta: real)
    requires Valid(color) && Spreads(color, max, min, delta)
    ensures FromChroma(Hue6(color, max, delta), delta, (max + min) / 2.0, color.a) == color
  {
    HueComesBack(color, max, min, delta);
    var l := (max + min) / 2.0;
    assert l - delta / 2.0 == min && delta + min == max;
  }

  /** Any RGB colour converted to HSL and back is the same colour, in every sector and on every boundary. */
  lemma {:induction false} RgbComesBack(color: Rgba)
    requires Valid(color)
    ensures ToRgb(ToHsl(color)) == color
  {
    var max, min := Highest(color), Lowest(color);
    var delta, l := max - min, (max + min) / 2.0;
    ChromaIsSpread(max, min);
    if delta == 0.0 {
      GrayComesBack(0.0, max, color.a);
    } else {
      SpreadComesBack(color, max, min, delta);
      SixthsCancel(Hue6(color, max, delta));
    }
  }

  lemma {:induction false} SixthsCancel(h6: real)
    ensures h6 / 6.0 * 6.0 == h6
  {
  }

  /** No two RGB colours have the same HSL. */
  lemma {:induction false} ToHslIsInjective(c: Rgba, d: Rgba)
    requires Valid(c) && Valid(d) && ToHsl(c) == ToHsl(d)
    ensures c == d
  {
    RgbComesBack(c);
    RgbComesBack(d);
  }

  // ----- from HSL to RGB and back -----

  predicate ValidHsl(c: Hsla) {
    Unit(c.h) && Unit(c.s) && Unit(c.l) && Unit(c.a)
  }

  /** A full turn of the hue is no turn. */
  lemma {:induction false} FullTurn(c: Hsla)
    requires c.h == 1.0
    ensures ToRgb(c) == ToRgb(c.(h := 0.0)) && Reference(c) == Reference(c.(h := 0.0))
  {
    FloorIs(6.0, 6);
    FloorIs(3.0, 3);
    FloorIs(0.0, 0);
  }

  lemma {:induction false} Shrinks(p: real, s: real)
    requires p >= 0.0 && Unit(s)
    ensures 0.0 <= p * s <= p
    ensures p > 0.0 && s > 0.0 ==> p * s > 0.0
    ensures p > 0.0 && s < 1.0 ==> p * s < p
  {
    assert p - p * s == p * (1.0 - s);
  }

  lemma {:induction false} RoomFits(l: real)
    requires Unit(l)
    ensures Unit(Room(l)) && l - Room(l) / 2.0 >= 0.0 && l + Room(l) / 2.0 <= 1.0
    ensures 0.0 < l < 1.0 <==> Room(l) > 0.0
  {
  }

  lemma {:induction false} PartFits(room: real, s: real, l: real, chroma: real)
    requires Unit(s) && Unit(room) && l - room / 2.0 >= 0.0 && l + room / 2.0 <= 1.0 && chroma == room * s
    ensures 0.0 <= chroma && l - chroma / 2.0 >= 0.0 && l + chroma / 2.0 <= 1.0
    ensures chroma > 0.0 <==> room > 0.0 && s > 0.0
  {
    Shrinks(room, s);
    assert chroma <= room;
  }

  lemma {:induction false} ChromaFits(s: real, l: real)
    requires Unit(s) && Unit(l)
    ensures var c := Chroma(s, l); 0.0 <= c && l - c / 2.0 >= 0.0 && l + c / 2.0 <= 1.0
    ensures Chroma(s, l) > 0.0 <==> s > 0.0 && 0.0 < l < 1.0
  {
    RoomFits(l);
    PartFits(Room(l), s, l, Chroma(s, l));
  }

  lemma {:induction false} SaturationComesBack(s: real, l: real)
    requires 0.0 < l < 1.0
    ensures Saturation(Chroma(s, l), l) == s
  {
    var room := if l < 0.5 then 2.0 * l else 2.0 - 2.0 * l;
    assert room > 0.0 && Chroma(s, l) == room * s;
    Cancels(room, s);
  }

  lemma {:induction false} Cancels(d: real, s: real)
    requires d > 0.0
    ensures d * s / d == s && (-(d * s)) / d == -s
  {
    var q := d * s / d;
    Compare(q, s, d);
    Compare((-(d * s)) / d, -s, d);
    Opposite(d, s);
  }

  lemma {:induction false} RiseIsUnit(h6: real)
    requires 0.0 <= h6 < 6.0
    ensures Unit(Rise(h6))
  {
    RiseIn(h6, h6.Floor);
  }

  lemma {:induction false} SectorSpans(h6: real, max: real, xm: real, min: real, a: real)
    requires 0.0 <= h6 < 6.0 && min <= xm <= max
    ensures var c := Sector(h6, max, xm, min, a);
            && Highest(c) == max && Lowest(c) == min
            && (0.0 <= min && max <= 1.0 ==> Clamped(c) == c)
  {
  }

  lemma {:induction false} ReadsUp(h6: real, max: real, xm: real, min: real, delta: real, a: real)
    requires 0.0 <= h6 < 6.0 && h6.Floor % 2 == 0 && min <= xm < max
    requires delta > 0.0 && (xm - min) / delta == h6 - h6.Floor as real
    ensures Hue6(Sector(h6, max, xm, min, a), max, delta) == h6
  {
    if h6 < 1.0 {
      FloorIs(h6 / 6.0, 0);
    }
  }

  lemma {:induction false} ReadsDown(h6: real, max: real, xm: real, min: real, delta: real, a: real)
    requires 0.0 <= h6 < 6.0 && h6.Floor % 2 == 1 && min < xm <= max && delta > 0.0
    requires xm == max <==> h6 == h6.Floor as real
    requires (xm - min) / delta == h6.Floor as real + 1.0 - h6 && (min - xm) / delta == h6 - h6.Floor as real - 1.0
    ensures Hue6(Sector(h6, max, xm, min, a), max, delta) == h6
  {
    if h6 >= 5.0 {
      FloorIs((h6 - 6.0) / 6.0, -1);
    } else if h6 < 2.0 {
      FloorIs(1.0 / 6.0, 0);
    }
  }

  lemma {:induction false} Slope(delta: real, rise: real, min: real, xm: real)
    requires delta > 0.0 && xm == Between(min, delta, rise)
    ensures (xm - min) / delta == rise && (min - xm) / delta == -rise
  {
    Cancels(delta, rise);
    assert xm - min == delta * rise && min - xm == -(delta * rise);
  }

  lemma {:induction false} ReadsOff(h6: real, max: real, xm: real, min: real, delta: real, rise: real, a: real)
    requires 0.0 <= h6 < 6.0 && rise == Rise(h6) && delta > 0.0 && min <= xm <= max
    requires (rise == 0.0 ==> xm == min) && (rise > 0.0 ==> xm > min) && (xm == max <==> rise == 1.0)
    requires (xm - min) / delta == rise && (min - xm) / delta == -rise
    ensures Hue6(Sector(h6, max, xm, min, a), max, delta) == h6
  {
    RiseIn(h6, h6.Floor);
    if h6.Floor % 2 == 0 {
      ReadsUp(h6, max, xm, min, delta, a);
    } else {
      ReadsDown(h6, max, xm, min, delta, a);
    }
  }

  lemma {:induction false} Middle(delta: real, rise: real, min: real, xm: real)
    requires delta > 0.0 && Unit(rise) && xm == Between(min, delta, rise)
    ensures min <= xm <= min + delta && (rise == 0.0 ==> xm == min) && (rise > 0.0 ==> xm > min)
    ensures xm == min + delta <==> rise == 1.0
  {
    Shrinks(delta, rise);
  }

  /** In any sector the highest and lowest channels are where they should be, and the hue is read off again. */
  lemma {:induction false} HueIsReadOff(h6: real, max: real, xm: real, min: real, delta: real, a: real)
    requires 0.0 <= h6 < 6.0 && delta > 0.0 && max == min + delta && xm == Between(min, delta, Rise(h6))
    ensures var c := Sector(h6, max, xm, min, a);
            Highest(c) == max && Lowest(c) == min && Hue6(c, max, delta) == h6
  {
    RiseIsUnit(h6);
    Slope(delta, Rise(h6), min, xm);
    Middle(delta, Rise(h6), min, xm);
    SectorSpans(h6, max, xm, min, a);
    ReadsOff(h6, max, xm, min, delta, Rise(h6), a);
  }

  lemma {:induction false} ReadsBack(rgb: Rgba, h6: real, max: real, min: real, delta: real)
    requires Highest(rgb) == max && Lowest(rgb) == min && delta == max - min > 0.0 && Hue6(rgb, max, delta) == h6
    ensures ToHsl(rgb) == Hsla(h6 / 6.0, Saturation(delta, (max + min) / 2.0), (max + min) / 2.0, rgb.a)
  {
  }

  lemma {:induction false} WheelIsReadOff(h6: real, max: real, xm: real, min: real, delta: real, a: real)
    requires 0.0 <= h6 < 6.0 && delta > 0.0 && max == min + delta && xm == Between(min, delta, Rise(h6))
    ensures ToHsl(Sector(h6, max, xm, min, a))
            == Hsla(h6 / 6.0, Saturation(delta, (max + min) / 2.0), (max + min) / 2.0, a)
  {
    HueIsReadOff(h6, max, xm, min, delta, a);
    ReadsBack(Sector(h6, max, xm, min, a), h6, max, min, delta);
  }

  lemma {:induction false} ChromaOnWheel(h6: real, chroma: real, l: real, a: real, xm: real, min: real)
    requires 0.0 <= h6 < 6.0 && chroma >= 0.0 && min == l - chroma / 2.0 && min >= 0.0 && chroma + min <= 1.0
    requires xm == Between(min, chroma, Rise(h6))
    ensures FromChroma(h6, chroma, l, a) == Sector(h6, chroma + min, xm, min, a)
  {
    WheelIsInRange(h6, chroma + min, min, chroma, a);
  }

  lemma {:induction false} SpreadIsReadOff(h6: real, chroma: real, l: real, a: real, xm: real, min: real)
    requires 0.0 <= h6 < 6.0 && chroma > 0.0 && min == l - chroma / 2.0 && min >= 0.0 && chroma + min <= 1.0
    requires xm == Between(min, chroma, Rise(h6))
    ensures ToHsl(FromChroma(h6, chroma, l, a)) == Hsla(h6 / 6.0, Saturation(chroma, l), l, a)
  {
    assert (chroma + min + min) / 2.0 == l;
    ChromaOnWheel(h6, chroma, l, a, xm, min);
    WheelIsReadOff(h6, chroma + min, xm, min, chroma, a);
  }

  lemma {:induction false} GrayIsReadOff(c: Hsla)
    requires ValidHsl(c)
    ensures ToHsl(FromChroma(c.h * 6.0, 0.0, c.l, c.a)) == Hsla(0.0, 0.0, c.l, c.a)
  {
    GrayComesBack(c.h * 6.0, c.l, c.a);
  }

  lemma {:induction false} SaturatedComesBack(c: Hsla)
    requires ValidHsl(c) && c.h < 1.0 && c.s > 0.0 && 0.0 < c.l < 1.0
    ensures ToHsl(ToRgb(c)) == c
  {
    var h6, chroma := c.h * 6.0, Chroma(c.s, c.l);
    var min := c.l - chroma / 2.0;
    ChromaFits(c.s, c.l);
    SaturationComesBack(c.s, c.l);
    SpreadIsReadOff(h6, chroma, c.l, c.a, Between(min, chroma, Rise(h6)), min);
  }

  lemma {:induction false} UnsaturatedTurnsGray(c: Hsla)
    requires ValidHsl(c) && c.h < 1.0 && !(c.s > 0.0 && 0.0 < c.l < 1.0)
    ensures ToHsl(ToRgb(c)) == Hsla(0.0, 0.0, c.l, c.a)
  {
    ChromaFits(c.s, c.l);
    GrayIsReadOff(c);
  }

  /** A colour with saturation that is neither black nor white comes back from RGB as it was, short of a full turn of
      the hue; of any other only the lightness does, so that it comes back exactly when its hue and saturation are
      zero. */
  lemma {:induction false} HslComesBackIff(c: Hsla)
    requires ValidHsl(c)
    ensures ToHsl(ToRgb(c)) == c <==> (c.h < 1.0 && c.s > 0.0 && 0.0 < c.l < 1.0) || (c.h == 0.0 && c.s == 0.0)
  {
    if c.h == 1.0 {
      FullTurn(c);
      if c.s > 0.0 && 0.0 < c.l < 1.0 {
        SaturatedComesBack(c.(h := 0.0));
      } else {
        UnsaturatedTurnsGray(c.(h := 0.0));
      }
    } else if c.s > 0.0 && 0.0 < c.l < 1.0 {
      SaturatedComesBack(c);
    } else {
      UnsaturatedTurnsGray(c);
    }
  }

  lemma {:induction false} WheelIsInRange(h6: real, max: real, min: real, delta: real, a: real)
    requires 0.0 <= h6 < 6.0 && delta >= 0.0 && max == min + delta && 0.0 <= min && max <= 1.0
    ensures Clamped(OnWheel(h6, max, min, delta, a)) == OnWheel(h6, max, min, delta, a)
    ensures Highest(OnWheel(h6, max, min, delta, a)) == max
  {
    RiseIsUnit(h6);
    Shrinks(delta, Rise(h6));
    SectorSpans(h6, max, Between(min, delta, Rise(h6)), min, a);
  }

  // ----- the reference formula -----

  /** The formula of section 7.1 of CSS Color Module Level 4, for channel `n` of 0, 8 and 4. */
  function Wave(n: real, h6: real): real {
    var k := n + 2.0 * h6;
    var k12 := if k >= 12.0 then k - 12.0 else k;
    Max(-1.0, Min(Min(k12 - 3.0, 9.0 - k12), 1.0))
  }

  function Amplitude(s: real, l: real): real {
    s * Min(l, 1.0 - l)
  }

  function Level(l: real, a: real, wave: real): real {
    l - a * wave
  }

  function ReferenceAt(h6: real, a: real, l: real, alpha: real): Rgba {
    Rgba(Level(l, a, Wave(0.0, h6)), Level(l, a, Wave(8.0, h6)), Level(l, a, Wave(4.0, h6)), alpha)
  }

  function Reference(c: Hsla): Rgba {
    ReferenceAt(c.h * 6.0, Amplitude(c.s, c.l), c.l, c.a)
  }

  lemma {:induction false} WaveInSector(h6: real)
    requires 0.0 <= h6 < 6.0
    ensures Sector(h6, -1.0, 1.0 - 2.0 * Rise(h6), 1.0, 0.0) == Rgba(Wave(0.0, h6), Wave(8.0, h6), Wave(4.0, h6), 0.0)
  {
    RiseIn(h6, h6.Floor);
  }

  lemma {:induction false} WaveIsLinear(a: real, chroma: real, rise: real, l: real, m: real)
    requires chroma == 2.0 * a && m == l - chroma / 2.0
    ensures Level(l, a, 1.0 - 2.0 * rise) == Between(m, chroma, rise)
  {
    assert a * (1.0 - 2.0 * rise) == a - 2.0 * (a * rise);
    assert chroma * rise == 2.0 * (a * rise);
  }

  lemma {:induction false} SectorIsLinear(h6: real, l: real, a: real, top: real, mid: real, low: real,
                                          w: real, w0: real, w8: real, w4: real, alpha: real)
    requires 0.0 <= h6 < 6.0 && Level(l, a, w) == mid && l + a == top && l - a == low
    requires Sector(h6, -1.0, w, 1.0, 0.0) == Rgba(w0, w8, w4, 0.0)
    ensures Sector(h6, top, mid, low, alpha) == Rgba(Level(l, a, w0), Level(l, a, w8), Level(l, a, w4), alpha)
  {
    assert Level(l, a, -1.0) == top && Level(l, a, 1.0) == low;
  }

  lemma {:induction false} RoomIsNear(s: real, l: real)
    requires Unit(l)
    ensures Chroma(s, l) == 2.0 * Amplitude(s, l)
  {
    assert Room(l) == 2.0 * Min(l, 1.0 - l);
  }

  lemma {:induction false} WaveOnWheel(h6: real, l: real, a: real, xm: real, rise: real, alpha: real)
    requires 0.0 <= h6 < 6.0 && rise == Rise(h6) && Level(l, a, 1.0 - 2.0 * rise) == xm
    ensures Sector(h6, l + a, xm, l - a, alpha) == ReferenceAt(h6, a, l, alpha)
  {
    WaveInSector(h6);
    SectorIsLinear(h6, l, a, l + a, xm, l - a, 1.0 - 2.0 * rise, Wave(0.0, h6), Wave(8.0, h6), Wave(4.0, h6), alpha);
  }

  lemma {:induction false} ChromaIsReference(h6: real, l: real, a: real, chroma: real, m: real, alpha: real)
    requires 0.0 <= h6 < 6.0 && chroma == 2.0 * a && chroma >= 0.0
    requires m == l - chroma / 2.0 && m >= 0.0 && chroma + m <= 1.0
    ensures FromChroma(h6, chroma, l, alpha) == ReferenceAt(h6, a, l, alpha)
  {
    var xm := Between(m, chroma, Rise(h6));
    ChromaOnWheel(h6, chroma, l, alpha, xm, m);
    WaveIsLinear(a, chroma, Rise(h6), l, m);
    WaveOnWheel(h6, l, a, xm, Rise(h6), alpha);
  }

  /** The sector form computes the reference formula. */
  lemma {:induction false} SectorsAreReference(c: Hsla)
    requires ValidHsl(c)
    ensures ToRgb(c) == Reference(c)
    decreases c.h == 1.0
  {
    if c.h == 1.0 {
      FullTurn(c);
      SectorsAreReference(c.(h := 0.0));
      return;
    }
    var chroma := Chroma(c.s, c.l);
    ChromaFits(c.s, c.l);
    RoomIsNear(c.s, c.l);
    ChromaIsReference(c.h * 6.0, c.l, Amplitude(c.s, c.l), chroma, c.l - chroma / 2.0, c.a);
  }

  /** Red, green and blue are a third of the wheel apart, in this order. */
  lemma {:induction false} PrimariesOnWheel(a: real)
    ensures ToHsl(Rgba(1.0, 0.0, 0.0, a)) == Hsla(0.0, 1.0, 0.5, a)
    ensures ToHsl(Rgba(0.0, 1.0, 0.0, a)) == Hsla(1.0 / 3.0, 1.0, 0.5, a)
    ensures ToHsl(Rgba(0.0, 0.0, 1.0, a)) == Hsla(2.0 / 3.0, 1.0, 0.5, a)
    ensures ToRgb(Hsla(0.0, 1.0, 0.5, a)) == Rgba(1.0, 0.0, 0.0, a)
    ensures ToRgb(Hsla(1.0 / 3.0, 1.0, 0.5, a)) == Rgba(0.0, 1.0, 0.0, a)
    ensures ToRgb(Hsla(2.0 / 3.0, 1.0, 0.5, a)) == Rgba(0.0, 0.0, 1.0, a)
  {
  }

  // ----- blending in HSL -----

  /** `other` over `under`; a clear `other` leaves `under` alone, even where that is clear, too. */
  function BlendHsl(under: Hsla, other: Hsla): Hsla {
    if other.a >= 1.0 then other
    else if other.a <= 0.0 then under
    else ToHsl(Blend(ToRgb(under), ToRgb(other)))
  }

  /** Blending in HSL is blending in RGB exactly when one of the two colours shows or the lower one is black: the
      clear result for two clear colours is not made clear black here. */
  lemma {:induction false} BlendHslIsBlendIff(under: Hsla, other: Hsla)
    requires ValidHsl(under) && ValidHsl(other)
    ensures ToRgb(BlendHsl(under, other)) == Blend(ToRgb(under), ToRgb(other))
            <==> under.a > 0.0 || other.a > 0.0 || under.l == 0.0
  {
    if 0.0 < other.a < 1.0 {
      BlendIsSourceOver(ToRgb(under), ToRgb(other));
      RgbComesBack(Blend(ToRgb(under), ToRgb(other)));
    } else if other.a == 0.0 && under.a == 0.0 {
      BlackIffDark(under);
    }
  }

  lemma {:induction false} BlackIffDark(c: Hsla)
    requires ValidHsl(c)
    ensures (ToRgb(c).r == 0.0 && ToRgb(c).g == 0.0 && ToRgb(c).b == 0.0) <==> c.l == 0.0
    decreases c.h == 1.0
  {
    if c.h == 1.0 {
      FullTurn(c);
      BlackIffDark(c.(h := 0.0));
      return;
    }
    var chroma := Chroma(c.s, c.l);
    var min := c.l - chroma / 2.0;
    ChromaFits(c.s, c.l);
    if c.l == 0.0 {
      GrayComesBack(c.h * 6.0, 0.0, c.a);
    } else {
      WheelIsInRange(c.h * 6.0, chroma + min, min, chroma, c.a);
    }
  }
}
