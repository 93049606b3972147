/** Source-over blending of colours with straight alpha, over exact reals. */
module Blending {

  datatype Rgba = Rgba(r: real, g: real, b: real, a: real)

  predicate Unit(x: real) { 0.0 <= x <= 1.0 }

  predicate Valid(c: Rgba) {
    Unit(c.r) && Unit(c.g) && Unit(c.b) && Unit(c.a)
  }

  const CLEAR := Rgba(0.0, 0.0, 0.0, 0.0)

  /** `k` of `x`. */
  function Part(x: real, k: real): real {
    x * k
  }

  /** `other` over `under`, with the fast paths for an opaque and for a clear source. */
  function Blend(under: Rgba, other: Rgba): Rgba {
    if other.a >= 1.0 then other
    else if other.a <= 0.0 then (if under.a <= 0.0 then CLEAR else under)
    else
      var dstWeight := Part(under.a, 1.0 - other.a);
      var outA := other.a + dstWeight;
      if outA <= 0.0 then CLEAR
      else
        Rgba(Mean(other.r, other.a, under.r, dstWeight),
             Mean(other.g, other.a, under.g, dstWeight),
             Mean(other.b, other.a, under.b, dstWeight),
             outA)
  }

  /** The mean of `x` and `y`, weighted by `p` and `q`. */
  function Mean(x: real, p: real, y: real, q: real): real
    requires p + q != 0.0
  {
    (Part(x, p) + Part(y, q)) / (p + q)
  }

  // ----- the linear form -----

  /** Channels multiplied by alpha. */
  datatype Premultiplied = Premultiplied(r: real, g: real, b: real, a: real)

  function Pre(c: Rgba): Premultiplied {
    Premultiplied(Part(c.r, c.a), Part(c.g, c.a), Part(c.b, c.a), c.a)
  }

  /** Source-over on premultiplied colours (section 9.1.4 of W3C Compositing and Blending Level 1). */
  function Over(src: Premultiplied, dst: Premultiplied): Premultiplied {
    Premultiplied(OverChannel(src.r, dst.r, src.a), OverChannel(src.g, dst.g, src.a),
                  OverChannel(src.b, dst.b, src.a), OverChannel(src.a, dst.a, src.a))
  }

  function OverChannel(src: real, dst: real, alpha: real): real {
    src + Part(dst, 1.0 - alpha)
  }

  lemma {:induction false} PartAdds(x: real, y: real, k: real)
    ensures Part(x + y, k) == Part(x, k) + Part(y, k)
  {
  }

  lemma {:induction false} PartOfPart(x: real, k: real, l: real)
    ensures Part(Part(x, k), l) == Part(x, Part(k, l))
  {
  }

  lemma {:induction false} PartIsPart(x: real, k: real)
    requires Unit(x) && k >= 0.0
    ensures 0.0 <= Part(x, k) <= k
  {
    IsNotNegative(x, k);
    IsNotNegative(1.0 - x, k);
    PartAdds(x, 1.0 - x, k);
    assert Part(1.0, k) == k;
  }

  lemma {:induction false} IsNotNegative(x: real, k: real)
    requires x >= 0.0 && k >= 0.0
    ensures Part(x, k) >= 0.0
  {
    if x == 0.0 || k == 0.0 {
      assert Part(x, k) == 0.0;
    } else {
      assert Part(x, k) > 0.0;
    }
  }

  lemma {:induction false} PartOfQuotient(n: real, d: real)
    requires d != 0.0
    ensures Part(n / d, d) == n
  {
  }

  lemma {:induction false} QuotientIsUnit(n: real, d: real)
    requires 0.0 <= n <= d && d > 0.0
    ensures Unit(n / d)
  {
    PartOfQuotient(n, d);
    var v := n / d;
    if v < 0.0 {
      Negative(v, d);
    } else if v > 1.0 {
      Exceeds(v, d);
    }
  }

  lemma {:induction false} Negative(v: real, d: real)
    requires v < 0.0 && d > 0.0
    ensures Part(v, d) < 0.0
  {
  }

  lemma {:induction false} Exceeds(v: real, d: real)
    requires v > 1.0 && d > 0.0
    ensures Part(v, d) > d
  {
    assert (v - 1.0) * d > 0.0;
    assert v * d == d + (v - 1.0) * d;
  }

  lemma {:induction false} MeanIsUnit(x: real, p: real, y: real, q: real)
    requires Unit(x) && Unit(y) && p > 0.0 && q >= 0.0
    ensures Unit(Mean(x, p, y, q))
  {
    PartIsPart(x, p);
    PartIsPart(y, q);
    QuotientIsUnit(Part(x, p) + Part(y, q), p + q);
  }

  lemma {:induction false} MeanIsLinear(x: real, p: real, y: real, q: real)
    requires p + q != 0.0
    ensures Part(Mean(x, p, y, q), p + q) == Part(x, p) + Part(y, q)
  {
    PartOfQuotient(Part(x, p) + Part(y, q), p + q);
  }

  lemma {:induction false} MixIsLinear(under: Rgba, other: Rgba, k: real, w: real, o: real)
    requires k == 1.0 - other.a && w == Part(under.a, k) && o == other.a + w && o != 0.0
    ensures Premultiplied(Part(Mean(other.r, other.a, under.r, w), o), Part(Mean(other.g, other.a, under.g, w), o),
                          Part(Mean(other.b, other.a, under.b, w), o), o)
            == Over(Pre(other), Pre(under))
  {
    MeanIsLinear(other.r, other.a, under.r, w);
    MeanIsLinear(other.g, other.a, under.g, w);
    MeanIsLinear(other.b, other.a, under.b, w);
    PartOfPart(under.r, under.a, k);
    PartOfPart(under.g, under.a, k);
    PartOfPart(under.b, under.a, k);
  }

  lemma {:induction false} BlendMixes(under: Rgba, other: Rgba)
    requires Valid(under) && Valid(other) && 0.0 < other.a < 1.0
    ensures Valid(Blend(under, other))
    ensures Pre(Blend(under, other)) == Over(Pre(other), Pre(under))
  {
    var k := 1.0 - other.a;
    var w := Part(under.a, k);
    PartIsPart(under.a, k);
    MeanIsUnit(other.r, other.a, under.r, w);
    MeanIsUnit(other.g, other.a, under.g, w);
    MeanIsUnit(other.b, other.a, under.b, w);
    MixIsLinear(under, other, k, w, other.a + w);
  }

  /** Blending keeps components between 0 and 1, and premultiplied it is linear source-over, on every path. */
  lemma {:induction false} BlendIsSourceOver(under: Rgba, other: Rgba)
    requires Valid(under) && Valid(other)
    ensures Valid(Blend(under, other))
    ensures Pre(Blend(under, other)) == Over(Pre(other), Pre(under))
  {
    if 0.0 < other.a < 1.0 {
      BlendMixes(under, other);
    } else if other.a == 0.0 {
      KeepsAll(Pre(under), Pre(other));
    } else {
      HidesAll(Pre(under), Pre(other));
    }
  }

  lemma {:induction false} KeepsAll(dst: Premultiplied, src: Premultiplied)
    requires src.a == 0.0 && src.r == 0.0 && src.g == 0.0 && src.b == 0.0
    ensures Over(src, dst) == dst
  {
  }

  lemma {:induction false} HidesAll(dst: Premultiplied, src: Premultiplied)
    requires src.a == 1.0
    ensures Over(src, dst) == src
  {
  }

  /** A clear colour has one representation. */
  predicate Canonical(c: Rgba) {
    c.a == 0.0 ==> c == CLEAR
  }

  lemma {:induction false} BlendIsCanonical(under: Rgba, other: Rgba)
    requires Valid(under) && Valid(other)
    ensures Canonical(Blend(under, other))
  {
    if 0.0 < other.a < 1.0 {
      PartIsPart(under.a, 1.0 - other.a);
    }
  }

  lemma {:induction false} PartDetermines(x: real, y: real, k: real)
    requires k != 0.0 && Part(x, k) == Part(y, k)
    ensures x == y
  {
    assert (x - y) * k == 0.0;
  }

  lemma {:induction false} CanonicalIsDetermined(c: Rgba, d: Rgba)
    requires Canonical(c) && Canonical(d) && Pre(c) == Pre(d)
    ensures c == d
  {
    if c.a != 0.0 {
      PartDetermines(c.r, d.r, c.a);
      PartDetermines(c.g, d.g, c.a);
      PartDetermines(c.b, d.b, c.a);
    }
  }

  /** One channel: what is left after two layers is what is left after both at once. */
  lemma {:induction false} ChannelAssociates(x: real, y: real, z: real, b: real, c: real)
    ensures OverChannel(z, OverChannel(y, x, b), c) == OverChannel(OverChannel(z, y, c), x, OverChannel(c, b, c))
  {
    PartAdds(y, Part(x, 1.0 - b), 1.0 - c);
    PartOfPart(x, 1.0 - b, 1.0 - c);
    PartAdds(1.0 - b, b, 1.0 - c);
    assert Part(1.0, 1.0 - c) == 1.0 - c;
  }

  lemma {:induction false} OverAssociates(a: Premultiplied, b: Premultiplied, c: Premultiplied)
    ensures Over(c, Over(b, a)) == Over(Over(c, b), a)
  {
    ChannelAssociates(a.r, b.r, c.r, b.a, c.a);
    ChannelAssociates(a.g, b.g, c.g, b.a, c.a);
    ChannelAssociates(a.b, b.b, c.b, b.a, c.a);
    ChannelAssociates(a.a, b.a, c.a, b.a, c.a);
  }

  /** Blending is associative, exactly: fast paths, clear layers and all. */
  lemma {:induction false} BlendAssociates(a: Rgba, b: Rgba, c: Rgba)
    requires Valid(a) && Valid(b) && Valid(c)
    ensures Blend(Blend(a, b), c) == Blend(a, Blend(b, c))
  {
    BlendIsSourceOver(a, b);
    BlendIsSourceOver(b, c);
    BlendIsSourceOver(Blend(a, b), c);
    BlendIsSourceOver(a, Blend(b, c));
    BlendIsCanonical(Blend(a, b), c);
    BlendIsCanonical(a, Blend(b, c));
    OverAssociates(Pre(a), Pre(b), Pre(c));
    CanonicalIsDetermined(Blend(Blend(a, b), c), Blend(a, Blend(b, c)));
  }

  // ----- any number of layers -----

  /** Layers blended in some bracketing, the lowest leftmost. */
  datatype Layers = Layer(color: Rgba) | Group(below: Layers, above: Layers)

  function Flatten(t: Layers): (cs: seq<Rgba>)
    ensures cs != [] && (t.Group? ==> |cs| > 1)
  {
    match t
    case Layer(c) => [c]
    case Group(below, above) => Flatten(below) + Flatten(above)
  }

  function Blended(t: Layers): Rgba {
    match t
    case Layer(c) => c
    case Group(below, above) => Blend(Blended(below), Blended(above))
  }

  /** The layers drawn one after the other, as the GPU blends premultiplied colours onto a target. */
  function Drawn(target: Premultiplied, cs: seq<Rgba>): Premultiplied
    decreases |cs|
  {
    if cs == [] then target else Drawn(Over(Pre(cs[0]), target), cs[1..])
  }

  predicate AllValid(cs: seq<Rgba>) {
    forall c <- cs :: Valid(c)
  }

  lemma {:induction false} DrawnInTurn(target: Premultiplied, a: seq<Rgba>, b: seq<Rgba>)
    ensures Drawn(target, a + b) == Drawn(Drawn(target, a), b)
    decreases |a|
  {
    if a == [] {
      assert a + b == b;
    } else {
      assert (a + b)[1..] == a[1..] + b;
      DrawnInTurn(Over(Pre(a[0]), target), a[1..], b);
    }
  }

  /** Blending the layers into one colour first, in any bracketing, and drawing that comes to the same as drawing
      the layers one by one, onto any target. */
  lemma {:induction false} BlendedDrawsTheSame(t: Layers, target: Premultiplied)
    requires AllValid(Flatten(t))
    ensures Valid(Blended(t))
    ensures Over(Pre(Blended(t)), target) == Drawn(target, Flatten(t))
    decreases t
  {
    match t
    case Layer(c) =>
      assert c in Flatten(t);
      assert Drawn(target, [c]) == Drawn(Over(Pre(c), target), []);
    case Group(below, above) =>
      assert forall c <- Flatten(below) :: c in Flatten(t);
      assert forall c <- Flatten(above) :: c in Flatten(t);
      BlendedDrawsTheSame(below, target);
      BlendedDrawsTheSame(above, Over(Pre(Blended(below)), target));
      BlendIsSourceOver(Blended(below), Blended(above));
      OverAssociates(target, Pre(Blended(below)), Pre(Blended(above)));
      DrawnInTurn(target, Flatten(below), Flatten(above));
  }

  /** The colour of a stack of layers does not depend on how their blends are bracketed. */
  lemma {:induction false} BracketingDoesNotMatter(t: Layers, u: Layers)
    requires AllValid(Flatten(t)) && Flatten(t) == Flatten(u)
    ensures Blended(t) == Blended(u)
  {
    var nothing := Premultiplied(0.0, 0.0, 0.0, 0.0);
    BlendedDrawsTheSame(t, nothing);
    BlendedDrawsTheSame(u, nothing);
    assert Over(Pre(Blended(t)), nothing) == Pre(Blended(t));
    assert Over(Pre(Blended(u)), nothing) == Pre(Blended(u));
    if t.Group? {
      GroupIsCanonical(t);
      GroupIsCanonical(u);
      CanonicalIsDetermined(Blended(t), Blended(u));
    } else {
      assert t.color == Flatten(t)[0] && u.Layer? && u.color == Flatten(u)[0];
    }
  }

  lemma {:induction false} GroupIsCanonical(t: Layers)
    requires t.Group? && AllValid(Flatten(t))
    ensures Canonical(Blended(t))
  {
    assert forall c <- Flatten(t.below) :: c in Flatten(t);
    assert forall c <- Flatten(t.above) :: c in Flatten(t);
    var nothing := Premultiplied(0.0, 0.0, 0.0, 0.0);
    BlendedDrawsTheSame(t.below, nothing);
    BlendedDrawsTheSame(t.above, nothing);
    BlendIsCanonical(Blended(t.below), Blended(t.above));
  }
}
