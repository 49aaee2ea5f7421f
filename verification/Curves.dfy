/** The two transcendental curves of the program, kept as parameters that obey their laws:
    the exponential lag of a thermal node and the attenuation of a reduction in dB. */
module Curves {
  import opened Reals

  /** `decay(x)` is e^-x, `gain(db)` the linear attenuation 10^(-db/20), and `room(a)` the
      reduction in dB whose attenuation is `a`. */
  datatype Curves = Curves(decay: real -> real, gain: real -> real, room: real -> real)

  /** Names the pair a law is wanted for; it keeps the quantifiers below from feeding themselves. */
  ghost predicate At(x: real, y: real) { true }

  /** The laws. The first two hold of e^-x and of no other function of the reals. */
  ghost predicate Lawful(c: Curves) {
    && (forall x, y {:trigger At(x, y)} :: c.decay(x + y) == c.decay(x) * c.decay(y))
    && (forall x, y {:trigger At(x, y)} :: x == y ==> c.decay(x) >= 1.0 - x)
    && (forall x, y {:trigger At(x, y)} :: c.gain(x + y) == c.gain(x) * c.gain(y))
    && (forall x, y {:trigger At(x, y)} :: x == y ==> c.gain(x) > 0.0)
    && (forall x, y {:trigger At(x, y)} :: x < y ==> c.gain(y) < c.gain(x))
    && (forall x, y {:trigger At(x, y)} :: x == y && x > 0.0 ==> c.gain(c.room(x)) == x)
  }

  lemma DecayAdd(c: Curves, x: real, y: real)
    requires Lawful(c)
    ensures c.decay(x + y) == c.decay(x) * c.decay(y)
  {
    assert At(x, y);
  }

  lemma DecayTangent(c: Curves, x: real)
    requires Lawful(c)
    ensures c.decay(x) >= 1.0 - x
  {
    assert At(x, x);
  }

  lemma SquareNonneg(x: real)
    ensures x * x >= 0.0
  {}

  /** e^0 is 1, and e^-x and e^x are inverses of each other. */
  lemma DecayInverse(c: Curves, x: real)
    requires Lawful(c)
    ensures c.decay(0.0) == 1.0
    ensures c.decay(x) > 0.0
    ensures c.decay(-x) * c.decay(x) == 1.0
  {
    DecayAdd(c, 0.0, 0.0);
    DecayTangent(c, 0.0);
    assert c.decay(0.0) == 1.0;
    DecayAdd(c, -x, x);
    assert -x + x == 0.0;
    var half := x / 2.0;
    DecayAdd(c, half, half);
    assert half + half == x;
    SquareNonneg(c.decay(half));
  }

  lemma BelowOne(g: real, f: real)
    requires g > 1.0 && g * f == 1.0
    ensures f < 1.0
  {
    assert f == 1.0 / g;
  }

  lemma OwnSquare(g: real)
    requires g > 0.0 && g * g == g
    ensures g == 1.0
  {
    assert g == (g * g) / g;
  }

  /** A lag over a positive time keeps some of the gap and closes some of it. */
  lemma DecayPositive(c: Curves, x: real)
    requires Lawful(c) && x > 0.0
    ensures 0.0 < c.decay(x) < 1.0
    ensures c.decay(-x) > 1.0
  {
    DecayInverse(c, x);
    DecayTangent(c, -x);
    BelowOne(c.decay(-x), c.decay(x));
  }

  lemma DecayAtMostOne(c: Curves, x: real)
    requires Lawful(c) && x >= 0.0
    ensures 0.0 < c.decay(x) <= 1.0
  {
    if x > 0.0 { DecayPositive(c, x); } else { DecayInverse(c, 0.0); }
  }

  /** The longer lag keeps less. */
  lemma DecayAntitone(c: Curves, x: real, y: real)
    requires Lawful(c) && x <= y
    ensures c.decay(y) <= c.decay(x)
  {
    DecayAdd(c, x, y - x);
    DecayAtMostOne(c, y - x);
    DecayInverse(c, x);
    var f, g := c.decay(x), c.decay(y - x);
    assert f * g <= f by { assert f * (1.0 - g) >= 0.0; }
  }

  /** The tangent at any point lies under the curve. */
  lemma DecayOverTangent(c: Curves, x: real, y: real)
    requires Lawful(c)
    ensures c.decay(y) >= c.decay(x) * (1.0 - (y - x))
  {
    DecayAdd(c, x, y - x);
    DecayInverse(c, x);
    DecayTangent(c, y - x);
    ScaleOrder(c.decay(x), 1.0 - (y - x), c.decay(y - x));
  }

  lemma ChordTerms(f: real, g: real, th: real, z: real)
    requires 0.0 <= th <= 1.0 && 1.0 >= g * (1.0 + th * z) && f >= g * (1.0 - (1.0 - th) * z)
    ensures g <= 1.0 - th * (1.0 - f)
  {
    Nonneg(1.0 - th, 1.0 - g * (1.0 + th * z));
    Nonneg(th, f - g * (1.0 - (1.0 - th) * z));
    assert 1.0 - th * (1.0 - f) - g
        == (1.0 - th) * (1.0 - g * (1.0 + th * z)) + th * (f - g * (1.0 - (1.0 - th) * z));
  }

  /** The curve lies under its chords: a part `th` of a lag closes at least that part of what the
      whole closes. */
  lemma DecayUnderChord(c: Curves, th: real, z: real, x: real)
    requires Lawful(c) && 0.0 <= th <= 1.0 && x == th * z
    ensures c.decay(x) <= 1.0 - th * (1.0 - c.decay(z))
  {
    DecayOverTangent(c, x, 0.0);
    DecayOverTangent(c, x, z);
    DecayInverse(c, 0.0);
    var f, g := c.decay(z), c.decay(x);
    assert z - x == (1.0 - th) * z;
    ChordTerms(f, g, th, z);
  }

  /** The longer lag closes less for its length. */
  lemma DecaySlows(c: Curves, x: real, y: real)
    requires Lawful(c) && 0.0 < x <= y
    ensures x * (1.0 - c.decay(y)) <= y * (1.0 - c.decay(x))
  {
    var th := x / y;
    DivideTimes(x, y);
    DivideOrder(x, 1.0, y);
    QuotientPositive(x, y);
    DecayUnderChord(c, th, y, x);
    var f, g := c.decay(y), c.decay(x);
    Nonneg(y, 1.0 - th * (1.0 - f) - g);
    assert y * (1.0 - g) - (th * y) * (1.0 - f) == y * (1.0 - th * (1.0 - f) - g);
  }

  lemma GainAdd(c: Curves, x: real, y: real)
    requires Lawful(c)
    ensures c.gain(x + y) == c.gain(x) * c.gain(y)
  {
    assert At(x, y);
  }

  lemma GainPositive(c: Curves, x: real)
    requires Lawful(c)
    ensures c.gain(x) > 0.0
  {
    assert At(x, x);
  }

  lemma GainZero(c: Curves)
    requires Lawful(c)
    ensures c.gain(0.0) == 1.0
  {
    GainAdd(c, 0.0, 0.0);
    GainPositive(c, 0.0);
    var g := c.gain(0.0);
    assert c.gain(0.0 + 0.0) == g * g;
    OwnSquare(g);
  }

  lemma GainAntitone(c: Curves, x: real, y: real)
    requires Lawful(c) && x <= y
    ensures c.gain(y) <= c.gain(x)
  {
    assert At(x, y);
  }

  /** The attenuation tells the reductions apart. */
  lemma GainOrder(c: Curves, x: real, y: real)
    requires Lawful(c) && c.gain(x) <= c.gain(y)
    ensures y <= x
  {
    assert At(x, y);
  }

  lemma RoomInverse(c: Curves, a: real)
    requires Lawful(c) && a > 0.0
    ensures c.gain(c.room(a)) == a
  {
    assert At(a, a);
  }
}
