/** Composable scalar noise. A noise is a tree of combinators over opaque base
    fields (the engine's simplex samplers, which this model does not
    reproduce); `Sample` is the single interpreter of the tree. Every
    combinator builds a new tree around its receiver and never alters it. */
module Noise {
  import opened Numeric

  /** An opaque base field: the engine's simplex sampler at (x, y). */
  type Field = (real, real) -> real

  datatype Noise =
    | Base(field: Field)
    | Scaled(inner: Noise, k: real)
    | Offset(inner: Noise, c: real)
    | Frequency(inner: Noise, f: real)
    | Octavated(inner: Noise, octaves: int, lacunarity: real, gain: real)
  {
    /** Multiplies every sample by k. */
    function Scale(k: real): (r: Noise)
      ensures WellFormed(this) ==> WellFormed(r)
      ensures WellFormed(this) ==> forall x, y :: Sample(r, x, y) == Sample(this, x, y) * k
    {
      Scaled(this, k)
    }

    /** Adds c to every sample. */
    function Shift(c: real): (r: Noise)
      ensures WellFormed(this) ==> WellFormed(r)
      ensures WellFormed(this) ==> forall x, y :: Sample(r, x, y) == Sample(this, x, y) + c
    {
      Offset(this, c)
    }

    /** Samples the receiver at coordinates multiplied by f. */
    function AtFrequency(f: real): (r: Noise)
      ensures WellFormed(this) ==> WellFormed(r)
      ensures WellFormed(this) ==> forall x, y :: Sample(r, x, y) == Sample(this, x * f, y * f)
    {
      Frequency(this, f)
    }

    /** Wraps the receiver in a normalised octave sum with exactly the given
        octave count, lacunarity and gain. */
    function Octavate(octaves: int, lacunarity: real, gain: real): (r: Noise)
      ensures r.Octavated? && r.inner == this
      ensures r.octaves == octaves && r.lacunarity == lacunarity && r.gain == gain
    {
      Octavated(this, octaves, lacunarity, gain)
    }
  }

  /** The number of loop iterations `for (i = 0; i < octaves; i++)` makes. */
  function Iterations(octaves: int): nat
  {
    if octaves < 0 then 0 else octaves
  }

  /** Sum of the amplitudes gain^i for i < count: the octave sum's divisor. */
  function Scope(count: nat, gain: real): real
  {
    if count == 0 then 0.0 else Scope(count - 1, gain) + Pow(gain, count - 1)
  }

  /** A noise can be sampled when no octave sum divides by a zero scope. */
  predicate WellFormed(n: Noise)
  {
    match n
    case Base(_) => true
    case Scaled(inner, _) => WellFormed(inner)
    case Offset(inner, _) => WellFormed(inner)
    case Frequency(inner, _) => WellFormed(inner)
    case Octavated(inner, octaves, _, gain) =>
      WellFormed(inner) && Scope(Iterations(octaves), gain) != 0.0
  }

  function Sample(n: Noise, x: real, y: real): real
    requires WellFormed(n)
    decreases n, 0
  {
    match n
    case Base(field) => field(x, y)
    case Scaled(inner, k) => Sample(inner, x, y) * k
    case Offset(inner, c) => Sample(inner, x, y) + c
    case Frequency(inner, f) => Sample(inner, Mul(x, f), Mul(y, f))
    case Octavated(inner, octaves, lacunarity, gain) =>
      OctaveTotal(inner, Iterations(octaves), lacunarity, gain, x, y) / Scope(Iterations(octaves), gain)
  }

  /** Sum over octaves i < count of the inner sample at coordinates scaled by
      lacunarity^i, weighted by the amplitude gain^i. */
  function OctaveTotal(n: Noise, count: nat, lacunarity: real, gain: real, x: real, y: real): real
    requires WellFormed(n)
    decreases n, 1, count
  {
    if count == 0 then 0.0
    else
      var i := count - 1;
      OctaveTotal(n, i, lacunarity, gain, x, y)
        + Sample(n, Mul(x, Pow(lacunarity, i)), Mul(y, Pow(lacunarity, i))) * Pow(gain, i)
  }

  /** The octave loop as written: frequency and amplitude are multiplied by
      the lacunarity and the gain after each octave. It computes exactly the
      normalised sum that `Sample` defines. */
  method OctavatedSample(inner: Noise, octaves: int, lacunarity: real, gain: real, x: real, y: real)
    returns (r: real)
    requires WellFormed(Octavated(inner, octaves, lacunarity, gain))
    ensures r == Sample(Octavated(inner, octaves, lacunarity, gain), x, y)
    ensures r * Scope(Iterations(octaves), gain) == OctaveTotal(inner, Iterations(octaves), lacunarity, gain, x, y)
  {
    var total := 0.0;
    var scope := 0.0;
    var freq := 1.0;
    var amp := 1.0;
    var i := 0;
    while i < octaves
      invariant 0 <= i <= Iterations(octaves)
      invariant freq == Pow(lacunarity, i) && amp == Pow(gain, i)
      invariant total == OctaveTotal(inner, i, lacunarity, gain, x, y)
      invariant scope == Scope(i, gain)
    {
      total := total + Sample(inner, Mul(x, freq), Mul(y, freq)) * amp;
      scope := scope + amp;
      freq := freq * lacunarity;
      amp := amp * gain;
      i := i + 1;
    }
    r := total / scope;
  }

  /** With no octaves the divisor is zero, so an octave sum needs at least one. */
  lemma NoOctavesNotWellFormed(inner: Noise, octaves: int, lacunarity: real, gain: real)
    requires octaves <= 0
    ensures !WellFormed(Octavated(inner, octaves, lacunarity, gain))
  {
  }

  /** A positive gain gives a positive divisor for any octave count >= 1. */
  lemma {:induction false} ScopePositive(count: nat, gain: real)
    requires count >= 1 && gain > 0.0
    ensures Scope(count, gain) > 0.0
  {
    PowPositive(gain, count - 1);
    if count > 1 {
      ScopePositive(count - 1, gain);
    }
  }

  /** A base field in [-1, 1], as the engine's simplex sampler is. */
  ghost predicate UnitField(f: Field)
  {
    forall x, y :: -1.0 <= f(x, y) <= 1.0
  }

  ghost predicate Bounded(n: Noise, lo: real, hi: real)
  {
    WellFormed(n) && forall x, y :: lo <= Sample(n, x, y) <= hi
  }

  /** The octave sum of an arbitrary field in place of the inner noise. */
  function FieldTotal(f: Field, count: nat, lacunarity: real, gain: real, x: real, y: real): real
  {
    if count == 0 then 0.0
    else
      var i := count - 1;
      FieldTotal(f, i, lacunarity, gain, x, y) + f(Mul(x, Pow(lacunarity, i)), Mul(y, Pow(lacunarity, i))) * Pow(gain, i)
  }

  /** The inner noise read as a field. */
  function SampleField(n: Noise): Field
  {
    (u, v) => if WellFormed(n) then Sample(n, u, v) else 0.0
  }

  /** The octave total is the octave sum of the inner noise's field. */
  lemma {:induction false} OctaveTotalIsFieldTotal(n: Noise, count: nat, lacunarity: real, gain: real, x: real, y: real)
    requires WellFormed(n)
    ensures OctaveTotal(n, count, lacunarity, gain, x, y) == FieldTotal(SampleField(n), count, lacunarity, gain, x, y)
  {
    if count > 0 {
      OctaveTotalIsFieldTotal(n, count - 1, lacunarity, gain, x, y);
    }
  }

  /** With the field at least lo everywhere, the octave sum is at least lo
      times the divisor. */
  lemma {:induction false} FieldTotalAbove(f: Field, count: nat, lacunarity: real, gain: real, x: real, y: real, lo: real)
    requires forall u, v :: lo <= f(u, v)
    requires gain > 0.0
    ensures lo * Scope(count, gain) <= FieldTotal(f, count, lacunarity, gain, x, y)
  {
    if count > 0 {
      var i := count - 1;
      FieldTotalAbove(f, i, lacunarity, gain, x, y, lo);
      PowPositive(gain, i);
      StepAbove(FieldTotal(f, i, lacunarity, gain, x, y), Scope(i, gain),
        f(Mul(x, Pow(lacunarity, i)), Mul(y, Pow(lacunarity, i))), Pow(gain, i), lo);
    }
  }

  /** With the field at most hi everywhere, the octave sum is at most hi
      times the divisor. */
  lemma {:induction false} FieldTotalBelow(f: Field, count: nat, lacunarity: real, gain: real, x: real, y: real, hi: real)
    requires forall u, v :: f(u, v) <= hi
    requires gain > 0.0
    ensures FieldTotal(f, count, lacunarity, gain, x, y) <= hi * Scope(count, gain)
  {
    if count > 0 {
      var i := count - 1;
      FieldTotalBelow(f, i, lacunarity, gain, x, y, hi);
      PowPositive(gain, i);
      StepBelow(FieldTotal(f, i, lacunarity, gain, x, y), Scope(i, gain),
        f(Mul(x, Pow(lacunarity, i)), Mul(y, Pow(lacunarity, i))), Pow(gain, i), hi);
    }
  }

  lemma StepAbove(t: real, sc: real, s: real, a: real, lo: real)
    requires lo * sc <= t && lo <= s && a > 0.0
    ensures lo * (sc + a) <= t + s * a
  {
    assert lo * a <= s * a;
  }

  lemma StepBelow(t: real, sc: real, s: real, a: real, hi: real)
    requires t <= hi * sc && s <= hi && a > 0.0
    ensures t + s * a <= hi * (sc + a)
  {
    assert s * a <= hi * a;
  }

  /** The octave total lies between lo and hi times the divisor. */
  lemma OctaveTotalBounds(n: Noise, count: nat, lacunarity: real, gain: real, x: real, y: real, lo: real, hi: real)
    requires Bounded(n, lo, hi) && gain > 0.0
    ensures lo * Scope(count, gain) <= OctaveTotal(n, count, lacunarity, gain, x, y) <= hi * Scope(count, gain)
  {
    var f := SampleField(n);
    assert forall u, v :: lo <= f(u, v) <= hi by {
      forall u, v ensures lo <= f(u, v) <= hi {
        assert f(u, v) == Sample(n, u, v);
      }
    }
    OctaveTotalIsFieldTotal(n, count, lacunarity, gain, x, y);
    FieldTotalAbove(f, count, lacunarity, gain, x, y, lo);
    FieldTotalBelow(f, count, lacunarity, gain, x, y, hi);
  }

  /** The normalised octave sum is a weighted mean of samples of the inner
      noise: with at least one octave and a positive gain it stays within any
      bounds of the inner noise. */
  lemma OctaveWeightedMean(inner: Noise, octaves: int, lacunarity: real, gain: real, lo: real, hi: real)
    requires Bounded(inner, lo, hi)
    requires octaves >= 1 && gain > 0.0
    ensures Bounded(Octavated(inner, octaves, lacunarity, gain), lo, hi)
  {
    var o := Octavated(inner, octaves, lacunarity, gain);
    ScopePositive(octaves, gain);
    var sc := Scope(octaves, gain);
    forall x, y
      ensures lo <= Sample(o, x, y) <= hi
    {
      var t := OctaveTotal(inner, octaves, lacunarity, gain, x, y);
      OctaveTotalBounds(inner, octaves, lacunarity, gain, x, y, lo, hi);
      DivideBounds(t, sc, lo, hi);
    }
  }

  lemma DivideBounds(t: real, s: real, lo: real, hi: real)
    requires s > 0.0 && lo * s <= t <= hi * s
    ensures lo <= t / s <= hi
  {
  }

  /** A single octave is just the inner sample. */
  lemma SingleOctaveIsInner(inner: Noise, lacunarity: real, gain: real, x: real, y: real)
    requires WellFormed(inner)
    ensures WellFormed(Octavated(inner, 1, lacunarity, gain))
    ensures Sample(Octavated(inner, 1, lacunarity, gain), x, y) == Sample(inner, x, y)
  {
    assert Pow(gain, 0) == 1.0 && Pow(lacunarity, 0) == 1.0;
    assert Scope(1, gain) == 1.0;
    assert Mul(x, Pow(lacunarity, 0)) == x && Mul(y, Pow(lacunarity, 0)) == y;
    assert OctaveTotal(inner, 1, lacunarity, gain, x, y) == Sample(inner, x, y);
  }

  /** A constant inner noise c is reproduced exactly by the octave sum. */
  lemma {:induction false} OctaveTotalOfConstant(n: Noise, count: nat, lacunarity: real, gain: real, x: real, y: real, c: real)
    requires WellFormed(n) && forall u, v :: Sample(n, u, v) == c
    ensures OctaveTotal(n, count, lacunarity, gain, x, y) == c * Scope(count, gain)
  {
    if count > 0 {
      var i := count - 1;
      OctaveTotalOfConstant(n, i, lacunarity, gain, x, y, c);
      var p := Pow(lacunarity, i);
      assert Sample(n, Mul(x, p), Mul(y, p)) == c;
      Distribute(c, Scope(i, gain), Pow(gain, i));
    }
  }

  lemma OctaveOfConstant(inner: Noise, octaves: int, lacunarity: real, gain: real, c: real)
    requires WellFormed(Octavated(inner, octaves, lacunarity, gain))
    requires forall u, v :: Sample(inner, u, v) == c
    ensures forall x, y :: Sample(Octavated(inner, octaves, lacunarity, gain), x, y) == c
  {
    forall x, y
      ensures Sample(Octavated(inner, octaves, lacunarity, gain), x, y) == c
    {
      OctaveTotalOfConstant(inner, Iterations(octaves), lacunarity, gain, x, y, c);
    }
  }

  /** Two frequency changes compose into one by the product of the factors. */
  lemma FrequencyComposes(n: Noise, f: real, g: real)
    requires WellFormed(n)
    ensures forall x, y :: Sample(n.AtFrequency(f).AtFrequency(g), x, y) == Sample(n.AtFrequency(f * g), x, y)
  {
    forall x, y
      ensures Sample(n.AtFrequency(f).AtFrequency(g), x, y) == Sample(n.AtFrequency(f * g), x, y)
    {
      assert Mul(Mul(x, g), f) == Mul(x, f * g) && Mul(Mul(y, g), f) == Mul(y, f * g);
    }
  }

  /** Scaling and offsetting move bounds affinely: k * [lo, hi] + c. */
  lemma ScaleShiftBounds(n: Noise, k: real, c: real)
    requires Bounded(n, -1.0, 1.0) && k >= 0.0
    ensures Bounded(n.Scale(k).Shift(c), c - k, c + k)
  {
    forall x, y
      ensures c - k <= Sample(n.Scale(k).Shift(c), x, y) <= c + k
    {
      var s := Sample(n, x, y);
      assert -k <= s * k <= k by {
        assert -1.0 * k <= s * k <= 1.0 * k;
      }
    }
  }

  /** Changing the frequency only moves where the field is sampled, so any
      global bounds carry over. */
  lemma FrequencyKeepsBounds(n: Noise, f: real, lo: real, hi: real)
    requires Bounded(n, lo, hi)
    ensures Bounded(n.AtFrequency(f), lo, hi)
  {
  }
}
