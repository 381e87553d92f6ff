/** Inverse-distance biome blending, shared by both chunk generators: each
    biome's climate distance becomes a weight 1 / (d + 0.0001)^10, the weights
    are normalised to sum to one, the winning biome is the first maximum in
    enum order, and heights are blended by the (optionally thresholded)
    weighted sum. Everything here is over sequences indexed by enum ordinal. */
module Blend {
  import opened Numeric
  import opened Wrappers

  const EPSILON: real := 0.0001
  const BLEND_POWER: nat := 10

  /** The square root the generators take of a squared climate distance. Only
      non-negativity is built in; monotonicity is a lemma hypothesis. */
  type Root = f: real -> real | forall v :: f(v) >= 0.0 witness (v: real) => 0.0

  ghost predicate Monotone(root: Root)
  {
    forall u, v :: 0.0 <= u < v ==> root(u) < root(v)
  }

  ghost predicate AllNonNegative(s: seq<real>)
  {
    forall i :: 0 <= i < |s| ==> s[i] >= 0.0
  }

  ghost predicate AllPositive(s: seq<real>)
  {
    forall i :: 0 <= i < |s| ==> s[i] > 0.0
  }

  /** 1 / (d + epsilon)^power for a non-negative distance d. */
  function InverseWeight(d: real): (w: real)
    requires d >= 0.0
    ensures w > 0.0
  {
    PowPositive(d + EPSILON, BLEND_POWER);
    1.0 / Pow(d + EPSILON, BLEND_POWER)
  }

  /** Nearer means heavier: the weight strictly decreases with distance. */
  lemma InverseWeightDecreasing(d1: real, d2: real)
    requires 0.0 <= d1 < d2
    ensures InverseWeight(d2) < InverseWeight(d1)
  {
    var a, b := Pow(d1 + EPSILON, BLEND_POWER), Pow(d2 + EPSILON, BLEND_POWER);
    PowPositive(d1 + EPSILON, BLEND_POWER);
    PowStrictlyIncreasing(d1 + EPSILON, d2 + EPSILON, BLEND_POWER);
    ReciprocalDecreasing(a, b);
  }

  lemma ReciprocalDecreasing(a: real, b: real)
    requires 0.0 < a < b
    ensures 1.0 / b < 1.0 / a
  {
    assert (1.0 / b) * b == 1.0;
    assert (1.0 / a) * a == 1.0;
  }

  function Weights(ds: seq<real>): (ws: seq<real>)
    requires AllNonNegative(ds)
    ensures |ws| == |ds| && AllPositive(ws)
  {
    seq(|ds|, i requires 0 <= i < |ds| => InverseWeight(ds[i]))
  }

  /** Sum of positive weights is positive. */
  lemma {:induction false} SumPositive(s: seq<real>)
    requires |s| > 0 && AllPositive(s)
    ensures Sum(s) > 0.0
  {
    if |s| > 1 {
      SumPositive(s[..|s| - 1]);
    }
  }

  lemma {:induction false} SumNonNegative(s: seq<real>)
    requires AllNonNegative(s)
    ensures Sum(s) >= 0.0
  {
    if |s| > 0 {
      SumNonNegative(s[..|s| - 1]);
    }
  }

  /** Each weight divided by the total. */
  function Normalize(ws: seq<real>): (ns: seq<real>)
    requires |ws| > 0 && AllPositive(ws)
    ensures |ns| == |ws| && AllPositive(ns)
  {
    SumPositive(ws);
    seq(|ws|, i requires 0 <= i < |ws| => ws[i] / Sum(ws))
  }

  lemma {:induction false} SumDivided(s: seq<real>, d: seq<real>, t: real)
    requires t != 0.0 && |d| == |s|
    requires forall i :: 0 <= i < |s| ==> d[i] == s[i] / t
    ensures Sum(d) == Sum(s) / t
  {
    if |s| > 0 {
      var n := |s| - 1;
      SumDivided(s[..n], d[..n], t);
      assert Sum(d) == Sum(s[..n]) / t + s[n] / t;
    }
  }

  /** The normalised weights sum to one. */
  lemma NormalizeSumsToOne(ws: seq<real>)
    requires |ws| > 0 && AllPositive(ws)
    ensures Sum(Normalize(ws)) == 1.0
  {
    SumPositive(ws);
    var t := Sum(ws);
    SumDivided(ws, Normalize(ws), t);
    assert t / t == 1.0;
  }

  /** Normalising keeps the relative order of any two weights. */
  lemma NormalizeKeepsOrder(ws: seq<real>, i: int, j: int)
    requires |ws| > 0 && AllPositive(ws)
    requires 0 <= i < |ws| && 0 <= j < |ws|
    ensures Normalize(ws)[i] <= Normalize(ws)[j] <==> ws[i] <= ws[j]
  {
    SumPositive(ws);
    var t := Sum(ws);
    if ws[i] <= ws[j] {
      DivideMonotonic(ws[i], ws[j], t);
    } else {
      DivideStrict(ws[j], ws[i], t);
    }
  }

  lemma DivideMonotonic(a: real, b: real, t: real)
    requires a <= b && t > 0.0
    ensures a / t <= b / t
  {
  }

  lemma DivideStrict(a: real, b: real, t: real)
    requires a < b && t > 0.0
    ensures a / t < b / t
  {
    assert (b / t - a / t) * t == b - a;
  }

  /** i holds the largest value, and no earlier index holds as much: the
      result of scanning in order and replacing only on strictly greater. */
  ghost predicate IsFirstMax(ws: seq<real>, i: int)
  {
    && 0 <= i < |ws|
    && (forall j :: 0 <= j < |ws| ==> ws[j] <= ws[i])
    && (forall j :: 0 <= j < i ==> ws[j] < ws[i])
  }

  ghost predicate IsFirstMin(ds: seq<real>, i: int)
  {
    && 0 <= i < |ds|
    && (forall j :: 0 <= j < |ds| ==> ds[i] <= ds[j])
    && (forall j :: 0 <= j < i ==> ds[i] < ds[j])
  }

  lemma FirstMaxUnique(ws: seq<real>, i: int, k: int)
    requires IsFirstMax(ws, i) && IsFirstMax(ws, k)
    ensures i == k
  {
    assert ws[k] <= ws[i];
    assert ws[i] <= ws[k];
  }

  function FirstMaxIndex(ws: seq<real>): (i: nat)
    requires |ws| > 0
    ensures IsFirstMax(ws, i)
  {
    if |ws| == 1 then 0
    else
      var k := FirstMaxIndex(ws[..|ws| - 1]);
      if ws[|ws| - 1] > ws[k] then |ws| - 1 else k
  }

  /** The generators' selection loop: start from the first entry with the best
      weight at negative infinity (None) and take every strictly larger weight,
      in enum order. */
  method ArgMaxScan(ws: seq<real>) returns (best: nat)
    requires |ws| > 0
    ensures IsFirstMax(ws, best)
    ensures best == FirstMaxIndex(ws)
  {
    best := 0;
    // None stands for negative infinity, below every weight.
    var bestWeight: Option<real> := None;
    var k := 0;
    while k < |ws|
      invariant 0 <= k <= |ws|
      invariant k == 0 <==> bestWeight == None
      invariant k > 0 ==> 0 <= best < k && bestWeight == Some(ws[best])
      invariant k > 0 ==> forall j :: 0 <= j < k ==> ws[j] <= ws[best]
      invariant k > 0 ==> forall j :: 0 <= j < best ==> ws[j] < ws[best]
    {
      if bestWeight.None? || ws[k] > bestWeight.value {
        best := k;
        bestWeight := Some(ws[k]);
      }
      k := k + 1;
    }
    FirstMaxUnique(ws, best, FirstMaxIndex(ws));
  }

  /** The heaviest weight belongs exactly to the first nearest biome. */
  lemma HeaviestIsNearest(ds: seq<real>, i: int)
    requires AllNonNegative(ds)
    ensures IsFirstMax(Weights(ds), i) <==> IsFirstMin(ds, i)
  {
    var ws := Weights(ds);
    forall j, k | 0 <= j < |ds| && 0 <= k < |ds|
      ensures ws[j] <= ws[k] <==> ds[k] <= ds[j]
      ensures ws[j] < ws[k] <==> ds[k] < ds[j]
    {
      if ds[j] < ds[k] {
        InverseWeightDecreasing(ds[j], ds[k]);
      } else if ds[k] < ds[j] {
        InverseWeightDecreasing(ds[k], ds[j]);
      }
    }
  }

  /** Normalising does not change the winner. */
  lemma NormalizeKeepsWinner(ws: seq<real>, i: int)
    requires |ws| > 0 && AllPositive(ws)
    ensures IsFirstMax(Normalize(ws), i) <==> IsFirstMax(ws, i)
  {
    var ns := Normalize(ws);
    forall j, k | 0 <= j < |ws| && 0 <= k < |ws|
      ensures ns[j] <= ns[k] <==> ws[j] <= ws[k]
    {
      NormalizeKeepsOrder(ws, j, k);
    }
  }

  /** The biome a selection picks: the first heaviest normalised weight,
      which is the first nearest distance. */
  function Winner(ds: seq<real>): (i: nat)
    requires |ds| > 0 && AllNonNegative(ds)
    ensures IsFirstMin(ds, i)
  {
    var ws := Weights(ds);
    var i := FirstMaxIndex(Normalize(ws));
    NormalizeKeepsWinner(ws, i);
    HeaviestIsNearest(ds, i);
    i
  }

  /** Sum of w[i] * h[i] over the entries whose weight is not below the
      cutoff, added in order. */
  function Blended(ws: seq<real>, hs: seq<real>, cutoff: real): real
    requires |ws| == |hs|
  {
    BlendedUpTo(ws, hs, cutoff, |ws|)
  }

  /** The blend of the first n entries. */
  function BlendedUpTo(ws: seq<real>, hs: seq<real>, cutoff: real, n: nat): real
    requires n <= |ws| == |hs|
  {
    if n == 0 then 0.0 else BlendedUpTo(ws, hs, cutoff, n - 1) + Contribution(ws[n - 1], hs[n - 1], cutoff)
  }

  /** What one entry adds to the blend: nothing below the cutoff. */
  function Contribution(w: real, h: real, cutoff: real): real
  {
    if w < cutoff then 0.0 else w * h
  }

  /** What one entry adds to the counted weight. */
  function CountedPart(w: real, cutoff: real): real
  {
    if w < cutoff then 0.0 else w
  }

  /** The weight that takes part in a thresholded blend. */
  function CountedWeight(ws: seq<real>, cutoff: real): real
  {
    CountedUpTo(ws, cutoff, |ws|)
  }

  /** The counted weight of the first n entries. */
  function CountedUpTo(ws: seq<real>, cutoff: real, n: nat): real
    requires n <= |ws|
  {
    if n == 0 then 0.0 else CountedUpTo(ws, cutoff, n - 1) + CountedPart(ws[n - 1], cutoff)
  }

  /** A thresholded blend of values in [lo, hi] lies between lo and hi times
      the counted weight. */
  lemma BlendedBounds(ws: seq<real>, hs: seq<real>, cutoff: real, lo: real, hi: real)
    requires |ws| == |hs| && AllNonNegative(ws)
    requires forall i :: 0 <= i < |hs| ==> lo <= hs[i] <= hi
    ensures CountedWeight(ws, cutoff) * lo <= Blended(ws, hs, cutoff) <= CountedWeight(ws, cutoff) * hi
  {
    BlendedAbove(ws, hs, cutoff, lo, |ws|);
    BlendedBelow(ws, hs, cutoff, hi, |ws|);
  }

  lemma {:induction false} BlendedAbove(ws: seq<real>, hs: seq<real>, cutoff: real, lo: real, n: nat)
    requires n <= |ws| == |hs| && AllNonNegative(ws)
    requires forall i :: 0 <= i < |hs| ==> lo <= hs[i]
    ensures CountedUpTo(ws, cutoff, n) * lo <= BlendedUpTo(ws, hs, cutoff, n)
  {
    if n > 0 {
      BlendedAbove(ws, hs, cutoff, lo, n - 1);
      StepAbove(BlendedUpTo(ws, hs, cutoff, n - 1), CountedUpTo(ws, cutoff, n - 1), ws[n - 1], hs[n - 1], lo, cutoff,
        BlendedUpTo(ws, hs, cutoff, n), CountedUpTo(ws, cutoff, n));
    }
  }

  lemma {:induction false} BlendedBelow(ws: seq<real>, hs: seq<real>, cutoff: real, hi: real, n: nat)
    requires n <= |ws| == |hs| && AllNonNegative(ws)
    requires forall i :: 0 <= i < |hs| ==> hs[i] <= hi
    ensures BlendedUpTo(ws, hs, cutoff, n) <= CountedUpTo(ws, cutoff, n) * hi
  {
    if n > 0 {
      BlendedBelow(ws, hs, cutoff, hi, n - 1);
      StepBelow(BlendedUpTo(ws, hs, cutoff, n - 1), CountedUpTo(ws, cutoff, n - 1), ws[n - 1], hs[n - 1], hi, cutoff,
        BlendedUpTo(ws, hs, cutoff, n), CountedUpTo(ws, cutoff, n));
    }
  }

  lemma StepAbove(b: real, c: real, w: real, h: real, lo: real, cutoff: real, total: real, count: real)
    requires c * lo <= b && w >= 0.0 && lo <= h
    requires total == b + Contribution(w, h, cutoff) && count == c + CountedPart(w, cutoff)
    ensures count * lo <= total
  {
    if w >= cutoff {
      assert w * lo <= w * h;
      Distribute(lo, c, w);
    }
  }

  lemma StepBelow(b: real, c: real, w: real, h: real, hi: real, cutoff: real, total: real, count: real)
    requires b <= c * hi && w >= 0.0 && h <= hi
    requires total == b + Contribution(w, h, cutoff) && count == c + CountedPart(w, cutoff)
    ensures total <= count * hi
  {
    if w >= cutoff {
      assert w * h <= w * hi;
      Distribute(hi, c, w);
    }
  }

  /** Every skipped weight is below the cutoff, so at most |ws| * cutoff of
      the total weight is lost. */
  lemma CountedWeightBounds(ws: seq<real>, cutoff: real)
    requires AllNonNegative(ws) && cutoff >= 0.0
    ensures Sum(ws) - |ws| as real * cutoff <= CountedWeight(ws, cutoff) <= Sum(ws)
  {
    CountedUpToBounds(ws, cutoff, |ws|);
    assert ws[..|ws|] == ws;
  }

  lemma {:induction false} CountedUpToBounds(ws: seq<real>, cutoff: real, n: nat)
    requires n <= |ws| && AllNonNegative(ws) && cutoff >= 0.0
    ensures Sum(ws[..n]) - n as real * cutoff <= CountedUpTo(ws, cutoff, n) <= Sum(ws[..n])
  {
    if n > 0 {
      CountedUpToBounds(ws, cutoff, n - 1);
      SumPrefixStep(ws, n);
    }
  }

  /** With no weight below the cutoff every weight counts. */
  lemma CountedWeightAll(ws: seq<real>, cutoff: real)
    requires forall i :: 0 <= i < |ws| ==> ws[i] >= cutoff
    ensures CountedWeight(ws, cutoff) == Sum(ws)
  {
    CountedUpToAll(ws, cutoff, |ws|);
    assert ws[..|ws|] == ws;
  }

  lemma {:induction false} CountedUpToAll(ws: seq<real>, cutoff: real, n: nat)
    requires n <= |ws|
    requires forall i :: 0 <= i < |ws| ==> ws[i] >= cutoff
    ensures CountedUpTo(ws, cutoff, n) == Sum(ws[..n])
  {
    if n > 0 {
      CountedUpToAll(ws, cutoff, n - 1);
      SumPrefixStep(ws, n);
    }
  }

  /** The sum of a prefix grows by its last entry. */
  lemma SumPrefixStep(s: seq<real>, n: nat)
    requires 0 < n <= |s|
    ensures Sum(s[..n]) == Sum(s[..n - 1]) + s[n - 1]
  {
    assert s[..n][..n - 1] == s[..n - 1];
  }

  /** The square roots of a sequence of squared distances. */
  function Roots(root: Root, sq: seq<real>): (ds: seq<real>)
    ensures |ds| == |sq| && AllNonNegative(ds)
  {
    seq(|sq|, j requires 0 <= j < |sq| => root(sq[j]))
  }

  /** A strictly increasing root keeps the first nearest entry: the first
      minimum of the roots is the first minimum of the squared distances. */
  lemma MonotoneKeepsFirstMin(root: Root, sq: seq<real>, i: int)
    requires Monotone(root) && AllNonNegative(sq)
    ensures IsFirstMin(Roots(root, sq), i) <==> IsFirstMin(sq, i)
  {
    if 0 <= i < |sq| {
      RootsKeepOrder(root, sq, i);
      SameOrderSameFirstMin(Roots(root, sq), sq, i);
    }
  }

  /** Entry i compares with every other entry of ds as it does in sq. */
  ghost predicate SameOrderAt(ds: seq<real>, sq: seq<real>, i: int)
  {
    && |ds| == |sq| && 0 <= i < |sq|
    && (forall j :: 0 <= j < |sq| ==> (ds[i] <= ds[j] <==> sq[i] <= sq[j]))
    && (forall j :: 0 <= j < |sq| ==> (ds[i] < ds[j] <==> sq[i] < sq[j]))
  }

  lemma RootsKeepOrder(root: Root, sq: seq<real>, i: int)
    requires Monotone(root) && AllNonNegative(sq) && 0 <= i < |sq|
    ensures SameOrderAt(Roots(root, sq), sq, i)
  {
    forall j | 0 <= j < |sq|
      ensures Roots(root, sq)[i] <= Roots(root, sq)[j] <==> sq[i] <= sq[j]
      ensures Roots(root, sq)[i] < Roots(root, sq)[j] <==> sq[i] < sq[j]
    {
      RootsPairOrder(root, sq, i, j);
    }
  }

  lemma RootsPairOrder(root: Root, sq: seq<real>, i: int, j: int)
    requires Monotone(root) && AllNonNegative(sq) && 0 <= i < |sq| && 0 <= j < |sq|
    ensures Roots(root, sq)[i] <= Roots(root, sq)[j] <==> sq[i] <= sq[j]
    ensures Roots(root, sq)[i] < Roots(root, sq)[j] <==> sq[i] < sq[j]
  {
    RootsAt(root, sq, i);
    RootsAt(root, sq, j);
    RootOrder(root, sq[i], sq[j]);
  }

  lemma RootsAt(root: Root, sq: seq<real>, j: int)
    requires 0 <= j < |sq|
    ensures Roots(root, sq)[j] == root(sq[j])
  {
  }

  lemma SameOrderSameFirstMin(ds: seq<real>, sq: seq<real>, i: int)
    requires SameOrderAt(ds, sq, i)
    ensures IsFirstMin(ds, i) <==> IsFirstMin(sq, i)
  {
  }

  lemma RootOrder(root: Root, u: real, v: real)
    requires Monotone(root) && u >= 0.0 && v >= 0.0
    ensures root(u) <= root(v) <==> u <= v
    ensures root(u) < root(v) <==> u < v
  {
    if u < v {
      RootIncreasing(root, u, v);
    } else if v < u {
      RootIncreasing(root, v, u);
    }
  }

  lemma RootIncreasing(root: Root, u: real, v: real)
    requires Monotone(root) && 0.0 <= u < v
    ensures root(u) < root(v)
  {
  }

  /** The first heaviest normalised weight belongs to the first entry with
      the least squared distance, when distances are strictly increasing
      roots of the squared distances. */
  lemma WinnerIsNearest(root: Root, sq: seq<real>, i: int)
    requires Monotone(root) && AllNonNegative(sq) && |sq| > 0
    requires IsFirstMax(Normalize(Weights(Roots(root, sq))), i)
    ensures IsFirstMin(sq, i)
  {
    var ds := Roots(root, sq);
    NormalizeKeepsWinner(Weights(ds), i);
    HeaviestIsNearest(ds, i);
    MonotoneKeepsFirstMin(root, sq, i);
  }

  /** The selection loop's pick over the normalised weights of the roots is
      the first entry with the least squared distance. */
  lemma SelectedIsNearest(root: Root, sq: seq<real>)
    requires Monotone(root) && AllNonNegative(sq) && |sq| > 0
    ensures IsFirstMin(sq, FirstMaxIndex(Normalize(Weights(Roots(root, sq)))))
  {
    WinnerIsNearest(root, sq, FirstMaxIndex(Normalize(Weights(Roots(root, sq)))));
  }
}
