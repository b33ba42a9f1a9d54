/** The scroll-to-step arithmetic of the "How it Works" section: the section's
    geometry becomes a progress value in [0, 1], a 10% dead zone is taken off,
    and the rest is cut into `n + 1` equal segments, the first meaning "no step
    open" and segment `k + 1` meaning "step `k` open". Numbers are exact reals. */
module ScrollMapping {

  /** Share of the progress range during which no step opens. */
  const DeadZone: real := 0.1

  function MaxReal(a: real, b: real): real { if a >= b then a else b }
  function MinReal(a: real, b: real): real { if a <= b then a else b }
  function MaxInt(a: int, b: int): int { if a >= b then a else b }
  function MinInt(a: int, b: int): int { if a <= b then a else b }

  /** How far the viewport has travelled through the section: 0 while the section's
      top is at or below the viewport's top, 1 once its bottom reaches the viewport's
      bottom, linear in between. A section no taller than the viewport has no
      scroll range, and its progress is pinned at 0 (nothing is divided). */
  function Progress(top: real, height: real, innerHeight: real): (p: real)
    ensures 0.0 <= p <= 1.0
    ensures height - innerHeight <= 0.0 ==> p == 0.0
    ensures height - innerHeight > 0.0 && top >= 0.0 ==> p == 0.0
    ensures height - innerHeight > 0.0 && -top >= height - innerHeight ==> p == 1.0
    ensures height - innerHeight > 0.0 && 0.0 <= -top <= height - innerHeight ==>
              p * (height - innerHeight) == -top
  {
    var scrollRange := height - innerHeight;
    if scrollRange > 0.0 then
      var ratio := -top / scrollRange;
      assert ratio * scrollRange == -top;
      SignOfRatio(ratio, scrollRange, -top);
      MaxReal(0.0, MinReal(1.0, ratio))
    else
      0.0
  }

  lemma SignOfRatio(r: real, d: real, x: real)
    requires d > 0.0 && r * d == x
    ensures x >= d ==> r >= 1.0
    ensures x <= 0.0 ==> r <= 0.0
  {
  }

  /** Progress with the dead zone removed and the remaining 90% stretched back over
      [0, 1]; only the lower end is clamped. */
  function Adjusted(p: real): (a: real)
    ensures a >= 0.0
    ensures p <= 1.0 ==> a <= 1.0
    ensures p >= 1.0 ==> a >= 1.0
    ensures p <= DeadZone ==> a == 0.0
    ensures p >= DeadZone ==> a * 0.9 == p - DeadZone
  {
    MaxReal(0.0, (p - DeadZone) / 0.9)
  }

  /** The step that a progress value opens among `n` steps, -1 for none. */
  function StepFor(p: real, n: nat): (k: int)
    ensures -1 <= k <= n - 1
    ensures n == 0 ==> k == -1
    ensures p <= DeadZone ==> k == -1
    ensures p >= 1.0 && n >= 1 ==> k == n - 1
  {
    var stepProgress := Adjusted(p) * (n + 1) as real;
    var currentStep := stepProgress.Floor - 1;
    MaxInt(-1, MinInt(currentStep, n - 1))
  }

  lemma ScaleMonotone(a: real, b: real, c: real)
    requires a <= b && c >= 0.0
    ensures a * c <= b * c
  {
  }

  lemma FloorMonotone(x: real, y: real)
    requires x <= y
    ensures x.Floor <= y.Floor
  {
  }

  /** Scrolling further never closes a later step in favour of an earlier one. */
  lemma StepForMonotone(p: real, q: real, n: nat)
    requires p <= q
    ensures StepFor(p, n) <= StepFor(q, n)
  {
    var m := (n + 1) as real;
    ScaleMonotone(Adjusted(p), Adjusted(q), m);
    FloorMonotone(Adjusted(p) * m, Adjusted(q) * m);
  }

  lemma FloorAtLeast(x: real, j: int)
    ensures x.Floor >= j <==> x >= j as real
  {
  }

  lemma ScaledAtLeast(a: real, m: real, t: real)
    requires m > 0.0
    ensures a * m >= t <==> a >= t / m
  {
  }

  /** Each of the `n + 1` outcomes owns an interval of width `1 / (n + 1)` of the
      adjusted progress: step `k` is open exactly when the adjusted progress has
      reached `(k + 1) / (n + 1)` (always true for -1) and has not reached
      `(k + 2) / (n + 1)` (never a limit for the last step). */
  lemma StepForSegments(p: real, n: nat, k: int)
    requires -1 <= k <= n - 1
    ensures StepFor(p, n) == k <==>
              (k == -1 || Adjusted(p) >= (k + 1) as real / (n + 1) as real) &&
              (k == n - 1 || Adjusted(p) < (k + 2) as real / (n + 1) as real)
  {
    var m := (n + 1) as real;
    var x := Adjusted(p) * m;
    FloorAtLeast(x, k + 1);
    FloorAtLeast(x, k + 2);
    ScaledAtLeast(Adjusted(p), m, (k + 1) as real);
    ScaledAtLeast(Adjusted(p), m, (k + 2) as real);
  }
}
