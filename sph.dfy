/** The particle record and the smoothing-kernel evaluator (`sph/src/sph.rs`). */
module Sph {
  import opened Vectors
  import opened Sums

  datatype Option<T> = None | Some(value: T)

  /** A particle. `density` and `pressure` are `None` until a step has set them: the
      program initialises them to NaN. */
  datatype Particle = Particle(
    pos: Vec3,
    velocity: Vec3,
    acceleration: Vec3,
    mass: real,
    density: Option<real>,
    pressure: Option<real>,
    movable: bool)
  {
    /** `Particle::new`: at rest, with density and pressure not yet computed. */
    static function New(pos: Vec3, mass: real, movable: bool): (p: Particle)
      ensures p.pos == pos && p.mass == mass && p.movable == movable
      ensures p.velocity == Zero && p.acceleration == Zero
      ensures p.density.None? && p.pressure.None?
    {
      Particle(pos, Zero, Zero, mass, None, None, movable)
    }
  }

  /** The particle has a density that may be divided by. */
  predicate HasDensity(p: Particle) {
    p.density.Some? && p.density.value != 0.0
  }

  /** The kernel polynomial `t2^3 - 4 t1^3` in `q = distance / h`. */
  function Cubic(q: real): real {
    var t1 := Max(1.0 - q, 0.0);
    var t2 := Max(2.0 - q, 0.0);
    t2 * t2 * t2 - 4.0 * t1 * t1 * t1
  }

  /** Coefficient `-3 t2^2 + 12 t1^2` of the kernel gradient. */
  function CubicSlope(q: real): real {
    var t1 := Max(1.0 - q, 0.0);
    var t2 := Max(2.0 - q, 0.0);
    -3.0 * t2 * t2 + 12.0 * t1 * t1
  }

  /** The kernel polynomial is positive inside the support and 0 outside it. */
  lemma CubicSign(q: real)
    requires q >= 0.0
    ensures q < 2.0 ==> Cubic(q) > 0.0
    ensures q >= 2.0 ==> Cubic(q) == 0.0 && CubicSlope(q) == 0.0
  {
    if q < 1.0 {
      var u := 1.0 - q;
      assert 0.0 < u <= 1.0;
      assert Cubic(q) == (1.0 + u) * (1.0 + u) * (1.0 + u) - 4.0 * u * u * u;
      assert u * u * u <= u * u by {
        assert u * u >= 0.0;
        assert u * u * u == (u * u) * u;
      }
      assert (1.0 + u) * (1.0 + u) * (1.0 + u) == 1.0 + 3.0 * u + 3.0 * u * u + u * u * u;
    } else if q < 2.0 {
      var v := 2.0 - q;
      assert v > 0.0;
      assert v * v > 0.0;
      assert Cubic(q) == (v * v) * v;
    }
  }

  /** The kernel evaluator: smoothing radius `h` and normalisation `alpha`. The
      Euclidean length `length` is a parameter of the model, since the program's
      single-precision square root is not modelled. */
  datatype SPH = SPH(h: real, alpha: real, length: Vec3 -> real)
  {
    ghost predicate Valid() {
      h > 0.0 && alpha > 0.0 && IsLength(length)
    }

    /** `SPH::new`: `alpha = 1 / (4 pi h^3)`, derived from `h` alone; `pi` is the
        circle constant, kept abstract. */
    static function New(h: real, pi: real, length: Vec3 -> real): (k: SPH)
      requires h > 0.0 && pi > 0.0
      ensures k.h == h && k.length == length
      ensures k.alpha > 0.0 && k.alpha * (4.0 * pi * h * h * h) == 1.0
      ensures IsLength(length) ==> k.Valid()
    {
      assert h * h * h > 0.0 by {
        assert h * h > 0.0;
      }
      SPH(h, 1.0 / (4.0 * pi * h * h * h), length)
    }

    /** `distance(xi, xj)` */
    function Distance(xi: Vec3, xj: Vec3): real {
      length(Sub(xi, xj))
    }

    /** `kernel(xi, xj)`: `alpha (t2^3 - 4 t1^3)` with `q = distance / h`. */
    function Kernel(xi: Vec3, xj: Vec3): (w: real)
      requires Valid()
      ensures Distance(xi, xj) >= 2.0 * h ==> w == 0.0
      ensures Distance(xi, xj) < 2.0 * h ==> w > 0.0
    {
      var dist := Distance(xi, xj);
      LengthNonNegative(length, Sub(xi, xj));
      DivCompare(dist, h, 2.0);
      var q := dist / h;
      CubicSign(q);
      MulSign(alpha, Cubic(q));
      alpha * Cubic(q)
    }

    /** `q` of `kernel_grad`: the length of `(xi - xj) / h`, which is `distance / h`. */
    lemma GradQ(xi: Vec3, xj: Vec3)
      requires Valid()
      ensures length(Div(Sub(xi, xj), h)) == Distance(xi, xj) / h
      ensures Distance(xi, xj) >= 2.0 * h ==> length(Div(Sub(xi, xj), h)) >= 2.0
      ensures xi == xj ==> length(Div(Sub(xi, xj), h)) == 0.0
    {
      var v := Sub(xi, xj);
      var dist := length(v);
      LengthDiv(length, v, h);
      DivCompare(dist, h, 2.0);
      if xi == xj {
        assert v == Zero;
        LengthOfZero(length);
      }
    }

    /** `kernel_grad(xi, xj)`: the gradient of the kernel in `xi`; the zero vector
        where `q = |(xi - xj) / h|` is 0. */
    function KernelGrad(xi: Vec3, xj: Vec3): (g: Vec3)
      requires Valid()
      ensures Distance(xi, xj) >= 2.0 * h ==> g == Zero
      ensures xi == xj ==> g == Zero
    {
      var d := Div(Sub(xi, xj), h);
      var q := length(d);
      GradQ(xi, xj);
      if q > 0.0 then
        CubicSign(q);
        Scale(CubicSlope(q), Scale(alpha, Div(d, q)))
      else
        Zero
    }

    function DensityTerm(attribute: Particle -> real, pos: Vec3): Particle --> real
      requires Valid()
    {
      (pj: Particle) requires Valid() => attribute(pj) * Kernel(pos, pj.pos)
    }

    /** `density(neighbours, attribute, pos)`: the kernel-weighted sum of `attribute`
        over the neighbours. */
    function Density(neighbours: seq<Particle>, attribute: Particle -> real, pos: Vec3): (d: real)
      requires Valid()
      ensures neighbours == [] ==> d == 0.0
      ensures (forall j :: 0 <= j < |neighbours| ==> attribute(neighbours[j]) >= 0.0) ==> d >= 0.0
    {
      var f := DensityTerm(attribute, pos);
      if forall j :: 0 <= j < |neighbours| ==> attribute(neighbours[j]) >= 0.0 then
        SumNonNegative(neighbours, f);
        Sum(neighbours, f)
      else
        Sum(neighbours, f)
    }

    /** The summand of `gradient` for neighbour `pj`. */
    function GradientTermAt(attribute: Particle --> real, pi: Particle, pj: Particle): (v: Vec3)
      requires Valid() && HasDensity(pi) && attribute.requires(pi)
      requires HasDensity(pj) && attribute.requires(pj)
      ensures Distance(pi.pos, pj.pos) >= 2.0 * h ==> v == Zero
      ensures pi.pos == pj.pos ==> v == Zero
    {
      var ai := attribute(pi);
      var di := pi.density.value;
      Scale(pj.mass * (ai / (di * di) + attribute(pj) / (pj.density.value * di)),
            KernelGrad(pi.pos, pj.pos))
    }

    function GradientTerm(attribute: Particle --> real, pi: Particle): Particle --> Vec3
      requires Valid() && HasDensity(pi) && attribute.requires(pi)
    {
      (pj: Particle) requires Valid() && HasDensity(pj) && attribute.requires(pj) =>
        GradientTermAt(attribute, pi, pj)
    }

    /** `gradient(neighbours, attribute, pi)`:
        `rho_i * sum_j m_j (a_i / rho_i^2 + a_j / (rho_j rho_i)) grad W(x_i - x_j)`. */
    function Gradient(neighbours: seq<Particle>, attribute: Particle --> real, pi: Particle): (g: Vec3)
      requires Valid() && HasDensity(pi) && attribute.requires(pi)
      requires forall j :: 0 <= j < |neighbours| ==>
                 HasDensity(neighbours[j]) && attribute.requires(neighbours[j])
      ensures neighbours == [] ==> g == Zero
    {
      Scale(pi.density.value, VSum(neighbours, GradientTerm(attribute, pi)))
    }

    /** The summand of `laplace` for neighbour `pj`. */
    function LaplaceTermAt(attribute: Particle -> Vec3, pi: Particle, pj: Particle): (v: Vec3)
      requires Valid() && HasDensity(pj)
      ensures Distance(pi.pos, pj.pos) >= 2.0 * h ==> v == Zero
      ensures pi.pos == pj.pos ==> v == Zero
    {
      var xij := Sub(pi.pos, pj.pos);
      SoftenedPositive(h, LengthSquared(xij));
      Scale((pj.mass / pj.density.value) * Dot(Sub(attribute(pi), attribute(pj)), xij)
              / (LengthSquared(xij) + 0.01 * h * h),
            KernelGrad(pi.pos, pj.pos))
    }

    function LaplaceTerm(attribute: Particle -> Vec3, pi: Particle): (f: Particle --> Vec3)
      requires Valid()
      ensures forall pj :: HasDensity(pj) ==> f.requires(pj)
    {
      (pj: Particle) requires Valid() && HasDensity(pj) => LaplaceTermAt(attribute, pi, pj)
    }

    /** `laplace(neighbours, attribute, pi)`:
        `2 sum_j (m_j / rho_j) ((a_i - a_j) . x_ij) / (|x_ij|^2 + 0.01 h^2) grad W`. */
    function Laplace(neighbours: seq<Particle>, attribute: Particle -> Vec3, pi: Particle): (l: Vec3)
      requires Valid()
      requires forall j :: 0 <= j < |neighbours| ==> HasDensity(neighbours[j])
    {
      Scale(2.0, VSum(neighbours, LaplaceTerm(attribute, pi)))
    }

    /** `laplace` folds from the zero vector. */
    lemma LaplaceOfNone(attribute: Particle -> Vec3, pi: Particle)
      requires Valid()
      ensures Laplace([], attribute, pi) == Zero
    {
      assert VSum([], LaplaceTerm(attribute, pi)) == Zero;
    }

    /** The summand of `divergence` for neighbour `pj`. */
    function DivergenceTermAt(attribute: Particle -> Vec3, pi: Particle, pj: Particle): (v: Vec3)
      requires Valid()
      ensures Distance(pi.pos, pj.pos) >= 2.0 * h ==> v == Zero
      ensures pi.pos == pj.pos ==> v == Zero
    {
      Mul(Scale(pj.mass, Sub(attribute(pi), attribute(pj))), KernelGrad(pi.pos, pj.pos))
    }

    function DivergenceTerm(attribute: Particle -> Vec3, pi: Particle): Particle --> Vec3
      requires Valid()
    {
      (pj: Particle) requires Valid() => DivergenceTermAt(attribute, pi, pj)
    }

    /** `divergence(neighbours, attribute, pi)`: `sum_j m_j (a_i - a_j) * grad W`, where
        `*` of two vectors multiplies component by component. */
    function Divergence(neighbours: seq<Particle>, attribute: Particle -> Vec3, pi: Particle): (v: Vec3)
      requires Valid()
      ensures neighbours == [] ==> v == Zero
    {
      VSum(neighbours, DivergenceTerm(attribute, pi))
    }

    /** The kernel on its three regions of `q = distance / h`: `4 alpha` at `q = 0`,
        `alpha (2 - q)^3` on `[1, 2)` and 0 from 2 on. */
    lemma KernelRegions(xi: Vec3, xj: Vec3)
      requires Valid()
      ensures xi == xj ==> Kernel(xi, xj) == 4.0 * alpha
      ensures var q := Distance(xi, xj) / h;
              1.0 <= q < 2.0 ==> Kernel(xi, xj) == alpha * ((2.0 - q) * (2.0 - q) * (2.0 - q))
      ensures var q := Distance(xi, xj) / h; q >= 2.0 ==> Kernel(xi, xj) == 0.0
    {
      var q := Distance(xi, xj) / h;
      if xi == xj {
        assert Sub(xi, xj) == Zero;
        LengthOfZero(length);
        assert q == 0.0;
        assert Cubic(q) == 4.0;
      }
      if q >= 2.0 {
        CubicSign(q);
      }
    }

    /** The length is even, so the distance is symmetric. */
    lemma DistanceSymmetric(xi: Vec3, xj: Vec3)
      requires Valid()
      ensures Distance(xi, xj) == Distance(xj, xi)
    {
      assert Sub(xj, xi) == Neg(Sub(xi, xj));
      LengthNeg(length, Sub(xi, xj));
    }

    /** Positions closer than `2 h`, the support of the kernel, are closer than `2 h` on
        each axis. */
    lemma CloseOnEachAxis(xi: Vec3, xj: Vec3)
      requires Valid() && Distance(xi, xj) < 2.0 * h
      ensures -2.0 * h < xi.x - xj.x < 2.0 * h
      ensures -2.0 * h < xi.y - xj.y < 2.0 * h
      ensures -2.0 * h < xi.z - xj.z < 2.0 * h
    {
      LengthBounds(length, Sub(xi, xj));
    }

    lemma KernelSymmetric(xi: Vec3, xj: Vec3)
      requires Valid()
      ensures Kernel(xi, xj) == Kernel(xj, xi)
    {
      DistanceSymmetric(xi, xj);
    }

    /** Swapping the two positions flips `d` and keeps `q`, so the gradient changes sign. */
    lemma KernelGradAntisymmetric(xi: Vec3, xj: Vec3)
      requires Valid()
      ensures KernelGrad(xj, xi) == Neg(KernelGrad(xi, xj))
    {
      var d := Div(Sub(xi, xj), h);
      SubSwapDiv(xi, xj, h);
      var q := length(d);
      LengthNeg(length, d);
      if q > 0.0 {
        ScaleDivNeg(CubicSlope(q), alpha, d, q);
      }
    }

    /** `density` is additive over concatenated neighbour lists. */
    lemma DensityAppend(a: seq<Particle>, b: seq<Particle>, attribute: Particle -> real, pos: Vec3)
      requires Valid()
      ensures Density(a + b, attribute, pos) == Density(a, attribute, pos) + Density(b, attribute, pos)
    {
      SumAppend(a, b, DensityTerm(attribute, pos));
    }

    lemma GradientAppend(a: seq<Particle>, b: seq<Particle>, attribute: Particle --> real, pi: Particle)
      requires Valid() && HasDensity(pi) && attribute.requires(pi)
      requires forall j :: 0 <= j < |a| ==> HasDensity(a[j]) && attribute.requires(a[j])
      requires forall j :: 0 <= j < |b| ==> HasDensity(b[j]) && attribute.requires(b[j])
      ensures Gradient(a + b, attribute, pi) == Add(Gradient(a, attribute, pi), Gradient(b, attribute, pi))
    {
      var f := GradientTerm(attribute, pi);
      VSumAppend(a, b, f);
      ScaleAdd(pi.density.value, VSum(a, f), VSum(b, f));
    }

    lemma LaplaceAppend(a: seq<Particle>, b: seq<Particle>, attribute: Particle -> Vec3, pi: Particle)
      requires Valid()
      requires forall j :: 0 <= j < |a| ==> HasDensity(a[j])
      requires forall j :: 0 <= j < |b| ==> HasDensity(b[j])
      ensures Laplace(a + b, attribute, pi) == Add(Laplace(a, attribute, pi), Laplace(b, attribute, pi))
    {
      var f := LaplaceTerm(attribute, pi);
      VSumAppend(a, b, f);
      ScaleAdd(2.0, VSum(a, f), VSum(b, f));
    }

    lemma DivergenceAppend(a: seq<Particle>, b: seq<Particle>, attribute: Particle -> Vec3, pi: Particle)
      requires Valid()
      ensures Divergence(a + b, attribute, pi) == Add(Divergence(a, attribute, pi), Divergence(b, attribute, pi))
    {
      VSumAppend(a, b, DivergenceTerm(attribute, pi));
    }

    /** A density with a non-negative attribute is positive as soon as one neighbour
        inside the support has a positive attribute. */
    lemma DensityPositive(neighbours: seq<Particle>, attribute: Particle -> real, pos: Vec3, k: nat)
      requires Valid()
      requires forall j :: 0 <= j < |neighbours| ==> attribute(neighbours[j]) >= 0.0
      requires k < |neighbours| && attribute(neighbours[k]) > 0.0
      requires Distance(pos, neighbours[k].pos) < 2.0 * h
      ensures Density(neighbours, attribute, pos) > 0.0
    {
      var f := DensityTerm(attribute, pos);
      forall j | 0 <= j < |neighbours| ensures f(neighbours[j]) >= 0.0 {
        assert Kernel(pos, neighbours[j].pos) >= 0.0;
      }
      SumAtLeastTerm(neighbours, f, k);
      MulPositive(attribute(neighbours[k]), Kernel(pos, neighbours[k].pos));
    }

    /** A neighbour list that lists each particle of `ps` at most once and leaves out
        only particles at distance `2h` or more gives the density of all of `ps`. */
    lemma DensityOfSelection(ps: seq<Particle>, idx: seq<nat>, attribute: Particle -> real, pos: Vec3)
      requires Valid()
      requires forall k :: 0 <= k < |idx| ==> idx[k] < |ps|
      requires Distinct(idx)
      requires forall j :: 0 <= j < |ps| && j !in idx ==> Distance(pos, ps[j].pos) >= 2.0 * h
      ensures Density(Select(ps, idx), attribute, pos) == Density(ps, attribute, pos)
    {
      SumOfSelection(ps, idx, DensityTerm(attribute, pos));
    }

    lemma GradientOfSelection(ps: seq<Particle>, idx: seq<nat>, attribute: Particle --> real, pi: Particle)
      requires Valid() && HasDensity(pi) && attribute.requires(pi)
      requires forall j :: 0 <= j < |ps| ==> HasDensity(ps[j]) && attribute.requires(ps[j])
      requires forall k :: 0 <= k < |idx| ==> idx[k] < |ps|
      requires Distinct(idx)
      requires forall j :: 0 <= j < |ps| && j !in idx ==> Distance(pi.pos, ps[j].pos) >= 2.0 * h
      ensures Gradient(Select(ps, idx), attribute, pi) == Gradient(ps, attribute, pi)
    {
      VSumOfSelection(ps, idx, GradientTerm(attribute, pi));
    }

    lemma LaplaceOfSelection(ps: seq<Particle>, idx: seq<nat>, attribute: Particle -> Vec3, pi: Particle)
      requires Valid()
      requires forall j :: 0 <= j < |ps| ==> HasDensity(ps[j])
      requires forall k :: 0 <= k < |idx| ==> idx[k] < |ps|
      requires Distinct(idx)
      requires forall j :: 0 <= j < |ps| && j !in idx ==> Distance(pi.pos, ps[j].pos) >= 2.0 * h
      ensures Laplace(Select(ps, idx), attribute, pi) == Laplace(ps, attribute, pi)
    {
      VSumOfSelection(ps, idx, LaplaceTerm(attribute, pi));
    }

    lemma DivergenceOfSelection(ps: seq<Particle>, idx: seq<nat>, attribute: Particle -> Vec3, pi: Particle)
      requires Valid()
      requires forall k :: 0 <= k < |idx| ==> idx[k] < |ps|
      requires Distinct(idx)
      requires forall j :: 0 <= j < |ps| && j !in idx ==> Distance(pi.pos, ps[j].pos) >= 2.0 * h
      ensures Divergence(Select(ps, idx), attribute, pi) == Divergence(ps, attribute, pi)
    {
      VSumOfSelection(ps, idx, DivergenceTerm(attribute, pi));
    }
  }
}
