/** One time step of the fluid (`sph/src/fluid.rs`): densities, clipped pressures written
    back, accelerations from gravity, viscosity and the pressure gradient written back,
    then a semi-implicit Euler step for the movable particles. `step` finds each
    particle's neighbours with the bucket grid; `step_slow` uses every particle. */
module Fluid {
  import opened Vectors
  import opened Sums
  import opened Lattice
  import opened Sph
  import opened Neighbourhood

  /** The constants of a fluid: its kernel and its material parameters. */
  datatype Constants = Constants(
    sph: SPH,
    restDensity: real,
    kinematicViscosity: real,
    stiffness: real,
    gravity: Vec3)
  {
    ghost predicate Valid() {
      sph.Valid() && restDensity != 0.0
    }
  }

  /** The attributes the step sums over: `|p| p.mass`, `|p| p.velocity` and
      `|p| p.pressure`. */
  function Mass(p: Particle): real { p.mass }

  function Velocity(p: Particle): Vec3 { p.velocity }

  function PressureOf(p: Particle): real
    requires p.pressure.Some?
  {
    p.pressure.value
  }

  /** Every particle has a positive mass, which makes every density positive. */
  predicate MassesPositive(ps: seq<Particle>) {
    forall j :: 0 <= j < |ps| ==> ps[j].mass > 0.0
  }

  /** Every particle has a density to divide by and a pressure. */
  predicate Settled(ps: seq<Particle>) {
    forall j :: 0 <= j < |ps| ==> HasDensity(ps[j]) && ps[j].pressure.Some?
  }

  /** A selection of settled particles is settled. */
  lemma SelectSettled(ps: seq<Particle>, idx: seq<nat>)
    requires Settled(ps) && InRange(idx, |ps|)
    ensures Settled(Select(ps, idx))
  {
  }

  // ---------------------------------------------------------------------------
  // Neighbour lists

  /** One neighbour list per particle, each listing indices of particles only and
      listing the particle itself. */
  ghost predicate Covers(nbs: seq<seq<nat>>, n: nat) {
    && |nbs| == n
    && (forall i :: 0 <= i < n ==> i in nbs[i])
    && (forall i, k :: 0 <= i < n && 0 <= k < |nbs[i]| ==> nbs[i][k] < n)
  }

  /** Neighbour lists that give the same sums as the whole particle list: none lists a
      particle twice, and each leaves out only particles outside the kernel's support. */
  ghost predicate Adequate(c: Constants, ps: seq<Particle>, nbs: seq<seq<nat>>) {
    && Covers(nbs, |ps|)
    && (forall i :: 0 <= i < |ps| ==> Distinct(nbs[i]))
    && (forall i, j :: 0 <= i < |ps| && 0 <= j < |ps| && j !in nbs[i] ==>
          c.sph.Distance(ps[i].pos, ps[j].pos) >= 2.0 * c.sph.h)
  }

  /** `step_slow`'s neighbour lists: every particle, in order, for every particle. */
  function AllIndices(n: nat): (nbs: seq<seq<nat>>)
    ensures Covers(nbs, n)
  {
    seq(n, i => Range(n))
  }

  /** The cell size and the query radius of `step`: `2 h`. */
  function StepScale(c: Constants): real {
    2.0 * c.sph.h
  }

  /** The side of `step`'s grid. */
  const StepGridSize: nat := 64

  /** `step`'s query for particle `i`: radius `2 h` around its position, in the index
      with cells of size `2 h` on a grid of side 64. */
  function StepQuery(c: Constants, ps: seq<Particle>, i: nat): seq<nat>
    requires c.Valid() && i < |ps|
  {
    var scale := StepScale(c);
    var size := Cubed(StepGridSize);
    Gathered(IndexCube(ps, scale, size), size, GridPosition(scale, ps[i].pos), GridRadius(scale, scale))
  }

  /** `step`'s neighbour lists: the query of every particle. */
  function IndexedNeighbourhoods(c: Constants, ps: seq<Particle>): (nbs: seq<seq<nat>>)
    requires c.Valid()
    ensures |nbs| == |ps|
    ensures Covers(nbs, |ps|)
  {
    var nbs := seq(|ps|, i requires 0 <= i < |ps| => StepQuery(c, ps, i));
    assert Covers(nbs, |ps|) by {
      forall i | 0 <= i < |ps| ensures InRange(nbs[i], |ps|) && i in nbs[i] {
        StepQueryCovers(c, ps, i);
      }
    }
    nbs
  }

  // ---------------------------------------------------------------------------
  // The passes of a step

  /** The density pass: each particle's mass density over its neighbours. */
  function Densities(c: Constants, ps: seq<Particle>, nbs: seq<seq<nat>>): (ds: seq<real>)
    requires c.Valid() && Covers(nbs, |ps|)
    ensures |ds| == |ps|
  {
    seq(|ps|, i requires 0 <= i < |ps| => c.sph.Density(Select(ps, nbs[i]), Mass, ps[i].pos))
  }

  /** The equation of state: `max(stiffness (d / rest_density - 1), 0)`. */
  function Pressure(c: Constants, d: real): (p: real)
    requires c.restDensity != 0.0
    ensures p >= 0.0
  {
    Max(c.stiffness * (d / c.restDensity - 1.0), 0.0)
  }

  /** The pressure pass. */
  function Pressures(c: Constants, ds: seq<real>): (prs: seq<real>)
    requires c.restDensity != 0.0
    ensures |prs| == |ds|
  {
    seq(|ds|, i requires 0 <= i < |ds| => Pressure(c, ds[i]))
  }

  /** The first write-back: particle `i` takes density `ds[i]` and pressure `prs[i]`. */
  function WithDensities(ps: seq<Particle>, ds: seq<real>, prs: seq<real>): (r: seq<Particle>)
    requires |ds| == |ps| && |prs| == |ps|
    ensures |r| == |ps|
  {
    seq(|ps|, i requires 0 <= i < |ps| => ps[i].(density := Some(ds[i]), pressure := Some(prs[i])))
  }

  /** `idx` lists positions of a sequence of length `n` only. */
  predicate InRange(idx: seq<nat>, n: nat) {
    forall k :: 0 <= k < |idx| ==> idx[k] < n
  }

  /** `gravity + kinematic_viscosity * laplace(velocity)` for particle `pi`, whose
      neighbours are the particles of `ps` at `idx`. */
  function NonPressureAcceleration(c: Constants, ps: seq<Particle>, idx: seq<nat>, pi: Particle): Vec3
    requires c.Valid() && Settled(ps) && InRange(idx, |ps|)
  {
    SelectSettled(ps, idx);
    Add(c.gravity, Scale(c.kinematicViscosity, c.sph.Laplace(Select(ps, idx), Velocity, pi)))
  }

  /** `(-1 / density) * gradient(pressure)` for particle `pi`, whose neighbours are the
      particles of `ps` at `idx`. */
  function PressureAcceleration(c: Constants, ps: seq<Particle>, idx: seq<nat>, pi: Particle): Vec3
    requires c.Valid() && Settled(ps) && InRange(idx, |ps|)
    requires HasDensity(pi) && pi.pressure.Some?
  {
    SelectSettled(ps, idx);
    Scale(-1.0 / pi.density.value, c.sph.Gradient(Select(ps, idx), PressureOf, pi))
  }

  /** The acceleration pass without the pressure term. */
  function NonPressureAccelerations(c: Constants, ps: seq<Particle>, nbs: seq<seq<nat>>): (acc: seq<Vec3>)
    requires c.Valid() && Covers(nbs, |ps|) && Settled(ps)
    ensures |acc| == |ps|
  {
    seq(|ps|, i requires 0 <= i < |ps| => NonPressureAcceleration(c, ps, nbs[i], ps[i]))
  }

  /** The pressure term of the acceleration pass. */
  function PressureAccelerations(c: Constants, ps: seq<Particle>, nbs: seq<seq<nat>>): (acc: seq<Vec3>)
    requires c.Valid() && Covers(nbs, |ps|) && Settled(ps)
    ensures |acc| == |ps|
  {
    seq(|ps|, i requires 0 <= i < |ps| => PressureAcceleration(c, ps, nbs[i], ps[i]))
  }

  /** The second write-back: particle `i` takes acceleration `a1[i] + a2[i]`. */
  function WithAccelerations(ps: seq<Particle>, a1: seq<Vec3>, a2: seq<Vec3>): (r: seq<Particle>)
    requires |a1| == |ps| && |a2| == |ps|
    ensures |r| == |ps|
  {
    seq(|ps|, i requires 0 <= i < |ps| => ps[i].(acceleration := Add(a1[i], a2[i])))
  }

  /** Semi-implicit Euler for a movable particle: the velocity first, then the position
      with the new velocity. A static particle is left as it is. */
  function Integrate(p: Particle, dt: real): Particle {
    if p.movable then
      var v := Add(p.velocity, Scale(dt, p.acceleration));
      p.(velocity := v, pos := Add(p.pos, Scale(dt, v)))
    else
      p
  }

  function Integrated(ps: seq<Particle>, dt: real): (r: seq<Particle>)
    ensures |r| == |ps|
  {
    seq(|ps|, i requires 0 <= i < |ps| => Integrate(ps[i], dt))
  }

  /** The particles after the density and pressure write-back. */
  function Settle(c: Constants, ps: seq<Particle>, nbs: seq<seq<nat>>): (r: seq<Particle>)
    requires c.Valid() && Covers(nbs, |ps|)
    ensures |r| == |ps|
  {
    var ds := Densities(c, ps, nbs);
    WithDensities(ps, ds, Pressures(c, ds))
  }

  /** The particles after the acceleration write-back, before integration. */
  function Accelerated(c: Constants, ps: seq<Particle>, nbs: seq<seq<nat>>): (r: seq<Particle>)
    requires c.Valid() && Covers(nbs, |ps|) && MassesPositive(ps)
    ensures |r| == |ps|
  {
    var settled := Settle(c, ps, nbs);
    SettleSettles(c, ps, nbs);
    WithAccelerations(settled, NonPressureAccelerations(c, settled, nbs),
                      PressureAccelerations(c, settled, nbs))
  }

  /** One step with the neighbour lists `nbs`. */
  function Stepped(c: Constants, ps: seq<Particle>, nbs: seq<seq<nat>>, dt: real): (r: seq<Particle>)
    requires c.Valid() && Covers(nbs, |ps|) && MassesPositive(ps)
    ensures |r| == |ps|
  {
    Integrated(Accelerated(c, ps, nbs), dt)
  }

  // ---------------------------------------------------------------------------
  // What a step keeps and what it sets

  /** A particle lies inside the support of the kernel around itself. */
  lemma SelfInSupport(c: Constants, x: Vec3)
    requires c.Valid()
    ensures c.sph.Distance(x, x) < 2.0 * c.sph.h
  {
    assert Sub(x, x) == Zero;
    LengthOfZero(c.sph.length);
  }

  /** With positive masses, every density of the density pass is positive: each
      particle's own term is. */
  lemma DensitiesPositive(c: Constants, ps: seq<Particle>, nbs: seq<seq<nat>>)
    requires c.Valid() && Covers(nbs, |ps|) && MassesPositive(ps)
    ensures forall i :: 0 <= i < |ps| ==> Densities(c, ps, nbs)[i] > 0.0
  {
    forall i | 0 <= i < |ps| ensures Densities(c, ps, nbs)[i] > 0.0 {
      var nb := Select(ps, nbs[i]);
      var k :| 0 <= k < |nbs[i]| && nbs[i][k] == i;
      assert nb[k] == ps[i];
      SelfInSupport(c, ps[i].pos);
      c.sph.DensityPositive(nb, Mass, ps[i].pos, k);
    }
  }

  /** After the first write-back every particle has a positive density and a pressure. */
  lemma SettleSettles(c: Constants, ps: seq<Particle>, nbs: seq<seq<nat>>)
    requires c.Valid() && Covers(nbs, |ps|) && MassesPositive(ps)
    ensures Settled(Settle(c, ps, nbs))
    ensures forall j :: 0 <= j < |ps| ==> Settle(c, ps, nbs)[j].density.value > 0.0
  {
    DensitiesPositive(c, ps, nbs);
  }

  /** A step keeps the number and the order of the particles, and each particle's mass
      and `movable` flag. */
  lemma SteppedKeeps(c: Constants, ps: seq<Particle>, nbs: seq<seq<nat>>, dt: real)
    requires c.Valid() && Covers(nbs, |ps|) && MassesPositive(ps)
    ensures |Stepped(c, ps, nbs, dt)| == |ps|
    ensures forall i :: 0 <= i < |ps| ==>
              Stepped(c, ps, nbs, dt)[i].mass == ps[i].mass &&
              Stepped(c, ps, nbs, dt)[i].movable == ps[i].movable
    ensures MassesPositive(Stepped(c, ps, nbs, dt))
  {
  }

  /** A static particle keeps its position and velocity; its density, pressure and
      acceleration are still overwritten. */
  lemma SteppedFreezesStatic(c: Constants, ps: seq<Particle>, nbs: seq<seq<nat>>, dt: real, i: nat)
    requires c.Valid() && Covers(nbs, |ps|) && MassesPositive(ps)
    requires i < |ps| && !ps[i].movable
    ensures Stepped(c, ps, nbs, dt)[i].pos == ps[i].pos
    ensures Stepped(c, ps, nbs, dt)[i].velocity == ps[i].velocity
  {
  }

  /** After a step each particle holds its density from the density pass and the
      pressure the equation of state gives for it, which is never negative. */
  lemma SteppedPressure(c: Constants, ps: seq<Particle>, nbs: seq<seq<nat>>, dt: real, i: nat)
    requires c.Valid() && Covers(nbs, |ps|) && MassesPositive(ps)
    requires i < |ps|
    ensures var p := Stepped(c, ps, nbs, dt)[i];
            && p.density == Some(Densities(c, ps, nbs)[i])
            && p.pressure == Some(Pressure(c, Densities(c, ps, nbs)[i]))
            && p.pressure.value >= 0.0
  {
  }

  /** The density write-back keeps positions and velocities. */
  lemma SettleKeeps(c: Constants, ps: seq<Particle>, nbs: seq<seq<nat>>)
    requires c.Valid() && Covers(nbs, |ps|)
    ensures forall i :: 0 <= i < |ps| ==>
              Settle(c, ps, nbs)[i].pos == ps[i].pos &&
              Settle(c, ps, nbs)[i].velocity == ps[i].velocity &&
              Settle(c, ps, nbs)[i].movable == ps[i].movable
  {
  }

  /** A step's acceleration is gravity plus viscosity times the velocity Laplacian minus
      the pressure gradient over the density, evaluated at the positions before the
      step with the densities and pressures written back in it. */
  lemma SteppedAcceleration(c: Constants, ps: seq<Particle>, nbs: seq<seq<nat>>, dt: real, i: nat)
    requires c.Valid() && Covers(nbs, |ps|) && MassesPositive(ps)
    requires i < |ps|
    ensures var settled := Settle(c, ps, nbs);
            && Settled(settled)
            && Accelerated(c, ps, nbs)[i] == settled[i].(acceleration := Add(
                 NonPressureAcceleration(c, settled, nbs[i], settled[i]),
                 PressureAcceleration(c, settled, nbs[i], settled[i])))
            && Stepped(c, ps, nbs, dt)[i] == Integrate(Accelerated(c, ps, nbs)[i], dt)
  {
    SettleSettles(c, ps, nbs);
  }

  /** A movable particle takes `v' = v + dt a`, then `x' = x + dt v'`, with the new
      velocity. */
  lemma SteppedEuler(c: Constants, ps: seq<Particle>, nbs: seq<seq<nat>>, dt: real, i: nat)
    requires c.Valid() && Covers(nbs, |ps|) && MassesPositive(ps)
    requires i < |ps| && ps[i].movable
    ensures var p := Stepped(c, ps, nbs, dt)[i];
            && p.velocity == Add(ps[i].velocity, Scale(dt, p.acceleration))
            && p.pos == Add(ps[i].pos, Scale(dt, p.velocity))
  {
    SettleKeeps(c, ps, nbs);
    var q := Accelerated(c, ps, nbs)[i];
    assert q.pos == ps[i].pos && q.velocity == ps[i].velocity && q.movable;
  }

  /** A positive stiffness and rest density give a positive pressure exactly where the
      fluid is compressed beyond its rest density, and 0 elsewhere. */
  lemma PressureCompressed(c: Constants, d: real)
    requires c.stiffness > 0.0 && c.restDensity > 0.0
    ensures Pressure(c, d) > 0.0 <==> d > c.restDensity
    ensures d <= c.restDensity ==> Pressure(c, d) == 0.0
  {
    var e := d / c.restDensity - 1.0;
    DivStrict(d, c.restDensity, 1.0);
    MulSign(c.stiffness, e);
    MulSign(c.stiffness, -e);
  }

  // ---------------------------------------------------------------------------
  // `step` and `step_slow` agree

  /** `step_slow`'s neighbour lists are adequate: each lists every particle once. */
  lemma AllIndicesAdequate(c: Constants, ps: seq<Particle>)
    ensures Adequate(c, ps, AllIndices(|ps|))
  {
    var n := |ps|;
    var all := AllIndices(n);
    forall i, j | 0 <= i < n && 0 <= j < n ensures j in all[i] {
      assert all[i][j] == j;
    }
  }

  /** `step`'s query finds the particle itself, only indices of particles, and none
      twice: the 64-wide grid is wider than the 3 cells the query spans. */
  lemma StepQueryCovers(c: Constants, ps: seq<Particle>, i: nat)
    requires c.Valid() && i < |ps|
    ensures InRange(StepQuery(c, ps, i), |ps|) && i in StepQuery(c, ps, i)
    ensures Distinct(StepQuery(c, ps, i))
  {
    var scale, size := StepScale(c), Cubed(StepGridSize);
    var g := GridPosition(scale, ps[i].pos);
    UnitRadius(scale);
    GatheredInRange(ps, scale, size, g, 1);
    GatheredFindsItself(ps, scale, size, 1, i);
    GatheredDistinct(ps, scale, size, g, 1);
  }

  /** `step`'s query visits the 27 cells around the particle's grid position and lists
      what their buckets hold. */
  lemma StepQueryCells(c: Constants, ps: seq<Particle>, i: nat)
    requires c.Valid() && i < |ps|
    ensures var scale, size := StepScale(c), Cubed(StepGridSize);
            var cells := Points(Corner(GridPosition(scale, ps[i].pos), 1), 3);
            |cells| == 27 &&
            |StepQuery(c, ps, i)| as real == Sum(cells, Sizes(Buckets(IndexCube(ps, scale, size), size)))
  {
    var scale, size := StepScale(c), Cubed(StepGridSize);
    UnitRadius(scale);
    GatheredSize(IndexCube(ps, scale, size), size, GridPosition(scale, ps[i].pos), 1);
  }

  /** `step`'s query leaves out only particles outside the kernel's support. */
  lemma StepQueryMisses(c: Constants, ps: seq<Particle>, i: nat, j: nat)
    requires c.Valid() && i < |ps| && j < |ps|
    ensures j !in StepQuery(c, ps, i) ==> c.sph.Distance(ps[i].pos, ps[j].pos) >= 2.0 * c.sph.h
  {
    if c.sph.Distance(ps[i].pos, ps[j].pos) < 2.0 * c.sph.h {
      c.sph.CloseOnEachAxis(ps[i].pos, ps[j].pos);
      QueryComplete(ps, StepScale(c), Cubed(StepGridSize), ps[i].pos, j);
    }
  }

  /** `step`'s neighbour lists are adequate. */
  lemma IndexedAdequate(c: Constants, ps: seq<Particle>)
    requires c.Valid()
    ensures Adequate(c, ps, IndexedNeighbourhoods(c, ps))
  {
    var nbs := IndexedNeighbourhoods(c, ps);
    forall i | 0 <= i < |ps| ensures InRange(nbs[i], |ps|) && i in nbs[i] && Distinct(nbs[i]) {
      StepQueryCovers(c, ps, i);
    }
    forall i, j | 0 <= i < |ps| && 0 <= j < |ps| && j !in nbs[i]
      ensures c.sph.Distance(ps[i].pos, ps[j].pos) >= 2.0 * c.sph.h
    {
      StepQueryMisses(c, ps, i, j);
    }
  }

  /** One particle's density over an adequate neighbour list is its density over all
      particles. */
  lemma DensityAgrees(c: Constants, ps: seq<Particle>, nbs: seq<seq<nat>>, i: nat)
    requires c.Valid() && Adequate(c, ps, nbs) && i < |ps|
    ensures c.sph.Density(Select(ps, nbs[i]), Mass, ps[i].pos) == c.sph.Density(ps, Mass, ps[i].pos)
  {
    c.sph.DensityOfSelection(ps, nbs[i], Mass, ps[i].pos);
  }

  lemma DensitiesAgree(c: Constants, ps: seq<Particle>, nbs: seq<seq<nat>>)
    requires c.Valid() && Adequate(c, ps, nbs)
    ensures Densities(c, ps, nbs) == Densities(c, ps, AllIndices(|ps|))
  {
    var all := AllIndices(|ps|);
    AllIndicesAdequate(c, ps);
    SelectRange(ps);
    forall i | 0 <= i < |ps| ensures Densities(c, ps, nbs)[i] == Densities(c, ps, all)[i] {
      assert all[i] == Range(|ps|);
      DensityAgrees(c, ps, nbs, i);
    }
  }

  /** The density write-back keeps positions, so it keeps neighbour lists adequate. */
  lemma SettleAdequate(c: Constants, ps: seq<Particle>, nbs: seq<seq<nat>>)
    requires c.Valid() && Adequate(c, ps, nbs)
    ensures Adequate(c, Settle(c, ps, nbs), nbs)
  {
    SettleKeeps(c, ps, nbs);
  }

  /** One particle's acceleration terms over an adequate neighbour list are those over
      all particles. */
  lemma AccelerationAgrees(c: Constants, ps: seq<Particle>, nbs: seq<seq<nat>>, i: nat)
    requires c.Valid() && Adequate(c, ps, nbs) && Settled(ps) && i < |ps|
    ensures NonPressureAcceleration(c, ps, nbs[i], ps[i]) == NonPressureAcceleration(c, ps, Range(|ps|), ps[i])
    ensures PressureAcceleration(c, ps, nbs[i], ps[i]) == PressureAcceleration(c, ps, Range(|ps|), ps[i])
  {
    SelectRange(ps);
    c.sph.LaplaceOfSelection(ps, nbs[i], Velocity, ps[i]);
    c.sph.GradientOfSelection(ps, nbs[i], PressureOf, ps[i]);
  }

  lemma AccelerationsAgree(c: Constants, ps: seq<Particle>, nbs: seq<seq<nat>>)
    requires c.Valid() && Adequate(c, ps, nbs) && Settled(ps)
    ensures NonPressureAccelerations(c, ps, nbs) == NonPressureAccelerations(c, ps, AllIndices(|ps|))
    ensures PressureAccelerations(c, ps, nbs) == PressureAccelerations(c, ps, AllIndices(|ps|))
  {
    var all := AllIndices(|ps|);
    AllIndicesAdequate(c, ps);
    forall i | 0 <= i < |ps|
      ensures NonPressureAccelerations(c, ps, nbs)[i] == NonPressureAccelerations(c, ps, all)[i]
      ensures PressureAccelerations(c, ps, nbs)[i] == PressureAccelerations(c, ps, all)[i]
    {
      assert all[i] == Range(|ps|);
      AccelerationAgrees(c, ps, nbs, i);
    }
  }

  /** A step with adequate neighbour lists equals the step over all particles. */
  lemma AdequateStepsAgree(c: Constants, ps: seq<Particle>, nbs: seq<seq<nat>>, dt: real)
    requires c.Valid() && Adequate(c, ps, nbs) && MassesPositive(ps)
    ensures Stepped(c, ps, nbs, dt) == Stepped(c, ps, AllIndices(|ps|), dt)
  {
    var all := AllIndices(|ps|);
    AllIndicesAdequate(c, ps);
    DensitiesAgree(c, ps, nbs);
    var settled := Settle(c, ps, nbs);
    assert settled == Settle(c, ps, all);
    SettleSettles(c, ps, nbs);
    SettleAdequate(c, ps, nbs);
    AccelerationsAgree(c, settled, nbs);
    assert Accelerated(c, ps, nbs) == Accelerated(c, ps, all);
  }

  /** `step` and `step_slow` compute the same particles. */
  lemma StepAgreesWithStepSlow(c: Constants, ps: seq<Particle>, dt: real)
    requires c.Valid() && MassesPositive(ps)
    ensures Stepped(c, ps, IndexedNeighbourhoods(c, ps), dt) == Stepped(c, ps, AllIndices(|ps|), dt)
  {
    IndexedAdequate(c, ps);
    AdequateStepsAgree(c, ps, IndexedNeighbourhoods(c, ps), dt);
  }

  // ---------------------------------------------------------------------------
  // The simulation object

  /** `Fluid`: the particles, which each step updates in place, and the constants. */
  class Fluid {
    var particles: seq<Particle>
    var sph: SPH
    var restDensity: real
    var kinematicViscosity: real
    var stiffness: real
    var gravity: Vec3

    function Params(): Constants
      reads this
    {
      Constants(sph, restDensity, kinematicViscosity, stiffness, gravity)
    }

    ghost predicate Valid()
      reads this
    {
      Params().Valid()
    }

    /** `Fluid::new`: the parameters stored unchanged, with the kernel `SPH::new(h)`. */
    constructor (particles: seq<Particle>, h: real, pi: real, length: Vec3 -> real,
                 restDensity: real, kinematicViscosity: real, stiffness: real, gravity: Vec3)
      requires h > 0.0 && pi > 0.0
      ensures this.particles == particles && sph == SPH.New(h, pi, length)
      ensures this.restDensity == restDensity && this.kinematicViscosity == kinematicViscosity
      ensures this.stiffness == stiffness && this.gravity == gravity
      ensures IsLength(length) && restDensity != 0.0 ==> Valid()
    {
      this.particles := particles;
      sph := SPH.New(h, pi, length);
      this.restDensity := restDensity;
      this.kinematicViscosity := kinematicViscosity;
      this.stiffness := stiffness;
      this.gravity := gravity;
    }

    /** The first write-back loop: particle `i` takes density `densities[i]` and
        pressure `pressures[i]`. */
    method StoreDensities(densities: seq<real>, pressures: seq<real>)
      requires |densities| == |particles| && |pressures| == |particles|
      modifies this`particles
      ensures particles == WithDensities(old(particles), densities, pressures)
    {
      ghost var ps := particles;
      var i := 0;
      while i < |particles|
        invariant 0 <= i <= |particles| == |ps|
        invariant forall k :: 0 <= k < i ==> particles[k] == WithDensities(ps, densities, pressures)[k]
        invariant forall k :: i <= k < |ps| ==> particles[k] == ps[k]
      {
        particles := particles[i := particles[i].(density := Some(densities[i]), pressure := Some(pressures[i]))];
        i := i + 1;
      }
    }

    /** The second write-back loop: particle `i` takes acceleration
        `nonPressure[i] + pressure[i]`. */
    method StoreAccelerations(nonPressure: seq<Vec3>, pressure: seq<Vec3>)
      requires |nonPressure| == |particles| && |pressure| == |particles|
      modifies this`particles
      ensures particles == WithAccelerations(old(particles), nonPressure, pressure)
    {
      ghost var ps := particles;
      var i := 0;
      while i < |particles|
        invariant 0 <= i <= |particles| == |ps|
        invariant forall k :: 0 <= k < i ==> particles[k] == WithAccelerations(ps, nonPressure, pressure)[k]
        invariant forall k :: i <= k < |ps| ==> particles[k] == ps[k]
      {
        particles := particles[i := particles[i].(acceleration := Add(nonPressure[i], pressure[i]))];
        i := i + 1;
      }
    }

    /** The integration loop: each movable particle first takes the new velocity, then
        moves with it. */
    method IntegrateAll(dt: real)
      modifies this`particles
      ensures particles == Integrated(old(particles), dt)
    {
      ghost var ps := particles;
      var i := 0;
      while i < |particles|
        invariant 0 <= i <= |particles| == |ps|
        invariant forall k :: 0 <= k < i ==> particles[k] == Integrate(ps[k], dt)
        invariant forall k :: i <= k < |ps| ==> particles[k] == ps[k]
      {
        var p := particles[i];
        if p.movable {
          p := p.(velocity := Add(p.velocity, Scale(dt, p.acceleration)));
          p := p.(pos := Add(p.pos, Scale(dt, p.velocity)));
        }
        particles := particles[i := p];
        i := i + 1;
      }
    }
 
    /** The first lines of `step`: a fresh index with cells of size `2 h` on a grid of
        side 64, queried at every particle's position with radius `2 h`. Nothing is
        changed. */
    method QueryAll() returns (neighbourhoods: seq<Neighbourhood>)
      requires Valid()
      ensures |neighbourhoods| == |particles|
      ensures forall i :: 0 <= i < |particles| ==> neighbourhoods[i].indices == StepQuery(Params(), particles, i)
    {
      var c := Params();
      var ps := particles;
      var scale := StepScale(c);
      var index := new Index(ps, scale, StepGridSize);
      ghost var cube := IndexCube(ps, scale, Cubed(StepGridSize));
      neighbourhoods := [];
      var i := 0;
      while i < |ps|
        invariant 0 <= i <= |ps| && |neighbourhoods| == i
        invariant index.Valid() && index.gridScale == scale && index.grid.size == Cubed(StepGridSize)
        invariant index.grid.cube == cube
        invariant forall k :: 0 <= k < i ==> neighbourhoods[k].indices == StepQuery(c, ps, k)
      {
        var nb := index.Neighbourhood(ps[i].pos, scale);
        neighbourhoods := neighbourhoods + [nb];
        i := i + 1;
      }
    }

    /** The density pass of `step`: each particle's density over the particles its
        neighbourhood refers to. Nothing is changed. */
    method MeasureDensities(neighbourhoods: seq<Neighbourhood>, ghost nbs: seq<seq<nat>>) returns (densities: seq<real>)
      requires Valid() && Covers(nbs, |particles|) && |neighbourhoods| == |particles|
      requires forall i :: 0 <= i < |particles| ==> neighbourhoods[i].indices == nbs[i]
      ensures densities == Densities(Params(), particles, nbs)
    {
      var c := Params();
      var ps := particles;
      densities := seq(|ps|, i requires 0 <= i < |ps| =>
        c.sph.Density(neighbourhoods[i].ParticleRefs(ps), Mass, ps[i].pos));
    }

    /** The acceleration passes of `step`: gravity plus viscosity, and the pressure
        gradient, each over the particles the neighbourhood refers to. Nothing is
        changed. */
    method MeasureAccelerations(neighbourhoods: seq<Neighbourhood>, ghost nbs: seq<seq<nat>>)
      returns (nonPressure: seq<Vec3>, pressure: seq<Vec3>)
      requires Valid() && Covers(nbs, |particles|) && |neighbourhoods| == |particles|
      requires Settled(particles)
      requires forall i :: 0 <= i < |particles| ==> neighbourhoods[i].indices == nbs[i]
      ensures nonPressure == NonPressureAccelerations(Params(), particles, nbs)
      ensures pressure == PressureAccelerations(Params(), particles, nbs)
    {
      var c := Params();
      var ps := particles;
      nonPressure := seq(|ps|, i requires 0 <= i < |ps| =>
        Add(c.gravity, Scale(c.kinematicViscosity, c.sph.Laplace(neighbourhoods[i].ParticleRefs(ps), Velocity, ps[i]))));
      pressure := seq(|ps|, i requires 0 <= i < |ps| =>
        Scale(-1.0 / ps[i].density.value, c.sph.Gradient(neighbourhoods[i].ParticleRefs(ps), PressureOf, ps[i])));
    }

    /** `step`: neighbourhoods from the bucket grid, then densities and pressures written
        back, then accelerations written back, then the Euler step. */
    method Step(dt: real)
      requires Valid() && MassesPositive(particles)
      modifies this`particles
      ensures particles == Stepped(Params(), old(particles), IndexedNeighbourhoods(Params(), old(particles)), dt)
    {
      var c := Params();
      ghost var ps := particles;
      ghost var nbs := IndexedNeighbourhoods(c, ps);
      IndexedAdequate(c, ps);
      var neighbourhoods := QueryAll();

      var densities := MeasureDensities(neighbourhoods, nbs);
      StoreDensities(densities, Pressures(c, densities));
      SettleSettles(c, ps, nbs);

      var nonPressure, pressure := MeasureAccelerations(neighbourhoods, nbs);
      StoreAccelerations(nonPressure, pressure);
      IntegrateAll(dt);
    }
 
    /** The density pass of `step_slow`: each particle's density over all particles.
        Nothing is changed. */
    method MeasureDensitiesSlow() returns (densities: seq<real>)
      requires Valid()
      ensures densities == Densities(Params(), particles, AllIndices(|particles|))
    {
      var c := Params();
      var ps := particles;
      densities := seq(|ps|, i requires 0 <= i < |ps| => c.sph.Density(ps, Mass, ps[i].pos));
      SelectRange(ps);
    }

    /** The acceleration passes of `step_slow`, each over all particles. Nothing is
        changed. */
    method MeasureAccelerationsSlow() returns (nonPressure: seq<Vec3>, pressure: seq<Vec3>)
      requires Valid() && Settled(particles)
      ensures nonPressure == NonPressureAccelerations(Params(), particles, AllIndices(|particles|))
      ensures pressure == PressureAccelerations(Params(), particles, AllIndices(|particles|))
    {
      var c := Params();
      var ps := particles;
      nonPressure := seq(|ps|, i requires 0 <= i < |ps| =>
        Add(c.gravity, Scale(c.kinematicViscosity, c.sph.Laplace(ps, Velocity, ps[i]))));
      pressure := seq(|ps|, i requires 0 <= i < |ps| =>
        Scale(-1.0 / ps[i].density.value, c.sph.Gradient(ps, PressureOf, ps[i])));
      SelectRange(ps);
    }

    /** `step_slow`: the passes of `step` with every particle as every particle's
        neighbour. */
    method StepSlow(dt: real)
      requires Valid() && MassesPositive(particles)
      modifies this`particles
      ensures particles == Stepped(Params(), old(particles), AllIndices(|old(particles)|), dt)
    {
      var c := Params();
      ghost var ps := particles;
      ghost var all := AllIndices(|ps|);

      var densities := MeasureDensitiesSlow();
      StoreDensities(densities, Pressures(c, densities));
      SettleSettles(c, ps, all);

      var nonPressure, pressure := MeasureAccelerationsSlow();
      StoreAccelerations(nonPressure, pressure);
      IntegrateAll(dt);
    }
  }
}
