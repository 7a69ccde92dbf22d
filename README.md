# SPH fluid: the step, the bucket grid, the kernel and the layout generators

This project models the smoothed-particle hydrodynamics engine of the `sph` crate and
the small helpers around it, and proves properties of the model.

- **The periodic bucket grid** (`neighbourhood.dfy`). `ModCube` is a cube of buckets.
  Coordinates are wrapped into it with `rem_euclid`. `Index::new` files every
  particle index in the bucket of its grid position. `Index::neighbourhood`
  concatenates the buckets of the `(2 r + 1)^3` cells around a position.
- **The kernel** (`sph.dfy`). `Particle`, the cubic-spline kernel and its gradient,
  and the four kernel sums: `density`, `gradient`, `laplace` and `divergence`.
- **One time step** (`fluid.dfy`). `Fluid::step` runs these passes in order:
  1. neighbourhoods from the bucket grid;
  2. densities, then clipped pressures, written back;
  3. gravity, viscosity and pressure accelerations, written back;
  4. a semi-implicit Euler step for the movable particles.

  `Fluid::step_slow` runs the same passes with every particle as every particle's
  neighbour. The headline result is `Fluid.StepAgreesWithStepSlow`: both produce the
  same particles.
- **The initial layouts** (`playground.dfy`, `rendering.dfy`). These are the two
  `cube_in_box` generators (three nested loops over a lattice) and the playground's
  `avg_movable_pos`.
- **`to_raw`** (`simulation.dfy`). Pads positions to 4-float storage-buffer entries.

Shared infrastructure:

- `vectors.dfy`: 3-vectors over reals, and the abstract Euclidean length.
- `sums.dfy`: the folds `sum` and `fold(ZERO, +)`, and selection of a sub-list by
  indices.
- `lattice.dfy`: what three nested loops over a box gather, in loop order. Both the
  neighbourhood query and the generators use it.

Modelling choices:

- `f32` is modelled as `real`. The model has no rounding, no NaN and no infinity.
- A particle's `density` and `pressure` are `Option<real>`. `None` stands for the NaN
  that `Particle::new` stores until the first step.
- The Euclidean length is an abstract function, passed as a parameter of the kernel
  record. It is assumed positively homogeneous, even, and at least as large as each
  component's absolute value.
- π is a positive parameter of `SPH::new`.
- Each update loop (the two write-backs and the integration) is a method of the
  `Fluid` class that changes its `particles` field. It is proved equal to a function
  on sequences. `Fluid.Fluid.Step` and `Fluid.Fluid.StepSlow` are proved against the
  same specification function, `Fluid.Stepped`, with different neighbour lists.
- The pressure gradient divides `a_j` by `ρ_j ρ_i` (sph/src/sph.rs:84-85), not by
  `ρ_j²`. The model does the same.
- `grid_position` truncates toward zero (`as i64`), not toward minus infinity. So grid
  cell 0 spans `(-scale, scale)` and is twice as wide as the others. The model
  truncates the same way, and completeness is proved for truncation.

## Model

| member | source | states |
|---|---|---|
| Neighbourhood.Neighbourhood.ParticleRefs | sph/src/neighbourhood.rs:9-14 | the result has one particle per stored index, `particles[i]` for each stored `i`, in stored order |
| Neighbourhood.Trunc | sph/src/neighbourhood.rs:84 | `t as i64` rounds toward zero: for `t >= 0` the result is the greatest integer at most `t`; for `t < 0` the least integer at least `t` |
| Neighbourhood.Ceil | sph/src/neighbourhood.rs:88 | `ceil` is the least integer at least `t` |
| Neighbourhood.TruncZero | sph/src/neighbourhood.rs:82-85 | truncation sends exactly the open interval `(-1, 1)` to 0, so grid cell 0 is twice as wide as the others |
| Neighbourhood.TruncNear | sph/src/neighbourhood.rs:82-85 | reals less than 1 apart truncate to integers at most 1 apart |
| Neighbourhood.ScaledClose | sph/src/neighbourhood.rs:83 | coordinates less than `grid_scale` apart are less than 1 apart after division by `grid_scale` |
| Neighbourhood.TowardZero | sph/src/neighbourhood.rs:84 | the rounding of `as i64`: the integer part, with the sign of the value; a definition, which `Neighbourhood.Trunc` meets |
| Neighbourhood.GridPosition | sph/src/neighbourhood.rs:82-85 | each coordinate of the grid position is the matching coordinate of `pos / grid_scale` rounded toward zero |
| Neighbourhood.Loc | sph/src/neighbourhood.rs:42-48 | every integer coordinate is wrapped into `[0, size)` on each axis, so `get`/`get_mut` never index out of bounds |
| Neighbourhood.LocIdentity | sph/src/neighbourhood.rs:42-48 | a coordinate already inside the grid is left unchanged |
| Neighbourhood.LocPeriodic | sph/src/neighbourhood.rs:42-48 | adding any multiple of the size on any axis addresses the same bucket |
| Neighbourhood.LocInjective | sph/src/neighbourhood.rs:42-48 | within a box no wider than the grid, distinct coordinates address distinct buckets |
| Neighbourhood.EmptyCube | sph/src/neighbourhood.rs:23-40 | the cube of empty buckets has `size.x` planes of `size.y` rows of `size.z` buckets |
| Neighbourhood.EmptyCubeUnique | sph/src/neighbourhood.rs:23-40 | any cube of that shape whose buckets are all empty is that cube |
| Neighbourhood.ModCube.constructor | sph/src/neighbourhood.rs:23-40 | the three nested loops build exactly `size.x · size.y · size.z` buckets, all empty |
| Neighbourhood.PushedAt | sph/src/neighbourhood.rs:55-58 | pushing onto the bucket at `l` appends `v` to that bucket and leaves every other bucket unchanged |
| Neighbourhood.ModCube.Push | sph/src/neighbourhood.rs:55-58 | `get_mut(pos).push(v)` appends `v` to the bucket at the wrapped coordinate; the cube keeps its shape and size |
| Neighbourhood.ModCube.GatherBox | sph/src/neighbourhood.rs:91-99 | the three loops of the query concatenate the buckets of the box's cells, `x`-major, then `y`, then `z` |
| Neighbourhood.ModCube.GatherPlane | sph/src/neighbourhood.rs:92-98 | the two inner loops concatenate the buckets of plane `x`, row by row |
| Neighbourhood.ModCube.GatherRow | sph/src/neighbourhood.rs:93-97 | the innermost loop concatenates the buckets of one row, in increasing `z` |
| Neighbourhood.CellsOf | sph/src/neighbourhood.rs:76-77 | each particle's bucket is the wrapped grid position of that particle, and it lies inside the grid |
| Neighbourhood.Filed | sph/src/neighbourhood.rs:76-78 | filing indices one by one into their buckets keeps the cube's shape |
| Neighbourhood.FiledNext | sph/src/neighbourhood.rs:76-78 | each loop iteration pushes the next index onto the bucket of its cell |
| Neighbourhood.FiledMember | sph/src/neighbourhood.rs:76-78 | an index is in a bucket exactly when it was filed and its cell is that bucket |
| Neighbourhood.FiledAscending | sph/src/neighbourhood.rs:76-78 | every bucket lists its indices in ascending order |
| Neighbourhood.FiledOccupancy | sph/src/neighbourhood.rs:76-78 | the buckets hold as many entries in all as indices were filed |
| Neighbourhood.IndexCube | sph/src/neighbourhood.rs:68-80 | the grid `Index::new` fills has the `grid_size`-cubed shape; its contents are stated by `IndexCubeMember`, `IndexCubeAscending` and `IndexCubeOccupancy` |
| Neighbourhood.IndexCubeMember | sph/src/neighbourhood.rs:68-80 | after `Index::new`, index `i` is in bucket `l` exactly when `i < n` and `l` is the bucket of particle `i`'s grid position, so each index is in exactly one bucket |
| Neighbourhood.IndexCubeAscending | sph/src/neighbourhood.rs:68-80 | after `Index::new` every bucket is in ascending order |
| Neighbourhood.IndexCubeOccupancy | sph/src/neighbourhood.rs:68-80 | after `Index::new` the buckets hold `n` entries in all |
| Neighbourhood.Index.constructor | sph/src/neighbourhood.rs:68-80 | `Index::new` keeps `grid_scale`, makes a `grid_size`-cubed grid, and files every particle index in order into the bucket of its grid position |
| Neighbourhood.Index.Neighbourhood | sph/src/neighbourhood.rs:87-102 | the query returns the buckets of the box `[g - r, g + r]^3` in loop order, with `g` the grid position and `r = ceil(radius / grid_scale)`; it does not modify the index |
| Neighbourhood.GridRadius | sph/src/neighbourhood.rs:88 | `gradius` is the least integer at least `radius / grid_scale` |
| Neighbourhood.Gathered | sph/src/neighbourhood.rs:87-102 | no contract of its own: the concatenated buckets of the box around `g`, in loop order; `GatheredMember`, `GatheredComplete`, `GatheredDistinct` and `GatheredSize` state what it holds |
| Neighbourhood.GatheredMember | sph/src/neighbourhood.rs:87-99 | an index is returned exactly when it belongs to a particle and some cell of the box wraps onto that particle's bucket |
| Neighbourhood.GatheredComplete | sph/src/neighbourhood.rs:82-99 | completeness: every particle whose grid coordinate is within `r` of the query's on each axis is returned |
| Neighbourhood.GatheredFindsItself | sph/src/neighbourhood.rs:82-99 | a query at a particle's own position with a non-negative reach returns that particle |
| Neighbourhood.GatheredInRange | sph/src/neighbourhood.rs:87-99 | only indices of particles are returned |
| Neighbourhood.BucketDistinct | sph/src/neighbourhood.rs:68-80 | no bucket holds an index twice |
| Neighbourhood.BucketsDisjoint | sph/src/neighbourhood.rs:42-48 | two distinct cells of a box no wider than the grid never hold the same index |
| Neighbourhood.GatheredDistinct | sph/src/neighbourhood.rs:91-99 | when `grid_size >= 2 r + 1`, no index is returned twice |
| Neighbourhood.GatheredSize | sph/src/neighbourhood.rs:91-99 | the query visits exactly `(2 r + 1)^3` cells, and its result is as long as their buckets' sizes added up |
| Neighbourhood.GridPositionNear | sph/src/neighbourhood.rs:82-85 | positions less than `grid_scale` apart on every axis have grid positions at most one cell apart on every axis |
| Neighbourhood.UnitRadius | sph/src/neighbourhood.rs:88 | a query whose radius is the cell size reaches `gradius = 1` |
| Neighbourhood.QueryComplete | sph/src/neighbourhood.rs:82-99 | a query with radius equal to the cell size returns every particle less than a cell size away on each axis |
| Sph.Particle.New | sph/src/sph.rs:17-27 | `Particle::new` keeps `pos`, `mass` and `movable`, sets velocity and acceleration to zero, and leaves density and pressure unset |
| Sph.SPH.New | sph/src/sph.rs:36-41 | `SPH::new` keeps `h` and derives `alpha` from `h` alone: `alpha · 4 π h^3 = 1`, and `alpha > 0` |
| Sph.CubicSign | sph/src/sph.rs:45-47 | the kernel polynomial is positive for `0 <= q < 2`; for `q >= 2` it and the gradient's polynomial are 0, since both clamps are 0 |
| Sph.Cubic | sph/src/sph.rs:45-47 | no contract of its own: `t2^3 - 4 t1^3` with the two clamps; `Sph.CubicSign` and `Sph.SPH.KernelRegions` state its values |
| Sph.CubicSlope | sph/src/sph.rs:54-56 | no contract of its own: `-3 t2^2 + 12 t1^2` with the two clamps; `Sph.CubicSign` states that it is 0 for `q >= 2` |
| Sph.SPH.Kernel | sph/src/sph.rs:43-48 | compact support: the kernel is 0 at distance `>= 2 h` and positive closer than that |
| Sph.SPH.KernelRegions | sph/src/sph.rs:43-48 | the kernel is `4 alpha` at `q = 0`, `alpha (2 - q)^3` for `1 <= q < 2`, and 0 for `q >= 2` |
| Sph.SPH.GradQ | sph/src/sph.rs:51-52 | the `q` of `kernel_grad`, the length of `(xi - xj) / h`, is the kernel's `distance / h` |
| Sph.SPH.KernelGrad | sph/src/sph.rs:50-60 | the gradient is the zero vector when `q == 0` (the guard) and when `q >= 2` |
| Sph.SPH.KernelSymmetric | sph/src/sph.rs:43-48 | the kernel is symmetric in its two positions |
| Sph.SPH.DistanceSymmetric | sph/src/sph.rs:44 | the distance is symmetric |
| Sph.SPH.Distance | sph/src/sph.rs:44 | no contract of its own: the length of `xi - xj`; `DistanceSymmetric` and `CloseOnEachAxis` state its properties |
| Sph.SPH.CloseOnEachAxis | sph/src/sph.rs:44 | positions inside the support (`distance < 2 h`) are closer than `2 h` on each axis |
| Sph.SPH.KernelGradAntisymmetric | sph/src/sph.rs:50-57 | `kernel_grad(xj, xi) = -kernel_grad(xi, xj)`: `d` flips sign while `q` is unchanged |
| Sph.SPH.Density | sph/src/sph.rs:62-71 | `density` over no neighbours is 0, and it is non-negative when the attribute is |
| Sph.SPH.DensityAppend | sph/src/sph.rs:62-71 | `density` is additive over concatenated neighbour lists |
| Sph.SPH.DensityPositive | sph/src/sph.rs:62-71 | with a non-negative attribute, one neighbour inside the support with a positive attribute makes the density positive |
| Sph.SPH.GradientTermAt | sph/src/sph.rs:82-86 | a neighbour outside the support, or at the same position, contributes the zero vector to `gradient` |
| Sph.SPH.Gradient | sph/src/sph.rs:73-89 | `gradient` folds from zero, so it is the zero vector for no neighbours |
| Sph.SPH.GradientAppend | sph/src/sph.rs:73-89 | `gradient` is additive over concatenated neighbour lists |
| Sph.SPH.LaplaceTermAt | sph/src/sph.rs:99-104 | a neighbour outside the support, or at the same position, contributes the zero vector to `laplace` |
| Sph.SPH.LaplaceTerm | sph/src/sph.rs:99-104 | the `laplace` summand is defined for every neighbour that has a density |
| Sph.SPH.Laplace | sph/src/sph.rs:91-106 | no contract of its own: twice the fold of the summands; `LaplaceOfNone`, `LaplaceAppend` and `LaplaceOfSelection` state its properties |
| Sph.SPH.LaplaceOfNone | sph/src/sph.rs:91-106 | `laplace` folds from zero, so it is the zero vector for no neighbours |
| Sph.SPH.LaplaceAppend | sph/src/sph.rs:91-106 | `laplace` is additive over concatenated neighbour lists |
| Sph.SPH.DivergenceTermAt | sph/src/sph.rs:116 | a neighbour outside the support, or at the same position, contributes the zero vector to `divergence` |
| Sph.SPH.Divergence | sph/src/sph.rs:108-118 | `divergence` folds from zero, so it is the zero vector for no neighbours |
| Sph.SPH.DivergenceAppend | sph/src/sph.rs:108-118 | `divergence` is additive over concatenated neighbour lists |
| Sph.SPH.DensityOfSelection | sph/src/sph.rs:62-71 | a neighbour list with no duplicates that leaves out only particles outside the support gives the same `density` as all the particles |
| Sph.SPH.GradientOfSelection | sph/src/sph.rs:73-89 | the same holds for `gradient` |
| Sph.SPH.LaplaceOfSelection | sph/src/sph.rs:91-106 | the same holds for `laplace` |
| Sph.SPH.DivergenceOfSelection | sph/src/sph.rs:108-118 | the same holds for `divergence` |
| Fluid.AllIndices | sph/src/fluid.rs:122 | `step_slow` gives every particle the whole particle list as neighbours, which lists the particle itself and only particles |
| Fluid.IndexedNeighbourhoods | sph/src/fluid.rs:50-55 | `step` gives one neighbour list per particle, each listing the particle itself and only particles |
| Fluid.Densities | sph/src/fluid.rs:57-65 | the density pass yields one density per particle |
| Fluid.Pressure | sph/src/fluid.rs:67-70 | the clipped equation of state is never negative |
| Fluid.PressureCompressed | sph/src/fluid.rs:67-70 | with positive stiffness and rest density, the pressure is positive exactly when the density exceeds the rest density, and 0 otherwise |
| Fluid.Pressures | sph/src/fluid.rs:67-70 | the pressure pass yields one pressure per density |
| Fluid.WithDensities | sph/src/fluid.rs:72-75 | the first write-back keeps the number of particles |
| Fluid.NonPressureAccelerations | sph/src/fluid.rs:77-88 | the gravity-and-viscosity pass yields one acceleration per particle |
| Fluid.PressureAccelerations | sph/src/fluid.rs:89-99 | the pressure pass yields one acceleration per particle |
| Fluid.WithAccelerations | sph/src/fluid.rs:101-108 | the second write-back keeps the number of particles |
| Fluid.Integrated | sph/src/fluid.rs:110-115 | the integration keeps the number of particles |
| Fluid.Settle | sph/src/fluid.rs:57-75 | the density and pressure write-back keeps the number of particles |
| Fluid.Accelerated | sph/src/fluid.rs:77-108 | the acceleration write-back keeps the number of particles |
| Fluid.Stepped | sph/src/fluid.rs:49-116 | a step keeps the number of particles |
| Fluid.SelectSettled | sph/src/fluid.rs:63 | the neighbours `particle_refs` yields from particles that all have a density and a pressure also all have them |
| Fluid.SelfInSupport | sph/src/fluid.rs:63 | a particle lies inside the kernel's support around itself |
| Fluid.DensitiesPositive | sph/src/fluid.rs:57-65 | with positive masses every density of the pass is positive, since each particle is its own neighbour |
| Fluid.SettleSettles | sph/src/fluid.rs:72-75 | after the first write-back every particle has a positive density and a pressure, so the divisions of the acceleration passes are defined |
| Fluid.SettleKeeps | sph/src/fluid.rs:72-75 | the first write-back keeps positions, velocities and `movable` |
| Fluid.SteppedKeeps | sph/src/fluid.rs:49-116 | a step keeps the number and order of the particles, and every particle's `mass` and `movable` |
| Fluid.SteppedFreezesStatic | sph/src/fluid.rs:110-115 | a particle that cannot move keeps its position and velocity |
| Fluid.SteppedPressure | sph/src/fluid.rs:67-75 | after a step each particle holds its density from the pass, and the pressure `max(stiffness (d / rest_density - 1), 0)` of that density, which is `>= 0` |
| Fluid.SteppedAcceleration | sph/src/fluid.rs:77-108 | the acceleration is `gravity + kinematic_viscosity · laplace(velocity) - (1 / density) · gradient(pressure)`, evaluated at the positions before integration with the densities and pressures written back in this step |
| Fluid.SteppedEuler | sph/src/fluid.rs:110-115 | a movable particle takes `v' = v + dt a`, then `x' = x + dt v'` with the new velocity |
| Fluid.Integrate | sph/src/fluid.rs:110-115 | no contract of its own: semi-implicit Euler for a movable particle, nothing for the others; `SteppedEuler` and `SteppedFreezesStatic` state it |
| Fluid.AllIndicesAdequate | sph/src/fluid.rs:118-123 | `step_slow`'s neighbour lists list every particle once |
| Fluid.StepQueryCovers | sph/src/fluid.rs:50-55 | `step`'s query returns the particle itself, only particles, and none twice, because the 64-wide grid is wider than the 3 cells the query spans |
| Fluid.StepQuery | sph/src/fluid.rs:50-55 | no contract of its own: the query of radius `2 h` in the index of cell size `2 h` on a grid of 64; `StepQueryCovers`, `StepQueryCells` and `StepQueryMisses` state what it returns |
| Fluid.StepQueryCells | sph/src/fluid.rs:50-55 | `step`'s query (cell size `2 h`, radius `2 h`) visits the 27 cells around the particle and returns what their buckets hold |
| Fluid.StepQueryMisses | sph/src/fluid.rs:50-55 | `step`'s query leaves out only particles at distance `>= 2 h`, where the kernel is 0 |
| Fluid.IndexedAdequate | sph/src/fluid.rs:50-55 | `step`'s neighbour lists have no duplicates and leave out only particles outside the support |
| Fluid.DensityAgrees | sph/src/fluid.rs:61-64 | a particle's density over such a neighbour list equals its density over all particles |
| Fluid.DensitiesAgree | sph/src/fluid.rs:57-65 | the density pass over such neighbour lists equals `step_slow`'s |
| Fluid.SettleAdequate | sph/src/fluid.rs:72-75 | the density write-back keeps the neighbour lists adequate, since it does not move particles |
| Fluid.AccelerationAgrees | sph/src/fluid.rs:77-99 | a particle's two acceleration terms over such a neighbour list equal those over all particles |
| Fluid.NonPressureAcceleration | sph/src/fluid.rs:81-87 | no contract of its own: `gravity + kinematic_viscosity · laplace(velocity)` over the neighbours; `SteppedAcceleration` and `AccelerationAgrees` state it |
| Fluid.PressureAcceleration | sph/src/fluid.rs:93-98 | no contract of its own: `(-1 / density) · gradient(pressure)` over the neighbours; `SteppedAcceleration` and `AccelerationAgrees` state it |
| Fluid.AccelerationsAgree | sph/src/fluid.rs:77-99 | the acceleration passes over such neighbour lists equal `step_slow`'s |
| Fluid.AdequateStepsAgree | sph/src/fluid.rs:118-165 | a step with duplicate-free neighbour lists that omit only particles outside the support equals `step_slow` |
| Fluid.StepAgreesWithStepSlow | sph/src/fluid.rs:49-165 | `step` and `step_slow` produce the same particles |
| Fluid.Fluid.constructor | sph/src/fluid.rs:31-47 | `Fluid::new` stores its parameters unchanged, with `sph = SPH::new(h)` |
| Fluid.Fluid.StoreDensities | sph/src/fluid.rs:72-75 | the first write-back loop sets particle `i`'s density and pressure to entry `i` of the two passes, and changes nothing else |
| Fluid.Fluid.StoreAccelerations | sph/src/fluid.rs:101-108 | the second write-back loop sets particle `i`'s acceleration to the sum of entry `i` of the two passes |
| Fluid.Fluid.IntegrateAll | sph/src/fluid.rs:110-115 | the integration loop advances each movable particle by semi-implicit Euler and leaves the others unchanged |
| Fluid.Fluid.QueryAll | sph/src/fluid.rs:50-55 | builds the index with cell size `2 h` on a 64-cubed grid, and queries radius `2 h` at every particle, in order |
| Fluid.Fluid.MeasureDensities | sph/src/fluid.rs:57-65 | each particle's mass density over the particles its neighbourhood refers to |
| Fluid.Fluid.MeasureAccelerations | sph/src/fluid.rs:77-99 | each particle's gravity-and-viscosity and pressure accelerations over its neighbourhood |
| Fluid.Fluid.Step | sph/src/fluid.rs:49-116 | `step` leaves the particles that the specification step gives with the bucket-grid neighbour lists |
| Fluid.Fluid.MeasureDensitiesSlow | sph/src/fluid.rs:119-123 | each particle's mass density over all particles |
| Fluid.Fluid.MeasureAccelerationsSlow | sph/src/fluid.rs:135-148 | each particle's two acceleration terms over all particles |
| Fluid.Fluid.StepSlow | sph/src/fluid.rs:118-165 | `step_slow` leaves the particles that the specification step gives with every particle as every neighbour |
| Playground.CubeInBox | sph/examples/playground.rs:4-21 | the three nested loops return the particles of the emitted lattice points, in `(x, y, z)` loop order |
| Playground.PlaneAt | sph/examples/playground.rs:7-18 | the middle loop returns the particles of plane `x`, row by row |
| Playground.RowAt | sph/examples/playground.rs:8-17 | the inner loop pushes, in increasing `z`, the particle of each emitted point with the movable flag of line 10 |
| Playground.PlacedInjective | sph/examples/playground.rs:12 | distinct lattice points give distinct positions `(x, y, z)` |
| Playground.Emitted | sph/examples/playground.rs:9 | no contract of its own: the emission test; `Playground.LayoutHas` states that it decides which points get a particle |
| Playground.Movable | sph/examples/playground.rs:10 | no contract of its own: the movable test; `Playground.Source` states that it decides `movable` |
| Playground.Placed | sph/examples/playground.rs:11-15 | no contract of its own: `Particle::new` at `(x, y, z)` with mass 1; `Playground.Source` and `Playground.PlacedInjective` state it |
| Playground.Layout | sph/examples/playground.rs:4-21 | no contract of its own: the emitted particles in loop order; `Playground.CubeInBox` is proved equal to it, and `LayoutHas`, `Source` and `LayoutPositionsDistinct` state what it holds |
| Playground.LayoutHas | sph/examples/playground.rs:9-15 | a lattice point gets a particle exactly when `z < 0 or (abs(x) + 1 < extend && abs(y) + 1 < extend)`; every movable point gets a movable particle |
| Playground.Source | sph/examples/playground.rs:9-15 | every particle comes from an emitted point of the box, has mass 1, is at rest, and is movable exactly when `abs(x) + 1 < extend && abs(y) + 1 < extend && z - 1 > -extend` |
| Playground.LayoutPositionsDistinct | sph/examples/playground.rs:4-21 | no two particles share a position |
| Playground.MovablePositions | sph/examples/playground.rs:24-28 | filtering keeps at most as many positions as there are particles |
| Playground.MovablePositionsAppend | sph/examples/playground.rs:24-28 | the filter distributes over concatenation |
| Playground.MovablePositionsMember | sph/examples/playground.rs:24-28 | a position is kept exactly when some movable particle is at it |
| Playground.AvgDefined | sph/examples/playground.rs:29 | the average is defined exactly when some particle is movable; otherwise the source divides by zero |
| Playground.AvgIsMean | sph/examples/playground.rs:23-30 | the average times the number of movable particles is the sum of their positions |
| Playground.AvgIgnoresStatic | sph/examples/playground.rs:23-30 | inserting a particle that cannot move anywhere does not change the average |
| Playground.AvgMovablePos | sph/examples/playground.rs:23-30 | no contract of its own: the sum of the movable positions over their number, or `None` for none; `AvgDefined`, `AvgIsMean` and `AvgIgnoresStatic` state it |
| Rendering.CubeInBox | fluid_rendering_3d/src/main.rs:71-88 | the three nested loops return the particles of the emitted lattice points, in `(x, y, z)` loop order |
| Rendering.PlaneAt | fluid_rendering_3d/src/main.rs:74-85 | the middle loop returns the particles of plane `x`, row by row |
| Rendering.RowAt | fluid_rendering_3d/src/main.rs:75-84 | the inner loop pushes, in increasing `z`, the particle of each emitted point at `(x, z, y)` with the movable flag of line 77 |
| Rendering.PlacedInjective | fluid_rendering_3d/src/main.rs:79 | distinct lattice points give distinct positions `(x, z, y)` |
| Rendering.Emitted | fluid_rendering_3d/src/main.rs:76 | no contract of its own: the emission test; `Rendering.LayoutHas` states that it decides which points get a particle |
| Rendering.Movable | fluid_rendering_3d/src/main.rs:77 | no contract of its own: the movable test; `Rendering.Source` states that it decides `movable` |
| Rendering.Placed | fluid_rendering_3d/src/main.rs:78-82 | no contract of its own: `Particle::new` at `(x, z, y)` with mass 1; `Rendering.Source` and `Rendering.PlacedInjective` state it |
| Rendering.Layout | fluid_rendering_3d/src/main.rs:71-88 | no contract of its own: the emitted particles in loop order; `Rendering.CubeInBox` is proved equal to it, and `LayoutHas`, `Source`, `LayoutPositionsDistinct` and `LayoutCount` state what it holds |
| Rendering.LayoutHas | fluid_rendering_3d/src/main.rs:76-82 | a lattice point gets a particle exactly when `z < 0 or (abs(x) < extend && abs(y) < extend)`; every movable point gets a movable particle |
| Rendering.Source | fluid_rendering_3d/src/main.rs:76-82 | every particle comes from an emitted point, has mass 1, is at rest, and is movable exactly when `abs(x) < extend && abs(y) < extend && z > -extend` |
| Rendering.LayoutPositionsDistinct | fluid_rendering_3d/src/main.rs:71-88 | no two particles share a position |
| Rendering.RowInside | fluid_rendering_3d/src/main.rs:75-84 | a row inside the walls holds all `2 e + 1` points |
| Rendering.RowWall | fluid_rendering_3d/src/main.rs:75-84 | a row on a wall holds only the `e` points below the middle plane |
| Rendering.RowCount | fluid_rendering_3d/src/main.rs:75-84 | a row holds `2 e + 1` particles inside the walls and `e` on them |
| Rendering.PlaneInside | fluid_rendering_3d/src/main.rs:74-85 | a plane inside the walls holds `2 e + (2 e - 1)(2 e + 1)` particles |
| Rendering.PlaneWall | fluid_rendering_3d/src/main.rs:74-85 | a wall plane holds `(2 e + 1) e` particles |
| Rendering.PlaneCount | fluid_rendering_3d/src/main.rs:74-85 | the particle count of plane `x`, for either case |
| Rendering.PlanesCount | fluid_rendering_3d/src/main.rs:73-86 | the layout is two wall planes with `2 e - 1` inner planes between them |
| Rendering.InnerPlanesCount | fluid_rendering_3d/src/main.rs:73-86 | each of the `2 e - 1` inner planes holds `2 e + (2 e - 1)(2 e + 1)` particles |
| Rendering.LayoutCount | fluid_rendering_3d/src/main.rs:71-88 | for `extend >= 1` there are `extend (2 extend + 1)^2 + (extend + 1)(2 extend - 1)^2` particles |
| Simulation.ToRaw | fluid_rendering_3d/src/simulation.rs:60-62 | one entry per position, in order, each with fourth component 0 |
| Simulation.FromRaw | fluid_rendering_3d/src/simulation.rs:61 | reading back yields one position per entry |
| Simulation.RawRoundTrip | fluid_rendering_3d/src/simulation.rs:61 | entry `i` holds `x`, `y`, `z` of position `i`: reading the entries back gives the positions |
| Simulation.ToRawAppend | fluid_rendering_3d/src/simulation.rs:60-62 | padding works entry by entry: it commutes with concatenation, and maps the empty slice to the empty list |

## Left out

- `f32` arithmetic: rounding, overflow to infinity and NaN. Reals are used throughout.
  So `density` and `pressure` are unset (`None`) where the source stores NaN.
- `sqrt` in `distance` and `length`: the length is an abstract function, with only
  the properties listed above. π is an abstract positive constant.
- Kernel normalisation (an integral) and physical claims about the motion. These
  depend on calculus and numeric magnitudes, not on the code's structure.
- Neighbourhood.Trunc: does not model the saturation of `as i64` for values outside
  the `i64` range, nor NaN mapping to 0.
- Neighbourhood.Loc: does not model `i64` overflow in `gpos ± gradius`. Integers are
  unbounded.
- Playground.Emitted: does not model `i32` overflow in `abs` at `i32::MIN` or in
  `-extend`. The same holds for Rendering.Emitted.
- Fluid.Fluid.Step: requires a non-zero rest density and positive masses, which the
  source does not check. Without them the source divides by zero and continues with
  infinities or NaN. The reals have neither. The same holds for Fluid.Fluid.StepSlow.
- Neighbourhood.Index.constructor: requires a non-zero `grid_scale` and a positive
  `grid_size`. `Index::new` accepts both. With `grid_size` 0 it returns an empty grid
  when there are no particles, and panics in `rem_euclid` at the first particle. With
  `grid_scale` 0 the `f32` division gives infinities or NaN, which `as i64` saturates
  or sends to 0. The reals have neither, and `step`, the only caller, passes `2 h`
  and 64.
- Sph.SPH.New: requires `h > 0` and `π > 0`. `SPH::new` accepts any `h`, and for
  `h = 0` divides by zero, giving an infinite `alpha`. The same holds for
  Fluid.Fluid.constructor, which calls it.
- Playground.AvgMovablePos: returns `None` where the source divides the zero vector
  by zero and yields NaN components, that is, when no particle is movable.
- Neighbourhood.ModCube.Get: has no contract of its own. The buckets it returns are
  `Neighbourhood.BucketAt`, which the query's loops read, and `Neighbourhood.Loc`'s
  contract states the bounds.
- `Fluid::default`, `main` of the playground (the step loop and printing), the
  window, GPU and event-loop code, and `create_simulation`/`update` of the rendering
  program. These are I/O and plumbing.
- `Fluid`'s fields other than `particles` are fields of the class, but no method
  changes them. The source never changes them after `new` either.
