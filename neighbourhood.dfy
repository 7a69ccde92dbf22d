/** The periodic bucket grid of `sph/src/neighbourhood.rs`: a cube of buckets addressed
    with coordinates wrapped by `rem_euclid`, an index that files each particle under
    its grid cell, and the query that gathers the buckets around a position. */
module Neighbourhood {
  import opened Vectors
  import opened Sums
  import opened Lattice
  import opened Sph

  /** A neighbourhood: the indices of the particles gathered by one query, in order. */
  datatype Neighbourhood = Indices(indices: seq<nat>)
  {
    /** `particle_refs`: the particle at each stored index, in stored order. */
    function ParticleRefs(particles: seq<Particle>): (r: seq<Particle>)
      requires forall k :: 0 <= k < |indices| ==> indices[k] < |particles|
      ensures |r| == |indices|
      ensures forall k :: 0 <= k < |indices| ==> r[k] == particles[indices[k]]
    {
      Select(particles, indices)
    }
  }

  // ---------------------------------------------------------------------------
  // Integer arithmetic: `as i64`, `ceil` and `rem_euclid`

  /** `n` is `t` rounded toward zero: the integer part of `t`, with the sign of `t`. */
  predicate TowardZero(t: real, n: int) {
    && (0.0 <= t ==> 0 <= n && n as real <= t < n as real + 1.0)
    && (t < 0.0 ==> n <= 0 && n as real - 1.0 < t <= n as real)
  }

  /** `t as i64`: rounds toward zero (saturation at the `i64` range is not modelled). */
  function Trunc(t: real): (n: int)
    ensures TowardZero(t, n)
  {
    if t >= 0.0 then t.Floor else -((-t).Floor)
  }

  /** `t.ceil() as i64` */
  function Ceil(t: real): (n: int)
    ensures t <= n as real < t + 1.0
  {
    -((-t).Floor)
  }

  /** Truncation sends all of `(-1, 1)` to 0, so grid cell 0 is twice as wide as the
      others. */
  lemma TruncZero(t: real)
    ensures Trunc(t) == 0 <==> -1.0 < t < 1.0
  {
  }

  /** Reals less than 1 apart truncate to integers at most 1 apart. */
  lemma TruncNear(a: real, b: real)
    requires -1.0 < a - b < 1.0
    ensures -1 <= Trunc(a) - Trunc(b) <= 1
  {
  }

  /** Reals less than `s` apart are less than 1 apart once divided by `s`. */
  lemma ScaledClose(a: real, b: real, s: real)
    requires s > 0.0 && -s < a - b < s
    ensures -1.0 < a / s - b / s < 1.0
  {
    assert a / s - b / s == (a - b) / s;
    DivCompare(a - b, s, 1.0);
    DivStrict(a - b, s, -1.0);
  }

  /** A non-zero multiple of `n` is at least `n` away from 0. */
  lemma MulBounds(d: int, n: int)
    requires n > 0
    ensures d > 0 ==> d * n >= n
    ensures d < 0 ==> d * n <= -n
  {
  }

  /** The quotient and remainder of Euclidean division are unique. */
  lemma ModUnique(a: int, n: int, q: int, r: int)
    requires n > 0 && a == q * n + r && 0 <= r < n
    ensures a % n == r && a / n == q
  {
    var q0, r0 := a / n, a % n;
    assert a == q0 * n + r0;
    var d := q - q0;
    assert d * n == q * n - q0 * n;
    MulBounds(d, n);
  }

  /** Two integers less than `n` apart with the same remainder are equal. */
  lemma ModClose(a: int, b: int, n: int)
    requires n > 0 && a % n == b % n && -n < a - b < n
    ensures a == b
  {
    var d := a / n - b / n;
    assert a - b == d * n;
    MulBounds(d, n);
  }

  // ---------------------------------------------------------------------------
  // Wrapped addressing

  predicate Positive(size: IVec3) {
    size.x > 0 && size.y > 0 && size.z > 0
  }

  /** `l` addresses a bucket of a grid of the given size. */
  predicate InGrid(l: IVec3, size: IVec3) {
    0 <= l.x < size.x && 0 <= l.y < size.y && 0 <= l.z < size.z
  }

  /** `ModCube::loc`: each coordinate wrapped into `[0, size)` by `rem_euclid`, which for
      a positive modulus is Dafny's `%`. */
  function Loc(size: IVec3, pos: IVec3): (l: IVec3)
    requires Positive(size)
    ensures InGrid(l, size)
  {
    IVec3(pos.x % size.x, pos.y % size.y, pos.z % size.z)
  }

  /** On the fundamental cell the wrapping changes nothing. */
  lemma LocIdentity(size: IVec3, pos: IVec3)
    requires Positive(size)
    requires InGrid(pos, size)
    ensures Loc(size, pos) == pos
  {
    ModUnique(pos.x, size.x, 0, pos.x);
    ModUnique(pos.y, size.y, 0, pos.y);
    ModUnique(pos.z, size.z, 0, pos.z);
  }

  /** Shifting by whole multiples of the size on any axis addresses the same bucket. */
  lemma LocPeriodic(size: IVec3, pos: IVec3, k: IVec3)
    requires Positive(size)
    ensures Loc(size, IVec3(pos.x + k.x * size.x, pos.y + k.y * size.y, pos.z + k.z * size.z))
            == Loc(size, pos)
  {
    ModUnique(pos.x + k.x * size.x, size.x, pos.x / size.x + k.x, pos.x % size.x);
    ModUnique(pos.y + k.y * size.y, size.y, pos.y / size.y + k.y, pos.y % size.y);
    ModUnique(pos.z + k.z * size.z, size.z, pos.z / size.z + k.z, pos.z % size.z);
  }

  /** Within a box no wider than the grid, distinct points address distinct buckets. */
  lemma LocInjective(size: IVec3, lo: IVec3, w: nat, p: IVec3, q: IVec3)
    requires Positive(size) && w <= size.x && w <= size.y && w <= size.z
    requires InBox(p, lo, w) && InBox(q, lo, w) && Loc(size, p) == Loc(size, q)
    ensures p == q
  {
    ModClose(p.x, q.x, size.x);
    ModClose(p.y, q.y, size.y);
    ModClose(p.z, q.z, size.z);
  }

  // ---------------------------------------------------------------------------
  // The cube of buckets as a value

  type Cube<T> = seq<seq<seq<seq<T>>>>

  /** `cube` has `size.x` planes of `size.y` rows of `size.z` buckets. */
  predicate Shaped<T>(cube: Cube<T>, size: IVec3) {
    && size.x >= 0 && size.y >= 0 && size.z >= 0
    && |cube| == size.x
    && (forall a :: 0 <= a < size.x ==> |cube[a]| == size.y)
    && (forall a, b :: 0 <= a < size.x && 0 <= b < size.y ==> |cube[a][b]| == size.z)
  }

  /** The bucket at cell `l` (unwrapped). */
  function At<T>(cube: Cube<T>, size: IVec3, l: IVec3): seq<T>
    requires Shaped(cube, size)
    requires InGrid(l, size)
  {
    cube[l.x][l.y][l.z]
  }

  /** The bucket that `ModCube::get` returns for `pos`; the empty list for a cube that
      is not well formed, which never occurs. */
  function BucketAt<T>(cube: Cube<T>, size: IVec3, pos: IVec3): seq<T> {
    if Positive(size) && Shaped(cube, size) then At(cube, size, Loc(size, pos)) else []
  }

  /** The buckets of `cube`, as a function of the (unwrapped) grid coordinate. */
  function Buckets<T>(cube: Cube<T>, size: IVec3): IVec3 -> seq<T> {
    p => BucketAt(cube, size, p)
  }

  /** A cube of empty buckets. */
  function EmptyCube<T>(size: IVec3): (c: Cube<T>)
    requires size.x >= 0 && size.y >= 0 && size.z >= 0
    ensures Shaped(c, size)
  {
    seq(size.x, _ => seq(size.y, _ => seq(size.z, _ => [])))
  }

  /** Every well-formed cube of empty buckets is `EmptyCube(size)`. */
  lemma EmptyCubeUnique<T>(c: Cube<T>, size: IVec3)
    requires Shaped(c, size)
    requires forall a, b, z :: 0 <= a < size.x && 0 <= b < size.y && 0 <= z < size.z ==> c[a][b][z] == []
    ensures c == EmptyCube(size)
  {
    var e: Cube<T> := EmptyCube(size);
    forall a | 0 <= a < size.x ensures c[a] == e[a] {
      forall b | 0 <= b < size.y ensures c[a][b] == e[a][b] {
        assert c[a][b] == e[a][b];
      }
    }
  }

  /** `cube` with `v` pushed onto the bucket at cell `l`. */
  function Pushed<T>(cube: Cube<T>, size: IVec3, l: IVec3, v: T): (c: Cube<T>)
    requires Shaped(cube, size)
    requires InGrid(l, size)
    ensures Shaped(c, size)
  {
    cube[l.x := cube[l.x][l.y := cube[l.x][l.y][l.z := cube[l.x][l.y][l.z] + [v]]]]
  }

  // ---------------------------------------------------------------------------
  // ModCube

  /** `ModCube<T>`: `size.x * size.y * size.z` buckets addressed with wrap-around. */
  class ModCube<T> {
    var cube: Cube<T>
    var size: IVec3

    ghost predicate Valid()
      reads this
    {
      Shaped(cube, size)
    }

    /** `ModCube::new`: builds the nested vectors of empty buckets with three loops. */
    constructor (size: IVec3)
      requires size.x >= 0 && size.y >= 0 && size.z >= 0
      ensures Valid() && this.size == size
      ensures cube == EmptyCube(size)
    {
      var c: Cube<T> := [];
      var i := 0;
      while i < size.x
        invariant 0 <= i <= size.x && |c| == i
        invariant forall a :: 0 <= a < i ==> |c[a]| == size.y
        invariant forall a, b :: 0 <= a < i && 0 <= b < size.y ==> |c[a][b]| == size.z
        invariant forall a, b, z :: 0 <= a < i && 0 <= b < size.y && 0 <= z < size.z ==> c[a][b][z] == []
      {
        var vx: seq<seq<seq<T>>> := [];
        var j := 0;
        while j < size.y
          invariant 0 <= j <= size.y && |vx| == j
          invariant forall b :: 0 <= b < j ==> |vx[b]| == size.z
          invariant forall b, z :: 0 <= b < j && 0 <= z < size.z ==> vx[b][z] == []
        {
          var vy: seq<seq<T>> := [];
          var k := 0;
          while k < size.z
            invariant 0 <= k <= size.z && |vy| == k
            invariant forall z :: 0 <= z < k ==> vy[z] == []
          {
            vy := vy + [[]];
            k := k + 1;
          }
          vx := vx + [vy];
          j := j + 1;
        }
        c := c + [vx];
        i := i + 1;
      }
      EmptyCubeUnique(c, size);
      cube := c;
      this.size := size;
    }

    /** `ModCube::get`: the bucket at the wrapped coordinate; `loc` keeps every index in
        range. */
    function Get(pos: IVec3): seq<T>
      reads this
      requires Valid() && Positive(size)
    {
      var l := Loc(size, pos);
      cube[l.x][l.y][l.z]
    }

    /** `get_mut(pos).push(v)`: appends `v` to the bucket at the wrapped coordinate. */
    method Push(pos: IVec3, v: T)
      requires Valid() && Positive(size)
      modifies this
      ensures Valid() && size == old(size)
      ensures cube == Pushed(old(cube), size, Loc(size, pos), v)
    {
      var l := Loc(size, pos);
      cube := cube[l.x := cube[l.x][l.y := cube[l.x][l.y][l.z := cube[l.x][l.y][l.z] + [v]]]];
    }

    /** The three loops of `Index::neighbourhood` over the box of side `w` at `lo`: the
        buckets of its cells, `x`-major, then `y`, then `z`. */
    method GatherBox(lo: IVec3, w: nat) returns (gathered: seq<T>)
      requires Valid() && Positive(size)
      ensures gathered == Block(lo, w, Buckets(cube, size))
    {
      ghost var f := Plane(lo, w, Buckets(cube, size));
      gathered := [];
      var x := lo.x;
      ghost var i: nat := 0;
      while x < lo.x + w
        invariant x == lo.x + i && i <= w
        invariant gathered == Span(lo.x, i, f)
      {
        var plane := GatherPlane(lo, w, x);
        SpanNext(lo.x, i, f, x);
        gathered := gathered + plane;
        x, i := x + 1, i + 1;
      }
      assert i == w;
    }

    /** The two inner loops, for plane `x`. */
    method GatherPlane(lo: IVec3, w: nat, x: int) returns (plane: seq<T>)
      requires Valid() && Positive(size)
      ensures plane == Plane(lo, w, Buckets(cube, size))(x)
    {
      ghost var f := Row(lo, w, x, Buckets(cube, size));
      plane := [];
      var y := lo.y;
      ghost var j: nat := 0;
      while y < lo.y + w
        invariant y == lo.y + j && j <= w
        invariant plane == Span(lo.y, j, f)
      {
        var row := GatherRow(lo, w, x, y);
        SpanNext(lo.y, j, f, y);
        plane := plane + row;
        y, j := y + 1, j + 1;
      }
      assert j == w;
    }

    /** The innermost loop, for row `y` of plane `x`. */
    method GatherRow(lo: IVec3, w: nat, x: int, y: int) returns (row: seq<T>)
      requires Valid() && Positive(size)
      ensures row == Row(lo, w, x, Buckets(cube, size))(y)
    {
      ghost var f := Line(x, y, Buckets(cube, size));
      row := [];
      var z := lo.z;
      ghost var k: nat := 0;
      while z < lo.z + w
        invariant z == lo.z + k && k <= w
        invariant row == Span(lo.z, k, f)
      {
        var bucket := Get(IVec3(x, y, z));
        SpanNext(lo.z, k, f, z);
        row := row + bucket;
        z, k := z + 1, k + 1;
      }
      assert k == w;
    }
  }

  // ---------------------------------------------------------------------------
  // The particle index

  /** `Index::grid_position` for the index's `grid_scale`: each coordinate of
      `pos / scale` truncated toward zero. */
  function GridPosition(scale: real, pos: Vec3): (g: IVec3)
    requires scale != 0.0
    ensures TowardZero(pos.x / scale, g.x) && TowardZero(pos.y / scale, g.y) && TowardZero(pos.z / scale, g.z)
  {
    IVec3(Trunc(pos.x / scale), Trunc(pos.y / scale), Trunc(pos.z / scale))
  }

  /** The bucket a particle at `pos` is filed under. */
  function CellOf(scale: real, size: IVec3, pos: Vec3): IVec3
    requires scale != 0.0 && Positive(size)
  {
    Loc(size, GridPosition(scale, pos))
  }

  function Cubed(n: nat): IVec3 {
    IVec3(n, n, n)
  }

  /** `Index::new`'s loop with the cell of every index given: index `k` pushed, in
      order, onto the bucket at `cells[k]`. */
  function Filed(cells: seq<IVec3>, size: IVec3): (c: Cube<nat>)
    requires Positive(size) && forall k :: 0 <= k < |cells| ==> InGrid(cells[k], size)
    ensures Shaped(c, size)
  {
    if |cells| == 0 then EmptyCube<nat>(size)
    else
      var n := |cells| - 1;
      Pushed(Filed(cells[..n], size), size, cells[n], n)
  }

  /** The bucket of each particle. */
  function CellsOf(particles: seq<Particle>, scale: real, size: IVec3): (cells: seq<IVec3>)
    requires scale != 0.0 && Positive(size)
    ensures |cells| == |particles|
    ensures forall k :: 0 <= k < |particles| ==> cells[k] == CellOf(scale, size, particles[k].pos)
    ensures forall k :: 0 <= k < |particles| ==> InGrid(cells[k], size)
  {
    seq(|particles|, k requires 0 <= k < |particles| => CellOf(scale, size, particles[k].pos))
  }

  /** The grid that `Index::new` fills: index `i` pushed, in order, onto the bucket of
      particle `i`. */
  function IndexCube(particles: seq<Particle>, scale: real, size: IVec3): (c: Cube<nat>)
    requires scale != 0.0 && Positive(size)
    ensures Shaped(c, size)
  {
    Filed(CellsOf(particles, scale, size), size)
  }

  /** Filing one more index pushes it onto the bucket of its cell. */
  lemma FiledNext(cells: seq<IVec3>, size: IVec3, n: nat)
    requires Positive(size) && forall k :: 0 <= k < |cells| ==> InGrid(cells[k], size)
    requires n < |cells|
    ensures Filed(cells[..n + 1], size) == Pushed(Filed(cells[..n], size), size, cells[n], n)
  {
    assert cells[..n + 1][..n] == cells[..n];
  }

  lemma EmptyAt<T>(size: IVec3, l: IVec3)
    requires InGrid(l, size)
    ensures At(EmptyCube<T>(size), size, l) == []
  {
  }

  /** The bucket at `m` after a push onto the bucket at `l`. */
  lemma PushedAt<T>(cube: Cube<T>, size: IVec3, l: IVec3, v: T, m: IVec3)
    requires Shaped(cube, size) && InGrid(l, size) && InGrid(m, size)
    ensures At(Pushed(cube, size, l, v), size, m) == if m == l then At(cube, size, m) + [v] else At(cube, size, m)
  {
  }

  /** Strictly increasing, hence without duplicates. */
  predicate Ascending(b: seq<nat>) {
    forall s, t :: 0 <= s < t < |b| ==> b[s] < b[t]
  }

  lemma {:induction false} FiledMember(cells: seq<IVec3>, size: IVec3, l: IVec3, i: nat)
    requires Positive(size) && forall k :: 0 <= k < |cells| ==> InGrid(cells[k], size)
    requires InGrid(l, size)
    ensures i in At(Filed(cells, size), size, l) <==> i < |cells| && cells[i] == l
  {
    if |cells| == 0 {
      EmptyAt<nat>(size, l);
    } else {
      var n := |cells| - 1;
      var prev := Filed(cells[..n], size);
      FiledNext(cells, size, n);
      assert cells[..n + 1] == cells;
      FiledMember(cells[..n], size, l, i);
      PushedAt(prev, size, cells[n], n, l);
      var b := At(prev, size, l);
      assert At(Filed(cells, size), size, l) == if cells[n] == l then b + [n] else b;
      assert i < n ==> cells[..n][i] == cells[i];
    }
  }

  lemma {:induction false} FiledAscending(cells: seq<IVec3>, size: IVec3, l: IVec3)
    requires Positive(size) && forall k :: 0 <= k < |cells| ==> InGrid(cells[k], size)
    requires InGrid(l, size)
    ensures Ascending(At(Filed(cells, size), size, l))
  {
    if |cells| > 0 {
      var n := |cells| - 1;
      var prev := Filed(cells[..n], size);
      FiledNext(cells, size, n);
      assert cells[..n + 1] == cells;
      FiledAscending(cells[..n], size, l);
      PushedAt(prev, size, cells[n], n, l);
      var before := At(prev, size, l);
      forall s | 0 <= s < |before| ensures before[s] < n {
        FiledMember(cells[..n], size, l, before[s]);
      }
    }
  }

  /** Index `i` is in the bucket at cell `l` exactly when particle `i` exists and is filed
      under `l`: every index lands in one bucket, its own. */
  lemma IndexCubeMember(particles: seq<Particle>, scale: real, size: IVec3, l: IVec3, i: nat)
    requires scale != 0.0 && Positive(size) && InGrid(l, size)
    ensures i in At(IndexCube(particles, scale, size), size, l) <==>
            i < |particles| && CellOf(scale, size, particles[i].pos) == l
  {
    FiledMember(CellsOf(particles, scale, size), size, l, i);
  }

  /** Every bucket lists its indices in strictly ascending order. */
  lemma IndexCubeAscending(particles: seq<Particle>, scale: real, size: IVec3, l: IVec3)
    requires scale != 0.0 && Positive(size) && InGrid(l, size)
    ensures Ascending(At(IndexCube(particles, scale, size), size, l))
  {
    var cells := CellsOf(particles, scale, size);
    FiledAscending(cells, size, l);
    assert IndexCube(particles, scale, size) == Filed(cells, size);
  }

  /** The number of entries of a bucket, of a row, of a plane and of a whole cube. */
  function BucketSize(b: seq<nat>): real { |b| as real }
  function RowSize(row: seq<seq<nat>>): real { Sum(row, BucketSize) }
  function PlaneSize(plane: seq<seq<seq<nat>>>): real { Sum(plane, RowSize) }
  function Occupancy(cube: Cube<nat>): real { Sum(cube, PlaneSize) }

  lemma {:induction false} EmptyOccupancy(size: IVec3)
    requires size.x >= 0 && size.y >= 0 && size.z >= 0
    ensures Occupancy(EmptyCube<nat>(size)) == 0.0
  {
    var c := EmptyCube<nat>(size);
    forall a | 0 <= a < size.x ensures PlaneSize(c[a]) == 0.0 {
      forall b | 0 <= b < size.y ensures RowSize(c[a][b]) == 0.0 {
        SumOfZeros(c[a][b], BucketSize);
      }
      SumOfZeros(c[a], RowSize);
    }
    SumOfZeros(c, PlaneSize);
  }

  /** A push adds one entry to the cube. */
  lemma PushedOccupancy(cube: Cube<nat>, size: IVec3, l: IVec3, v: nat)
    requires Shaped(cube, size)
    requires InGrid(l, size)
    ensures Occupancy(Pushed(cube, size, l, v)) == Occupancy(cube) + 1.0
  {
    var plane, row, bucket := cube[l.x], cube[l.x][l.y], cube[l.x][l.y][l.z];
    var row' := row[l.z := bucket + [v]];
    var plane' := plane[l.y := row'];
    SumUpdate(row, l.z, bucket + [v], BucketSize);
    SumUpdate(plane, l.y, row', RowSize);
    SumUpdate(cube, l.x, plane', PlaneSize);
  }

  lemma {:induction false} FiledOccupancy(cells: seq<IVec3>, size: IVec3)
    requires Positive(size) && forall k :: 0 <= k < |cells| ==> InGrid(cells[k], size)
    ensures Occupancy(Filed(cells, size)) == |cells| as real
  {
    if |cells| == 0 {
      EmptyOccupancy(size);
    } else {
      var n := |cells| - 1;
      FiledOccupancy(cells[..n], size);
      PushedOccupancy(Filed(cells[..n], size), size, cells[n], n);
    }
  }

  /** After `Index::new` the buckets hold `n` entries in all. */
  lemma IndexCubeOccupancy(particles: seq<Particle>, scale: real, size: IVec3)
    requires scale != 0.0 && Positive(size)
    ensures Occupancy(IndexCube(particles, scale, size)) == |particles| as real
  {
    FiledOccupancy(CellsOf(particles, scale, size), size);
  }

  /** `ceil(radius / grid_scale)`: how many cells the query reaches out on each side. */
  function GridRadius(radius: real, scale: real): (r: int)
    requires scale != 0.0
    ensures radius / scale <= r as real < radius / scale + 1.0
  {
    Ceil(radius / scale)
  }

  /** What `neighbourhood` returns around grid coordinate `g` with reach `r`: the buckets
      of the box `[g - r, g + r]` on each axis, concatenated in loop order. */
  function Gathered(cube: Cube<nat>, size: IVec3, g: IVec3, r: int): seq<nat> {
    Block(Corner(g, r), Width(r), Buckets(cube, size))
  }

  /** A particle is gathered exactly when some cell of the box wraps onto its bucket. */
  lemma GatheredMember(particles: seq<Particle>, scale: real, size: IVec3, g: IVec3, r: int, i: nat)
    requires scale != 0.0 && Positive(size)
    ensures i in Gathered(IndexCube(particles, scale, size), size, g, r) <==>
            i < |particles| &&
            exists p: IVec3 :: InBox(p, Corner(g, r), Width(r)) && Loc(size, p) == CellOf(scale, size, particles[i].pos)
  {
    var cube := IndexCube(particles, scale, size);
    BlockMember(Corner(g, r), Width(r), Buckets(cube, size), i);
    if i in Gathered(cube, size, g, r) {
      var p: IVec3 :| InBox(p, Corner(g, r), Width(r)) && i in Buckets(cube, size)(p);
      IndexCubeMember(particles, scale, size, Loc(size, p), i);
    }
    if i < |particles| && exists p: IVec3 :: InBox(p, Corner(g, r), Width(r)) && Loc(size, p) == CellOf(scale, size, particles[i].pos) {
      var p: IVec3 :| InBox(p, Corner(g, r), Width(r)) && Loc(size, p) == CellOf(scale, size, particles[i].pos);
      IndexCubeMember(particles, scale, size, Loc(size, p), i);
      assert i in Buckets(cube, size)(p);
    }
  }

  /** Completeness: every particle whose grid coordinate is within `r` of `g` on each
      axis is gathered. */
  lemma GatheredComplete(particles: seq<Particle>, scale: real, size: IVec3, g: IVec3, r: int, i: nat)
    requires scale != 0.0 && Positive(size)
    requires i < |particles|
    requires var q := GridPosition(scale, particles[i].pos);
             -r <= q.x - g.x <= r && -r <= q.y - g.y <= r && -r <= q.z - g.z <= r
    ensures i in Gathered(IndexCube(particles, scale, size), size, g, r)
  {
    var q := GridPosition(scale, particles[i].pos);
    assert InBox(q, Corner(g, r), Width(r));
    GatheredMember(particles, scale, size, g, r, i);
  }

  /** A query at a particle's own position with a non-negative reach finds that
      particle. */
  lemma GatheredFindsItself(particles: seq<Particle>, scale: real, size: IVec3, r: int, i: nat)
    requires scale != 0.0 && Positive(size)
    requires i < |particles| && r >= 0
    ensures i in Gathered(IndexCube(particles, scale, size), size, GridPosition(scale, particles[i].pos), r)
  {
    GatheredComplete(particles, scale, size, GridPosition(scale, particles[i].pos), r, i);
  }

  /** Only indices of particles are gathered. */
  lemma GatheredInRange(particles: seq<Particle>, scale: real, size: IVec3, g: IVec3, r: int)
    requires scale != 0.0 && Positive(size)
    ensures forall k :: 0 <= k < |Gathered(IndexCube(particles, scale, size), size, g, r)| ==>
              Gathered(IndexCube(particles, scale, size), size, g, r)[k] < |particles|
  {
    var s := Gathered(IndexCube(particles, scale, size), size, g, r);
    forall k | 0 <= k < |s| ensures s[k] < |particles| {
      GatheredMember(particles, scale, size, g, r, s[k]);
    }
  }

  /** No bucket of the index holds an index twice. */
  lemma BucketDistinct(particles: seq<Particle>, scale: real, size: IVec3, p: IVec3)
    requires scale != 0.0 && Positive(size)
    ensures Distinct(Buckets(IndexCube(particles, scale, size), size)(p))
  {
    IndexCubeAscending(particles, scale, size, Loc(size, p));
  }

  /** Two cells of a box no wider than the grid never hold the same index. */
  lemma BucketsDisjoint(particles: seq<Particle>, scale: real, size: IVec3, lo: IVec3, w: nat,
                        p: IVec3, q: IVec3, t: nat)
    requires scale != 0.0 && Positive(size) && w <= size.x && w <= size.y && w <= size.z
    requires InBox(p, lo, w) && InBox(q, lo, w) && p != q
    requires t in Buckets(IndexCube(particles, scale, size), size)(p)
    ensures t !in Buckets(IndexCube(particles, scale, size), size)(q)
  {
    IndexCubeMember(particles, scale, size, Loc(size, p), t);
    IndexCubeMember(particles, scale, size, Loc(size, q), t);
    if Loc(size, p) == Loc(size, q) {
      LocInjective(size, lo, w, p, q);
    }
  }

  /** When the grid is at least `2 r + 1` cells wide, the visited cells wrap onto pairwise
      distinct buckets, so no index is gathered twice. */
  lemma GatheredDistinct(particles: seq<Particle>, scale: real, size: IVec3, g: IVec3, r: int)
    requires scale != 0.0 && Positive(size)
    requires Width(r) <= size.x && Width(r) <= size.y && Width(r) <= size.z
    ensures Distinct(Gathered(IndexCube(particles, scale, size), size, g, r))
  {
    var lo, w, cell := Corner(g, r), Width(r), Buckets(IndexCube(particles, scale, size), size);
    forall p: IVec3 | InBox(p, lo, w) ensures Distinct(cell(p)) {
      BucketDistinct(particles, scale, size, p);
    }
    forall p: IVec3, q: IVec3, t: nat | InBox(p, lo, w) && InBox(q, lo, w) && p != q && t in cell(p)
      ensures t !in cell(q)
    {
      BucketsDisjoint(particles, scale, size, lo, w, p, q, t);
    }
    assert DisjointCells(lo, w, cell);
    BlockDistinct(lo, w, cell);
  }

  /** `neighbourhood` visits the `(2 r + 1)^3` cells of the box around `g`, and returns as
      many indices as the buckets of those cells hold together. */
  lemma GatheredSize(cube: Cube<nat>, size: IVec3, g: IVec3, r: int)
    ensures |Points(Corner(g, r), Width(r))| == Width(r) * Width(r) * Width(r)
    ensures |Gathered(cube, size, g, r)| as real == Sum(Points(Corner(g, r), Width(r)), Sizes(Buckets(cube, size)))
  {
    PointsCount(Corner(g, r), Width(r));
    BlockSizes(Corner(g, r), Width(r), Buckets(cube, size));
  }

  /** Positions less than `scale` apart on every axis have grid positions at most one
      cell apart on every axis. */
  lemma GridPositionNear(scale: real, a: Vec3, b: Vec3)
    requires scale > 0.0
    requires -scale < a.x - b.x < scale && -scale < a.y - b.y < scale && -scale < a.z - b.z < scale
    ensures var p, q := GridPosition(scale, a), GridPosition(scale, b);
            -1 <= p.x - q.x <= 1 && -1 <= p.y - q.y <= 1 && -1 <= p.z - q.z <= 1
  {
    ScaledClose(a.x, b.x, scale);
    ScaledClose(a.y, b.y, scale);
    ScaledClose(a.z, b.z, scale);
    TruncNear(a.x / scale, b.x / scale);
    TruncNear(a.y / scale, b.y / scale);
    TruncNear(a.z / scale, b.z / scale);
  }

  /** A query whose reach is the cell size reaches one cell. */
  lemma UnitRadius(scale: real)
    requires scale > 0.0
    ensures GridRadius(scale, scale) == 1
  {
    assert scale / scale == 1.0;
  }

  /** A query whose reach is one cell size gathers every particle less than a cell size
      away from the queried position on every axis. */
  lemma QueryComplete(particles: seq<Particle>, scale: real, size: IVec3, pos: Vec3, i: nat)
    requires scale > 0.0 && Positive(size) && i < |particles|
    requires var xj := particles[i].pos;
             -scale < xj.x - pos.x < scale && -scale < xj.y - pos.y < scale && -scale < xj.z - pos.z < scale
    ensures i in Gathered(IndexCube(particles, scale, size), size, GridPosition(scale, pos), GridRadius(scale, scale))
  {
    GridPositionNear(scale, particles[i].pos, pos);
    UnitRadius(scale);
    GatheredComplete(particles, scale, size, GridPosition(scale, pos), 1, i);
  }

  /** `Index`: the particle indices filed by grid cell, and the cell size. */
  class Index {
    var grid: ModCube<nat>
    var gridScale: real

    ghost predicate Valid()
      reads this, grid
    {
      grid.Valid() && Positive(grid.size) && gridScale != 0.0
    }

    /** `Index::new`: a `grid_size`-cubed grid, with each particle's index pushed onto the
        bucket of its grid position, in particle order. */
    constructor (particles: seq<Particle>, gridScale: real, gridSize: nat)
      requires gridScale != 0.0 && gridSize > 0
      ensures Valid() && fresh(grid)
      ensures this.gridScale == gridScale && grid.size == Cubed(gridSize)
      ensures grid.cube == IndexCube(particles, gridScale, Cubed(gridSize))
    {
      var size := Cubed(gridSize);
      grid := new ModCube<nat>(size);
      this.gridScale := gridScale;
      new;
      ghost var cells := CellsOf(particles, gridScale, size);
      var i := 0;
      while i < |particles|
        invariant 0 <= i <= |particles|
        invariant grid.Valid() && grid.size == size
        invariant grid.cube == Filed(cells[..i], size)
        modifies grid
      {
        FiledNext(cells, size, i);
        grid.Push(GridPosition(gridScale, particles[i].pos), i);
        i := i + 1;
      }
      assert cells[..i] == cells;
    }

    /** `Index::neighbourhood`: the buckets of every cell within
        `ceil(radius / grid_scale)` of the grid position of `pos`, appended in `x`, `y`,
        `z` loop order. The index is not changed. */
    method Neighbourhood(pos: Vec3, radius: real) returns (nb: Neighbourhood)
      requires Valid()
      ensures nb.indices == Gathered(grid.cube, grid.size, GridPosition(gridScale, pos), GridRadius(radius, gridScale))
    {
      var g := GridPosition(gridScale, pos);
      var r := GridRadius(radius, gridScale);
      var indices := grid.GatherBox(Corner(g, r), Width(r));
      nb := Indices(indices);
    }
  }
}
