/** The example program's initial layout and its progress measure: `cube_in_box` places
    one particle of mass 1 on some points of the integer lattice `[-extend, extend]^3`
    (the floor layers `z < 0` everywhere, and above them a column held away from the
    walls); `avg_movable_pos` is the mean position of the particles that can move. */
module Playground {
  import opened Vectors
  import opened Sums
  import opened Lattice
  import opened Sph

  // ---------------------------------------------------------------------------
  // cube_in_box

  /** The lattice point gets a particle: it is below the middle plane, or at least two
      steps inside the side walls. */
  predicate Emitted(extend: int, p: IVec3) {
    p.z < 0 || (Abs(p.x) + 1 < extend && Abs(p.y) + 1 < extend)
  }

  /** The particle at the lattice point can move: two steps inside the side walls and
      two steps above the bottom. */
  predicate Movable(extend: int, p: IVec3) {
    Abs(p.x) + 1 < extend && Abs(p.y) + 1 < extend && p.z - 1 > -extend
  }

  /** The particle placed at a lattice point: at `(x, y, z)`, of mass 1. */
  function Placed(extend: int, p: IVec3): Particle {
    Particle.New(Vec3(p.x as real, p.y as real, p.z as real), 1.0, Movable(extend, p))
  }

  /** What the innermost loop's body pushes at a lattice point. */
  function Cell(extend: int): IVec3 -> seq<Particle> {
    p => if Emitted(extend, p) then [Placed(extend, p)] else []
  }

  /** The particles `cube_in_box(extend)` returns, in `x`, `y`, `z` loop order. */
  function Layout(extend: int): seq<Particle> {
    Block(Corner(Origin, extend), Width(extend), Cell(extend))
  }

  /** `cube_in_box`: three nested loops over `-extend..=extend` pushing the particle of
      each emitted point; the outer loop here, one plane of `x` at a time. */
  method CubeInBox(extend: int) returns (particles: seq<Particle>)
    ensures particles == Layout(extend)
  {
    ghost var lo, w := Corner(Origin, extend), Width(extend);
    ghost var planes := Plane(lo, w, Cell(extend));
    particles := [];
    var x := -extend;
    ghost var i: nat := 0;
    while x <= extend
      invariant x == lo.x + i && i <= w
      invariant particles == Span(lo.x, i, planes)
    {
      var plane := PlaneAt(extend, x);
      SpanNext(lo.x, i, planes, x);
      particles := particles + plane;
      x, i := x + 1, i + 1;
    }
  }

  /** The middle loop of `cube_in_box`, over `y` in plane `x`. */
  method PlaneAt(extend: int, x: int) returns (plane: seq<Particle>)
    ensures plane == Plane(Corner(Origin, extend), Width(extend), Cell(extend))(x)
  {
    ghost var lo, w := Corner(Origin, extend), Width(extend);
    ghost var rows := Row(lo, w, x, Cell(extend));
    plane := [];
    var y := -extend;
    ghost var j: nat := 0;
    while y <= extend
      invariant y == lo.y + j && j <= w
      invariant plane == Span(lo.y, j, rows)
    {
      var row := RowAt(extend, x, y);
      SpanNext(lo.y, j, rows, y);
      plane := plane + row;
      y, j := y + 1, j + 1;
    }
  }

  /** The inner loop of `cube_in_box`, over `z` in row `y` of plane `x`: the particle
      of each emitted point, movable or not. */
  method RowAt(extend: int, x: int, y: int) returns (row: seq<Particle>)
    ensures row == Row(Corner(Origin, extend), Width(extend), x, Cell(extend))(y)
  {
    ghost var lo, w := Corner(Origin, extend), Width(extend);
    ghost var line := Line(x, y, Cell(extend));
    row := [];
    var z := -extend;
    ghost var k: nat := 0;
    while z <= extend
      invariant z == lo.z + k && k <= w
      invariant row == Span(lo.z, k, line)
    {
      SpanNext(lo.z, k, line, z);
      ghost var point := IVec3(x, y, z);
      assert line(z) == if Emitted(extend, point) then [Placed(extend, point)] else [];
      if z < 0 || (Abs(x) + 1 < extend && Abs(y) + 1 < extend) {
        var movable := Abs(x) + 1 < extend && Abs(y) + 1 < extend && z - 1 > -extend;
        var particle := Particle.New(Vec3(x as real, y as real, z as real), 1.0, movable);
        assert particle == Placed(extend, point);
        row := row + [particle];
      }
      z, k := z + 1, k + 1;
    }
  }

  /** Distinct lattice points give particles at distinct positions. */
  lemma PlacedInjective(extend: int, p: IVec3, q: IVec3)
    ensures Placed(extend, p).pos == Placed(extend, q).pos ==> p == q
  {
  }

  /** A point of the box gets a particle exactly when it is emitted, and every movable
      point gets a movable particle. */
  lemma LayoutHas(extend: int, p: IVec3)
    requires InBox(p, Corner(Origin, extend), Width(extend))
    ensures Placed(extend, p) in Layout(extend) <==> Emitted(extend, p)
    ensures Movable(extend, p) ==> Placed(extend, p) in Layout(extend) && Placed(extend, p).movable
  {
    var lo, w, cell := Corner(Origin, extend), Width(extend), Cell(extend);
    BlockMember(lo, w, cell, Placed(extend, p));
    if Placed(extend, p) in Layout(extend) {
      var q: IVec3 :| InBox(q, lo, w) && Placed(extend, p) in cell(q);
      PlacedInjective(extend, p, q);
    }
    if Movable(extend, p) {
      assert Placed(extend, p) in cell(p);
    }
  }

  /** Every particle of the layout is the particle of an emitted point of the box: of
      mass 1, at rest, and movable exactly when its point is. */
  lemma Source(extend: int, t: Particle) returns (p: IVec3)
    requires t in Layout(extend)
    ensures InBox(p, Corner(Origin, extend), Width(extend)) && Emitted(extend, p) && t == Placed(extend, p)
    ensures t.mass == 1.0 && t.velocity == Zero && (t.movable <==> Movable(extend, p))
  {
    var lo, w, cell := Corner(Origin, extend), Width(extend), Cell(extend);
    BlockMember(lo, w, cell, t);
    p :| InBox(p, lo, w) && t in cell(p);
  }

  /** No two particles of the layout share a position. */
  lemma LayoutPositionsDistinct(extend: int)
    ensures forall i, j :: 0 <= i < j < |Layout(extend)| ==> Layout(extend)[i].pos != Layout(extend)[j].pos
  {
    var lo, w, cell, layout := Corner(Origin, extend), Width(extend), Cell(extend), Layout(extend);
    forall p: IVec3, q: IVec3, t | InBox(p, lo, w) && InBox(q, lo, w) && p != q && t in cell(p)
      ensures t !in cell(q)
    {
      PlacedInjective(extend, p, q);
    }
    BlockDistinct(lo, w, cell);
    forall i, j | 0 <= i < j < |layout| ensures layout[i].pos != layout[j].pos {
      var p := Source(extend, layout[i]);
      var q := Source(extend, layout[j]);
      PlacedInjective(extend, p, q);
    }
  }

  // ---------------------------------------------------------------------------
  // avg_movable_pos

  /** The positions of the movable particles, in order (`filter`, then `map`). */
  function MovablePositions(ps: seq<Particle>): (r: seq<Vec3>)
    ensures |r| <= |ps|
  {
    if |ps| == 0 then []
    else MovablePositions(ps[..|ps| - 1]) + (if ps[|ps| - 1].movable then [ps[|ps| - 1].pos] else [])
  }

  function Identity(v: Vec3): Vec3 { v }

  /** `avg_movable_pos`: the sum of the movable positions divided by their number;
      `None` where the source divides the zero vector by zero (no particle is
      movable). */
  function AvgMovablePos(ps: seq<Particle>): (r: Option<Vec3>)
  {
    var positions := MovablePositions(ps);
    if |positions| == 0 then None else Some(Div(VSum(positions, Identity), |positions| as real))
  }

  /** Filtering distributes over concatenation. */
  lemma {:induction false} MovablePositionsAppend(a: seq<Particle>, b: seq<Particle>)
    ensures MovablePositions(a + b) == MovablePositions(a) + MovablePositions(b)
  {
    if |b| > 0 {
      var b' := b[..|b| - 1];
      assert (a + b)[..|a + b| - 1] == a + b';
      MovablePositionsAppend(a, b');
    } else {
      assert a + b == a;
    }
  }

  /** A position is kept exactly when some movable particle is there. */
  lemma {:induction false} MovablePositionsMember(ps: seq<Particle>, v: Vec3)
    ensures v in MovablePositions(ps) <==> exists i :: 0 <= i < |ps| && ps[i].movable && ps[i].pos == v
  {
    if |ps| > 0 {
      var n := |ps| - 1;
      MovablePositionsMember(ps[..n], v);
      if exists i :: 0 <= i < |ps| && ps[i].movable && ps[i].pos == v {
        var i :| 0 <= i < |ps| && ps[i].movable && ps[i].pos == v;
        if i < n {
          assert ps[..n][i] == ps[i];
        }
      }
      if exists i :: 0 <= i < n && ps[..n][i].movable && ps[..n][i].pos == v {
        var i :| 0 <= i < n && ps[..n][i].movable && ps[..n][i].pos == v;
        assert ps[i] == ps[..n][i];
      }
    }
  }

  /** There is an average exactly when some particle is movable. */
  lemma {:induction false} AvgDefined(ps: seq<Particle>)
    ensures AvgMovablePos(ps).Some? <==> exists i :: 0 <= i < |ps| && ps[i].movable
  {
    var positions := MovablePositions(ps);
    if exists i :: 0 <= i < |ps| && ps[i].movable {
      var i :| 0 <= i < |ps| && ps[i].movable;
      MovablePositionsMember(ps, ps[i].pos);
    }
    if |positions| > 0 {
      MovablePositionsMember(ps, positions[0]);
    }
  }

  /** The average times the number of movable particles is the sum of their
      positions. */
  lemma AvgIsMean(ps: seq<Particle>)
    requires AvgMovablePos(ps).Some?
    ensures var positions := MovablePositions(ps);
            Scale(|positions| as real, AvgMovablePos(ps).value) == VSum(positions, Identity)
  {
    var positions := MovablePositions(ps);
    ScaleDiv(VSum(positions, Identity), |positions| as real);
  }

  /** Particles that cannot move do not affect the average, wherever they stand. */
  lemma AvgIgnoresStatic(a: seq<Particle>, p: Particle, b: seq<Particle>)
    requires !p.movable
    ensures AvgMovablePos(a + [p] + b) == AvgMovablePos(a + b)
  {
    MovablePositionsAppend(a + [p], b);
    MovablePositionsAppend(a, [p]);
    MovablePositionsAppend(a, b);
    assert [p][..0] == [];
    assert MovablePositions([p]) == [];
    assert MovablePositions(a + [p]) == MovablePositions(a);
  }
}
