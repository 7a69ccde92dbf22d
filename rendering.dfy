/** The rendering program's initial layout: `cube_in_box` places one particle of mass 1
    on some points of the integer lattice `[-extend, extend]^3` (the layers `z < 0`
    everywhere, and above them the interior column `|x|, |y| < extend`), with the
    lattice `z` as the second, upward, coordinate of the position. */
module Rendering {
  import opened Vectors
  import opened Sums
  import opened Lattice
  import opened Sph

  /** The lattice point gets a particle: it is below the middle plane, or inside the
      side walls. */
  predicate Emitted(extend: int, p: IVec3) {
    p.z < 0 || (Abs(p.x) < extend && Abs(p.y) < extend)
  }

  /** The particle at the lattice point can move: inside the side walls and above the
      bottom. */
  predicate Movable(extend: int, p: IVec3) {
    Abs(p.x) < extend && Abs(p.y) < extend && p.z > -extend
  }

  /** The particle placed at a lattice point: at `(x, z, y)`, of mass 1. */
  function Placed(extend: int, p: IVec3): Particle {
    Particle.New(Vec3(p.x as real, p.z as real, p.y as real), 1.0, Movable(extend, p))
  }

  /** What the innermost loop's body pushes at a lattice point. */
  function Cell(extend: int): IVec3 -> seq<Particle> {
    p => if Emitted(extend, p) then [Placed(extend, p)] else []
  }

  /** The particles `cube_in_box(extend)` returns, in `x`, `y`, `z` loop order. */
  function Layout(extend: int): seq<Particle> {
    Block(Corner(Origin, extend), Width(extend), Cell(extend))
  }

  /** `cube_in_box`: three nested loops over `-extend..=extend` pushing the particle of
      each emitted point; the outer loop here, one plane of `x` at a time. */
  method CubeInBox(extend: int) returns (particles: seq<Particle>)
    ensures particles == Layout(extend)
  {
    ghost var lo, w := Corner(Origin, extend), Width(extend);
    ghost var planes := Plane(lo, w, Cell(extend));
    particles := [];
    var x := -extend;
    ghost var i: nat := 0;
    while x <= extend
      invariant x == lo.x + i && i <= w
      invariant particles == Span(lo.x, i, planes)
    {
      var plane := PlaneAt(extend, x);
      SpanNext(lo.x, i, planes, x);
      particles := particles + plane;
      x, i := x + 1, i + 1;
    }
  }

  /** The middle loop of `cube_in_box`, over `y` in plane `x`. */
  method PlaneAt(extend: int, x: int) returns (plane: seq<Particle>)
    ensures plane == Plane(Corner(Origin, extend), Width(extend), Cell(extend))(x)
  {
    ghost var lo, w := Corner(Origin, extend), Width(extend);
    ghost var rows := Row(lo, w, x, Cell(extend));
    plane := [];
    var y := -extend;
    ghost var j: nat := 0;
    while y <= extend
      invariant y == lo.y + j && j <= w
      invariant plane == Span(lo.y, j, rows)
    {
      var row := RowAt(extend, x, y);
      SpanNext(lo.y, j, rows, y);
      plane := plane + row;
      y, j := y + 1, j + 1;
    }
  }

  /** The inner loop of `cube_in_box`, over `z` in row `y` of plane `x`. */
  method RowAt(extend: int, x: int, y: int) returns (row: seq<Particle>)
    ensures row == Row(Corner(Origin, extend), Width(extend), x, Cell(extend))(y)
  {
    ghost var lo, w := Corner(Origin, extend), Width(extend);
    ghost var line := Line(x, y, Cell(extend));
    row := [];
    var z := -extend;
    ghost var k: nat := 0;
    while z <= extend
      invariant z == lo.z + k && k <= w
      invariant row == Span(lo.z, k, line)
    {
      SpanNext(lo.z, k, line, z);
      ghost var point := IVec3(x, y, z);
      assert line(z) == if Emitted(extend, point) then [Placed(extend, point)] else [];
      if z < 0 || (Abs(x) < extend && Abs(y) < extend) {
        var movable := Abs(x) < extend && Abs(y) < extend && z > -extend;
        var particle := Particle.New(Vec3(x as real, z as real, y as real), 1.0, movable);
        assert particle == Placed(extend, point);
        row := row + [particle];
      }
      z, k := z + 1, k + 1;
    }
  }

  /** Distinct lattice points give particles at distinct positions. */
  lemma PlacedInjective(extend: int, p: IVec3, q: IVec3)
    ensures Placed(extend, p).pos == Placed(extend, q).pos ==> p == q
  {
  }

  /** A point of the box gets a particle exactly when it is emitted, and every movable
      point gets a movable particle. */
  lemma LayoutHas(extend: int, p: IVec3)
    requires InBox(p, Corner(Origin, extend), Width(extend))
    ensures Placed(extend, p) in Layout(extend) <==> Emitted(extend, p)
    ensures Movable(extend, p) ==> Placed(extend, p) in Layout(extend) && Placed(extend, p).movable
  {
    var lo, w, cell := Corner(Origin, extend), Width(extend), Cell(extend);
    BlockMember(lo, w, cell, Placed(extend, p));
    if Placed(extend, p) in Layout(extend) {
      var q: IVec3 :| InBox(q, lo, w) && Placed(extend, p) in cell(q);
      PlacedInjective(extend, p, q);
    }
    if Movable(extend, p) {
      assert Placed(extend, p) in cell(p);
    }
  }

  /** Every particle of the layout is the particle of an emitted point of the box: of
      mass 1, at rest, and movable exactly when its point is. */
  lemma Source(extend: int, t: Particle) returns (p: IVec3)
    requires t in Layout(extend)
    ensures InBox(p, Corner(Origin, extend), Width(extend)) && Emitted(extend, p) && t == Placed(extend, p)
    ensures t.mass == 1.0 && t.velocity == Zero && (t.movable <==> Movable(extend, p))
  {
    var lo, w, cell := Corner(Origin, extend), Width(extend), Cell(extend);
    BlockMember(lo, w, cell, t);
    p :| InBox(p, lo, w) && t in cell(p);
  }

  /** No two particles of the layout share a position. */
  lemma LayoutPositionsDistinct(extend: int)
    ensures forall i, j :: 0 <= i < j < |Layout(extend)| ==> Layout(extend)[i].pos != Layout(extend)[j].pos
  {
    var lo, w, cell, layout := Corner(Origin, extend), Width(extend), Cell(extend), Layout(extend);
    forall p: IVec3, q: IVec3, t | InBox(p, lo, w) && InBox(q, lo, w) && p != q && t in cell(p)
      ensures t !in cell(q)
    {
      PlacedInjective(extend, p, q);
    }
    BlockDistinct(lo, w, cell);
    forall i, j | 0 <= i < j < |layout| ensures layout[i].pos != layout[j].pos {
      var p := Source(extend, layout[i]);
      var q := Source(extend, layout[j]);
      PlacedInjective(extend, p, q);
    }
  }

  /** A row of `z` values inside the walls holds all `2 e + 1` points. */
  lemma RowInside(e: int, x: int, y: int)
    requires e >= 1 && Abs(x) < e && Abs(y) < e
    ensures |Span(-e, 2 * e + 1, Line(x, y, Cell(e)))| == 2 * e + 1
  {
    var line := Line(x, y, Cell(e));
    forall z | -e <= z < -e + (2 * e + 1) ensures |line(z)| == 1 {
      assert Emitted(e, IVec3(x, y, z));
    }
    SpanLength(-e, 2 * e + 1, line, 1);
  }

  /** A row of `z` values on a wall holds only the `e` points below the middle plane. */
  lemma RowWall(e: int, x: int, y: int)
    requires e >= 1 && !(Abs(x) < e && Abs(y) < e)
    ensures |Span(-e, 2 * e + 1, Line(x, y, Cell(e)))| == e
  {
    var line := Line(x, y, Cell(e));
    forall z | -e <= z < -e + e ensures |line(z)| == 1 {
      assert Emitted(e, IVec3(x, y, z));
    }
    forall z | -e + e <= z < -e + e + (e + 1) ensures |line(z)| == 0 {
      assert !Emitted(e, IVec3(x, y, z));
    }
    SpanCountSplit(-e, 2 * e + 1, e, e + 1, line, 1, 0);
  }

  /** The number of particles of row `y` of plane `x`. */
  lemma RowCount(e: int, x: int, y: int)
    requires e >= 1
    ensures |Row(Corner(Origin, e), Width(e), x, Cell(e))(y)| == if Abs(x) < e && Abs(y) < e then 2 * e + 1 else e
  {
    assert Row(Corner(Origin, e), Width(e), x, Cell(e))(y) == Span(-e, 2 * e + 1, Line(x, y, Cell(e)));
    if Abs(x) < e && Abs(y) < e {
      RowInside(e, x, y);
    } else {
      RowWall(e, x, y);
    }
  }

  /** A plane of `x` inside the walls holds `2 e - 1` full rows and two rows of `e`. */
  lemma PlaneInside(e: int, x: int)
    requires e >= 1 && Abs(x) < e
    ensures |Span(-e, 2 * e + 1, Row(Corner(Origin, e), Width(e), x, Cell(e)))| == 2 * e + (2 * e - 1) * (2 * e + 1)
  {
    var rows := Row(Corner(Origin, e), Width(e), x, Cell(e));
    RowCount(e, x, -e);
    RowCount(e, x, e);
    forall y | -e + 1 <= y < -e + (2 * e + 1) - 1 ensures |rows(y)| == 2 * e + 1 {
      RowCount(e, x, y);
    }
    SpanCountEnds(-e, 2 * e + 1, rows, e, 2 * e + 1);
  }

  /** A plane of `x` on a wall holds `2 e + 1` rows of `e`. */
  lemma PlaneWall(e: int, x: int)
    requires e >= 1 && Abs(x) >= e
    ensures |Span(-e, 2 * e + 1, Row(Corner(Origin, e), Width(e), x, Cell(e)))| == (2 * e + 1) * e
  {
    var rows := Row(Corner(Origin, e), Width(e), x, Cell(e));
    forall y | -e <= y < -e + (2 * e + 1) ensures |rows(y)| == e {
      RowCount(e, x, y);
    }
    SpanLength(-e, 2 * e + 1, rows, e);
  }

  /** The number of particles of plane `x`. */
  lemma PlaneCount(e: int, x: int)
    requires e >= 1
    ensures |Plane(Corner(Origin, e), Width(e), Cell(e))(x)| ==
            if Abs(x) < e then 2 * e + (2 * e - 1) * (2 * e + 1) else (2 * e + 1) * e
  {
    assert Plane(Corner(Origin, e), Width(e), Cell(e))(x) == Span(-e, 2 * e + 1, Row(Corner(Origin, e), Width(e), x, Cell(e)));
    if Abs(x) < e {
      PlaneInside(e, x);
    } else {
      PlaneWall(e, x);
    }
  }

  /** The two wall planes and the `2 e - 1` planes between them. */
  lemma PlanesCount(e: int)
    requires e >= 1
    ensures |Span(-e, 2 * e + 1, Plane(Corner(Origin, e), Width(e), Cell(e)))|
            == 2 * ((2 * e + 1) * e) + (2 * e + 1 - 2) * (2 * e + (2 * e - 1) * (2 * e + 1))
  {
    var planes := Plane(Corner(Origin, e), Width(e), Cell(e));
    var inner := 2 * e + (2 * e - 1) * (2 * e + 1);
    PlaneCount(e, -e);
    PlaneCount(e, e);
    InnerPlanesCount(e);
    SpanCountEnds(-e, 2 * e + 1, planes, (2 * e + 1) * e, inner);
  }

  lemma InnerPlanesCount(e: int)
    requires e >= 1
    ensures forall x :: -e + 1 <= x < -e + (2 * e + 1) - 1 ==>
              |Plane(Corner(Origin, e), Width(e), Cell(e))(x)| == 2 * e + (2 * e - 1) * (2 * e + 1)
  {
    forall x | -e + 1 <= x < -e + (2 * e + 1) - 1
      ensures |Plane(Corner(Origin, e), Width(e), Cell(e))(x)| == 2 * e + (2 * e - 1) * (2 * e + 1)
    {
      PlaneCount(e, x);
    }
  }

  /** For `extend >= 1`: `e` full layers of `(2 e + 1)^2` below the middle plane and
      `e + 1` layers of the `(2 e - 1)^2` interior column from it up. */
  lemma LayoutCount(extend: int)
    requires extend >= 1
    ensures |Layout(extend)| == extend * (2 * extend + 1) * (2 * extend + 1)
                                + (extend + 1) * (2 * extend - 1) * (2 * extend - 1)
  {
    assert Layout(extend) == Span(-extend, 2 * extend + 1, Plane(Corner(Origin, extend), Width(extend), Cell(extend)));
    PlanesCount(extend);
    CountIdentity(extend);
  }

  lemma CountIdentity(e: int)
    ensures 2 * ((2 * e + 1) * e) + (2 * e + 1 - 2) * (2 * e + (2 * e - 1) * (2 * e + 1))
            == e * (2 * e + 1) * (2 * e + 1) + (e + 1) * (2 * e - 1) * (2 * e - 1)
  {
  }
}
