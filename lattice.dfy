/** Integer lattice points (`I64Vec3`, `i32` triples) and the cubic boxes of them that
    three nested `for x { for y { for z { .. } } }` loops walk, with what is gathered at
    each point concatenated in loop order. The neighbourhood query and both
    `cube_in_box` generators are such loops. */
module Lattice {
  import opened Sums

  datatype IVec3 = IVec3(x: int, y: int, z: int)

  /** `p` lies in the box of side `w` whose lowest corner is `lo`. */
  predicate InBox(p: IVec3, lo: IVec3, w: nat) {
    lo.x <= p.x < lo.x + w && lo.y <= p.y < lo.y + w && lo.z <= p.z < lo.z + w
  }

  /** `i32::abs`, without the overflow at the least `i32`. */
  function Abs(n: int): nat { if n < 0 then -n else n }

  /** The number of values in the inclusive range `g - r ..= g + r`: `2 r + 1`, or none
      when `r` is negative. */
  function Width(r: int): nat {
    if r >= 0 then 2 * r + 1 else 0
  }

  /** The lowest corner of the box `[g - r, g + r]^3`. */
  function Corner(g: IVec3, r: int): IVec3 {
    IVec3(g.x - r, g.y - r, g.z - r)
  }

  const Origin := IVec3(0, 0, 0)

  /** What one loop over `a, a + 1, .., a + n - 1` gathers: `f` of each value,
      concatenated in order. */
  function Span<T>(a: int, n: nat, f: int -> seq<T>): seq<T> {
    if n == 0 then [] else Span(a, n - 1, f) + f(a + n - 1)
  }

  /** The innermost loop's body at `(x, y)`: the cell at `z`. */
  function Line<T>(x: int, y: int, cell: IVec3 -> seq<T>): int -> seq<T> {
    z => cell(IVec3(x, y, z))
  }

  /** The middle loop's body in plane `x`: the `w` cells of row `y`. */
  function Row<T>(lo: IVec3, w: nat, x: int, cell: IVec3 -> seq<T>): int -> seq<T> {
    y => Span(lo.z, w, Line(x, y, cell))
  }

  /** The outer loop's body: the `w` rows of plane `x`. */
  function Plane<T>(lo: IVec3, w: nat, cell: IVec3 -> seq<T>): int -> seq<T> {
    x => Span(lo.y, w, Row(lo, w, x, cell))
  }

  /** The whole box of side `w` at `lo`, in `x`-major, then `y`, then `z` order. */
  function Block<T>(lo: IVec3, w: nat, cell: IVec3 -> seq<T>): seq<T> {
    Span(lo.x, w, Plane(lo, w, cell))
  }

  /** One more step of a loop appends the next value's part. */
  lemma SpanNext<T>(a: int, n: nat, f: int -> seq<T>, i: int)
    requires i == a + n
    ensures Span(a, n + 1, f) == Span(a, n, f) + f(i)
  {
  }

  lemma {:induction false} SpanHas<T>(a: int, n: nat, f: int -> seq<T>, i: int, t: T)
    requires a <= i < a + n && t in f(i)
    ensures t in Span(a, n, f)
  {
    var last := a + n - 1;
    var before := Span(a, n - 1, f);
    assert Span(a, n, f) == before + f(last);
    if i < last {
      SpanHas(a, n - 1, f, i, t);
    }
  }

  lemma {:induction false} SpanFrom<T>(a: int, n: nat, f: int -> seq<T>, t: T) returns (i: int)
    requires t in Span(a, n, f)
    ensures a <= i < a + n && t in f(i)
  {
    var last := a + n - 1;
    var before := Span(a, n - 1, f);
    assert Span(a, n, f) == before + f(last);
    if t in before {
      i := SpanFrom(a, n - 1, f, t);
    } else {
      i := last;
    }
  }

  /** An element is gathered by a loop exactly when some step contributes it. */
  lemma SpanMember<T>(a: int, n: nat, f: int -> seq<T>, t: T)
    ensures t in Span(a, n, f) <==> exists i :: a <= i < a + n && t in f(i)
  {
    if t in Span(a, n, f) {
      var i := SpanFrom(a, n, f, t);
    }
    if exists i :: a <= i < a + n && t in f(i) {
      var i :| a <= i < a + n && t in f(i);
      SpanHas(a, n, f, i, t);
    }
  }

  lemma DistinctAppend<T>(a: seq<T>, b: seq<T>)
    requires Distinct(a) && Distinct(b)
    requires forall t :: t in a ==> t !in b
    ensures Distinct(a + b)
  {
    forall i, j | 0 <= i < j < |a + b| ensures (a + b)[i] != (a + b)[j] {
      if i < |a| && |a| <= j {
        assert (a + b)[i] in a && (a + b)[j] == b[j - |a|];
      }
    }
  }

  /** The steps of a loop contribute duplicate-free parts no two of which share an
      element. */
  ghost predicate DisjointParts<T>(a: int, n: nat, f: int -> seq<T>) {
    && (forall i :: a <= i < a + n ==> Distinct(f(i)))
    && (forall i, j, t :: a <= i < a + n && a <= j < a + n && i != j && t in f(i) ==> t !in f(j))
  }

  lemma {:induction false} SpanDistinct<T>(a: int, n: nat, f: int -> seq<T>)
    requires DisjointParts(a, n, f)
    ensures Distinct(Span(a, n, f))
  {
    if n > 0 {
      var last := a + n - 1;
      var before := Span(a, n - 1, f);
      assert Span(a, n, f) == before + f(last);
      assert DisjointParts(a, n - 1, f);
      SpanDistinct(a, n - 1, f);
      forall t | t in before ensures t !in f(last) {
        var i := SpanFrom(a, n - 1, f, t);
      }
      DistinctAppend(before, f(last));
    }
  }

  /** A point of the box that holds `t`, when plane `x` gathers it. */
  lemma PlaneFrom<T>(lo: IVec3, w: nat, cell: IVec3 -> seq<T>, x: int, t: T) returns (p: IVec3)
    requires t in Plane(lo, w, cell)(x)
    ensures p.x == x && lo.y <= p.y < lo.y + w && lo.z <= p.z < lo.z + w && t in cell(p)
  {
    var y := SpanFrom(lo.y, w, Row(lo, w, x, cell), t);
    var z := SpanFrom(lo.z, w, Line(x, y, cell), t);
    p := IVec3(x, y, z);
  }

  /** An element is gathered exactly when some point of the box holds it. */
  lemma BlockMember<T>(lo: IVec3, w: nat, cell: IVec3 -> seq<T>, t: T)
    ensures t in Block(lo, w, cell) <==> exists p: IVec3 :: InBox(p, lo, w) && t in cell(p)
  {
    if t in Block(lo, w, cell) {
      var x := SpanFrom(lo.x, w, Plane(lo, w, cell), t);
      var p := PlaneFrom(lo, w, cell, x, t);
      assert InBox(p, lo, w);
    }
    if exists p: IVec3 :: InBox(p, lo, w) && t in cell(p) {
      var p: IVec3 :| InBox(p, lo, w) && t in cell(p);
      SpanHas(lo.z, w, Line(p.x, p.y, cell), p.z, t);
      SpanHas(lo.y, w, Row(lo, w, p.x, cell), p.y, t);
      SpanHas(lo.x, w, Plane(lo, w, cell), p.x, t);
    }
  }

  /** Points of the box never share an element, and none holds one twice. */
  ghost predicate DisjointCells<T>(lo: IVec3, w: nat, cell: IVec3 -> seq<T>) {
    && (forall p: IVec3 :: InBox(p, lo, w) ==> Distinct(cell(p)))
    && (forall p: IVec3, q: IVec3, t :: InBox(p, lo, w) && InBox(q, lo, w) && p != q && t in cell(p) ==> t !in cell(q))
  }

  lemma RowDistinct<T>(lo: IVec3, w: nat, cell: IVec3 -> seq<T>, x: int, y: int)
    requires DisjointCells(lo, w, cell)
    requires lo.x <= x < lo.x + w && lo.y <= y < lo.y + w
    ensures Distinct(Row(lo, w, x, cell)(y))
  {
    var f := Line(x, y, cell);
    forall z | lo.z <= z < lo.z + w ensures Distinct(f(z)) {
      assert InBox(IVec3(x, y, z), lo, w);
    }
    forall z1, z2, t | lo.z <= z1 < lo.z + w && lo.z <= z2 < lo.z + w && z1 != z2 && t in f(z1)
      ensures t !in f(z2)
    {
      assert InBox(IVec3(x, y, z1), lo, w) && InBox(IVec3(x, y, z2), lo, w);
    }
    SpanDistinct(lo.z, w, f);
  }

  lemma PlaneDistinct<T>(lo: IVec3, w: nat, cell: IVec3 -> seq<T>, x: int)
    requires DisjointCells(lo, w, cell)
    requires lo.x <= x < lo.x + w
    ensures Distinct(Plane(lo, w, cell)(x))
  {
    var f := Row(lo, w, x, cell);
    forall y | lo.y <= y < lo.y + w ensures Distinct(f(y)) {
      RowDistinct(lo, w, cell, x, y);
    }
    forall y1, y2, t | lo.y <= y1 < lo.y + w && lo.y <= y2 < lo.y + w && y1 != y2 && t in f(y1)
      ensures t !in f(y2)
    {
      var z1 := SpanFrom(lo.z, w, Line(x, y1, cell), t);
      if t in f(y2) {
        var z2 := SpanFrom(lo.z, w, Line(x, y2, cell), t);
        assert InBox(IVec3(x, y1, z1), lo, w) && InBox(IVec3(x, y2, z2), lo, w);
      }
    }
    SpanDistinct(lo.y, w, f);
  }

  /** When the points of the box hold disjoint, duplicate-free lists, the gathered list
      has no duplicates. */
  lemma BlockDistinct<T>(lo: IVec3, w: nat, cell: IVec3 -> seq<T>)
    requires DisjointCells(lo, w, cell)
    ensures Distinct(Block(lo, w, cell))
  {
    var f := Plane(lo, w, cell);
    forall x | lo.x <= x < lo.x + w ensures Distinct(f(x)) {
      PlaneDistinct(lo, w, cell, x);
    }
    forall x1, x2, t | lo.x <= x1 < lo.x + w && lo.x <= x2 < lo.x + w && x1 != x2 && t in f(x1)
      ensures t !in f(x2)
    {
      var p := PlaneFrom(lo, w, cell, x1, t);
      if t in f(x2) {
        var q := PlaneFrom(lo, w, cell, x2, t);
        assert InBox(p, lo, w) && InBox(q, lo, w);
      }
    }
    SpanDistinct(lo.x, w, f);
  }

  /** A loop over `n + m` values gathers what the first `n` steps gather, then what
      the remaining `m` gather. */
  lemma {:induction false} SpanSplit<T>(a: int, n: nat, m: nat, f: int -> seq<T>)
    ensures Span(a, n + m, f) == Span(a, n, f) + Span(a + n, m, f)
  {
    if m > 0 {
      SpanSplit(a, n, m - 1, f);
      assert Span(a, n + m, f) == Span(a, n + m - 1, f) + f(a + n + m - 1);
      assert Span(a + n, m, f) == Span(a + n, m - 1, f) + f(a + n + m - 1);
    }
  }

  /** A loop whose every step contributes `k` elements gathers `n * k`. */
  lemma {:induction false} SpanLength<T>(a: int, n: nat, f: int -> seq<T>, k: int)
    requires forall i :: a <= i < a + n ==> |f(i)| == k
    ensures |Span(a, n, f)| == n * k
  {
    if n > 0 {
      SpanLength(a, n - 1, f, k);
      assert |Span(a, n, f)| == (n - 1) * k + k;
    }
  }

  /** A loop of at least two steps gathers its first step's part, the middle steps'
      parts, then its last step's part. */
  lemma SpanEnds<T>(a: int, n: nat, f: int -> seq<T>)
    requires n >= 2
    ensures Span(a, n, f) == f(a) + Span(a + 1, n - 2, f) + f(a + n - 1)
  {
    SpanSplit(a, 1, n - 1, f);
    SpanSplit(a + 1, n - 2, 1, f);
    assert Span(a, 1, f) == Span(a, 0, f) + f(a);
    assert Span(a + n - 1, 1, f) == Span(a + n - 1, 0, f) + f(a + n - 1);
  }

  /** A loop whose first `n` steps contribute `k1` elements each and whose next `m`
      steps contribute `k2` each gathers `n * k1 + m * k2`. */
  lemma SpanCountSplit<T>(a: int, len: nat, n: nat, m: nat, f: int -> seq<T>, k1: int, k2: int)
    requires len == n + m
    requires forall i :: a <= i < a + n ==> |f(i)| == k1
    requires forall i :: a + n <= i < a + n + m ==> |f(i)| == k2
    ensures |Span(a, len, f)| == n * k1 + m * k2
  {
    SpanSplit(a, n, m, f);
    SpanLength(a, n, f, k1);
    SpanLength(a + n, m, f, k2);
  }

  /** A loop whose first and last steps contribute `kEnd` elements and whose other
      steps contribute `kMid` each gathers `2 kEnd + (len - 2) kMid`. */
  lemma SpanCountEnds<T>(a: int, len: nat, f: int -> seq<T>, kEnd: int, kMid: int)
    requires len >= 2 && |f(a)| == kEnd && |f(a + len - 1)| == kEnd
    requires forall i :: a + 1 <= i < a + len - 1 ==> |f(i)| == kMid
    ensures |Span(a, len, f)| == 2 * kEnd + (len - 2) * kMid
  {
    SpanEnds(a, len, f);
    SpanLength(a + 1, len - 2, f, kMid);
  }

  /** The lattice point itself, as the one thing gathered there. */
  function Single(p: IVec3): seq<IVec3> { [p] }

  /** The points the three loops visit over the box, in loop order. */
  function Points(lo: IVec3, w: nat): seq<IVec3> {
    Block(lo, w, Single)
  }

  /** The number of things a cell function gathers at a point. */
  function Sizes<T>(cell: IVec3 -> seq<T>): IVec3 -> real {
    p => |cell(p)| as real
  }

  /** The three loops visit `w^3` points. */
  lemma PointsCount(lo: IVec3, w: nat)
    ensures |Points(lo, w)| == w * w * w
  {
    var planes := Plane(lo, w, Single);
    forall x | lo.x <= x < lo.x + w
      ensures |planes(x)| == w * w
    {
      var rows := Row(lo, w, x, Single);
      forall y | lo.y <= y < lo.y + w
        ensures |rows(y)| == w
      {
        SpanLength(lo.z, w, Line(x, y, Single), 1);
      }
      SpanLength(lo.y, w, rows, w);
    }
    SpanLength(lo.x, w, planes, w * w);
  }

  /** If each step of `g` lists points whose sizes add up to the length of the
      corresponding step of `f`, the same holds for the whole loop. */
  lemma {:induction false} SpanSizes<T>(a: int, n: nat, f: int -> seq<T>, g: int -> seq<IVec3>, m: IVec3 -> real)
    requires forall i :: a <= i < a + n ==> Sum(g(i), m) == |f(i)| as real
    ensures Sum(Span(a, n, g), m) == |Span(a, n, f)| as real
  {
    if n > 0 {
      SpanSizes(a, n - 1, f, g, m);
      SumAppend(Span(a, n - 1, g), g(a + n - 1), m);
    }
  }

  /** One row of points has the sizes that add up to the row's length. */
  lemma RowSizes<T>(lo: IVec3, w: nat, x: int, y: int, cell: IVec3 -> seq<T>)
    ensures Sum(Row(lo, w, x, Single)(y), Sizes(cell)) == |Row(lo, w, x, cell)(y)| as real
  {
    forall z | lo.z <= z < lo.z + w
      ensures Sum(Line(x, y, Single)(z), Sizes(cell)) == |Line(x, y, cell)(z)| as real
    {
      var p := IVec3(x, y, z);
      assert Line(x, y, Single)(z) == Single(p) == [p];
      assert Line(x, y, cell)(z) == cell(p);
      SumSingle(p, Sizes(cell));
      assert Sizes(cell)(p) == |cell(p)| as real;
    }
    SpanSizes(lo.z, w, Line(x, y, cell), Line(x, y, Single), Sizes(cell));
  }

  /** One plane of points has the sizes that add up to the plane's length. */
  lemma PlaneSizes<T>(lo: IVec3, w: nat, x: int, cell: IVec3 -> seq<T>)
    ensures Sum(Plane(lo, w, Single)(x), Sizes(cell)) == |Plane(lo, w, cell)(x)| as real
  {
    forall y | lo.y <= y < lo.y + w
      ensures Sum(Row(lo, w, x, Single)(y), Sizes(cell)) == |Row(lo, w, x, cell)(y)| as real
    {
      RowSizes(lo, w, x, y, cell);
    }
    SpanSizes(lo.y, w, Row(lo, w, x, cell), Row(lo, w, x, Single), Sizes(cell));
  }

  /** What the box gathers is as long as the sizes of its points add up to. */
  lemma BlockSizes<T>(lo: IVec3, w: nat, cell: IVec3 -> seq<T>)
    ensures Sum(Points(lo, w), Sizes(cell)) == |Block(lo, w, cell)| as real
  {
    forall x | lo.x <= x < lo.x + w
      ensures Sum(Plane(lo, w, Single)(x), Sizes(cell)) == |Plane(lo, w, cell)(x)| as real
    {
      PlaneSizes(lo, w, x, cell);
    }
    SpanSizes(lo.x, w, Plane(lo, w, cell), Plane(lo, w, Single), Sizes(cell));
  }
}
