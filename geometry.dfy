/**
 * The line-to-quad builder: the free function `draw_line` of the engine, which turns a segment,
 * a thickness and a colour into four vertices and two triangles, or into nothing at all when the
 * segment is degenerate.
 *
 * The builder computes a square root (`f32::sqrt`), which Dafny's reals do not have; the model takes
 * that routine as a parameter `sqrt`. Every structural fact below holds whatever `sqrt` is; facts about
 * lengths take as a hypothesis that `sqrt` returns the non-negative root of the one value it is asked for.
 */
module Geometry {
  import opened Common

  /** The machine epsilon of 32-bit floats, 2^-23. */
  const EPSILON: real := 1.0 / 8388608.0

  datatype Vertex = Vertex(pos: Vec2, color: Color, uv: Vec2)

  /** A triangle: three indices into a vertex list. */
  datatype Face = Face(i0: nat, i1: nat, i2: nat)

  /** What the builder returns: a vertex list and a triangle list. */
  datatype Mesh = Mesh(verts: seq<Vertex>, faces: seq<Face>)

  datatype Segment = Segment(x1: real, y1: real, x2: real, y2: real)

  predicate FaceBelow(f: Face, n: nat) { f.i0 < n && f.i1 < n && f.i2 < n }

  /** Every index of every triangle refers to one of the first n vertices. */
  predicate IndicesBelow(faces: seq<Face>, n: nat) {
    forall i :: 0 <= i < |faces| ==> FaceBelow(faces[i], n)
  }

  /** The triangles of a mesh refer only to its own vertices. */
  predicate MeshWellFormed(m: Mesh) { IndicesBelow(m.faces, |m.verts|) }

  /** The segment's direction (dx, dy) = (x2 - x1, y2 - y1). */
  function Direction(s: Segment): Vec2 { Vec2(s.x2 - s.x1, s.y2 - s.y1) }

  /** The normal (nx, ny) = (-dy, dx). */
  function Normal(s: Segment): Vec2 { Vec2(-(s.y2 - s.y1), s.x2 - s.x1) }

  function Dot(a: Vec2, b: Vec2): real { a.x * b.x + a.y * b.y }

  function NormSq(v: Vec2): real { Dot(v, v) }

  /** `sqrt` computes the non-negative square root of x. */
  predicate IsRoot(sqrt: real -> real, x: real) { sqrt(x) >= 0.0 && sqrt(x) * sqrt(x) == x }

  /**
   * tlen = sqrt(nx*nx + ny*ny) / (thickness * 0.5). For a zero thickness the f32 division yields no
   * finite number; the model has None there and does not count the segment as degenerate, which is
   * what f32 does for a +0.0 thickness on a segment of non-zero length (tlen = +inf).
   */
  function Tlen(s: Segment, thickness: real, sqrt: real -> real): (r: Option<real>)
    ensures r.None? <==> thickness == 0.0
    ensures r.Some? && sqrt(NormSq(Normal(s))) == 0.0 ==> r.value == 0.0
  {
    if thickness == 0.0 then None else Some(sqrt(NormSq(Normal(s))) / (thickness * 0.5))
  }

  /** The builder's degeneracy test `tlen < f32::EPSILON`. */
  predicate Degenerate(s: Segment, thickness: real, sqrt: real -> real) {
    Tlen(s, thickness, sqrt).Some? && Tlen(s, thickness, sqrt).value < EPSILON
  }

  /**
   * The half-thickness offset (tx, ty) = (nx / tlen, ny / tlen) added to and subtracted from both
   * end points. With tlen = +inf (zero thickness, non-zero length) the f32 quotients are zero.
   */
  function HalfOffset(s: Segment, thickness: real, sqrt: real -> real): Vec2
    requires !Degenerate(s, thickness, sqrt)
  {
    match Tlen(s, thickness, sqrt)
    case None => Vec2(0.0, 0.0)
    case Some(t) => Vec2(Normal(s).x / t, Normal(s).y / t)
  }

  const NoUv := Vec2(0.0, 0.0)

  /** The indices of the two counter-clockwise triangles of every quad. */
  const QuadFaces := [Face(0, 1, 2), Face(2, 1, 3)]

  /**
   * The free `draw_line`: nothing for a degenerate segment, otherwise the quad with corners
   * p1 + t, p1 - t, p2 + t, p2 - t in that order, all in the given colour with texture coordinate
   * (0, 0), and the triangles (0, 1, 2) and (2, 1, 3).
   */
  function BuildLine(s: Segment, thickness: real, color: Color, sqrt: real -> real): (m: Mesh)
    ensures Degenerate(s, thickness, sqrt) <==> m.verts == []
    ensures Degenerate(s, thickness, sqrt) ==> m.faces == []
    ensures !Degenerate(s, thickness, sqrt) ==> |m.verts| == 4 && m.faces == QuadFaces
    ensures forall i :: 0 <= i < |m.verts| ==> m.verts[i].color == color && m.verts[i].uv == NoUv
    ensures MeshWellFormed(m)
  {
    if Degenerate(s, thickness, sqrt) then Mesh([], [])
    else
      var t := HalfOffset(s, thickness, sqrt);
      Mesh([Vertex(Vec2(s.x1 + t.x, s.y1 + t.y), color, NoUv),
            Vertex(Vec2(s.x1 - t.x, s.y1 - t.y), color, NoUv),
            Vertex(Vec2(s.x2 + t.x, s.y2 + t.y), color, NoUv),
            Vertex(Vec2(s.x2 - t.x, s.y2 - t.y), color, NoUv)],
           QuadFaces)
  }

  function Sub(a: Vec2, b: Vec2): Vec2 { Vec2(a.x - b.x, a.y - b.y) }

  /**
   * The quad's shape: vertices 0 and 1 are the first end point plus and minus the half offset, 2 and
   * 3 the second; each side spans the segment, and the offset between the two sides is twice the half
   * offset and perpendicular to the segment.
   */
  lemma QuadShape(s: Segment, thickness: real, color: Color, sqrt: real -> real)
    requires !Degenerate(s, thickness, sqrt)
    ensures var m := BuildLine(s, thickness, color, sqrt);
            var t := HalfOffset(s, thickness, sqrt);
            && m.verts[0].pos == Vec2(s.x1 + t.x, s.y1 + t.y)
            && m.verts[1].pos == Vec2(s.x1 - t.x, s.y1 - t.y)
            && m.verts[2].pos == Vec2(s.x2 + t.x, s.y2 + t.y)
            && m.verts[3].pos == Vec2(s.x2 - t.x, s.y2 - t.y)
            && Sub(m.verts[0].pos, m.verts[1].pos) == Vec2(2.0 * t.x, 2.0 * t.y)
            && Sub(m.verts[2].pos, m.verts[3].pos) == Vec2(2.0 * t.x, 2.0 * t.y)
            && Sub(m.verts[2].pos, m.verts[0].pos) == Direction(s)
            && Sub(m.verts[3].pos, m.verts[1].pos) == Direction(s)
            && Dot(t, Direction(s)) == 0.0
  {
    var t := HalfOffset(s, thickness, sqrt);
    match Tlen(s, thickness, sqrt)
    case None =>
    case Some(k) =>
      var n := Normal(s);
      var d := Direction(s);
      assert k != 0.0;
      calc {
        Dot(t, d);
        (n.x / k) * d.x + (n.y / k) * d.y;
        (n.x * d.x + n.y * d.y) / k;
        0.0;
      }
  }

  /** Multiplying by a positive number keeps a strict order. */
  lemma MulStrict(x: real, y: real, h: real)
    requires h > 0.0 && x < y
    ensures x * h < y * h
  {
    assert (y - x) * h > 0.0;
  }

  /** Zero divided by anything non-zero is zero. */
  lemma ZeroDiv(h: real)
    requires h != 0.0
    ensures 0.0 / h == 0.0
  {
  }

  /** Dividing by a positive number keeps a strict order. */
  lemma DivLessIff(a: real, h: real, e: real)
    requires h > 0.0
    ensures a / h < e <==> a < e * h
  {
    var q := a / h;
    assert q * h == a;
    if q < e { MulStrict(q, e, h); } else if q > e { MulStrict(e, q, h); }
  }

  /** Multiplying by a non-negative number keeps a weak order. */
  lemma MulMono(x: real, y: real, h: real)
    requires h >= 0.0 && x <= y
    ensures x * h <= y * h
  {
    assert (y - x) * h >= 0.0;
  }

  /** For non-negative numbers, order and the order of squares agree. */
  lemma SquareLessIff(a: real, b: real)
    requires a >= 0.0 && b > 0.0
    ensures a < b <==> a * a < b * b
  {
    if a < b {
      calc {
        a * a;
      <= { MulMono(a, b, a); }
        b * a;
      < { MulStrict(a, b, b); }
        b * b;
      }
    } else {
      calc {
        b * b;
      <= { MulMono(b, a, b); }
        a * b;
      <= { MulMono(b, a, a); }
        a * a;
      }
    }
  }

  /**
   * With a true square root and a positive thickness, every corner lies at distance thickness/2 from
   * its end point: the half offset has length thickness/2.
   */
  lemma HalfOffsetLength(s: Segment, thickness: real, sqrt: real -> real)
    requires thickness > 0.0 && IsRoot(sqrt, NormSq(Normal(s)))
    requires !Degenerate(s, thickness, sqrt)
    ensures NormSq(HalfOffset(s, thickness, sqrt)) == (thickness / 2.0) * (thickness / 2.0)
  {
    var n := Normal(s);
    var len := sqrt(NormSq(n));
    var h := thickness * 0.5;
    var k := len / h;
    assert Tlen(s, thickness, sqrt) == Some(k);
    assert k >= EPSILON;
    assert len > 0.0;
    var q := h / len;
    assert k * q == 1.0;
    assert n.x / k == n.x * q;
    assert n.y / k == n.y * q;
    var t := HalfOffset(s, thickness, sqrt);
    assert t == Vec2(n.x * q, n.y * q);
    calc {
      NormSq(t);
      (n.x * q) * (n.x * q) + (n.y * q) * (n.y * q);
      (n.x * n.x + n.y * n.y) * (q * q);
      (len * len) * (q * q);
      (len * q) * (len * q);
      { assert len * q == h; }
      h * h;
    }
  }

  /** A negative thickness makes tlen non-positive, so the segment is always dropped. */
  lemma NegativeThicknessDegenerate(s: Segment, thickness: real, sqrt: real -> real)
    requires thickness < 0.0 && sqrt(NormSq(Normal(s))) >= 0.0
    ensures Degenerate(s, thickness, sqrt)
  {
    var len := sqrt(NormSq(Normal(s)));
    var h := thickness * 0.5;
    assert h < 0.0;
    var k := len / h;
    assert k * h == len;
    if k > 0.0 { MulStrict(0.0, k, -h); }
    assert k <= 0.0;
  }

  /** A zero-length segment is dropped whenever the thickness is not zero. */
  lemma ZeroLengthDegenerate(s: Segment, thickness: real, sqrt: real -> real)
    requires s.x1 == s.x2 && s.y1 == s.y2 && sqrt(0.0) == 0.0
    ensures Degenerate(s, thickness, sqrt) <==> thickness != 0.0
  {
    if thickness != 0.0 {
      ZeroTlen(s, thickness, sqrt);
    }
  }

  lemma ZeroTlen(s: Segment, thickness: real, sqrt: real -> real)
    requires s.x1 == s.x2 && s.y1 == s.y2 && sqrt(0.0) == 0.0 && thickness != 0.0
    ensures Tlen(s, thickness, sqrt) == Some(0.0)
  {
    ZeroNormal(s);
    ZeroDiv(thickness * 0.5);
  }

  lemma ZeroNormal(s: Segment)
    requires s.x1 == s.x2 && s.y1 == s.y2
    ensures NormSq(Normal(s)) == 0.0
  {
    assert Normal(s) == Vec2(0.0, 0.0);
  }

  /**
   * For a positive thickness and a true square root the degeneracy test compares the squared length of
   * the segment with (epsilon * thickness / 2)^2: a segment is dropped exactly when it is shorter than
   * epsilon times half its thickness.
   */
  lemma DegenerateIffShort(s: Segment, thickness: real, sqrt: real -> real)
    requires thickness > 0.0 && IsRoot(sqrt, NormSq(Normal(s)))
    ensures Degenerate(s, thickness, sqrt)
        <==> NormSq(Normal(s)) < (EPSILON * (thickness * 0.5)) * (EPSILON * (thickness * 0.5))
  {
    var len := sqrt(NormSq(Normal(s)));
    var h := thickness * 0.5;
    var b := EPSILON * h;
    assert b > 0.0;
    assert Degenerate(s, thickness, sqrt) <==> len / h < EPSILON;
    DivLessIff(len, h, EPSILON);
    SquareLessIff(len, b);
  }
}
