/**
 * The camera. The program keeps a 4x4 matrix `proj` that starts as the identity and is only ever
 * right-multiplied by a translation (x, y, 0) or by a scale (k, k, 1). Every such product maps a
 * world point p to scale * p + (tx, ty) in the X/Y plane, so the model keeps those three numbers.
 * At draw time the matrix is further right-multiplied by the viewport scale
 * (2500 / width, 2500 / height, 1).
 */
module Camera {
  import opened Common

  /** The X/Y action of `proj`: p |-> scale * p + (tx, ty). */
  datatype View = View(scale: real, tx: real, ty: real)

  /** `Mat4::IDENTITY`. */
  const Identity := View(1.0, 0.0, 0.0)

  /** The world-unit constant of the viewport normalisation. */
  const WORLD_UNITS: real := 2500.0

  /** Where the camera sends a world point. */
  function Apply(c: View, p: Vec2): Vec2 {
    Vec2(c.scale * p.x + c.tx, c.scale * p.y + c.ty)
  }

  /** `proj *= from_translation(x, y, 0)`. */
  function Pan(c: View, x: real, y: real): (r: View)
    ensures r.scale == c.scale
    ensures Apply(r, Vec2(-x, -y)) == Apply(c, Vec2(0.0, 0.0))
  {
    View(c.scale, c.tx + c.scale * x, c.ty + c.scale * y)
  }

  /** `proj *= from_scale(k, k, 1)`. */
  function Zoom(c: View, k: real): (r: View)
    ensures Apply(r, Vec2(0.0, 0.0)) == Apply(c, Vec2(0.0, 0.0))
    ensures k == 1.0 ==> r == c
  {
    View(c.scale * k, c.tx, c.ty)
  }

  /** Right-multiplying by a translation: the pan is applied to a point before the old camera. */
  lemma PanActsFirst(c: View, x: real, y: real, p: Vec2)
    ensures Apply(Pan(c, x, y), p) == Apply(c, Vec2(p.x + x, p.y + y))
  {
    assert c.scale * (p.x + x) == c.scale * p.x + c.scale * x;
    assert c.scale * (p.y + y) == c.scale * p.y + c.scale * y;
  }

  /** Right-multiplying by a scale: the zoom is applied to a point before the old camera. */
  lemma ZoomActsFirst(c: View, k: real, p: Vec2)
    ensures Apply(Zoom(c, k), p) == Apply(c, Vec2(k * p.x, k * p.y))
  {
    MulAssoc(c.scale, k, p.x);
    MulAssoc(c.scale, k, p.y);
  }

  lemma MulAssoc(a: real, b: real, c: real)
    ensures (a * b) * c == a * (b * c)
  {
  }

  /** The viewport normalisation (2500 / width, 2500 / height) applied to a world point. */
  function Normalise(screen: Screen, p: Vec2): Vec2
    requires screen.w != 0.0 && screen.h != 0.0
  {
    Vec2(p.x * (WORLD_UNITS / screen.w), p.y * (WORLD_UNITS / screen.h))
  }

  /** `calc_proj_matrix` applied to a world point: normalisation first, then the camera. */
  function Project(c: View, screen: Screen, p: Vec2): Vec2
    requires screen.w != 0.0 && screen.h != 0.0
  {
    Apply(c, Normalise(screen, p))
  }

  /** Screen coordinates in [0, 1], origin top left, to clip space: x = 2u - 1, y = 1 - 2v. */
  function ScreenToClip(u: real, v: real): Vec2 {
    Vec2(2.0 * u - 1.0, 1.0 - 2.0 * v)
  }

  /** The effective projection is invertible exactly when no factor of it is zero. */
  predicate Invertible(c: View, screen: Screen) {
    c.scale != 0.0 && screen.w != 0.0 && screen.h != 0.0
  }

  /**
   * `screen_to_world`: the clip point pushed through the inverse of the effective projection,
   * recomputed from the current camera on every call. None where the projection is singular
   * (a zoom by 0 or an empty window), where the program's f32 inverse yields non-finite values.
   */
  function ScreenToWorld(c: View, screen: Screen, u: real, v: real): (r: Option<Vec2>)
    ensures r.Some? <==> Invertible(c, screen)
    ensures r.Some? ==> Project(c, screen, r.value) == ScreenToClip(u, v)
  {
    if !Invertible(c, screen) then None
    else
      var q := ScreenToClip(u, v);
      var kx := c.scale * (WORLD_UNITS / screen.w);
      var ky := c.scale * (WORLD_UNITS / screen.h);
      var p := Vec2((q.x - c.tx) / kx, (q.y - c.ty) / ky);
      InverseX(c.scale, WORLD_UNITS / screen.w, c.tx, q.x);
      InverseX(c.scale, WORLD_UNITS / screen.h, c.ty, q.y);
      assert Project(c, screen, p).x == q.x;
      assert Project(c, screen, p).y == q.y;
      Some(p)
  }

  /** One coordinate of the inverse: s * ((q - t) / (s * k) * k) + t == q. */
  lemma InverseX(s: real, k: real, t: real, q: real)
    requires s != 0.0 && k != 0.0
    ensures s * ((q - t) / (s * k) * k) + t == q
  {
    var d := (q - t) / (s * k);
    assert d * (s * k) == q - t;
    assert s * (d * k) == d * (s * k);
  }

  /** One coordinate is determined by its image: s * (x * k) + t == q forces x == (q - t) / (s * k). */
  lemma InverseUnique(s: real, k: real, t: real, q: real, x: real)
    requires s != 0.0 && k != 0.0 && s * (x * k) + t == q
    ensures x == (q - t) / (s * k)
  {
    assert s * (x * k) == x * (s * k);
  }

  /** The inverse is exact: a world point is the answer exactly when the projection sends it to the clip point. */
  lemma ScreenToWorldExact(c: View, screen: Screen, u: real, v: real, p: Vec2)
    requires Invertible(c, screen)
    ensures ScreenToWorld(c, screen, u, v) == Some(p) <==> Project(c, screen, p) == ScreenToClip(u, v)
  {
    var q := ScreenToClip(u, v);
    var kx := WORLD_UNITS / screen.w;
    var ky := WORLD_UNITS / screen.h;
    if Project(c, screen, p) == q {
      assert c.scale * (p.x * kx) + c.tx == q.x;
      assert c.scale * (p.y * ky) + c.ty == q.y;
      InverseUnique(c.scale, kx, c.tx, q.x, p.x);
      InverseUnique(c.scale, ky, c.ty, q.y, p.y);
      var r := ScreenToWorld(c, screen, u, v);
      assert r.value.x == (q.x - c.tx) / (c.scale * kx) == p.x;
      assert r.value.y == (q.y - c.ty) / (c.scale * ky) == p.y;
      assert r.value == p;
    }
  }

  /** With a fresh camera the centre of the window is the world origin, whatever the window size. */
  lemma CentreIsOrigin(screen: Screen)
    requires screen.w != 0.0 && screen.h != 0.0
    ensures ScreenToWorld(Identity, screen, 0.5, 0.5) == Some(Vec2(0.0, 0.0))
  {
    ScreenToWorldExact(Identity, screen, 0.5, 0.5, Vec2(0.0, 0.0));
  }

  /**
   * A pointer position in pixels to world coordinates, as the mouse events compute it: divided by the
   * window size, then `screen_to_world`.
   */
  function PointerToWorld(c: View, screen: Screen, x: real, y: real): (r: Option<Vec2>)
    ensures r.Some? <==> Invertible(c, screen)
    ensures r.Some? ==> Project(c, screen, r.value) == ScreenToClip(x / screen.w, y / screen.h)
  {
    if screen.w == 0.0 || screen.h == 0.0 then None
    else ScreenToWorld(c, screen, x / screen.w, y / screen.h)
  }

  /** With a fresh camera the pixel at the middle of the window points at the world origin. */
  lemma PointerAtCentre(screen: Screen)
    requires screen.w != 0.0 && screen.h != 0.0
    ensures PointerToWorld(Identity, screen, screen.w / 2.0, screen.h / 2.0) == Some(Vec2(0.0, 0.0))
  {
    assert (screen.w / 2.0) / screen.w == 0.5;
    assert (screen.h / 2.0) / screen.h == 0.5;
    CentreIsOrigin(screen);
  }

  /** Panning by (dx, dy) and then by (-dx, -dy) restores the camera. */
  lemma PanRoundTrip(c: View, dx: real, dy: real)
    ensures Pan(Pan(c, dx, dy), -dx, -dy) == c
  {
  }

  /** Zooming by k and then by 1/k restores the camera. */
  lemma ZoomRoundTrip(c: View, k: real)
    requires k != 0.0
    ensures Zoom(Zoom(c, k), 1.0 / k) == c
  {
    assert c.scale * k * (1.0 / k) == c.scale;
  }

  /** Two pans in a row are one pan by the sum. */
  lemma PanPan(c: View, x1: real, y1: real, x2: real, y2: real)
    ensures Pan(Pan(c, x1, y1), x2, y2) == Pan(c, x1 + x2, y1 + y2)
  {
    MulDistrib(c.scale, x1, x2);
    MulDistrib(c.scale, y1, y2);
    var p := Pan(Pan(c, x1, y1), x2, y2);
    var q := Pan(c, x1 + x2, y1 + y2);
    assert p.tx == q.tx && p.ty == q.ty && p.scale == q.scale;
  }

  lemma MulDistrib(a: real, b: real, c: real)
    ensures a * (b + c) == a * b + a * c
  {
  }

  /**
   * Pan and zoom do not commute: zooming first makes the later pan move k times as far in world
   * terms, so the order in which commands arrive matters.
   */
  lemma ZoomThenPan(c: View, k: real, x: real, y: real)
    ensures Pan(Zoom(c, k), x, y) == Zoom(Pan(c, k * x, k * y), k)
  {
    assert c.scale * k * x == c.scale * (k * x);
    assert c.scale * k * y == c.scale * (k * y);
  }

  /** A camera operation as it arrives on the fire-and-forget channel. */
  datatype Op = PanOp(x: real, y: real) | ZoomOp(k: real)

  function Step(c: View, op: Op): View {
    match op
    case PanOp(x, y) => Pan(c, x, y)
    case ZoomOp(k) => Zoom(c, k)
  }

  /** The camera after a sequence of operations, applied in arrival order. */
  function Replay(c: View, ops: seq<Op>): View
    decreases |ops|
  {
    if ops == [] then c else Replay(Step(c, ops[0]), ops[1..])
  }

  lemma ReplayTwo(c: View, a: Op, b: Op)
    ensures Replay(c, [a, b]) == Step(Step(c, a), b)
  {
    assert [a, b][1..] == [b] && [b][1..] == [];
    assert Replay(c, [a, b]) == Replay(Step(c, a), [b]);
    assert Replay(Step(c, a), [b]) == Replay(Step(Step(c, a), b), []);
  }

  /** Replaying two batches is replaying their concatenation: order is kept across batches. */
  lemma {:induction false} ReplayAppend(c: View, a: seq<Op>, b: seq<Op>)
    ensures Replay(c, a + b) == Replay(Replay(c, a), b)
    decreases |a|
  {
    if a == [] {
      assert a + b == b;
    } else {
      assert (a + b)[1..] == a[1..] + b;
      ReplayAppend(Step(c, a[0]), a[1..], b);
    }
  }

  /** One coordinate of a pan seen through the inverse. */
  lemma PanCoord(s: real, k: real, t: real, x: real, b: real, q: real)
    requires k != 0.0 && s * (b * k) + t == q
    ensures s * ((b - x / k) * k) + (t + s * x) == q
  {
    assert (x / k) * k == x;
    assert (b - x / k) * k == b * k - x;
    assert s * (b * k - x) == s * (b * k) - s * x;
  }

  /**
   * Panning by (x, y) moves the world point under any screen position by minus the pan, measured in
   * normalised units (the pan divided by 2500 / width and 2500 / height).
   */
  lemma PanShiftsWorld(c: View, screen: Screen, u: real, v: real, x: real, y: real)
    requires Invertible(c, screen)
    ensures var before := ScreenToWorld(c, screen, u, v).value;
            ScreenToWorld(Pan(c, x, y), screen, u, v)
            == Some(Vec2(before.x - x / (WORLD_UNITS / screen.w), before.y - y / (WORLD_UNITS / screen.h)))
  {
    var before := ScreenToWorld(c, screen, u, v).value;
    var kx := WORLD_UNITS / screen.w;
    var ky := WORLD_UNITS / screen.h;
    var q := ScreenToClip(u, v);
    var p := Vec2(before.x - x / kx, before.y - y / ky);
    assert Project(c, screen, before) == q;
    assert c.scale * (before.x * kx) + c.tx == q.x;
    assert c.scale * (before.y * ky) + c.ty == q.y;
    PanCoord(c.scale, kx, c.tx, x, before.x, q.x);
    PanCoord(c.scale, ky, c.ty, y, before.y, q.y);
    var c' := Pan(c, x, y);
    assert c' == View(c.scale, c.tx + c.scale * x, c.ty + c.scale * y);
    assert Project(c', screen, p) == q;
    ScreenToWorldExact(c', screen, u, v, p);
  }
}
