/**
 * The stage: the layer store and the camera, with the two dispatchers that serve the request and the
 * subscribe sockets, and the handlers that turn window input into published events.
 *
 * The window size is an input of every member that needs it; the sockets are left out, so a frame
 * arrives as an argument and a reply or an event leaves as a result.
 */
module Engine {
  import opened Common
  import opened Geometry
  import opened Layers
  import Camera
  import opened Protocol
  import opened Events

  /** The state the commands act on. */
  datatype Scene = Scene(layers: Store, proj: Camera.View)

  /** The state after a request-socket command: only the layer commands touch it, never the camera. */
  function AfterQuery(s: Scene, q: Query): (r: Scene)
    ensures r.proj == s.proj
    ensures r.layers.Keys <= s.layers.Keys
    ensures StoreWellFormed(s.layers) ==> StoreWellFormed(r.layers)
    ensures q.HelloReq? || q.ScreenToWorldReq? || q.GetLayersReq? || q.ScreenSizeReq? ==> r == s
  {
    match q
    case DeleteLayerReq(n) => s.(layers := Delete(s.layers, n))
    case ShowLayerReq(n) => s.(layers := SetHidden(s.layers, n, false))
    case HideLayerReq(n) => s.(layers := SetHidden(s.layers, n, true))
    case SetLayerPosReq(n, x, y) => s.(layers := SetPosition(s.layers, n, x, y))
    case _ => s
  }

  /**
   * The reply the request socket sends for a query asked in scene s. The layer names come in the
   * hash map's unspecified order, so only their set is fixed.
   */
  predicate Replies(s: Scene, screen: Screen, q: Query, reply: Reply) {
    match q
    case HelloReq => reply == Greeting("hello")
    case ScreenToWorldReq(u, v) => reply == WorldPos(Camera.ScreenToWorld(s.proj, screen, u, v))
    case GetLayersReq => reply.LayerNames? && ListsKeys(reply.names, s.layers)
    case DeleteLayerReq(n) => reply == Ack(n in s.layers)
    case ShowLayerReq(n) => reply == Ack(n in s.layers)
    case HideLayerReq(n) => reply == Ack(n in s.layers)
    case SetLayerPosReq(n, _, _) => reply == Ack(n in s.layers)
    case ScreenSizeReq => reply == ScreenDims(screen.w, screen.h)
  }

  /** The state after a subscribe-socket command: a line changes only the layers, pan and zoom only the camera. */
  function AfterUpdate(s: Scene, u: Update, sqrt: real -> real): (r: Scene)
    ensures u.DrawLineReq? ==> r.proj == s.proj && r.layers.Keys == s.layers.Keys + {u.name}
    ensures !u.DrawLineReq? ==> r.layers == s.layers
    ensures StoreWellFormed(s.layers) ==> StoreWellFormed(r.layers)
  {
    match u
    case DrawLineReq(n, seg, t, c) => s.(layers := Draw(s.layers, n, BuildLine(seg, t, c, sqrt)))
    case PanReq(x, y) => s.(proj := Camera.Pan(s.proj, x, y))
    case ZoomReq(k) => s.(proj := Camera.Zoom(s.proj, k))
  }

  /** A frame that became readable on one of the two sockets. */
  datatype Incoming = FromReq(frame: Frame) | FromSub(frame: Frame)

  /** Serving one frame: the decoder's fault, or the scene after the command. */
  function Serve(s: Scene, m: Incoming, sqrt: real -> real): (r: Result<Scene, Fault>)
    ensures r.Failure? <==> (if m.FromReq? then DecodeReq(m.frame).Failure? else DecodeSub(m.frame).Failure?)
    ensures r.Success? && m.FromReq? ==> r.value.proj == s.proj
    ensures r.Success? && StoreWellFormed(s.layers) ==> StoreWellFormed(r.value.layers)
  {
    match m
    case FromReq(f) =>
      (match DecodeReq(f) case Failure(e) => Failure(e) case Success(q) => Success(AfterQuery(s, q)))
    case FromSub(f) =>
      (match DecodeSub(f) case Failure(e) => Failure(e) case Success(u) => Success(AfterUpdate(s, u, sqrt)))
  }

  /**
   * Serving frames in arrival order. A fault is a panic in the program: nothing after it is served,
   * and the scene is the one the faulty frame found.
   */
  function Run(s: Scene, ms: seq<Incoming>, sqrt: real -> real): (Scene, Option<Fault>)
    decreases |ms|
  {
    if ms == [] then (s, None)
    else match Serve(s, ms[0], sqrt)
      case Failure(e) => (s, Some(e))
      case Success(s') => Run(s', ms[1..], sqrt)
  }

  /** No sequence of frames, faulty or not, breaks the face-index invariant of any layer. */
  lemma {:induction false} RunKeepsWellFormed(s: Scene, ms: seq<Incoming>, sqrt: real -> real)
    requires StoreWellFormed(s.layers)
    ensures StoreWellFormed(Run(s, ms, sqrt).0.layers)
    decreases |ms|
  {
    if ms != [] {
      match Serve(s, ms[0], sqrt)
      case Failure(_) =>
      case Success(s') => RunKeepsWellFormed(s', ms[1..], sqrt);
    }
  }

  /** Serving two batches without a fault is serving their concatenation. */
  lemma {:induction false} RunAppend(s: Scene, a: seq<Incoming>, b: seq<Incoming>, sqrt: real -> real)
    requires Run(s, a, sqrt).1 == None
    ensures Run(s, a + b, sqrt) == Run(Run(s, a, sqrt).0, b, sqrt)
    decreases |a|
  {
    if a == [] {
      assert a + b == b;
    } else {
      assert (a + b)[0] == a[0];
      assert (a + b)[1..] == a[1..] + b;
      match Serve(s, a[0], sqrt)
      case Success(s') => RunAppend(s', a[1..], b, sqrt);
    }
  }

  /** After a fault nothing more is served: the outcome of a faulty batch ignores what follows. */
  lemma {:induction false} RunHaltsAtFault(s: Scene, a: seq<Incoming>, b: seq<Incoming>, sqrt: real -> real)
    requires Run(s, a, sqrt).1.Some?
    ensures Run(s, a + b, sqrt) == Run(s, a, sqrt)
    decreases |a|
  {
    assert a != [];
    assert (a + b)[0] == a[0];
    assert (a + b)[1..] == a[1..] + b;
    match Serve(s, a[0], sqrt)
    case Failure(_) =>
    case Success(s') => RunHaltsAtFault(s', a[1..], b, sqrt);
  }

  /** Request-socket frames never move the camera. */
  lemma {:induction false} RequestsKeepCamera(s: Scene, ms: seq<Incoming>, sqrt: real -> real)
    requires forall i :: 0 <= i < |ms| ==> ms[i].FromReq?
    ensures Run(s, ms, sqrt).0.proj == s.proj
    decreases |ms|
  {
    if ms != [] {
      match Serve(s, ms[0], sqrt)
      case Failure(_) =>
      case Success(s') => RequestsKeepCamera(s', ms[1..], sqrt);
    }
  }

  /** The subscribe frame a client sends for an update, with empty raw bytes. */
  function SubFrame(u: Update): Incoming {
    FromSub(EncodeUpdate(u, []))
  }

  /** The update a camera operation is sent as. */
  function OpUpdate(op: Camera.Op): Update {
    match op
    case PanOp(x, y) => PanReq(x, y)
    case ZoomOp(k) => ZoomReq(k)
  }

  /** The subscribe frames a client sends for a sequence of camera operations, in order. */
  function CameraFrames(ops: seq<Camera.Op>): seq<Incoming>
    decreases |ops|
  {
    if ops == [] then [] else [SubFrame(OpUpdate(ops[0]))] + CameraFrames(ops[1..])
  }

  /**
   * Serving the frames of a sequence of pans and zooms never faults, leaves the layers alone, and moves
   * the camera exactly as replaying the operations in arrival order does.
   */
  lemma {:induction false} CameraFramesReplay(s: Scene, ops: seq<Camera.Op>, sqrt: real -> real)
    ensures Run(s, CameraFrames(ops), sqrt) == (Scene(s.layers, Camera.Replay(s.proj, ops)), None)
    decreases |ops|
  {
    if ops != [] {
      var ms := CameraFrames(ops);
      UpdateRoundTrip(OpUpdate(ops[0]), []);
      assert ms[0] == SubFrame(OpUpdate(ops[0]));
      assert ms[1..] == CameraFrames(ops[1..]);
      var s' := Scene(s.layers, Camera.Step(s.proj, ops[0]));
      assert Serve(s, ms[0], sqrt) == Success(s');
      CameraFramesReplay(s', ops[1..], sqrt);
    }
  }

  /** The order of arrival matters: a pan followed by a zoom is not a zoom followed by the pan. */
  lemma OrderMatters(layers: Store, sqrt: real -> real)
    ensures var s := Scene(layers, Camera.Identity);
            Run(s, [SubFrame(PanReq(1.0, 0.0)), SubFrame(ZoomReq(2.0))], sqrt).0.proj == Camera.View(2.0, 1.0, 0.0)
            && Run(s, [SubFrame(ZoomReq(2.0)), SubFrame(PanReq(1.0, 0.0))], sqrt).0.proj == Camera.View(2.0, 2.0, 0.0)
  {
    var s := Scene(layers, Camera.Identity);
    var p := Camera.PanOp(1.0, 0.0);
    var z := Camera.ZoomOp(2.0);
    CameraFramesTwo(p, z);
    CameraFramesTwo(z, p);
    CameraFramesReplay(s, [p, z], sqrt);
    CameraFramesReplay(s, [z, p], sqrt);
    Camera.ReplayTwo(Camera.Identity, p, z);
    Camera.ReplayTwo(Camera.Identity, z, p);
  }

  lemma CameraFramesTwo(a: Camera.Op, b: Camera.Op)
    ensures CameraFrames([a, b]) == [SubFrame(OpUpdate(a)), SubFrame(OpUpdate(b))]
  {
    assert [a, b][1..] == [b] && [b][1..] == [];
    assert CameraFrames([b]) == [SubFrame(OpUpdate(b))] + CameraFrames([]);
    assert CameraFrames([a, b]) == [SubFrame(OpUpdate(a))] + CameraFrames([b]);
  }

  /** `*idx += offset` for every index of every face, in place. */
  method ShiftFaces(faces: array<Face>, offset: nat)
    modifies faces
    ensures faces[..] == Shift(old(faces[..]), offset)
  {
    var i := 0;
    while i < faces.Length
      invariant 0 <= i <= faces.Length
      invariant forall k :: 0 <= k < i ==> faces[k] == ShiftFace(old(faces[k]), offset)
      invariant forall k :: i <= k < faces.Length ==> faces[k] == old(faces[k])
    {
      faces[i] := ShiftFace(faces[i], offset);
      i := i + 1;
    }
  }

  /** The seeded crosshair: two short red lines through the world origin. */
  const OriginName := "origin"
  const OriginHorizontal := Segment(-0.1, 0.0, 0.1, 0.0)
  const OriginVertical := Segment(0.0, 0.1, 0.0, -0.1)
  const OriginThickness := 0.001
  const OriginColor := Color(1.0, 0.0, 0.0, 0.4)

  /** The layer store a new stage starts with. */
  function OriginStore(sqrt: real -> real): Store {
    var h := BuildLine(OriginHorizontal, OriginThickness, OriginColor, sqrt);
    var v := BuildLine(OriginVertical, OriginThickness, OriginColor, sqrt);
    Draw(Draw(map[], OriginName, h), OriginName, v)
  }

  /** Both crosshair lines are 0.2 long. */
  lemma OriginSquares()
    ensures NormSq(Normal(OriginHorizontal)) == 0.04 && NormSq(Normal(OriginVertical)) == 0.04
  {
  }

  /** A line of squared length 0.04 at the crosshair's thickness is not degenerate. */
  lemma OriginLineDrawn(seg: Segment, sqrt: real -> real)
    requires NormSq(Normal(seg)) == 0.04 && IsRoot(sqrt, 0.04)
    ensures !Degenerate(seg, OriginThickness, sqrt)
  {
    DegenerateIffShort(seg, OriginThickness, sqrt);
    assert (EPSILON * (OriginThickness * 0.5)) * (EPSILON * (OriginThickness * 0.5)) < 0.04;
  }

  /**
   * A new stage holds the one layer "origin"; with a square root that is exact on the segments'
   * squared length, neither crosshair line is degenerate and the layer holds two quads.
   */
  lemma OriginCrosshair(sqrt: real -> real)
    requires IsRoot(sqrt, 0.04)
    ensures OriginStore(sqrt).Keys == {OriginName}
    ensures |OriginStore(sqrt)[OriginName].verts| == 8 && |OriginStore(sqrt)[OriginName].faces| == 4
    ensures !OriginStore(sqrt)[OriginName].isHidden
  {
    OriginSquares();
    OriginLineDrawn(OriginHorizontal, sqrt);
    OriginLineDrawn(OriginVertical, sqrt);
    var h := BuildLine(OriginHorizontal, OriginThickness, OriginColor, sqrt);
    var v := BuildLine(OriginVertical, OriginThickness, OriginColor, sqrt);
    DrawTwice(map[], OriginName, h, v);
    assert Entry(map[], OriginName) == NewLayer();
  }

  class Stage {
    var layers: Store
    var proj: Camera.View
    /** The f32 square root the line builder uses. */
    const sqrt: real -> real

    ghost predicate Valid()
      reads this
    {
      StoreWellFormed(layers)
    }

    function Current(): Scene
      reads this
    {
      Scene(layers, proj)
    }

    /** `Stage::new`: an identity camera and the crosshair layer. */
    constructor (sqrt: real -> real)
      ensures Valid()
      ensures this.sqrt == sqrt && proj == Camera.Identity
      ensures layers == OriginStore(sqrt)
    {
      layers := map[];
      proj := Camera.Identity;
      this.sqrt := sqrt;
      new;
      DrawLine(OriginName, OriginHorizontal, OriginThickness, OriginColor);
      DrawLine(OriginName, OriginVertical, OriginThickness, OriginColor);
    }

    /**
     * `Stage::draw_line`: creates the layer if absent, appends the builder's vertices and its faces
     * shifted by the layer's previous vertex count.
     */
    method DrawLine(name: string, seg: Segment, thickness: real, color: Color)
      requires Valid()
      modifies this
      ensures Valid()
      ensures layers == Draw(old(layers), name, BuildLine(seg, thickness, color, sqrt))
      ensures proj == old(proj)
    {
      var g := BuildLine(seg, thickness, color, sqrt);
      var layer := if name in layers then layers[name] else NewLayer();
      assert layer == Entry(layers, name);
      var faces := new Face[|g.faces|](i requires 0 <= i < |g.faces| => g.faces[i]);
      assert faces[..] == g.faces;
      ShiftFaces(faces, |layer.verts|);
      layer := layer.(verts := layer.verts + g.verts, faces := layer.faces + faces[..]);
      assert layer == Append(Entry(old(layers), name), g);
      layers := layers[name := layer];
    }

    /** `pan`: right-multiply the camera by a translation. */
    method Pan(x: real, y: real)
      requires Valid()
      modifies this
      ensures Valid()
      ensures proj == Camera.Pan(old(proj), x, y)
      ensures layers == old(layers)
    {
      proj := Camera.Pan(proj, x, y);
    }

    /** `zoom`: right-multiply the camera by a scale. */
    method Zoom(k: real)
      requires Valid()
      modifies this
      ensures Valid()
      ensures proj == Camera.Zoom(old(proj), k)
      ensures layers == old(layers)
    {
      proj := Camera.Zoom(proj, k);
    }

    /** The DeleteLayer arm: whether the layer existed; it is gone afterwards. */
    method DeleteLayer(name: string) returns (ok: bool)
      requires Valid()
      modifies this
      ensures Valid()
      ensures ok == (name in old(layers))
      ensures layers == Delete(old(layers), name) && proj == old(proj)
    {
      ok := name in layers;
      layers := layers - {name};
    }

    /** The ShowLayer and HideLayer arms: whether the layer existed; its hidden flag is set if so. */
    method SetLayerHidden(name: string, hidden: bool) returns (ok: bool)
      requires Valid()
      modifies this
      ensures Valid()
      ensures ok == (name in old(layers))
      ensures layers == SetHidden(old(layers), name, hidden) && proj == old(proj)
    {
      ok := name in layers;
      if ok {
        layers := layers[name := layers[name].(isHidden := hidden)];
      }
    }

    /** The SetLayerPos arm: whether the layer existed; its model becomes the translation if so. */
    method SetLayerPos(name: string, x: real, y: real) returns (ok: bool)
      requires Valid()
      modifies this
      ensures Valid()
      ensures ok == (name in old(layers))
      ensures layers == SetPosition(old(layers), name, x, y) && proj == old(proj)
    {
      ok := name in layers;
      if ok {
        layers := layers[name := layers[name].(model := Translation(x, y))];
      }
    }

    /** The GetLayers arm: every layer name once, in whatever order the keys are drawn. */
    method ListLayers() returns (names: seq<string>)
      ensures ListsKeys(names, layers)
    {
      names := [];
      var rest := layers.Keys;
      while rest != {}
        invariant rest <= layers.Keys
        invariant forall i :: 0 <= i < |names| ==> names[i] in layers && names[i] !in rest
        invariant forall n :: n in layers ==> n in names || n in rest
        invariant forall i, j :: 0 <= i < j < |names| ==> names[i] != names[j]
        decreases rest
      {
        var n :| n in rest;
        names := names + [n];
        rest := rest - {n};
      }
    }

    /**
     * `process_req`: the frame's fault, with nothing changed; or the reply to its query and the
     * scene after it.
     */
    method ProcessReq(f: Frame, screen: Screen) returns (r: Result<Reply, Fault>)
      requires Valid()
      modifies this
      ensures Valid()
      ensures r.Failure? <==> DecodeReq(f).Failure?
      ensures r.Failure? ==> r.error == DecodeReq(f).error && Current() == old(Current())
      ensures r.Success? ==> Replies(old(Current()), screen, DecodeReq(f).value, r.value)
      ensures r.Success? ==> Current() == AfterQuery(old(Current()), DecodeReq(f).value)
    {
      var d := DecodeReq(f);
      if d.Failure? {
        return Failure(d.error);
      }
      match d.value
      case HelloReq =>
        r := Success(Greeting("hello"));
      case ScreenToWorldReq(u, v) =>
        r := Success(WorldPos(Camera.ScreenToWorld(proj, screen, u, v)));
      case GetLayersReq =>
        var names := ListLayers();
        r := Success(LayerNames(names));
      case DeleteLayerReq(n) =>
        var ok := DeleteLayer(n);
        r := Success(Ack(ok));
      case ShowLayerReq(n) =>
        var ok := SetLayerHidden(n, false);
        r := Success(Ack(ok));
      case HideLayerReq(n) =>
        var ok := SetLayerHidden(n, true);
        r := Success(Ack(ok));
      case SetLayerPosReq(n, x, y) =>
        var ok := SetLayerPos(n, x, y);
        r := Success(Ack(ok));
      case ScreenSizeReq =>
        r := Success(ScreenDims(screen.w, screen.h));
    }

    /** `process_sub`: the frame's fault, with nothing changed; or the scene after its update. */
    method ProcessSub(f: Frame) returns (fault: Option<Fault>)
      requires Valid()
      modifies this
      ensures Valid()
      ensures fault.Some? <==> DecodeSub(f).Failure?
      ensures fault.Some? ==> fault.value == DecodeSub(f).error && Current() == old(Current())
      ensures fault.None? ==> Current() == AfterUpdate(old(Current()), DecodeSub(f).value, sqrt)
    {
      var d := DecodeSub(f);
      if d.Failure? {
        return Some(d.error);
      }
      fault := None;
      match d.value
      case DrawLineReq(n, seg, t, c) =>
        DrawLine(n, seg, t, c);
      case PanReq(x, y) =>
        Pan(x, y);
      case ZoomReq(k) =>
        Zoom(k);
    }

    /**
     * One stretch of `update`: the frames the sockets yielded, served in order until the first fault.
     * Which socket is ready and when the time budget runs out are decided outside the model.
     */
    method Update(ms: seq<Incoming>, screen: Screen) returns (fault: Option<Fault>)
      requires Valid()
      modifies this
      ensures Valid()
      ensures (Current(), fault) == Run(old(Current()), ms, sqrt)
    {
      fault := None;
      var i := 0;
      while i < |ms| && fault == None
        invariant 0 <= i <= |ms|
        invariant Valid()
        invariant fault == None ==> Run(old(Current()), ms, sqrt) == Run(Current(), ms[i..], sqrt)
        invariant fault != None ==> Run(old(Current()), ms, sqrt) == (Current(), fault)
        decreases |ms| - i
      {
        assert ms[i..][1..] == ms[i + 1..];
        match ms[i] {
          case FromReq(f) =>
            var r := ProcessReq(f, screen);
            if r.Failure? {
              fault := Some(r.error);
            }
          case FromSub(f) =>
            fault := ProcessSub(f);
        }
        i := i + 1;
      }
      if fault == None {
        assert ms[i..] == [];
      }
    }

    /** `mouse_motion_event`: the pointer's world position, absent where the projection is singular. */
    method MouseMotionEvent(x: real, y: real, screen: Screen) returns (e: Event)
      ensures e.MouseMotion?
      ensures e.pos.Some? <==> Camera.Invertible(proj, screen)
      ensures e.pos.Some? ==> Camera.Project(proj, screen, e.pos.value) == Camera.ScreenToClip(x / screen.w, y / screen.h)
    {
      e := MouseMotion(Camera.PointerToWorld(proj, screen, x, y));
    }

    /** `mouse_wheel_event`: the raw wheel deltas, which unlike the pointer are not converted to world units. */
    method MouseWheelEvent(x: real, y: real) returns (e: Event)
      ensures KindFromTag(EventTag(e)) == Some(WheelKind)
      ensures e.MouseWheel? && e.dx == x && e.dy == y
    {
      e := MouseWheel(x, y);
    }

    /** `mouse_button_down_event`: the button's code and the pointer's world position. */
    method MouseButtonDownEvent(b: MouseButton, x: real, y: real, screen: Screen) returns (e: Event)
      ensures e.MouseButtonDown? && ButtonFromCode(e.button) == Some(b)
      ensures e.pos.Some? <==> Camera.Invertible(proj, screen)
      ensures e.pos.Some? ==> Camera.Project(proj, screen, e.pos.value) == Camera.ScreenToClip(x / screen.w, y / screen.h)
    {
      e := MouseButtonDown(ButtonCode(b), Camera.PointerToWorld(proj, screen, x, y));
    }

    /** `mouse_button_up_event`: as for a press, with the release tag. */
    method MouseButtonUpEvent(b: MouseButton, x: real, y: real, screen: Screen) returns (e: Event)
      ensures e.MouseButtonUp? && ButtonFromCode(e.button) == Some(b)
      ensures e.pos.Some? <==> Camera.Invertible(proj, screen)
      ensures e.pos.Some? ==> Camera.Project(proj, screen, e.pos.value) == Camera.ScreenToClip(x / screen.w, y / screen.h)
    {
      e := MouseButtonUp(ButtonCode(b), Camera.PointerToWorld(proj, screen, x, y));
    }
  }
}
