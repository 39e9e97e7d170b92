# therapy canvas core in Dafny

This project models the core of *therapy*, a small drawing canvas that other programs control over
two sockets. The canvas keeps named **layers** of triangles and a **camera**.

- A **request socket** answers queries and acknowledged layer commands: Hello, ScreenToWorld,
  GetLayers, DeleteLayer, ShowLayer, HideLayer, SetLayerPos and ScreenSize.
- A **subscribe socket** takes fire-and-forget commands and sends no reply: DrawLine, Pan and Zoom.
- The canvas publishes key, pointer, wheel and button **events**. Pointer and button positions are
  in world coordinates; the wheel's deltas are published as they come.

The model covers these parts of `src/main.rs`:

- **The line builder (`draw_line`).** It turns a segment into a quad of four vertices and two
  triangles, or into nothing when the segment is degenerate. See `geometry.dfy`.
- **The layer store.** It is a dictionary from names to layers. Operations are draw-append, delete,
  show, hide, set-position and list names, with the invariant that every triangle index is below its
  layer's vertex count. See `layers.dfy`.
- **The camera.** `proj` is only ever right-multiplied by translations and uniform X/Y scales, so its
  action on the X/Y plane is kept as three reals (scale, tx, ty). Then come the viewport
  normalisation 2500 / width and 2500 / height, and the inverse that `screen_to_world` applies.
  See `camera.dfy`.
- **The command protocol.** This is the tag byte decoding, the frame checks, and the split of the
  commands between the two sockets. See `protocol.dfy`.
- **Outbound events.** This is the modifier list of a key press, the mouse-button codes and the
  event tags. See `events.dfy`.
- **The stage.** It is a class whose fields are the layer dictionary and the camera. Its methods
  mirror `Stage::new`, `Stage::draw_line`, `pan`, `zoom`, the arms of `process_req` and
  `process_sub`, the serving loop of `update` and the mouse handlers. Every state-changing method
  is stated against a pure function of the old state, and the lemmas are proved about those
  functions. See `engine.dfy`.

Every panic of the program becomes a `Fault` value. A faulty frame leaves the state exactly as it
was, because every check and every payload decode happens before the first change. `Update` stops
serving at the first fault, as the program stops running there.

`Stage::new` draws two crosshair lines into a layer called "origin". A fresh stage therefore lists
one layer, "origin", before anything is drawn. So in a scenario that draws into a layer "a",
GetLayers answers with both "origin" and "a", not "a" alone. The model follows the code.

## Model

| member | source | states |
|---|---|---|
| Protocol.Tag | src/main.rs:13-26 | The `repr(u8)` discriminant of each command, 0 to 10. `TagRoundTrip` and `TagInjective` show that `FromU8` inverts it and that no two commands share a byte. |
| Protocol.FromU8 | src/main.rs:13-45 | Bytes 0 to 10 decode to a command, and every other byte is refused. A decoded command's tag is the byte it came from. |
| Protocol.TagRoundTrip | src/main.rs:13-45 | Decoding a command's own tag gives back that command. |
| Protocol.TagInjective | src/main.rs:13-26 | No two commands share a tag byte. |
| Protocol.ParseFrame | src/main.rs:350-355 | A frame passes exactly when it has two parts and a one-byte tag part whose byte is at most 10. It then yields that tag's command and the payload part. Each failure is named in the program's order of checks: no part, tag part not one byte, wrong part count, unknown tag. |
| Protocol.DecodeReq | src/main.rs:349-433 | A frame-check fault passes through unchanged. DrawLine, Pan and Zoom are refused on the request socket. A decoded query's command is the frame's tag, and Hello is accepted only with an empty payload. The arguments are the payload's fields. |
| Protocol.DecodeSub | src/main.rs:438-480 | A frame-check fault passes through unchanged. Every command except DrawLine, Pan and Zoom is refused on the subscribe socket. A decoded update's command is the tag, and its arguments are the payload's fields. |
| Protocol.ChannelsDisjoint | src/main.rs:364-366 | No frame is served by both sockets. |
| Protocol.QueryRoundTrip | src/main.rs:360-433 | Every query sent in a well-formed frame decodes back to itself on the request socket and is refused on the subscribe socket. |
| Protocol.UpdateRoundTrip | src/main.rs:438-480 | Every update sent in a well-formed frame decodes back to itself on the subscribe socket and is refused on the request socket. |
| Protocol.HelloNeedsEmptyPayload | src/main.rs:360-363 | Hello with a non-empty payload is a payload fault. |
| Geometry.BuildLine | src/main.rs:780-821 | A segment is degenerate exactly when the builder returns no vertices, and then it returns no triangles either. Otherwise there are exactly four vertices and the triangles (0,1,2) and (2,1,3). Every vertex carries the given colour and texture coordinate (0,0), and every index is below the vertex count. |
| Geometry.QuadShape | src/main.rs:802-814 | Vertex 0 is (x1 + tx, y1 + ty), vertex 1 is (x1 − tx, y1 − ty), vertex 2 is (x2 + tx, y2 + ty) and vertex 3 is (x2 − tx, y2 − ty), with (tx, ty) the half offset. So each long side spans the segment, the two sides are twice the half offset apart, and the offset is perpendicular to the segment. |
| Geometry.Tlen | src/main.rs:796 | tlen is undefined exactly for a zero thickness, and it is 0 whenever the computed length is 0. `NegativeThicknessDegenerate` and `DegenerateIffShort` state its sign and its size. |
| Geometry.Degenerate | src/main.rs:797-800 | The builder's early return `tlen < f32::EPSILON`. `DegenerateIffShort` restates it as a bound on the squared length, and `BuildLine` shows it is exactly the empty result. |
| Geometry.HalfOffset | src/main.rs:802-803 | The offset (nx / tlen, ny / tlen). `HalfOffsetLength` proves it has length thickness/2, and `QuadShape` proves it perpendicular to the segment. |
| Geometry.HalfOffsetLength | src/main.rs:796-803 | For a positive thickness and a true square root, the half offset has length thickness/2. |
| Geometry.NegativeThicknessDegenerate | src/main.rs:796-800 | A negative thickness always makes the segment degenerate. |
| Geometry.ZeroLengthDegenerate | src/main.rs:788-800 | A zero-length segment is degenerate exactly when the thickness is non-zero. A zero thickness gives an f32 NaN, and NaN never passes the test. |
| Geometry.DegenerateIffShort | src/main.rs:796-800 | For a positive thickness and a true square root, the test `tlen < EPSILON` holds exactly when the squared length is below (EPSILON · thickness/2)². |
| Layers.NewLayer | src/main.rs:106-114 | `Layer::new`: identity model, no vertices, no triangles, shown. `DrawCreates` shows it is what a first draw appends to. |
| Layers.Shift | src/main.rs:307-315 | Every triangle has each index raised by the offset. Indices below n become indices below n + offset. |
| Layers.Append | src/main.rs:307-316 | The new vertices follow the old ones. The old triangles are kept as a prefix, and each new triangle is raised by the pre-append vertex count. Model and visibility are kept, and so is the index invariant. |
| Layers.Draw | src/main.rs:296-317 | The named layer is created if absent. It becomes its old content (or a new layer) with the mesh appended, every other layer is unchanged, and the index invariant is preserved. |
| Layers.DrawCreates | src/main.rs:106-114 | After a draw the layer exists even if the mesh is empty. A layer created by a draw is `Layer::new` (identity, shown) holding exactly the mesh. |
| Layers.AppendTwice | src/main.rs:307-316 | Two appends to one layer: the counts add up, and the second mesh's triangles are raised by the vertex count after the first append. The invariant holds. |
| Layers.DrawTwice | src/main.rs:307-316 | After two draws the vertex and triangle counts are the sums. The second mesh's triangles are offset by everything the layer held after the first, and the invariant holds. |
| Layers.Delete | src/main.rs:381-386 | The name is gone, every other layer is kept unchanged, and a missing name changes nothing. |
| Layers.SetHidden | src/main.rs:387-408 | Only the named layer's visibility flag changes. A missing name changes nothing. |
| Layers.SetHiddenIdempotent | src/main.rs:387-408 | Showing or hiding twice is the same as doing it once. |
| Layers.SetHiddenLastWins | src/main.rs:387-408 | Of two visibility commands, the later one decides. |
| Layers.SetPosition | src/main.rs:411-425 | The named layer's model becomes the translation (x, y, 0) whatever it was before. Vertices, triangles and visibility are kept, and a missing name changes nothing. |
| Layers.SetPositionOverwrites | src/main.rs:416-420 | Placements overwrite rather than compose. |
| Layers.HideExcludes | src/main.rs:524-527 | A hidden layer leaves the set of layers the render pass draws, and nothing else leaves it. The layer stays in the store. |
| Layers.ShowIncludes | src/main.rs:524-527 | A shown layer joins the set of layers the render pass draws, and nothing else joins it. |
| Camera.Pan | src/main.rs:319-322 | A pan keeps the zoom level. The panned camera sends (−x, −y) where the old camera sent the world origin. |
| Camera.Zoom | src/main.rs:323-326 | A zoom keeps the image of the world origin fixed, and a zoom by 1 changes nothing. |
| Camera.Project | src/main.rs:328-337 | `calc_proj_matrix` applied to a world point: the viewport normalisation first, then the camera. `ScreenToWorld` and `ScreenToWorldExact` prove that the inverse undoes exactly this map. |
| Camera.PanActsFirst | src/main.rs:319-322 | A pan acts on a point before the earlier camera, because the translation is right-multiplied. |
| Camera.ZoomActsFirst | src/main.rs:323-326 | A zoom acts on a point before the earlier camera. |
| Camera.ScreenToWorld | src/main.rs:328-347 | The inverse exists exactly when the scale and the window size are non-zero. When it exists, projecting the result gives the clip point (2u−1, 1−2v). |
| Camera.ScreenToWorldExact | src/main.rs:340-347 | A world point is the answer exactly when the projection sends it to the clip point. |
| Camera.CentreIsOrigin | src/main.rs:340-347 | With a fresh camera, the window centre (0.5, 0.5) maps to the world origin for every window size. |
| Camera.PointerToWorld | src/main.rs:727-730 | A pixel position divided by the window size is pushed through the inverse. A result exists exactly when the projection is invertible, and it projects onto the pointer's clip point. |
| Camera.PointerAtCentre | src/main.rs:727-730 | With a fresh camera, the middle pixel of the window points at the world origin. |
| Camera.PanRoundTrip | src/main.rs:319-322 | Panning by (dx, dy) and then by (−dx, −dy) restores the camera. |
| Camera.ZoomRoundTrip | src/main.rs:323-326 | Zooming by k ≠ 0 and then by 1/k restores the camera. |
| Camera.PanPan | src/main.rs:319-322 | Two pans are one pan by the sum. |
| Camera.ZoomThenPan | src/main.rs:319-326 | A pan after a zoom by k equals a pan k times as far before that zoom, so pan and zoom do not commute. |
| Camera.ReplayAppend | src/main.rs:319-326 | Replaying two batches of camera operations is replaying their concatenation in order. |
| Camera.PanShiftsWorld | src/main.rs:319-347 | After a pan (x, y), the world point under any screen position moves by minus the pan, divided by the normalisation 2500/width, 2500/height. |
| Events.Rank | src/main.rs:580-592 | The rank of a name is below 4 exactly for the four modifier names, and it gives each name's position in the order shift, ctrl, alt, logo. |
| Events.PushStep | src/main.rs:580-592 | One conditional push extends the listing rule from the first k modifiers to the first k+1. |
| Events.ModifierNames | src/main.rs:580-592 | The list holds only modifier names, strictly in the order shift, ctrl, alt, logo (so without repeats), and each name appears exactly when its flag is set. |
| Events.SortedUnique | src/main.rs:580-592 | Two rank-ordered lists with the same members are equal. |
| Events.ModifiersUnique | src/main.rs:580-592 | The listing rule determines the modifier list completely. |
| Events.KeyDownEvent | src/main.rs:594-602 | A key press is published as tag 0 with the key, its modifier list and the repeat flag. |
| Events.ButtonCode | src/main.rs:70-78 | Every button code is below 4. |
| Events.ButtonFromCode | pytherapy/eventsub.py:12-16 | The subscriber's table reads exactly the codes 0 to 3. |
| Events.ButtonRoundTrip | src/main.rs:70-78 | The publisher's button codes and the subscriber's table agree on every button. |
| Events.ButtonCodeRoundTrip | pytherapy/eventsub.py:12-16 | Every code the subscriber reads is the code of the button it reads. |
| Events.EventTag | src/main.rs:57-64 | Every event tag is below 5. |
| Events.KindFromTag | pytherapy/eventsub.py:5-10 | The subscriber's table reads exactly the tags 0 to 4. |
| Events.EventTagRoundTrip | pytherapy/eventsub.py:38-68 | The subscriber reads every published message as the kind of event it is: the publisher's tags and the subscriber's table agree. |
| Events.EventTagDeterminesKind | src/main.rs:57-64 | Two events share a tag exactly when they are of the same kind. |
| Engine.Replies | src/main.rs:360-433 | The reply of each request arm. Hello answers "hello", ScreenToWorld answers the inverse, GetLayers lists every layer name once, the layer commands answer whether the layer existed, and ScreenSize answers the window size. `Stage.ProcessReq` proves each arm gives it. |
| Engine.AfterQuery | src/main.rs:360-433 | No request-socket command moves the camera or adds a layer, and none breaks the index invariant. The read-only queries change nothing. |
| Engine.AfterUpdate | src/main.rs:438-480 | A line changes only the layers, adding at most its own name. Pan and zoom change only the camera. The index invariant is preserved. |
| Engine.Serve | src/main.rs:498-503 | One readable frame is served by its socket's dispatcher. It fails exactly when that socket's decoder fails. A request never moves the camera, and the index invariant is kept. |
| Engine.Run | src/main.rs:484-511 | The frames of `update`, served in order until the first fault. `RunKeepsWellFormed`, `RunAppend`, `RunHaltsAtFault`, `RequestsKeepCamera` and `CameraFramesReplay` state what this fold guarantees. |
| Engine.RunKeepsWellFormed | src/main.rs:484-511 | No sequence of frames, faulty or not, breaks the index invariant. |
| Engine.RunAppend | src/main.rs:484-511 | Serving two fault-free batches is serving their concatenation, so order is kept across polls. |
| Engine.RunHaltsAtFault | src/main.rs:484-511 | Once a frame faults, nothing after it is served. |
| Engine.RequestsKeepCamera | src/main.rs:349-436 | Request-socket frames never move the camera. |
| Engine.CameraFramesReplay | src/main.rs:463-474 | Serving the subscribe frames of any sequence of pans and zooms never faults and keeps the layers. It moves the camera exactly as `Camera.Replay` of the operations in arrival order. |
| Engine.OrderMatters | src/main.rs:463-474 | Pan then zoom and zoom then pan leave different cameras. |
| Engine.ShiftFaces | src/main.rs:310-314 | The in-place loop raises every index of every triangle by the offset: the array becomes `Shift` of its old contents. |
| Engine.OriginLineDrawn | src/main.rs:279-291 | A crosshair line, 0.2 long and 0.001 thick, is not degenerate. |
| Engine.OriginCrosshair | src/main.rs:279-291 | A new stage's store holds exactly the layer "origin". With a square root exact at 0.04, that layer holds two quads (8 vertices, 4 triangles) and is shown. |
| Engine.Stage.constructor | src/main.rs:132-292 | A new stage has an identity camera and the crosshair store, and satisfies the index invariant. |
| Engine.Stage.DrawLine | src/main.rs:296-317 | The layers become `Draw` of the old layers with the builder's mesh. The camera is kept and the invariant is preserved. |
| Engine.Stage.Pan | src/main.rs:319-322 | The camera is right-multiplied by the translation. The layers are kept, and so is the invariant. |
| Engine.Stage.Zoom | src/main.rs:323-326 | The camera is right-multiplied by the scale. The layers are kept, and so is the invariant. |
| Engine.Stage.DeleteLayer | src/main.rs:381-386 | The answer is true exactly when the name was a layer. The layers become `Delete` of the old ones. |
| Engine.Stage.SetLayerHidden | src/main.rs:387-408 | The answer is true exactly when the name was a layer. The layers become `SetHidden` of the old ones. |
| Engine.Stage.SetLayerPos | src/main.rs:411-425 | The answer is true exactly when the name was a layer. The layers become `SetPosition` of the old ones. |
| Engine.Stage.ListLayers | src/main.rs:376-380 | Every layer name is listed exactly once. |
| Engine.Stage.ProcessReq | src/main.rs:349-436 | A frame fails exactly when decoding fails, and then the state is untouched. Otherwise the reply is the one the query calls for, and the state is `AfterQuery` of the old one. |
| Engine.Stage.ProcessSub | src/main.rs:438-480 | A frame fails exactly when decoding fails, and then the state is untouched. Otherwise the state is `AfterUpdate` of the old one. |
| Engine.Stage.Update | src/main.rs:484-511 | Serving the ready frames in order gives the state and fault of `Run`, and the invariant is preserved. |
| Engine.Stage.MouseMotionEvent | src/main.rs:727-738 | A position is published exactly when the projection is invertible, and it projects onto the pointer's clip point. |
| Engine.Stage.MouseWheelEvent | src/main.rs:739-748 | The subscriber reads the message as a wheel event. It carries the wheel deltas as given, with no conversion to world units, unlike the pointer events. |
| Engine.Stage.MouseButtonDownEvent | src/main.rs:750-764 | The button's code reads back as the button, with the pointer's world position as for motion. |
| Engine.Stage.MouseButtonUpEvent | src/main.rs:765-777 | The same as a press, under the release event. |

## Left out

- Rendering is left out: miniquad setup, shaders, the pipeline, buffer uploads and `draw`. Only the
  render pass's skipping of hidden layers is kept, as `Layers.Rendered`.
- The sockets are left out: binding, `recv_multipart`, `send`, `poll` and the 20 ms time budget of
  `update`. A frame is an argument and a reply is a result. `Stage.Update` takes the ready frames as a
  sequence in the order they are served. The model does not say which socket is ready when.
- Payload byte encoding and decoding belong to a serialization library that is not part of this
  model. A message part carries its raw bytes together with the typed fields that library yields.
  Only Hello's check of an empty payload uses the raw bytes.
- f32 arithmetic is modelled on reals, and `f32::sqrt` is a parameter. Rounding, infinities, NaN and
  the sign of zero are not modelled. The one case kept is a +0.0 thickness on a segment of non-zero
  length: tlen is +inf there, the segment is not degenerate, and the offset is zero.
- Geometry.Tlen: a thickness of −0.0 on a segment of non-zero length gives tlen = −inf in the program,
  which is below epsilon, so the program draws nothing. Reals have no −0.0, so the model treats it as
  +0.0 and draws a quad of zero width.
- Geometry.HalfOffset: for a segment of zero length and zero thickness, tlen is NaN in the program.
  The segment is not degenerate and the program's corners are NaN. The model gives a zero offset, so
  its four corners are the end point.
- Geometry.BuildLine: the degeneracy test is exact over reals. The f32 rounding, which can move a
  borderline segment to the other side of epsilon, is not modelled.
- Camera.ScreenToWorld: a singular projection gives None. The program's f32 inverse gives
  non-finite numbers there instead.
- The 4x4 matrices are modelled only by their X/Y action (scale, tx, ty). Pan moves Z by 0 and zoom
  scales Z by 1, so the Z row never matters.
- u32 arithmetic on face indices is not modelled: indices are unbounded naturals, so the `as u32`
  truncation of the vertex count and wrap-around on overflow are out.
- The key-code-to-name table of `key_down_event` is left out. It is a fixed name per key, so the key
  is an input string.
- Logging, `main` and the Python client scripts are left out. So are the pybind11 libinput wrapper
  and the D-Bus stubs, which are I/O with no canvas state. Of the subscriber, only its two code
  tables are used, to check that they agree with the publisher.
- The screen size is an input of every member that needs it (`window::screen_size`).
