/**
 * The layer store: a dictionary from layer names to layers, each with its own transform, vertex list,
 * triangle list and visibility flag. The operations here are the store's value semantics; the engine's
 * stage applies them to its own dictionary in place.
 */
module Layers {
  import opened Common
  import opened Geometry

  /** A layer's model matrix. Only the identity and pure translations (x, y, 0) are ever stored. */
  datatype Translation = Translation(x: real, y: real)

  const Identity := Translation(0.0, 0.0)

  datatype Layer = Layer(model: Translation, verts: seq<Vertex>, faces: seq<Face>, isHidden: bool)

  type Store = map<string, Layer>

  /** `Layer::new`: identity model, no vertices, no triangles, shown. */
  function NewLayer(): Layer {
    Layer(Identity, [], [], false)
  }

  /** The structural invariant of a layer: every triangle index is below the vertex count. */
  predicate LayerWellFormed(l: Layer) { IndicesBelow(l.faces, |l.verts|) }

  predicate StoreWellFormed(m: Store) {
    forall name :: name in m ==> LayerWellFormed(m[name])
  }

  /** The layer a draw command appends to: the stored one, or a new one (`entry().or_insert_with`). */
  function Entry(m: Store, name: string): Layer {
    if name in m then m[name] else NewLayer()
  }

  /** One triangle with every index moved up by offset (the inner loop `*idx += offset`). */
  function ShiftFace(f: Face, offset: nat): Face {
    Face(f.i0 + offset, f.i1 + offset, f.i2 + offset)
  }

  /** Every triangle of the list moved up by offset. */
  function Shift(faces: seq<Face>, offset: nat): (r: seq<Face>)
    ensures |r| == |faces|
    ensures forall i :: 0 <= i < |faces| ==> r[i] == ShiftFace(faces[i], offset)
    ensures forall n: nat :: IndicesBelow(faces, n) ==> IndicesBelow(r, n + offset)
  {
    if faces == [] then [] else [ShiftFace(faces[0], offset)] + Shift(faces[1..], offset)
  }

  /**
   * A mesh appended to a layer: its vertices go after the layer's, its triangles after the layer's,
   * each index moved up by the layer's vertex count before the append. Transform and visibility are kept,
   * and so is the structural invariant.
   */
  function Append(l: Layer, g: Mesh): (r: Layer)
    ensures r.verts == l.verts + g.verts
    ensures |r.faces| == |l.faces| + |g.faces| && r.faces[..|l.faces|] == l.faces
    ensures forall i :: 0 <= i < |g.faces| ==> r.faces[|l.faces| + i] == ShiftFace(g.faces[i], |l.verts|)
    ensures r.model == l.model && r.isHidden == l.isHidden
    ensures LayerWellFormed(l) && MeshWellFormed(g) ==> LayerWellFormed(r)
  {
    var shifted := Shift(g.faces, |l.verts|);
    var r := l.(verts := l.verts + g.verts, faces := l.faces + shifted);
    assert r.faces[..|l.faces|] == l.faces;
    r
  }

  /**
   * A line drawn into a named layer: the layer is created if absent, the mesh is appended to it,
   * and every other layer is unchanged.
   */
  function Draw(m: Store, name: string, g: Mesh): (r: Store)
    ensures r.Keys == m.Keys + {name}
    ensures r[name] == Append(Entry(m, name), g)
    ensures forall n :: n in m && n != name ==> r[n] == m[n]
    ensures StoreWellFormed(m) && MeshWellFormed(g) ==> StoreWellFormed(r)
  {
    m[name := Append(Entry(m, name), g)]
  }

  /** A layer removed; a missing name leaves the store as it is. */
  function Delete(m: Store, name: string): (r: Store)
    ensures r.Keys == m.Keys - {name}
    ensures forall n :: n in r ==> r[n] == m[n]
    ensures name !in m ==> r == m
    ensures StoreWellFormed(m) ==> StoreWellFormed(r)
  {
    m - {name}
  }

  /** A layer's visibility flag set; nothing else changes, and a missing name changes nothing. */
  function SetHidden(m: Store, name: string, hidden: bool): (r: Store)
    ensures r.Keys == m.Keys
    ensures name in m ==> r[name] == m[name].(isHidden := hidden)
    ensures forall n :: n in m && n != name ==> r[n] == m[n]
    ensures name !in m ==> r == m
    ensures StoreWellFormed(m) ==> StoreWellFormed(r)
  {
    if name in m then m[name := m[name].(isHidden := hidden)] else m
  }

  /**
   * A layer's model replaced by the translation (x, y, 0), whatever it was before; vertices, triangles
   * and visibility are kept, and a missing name changes nothing.
   */
  function SetPosition(m: Store, name: string, x: real, y: real): (r: Store)
    ensures r.Keys == m.Keys
    ensures name in m ==> r[name] == m[name].(model := Translation(x, y))
    ensures forall n :: n in m && n != name ==> r[n] == m[n]
    ensures name !in m ==> r == m
    ensures StoreWellFormed(m) ==> StoreWellFormed(r)
  {
    if name in m then m[name := m[name].(model := Translation(x, y))] else m
  }

  /** The layers the render pass draws: all but the hidden ones. */
  function Rendered(m: Store): set<string> {
    set n | n in m && !m[n].isHidden
  }

  /** `names` lists every layer exactly once, in some order. */
  predicate ListsKeys(names: seq<string>, m: Store) {
    && (forall i :: 0 <= i < |names| ==> names[i] in m)
    && (forall n :: n in m ==> n in names)
    && (forall i, j :: 0 <= i < j < |names| ==> names[i] != names[j])
  }

  /** Setting the same visibility twice is the same as setting it once. */
  lemma SetHiddenIdempotent(m: Store, name: string, hidden: bool)
    ensures SetHidden(SetHidden(m, name, hidden), name, hidden) == SetHidden(m, name, hidden)
  {
  }

  /** The last visibility command wins: hide then show is show, show then hide is hide. */
  lemma SetHiddenLastWins(m: Store, name: string, first: bool, second: bool)
    ensures SetHidden(SetHidden(m, name, first), name, second) == SetHidden(m, name, second)
  {
  }

  /** Positions overwrite rather than compose: the second placement alone decides the model. */
  lemma SetPositionOverwrites(m: Store, name: string, x1: real, y1: real, x2: real, y2: real)
    ensures SetPosition(SetPosition(m, name, x1, y1), name, x2, y2) == SetPosition(m, name, x2, y2)
  {
  }

  /**
   * Drawing into a layer always leaves it in the store, even when the mesh is empty (a degenerate
   * segment): from then on delete, show, hide and set-position find it.
   */
  lemma DrawCreates(m: Store, name: string, g: Mesh)
    ensures name in Draw(m, name, g)
    ensures name !in m ==> Draw(m, name, g)[name] == NewLayer().(verts := g.verts, faces := g.faces)
  {
    if name !in m {
      var r := Draw(m, name, g)[name];
      assert Entry(m, name) == NewLayer();
      assert r.faces == Shift(g.faces, 0);
      assert Shift(g.faces, 0) == g.faces;
    }
  }

  /**
   * Two draws into one layer: the vertex count is the sum of the contributions, and the second mesh's
   * triangles are offset by everything the layer held after the first.
   */
  lemma {:induction false} DrawTwice(m: Store, name: string, g1: Mesh, g2: Mesh)
    requires StoreWellFormed(m) && MeshWellFormed(g1) && MeshWellFormed(g2)
    ensures var l := Draw(Draw(m, name, g1), name, g2)[name];
            && |l.verts| == |Entry(m, name).verts| + |g1.verts| + |g2.verts|
            && |l.faces| == |Entry(m, name).faces| + |g1.faces| + |g2.faces|
            && (forall i :: 0 <= i < |g2.faces| ==>
                  l.faces[|Entry(m, name).faces| + |g1.faces| + i]
                  == ShiftFace(g2.faces[i], |Entry(m, name).verts| + |g1.verts|))
            && LayerWellFormed(l)
  {
    var e := Entry(m, name);
    var m1 := Draw(m, name, g1);
    assert Entry(m1, name) == Append(e, g1);
    assert Draw(m1, name, g2)[name] == Append(Append(e, g1), g2);
    assert LayerWellFormed(e);
    AppendTwice(e, g1, g2);
  }

  /** Two appends to one layer, the step `DrawTwice` rests on. */
  lemma AppendTwice(l: Layer, g1: Mesh, g2: Mesh)
    requires LayerWellFormed(l) && MeshWellFormed(g1) && MeshWellFormed(g2)
    ensures var r := Append(Append(l, g1), g2);
            && |r.verts| == |l.verts| + |g1.verts| + |g2.verts|
            && |r.faces| == |l.faces| + |g1.faces| + |g2.faces|
            && (forall i :: 0 <= i < |g2.faces| ==>
                  r.faces[|l.faces| + |g1.faces| + i] == ShiftFace(g2.faces[i], |l.verts| + |g1.verts|))
            && LayerWellFormed(r)
  {
    var l1 := Append(l, g1);
    var r := Append(l1, g2);
    assert LayerWellFormed(l1);
    assert |l1.verts| == |l.verts| + |g1.verts|;
    var k := |l1.faces|;
    assert k == |l.faces| + |g1.faces|;
    forall i | 0 <= i < |g2.faces|
      ensures r.faces[k + i] == ShiftFace(g2.faces[i], |l1.verts|)
    {
    }
  }

  /** A hidden layer leaves the render pass but stays in the store. */
  lemma HideExcludes(m: Store, name: string)
    requires name in m
    ensures var r := SetHidden(m, name, true);
            name in r && name !in Rendered(r) && Rendered(r) == Rendered(m) - {name}
  {
  }

  /** A shown layer is drawn again, and showing it changes what the render pass draws by that layer alone. */
  lemma ShowIncludes(m: Store, name: string)
    requires name in m
    ensures var r := SetHidden(m, name, false);
            name in Rendered(r) && Rendered(r) == Rendered(m) + {name}
  {
  }
}
