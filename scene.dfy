/**
 * The part of the Three.js scene graph that the preview renderer and the AR controller change.
 *
 * A `Node` is an `Object3D` the application holds a reference to (a generated sign, the AR
 * reticle, the XR controller, a placed clone). What `traverse` visits below a node is kept as a
 * sequence of `Part` values in traversal order, the node itself first; meshes own a geometry and
 * a material slot (one material or an array). The scene's top-level children are a sequence of
 * nodes; every node the application places goes directly under the scene.
 */
module Scene {

  datatype Vec3 = Vec3(x: real, y: real, z: real)

  const Origin := Vec3(0.0, 0.0, 0.0)

  /** A 4x4 matrix in Three.js column-major element order. */
  type Matrix4 = m: seq<real> | |m| == 16
    witness [1.0, 0.0, 0.0, 0.0, 0.0, 1.0, 0.0, 0.0, 0.0, 0.0, 1.0, 0.0, 0.0, 0.0, 0.0, 1.0]

  const Identity: Matrix4 := [1.0, 0.0, 0.0, 0.0, 0.0, 1.0, 0.0, 0.0, 0.0, 0.0, 1.0, 0.0, 0.0, 0.0, 0.0, 1.0]

  /** The translation a matrix carries (`Vector3.setFromMatrixPosition`): elements 12, 13 and 14. */
  function Translation(m: Matrix4): Vec3 {
    Vec3(m[12], m[13], m[14])
  }

  /**
   * A material: a Phong material (colour, specular colour, shininess, reflectivity) or a basic
   * material (colour, opacity, transparency). Colours are hexadecimal text such as "#ffffff".
   */
  datatype Material =
    | Phong(color: string, specular: string, shininess: nat, reflectivity: real, wireframe: bool)
    | Basic(color: string, opacity: real, transparent: bool, wireframe: bool)
  {
    function WithWireframe(enable: bool): (m: Material)
      ensures m.wireframe == enable
      ensures m.color == color
    {
      match this
      case Phong(c, sp, sh, re, _) => Phong(c, sp, sh, re, enable)
      case Basic(c, op, tr, _) => Basic(c, op, tr, enable)
    }
  }

  /** A mesh's `material`: one material, or an array indexed by geometry group. */
  datatype MaterialSlot = Single(m: Material) | Many(ms: seq<Material>)

  /** One object visited by `traverse`: a mesh, or anything else (a group, a light). */
  datatype Part =
    | Mesh(geometry: nat, material: MaterialSlot, castShadow: bool, receiveShadow: bool)
    | Other

  class Node {
    /** This object and its descendants in traversal order. */
    var parts: seq<Part>
    var visible: bool
    var matrix: Matrix4
    var position: Vec3
    /** `userData.isARPlacedObject`. */
    var placed: bool
    /** Whether the AR select handler is registered on this object. */
    var selectListener: bool
    /** Whether the geometry and materials of this object itself have been disposed. */
    var disposed: bool

    constructor (parts: seq<Part>)
      ensures this.parts == parts && visible && matrix == Identity && position == Origin
      ensures !placed && !selectListener && !disposed
    {
      this.parts := parts;
      visible := true;
      matrix := Identity;
      position := Origin;
      placed := false;
      selectListener := false;
      disposed := false;
    }

    /**
     * `Object3D.clone`: a new object with the same descendants (meshes share their geometry and
     * materials), transform, visibility and user data; event listeners are not copied.
     */
    method Clone() returns (c: Node)
      ensures fresh(c)
      ensures c.parts == parts && c.visible == visible && c.matrix == matrix && c.position == position
      ensures c.placed == placed && !c.selectListener && !c.disposed
    {
      c := new Node(parts);
      c.visible := visible;
      c.matrix := matrix;
      c.position := position;
      c.placed := placed;
    }

    /**
     * Disposes this object's own geometry and materials. Only a mesh owns them; the meshes below a
     * group are not reached.
     */
    method Dispose()
      modifies this
      ensures disposed == (old(disposed) || (|parts| > 0 && parts[0].Mesh?))
      ensures parts == old(parts) && visible == old(visible) && matrix == old(matrix)
      ensures position == old(position) && placed == old(placed) && selectListener == old(selectListener)
    {
      if |parts| > 0 && parts[0].Mesh? {
        disposed := true;
      }
    }
  }

  /** `s` with every occurrence of `n` removed, the rest in order. */
  function Without(s: seq<Node>, n: Node): (r: seq<Node>)
    ensures n !in r
    ensures forall i :: 0 <= i < |r| ==> r[i] in s
    ensures forall i :: 0 <= i < |s| && s[i] != n ==> s[i] in r
    ensures |r| <= |s|
  {
    if s == [] then []
    else if s[0] == n then Without(s[1..], n)
    else [s[0]] + Without(s[1..], n)
  }

  /** The elements of `s` that are not in `gone`, in order. */
  function Dropping(s: seq<Node>, gone: seq<Node>): (r: seq<Node>)
    ensures forall i :: 0 <= i < |r| ==> r[i] in s && r[i] !in gone
    ensures forall i :: 0 <= i < |s| && s[i] !in gone ==> s[i] in r
  {
    if s == [] then []
    else if s[0] in gone then Dropping(s[1..], gone)
    else [s[0]] + Dropping(s[1..], gone)
  }

  /** The nodes of `s` tagged as placed in AR, in order. */
  function Placed(s: seq<Node>): (r: seq<Node>)
    reads set n | n in s
    ensures forall i :: 0 <= i < |r| ==> r[i] in s && r[i].placed
    ensures forall i :: 0 <= i < |s| && s[i].placed ==> s[i] in r
  {
    if s == [] then []
    else if s[0].placed then [s[0]] + Placed(s[1..])
    else Placed(s[1..])
  }

  /** The nodes of `s` not tagged as placed in AR, in order. */
  function Unplaced(s: seq<Node>): (r: seq<Node>)
    reads set n | n in s
    ensures forall i :: 0 <= i < |r| ==> r[i] in s && !r[i].placed
    ensures forall i :: 0 <= i < |s| && !s[i].placed ==> s[i] in r
  {
    if s == [] then []
    else if s[0].placed then Unplaced(s[1..])
    else [s[0]] + Unplaced(s[1..])
  }

  /** `scene.remove(n)` when `n` is non-null; the children unchanged otherwise. */
  function Detached(children: seq<Node>, n: Node?): (r: seq<Node>)
    ensures forall i :: 0 <= i < |r| ==> r[i] in children
  {
    if n == null then children else Without(children, n)
  }

  /** No node of `s` is tagged as placed in AR. */
  predicate NonePlaced(s: seq<Node>)
    reads set n | n in s
  {
    forall i :: 0 <= i < |s| ==> !s[i].placed
  }

  predicate Distinct(s: seq<Node>) {
    forall i, j :: 0 <= i < j < |s| ==> s[i] != s[j]
  }

  lemma {:induction false} WithoutAbsent(s: seq<Node>, n: Node)
    requires n !in s
    ensures Without(s, n) == s
  {
    if s != [] {
      WithoutAbsent(s[1..], n);
    }
  }

  /** The tail of a sequence without repeats has none, and does not hold the head. */
  lemma DistinctTail(s: seq<Node>)
    requires Distinct(s) && s != []
    ensures Distinct(s[1..]) && s[0] !in s[1..]
  {
    var t := s[1..];
    forall a, b | 0 <= a < b < |t| ensures t[a] != t[b] {
      assert t[a] == s[a + 1] && t[b] == s[b + 1];
    }
    forall a | 0 <= a < |t| ensures t[a] != s[0] {
      assert t[a] == s[a + 1];
    }
  }

  /** In a sequence without repeats, removing `n` is splicing out its one position. */
  lemma {:induction false} WithoutAt(s: seq<Node>, i: nat)
    requires Distinct(s) && i < |s|
    ensures Without(s, s[i]) == s[..i] + s[i + 1..]
  {
    DistinctTail(s);
    var t := s[1..];
    if i == 0 {
      WithoutAbsent(t, s[0]);
    } else {
      assert t[i - 1] == s[i] && s[0] != s[i];
      WithoutAt(t, i - 1);
      assert Without(s, s[i]) == [s[0]] + Without(t, s[i]);
      assert s[..i] == [s[0]] + t[..i - 1];
      assert t[i..] == s[i + 1..];
    }
  }

  lemma {:induction false} WithoutKeepsDistinct(s: seq<Node>, n: Node)
    requires Distinct(s)
    ensures Distinct(Without(s, n))
  {
    if s != [] {
      WithoutKeepsDistinct(s[1..], n);
    }
  }

  /** Removing the dropped nodes one at a time is dropping them all. */
  lemma {:induction false} DroppingStep(s: seq<Node>, gone: seq<Node>, n: Node)
    ensures Without(Dropping(s, gone), n) == Dropping(s, gone + [n])
  {
    if s != [] {
      DroppingStep(s[1..], gone, n);
    }
  }

  /** The step of DroppingStep for the next node of a list being dropped front to back. */
  lemma DroppingPrefix(s: seq<Node>, objs: seq<Node>, k: nat)
    requires k < |objs|
    ensures Without(Dropping(s, objs[..k]), objs[k]) == Dropping(s, objs[..k + 1])
    ensures forall n :: n in objs[..k + 1] <==> n in objs[..k] || n == objs[k]
  {
    DroppingStep(s, objs[..k], objs[k]);
    assert objs[..k + 1] == objs[..k] + [objs[k]];
  }

  lemma {:induction false} DroppingNothing(s: seq<Node>)
    ensures Dropping(s, []) == s
  {
    if s != [] {
      DroppingNothing(s[1..]);
    }
  }

  /** Dropping the placed nodes of a sequence leaves exactly its unplaced nodes, in order. */
  lemma {:induction false} DroppingPlaced(s: seq<Node>, gone: seq<Node>)
    requires forall i :: 0 <= i < |s| ==> (s[i] in gone <==> s[i].placed)
    ensures Dropping(s, gone) == Unplaced(s)
  {
    if s != [] {
      DroppingPlaced(s[1..], gone);
    }
  }

  /** A sequence drawn from untagged nodes, extended by an untagged node, has no tagged node. */
  lemma NonePlacedKept(s: seq<Node>, r: seq<Node>, n: Node)
    requires NonePlaced(s) && !n.placed
    requires forall i :: 0 <= i < |r| ==> r[i] in s
    ensures NonePlaced(r + [n])
  {
    forall i | 0 <= i < |r + [n]|
      ensures !(r + [n])[i].placed
    {
      if i < |r| {
        var j :| 0 <= j < |s| && s[j] == r[i];
      }
    }
  }

  lemma {:induction false} PlacedAppend(s: seq<Node>, x: Node)
    ensures Placed(s + [x]) == Placed(s) + (if x.placed then [x] else [])
  {
    if s == [] {
      assert [x][1..] == [];
    } else {
      assert (s + [x])[1..] == s[1..] + [x];
      PlacedAppend(s[1..], x);
    }
  }

  /** Placed and unplaced nodes depend only on the tags, not on anything else a step changes. */
  twostate lemma PlacedStable(s: seq<Node>)
    requires forall i :: 0 <= i < |s| ==> old(s[i].placed) == s[i].placed
    ensures old(Placed(s)) == Placed(s) && old(Unplaced(s)) == Unplaced(s)
  {
    if s != [] {
      PlacedStable(s[1..]);
    }
  }

  /** Everything about a node except whether it has been disposed is as it was. */
  twostate predicate Kept(n: Node)
    reads n
  {
    n.parts == old(n.parts) && n.placed == old(n.placed) && n.visible == old(n.visible) &&
    n.matrix == old(n.matrix) && n.position == old(n.position) && n.selectListener == old(n.selectListener)
  }

  class SceneGraph {
    var children: seq<Node>

    ghost predicate Valid()
      reads this
    {
      Distinct(children)
    }

    constructor ()
      ensures Valid() && children == []
    {
      children := [];
    }

    /**
     * `Object3D.add`: the node is detached from this scene if it is already a child, then
     * appended as the last child.
     */
    method Add(n: Node)
      requires Valid()
      modifies this
      ensures Valid()
      ensures children == Without(old(children), n) + [n]
    {
      Remove(n);
      children := children + [n];
    }

    /** The traversal that collects the children tagged as placed in AR, in order. */
    method CollectPlaced() returns (r: seq<Node>)
      ensures r == Placed(children)
    {
      r := [];
      var i := 0;
      while i < |children|
        invariant 0 <= i <= |children|
        invariant r == Placed(children[..i])
      {
        PlacedAppend(children[..i], children[i]);
        assert children[..i + 1] == children[..i] + [children[i]];
        if children[i].placed {
          r := r + [children[i]];
        }
        i := i + 1;
      }
      assert children[..i] == children;
    }

    /**
     * The teardown of placed clones: every child tagged as placed is collected, then removed and
     * disposed; the untagged children stay, in order.
     */
    method RemovePlaced() returns (removed: seq<Node>)
      requires Valid()
      modifies this, set n | n in children
      ensures Valid()
      ensures removed == old(Placed(children))
      ensures children == old(Unplaced(children))
      ensures NonePlaced(children)
      ensures forall j :: 0 <= j < |removed| ==>
        removed[j].disposed == (old(removed[j].disposed) || (|removed[j].parts| > 0 && removed[j].parts[0].Mesh?))
      ensures forall i :: 0 <= i < |old(children)| ==> Kept(old(children)[i])
    {
      removed := CollectPlaced();
      DroppingPlaced(children, removed);
      ghost var start := children;
      RemoveAndDispose(removed);
      forall i | 0 <= i < |start|
        ensures old(start[i].placed) == start[i].placed && Kept(start[i])
      {
        if start[i] in removed {
          var j :| 0 <= j < |removed| && removed[j] == start[i];
        }
      }
      PlacedStable(start);
    }

    /** Removes each of `objs` from the scene in turn and disposes its geometry and materials. */
    method RemoveAndDispose(objs: seq<Node>)
      requires Valid()
      modifies this, set n | n in objs
      ensures Valid()
      ensures children == Dropping(old(children), objs)
      ensures forall j :: 0 <= j < |objs| ==>
        objs[j].disposed == (old(objs[j].disposed) || (|objs[j].parts| > 0 && objs[j].parts[0].Mesh?))
      ensures forall j :: 0 <= j < |objs| ==> Kept(objs[j])
    {
      DroppingNothing(children);
      var k := 0;
      while k < |objs|
        invariant 0 <= k <= |objs| && Valid()
        invariant children == Dropping(old(children), objs[..k])
        invariant forall j :: 0 <= j < |objs| ==>
          objs[j].disposed == (old(objs[j].disposed) || (objs[j] in objs[..k] && |objs[j].parts| > 0 && objs[j].parts[0].Mesh?))
        invariant forall j :: 0 <= j < |objs| ==> Kept(objs[j])
      {
        DroppingPrefix(old(children), objs, k);
        Remove(objs[k]);
        objs[k].Dispose();
        k := k + 1;
      }
      assert objs[..k] == objs;
    }

    /** `Object3D.remove`: the node's position among the children is found and spliced out. */
    method Remove(n: Node)
      requires Valid()
      modifies this
      ensures Valid()
      ensures children == Without(old(children), n)
    {
      var i := 0;
      while i < |children| && children[i] != n
        invariant 0 <= i <= |children|
        invariant n !in children[..i]
      {
        i := i + 1;
      }
      if i < |children| {
        WithoutAt(children, i);
        WithoutKeepsDistinct(children, n);
        children := children[..i] + children[i + 1..];
      } else {
        assert children[..i] == children;
        WithoutAbsent(children, n);
      }
    }
  }
}
