/**
 * The preview renderer's state (js/previewRenderer.js): the animation-frame handle and its
 * pause/resume protocol, the displayed model, the positional material rewrite, the front-colour
 * swap and the wireframe switch.
 *
 * The browser's frame scheduler is modelled by the set of frame callbacks still pending; a new
 * handle from `requestAnimationFrame` is a parameter. The WebXR manager of the renderer
 * (`renderer.xr`) contributes three fields: whether it is presenting, the animation loop handed to
 * `setAnimationLoop`, and the controller object `getController(0)` returns (the same object on
 * every call).
 */
module Preview {
  import opened Wrappers
  import opened Scene

  /** The glossy white front-face material (colour 0xffffff, specular 0x888888). */
  const FrontMaterial := Phong("#ffffff", "#888888", 80, 0.8, false)
  /** The glossy black side material (colour 0x000000, specular 0x999999). */
  const SideMaterial := Phong("#000000", "#999999", 120, 1.0, false)
  const DefaultFrontColor := "#ffffff"
  /** The camera stands this many largest-extents in front of the model. */
  const DistanceFactor := 1.5
  const InitialCamera := Vec3(0.0, 0.0, 400.0)

  /** The front material built for a chosen front colour. */
  function FrontColored(color: string): (m: Material)
    ensures m.color == color && !m.wireframe
    ensures m.Phong? && m.specular == FrontMaterial.specular && m.shininess == FrontMaterial.shininess
    ensures m.reflectivity == FrontMaterial.reflectivity
  {
    Phong(color, "#888888", 80, 0.8, false)
  }

  /** The materials a traversed object owns: none, one, or its material array. */
  function Materials(p: Part): seq<Material> {
    match p
    case Other => []
    case Mesh(_, Single(m), _, _) => [m]
    case Mesh(_, Many(ms), _, _) => ms
  }

  /**
   * The rewrite `updateModel` applies to one traversed object: a mesh with a material array gets
   * an array of the same length holding the front material at index 0 and the side material
   * everywhere else; a mesh with a single material keeps it; every mesh stops casting and
   * receiving shadows.
   */
  function Restyle(p: Part): (r: Part)
    ensures r.Mesh? <==> p.Mesh?
    ensures p.Other? ==> r == p
    ensures p.Mesh? ==> r.geometry == p.geometry && !r.castShadow && !r.receiveShadow
    ensures p.Mesh? && p.material.Single? ==> r.material == p.material
    ensures p.Mesh? && p.material.Many? ==>
      r.material.Many? && |r.material.ms| == |p.material.ms| &&
      forall i :: 0 <= i < |r.material.ms| ==> r.material.ms[i] == if i == 0 then FrontMaterial else SideMaterial
  {
    match p
    case Other => p
    case Mesh(g, Single(m), _, _) => Mesh(g, Single(m), false, false)
    case Mesh(g, Many(ms), _, _) =>
      Mesh(g, Many(seq(|ms|, i => if i == 0 then FrontMaterial else SideMaterial)), false, false)
  }

  /**
   * The rewrite `updateModelColors` applies to one traversed object: index 0 of a non-empty
   * material array becomes `front`; everything else is left as it was.
   */
  function Recolor(p: Part, front: Material): (r: Part)
    ensures |Materials(r)| == |Materials(p)|
    ensures !(p.Mesh? && p.material.Many? && |p.material.ms| > 0) ==> r == p
    ensures p.Mesh? && p.material.Many? && |p.material.ms| > 0 ==>
      r == p.(material := Many(p.material.ms[0 := front]))
  {
    match p
    case Mesh(g, Many(ms), cs, rs) => if |ms| > 0 then Mesh(g, Many(ms[0 := front]), cs, rs) else p
    case _ => p
  }

  /**
   * The rewrite `applyWireframe` applies to one traversed object: every material it owns gets the
   * given wireframe flag and is otherwise unchanged.
   */
  function Wired(p: Part, enable: bool): (r: Part)
    ensures r.Mesh? <==> p.Mesh?
    ensures p.Other? ==> r == p
    ensures |Materials(r)| == |Materials(p)|
    ensures forall i :: 0 <= i < |Materials(r)| ==> Materials(r)[i] == Materials(p)[i].(wireframe := enable)
  {
    match p
    case Other => p
    case Mesh(g, Single(m), cs, rs) => Mesh(g, Single(m.WithWireframe(enable)), cs, rs)
    case Mesh(g, Many(ms), cs, rs) => Mesh(g, Many(seq(|ms|, i requires 0 <= i < |ms| => ms[i].WithWireframe(enable))), cs, rs)
  }

  /** The largest extent of a bounding-box size. */
  function MaxDim(size: Vec3): (d: real)
    ensures d >= size.x && d >= size.y && d >= size.z
    ensures d == size.x || d == size.y || d == size.z
  {
    if size.x >= size.y && size.x >= size.z then size.x
    else if size.y >= size.z then size.y
    else size.z
  }

  /**
   * The material array `updateModel` builds for a mesh whose array has `n` entries, pushing the
   * front material for index 0 and the side material for every other index.
   */
  method PositionalMaterials(n: nat) returns (ms: seq<Material>)
    ensures |ms| == n
    ensures n > 0 ==> ms[0] == FrontMaterial
    ensures forall i :: 0 < i < n ==> ms[i] == SideMaterial
  {
    ms := [];
    var i := 0;
    while i < n
      invariant 0 <= i <= n && |ms| == i
      invariant i > 0 ==> ms[0] == FrontMaterial
      invariant forall j :: 0 < j < i ==> ms[j] == SideMaterial
    {
      if i == 0 {
        ms := ms + [FrontMaterial];
      } else {
        ms := ms + [SideMaterial];
      }
      i := i + 1;
    }
  }

  /** The traversal in `updateModel`: every visited object is restyled in place. */
  method RestyleAll(model: Node)
    modifies model
    ensures |model.parts| == |old(model.parts)|
    ensures forall k :: 0 <= k < |model.parts| ==> model.parts[k] == Restyle(old(model.parts[k]))
    ensures model.visible == old(model.visible) && model.matrix == old(model.matrix)
    ensures model.position == old(model.position) && model.placed == old(model.placed)
    ensures model.selectListener == old(model.selectListener) && model.disposed == old(model.disposed)
  {
    var k := 0;
    while k < |model.parts|
      invariant 0 <= k <= |model.parts| == |old(model.parts)|
      invariant forall j :: 0 <= j < k ==> model.parts[j] == Restyle(old(model.parts[j]))
      invariant forall j :: k <= j < |model.parts| ==> model.parts[j] == old(model.parts[j])
      invariant model.visible == old(model.visible) && model.matrix == old(model.matrix)
      invariant model.position == old(model.position) && model.placed == old(model.placed)
      invariant model.selectListener == old(model.selectListener) && model.disposed == old(model.disposed)
    {
      var p := model.parts[k];
      if p.Mesh? {
        var slot := p.material;
        if slot.Many? {
          var ms := PositionalMaterials(|slot.ms|);
          slot := Many(ms);
        }
        model.parts := model.parts[k := Mesh(p.geometry, slot, false, false)];
      }
      k := k + 1;
    }
  }

  /** The traversal in `updateModelColors`: index 0 of every material array becomes `front`. */
  method RecolorAll(model: Node, front: Material)
    modifies model
    ensures |model.parts| == |old(model.parts)|
    ensures forall k :: 0 <= k < |model.parts| ==> model.parts[k] == Recolor(old(model.parts[k]), front)
    ensures model.visible == old(model.visible) && model.matrix == old(model.matrix)
    ensures model.position == old(model.position) && model.placed == old(model.placed)
    ensures model.selectListener == old(model.selectListener) && model.disposed == old(model.disposed)
  {
    var k := 0;
    while k < |model.parts|
      invariant 0 <= k <= |model.parts| == |old(model.parts)|
      invariant forall j :: 0 <= j < k ==> model.parts[j] == Recolor(old(model.parts[j]), front)
      invariant forall j :: k <= j < |model.parts| ==> model.parts[j] == old(model.parts[j])
      invariant model.visible == old(model.visible) && model.matrix == old(model.matrix)
      invariant model.position == old(model.position) && model.placed == old(model.placed)
      invariant model.selectListener == old(model.selectListener) && model.disposed == old(model.disposed)
    {
      var p := model.parts[k];
      if p.Mesh? && p.material.Many? && |p.material.ms| > 0 {
        model.parts := model.parts[k := p.(material := Many(p.material.ms[0 := front]))];
      }
      k := k + 1;
    }
  }

  /** The traversal in `applyWireframe`: every material of every mesh gets the flag. */
  method WireAll(model: Node, enable: bool)
    modifies model
    ensures |model.parts| == |old(model.parts)|
    ensures forall k :: 0 <= k < |model.parts| ==> model.parts[k] == Wired(old(model.parts[k]), enable)
    ensures model.visible == old(model.visible) && model.matrix == old(model.matrix)
    ensures model.position == old(model.position) && model.placed == old(model.placed)
    ensures model.selectListener == old(model.selectListener) && model.disposed == old(model.disposed)
  {
    var k := 0;
    while k < |model.parts|
      invariant 0 <= k <= |model.parts| == |old(model.parts)|
      invariant forall j :: 0 <= j < k ==> model.parts[j] == Wired(old(model.parts[j]), enable)
      invariant forall j :: k <= j < |model.parts| ==> model.parts[j] == old(model.parts[j])
      invariant model.visible == old(model.visible) && model.matrix == old(model.matrix)
      invariant model.position == old(model.position) && model.placed == old(model.placed)
      invariant model.selectListener == old(model.selectListener) && model.disposed == old(model.disposed)
    {
      model.parts := model.parts[k := Wired(model.parts[k], enable)];
      k := k + 1;
    }
  }

  class PreviewRenderer {
    const scene: SceneGraph
    var currentModel: Node?
    var wireframeMode: bool
    var frontColor: string
    /** The handle of the pending animation frame; `None` for JavaScript's `null`. */
    var animationFrameId: Option<nat>
    /** The frame callbacks the browser has scheduled and not yet run or cancelled. */
    var pendingFrames: set<nat>
    /** `renderer.xr.isPresenting`. */
    var xrPresenting: bool
    /** Whether `renderer.setAnimationLoop` holds the AR frame callback (false: `null`). */
    var xrAnimationLoop: bool
    /** `renderer.xr.getController(0)`. */
    const xrController: Node
    var cameraPosition: Vec3
    var controlsTarget: Vec3

    /**
     * The frame protocol: at most one frame callback is pending, and exactly the one whose handle
     * is stored.
     */
    ghost predicate Valid()
      reads this, scene
    {
      scene.Valid() &&
      (animationFrameId.None? ==> pendingFrames == {}) &&
      (animationFrameId.Some? ==> animationFrameId.value > 0 && pendingFrames == {animationFrameId.value})
    }

    /** Builds the scene and starts the animation loop; `handle` is the first frame's handle. */
    constructor (handle: nat)
      requires handle > 0
      ensures Valid() && fresh(scene) && fresh(xrController)
      ensures scene.children == [] && currentModel == null
      ensures !wireframeMode && frontColor == DefaultFrontColor
      ensures animationFrameId == Some(handle) && pendingFrames == {handle}
      ensures !xrPresenting && !xrAnimationLoop
      ensures cameraPosition == InitialCamera && controlsTarget == Origin
    {
      scene := new SceneGraph();
      xrController := new Node([Other]);
      currentModel := null;
      wireframeMode := false;
      frontColor := DefaultFrontColor;
      xrPresenting := false;
      xrAnimationLoop := false;
      cameraPosition := InitialCamera;
      controlsTarget := Origin;
      animationFrameId := Some(handle);
      pendingFrames := {handle};
    }

    /** `animate`: schedules the next frame and keeps its handle. */
    method Animate(handle: nat)
      requires handle > 0 && pendingFrames == {}
      modifies this
      ensures animationFrameId == Some(handle) && pendingFrames == {handle}
      ensures currentModel == old(currentModel) && wireframeMode == old(wireframeMode)
      ensures frontColor == old(frontColor) && xrPresenting == old(xrPresenting)
      ensures xrAnimationLoop == old(xrAnimationLoop)
      ensures cameraPosition == old(cameraPosition) && controlsTarget == old(controlsTarget)
    {
      animationFrameId := Some(handle);
      pendingFrames := pendingFrames + {handle};
    }

    /** The browser runs the pending frame callback `fired`, which calls `animate` again. */
    method OnAnimationFrame(fired: nat, next: nat)
      requires Valid() && fired in pendingFrames && next > 0
      modifies this
      ensures Valid()
      ensures animationFrameId == Some(next) && pendingFrames == {next}
      ensures currentModel == old(currentModel) && wireframeMode == old(wireframeMode)
      ensures frontColor == old(frontColor) && xrPresenting == old(xrPresenting)
      ensures xrAnimationLoop == old(xrAnimationLoop)
      ensures cameraPosition == old(cameraPosition) && controlsTarget == old(controlsTarget)
    {
      pendingFrames := pendingFrames - {fired};
      Animate(next);
    }

    /** `pauseAnimation`: cancels the pending frame and forgets its handle, if there is one. */
    method PauseAnimation()
      requires Valid()
      modifies this
      ensures Valid()
      ensures animationFrameId == None && pendingFrames == {}
      ensures old(animationFrameId).None? ==> pendingFrames == old(pendingFrames)
      ensures currentModel == old(currentModel) && wireframeMode == old(wireframeMode)
      ensures frontColor == old(frontColor) && xrPresenting == old(xrPresenting)
      ensures xrAnimationLoop == old(xrAnimationLoop)
      ensures cameraPosition == old(cameraPosition) && controlsTarget == old(controlsTarget)
    {
      if animationFrameId.Some? {
        pendingFrames := pendingFrames - {animationFrameId.value};
        animationFrameId := None;
      }
    }

    /**
     * `resumeAnimation`: restarts the loop only when no frame is pending and XR is not
     * presenting; otherwise nothing changes, so a second call never starts a second loop.
     */
    method ResumeAnimation(handle: nat)
      requires Valid() && handle > 0
      modifies this
      ensures Valid()
      ensures old(animationFrameId).None? && !xrPresenting ==>
        animationFrameId == Some(handle) && pendingFrames == {handle}
      ensures !(old(animationFrameId).None? && !xrPresenting) ==>
        animationFrameId == old(animationFrameId) && pendingFrames == old(pendingFrames)
      ensures |pendingFrames| <= 1
      ensures currentModel == old(currentModel) && wireframeMode == old(wireframeMode)
      ensures frontColor == old(frontColor) && xrPresenting == old(xrPresenting)
      ensures xrAnimationLoop == old(xrAnimationLoop)
      ensures cameraPosition == old(cameraPosition) && controlsTarget == old(controlsTarget)
    {
      if animationFrameId.None? && !xrPresenting {
        Animate(handle);
      }
    }

    /**
     * `updateModel`: the previous model leaves the scene; a non-null model becomes the current
     * one, has its materials rewritten, joins the scene and is framed by the camera (`center` and
     * `size` are its bounding box). A null model leaves `currentModel` naming the removed model.
     */
    method UpdateModel(model: Node?, center: Vec3, size: Vec3)
      requires Valid()
      modifies this, scene, model
      ensures Valid()
      ensures model == null ==> (currentModel == old(currentModel) &&
        scene.children == Detached(old(scene.children), old(currentModel)))
      ensures model != null ==> (currentModel == model &&
        scene.children == Without(Detached(old(scene.children), old(currentModel)), model) + [model])
      ensures model != null ==> (|model.parts| == |old(model.parts)| &&
        forall k :: 0 <= k < |model.parts| ==> model.parts[k] == Restyle(old(model.parts[k])))
      ensures model != null ==> model.placed == old(model.placed) && model.visible == old(model.visible)
      ensures model != null ==>
        cameraPosition == Vec3(center.x, center.y, center.z + MaxDim(size) * DistanceFactor) &&
        controlsTarget == center
      ensures model == null ==>
        cameraPosition == old(cameraPosition) && controlsTarget == old(controlsTarget)
      ensures wireframeMode == old(wireframeMode) && frontColor == old(frontColor)
      ensures animationFrameId == old(animationFrameId) && pendingFrames == old(pendingFrames)
      ensures xrPresenting == old(xrPresenting) && xrAnimationLoop == old(xrAnimationLoop)
    {
      if currentModel != null {
        scene.Remove(currentModel);
      }
      if model != null {
        currentModel := model;
        RestyleAll(model);
        scene.Add(model);
        ResetCameraView(center, size);
      }
    }

    /**
     * `resetCameraView`: with a current model, the camera looks at the centre of its bounding box
     * from 1.5 largest-extents in front of it; without one nothing happens.
     */
    method ResetCameraView(center: Vec3, size: Vec3)
      modifies this
      ensures currentModel == null ==>
        cameraPosition == old(cameraPosition) && controlsTarget == old(controlsTarget)
      ensures currentModel != null ==>
        cameraPosition == Vec3(center.x, center.y, center.z + MaxDim(size) * DistanceFactor) &&
        controlsTarget == center
      ensures currentModel == old(currentModel) && wireframeMode == old(wireframeMode)
      ensures frontColor == old(frontColor) && animationFrameId == old(animationFrameId)
      ensures pendingFrames == old(pendingFrames)
      ensures xrPresenting == old(xrPresenting) && xrAnimationLoop == old(xrAnimationLoop)
    {
      if currentModel == null {
        return;
      }
      var distance := MaxDim(size) * DistanceFactor;
      cameraPosition := Vec3(center.x, center.y, center.z + distance);
      controlsTarget := center;
    }

    /** `toggleWireframe`: flips the mode and applies it to the current model. */
    method ToggleWireframe()
      requires Valid()
      modifies this, currentModel
      ensures Valid()
      ensures wireframeMode == !old(wireframeMode)
      ensures currentModel == old(currentModel)
      ensures currentModel != null ==> (|currentModel.parts| == |old(currentModel.parts)| &&
        forall k :: 0 <= k < |currentModel.parts| ==>
          currentModel.parts[k] == Wired(old(currentModel.parts[k]), wireframeMode))
      ensures frontColor == old(frontColor) && animationFrameId == old(animationFrameId)
      ensures pendingFrames == old(pendingFrames)
      ensures xrPresenting == old(xrPresenting) && xrAnimationLoop == old(xrAnimationLoop)
    {
      wireframeMode := !wireframeMode;
      ApplyWireframe(wireframeMode);
    }

    /** `applyWireframe`: every material of the current model gets the flag; no model, no change. */
    method ApplyWireframe(enable: bool)
      requires Valid()
      modifies currentModel
      ensures Valid()
      ensures currentModel != null ==> (|currentModel.parts| == |old(currentModel.parts)| &&
        forall k :: 0 <= k < |currentModel.parts| ==>
          currentModel.parts[k] == Wired(old(currentModel.parts[k]), enable))
    {
      if currentModel == null {
        return;
      }
      WireAll(currentModel, enable);
    }

    /**
     * `updateModelColors`: without a current model or with an empty colour nothing changes;
     * otherwise the colour is kept and index 0 of every material array becomes a glossy material
     * of that colour.
     */
    method UpdateModelColors(color: string)
      requires Valid()
      modifies this, currentModel
      ensures Valid()
      ensures currentModel == old(currentModel)
      ensures currentModel == null || color == "" ==> frontColor == old(frontColor)
      ensures currentModel != null && color == "" ==> currentModel.parts == old(currentModel.parts)
      ensures currentModel != null && color != "" ==> (frontColor == color &&
        |currentModel.parts| == |old(currentModel.parts)| &&
        forall k :: 0 <= k < |currentModel.parts| ==>
          currentModel.parts[k] == Recolor(old(currentModel.parts[k]), FrontColored(color)))
      ensures wireframeMode == old(wireframeMode) && animationFrameId == old(animationFrameId)
      ensures pendingFrames == old(pendingFrames)
      ensures xrPresenting == old(xrPresenting) && xrAnimationLoop == old(xrAnimationLoop)
    {
      if currentModel == null {
        return;
      }
      if color != "" {
        frontColor := color;
        var m := FrontColored(color);
        RecolorAll(currentModel, m);
      }
    }

    /**
     * The WebXR manager's own reaction to a session: presenting once `setSession` has resolved,
     * no longer presenting once the session has ended. Nothing else changes.
     */
    method SetPresenting(presenting: bool)
      requires Valid()
      modifies this
      ensures Valid() && xrPresenting == presenting
      ensures currentModel == old(currentModel) && wireframeMode == old(wireframeMode)
      ensures frontColor == old(frontColor) && animationFrameId == old(animationFrameId)
      ensures pendingFrames == old(pendingFrames) && xrAnimationLoop == old(xrAnimationLoop)
      ensures cameraPosition == old(cameraPosition) && controlsTarget == old(controlsTarget)
    {
      xrPresenting := presenting;
    }

    /** `renderer.setAnimationLoop`: the AR frame callback (true) or `null` (false). */
    method SetAnimationLoop(installed: bool)
      requires Valid()
      modifies this
      ensures Valid() && xrAnimationLoop == installed
      ensures currentModel == old(currentModel) && wireframeMode == old(wireframeMode)
      ensures frontColor == old(frontColor) && animationFrameId == old(animationFrameId)
      ensures pendingFrames == old(pendingFrames) && xrPresenting == old(xrPresenting)
      ensures cameraPosition == old(cameraPosition) && controlsTarget == old(controlsTarget)
    {
      xrAnimationLoop := installed;
    }
  }

  /**
   * After `updateModel`, every mesh of the model that has a material array shows the front
   * material at index 0 and the side material at every other index, and casts no shadow.
   */
  lemma {:induction false} RestyledMeshes(before: seq<Part>, after: seq<Part>, k: nat, i: nat)
    requires |after| == |before| && k < |before|
    requires forall j :: 0 <= j < |after| ==> after[j] == Restyle(before[j])
    requires before[k].Mesh? && before[k].material.Many? && i < |before[k].material.ms|
    ensures after[k].Mesh? && after[k].material.Many? && |after[k].material.ms| == |before[k].material.ms|
    ensures after[k].material.ms[i] == (if i == 0 then FrontMaterial else SideMaterial)
    ensures !after[k].castShadow && !after[k].receiveShadow
  {
    assert after[k] == Restyle(before[k]);
  }

  /** A colour swap after a restyle changes only the front face: the sides stay black. */
  lemma {:induction false} RecolorKeepsSides(p: Part, color: string, i: nat)
    requires p.Mesh? && p.material.Many? && 0 < i < |p.material.ms|
    ensures Recolor(Restyle(p), FrontColored(color)).material.ms[i] == SideMaterial
    ensures Recolor(Restyle(p), FrontColored(color)).material.ms[0] == FrontColored(color)
  {
    var r := Restyle(p);
    assert r.material.ms[i] == SideMaterial;
  }

  /** Applying the wireframe flag twice is applying it once. */
  lemma {:induction false} WiredIdempotent(p: Part, enable: bool)
    ensures Wired(Wired(p, enable), enable) == Wired(p, enable)
  {
    match p
    case Other =>
    case Mesh(g, Single(m), cs, rs) =>
    case Mesh(g, Many(ms), cs, rs) =>
      var once := Wired(p, enable).material.ms;
      var twice := Wired(Wired(p, enable), enable).material.ms;
      assert |twice| == |once|;
      forall i | 0 <= i < |once| ensures twice[i] == once[i] {
        assert Materials(Wired(p, enable))[i] == once[i];
      }
  }
}
