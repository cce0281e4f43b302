/**
 * The AR session controller of js/app.js: the module-level AR variables, the handlers the
 * WebXR session drives (session start, per-frame callback, "select", session end) and the
 * `updatePreview` guard that produces the model AR shows.
 *
 * Every platform answer is a parameter: whether `navigator.xr` exists, what
 * `isSessionSupported` and `requestSession` settle to, which reference-space types
 * `setReferenceSpaceType` accepts without throwing, the reference space and hit-test poses a
 * frame yields. Each promise continuation is its own method, run when the platform settles the
 * promise, with the state it finds at that moment.
 */
module AppAR {
  import opened Wrappers
  import opened Scene
  import opened Preview
  import opened PathModel

  /** The reference-space types tried, in order, once the renderer has taken the session. */
  const ReferenceSpaceTypes: seq<string> := ["local-floor", "local", "viewer"]

  /** The reticle's ring: white, 70% opaque. */
  const ReticleMaterial := Basic("#ffffff", 0.7, true, false)
  const RingGeometry: nat := 0

  /** The text shown when the text field is empty. */
  const DefaultText := "Hello"
  const NoPathDataMessage := "No valid path data to generate model."

  /** How `startAR` ended. */
  datatype StartOutcome =
    | NoModel                       // nothing to show: no session is requested
    | NoXr                          // `navigator.xr` is missing
    | Unsupported                   // `immersive-ar` is not supported
    | Failed(message: string)       // a platform promise rejected
    | Started(session: nat)         // the session was granted and handed to `onSessionStartedAR`

  /**
   * The reference-space type the nested try/catch blocks settle on: the first of local-floor,
   * local and viewer that does not throw, or none.
   */
  function ReferenceSpaceChoice(accepts: string -> bool): (r: Option<nat>)
    ensures r.Some? ==> r.value < |ReferenceSpaceTypes| && accepts(ReferenceSpaceTypes[r.value])
    ensures r.Some? ==> forall j :: 0 <= j < r.value ==> !accepts(ReferenceSpaceTypes[j])
    ensures r.None? ==> forall j :: 0 <= j < |ReferenceSpaceTypes| ==> !accepts(ReferenceSpaceTypes[j])
  {
    if accepts("local-floor") then Some(0)
    else if accepts("local") then Some(1)
    else if accepts("viewer") then Some(2)
    else None
  }

  /**
   * Whether the failure handler of `setSession` ends the session, as intended: `ended` is `None`
   * when the attribute is absent. Only a running session that is not marked ended is ended, and
   * a visible one or one marked as not ended always is.
   */
  function EndsAfterFailure(hasSession: bool, visible: bool, ended: Option<bool>): (r: bool)
    ensures r ==> hasSession && ended != Some(true)
    ensures hasSession && (visible || ended == Some(false)) && ended != Some(true) ==> r
  {
    hasSession && ((visible && ended != Some(true)) || ended == Some(false))
  }

  /**
   * What the continuation of `setSession` does with the session: the reference-space type it
   * settles on, whether it asks the session to end and whether the AR set-up runs.
   */
  datatype SessionSetStep = SessionSetStep(chosen: Option<nat>, endRequested: bool, setUp: bool)

  /**
   * The continuation as intended: the set-up runs exactly when a reference-space type was
   * accepted, and otherwise a running session is asked to end. A running session is never left
   * without one or the other.
   */
  function SessionSetIntended(accepts: string -> bool, hasSession: bool): (r: SessionSetStep)
    ensures r.chosen == ReferenceSpaceChoice(accepts)
    ensures r.setUp <==> r.chosen.Some?
    ensures r.endRequested <==> r.chosen.None? && hasSession
    ensures !(r.setUp && r.endRequested)
    ensures hasSession ==> r.setUp || r.endRequested
  {
    var chosen := ReferenceSpaceChoice(accepts);
    SessionSetStep(chosen, chosen.None? && hasSession, chosen.Some?)
  }

  /**
   * The continuation as js/app.js has it. `arInfoMessage` and `arExitButton` are constants of
   * the `DOMContentLoaded` callback, so naming them here throws a ReferenceError: on the success
   * path before the set-up, and when every type fails before the end request. The rejection
   * reaches the `.catch` handler, whose first statement names `arInfoMessage` again and throws
   * before its own end request. Only the reference-space choice takes effect.
   */
  function SessionSetAsWritten(accepts: string -> bool, hasSession: bool): (r: SessionSetStep)
    ensures r.chosen == ReferenceSpaceChoice(accepts)
    ensures !r.setUp && !r.endRequested
  {
    SessionSetStep(ReferenceSpaceChoice(accepts), false, false)
  }

  /**
   * The code as written departs from the intended continuation exactly when a type is accepted
   * (the set-up is skipped) or a session is running (it is never asked to end).
   */
  lemma SessionSetDiscrepancy(accepts: string -> bool, hasSession: bool)
    ensures SessionSetAsWritten(accepts, hasSession) != SessionSetIntended(accepts, hasSession)
        <==> ReferenceSpaceChoice(accepts).Some? || hasSession
  {
  }

  /** Two inputs that show it: a device accepting every type, and one accepting none. */
  lemma SessionSetCounterexamples()
    ensures var all := (t: string) => true;
      SessionSetIntended(all, true).setUp && !SessionSetAsWritten(all, true).setUp
    ensures var none := (t: string) => false;
      SessionSetIntended(none, true).endRequested && !SessionSetAsWritten(none, true).endRequested
  {
  }

  /**
   * The failure handler as written: its first statement names `arInfoMessage` out of scope and
   * throws, so the session is never asked to end.
   */
  function EndsAfterFailureAsWritten(hasSession: bool, visible: bool, ended: Option<bool>): (r: bool)
    ensures !r
  {
    false
  }

  /**
   * The handler as written differs from the intended one exactly when a running session should
   * have been ended; a visible session that has not ended is one.
   */
  lemma FailureDiscrepancy(hasSession: bool, visible: bool, ended: Option<bool>)
    ensures EndsAfterFailureAsWritten(hasSession, visible, ended) != EndsAfterFailure(hasSession, visible, ended)
        <==> EndsAfterFailure(hasSession, visible, ended)
    ensures EndsAfterFailure(true, true, None) && !EndsAfterFailureAsWritten(true, true, None)
  {
  }

  /** `resumeAnimation`'s rule: the preview loop restarts only with no frame pending and XR not presenting. */
  function ResumeAllowed(framePending: bool, presenting: bool): bool {
    !framePending && !presenting
  }

  /**
   * Whether the end of a session restarts the preview loop, as js/app.js has it: `onSessionEndedAR`
   * is registered on the session before `setSession` registers the renderer's own end listener, so
   * it calls `resumeAnimation` while the renderer still presents, and the loop never restarts.
   */
  function ResumesAfterEndAsWritten(framePending: bool): (r: bool)
    ensures !r
  {
    ResumeAllowed(framePending, true)
  }

  /**
   * Whether the end of a session restarts the preview loop, as intended: the renderer has stopped
   * presenting, so the loop that the set-up paused restarts, and a running one is left alone.
   */
  function ResumesAfterEnd(framePending: bool): (r: bool)
    ensures r <==> !framePending
  {
    ResumeAllowed(framePending, false)
  }

  /**
   * The two differ exactly when no preview frame is pending, which is the state the set-up leaves
   * behind: after an AR session the preview stays frozen.
   */
  lemma EndResumeDiscrepancy(framePending: bool)
    ensures ResumesAfterEndAsWritten(framePending) != ResumesAfterEnd(framePending) <==> !framePending
    ensures ResumesAfterEnd(false) && !ResumesAfterEndAsWritten(false)
  {
  }

  /** The module-level AR variables (js/app.js:10-15) as one value. */
  datatype Globals = Globals(
    session: Option<nat>, controller: Node?, reticle: Node?,
    hitTestSource: Option<nat>, hitTestSourceRequested: bool, modelToPlace: Node?)

  class App {
    const renderer: PreviewRenderer
    var session: Option<nat>
    var controller: Node?
    var reticle: Node?
    var hitTestSource: Option<nat>
    /** The latch that keeps a second hit-test-source request from starting. */
    var hitTestSourceRequested: bool
    var modelToPlace: Node?
    /** `window.currentModel` and `window.currentPathData`. */
    var currentModel: Node?
    var currentPathData: Option<PathData>

    ghost function AR(): Globals
      reads this
    {
      Globals(session, controller, reticle, hitTestSource, hitTestSourceRequested, modelToPlace)
    }

    /**
     * Only the clones `onSelectAR` adds are tagged as placed; the controller is the renderer's
     * and carries the select handler exactly while it is bound;
     * and while no session is running the reticle is hidden and no placed clone is in the scene.
     */
    ghost predicate Valid()
      reads this, renderer, renderer.scene, set n | n in renderer.scene.children
      reads renderer.xrController, reticle, currentModel, modelToPlace
    {
      renderer.Valid() &&
      !renderer.xrController.placed &&
      (controller == null || controller == renderer.xrController) &&
      (renderer.xrController.selectListener <==> controller != null) &&
      (reticle != null ==> !reticle.placed && reticle != renderer.xrController) &&
      (currentModel != null ==> !currentModel.placed) &&
      (modelToPlace != null ==> !modelToPlace.placed) &&
      (session.None? ==> (reticle == null || !reticle.visible) && NonePlaced(renderer.scene.children))
    }

    constructor (renderer: PreviewRenderer)
      requires renderer.Valid() && NonePlaced(renderer.scene.children)
      requires !renderer.xrController.placed && !renderer.xrController.selectListener
      ensures Valid() && this.renderer == renderer
      ensures AR() == Globals(None, null, null, None, false, null)
      ensures currentModel == null && currentPathData == None
    {
      this.renderer := renderer;
      session := None;
      controller := null;
      reticle := null;
      hitTestSource := None;
      hitTestSourceRequested := false;
      modelToPlace := null;
      currentModel := null;
      currentPathData := None;
    }

    /**
     * `updatePreview`: in text mode the path data is regenerated from the text, or "Hello" when
     * the text is empty; path data that is missing or has no paths is an error that leaves the
     * model alone; otherwise a freshly generated model becomes the current one and is shown.
     * `textPath` stands for the font manager's text-to-path call and `meshes` for the model
     * generator; `center` and `size` are the new model's bounding box.
     */
    method UpdatePreview(textMode: bool, text: string, textPath: string -> PathData,
                         meshes: PathData -> seq<Part>, center: Vec3, size: Vec3)
      returns (error: Option<string>)
      requires Valid()
      modifies this, renderer, renderer.scene
      ensures Valid()
      ensures textMode ==> currentPathData == Some(textPath(if text == "" then DefaultText else text))
      ensures !textMode ==> currentPathData == old(currentPathData)
      ensures error.Some? <==> currentPathData.None? || |currentPathData.value.paths| == 0
      ensures error.Some? ==> (error.value == NoPathDataMessage && currentModel == old(currentModel) &&
        renderer.currentModel == old(renderer.currentModel) && renderer.scene.children == old(renderer.scene.children))
      ensures error.None? ==> (fresh(currentModel) && renderer.currentModel == currentModel &&
        |currentModel.parts| == 1 + |meshes(currentPathData.value)| &&
        renderer.scene.children ==
          Without(Detached(old(renderer.scene.children), old(renderer.currentModel)), currentModel) + [currentModel])
      ensures AR() == old(AR())
    {
      if textMode {
        var shown := if text == "" then DefaultText else text;
        currentPathData := Some(textPath(shown));
      }
      var data := currentPathData;
      if data.None? || |data.value.paths| == 0 {
        error := Some(NoPathDataMessage);
      } else {
        var model := ShowNewModel([Other] + meshes(data.value), center, size);
        error := None;
      }
    }

    /** The success path of `updatePreview`: a fresh model becomes current and is shown. */
    method ShowNewModel(parts: seq<Part>, center: Vec3, size: Vec3) returns (model: Node)
      requires Valid()
      modifies this, renderer, renderer.scene
      ensures Valid()
      ensures fresh(model) && currentModel == model && renderer.currentModel == model && |model.parts| == |parts|
      ensures renderer.scene.children ==
        Without(Detached(old(renderer.scene.children), old(renderer.currentModel)), model) + [model]
      ensures AR() == old(AR()) && currentPathData == old(currentPathData)
    {
      model := new Node(parts);
      currentModel := model;
      ghost var before := renderer.scene.children;
      ghost var shown := renderer.currentModel;
      renderer.UpdateModel(model, center, size);
      assert !renderer.xrController.placed && (reticle != null ==> !reticle.placed && reticle.visible == old(reticle.visible));
      if session.None? {
        NonePlacedKept(before, Without(Detached(before, shown), model), model);
      }
    }

    /**
     * `prepareModelForAR`: without a current model nothing is cloned and the answer is false;
     * otherwise a clone of the current model is kept for placement.
     */
    method PrepareModelForAR() returns (ok: bool)
      requires Valid()
      modifies this
      ensures Valid()
      ensures ok <==> currentModel != null
      ensures ok ==> fresh(modelToPlace) && modelToPlace.parts == currentModel.parts
      ensures AR() == old(AR()).(modelToPlace := modelToPlace)
      ensures !ok ==> modelToPlace == old(modelToPlace)
      ensures currentModel == old(currentModel) && currentPathData == old(currentPathData)
    {
      if currentModel == null {
        return false;
      }
      modelToPlace := currentModel.Clone();
      ok := true;
    }

    /**
     * `startAR`: no model, no request; then `navigator.xr` must exist, `immersive-ar` must be
     * supported and the session must be granted, after which `onSessionStartedAR` runs.
     */
    method StartAR(xrAvailable: bool, supported: Result<bool, string>, granted: Result<nat, string>)
      returns (outcome: StartOutcome)
      requires Valid()
      modifies this
      ensures Valid()
      ensures outcome == NoModel <==> currentModel == null
      ensures outcome.Started? <==> currentModel != null && xrAvailable && supported == Ok(true) && granted.Ok?
      ensures outcome.Started? ==> outcome.session == granted.value && session == Some(granted.value)
      ensures !outcome.Started? ==> session == old(session)
      ensures outcome == NoXr <==> currentModel != null && !xrAvailable
      ensures outcome == Unsupported <==> currentModel != null && xrAvailable && supported == Ok(false)
      ensures outcome == NoModel ==> AR() == old(AR())
      ensures AR() == old(AR()).(modelToPlace := modelToPlace, session := session)
      ensures currentModel == old(currentModel) && currentPathData == old(currentPathData)
    {
      var prepared := PrepareModelForAR();
      if !prepared {
        return NoModel;
      }
      if !xrAvailable {
        return NoXr;
      }
      match supported
      case Err(message) =>
        return Failed(message);
      case Ok(isSupported) =>
        if !isSupported {
          return Unsupported;
        }
        match granted
        case Err(message) =>
          return Failed(message);
        case Ok(s) =>
          OnSessionStartedAR(s);
          return Started(s);
    }

    /** `onSessionStartedAR`: records the session; the renderer is asked to take it. */
    method OnSessionStartedAR(s: nat)
      requires Valid()
      modifies this
      ensures Valid()
      ensures AR() == old(AR()).(session := Some(s))
      ensures currentModel == old(currentModel) && currentPathData == old(currentPathData)
    {
      session := Some(s);
    }

    /**
     * The continuation of `setSession` resolving: the renderer presents, and the reference-space
     * types are tried in order. If none is accepted the session is asked to end (when there is
     * one) and nothing is set up. Otherwise the preview loop is paused, the reticle is created if
     * absent and hidden, the controller is detached and bound again with the select handler, the
     * latch and the hit-test source are reset and the AR frame callback becomes the animation loop.
     */
    method OnRendererSessionSet(accepts: string -> bool) returns (chosen: Option<nat>, endRequested: bool)
      requires Valid()
      modifies this, renderer, renderer.scene, renderer.xrController, reticle
      ensures Valid()
      ensures SessionSetStep(chosen, endRequested, chosen.Some?) == SessionSetIntended(accepts, old(session).Some?)
      ensures renderer.xrPresenting
      ensures chosen.None? ==> (endRequested == old(session).Some? && AR() == old(AR()) &&
        renderer.scene.children == old(renderer.scene.children) &&
        renderer.animationFrameId == old(renderer.animationFrameId) &&
        renderer.xrAnimationLoop == old(renderer.xrAnimationLoop))
      ensures chosen.Some? ==> (!endRequested && reticle != null && !reticle.visible &&
        (old(reticle) != null ==> reticle == old(reticle)) &&
        controller == renderer.xrController && controller.selectListener &&
        !hitTestSourceRequested && hitTestSource.None? && session == old(session) &&
        modelToPlace == old(modelToPlace) &&
        renderer.animationFrameId.None? && renderer.xrAnimationLoop)
      ensures chosen.Some? && old(reticle) == null ==> (fresh(reticle) &&
        reticle.parts == [Mesh(RingGeometry, Single(ReticleMaterial), false, false)] &&
        renderer.scene.children == Without(old(renderer.scene.children) + [reticle], controller) + [controller])
      ensures chosen.Some? && old(reticle) != null ==>
        renderer.scene.children == Without(old(renderer.scene.children), controller) + [controller]
      ensures currentModel == old(currentModel) && currentPathData == old(currentPathData)
      ensures renderer.currentModel == old(renderer.currentModel)
    {
      renderer.SetPresenting(true);
      chosen := ReferenceSpaceChoice(accepts);
      if chosen.None? {
        endRequested := session.Some?;
        return;
      }
      endRequested := false;
      SetUpSession();
    }

    /**
     * The continuation of `setSession` resolving, as js/app.js has it: the renderer presents and
     * a reference-space type is chosen, then the out-of-scope `arExitButton` or `arInfoMessage`
     * throws, so neither the set-up nor an end request happens and the AR globals, the scene and
     * the animation are as before.
     */
    method OnRendererSessionSetAsWritten(accepts: string -> bool) returns (chosen: Option<nat>, endRequested: bool)
      requires Valid()
      modifies renderer
      ensures Valid()
      ensures SessionSetStep(chosen, endRequested, false) == SessionSetAsWritten(accepts, old(session).Some?)
      ensures renderer.xrPresenting
      ensures AR() == old(AR()) && renderer.scene.children == old(renderer.scene.children)
      ensures renderer.animationFrameId == old(renderer.animationFrameId)
      ensures renderer.xrAnimationLoop == old(renderer.xrAnimationLoop)
      ensures currentModel == old(currentModel) && currentPathData == old(currentPathData)
      ensures renderer.currentModel == old(renderer.currentModel)
    {
      renderer.SetPresenting(true);
      chosen := ReferenceSpaceChoice(accepts);
      endRequested := false;
    }

    /** The set-up after a reference-space type was accepted (js/app.js:359-382). */
    method SetUpSession()
      requires Valid()
      modifies this, renderer, renderer.scene, renderer.xrController, reticle
      ensures Valid()
      ensures reticle != null && !reticle.visible && (old(reticle) != null ==> reticle == old(reticle))
      ensures controller == renderer.xrController && controller.selectListener
      ensures AR() == old(AR()).(controller := controller, reticle := reticle, hitTestSource := None,
                                 hitTestSourceRequested := false)
      ensures renderer.animationFrameId.None? && renderer.xrAnimationLoop
      ensures renderer.xrPresenting == old(renderer.xrPresenting)
      ensures old(reticle) == null ==> (fresh(reticle) &&
        reticle.parts == [Mesh(RingGeometry, Single(ReticleMaterial), false, false)] &&
        renderer.scene.children == Without(old(renderer.scene.children) + [reticle], controller) + [controller])
      ensures old(reticle) != null ==>
        renderer.scene.children == Without(old(renderer.scene.children), controller) + [controller]
      ensures currentModel == old(currentModel) && currentPathData == old(currentPathData)
      ensures renderer.currentModel == old(renderer.currentModel)
    {
      renderer.PauseAnimation();
      HiddenReticle();
      BindController();
      hitTestSourceRequested := false;
      hitTestSource := None;
      renderer.SetAnimationLoop(true);
    }

    /** The reticle ring is created and added to the scene only if absent, and is always hidden. */
    method HiddenReticle()
      requires Valid()
      modifies this, renderer.scene, reticle
      ensures Valid()
      ensures reticle != null && !reticle.visible && (old(reticle) != null ==> reticle == old(reticle))
      ensures AR() == old(AR()).(reticle := reticle)
      ensures old(reticle) == null ==> (fresh(reticle) &&
        reticle.parts == [Mesh(RingGeometry, Single(ReticleMaterial), false, false)] &&
        renderer.scene.children == old(renderer.scene.children) + [reticle])
      ensures old(reticle) != null ==> renderer.scene.children == old(renderer.scene.children)
      ensures currentModel == old(currentModel) && currentPathData == old(currentPathData)
    {
      if reticle == null {
        var ring := new Node([Mesh(RingGeometry, Single(ReticleMaterial), false, false)]);
        ring.visible := false;
        ghost var before := renderer.scene.children;
        assert ring !in before;
        WithoutAbsent(before, ring);
        renderer.scene.Add(ring);
        reticle := ring;
        if session.None? {
          NonePlacedKept(before, before, ring);
        }
      }
      reticle.visible := false;
    }

    /**
     * Detaches the previous controller (when it has a parent, together with its select handler)
     * and binds `getController(0)` with the select handler as the scene's last child.
     */
    method BindController()
      requires Valid()
      modifies this, renderer.scene, renderer.xrController
      ensures Valid()
      ensures controller == renderer.xrController && controller.selectListener
      ensures renderer.scene.children == Without(old(renderer.scene.children), controller) + [controller]
      ensures AR() == old(AR()).(controller := controller)
      ensures currentModel == old(currentModel) && currentPathData == old(currentPathData)
    {
      ghost var before := renderer.scene.children;
      if controller != null && controller in renderer.scene.children {
        renderer.scene.Remove(controller);
        controller.selectListener := false;
      }
      ghost var detached := renderer.scene.children;
      controller := renderer.xrController;
      controller.selectListener := true;
      if detached != before {
        WithoutAbsent(detached, controller);
      }
      renderer.scene.Add(controller);
    }

    /**
     * The continuation of `setSession` rejecting: the session is asked to end when it is visible
     * and not marked ended, or marked as not ended.
     */
    method OnRendererSessionFailed(visible: bool, ended: Option<bool>) returns (endRequested: bool)
      requires Valid()
      ensures endRequested == EndsAfterFailure(session.Some?, visible, ended)
      ensures session.None? ==> !endRequested
      ensures ended == Some(true) ==> !endRequested
    {
      endRequested := false;
      if session.Some? {
        if visible && ended != Some(true) {
          endRequested := true;
        } else if ended == Some(false) {
          endRequested := true;
        }
      }
    }

    /**
     * `renderXRSession`: nothing happens without a frame, a session, a presenting renderer or a
     * reference space. Otherwise a viewer-space request starts when the latch is down, and the
     * latch goes up at once; with a hit-test source and a reticle, the reticle is shown exactly
     * when the first hit has a pose, and its matrix then becomes that pose.
     * `poses[i]` is the pose of the i-th hit-test result in the reference space, if it resolves.
     */
    method RenderXRSession(frame: bool, referenceSpace: Option<nat>, poses: seq<Option<Matrix4>>)
      returns (requestStarted: bool)
      requires Valid()
      modifies this, reticle
      ensures Valid()
      ensures !frame || old(session).None? || !renderer.xrPresenting || referenceSpace.None? ==>
        !requestStarted && AR() == old(AR()) &&
        (reticle != null ==> reticle.visible == old(reticle.visible) && reticle.matrix == old(reticle.matrix))
      ensures frame && session.Some? && renderer.xrPresenting && referenceSpace.Some? ==>
        requestStarted == !old(hitTestSourceRequested) && hitTestSourceRequested
      ensures AR() == old(AR()).(hitTestSourceRequested := hitTestSourceRequested)
      ensures hitTestSourceRequested == (old(hitTestSourceRequested) || requestStarted)
      ensures (frame && session.Some? && renderer.xrPresenting && referenceSpace.Some? &&
               hitTestSource.Some? && reticle != null) ==>
        (reticle.visible == (|poses| > 0 && poses[0].Some?) &&
         (reticle.visible ==> reticle.matrix == poses[0].value) &&
         (!reticle.visible ==> reticle.matrix == old(reticle.matrix)))
      ensures hitTestSource.None? && reticle != null ==>
        reticle.visible == old(reticle.visible) && reticle.matrix == old(reticle.matrix)
      ensures currentModel == old(currentModel) && currentPathData == old(currentPathData)
    {
      requestStarted := false;
      if !frame || session.None? || !renderer.xrPresenting {
        return;
      }
      if referenceSpace.None? {
        return;
      }
      if !hitTestSourceRequested {
        requestStarted := true;
        hitTestSourceRequested := true;
      }
      if hitTestSource.Some? && reticle != null {
        if |poses| > 0 {
          match poses[0]
          case Some(pose) =>
            reticle.visible := true;
            reticle.matrix := pose;
          case None =>
            reticle.visible := false;
        } else {
          reticle.visible := false;
        }
      }
    }

    /**
     * The viewer reference space resolved: a hit-test source is requested for it; a null space,
     * or no session left to ask (the call throws inside the continuation), lowers the latch.
     */
    method OnViewerSpaceResolved(viewerSpace: Option<nat>) returns (sourceRequested: bool)
      requires Valid()
      modifies this
      ensures Valid()
      ensures sourceRequested <==> viewerSpace.Some? && session.Some?
      ensures !sourceRequested ==> AR() == old(AR()).(hitTestSourceRequested := false)
      ensures sourceRequested ==> AR() == old(AR())
      ensures currentModel == old(currentModel) && currentPathData == old(currentPathData)
    {
      sourceRequested := viewerSpace.Some? && session.Some?;
      if !sourceRequested {
        hitTestSourceRequested := false;
      }
    }

    /** The viewer reference space request rejected: the latch goes down so a later frame retries. */
    method OnViewerSpaceRejected()
      requires Valid()
      modifies this
      ensures Valid()
      ensures AR() == old(AR()).(hitTestSourceRequested := false)
      ensures currentModel == old(currentModel) && currentPathData == old(currentPathData)
    {
      hitTestSourceRequested := false;
    }

    /** The hit-test source resolved: it is kept, whatever happened since it was requested. */
    method OnHitTestSourceResolved(source: nat)
      requires Valid()
      modifies this
      ensures Valid()
      ensures AR() == old(AR()).(hitTestSource := Some(source))
      ensures currentModel == old(currentModel) && currentPathData == old(currentPathData)
    {
      hitTestSource := Some(source);
    }

    /** The hit-test source request rejected: the latch goes down so a later frame retries. */
    method OnHitTestSourceRejected()
      requires Valid()
      modifies this
      ensures Valid()
      ensures AR() == old(AR()).(hitTestSourceRequested := false)
      ensures currentModel == old(currentModel) && currentPathData == old(currentPathData)
    {
      hitTestSourceRequested := false;
    }

    /**
     * `onSelectAR`: with a visible reticle and a prepared model, exactly one new clone of the
     * model, tagged as placed, visible and positioned at the reticle's translation, is appended
     * to the scene; otherwise the scene is unchanged.
     */
    method OnSelectAR() returns (placed: Node?)
      requires Valid()
      modifies renderer.scene
      ensures Valid()
      ensures placed != null <==> reticle != null && reticle.visible && modelToPlace != null
      ensures placed != null ==> (fresh(placed) && placed.placed && placed.visible &&
        placed.position == Translation(reticle.matrix) && placed.parts == modelToPlace.parts &&
        renderer.scene.children == old(renderer.scene.children) + [placed])
      ensures placed == null ==> renderer.scene.children == old(renderer.scene.children)
    {
      placed := null;
      if reticle != null && reticle.visible && modelToPlace != null {
        var sign := modelToPlace.Clone();
        sign.position := Translation(reticle.matrix);
        sign.visible := true;
        sign.placed := true;
        assert sign !in renderer.scene.children;
        WithoutAbsent(renderer.scene.children, sign);
        renderer.scene.Add(sign);
        placed := sign;
      }
    }

    /** `endARSession`: the running session, if any, is asked to end. */
    method EndARSession() returns (endRequested: bool)
      requires Valid()
      ensures endRequested <==> session.Some?
    {
      endRequested := session.Some?;
    }

    /**
     * `onSessionEndedAR`: the controller loses its select handler and leaves the scene, the
     * reticle is hidden, every placed clone is removed and its own geometry and materials are
     * disposed, the latch and the hit-test source are reset, the renderer is asked to drop the
     * session when it is still presenting, the AR loop is uninstalled, the preview loop resumes
     * (when its own rule allows) and the session is forgotten. The prepared model is kept.
     * `handle` is the frame handle a resumed preview loop receives.
     */
    method OnSessionEndedAR(handle: nat) returns (unbindRequested: bool, removed: seq<Node>)
      requires Valid() && handle > 0
      modifies this, renderer, renderer.scene, renderer.xrController, reticle
      modifies set n | n in renderer.scene.children
      ensures Valid()
      ensures AR() == Globals(None, null, old(reticle), None, false, old(modelToPlace))
      ensures reticle != null ==> !reticle.visible
      ensures !renderer.xrController.selectListener
      ensures removed == old(Placed(Detached(renderer.scene.children, controller)))
      ensures renderer.scene.children == old(Unplaced(Detached(renderer.scene.children, controller)))
      ensures NonePlaced(renderer.scene.children)
      ensures forall j :: 0 <= j < |removed| ==>
        removed[j].disposed == (old(removed[j].disposed) || (|removed[j].parts| > 0 && removed[j].parts[0].Mesh?))
      ensures unbindRequested == old(renderer.xrPresenting) && renderer.xrPresenting == old(renderer.xrPresenting)
      ensures !renderer.xrAnimationLoop
      ensures old(renderer.animationFrameId).None? && !renderer.xrPresenting ==>
        renderer.animationFrameId == Some(handle)
      ensures !(old(renderer.animationFrameId).None? && !renderer.xrPresenting) ==>
        renderer.animationFrameId == old(renderer.animationFrameId)
      ensures renderer.currentModel == old(renderer.currentModel)
      ensures currentModel == old(currentModel) && currentPathData == old(currentPathData)
    {
      removed := ClearScene();
      unbindRequested := EndSession(handle);
    }

    /**
     * The renderer's own `end` listener, which `setSession` adds to the session: the renderer
     * stops presenting. Nothing else changes.
     */
    method OnRendererSessionEnded()
      requires Valid()
      modifies renderer
      ensures Valid() && !renderer.xrPresenting
      ensures AR() == old(AR()) && renderer.scene.children == old(renderer.scene.children)
      ensures renderer.animationFrameId == old(renderer.animationFrameId)
      ensures renderer.xrAnimationLoop == old(renderer.xrAnimationLoop)
      ensures renderer.currentModel == old(renderer.currentModel)
      ensures currentModel == old(currentModel) && currentPathData == old(currentPathData)
    {
      renderer.SetPresenting(false);
    }

    /**
     * The session's `end` event as js/app.js registers its listeners: `onSessionEndedAR` first,
     * while the renderer still presents, then the renderer's own listener. The renderer is asked
     * to drop a session it presents, and the preview loop keeps the frame handle it had: a loop
     * that the set-up paused stays paused.
     */
    method SessionEndedAsWritten(handle: nat) returns (unbindRequested: bool, removed: seq<Node>)
      requires Valid() && handle > 0
      modifies this, renderer, renderer.scene, renderer.xrController, reticle
      modifies set n | n in renderer.scene.children
      ensures Valid() && !renderer.xrPresenting && !renderer.xrAnimationLoop
      ensures AR() == Globals(None, null, old(reticle), None, false, old(modelToPlace))
      ensures renderer.scene.children == old(Unplaced(Detached(renderer.scene.children, controller)))
      ensures removed == old(Placed(Detached(renderer.scene.children, controller)))
      ensures unbindRequested == old(renderer.xrPresenting)
      ensures old(renderer.xrPresenting) ==> renderer.animationFrameId == old(renderer.animationFrameId)
    {
      unbindRequested, removed := OnSessionEndedAR(handle);
      OnRendererSessionEnded();
    }

    /**
     * The session's `end` event as evidently intended: the renderer has stopped presenting when
     * `onSessionEndedAR` runs, so nothing is left to unbind and the preview loop restarts with
     * `handle` unless a frame is still pending.
     */
    method SessionEnded(handle: nat) returns (unbindRequested: bool, removed: seq<Node>)
      requires Valid() && handle > 0
      modifies this, renderer, renderer.scene, renderer.xrController, reticle
      modifies set n | n in renderer.scene.children
      ensures Valid() && !renderer.xrPresenting && !renderer.xrAnimationLoop
      ensures AR() == Globals(None, null, old(reticle), None, false, old(modelToPlace))
      ensures renderer.scene.children == old(Unplaced(Detached(renderer.scene.children, controller)))
      ensures removed == old(Placed(Detached(renderer.scene.children, controller)))
      ensures !unbindRequested
      ensures ResumesAfterEnd(old(renderer.animationFrameId).Some?) ==> renderer.animationFrameId == Some(handle)
      ensures !ResumesAfterEnd(old(renderer.animationFrameId).Some?) ==>
        renderer.animationFrameId == old(renderer.animationFrameId)
    {
      OnRendererSessionEnded();
      unbindRequested, removed := OnSessionEndedAR(handle);
    }

    /**
     * The rest of `onSessionEndedAR`: the latch and the hit-test source are reset, the renderer
     * is asked to drop the session when it still presents, the AR loop is uninstalled, the
     * preview loop resumes when its own rule allows, and the session is forgotten.
     */
    method EndSession(handle: nat) returns (unbindRequested: bool)
      requires Valid() && handle > 0
      requires NonePlaced(renderer.scene.children) && (reticle != null ==> !reticle.visible)
      modifies this, renderer
      ensures Valid()
      ensures AR() == old(AR()).(session := None, hitTestSource := None, hitTestSourceRequested := false)
      ensures NonePlaced(renderer.scene.children) && renderer.scene.children == old(renderer.scene.children)
      ensures unbindRequested == old(renderer.xrPresenting) && renderer.xrPresenting == old(renderer.xrPresenting)
      ensures !renderer.xrAnimationLoop
      ensures old(renderer.animationFrameId).None? && !renderer.xrPresenting ==>
        renderer.animationFrameId == Some(handle)
      ensures !(old(renderer.animationFrameId).None? && !renderer.xrPresenting) ==>
        renderer.animationFrameId == old(renderer.animationFrameId)
      ensures renderer.currentModel == old(renderer.currentModel)
      ensures currentModel == old(currentModel) && currentPathData == old(currentPathData)
    {
      hitTestSourceRequested := false;
      hitTestSource := None;
      unbindRequested := renderer.xrPresenting;
      renderer.SetAnimationLoop(false);
      renderer.ResumeAnimation(handle);
      session := None;
    }

    /**
     * The scene part of `onSessionEndedAR`: the controller is unbound and leaves the scene, the
     * reticle is hidden, and the placed clones are collected, removed and disposed.
     */
    method ClearScene() returns (removed: seq<Node>)
      requires Valid()
      modifies this, renderer.scene, renderer.xrController, reticle
      modifies set n | n in renderer.scene.children
      ensures Valid()
      ensures AR() == old(AR()).(controller := null)
      ensures reticle != null ==> !reticle.visible
      ensures !renderer.xrController.selectListener
      ensures removed == old(Placed(Detached(renderer.scene.children, controller)))
      ensures renderer.scene.children == old(Unplaced(Detached(renderer.scene.children, controller)))
      ensures NonePlaced(renderer.scene.children)
      ensures forall j :: 0 <= j < |removed| ==>
        removed[j].disposed == (old(removed[j].disposed) || (|removed[j].parts| > 0 && removed[j].parts[0].Mesh?))
      ensures currentModel == old(currentModel) && currentPathData == old(currentPathData)
    {
      ghost var start := Detached(renderer.scene.children, controller);
      ReleaseControls();
      PlacedStable(start);
      removed := renderer.scene.RemovePlaced();
    }

    /** The controller loses its select handler and leaves the scene; the reticle is hidden. */
    method ReleaseControls()
      requires Valid()
      modifies this, renderer.scene, renderer.xrController, reticle
      ensures Valid()
      ensures AR() == old(AR()).(controller := null)
      ensures reticle != null ==> !reticle.visible
      ensures !renderer.xrController.selectListener
      ensures renderer.scene.children == Detached(old(renderer.scene.children), old(controller))
      ensures renderer.xrController.placed == old(renderer.xrController.placed)
      ensures renderer.xrController.disposed == old(renderer.xrController.disposed)
      ensures reticle != null ==> reticle.placed == old(reticle.placed) && reticle.disposed == old(reticle.disposed)
      ensures currentModel == old(currentModel) && currentPathData == old(currentPathData)
    {
      if controller != null {
        controller.selectListener := false;
        renderer.scene.Remove(controller);
        controller := null;
      }
      if reticle != null {
        reticle.visible := false;
      }
    }
  }
}
