# 3D Sign Creator — a Dafny model of its logic core

3D Sign Creator is a browser application. It turns a line of text, set in a chosen font, or an uploaded SVG into an extruded 3D sign. The sign is shown in a Three.js preview and can be placed in the real world through a WebXR augmented-reality session. A small Node server hands out the static files.

This project models the parts of the application that hold state or process lists. The renderer, the DOM, WebXR and the font parser are treated as oracles: their answers come in as parameters. Each module follows one source file:

| module | models |
|---|---|
| `Wrappers`, `Text` | `Option`/`Result`, and the string operations the code relies on (`split`, `includes`, `toLowerCase`, `indexOf`) |
| `Scene` | Three.js scene-graph nodes as a class (`visible`, `matrix`, `isARPlacedObject`, select listener, disposal) and a scene that owns a sequence of children |
| `Preview` (js/previewRenderer.js) | the animation-handle protocol, model replacement, the positional material rewrite, the front-colour swap and the wireframe toggle |
| `AppAR` (js/app.js) | the AR globals as fields of a class. Each asynchronous continuation is its own method: session start with reference-space fallback, the per-frame hit-test latch and reticle, placement on select, and teardown. The `updatePreview` and `prepareModelForAR` guards are included. |
| `PathModel`, `Svg` (js/svgProcessor.js) | the SVG 1.1 serialiser and the path extractor. The parsed document is a list of `<path>` elements. |
| `Catalogue` (js/localFonts.js) | the bundled and system font lists, filtering by category, and lookup by family |
| `WebFonts` (js/googleFonts.js) | the Google-Fonts-shaped list built from the catalogue, `getFonts`, `getWebFont` with its fallback file, and the download cache |
| `Fonts` (js/fontManager.js) | the sorted font list, grouping, the URL-keyed load cache, the current font, and text-to-path assembly |
| `Picker` (js/fontPicker.js) | the rendered list as rows with display flags (headers, items, a message); grouped ordering, search, category filter and single selection |
| `Server` (server.js) | mapping a request URL to a file path, a content type and a status |

Modelling conventions:

- Numbers are `real`. Formatting a number (`${x}`) and `parseFloat` are function parameters `show` and `parse`. The round-trip lemmas state what they assume about them.
- Optional values are `Option`. An optional string whose JavaScript falsiness matters is tested against `""` as well.
- Promises become one method per settlement (`OnViewerSpaceResolved`, `OnHitTestSourceRejected`, ...). A platform call that may throw or fail becomes an input: `accepts`, `supported`, `granted`, `poses`, `FetchOutcome`, `LoadOutcome`.
- A `Node`'s `parts` stand for its `traverse` order, with `parts[0]` the node itself.

## Model

| member | source | states |
|---|---|---|
| Server.UrlPath | server.js:34 | the URL path is the prefix of the request URL up to, not including, the first `?`, and contains no `?` |
| Server.FilePath | server.js:35-40 | the file path is `.` followed by the URL path, and exactly `/` maps to `./index.html` |
| Server.LastIndexOf | server.js:43 | the last occurrence of a character, or none: the character does not occur after the index returned |
| Server.TrimTrailingSlashes | server.js:43 | `path.extname` ignores trailing slashes: the result is a prefix with no trailing `/` |
| Server.LastSegment | server.js:43 | the last path segment ends the path, holds no `/`, and is preceded by `/` when it is not the whole path |
| Server.Extname | server.js:43 | `path.extname` looks at the last segment after trailing slashes are dropped. It is empty exactly when that segment has no dot, is `..`, or has a single dot at its start. Otherwise it is the segment's tail from its last dot: it starts with `.`, has no further dot, and is shorter than the segment. |
| Server.ContentType | server.js:14-29 | the content type is the MIME table entry for the extension, otherwise `application/octet-stream` |
| Server.HandleRequest | server.js:32-71 | every response starts with the three CORS headers. ENOENT gives 404 with `text/html`, any other read error gives 500, and success gives 200 with the content type and the file body. |
| Server.RootServesIndex | server.js:34-44 | `/` with any query string serves `./index.html` as `text/html` |
| Server.IndexSegment | server.js:38-43 | the last segment of `./index.html` is `index.html` |
| Server.IndexExtname | server.js:38-43 | the extension of `./index.html` is `.html` |
| Server.HtmlContentType | server.js:14-29 | a path whose extension is `.html` is sent as `text/html` |
| Server.HtmlMimeType | server.js:14-29 | the MIME table maps `.html` to `text/html` |
| Server.QueryIgnored | server.js:34-40 | appending a query string does not change the URL path or the file path |
| Text.Includes | js/fontPicker.js:410 | `includes` is true iff the query occurs at some index of the string |
| Text.ToLower | js/fontPicker.js:397-408 | lower-casing keeps the length and maps each character on its own |
| Text.IndexOf | server.js:34 | the first index of a character, or none when it does not occur |
| Text.Split | js/svgProcessor.js:89 | `split` always returns at least one piece |
| Text.SplitPiecesFree | js/svgProcessor.js:89 | no piece returned by `split` contains the separator |
| Text.SplitJoin | js/svgProcessor.js:89 | splitting the separator-joined list of separator-free pieces gives back the list |
| Text.NatToString | js/googleFonts.js:158 | a status number prints as its decimal digits: at least one, digits only, denoting the number, and with no leading zero except for 0 itself |
| Text.DigitChar | js/googleFonts.js:158 | a digit prints as the one character whose value is that digit |
| Scene.Material.WithWireframe | js/previewRenderer.js:427-431 | setting `wireframe` changes that flag and keeps the colour |
| Scene.Node.constructor | js/app.js:361-369 | a new object is visible, at the origin with identity matrix, untagged, with no listener, not disposed |
| Scene.Node.Clone | js/app.js:405-408 | `clone()` copies the parts, visibility, matrix, position and tag into a fresh node without listeners |
| Scene.Node.Dispose | js/app.js:493-499 | disposing marks the node disposed when its own part is a mesh. Nothing else about the node changes. |
| Scene.Without | js/previewRenderer.js:300-302 | removing a node from a child list: it is gone, no other node is lost, and nothing new appears |
| Scene.Dropping | js/app.js:490-500 | removing a list of nodes keeps exactly the children not in the list |
| Scene.Placed | js/app.js:483-488 | the collected nodes are exactly the children tagged `isARPlacedObject` |
| Scene.Unplaced | js/app.js:483-501 | the survivors are exactly the children without the tag |
| Scene.Detached | js/app.js:472-478 | detaching the controller leaves only existing children |
| Scene.WithoutAbsent | js/previewRenderer.js:300-302 | removing a node that is not a child changes nothing |
| Scene.WithoutAt | js/previewRenderer.js:300-302 | in a list without duplicates, removing the node at index i cuts out exactly that index |
| Scene.DistinctTail | js/app.js:371-377 | the tail of a child list without duplicates has none and does not hold the head |
| Scene.WithoutKeepsDistinct | js/app.js:371-377 | removal keeps a child list free of duplicates |
| Scene.DroppingStep | js/app.js:490-500 | removing nodes one at a time equals removing the whole list |
| Scene.DroppingNothing | js/app.js:490-500 | removing no nodes keeps every child |
| Scene.DroppingPlaced | js/app.js:483-501 | removing exactly the tagged nodes leaves the untagged children |
| Scene.NonePlacedKept | js/app.js:403-412 | adding an untagged node to a sub-list of an untagged scene keeps it untagged |
| Scene.PlacedAppend | js/app.js:483-488 | collection respects the order in which children were added |
| Scene.SceneGraph.constructor | js/previewRenderer.js:9-24 | a new scene has no children |
| Scene.SceneGraph.Add | js/app.js:409 | `add` moves the node to the end of the children, without duplicates |
| Scene.SceneGraph.CollectPlaced | js/app.js:483-488 | the `traverse` loop collects the tagged children in order |
| Scene.SceneGraph.RemovePlaced | js/app.js:483-501 | teardown removes exactly the tagged children. Each removed node is disposed, no tagged node remains, and the untagged children are unchanged. |
| Scene.SceneGraph.RemoveAndDispose | js/app.js:490-500 | the `forEach` loop removes and disposes each listed node |
| Scene.SceneGraph.Remove | js/previewRenderer.js:300-302 | `remove` takes the node out of the children |
| Preview.FrontColored | js/previewRenderer.js:449-454 | the new front material has the given colour, the front material's Phong settings, and wireframe off |
| Preview.Restyle | js/previewRenderer.js:332-353 | per mesh: shadows off, and a material array keeps its length, with front at index 0 and side elsewhere; a single material is unchanged |
| Preview.Recolor | js/previewRenderer.js:457-464 | per mesh: only index 0 of a non-empty material array is replaced. Every other material and every non-array part is untouched. |
| Preview.Wired | js/previewRenderer.js:425-432 | per mesh: every material gets the wireframe flag and nothing else changes |
| Preview.MaxDim | js/previewRenderer.js:387 | the largest of the three dimensions |
| Preview.PositionalMaterials | js/previewRenderer.js:337-350 | the built array has the requested length, with front at index 0 and side at every other index |
| Preview.RestyleAll | js/previewRenderer.js:332-353 | the `traverse` loop rewrites every part as `Restyle` does, and the node's other fields are unchanged |
| Preview.RecolorAll | js/previewRenderer.js:457-464 | the `traverse` loop rewrites every part as `Recolor` does |
| Preview.WireAll | js/previewRenderer.js:424-434 | the `traverse` loop rewrites every part as `Wired` does |
| Preview.PreviewRenderer.constructor | js/previewRenderer.js:9-24 | the renderer starts with an empty scene, no model, wireframe off, the default colour, one pending animation frame, and not presenting |
| Preview.PreviewRenderer.Animate | js/previewRenderer.js:264-272 | `animate` schedules exactly one frame and records its handle |
| Preview.PreviewRenderer.OnAnimationFrame | js/previewRenderer.js:264-272 | a fired frame schedules exactly one successor |
| Preview.PreviewRenderer.PauseAnimation | js/previewRenderer.js:277-283 | after `pauseAnimation` the handle is null and no frame is pending. A second call changes nothing. |
| Preview.PreviewRenderer.ResumeAnimation | js/previewRenderer.js:288-293 | the loop restarts iff the handle is null and XR is not presenting, so at most one frame is ever pending |
| Preview.PreviewRenderer.UpdateModel | js/previewRenderer.js:299-367 | the previous model leaves the scene. A non-null model has its materials rewritten and becomes `currentModel` as the last child. A null model leaves the field pointing at the removed model. |
| Preview.PreviewRenderer.ResetCameraView | js/previewRenderer.js:372-397 | with no current model nothing changes, otherwise only the camera and the controls target move |
| Preview.PreviewRenderer.ToggleWireframe | js/previewRenderer.js:402-415 | the mode flips and every material of the model takes the new mode |
| Preview.PreviewRenderer.ApplyWireframe | js/previewRenderer.js:421-435 | every material of every mesh takes the given flag, and nothing happens without a model |
| Preview.PreviewRenderer.UpdateModelColors | js/previewRenderer.js:441-466 | without a model or with an empty colour nothing changes. Otherwise the colour is recorded and only index 0 of each array material is replaced. |
| Preview.PreviewRenderer.SetPresenting | js/app.js:306-308 | the renderer's XR presenting flag is set once `setSession` resolves and cleared by the renderer's own end listener. Nothing else changes. |
| Preview.PreviewRenderer.SetAnimationLoop | js/app.js:382 | the XR animation loop is installed or removed |
| Preview.RestyledMeshes | js/previewRenderer.js:332-353 | after the rewrite every mesh array material has its old length, front at index 0, side elsewhere, and no shadows |
| Preview.RecolorKeepsSides | js/previewRenderer.js:457-464 | recolouring a rewritten model changes the front material and keeps every side material |
| Preview.WiredIdempotent | js/previewRenderer.js:421-435 | applying the same wireframe setting twice equals applying it once |
| AppAR.ReferenceSpaceChoice | js/app.js:310-335 | the chosen type is the first of local-floor, local, viewer that is accepted, and none when all three throw |
| AppAR.SessionSetIntended | js/app.js:306-382 | as intended, a session is set up exactly when a type is accepted, and otherwise a running session is asked to end; a running session always gets one of the two |
| AppAR.SessionSetAsWritten | js/app.js:306-349 | as written, the reference-space choice stands but neither the set-up nor an end request happens |
| AppAR.EndsAfterFailure | js/app.js:392-398 | as intended, a failed `setSession` ends only a running session not marked ended, and always ends a visible one or one marked as not ended |
| AppAR.SessionSetDiscrepancy | js/app.js:57-59 | the code as written differs from the intended continuation exactly when a type is accepted or a session is running |
| AppAR.SessionSetCounterexamples | js/app.js:329-349 | with every type accepted the set-up is skipped; with none accepted the running session is not ended |
| AppAR.EndsAfterFailureAsWritten | js/app.js:386-388 | as written, the failure handler never asks the session to end |
| AppAR.FailureDiscrepancy | js/app.js:386-400 | the handler as written differs from the intended one exactly when the session should have been ended, as for a visible session that has not ended |
| AppAR.App.constructor | js/app.js:10-15 | all AR globals start null or false |
| AppAR.App.UpdatePreview | js/app.js:149-175 | text mode regenerates path data, with a default for empty text. Missing or empty path data reports an error and keeps the model. Otherwise a fresh model is handed to the renderer. |
| AppAR.App.ShowNewModel | js/app.js:160-162 | a fresh model becomes current, replaces the previous one in the scene, and leaves the AR globals alone |
| AppAR.App.PrepareModelForAR | js/app.js:213-243 | a clone is prepared iff a current model exists |
| AppAR.App.StartAR | js/app.js:245-300 | without a model nothing else happens. A session starts iff WebXR exists, `immersive-ar` is supported and the request is granted. |
| AppAR.App.OnSessionStartedAR | js/app.js:302-306 | the started session becomes the global session |
| AppAR.App.OnRendererSessionSet | js/app.js:306-382 | the intended continuation (see Findings). The renderer presents and the types are tried in order. If every type fails, only an end request is made, and only for a running session. If one succeeds, a hidden reticle (created only if absent), a freshly bound controller, a false latch, no source and the XR render loop are set up. |
| AppAR.App.OnRendererSessionSetAsWritten | js/app.js:306-349 | as written: the renderer presents and a type is chosen, then nothing is set up and no end is requested. The AR globals, scene and animation are unchanged. |
| AppAR.App.SetUpSession | js/app.js:359-382 | the intended set-up (see Findings): the animation is paused, the reticle hidden, the controller bound, the latch cleared and the source nulled before the XR loop is installed |
| AppAR.App.HiddenReticle | js/app.js:361-369 | the reticle is created and added only when absent, and is always hidden |
| AppAR.App.BindController | js/app.js:371-377 | the old controller is detached before the renderer's controller is bound and moved to the end of the scene |
| AppAR.App.OnRendererSessionFailed | js/app.js:386-400 | the intended failure handler (see Findings): a failed `setSession` ends only a session that exists and has not already ended |
| AppAR.App.RenderXRSession | js/app.js:414-462 | a frame is a no-op without frame, session, presenting renderer or reference space. A request starts iff the latch was false, and the latch is set. With a source, the reticle is visible iff the first hit has a pose, and then takes its matrix. With no source, the reticle is unchanged. |
| AppAR.App.OnViewerSpaceResolved | js/app.js:425-439 | a null viewer space or a vanished session resets the latch; otherwise a source request is made |
| AppAR.App.OnViewerSpaceRejected | js/app.js:440-443 | a rejected viewer-space request resets the latch |
| AppAR.App.OnHitTestSourceResolved | js/app.js:428-431 | the resolved source is stored |
| AppAR.App.OnHitTestSourceRejected | js/app.js:432-435 | a rejected source request resets the latch |
| AppAR.App.OnSelectAR | js/app.js:403-412 | exactly one fresh tagged, visible clone is added at the reticle's translation iff the reticle exists and is visible and a model is prepared. Otherwise the scene is unchanged. |
| AppAR.App.EndARSession | js/app.js:464-468 | an end is requested iff a session exists |
| AppAR.App.OnSessionEndedAR | js/app.js:470-531 | after teardown: no tagged node remains and each removed node is disposed. Controller, source and session are null, the latch is false, the reticle is hidden, and the prepared model is kept. The XR loop is removed. Unbinding is requested iff the renderer still presents, and animation resumes only as `resumeAnimation` allows, which it does not while the renderer presents (see Findings). |
| AppAR.App.EndSession | js/app.js:503-531 | the second half of teardown resets the latch, source and session. It requests unbinding iff the renderer presents, keeps the presenting flag, and resumes the preview loop only as `resumeAnimation` allows. |
| AppAR.App.OnRendererSessionEnded | js/app.js:306 | the renderer's own end listener, which `setSession` registers: the renderer stops presenting and nothing else changes |
| AppAR.App.SessionEndedAsWritten | js/app.js:302-306 | the `end` event reaches `onSessionEndedAR` before the renderer's listener: unbinding is requested iff the renderer presented, and then the preview frame handle stays as it was, so a paused preview stays paused |
| AppAR.App.SessionEnded | js/app.js:470-531 | the intended end: the renderer no longer presents when teardown runs, nothing is left to unbind, and a paused preview loop restarts with the new handle |
| AppAR.ResumesAfterEndAsWritten | js/app.js:527 | as registered, the end of a session never restarts the preview loop |
| AppAR.ResumesAfterEnd | js/previewRenderer.js:288-293 | once the renderer has stopped presenting, the preview loop restarts iff no frame is pending |
| AppAR.EndResumeDiscrepancy | js/app.js:302-306 | the two differ exactly when no preview frame is pending, the state the set-up leaves |
| AppAR.App.ClearScene | js/app.js:472-501 | the first half of teardown releases the controller, hides the reticle, then removes and disposes every tagged node |
| AppAR.App.ReleaseControls | js/app.js:472-481 | the controller loses its listener and leaves the scene, and the reticle is hidden |
| Catalogue.Bundled | js/localFonts.js:140-693 | a bundled entry has a known category and a url under `fonts/` |
| Catalogue.System | js/localFonts.js:11-134 | a system entry has a known category and no url |
| Catalogue.SystemFonts | js/localFonts.js:11-134 | every system font has a known category and no url |
| Catalogue.BundledFonts | js/localFonts.js:140-693 | every bundled font has a known category and a url under `fonts/` |
| Catalogue.AllFonts | js/localFonts.js:699-701 | all fonts are the bundled list followed by the system list |
| Catalogue.WithCategory | js/localFonts.js:713 | the filter keeps exactly the fonts of the category |
| Catalogue.WithCategoryAppend | js/localFonts.js:713 | one more entry at the end is appended to the result exactly when it has the category, so the filter keeps list order |
| Catalogue.WithCategoryCount | js/localFonts.js:713 | a font of the category occurs in the result as often as in the list, and any other font not at all |
| Catalogue.FontsByCategory | js/localFonts.js:708-714 | an empty category or `all` gives every font; otherwise the filter of the whole catalogue by that category, which holds exactly its fonts |
| Catalogue.FindFamily | js/localFonts.js:721-725 | the first index whose family or display name matches, or none if no entry matches |
| Catalogue.FontByFamily | js/localFonts.js:721-725 | a font is found iff some catalogue font matches by family or display name, and the result is such a font |
| Catalogue.FontsDirPrefix | js/localFonts.js:140-693 | every bundled url built from the fonts directory starts with it |
| Catalogue.CategoriesKnown | js/localFonts.js:11-692 | every catalogue category is sans-serif, serif, monospace, display or handwriting |
| WebFonts.Convert | js/googleFonts.js:36-44 | family is display name or family. Category defaults to sans-serif and variants to `regular`. `files` is the url when truthy. `isLocal` is true. |
| WebFonts.ConvertLocalFonts | js/googleFonts.js:35-45 | the conversion keeps the length and order |
| WebFonts.Filter | js/googleFonts.js:88-94 | `filter` keeps exactly the accepted fonts |
| WebFonts.FilterAppend | js/googleFonts.js:88-94 | one more font at the end is appended to the result exactly when it is kept, so `filter` keeps list order |
| WebFonts.FilterCount | js/googleFonts.js:88-94 | a kept font occurs in the result as often as in the list, and any other font not at all |
| WebFonts.Take | js/googleFonts.js:97 | `slice(0, limit)` is a prefix of the JavaScript length, counting a negative limit from the end |
| WebFonts.FirstWithFamily | js/googleFonts.js:122-123 | `find` gives the first index with the family, or none if no font has it |
| WebFonts.GoogleFontsManager.constructor | js/googleFonts.js:6-28 | the list starts empty, the cache empty, and local and system fonts converted from the catalogue; local fonts have files under `fonts/`, system fonts none |
| WebFonts.GoogleFontsManager.FetchFontsList | js/googleFonts.js:51-65 | the list becomes the local fonts followed by the system fonts |
| WebFonts.GoogleFontsManager.GetFonts | js/googleFonts.js:73-98 | an unfetched list gives the local fonts, and `popular` within the local+system count gives the whole list. Otherwise: `popular` gives the first `limit` of the popular-or-local filter; a known category the first `limit` of that category's fonts in list order; any other category the first `limit` fonts. Outside the early returns the length is at most a non-negative `limit`. |
| WebFonts.GoogleFontsManager.GetFontUrl | js/googleFonts.js:107-110 | the URL is always null |
| WebFonts.GoogleFontsManager.LoadFont | js/googleFonts.js:119-135 | resolves with the requested family, and records whether the catalogue knows it |
| WebFonts.GoogleFontsManager.DownloadFontFile | js/googleFonts.js:143-168 | a cached url returns the cached data without fetching. An uncached `http` url is refused. A failed response or rejection is an error. A successful body is cached and returned. |
| WebFonts.GoogleFontsManager.GetWebFont | js/googleFonts.js:175-201 | the first local font with the family supplies its file; otherwise `fonts/Roboto-Regular.ttf` |
| WebFonts.FetchFailure | js/googleFonts.js:158 | the error text is `Failed to load font: `, then the status in decimal digits without leading zeros, a space and the status text |
| WebFonts.PopularIsWholeList | js/googleFonts.js:81-85 | once fetched, `popular` returns the whole list |
| WebFonts.WebFontIsBundledFile | js/googleFonts.js:175-201 | every answer of `getWebFont` is a file under `fonts/` |
| Fonts.ToRef | js/fontManager.js:22-28 | name is the display name, the url is kept, and the category defaults to sans-serif |
| Fonts.ToRefs | js/fontManager.js:22-28 | the map keeps the length and order |
| Fonts.NameCompare | js/fontManager.js:45 | the name comparison is a three-way answer that is 0 exactly for equal names |
| Fonts.NameCompareFlip | js/fontManager.js:45 | the name comparison is antisymmetric |
| Fonts.NameCompareTransitive | js/fontManager.js:45 | the name comparison is transitive |
| Fonts.CompareFlip | js/fontManager.js:31-46 | the comparator is antisymmetric |
| Fonts.CompareTransitive | js/fontManager.js:31-46 | the comparator is transitive on ranked categories |
| Fonts.Insert | js/fontManager.js:31-46 | insertion adds exactly the one font |
| Fonts.SortFonts | js/fontManager.js:31-46 | sorting is a permutation |
| Fonts.SortedCons | js/fontManager.js:31-46 | a font no greater than every element of a sorted list keeps it sorted in front |
| Fonts.InsertSorted | js/fontManager.js:31-46 | insertion into a sorted list keeps it sorted |
| Fonts.SortFontsSorted | js/fontManager.js:31-46 | the sorted list is ordered by the comparator |
| Fonts.SortedMeaning | js/fontManager.js:35-45 | in the sorted list category rank never decreases, and names ascend within a category |
| Fonts.InitialFonts | js/fontManager.js:20-46 | the initial list is a permutation of the mapped bundled fonts, ordered by rank then name |
| Fonts.WithKey | js/fontManager.js:67-79 | a group holds exactly the fonts of that category key, in list order |
| Fonts.WithKeyStep | js/fontManager.js:70-76 | one more font joins its own group and leaves every other group unchanged |
| Fonts.FragmentCount | js/fontManager.js:168-183 | exactly one fragment per non-space character |
| Fonts.SpacesOnlyNoFragments | js/fontManager.js:168-203 | all-space text yields no fragments |
| Fonts.NonSpaceYieldsFragment | js/fontManager.js:168-183 | any non-space character yields a fragment |
| Fonts.TextBounds | js/fontManager.js:190-198 | bounds run from x1 = 0 to the final pen minus one letter-spacing, and vertically from the scaled ascender and descender |
| Fonts.TextPath | js/fontManager.js:206-214 | one path entry, joining the fragments by spaces, with fill `#000000`, stroke `#000000`, width 20 and the bounds |
| Fonts.FontManager.constructor | js/fontManager.js:9-15 | the manager starts with no fonts, an empty cache and no current font |
| Fonts.FontManager.InitializeFontList | js/fontManager.js:20-61 | the list is the sorted mapped catalogue, and the first font becomes current iff its preload succeeds |
| Fonts.FontManager.GetFontsByCategory | js/fontManager.js:67-79 | each group is exactly the fonts of its key, in order, and a key is present iff some font has it |
| Fonts.GroupByKey | js/fontManager.js:70-76 | the `forEach` loop leaves a group per key that has fonts, each holding exactly that key's fonts in list order |
| Fonts.PushGroups | js/fontManager.js:72-75 | pushing the next font onto its key's group, created when missing, groups the list one font longer |
| Fonts.FontManager.LoadFont | js/fontManager.js:115-130 | a successful load is cached under its url and returned; a failure leaves the cache unchanged |
| Fonts.FontManager.OnFontSelected | js/fontManager.js:85-108 | a cached url needs no load. `currentFont` changes only after a successful load; a failure leaves it unchanged. |
| Fonts.FontManager.GetCurrentFont | js/fontManager.js:136-138 | the current font is returned |
| Fonts.FontManager.GetCurrentFontObject | js/fontManager.js:144-147 | null without a current font, otherwise the cached font under its url |
| Fonts.FontManager.GenerateTextPath | js/fontManager.js:156-219 | no font or empty text gives empty paths and null bounds. The pen loop yields one fragment per non-space character, and text with no such character gives empty paths. Otherwise the result is the one outlined path with its bounds. |
| Fonts.GeneratedFragments | js/fontManager.js:168-203 | no fragments iff the text has no non-space character |
| Svg.EffectiveBounds | js/svgProcessor.js:144 | missing bounds default to (0, 0)–(100, 100) |
| Svg.EffectiveStroke | js/svgProcessor.js:159-163 | a path's own stroke iff both stroke and width are set; otherwise the outline when thickness > 0; otherwise none |
| Svg.DocumentLines | js/svgProcessor.js:145-170 | four header lines, one `<path/>` line per path in order, and `</svg>` last |
| Svg.GenerateSvgString | js/svgProcessor.js:139-171 | null iff the path data is missing or has no paths; otherwise the document built line by line |
| Svg.AppendPaths | js/svgProcessor.js:155-166 | the `forEach` loop appends one `<path .../>` line per path, in order, to the text built so far |
| Svg.OpenDocument | js/svgProcessor.js:144-152 | the header carries viewBox `x1 y1 width height` with width x2−x1 and height y2−y1 |
| Svg.AppendPathElement | js/svgProcessor.js:155-168 | each iteration appends one path line |
| Svg.AppendLinesStep | js/svgProcessor.js:155-166 | each further path appends exactly its own element line to the text built so far |
| Svg.JoinAppend | js/svgProcessor.js:145-170 | joining two line lists joins their texts with one newline |
| Svg.PathElements | js/svgProcessor.js:155-168 | one element text per path, in order |
| Svg.Join4 | js/svgProcessor.js:148-152 | the four header lines join as written |
| Svg.JoinSplitLast | js/svgProcessor.js:155-170 | a line ending in a newline and followed by another joins as two lines |
| Svg.AppendLinesJoin | js/svgProcessor.js:155-170 | the `+=` loop produces the newline-joined document |
| Svg.DocumentJoinsLines | js/svgProcessor.js:139-171 | the generated document is its lines joined by newlines |
| Svg.ExtractBounds | js/svgProcessor.js:82-127 | a truthy viewBox with four values sets origin and size; otherwise the origin is 0, 0 and the size is the `width`/`height` attributes, 0 when absent. x2 = x1 + width and y2 = y1 + height. |
| Svg.ViewBoxValues | js/svgProcessor.js:88-92 | the viewBox values are used exactly when the attribute is truthy and splits at spaces into four, and are then those four pieces |
| Svg.ExtractedPaths | js/svgProcessor.js:99-119 | elements without `d` are skipped. Fill defaults to `#000000`. Stroke is copied only when present. |
| Svg.ExtractPathsFromSvg | js/svgProcessor.js:71-130 | without an `<svg>` root the result is an error; otherwise the extracted paths and bounds |
| Svg.ReadBounds | js/svgProcessor.js:81-127 | the bounds come from a four-value viewBox when there is one, otherwise from width and height at origin 0 |
| Svg.ExtractElements | js/svgProcessor.js:95-118 | the `forEach` loop keeps one record per element with a truthy `d`, in document order |
| Svg.ExtractElement | js/svgProcessor.js:99-119 | each iteration pushes a record iff the element has a truthy `d` |
| Svg.ParsedElements | js/svgProcessor.js:155-168 | the parsed form of the emitted `<path/>` elements, one per path in order, for values written as attribute text |
| Svg.ParsedDocument | js/svgProcessor.js:71-75 | the parse of a generated document has an `<svg>` root and one path element per path |
| Svg.RestrokedPaths | js/svgProcessor.js:159-163 | each path takes the stroke it was written with |
| Svg.ViewBoxRoundTrip | js/svgProcessor.js:87-150 | when the four written numbers read back, parsing the written viewBox gives back the bounds |
| Svg.ViewBoxSplits | js/svgProcessor.js:89-150 | the written viewBox splits at spaces into the four numbers' texts when none holds a space |
| Svg.ElementRoundTrip | js/svgProcessor.js:99-165 | one written `<path/>` element reads back as the record with the stroke it was written with |
| Svg.PathsRoundTrip | js/svgProcessor.js:99-168 | when the written values survive the parse and the stroke widths read back, extracting the written paths gives each path with its effective stroke |
| Svg.SerialiseExtract | js/svgProcessor.js:71-171 | when the written values survive the parse and the written numbers read back, extracting a generated document gives the effective bounds and the re-stroked paths |
| Svg.SerialiseExtractIdentity | js/svgProcessor.js:71-171 | under the same conditions, with no outline and explicit strokes, extract after generate is the identity |
| Svg.DecimalVerbatim | js/svgProcessor.js:150-162 | decimal text is attribute text |
| Svg.DecimalRoundTrip | js/svgProcessor.js:89-162 | every non-negative whole number reads back from its decimal text |
| Svg.DecimalBounds | js/svgProcessor.js:87-150 | whole bounds are written verbatim and read back |
| Svg.DecimalPath | js/svgProcessor.js:106-162 | a path with whole stroke widths and attribute-text values is written verbatim and its stroke width reads back |
| Svg.DecimalPaths | js/svgProcessor.js:99-166 | the same for every path of a list |
| Svg.DecimalSerialiseExtract | js/svgProcessor.js:71-171 | with decimal numbers the round trip's conditions are met: whole bounds and widths with attribute-text values give a verbatim document that reads back as the bounds and re-stroked paths |
| Picker.Row.Shown | js/fontPicker.js:386-416 | changing the display flag keeps the row's kind and data |
| Picker.Row.Selected | js/fontPicker.js:323-330 | toggling `selected` affects only an item |
| Picker.Group | js/fontPicker.js:180-187 | a group is exactly the fonts of that category key |
| Picker.Keys | js/fontPicker.js:180-187 | the group keys, in first-appearance order, are distinct |
| Picker.KeysCover | js/fontPicker.js:180-187 | every font's key is a group key |
| Picker.GroupsOfKeys | js/fontPicker.js:180-187 | every key has a non-empty group |
| Picker.Present | js/fontPicker.js:190-219 | the fixed order restricted to the keys present |
| Picker.Others | js/fontPicker.js:222-240 | the remaining keys, in first-appearance order |
| Picker.Items | js/fontPicker.js:204-218 | one item row per font, in order |
| Picker.FontsOfAppend | js/fontPicker.js:200-240 | the fonts shown by concatenated rows concatenate |
| Picker.FontsOfItems | js/fontPicker.js:204-218 | item rows show exactly their fonts |
| Picker.SectionFonts | js/fontPicker.js:204-218 | a section shows exactly its group |
| Picker.LayoutFonts | js/fontPicker.js:190-240 | a layout shows its groups in category order |
| Picker.GroupsOverStep | js/fontPicker.js:180-187 | grouping one more font adds it to exactly one group |
| Picker.GroupsOverAll | js/fontPicker.js:180-240 | the groups over all keys hold every font exactly once |
| Picker.GroupsOverEmpty | js/fontPicker.js:180-187 | no fonts means empty groups |
| Picker.OrderCoversKeys | js/fontPicker.js:190-240 | the section order has no repeats and covers every font's key |
| Picker.EveryFontOnce | js/fontPicker.js:171-241 | the rendered list shows every font exactly once |
| Picker.EmptyListMessage | js/fontPicker.js:172-177 | an empty list renders only the message and no items |
| Picker.AppendSection | js/fontPicker.js:204-218 | a section is a header followed by its items |
| Picker.LayoutStep | js/fontPicker.js:203-219 | one more category appends one section |
| Picker.PresentStep | js/fontPicker.js:203-219 | the fixed-order loop adds a category iff it is present |
| Picker.OthersLayoutStep | js/fontPicker.js:222-240 | the remaining-keys loop adds a section iff the key is not in the fixed order |
| Picker.OthersStep | js/fontPicker.js:222-240 | one more key is appended iff it is not in the fixed order |
| Picker.LayoutUnselected | js/fontPicker.js:171-241 | a fresh render selects nothing |
| Picker.ShowAll | js/fontPicker.js:344-347 | every header and item is shown and a message is kept |
| Picker.Searched | js/fontPicker.js:397-416 | headers hidden; an item is shown iff its lower-cased family contains the lower-cased query |
| Picker.Filtered | js/fontPicker.js:353-372 | an item is shown iff its category matches, and a header iff the item after it is of the category |
| Picker.FirstSelected | js/fontPicker.js:324 | the first selected row, or none if no row is selected |
| Picker.FontPicker.constructor | js/fontPicker.js:6-16 | the picker starts with the loading message, no selection and the modal closed |
| Picker.FontPicker.LoadGoogleFonts | js/fontPicker.js:133-162 | the list is fetched. The font manager's fonts are rendered, or the failure message shown when nothing loads. |
| Picker.FontPicker.RenderFontList | js/fontPicker.js:171-241 | the rows become the grouped rendering, headers and items in category order |
| Picker.FontPicker.ShowKind | js/fontPicker.js:386-395 | all headers or all items take the flag |
| Picker.FontPicker.SearchFonts | js/fontPicker.js:385-422 | a short query shows everything. A longer one hides headers and shows matching items. No match replaces the list by a message. |
| Picker.SearchRows | js/fontPicker.js:405-416 | headers and messages stay as they are, each item is shown iff its family contains the query (case-insensitive), and the flag says whether any item matched |
| Picker.SelectionKept | js/fontPicker.js:397-416 | changing only display flags keeps at most one item selected |
| Picker.FontPicker.FilterFontsByCategory | js/fontPicker.js:339-379 | `all` shows everything. Another category shows its items and their headers. No item replaces the list by a message. |
| Picker.FontPicker.ShowCategoryItems | js/fontPicker.js:357-372 | each item is shown iff its category matches, and the answer is whether any matched |
| Picker.ShowCategoryRows | js/fontPicker.js:357-372 | each item is shown iff its category matches, a header directly before a matching item is shown, messages stay, and the flag says whether any item matched |
| Picker.FontPicker.ClickItem | js/fontPicker.js:323-330 | after a click exactly that item is selected and `selectedFont` is its font |
| Picker.FontPicker.OpenModal | js/fontPicker.js:427-430 | the modal opens and nothing else changes |
| Picker.FontPicker.CloseModal | js/fontPicker.js:435-438 | the modal closes and nothing else changes |
| Picker.FontPicker.ApplySelectedFont | js/fontPicker.js:443-484 | without a selection it only closes the modal. With one it closes the modal, shows the family and notifies the selection. The url is the font's own when it has one, otherwise the web font file for its family, which is under `fonts/`. |
| Picker.GroupFonts | js/fontPicker.js:180-187 | the push loop builds exactly the groups, keyed in first-appearance order |
| Picker.ArrangeSections | js/fontPicker.js:190-240 | the fragment is the layout in section order |
| Picker.FixedSections | js/fontPicker.js:203-219 | the fixed-order loop lays out the present fixed categories |
| Picker.OtherSections | js/fontPicker.js:222-240 | the second loop appends the other categories' sections |
| Picker.OtherSection | js/fontPicker.js:222-238 | one iteration appends a section for the key iff it is outside the fixed order |
| Picker.RefsToFonts | js/fontPicker.js:149-152 | each font manager entry becomes one list font, in order |

## Left out

- DOM, CSS and UI text: overlays, buttons, info messages, `createFontItem` styling heuristics and preview-font loading, the category `<select>`, and the custom background. These are presentation only. The info-message and exit-button writes in js/app.js are not modelled; that they throw is (see Findings).
- Three.js scene setup (sky, stars, moon, lights, resize), `Box3` centring and scaling in `prepareModelForAR`, the glow effect and the camera distance in `resetCameraView`: floating-point geometry and randomness. `Preview.PreviewRenderer.ResetCameraView` states only which fields may change.
- WebXR and renderer calls (`isSessionSupported`, `requestSession`, `setSession`, `setReferenceSpaceType`, `requestReferenceSpace`, `requestHitTestSource`, `getHitTestResults`, `getPose`, `setAnimationLoop`, `requestAnimationFrame`) are inputs or separate continuation methods. The asynchronous interleaving of promises is not modelled.
- AppAR.App.StartAR: the chain of awaits in `startAR` is collapsed into one call with the outcomes of the support check and the session request as inputs. The info messages at js/app.js:216, 266, 286 and 295 name `arInfoMessage` outside its scope and throw; each throw ends `startAR` where the model returns, so the state is the same and only the rejected promise is not modelled.
- AppAR.App.OnRendererSessionSet: models the intended continuation. As written, js/app.js:349 (and js/app.js:329 when every type fails) throws a ReferenceError before the set-up or the end request, and the `.catch` handler throws at js/app.js:388 in turn. `AppAR.App.OnRendererSessionSetAsWritten` models that (see Findings). The UI writes at js/app.js:344-347 are not modelled.
- AppAR.App.SetUpSession: models the intended set-up, which the code as written never reaches (see Findings).
- AppAR.App.OnRendererSessionFailed: models the intended handler. As written its first statement, at js/app.js:388, throws before either end request, as `AppAR.EndsAfterFailureAsWritten` states (see Findings).
- AppAR.App.OnHitTestSourceResolved: a source that resolves after teardown is stored, as the code does; the model does not discard stale resolutions.
- Scene: placed nodes are modelled at the top level of the scene, where `onSelectAR` adds them. Nested children are not traversed. Materials shared between clones are not modelled, and disposal is recorded for a node's own mesh only.
- Preview.PreviewRenderer.UpdateModel: new materials are created with wireframe off, as the code does, whatever `wireframeMode` is.
- Text.ToLower: folds ASCII letters only. `toLowerCase` also folds the other Unicode letters, and can change the length (`İ` becomes two code units).
- Fonts.FontManager.GenerateTextPath: strings here are sequences of code points, while `text.split('')` at js/fontManager.js:166 splits UTF-16 code units. A character outside the Basic Multilingual Plane is one glyph here and two unpaired surrogates in the code.
- Picker.FontPicker.SearchFonts: `query.length < 2` at js/fontPicker.js:386 counts UTF-16 code units and the model counts code points, so one astral character is a short query here but not in the code. Lower-casing is ASCII only, as for Text.ToLower.
- Svg.ParsedElements: the DOM parse is modelled only for values written as attribute text. Such text has no `"`, `<` or `&`, no control character (so no line feed, carriage return or tab) and no U+FFFE or U+FFFF. The serialiser escapes nothing, so other values change the markup or make the document ill-formed, and the model does not say what a parser makes of them.
- Svg.ParsedDocument: the same limit as Svg.ParsedElements. A document with a value outside attribute text is not modelled, and DOMParser would give a parser-error document for it.
- Svg.DecimalSerialiseExtract: `DecimalReady` asks for attribute text in the colours and path strings, so it covers only documents that are well-formed XML. Other strings are outside the round trip, as for Svg.ParsedElements.
- Fonts.NameCompare: `localeCompare` is approximated by code-unit order. Locale collation is not modelled.
- Fonts.SortFontsSorted: sortedness is proved for categories with a rank. For two different unranked categories the comparator answers 0 both ways, and the order JavaScript then picks is implementation-defined. Every catalogue category is ranked.
- opentype.js parsing and glyph outlines: a font is a record of an outline function, an advance-width function and metrics. Loading is an input (`LoadOutcome`). The `try/catch` around glyph generation is not modelled.
- WebFonts: the `typeof LocalFontsCollection` fallback is not modelled, because the catalogue is always present. The `try/catch` blocks in `fetchFontsList` and `getWebFont` cannot fire on the modelled data.
- Picker.FontPicker.SearchFonts and Picker.FontPicker.FilterFontsByCategory: when nothing matches, the rows are replaced by a message. Later searches therefore see only that message, as in the code.
- Picker: JavaScript's `Object.keys` puts integer-like keys first. Category names are never integer-like, so first-appearance order is used.
- Picker.FontPicker.ApplySelectedFont: the `onFontSelected` callback is assumed to be present.
- `getCurrentModel` (js/previewRenderer.js:472-474) is an accessor nothing calls; the model reads `currentModel` directly.
- js/modelGenerator.js and js/exportManager.js are not part of this model: they are extrusion and download plumbing over Three.js and browser APIs.
- server.js HTTPS certificate setup, `fs.readFile` and listening are I/O. The read is an input function from path to outcome.
- Svg.ViewBoxRoundTrip, Svg.SerialiseExtract and Svg.SerialiseExtractIdentity: the bounds read back exactly only in real arithmetic. The code writes `x2 - x1` as the width (js/svgProcessor.js:145) and reads back `minX + svgWidth` (js/svgProcessor.js:125) in doubles. For x1 = -0.1 and x2 = 0.2 it gets 0.20000000000000004. The Decimal instance (whole numbers below 2^53) is exact in doubles too.
- AppAR.App.OnRendererSessionEnded: the renderer's end listener is modelled only as clearing the presenting flag. Its other effects inside three.js (stopping its XR loop, restarting its own loop) are not modelled.
- Number formatting and `parseFloat` are the parameters `show` and `parse`. NaN and locale formatting are not modelled.

## Findings

| source | as written | input that shows it | evidently intended | confidence | as-written member | corrected member |
|---|---|---|---|---|---|---|
| js/app.js:329-350 | `arExitButton` and `arInfoMessage` are constants of the `DOMContentLoaded` callback (js/app.js:57, 59). The `setSession` continuation names them, throws a ReferenceError, and skips both the set-up and the end request. | a device that accepts `local-floor` gets no set-up; a device that accepts no type leaves the running session open | the set-up runs when a type is accepted, and otherwise the running session is ended | high, not executed | AppAR.SessionSetAsWritten | AppAR.SessionSetIntended |
| js/app.js:386-398 | the `.catch` handler names `arInfoMessage` first, throws, and never ends the session | a rejected `setSession` while the session is visible and not ended | the session is ended | high, not executed | AppAR.EndsAfterFailureAsWritten | AppAR.EndsAfterFailure |
| js/app.js:302-306 | `onSessionEndedAR` is added to the session before `setSession` adds the renderer's own `end` listener. It runs first, while the renderer still presents, so its `resumeAnimation()` at js/app.js:527 does nothing, and nothing resumes the loop afterwards. This shows only once the set-up at js/app.js:359 has paused the loop. | a session that was set up (preview paused, no frame pending) and then ends | the preview loop restarts when the AR session ends | medium, not executed (depends on the order in which the renderer's XR manager registers its listener) | AppAR.App.SessionEndedAsWritten | AppAR.App.SessionEnded |
