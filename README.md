# Tile renderer of glsl.sandbox, modelled in Dafny

A slideshow tile is a DOM image drawn again as a textured quad in a
three.js scene. The `Tile` class in `src/js/Tile.js` controls one such tile:

- **Preload.** It issues three texture loads: the image, its hover image and
  a shared mask. It pushes each texture handle into `images` as its load is
  issued. A counter shared by the load callbacks runs `initTile` once all
  three loads have completed.
- **Mesh creation.** `initTile` builds the shader uniforms and a mesh whose
  position and scale come from the image's on-screen rectangle.
- **Handlers and frames.** Pointer, click, resize and frame handlers then
  move the mesh, tween `u_progressHover` and the pointer vector, and advance
  `u_time`. Each handler checks its own guards:
  - `onPointerEnter`, `onPointerLeave` and `onMouseMove` check `isZoomed`,
    `hasClicked` and the mobile flag; the two pointer handlers also check for
    the mesh.
  - `move` checks the mesh, `isZoomed` and `hasClicked`.
  - `onClick` checks the mobile flag and the mesh.
  - `update` checks the mesh, and `isHovering` before advancing `u_time`.
  - `onResize` checks only the mesh.

The project has five modules:

- `Bounds` (`bounds.dfy`): `getBounds` arithmetic over `real`. The quad's
  size is the rectangle's width and height. Its offset is the distance from
  the viewport centre to the rectangle centre, with the y axis pointing up.
- `Preload` (`preload.dfy`): the texture handles pushed by `preload`, in
  issue order. Also the counter that each `preload` call captures (class
  `LoadBarrier`), which records how often the all-loaded callback fired.
- `TileModel` (`tile_model.dfy`): the tile's fields as a value
  (`TileState`), one function per handler giving the state after it, and
  `Step`/`Run` over event sequences. It holds the lemmas about any sequence of
  events.
- `TileRenderer` (`tile.dfy`): class `Tile`, with the source's fields updated
  in place. Each handler, frame and completion method is proved to leave
  `State()` equal to the matching `TileModel` function applied to the old
  state. So every `TileModel` lemma holds of the object. The constructor,
  `Preload` and `GetBounds` state their effect directly (`Initial`,
  `images` and `Handles`, `Size` and `Offset`).
- `Wrappers` (`wrappers.dfy`): `Option`.

Values the source reads from globals are parameters in the model: the
mobile flag, the image's bounding rectangle, the window size, the tile's
position among its siblings, the clock's elapsed time at `initTile` and its
delta at each frame.

A GSAP tween (`TM.to`) is modelled as a pending target for the field it
animates: `hoverTween`, `mouseTween` or `scaleTween`. The tween's completion
is a separate event, which sets the field to the target and runs the tween's
`onComplete`. A new tween on the same field replaces the pending one.
`TM.set` on the mesh position takes effect at once.

The model follows the code, including these behaviours a reader might not
expect:

- `onResize` is not frozen by a click: it still rescales the mesh of a
  clicked tile (`src/js/Tile.js:89-96`).
- `onResize` sets the mesh scale only, not its position.
- `onResize` refreshes `u_res` only once the mesh exists.
- `onPointerEnter` sets `isHovering` even when clicked, zoomed or on mobile.
- `onPointerEnter` writes the background colour before it checks for the
  mesh.
- `isHovering` is never cleared on a clicked tile unless a leave tween
  started before the click completes (lemma
  `TileModel.ClickedHoverIsPermanent`). From then on its `u_time` advances on
  every frame.

## Model

The `TileModel` functions that give the state after each handler (`Initial`,
`InitTile`, `OnLoadComplete`, `OnClick`, `OnPointerEnter`, `BackgroundIndex`,
`OnPointerLeave`, `OnHoverTweenComplete`, `OnMouseMove`,
`OnMouseTweenComplete`, `OnScaleTweenComplete`, `OnResize`, `Move`,
`Update`) are covered by the rows of the `Tile` members whose contracts are
written in them. Those rows cite the same source lines.

| member | source | states |
|---|---|---|
| `Bounds.Offset` | src/js/Tile.js:192-193 | the rectangle's centre lies `o.x` right of and `o.y` above the viewport centre |
| `Bounds.OffsetIsOriginIffCentred` | src/js/Tile.js:192-193 | the offset is (0,0) if and only if the rectangle is centred in the viewport |
| `Bounds.BoundsDetermineRect` | src/js/Tile.js:185-194 | size and offset together give back the rectangle exactly, so the quad is not distorted |
| `Bounds.OffsetFollowsTranslation` | src/js/Tile.js:192-193 | moving the element by (dx, dy) on screen moves the quad by (dx, -dy): y is flipped |
| `Bounds.CentredExample` | src/js/Tile.js:185-194 | a 200x100 rectangle at (860, 490) in 1920x1080 has size (200,100) and offset (0,0) |
| `Preload.Handles` | src/js/Tile.js:200-206 | one handle per source, handle k loading source k, each with its sampling centre at (0.5, 0.5) |
| `Preload.FiresExactlyOnce` | src/js/Tile.js:198-212 | over the first k completions of n loads the all-loaded callback fires once if 0 < n <= k, and otherwise never: never before the n-th completion, never twice, never with no sources |
| `Preload.CompletionsCoverAllLoads` | src/js/Tile.js:198-212 | if each load completes at most once, the counter never exceeds n; reaching n means every one of the n loads has completed, in any order; the callback has then fired exactly once |
| `Preload.LoadBarrier.constructor` | src/js/Tile.js:198-199 | a new counter is 0, waits for n loads and has fired nothing |
| `Preload.LoadBarrier.Complete` | src/js/Tile.js:207-211 | a callback increments the counter; it fires the all-loaded callback exactly when the new count equals n; if no load has completed twice, a full counter means every one of the n loads has completed |
| `TileModel.ColourIndex` | src/js/Tile.js:65 | the background colour index is always in 1..5: position + 1 inside the range, clamped outside it |
| `TileModel.Step` | src/js/Tile.js:50-179 | no handler or completion changes `images`, the number of loads, `duration`, `delta` or `isZoomed` |
| `TileModel.Run` | src/js/Tile.js:50-179 | over any event sequence the images stay those pushed when the loads were issued |
| `TileModel.InitialInv` | src/js/Tile.js:9-38 | a new tile satisfies the tile invariant (three images, no mesh, nothing pending, not clicked) |
| `TileModel.StepKeepsInv` | src/js/Tile.js:50-179 | every event preserves the invariant. The mesh exists exactly when all loads have completed. Uniforms hold images 0, 1, 2. Hover progress stays in 0..1. Tweens and clicks need the mesh |
| `TileModel.RunKeepsInv` | src/js/Tile.js:50-179 | the invariant holds after any sequence of events |
| `TileModel.MeshOnlyAfterLoading` | src/js/Tile.js:206-212 | from construction, whatever happens, the images are the sources' handles in source order. The mesh exists if and only if three loads have completed |
| `TileModel.MeshCreatedAtBounds` | src/js/Tile.js:111-154 | the completion that fills the counter creates the mesh at position offset, scale (width, height, 1), `u_progressHover` 0, `u_time` the clock reading, `u_res` the viewport |
| `TileModel.ClickNeedsMesh` | src/js/Tile.js:50-58 | `hasClicked` becomes true only by a non-mobile click on a tile that has its mesh |
| `TileModel.ClickIsOneWay` | src/js/Tile.js:50-58 | once `hasClicked` is true it stays true after any sequence of events |
| `TileModel.ClickedTileIsFrozen` | src/js/Tile.js:60-170 | on a clicked tile, `move`, `onMouseMove` and `onPointerLeave` change nothing. `onPointerEnter` only sets `isHovering` and writes no colour |
| `TileModel.ResizeIgnoresClick` | src/js/Tile.js:89-96 | on a tile with a mesh, clicked or not, resize sets scale (width, height, 1) and `u_res` to the viewport; it keeps the position and changes only sizes and offset besides |
| `TileModel.TimeAdvancesOnlyWhileHovering` | src/js/Tile.js:172-179 | on a tile with a mesh, `u_time` changes only on a frame while hovering, and then by exactly that frame's delta |
| `TileModel.EnterAlwaysHovers` | src/js/Tile.js:60-61 | pointer enter sets `isHovering` whatever the clicked, zoomed and mobile flags |
| `TileModel.HoverClearedOnlyByLeaveTween` | src/js/Tile.js:77-87 | `isHovering` is cleared only by the completion of a pending leave tween |
| `TileModel.ClickedHoverIsPermanent` | src/js/Tile.js:60-87 | a clicked, hovered tile with no leave tween pending stays hovered after any sequence of events |
| `TileModel.HoverRoundTrip` | src/js/Tile.js:60-87 | with a mesh and not clicked, zoomed or mobile: enter then its tween gives progress 1 and hovering; leave then its tween gives progress 0 and not hovering |
| `TileModel.MobileHasNoHover` | src/js/Tile.js:60-87 | on mobile, pointer enter starts no hover tween and pointer leave changes nothing |
| `TileModel.GetBoundsIdempotent` | src/js/Tile.js:185-195 | a second `getBounds` with the same rectangle and viewport changes nothing |
| `TileModel.OutOfOrderLoads` | src/js/Tile.js:197-214 | with completions mask, image, hover: no mesh after two; after the third the images are [image, hover, mask] and `u_map`, `u_hovermap`, `u_shape` hold them in that order |
| `TileRenderer.Tile.constructor` | src/js/Tile.js:9-38 | fields start at zero/false with no mesh. The three loads are issued behind a fresh counter of three |
| `TileRenderer.Tile.Preload` | src/js/Tile.js:197-214 | `images` grows by one handle per source, in source order. A fresh counter waits for all the sources |
| `TileRenderer.Tile.GetBounds` | src/js/Tile.js:185-195 | the equality-guarded writes leave `sizes` the rectangle's size and `offset` its centred, y-up offset |
| `TileRenderer.Tile.OnLoadComplete` | src/js/Tile.js:207-212 | the tile takes the state `TileModel.OnLoadComplete` gives. `initTile` has run exactly once if and only if the mesh exists |
| `TileRenderer.Tile.InitTile` | src/js/Tile.js:111-154 | builds the mesh at the fresh bounds and the uniforms from `images[0..2]`, as `TileModel.InitTile` gives |
| `TileRenderer.Tile.OnClick` | src/js/Tile.js:50-58 | sets `hasClicked` only off mobile and with a mesh; nothing else changes |
| `TileRenderer.Tile.OnPointerEnter` | src/js/Tile.js:60-75 | sets `isHovering`. Unless clicked, zoomed or mobile, it returns the colour index, and with a mesh it tweens `u_progressHover` to 1 |
| `TileRenderer.Tile.OnPointerLeave` | src/js/Tile.js:77-87 | with a mesh and not clicked, zoomed or mobile, tweens `u_progressHover` to 0 with a completion that clears `isHovering` |
| `TileRenderer.Tile.OnHoverTweenComplete` | src/js/Tile.js:80-86 | the pending hover tween's target becomes `u_progressHover`. The leave tween also clears `isHovering` |
| `TileRenderer.Tile.OnMouseMove` | src/js/Tile.js:98-105 | unless clicked, zoomed or mobile, tweens the mouse vector to the cursor over 0.5 s |
| `TileRenderer.Tile.OnMouseTweenComplete` | src/js/Tile.js:101-104 | the pending pointer tween's target becomes the mouse vector |
| `TileRenderer.Tile.OnScaleTweenComplete` | src/js/Tile.js:165-169 | the pending scale tween's target becomes the mesh scale |
| `TileRenderer.Tile.OnResize` | src/js/Tile.js:89-96 | recomputes bounds. With a mesh, sets its scale to the size and `u_res` to the viewport |
| `TileRenderer.Tile.Move` | src/js/Tile.js:156-170 | with a mesh and not clicked or zoomed: recomputes bounds, sets the position to the offset, and tweens the scale to size minus delta over 0.3 s |
| `TileRenderer.Tile.Update` | src/js/Tile.js:172-179 | with a mesh: moves, then advances `u_time` by the delta if hovering |
| `TileRenderer.OutOfOrderLoadScenario` | src/js/Tile.js:197-214 | for a tile whose loads complete mask, image, hover: the images are [image, hover, mask]; no mesh after two completions, a mesh after three |
| `TileRenderer.ClickThenResizeScenario` | src/js/Tile.js:89-96 | a clicked tile resized to 1280x720 is rescaled to the new size and gets `u_res` (1280, 720); the next frame keeps its position |

## Left out

- three.js objects are not modelled: `TextureLoader` decoding, `PlaneBufferGeometry`, `ShaderMaterial` and its `PI`/`PR` defines, the `Mesh` object and adding it to the scene. They are foreign rendering calls. The mesh is a record of its position (z = 0) and scale.
- GSAP timing and easing are not modelled: `duration`, `Power2.easeInOut` and the intermediate values of a tween. A tween is its pending target, and its completion is an event. GSAP's overwrite mode is modelled only as "a new tween on a field replaces the pending one".
- `u_ratio` and `u_hoverratio`: `getRatio` lives in `src/js/utils/utils.js`, which is not part of this model, and uses floating-point division.
- `TileModel.Clamp` stands for `clamp` from `src/js/utils/utils.js`, which is not part of this model. It is taken to limit the value to `lo..hi`.
- `THREE.Clock` is not modelled. The elapsed time at `initTile` and the delta at each frame are parameters. In the source `getDelta` runs only on hovering frames, so its delta spans the time since the previous hovering frame. The model adds whatever delta it is given.
- `window.innerWidth`/`innerHeight` and `getBoundingClientRect` are parameters, as are the mobile flag (`APP.Layout.isMobile`) and the element's index among its siblings.
- DOM wiring is not modelled: `querySelector`, `addEventListener`, `preventDefault` and the `is-loaded` class. The `--color-bg` write is modelled as the index `OnPointerEnter` returns. `onClick` is never bound in `bindEvent`. It is modelled as a callable method.
- JavaScript numbers are modelled as exact `real`s. Rounding and `Vector2.equals` on NaN are not modelled.
- `TileRenderer.Tile.Preload` models the single `preload` call a tile makes, from its constructor. Callbacks still pending from an earlier call on the same tile are not modelled.
- `isHovering` starts `undefined` in the source. The model starts it at `false`, which the guards treat the same way.
- `src/js/Scene.js` and `src/js/Stage.js` are not modelled. They hold the camera field of view (floating-point `atan`), the renderer set-up, the `requestAnimationFrame` loop and bootstrap glue.
