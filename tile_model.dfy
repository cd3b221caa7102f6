/**
 * The tile's state machine as values: the fields of a Tile, one function per
 * handler giving the state after it, and the properties that hold over any
 * sequence of events. GSAP tweens are a pending target per animated field,
 * and their completion is an event of its own.
 */
module TileModel {
  import opened Wrappers
  import opened Bounds
  import opened Preload

  /** The third texture every tile loads: the reveal mask. */
  const ShapeSource := "/dist/img/shape.jpg"
  /** Seconds of the pointer-smoothing tween in onMouseMove. */
  const MouseDuration := 0.5
  /** Seconds of the scale tween in move. */
  const ScaleDuration := 0.3

  /** The quad: a unit plane placed at position (z = 0) and scaled. */
  datatype Mesh = Mesh(position: Vec2, scale: Vec3)

  /**
   * The shader uniforms the tile drives. u_mouse is the tile's own mouse
   * vector (the same object), so it is not repeated here.
   */
  datatype Uniforms = Uniforms(
    alpha: real, mainMap: Texture, hoverMap: Texture, shape: Texture,
    progressHover: real, progressClick: real, time: real, res: Vec2)

  /** Before initTile there is no mesh and no uniforms; afterwards both exist. */
  datatype Phase = Loading | Ready(mesh: Mesh, uniforms: Uniforms)

  /** A pending tween of a field towards target. */
  datatype Tween<T> = Tween(target: T, duration: real)

  /** A pending tween of u_progressHover; the leave tween clears isHovering when done. */
  datatype HoverTween = HoverTween(target: real, duration: real, clearsHover: bool)

  datatype TileState = TileState(
    images: seq<Texture>, toBeLoaded: nat, loaded: nat,
    sizes: Vec2, offset: Vec2, mouse: Vec2,
    duration: real, delta: real,
    hasClicked: bool, isZoomed: bool, isHovering: bool,
    phase: Phase,
    hoverTween: Option<HoverTween>,
    mouseTween: Option<Tween<Vec2>>,
    scaleTween: Option<Tween<Vec3>>)

  /** What can happen to a tile: DOM events, load callbacks, tween completions, frames. */
  datatype Event =
    | Loaded(index: nat, rect: Rect, viewport: Viewport, elapsed: real)
    | Clicked(mobile: bool)
    | Entered(mobile: bool)
    | Left(mobile: bool)
    | HoverTweenEnded
    | MouseMoved(mobile: bool, clientX: real, clientY: real)
    | MouseTweenEnded
    | ScaleTweenEnded
    | Resized(rect: Rect, viewport: Viewport)
    | Frame(rect: Rect, viewport: Viewport, dt: real)

  /** A freshly constructed tile whose loads of the given images have been issued. */
  function Initial(images: seq<Texture>, duration: real): TileState {
    TileState(images, |images|, 0, Origin, Origin, Origin, duration, 0.0,
              false, false, false, Loading, None, None, None)
  }

  /** utils.clamp: v limited to lo..hi. */
  function Clamp(v: int, lo: int, hi: int): int
    requires lo <= hi
  {
    if v < lo then lo else if v > hi then hi else v
  }

  /**
   * The background colour selected for the tile at the given position among
   * its siblings: one of --color-bg1 .. --color-bg5.
   */
  function ColourIndex(position: int): (idx: int)
    ensures 1 <= idx <= 5
    ensures 0 <= position < 5 ==> idx == position + 1
    ensures position >= 4 ==> idx == 5
    ensures position <= 0 ==> idx == 1
  {
    Clamp(position + 1, 1, 5)
  }

  /** getBounds: the sizes and offset of the current rectangle. */
  function GetBounds(s: TileState, r: Rect, vp: Viewport): TileState {
    s.(sizes := Size(r), offset := Offset(r, vp))
  }

  /** initTile: the mesh and uniforms are built from the three textures and fresh bounds. */
  function InitTile(s: TileState, r: Rect, vp: Viewport, elapsed: real): TileState
    requires |s.images| >= 3
  {
    var b := GetBounds(s, r, vp);
    b.(phase := Ready(
      Mesh(b.offset, Vec3(b.sizes.x, b.sizes.y, 1.0)),
      Uniforms(1.0, s.images[0], s.images[1], s.images[2], 0.0, 0.0, elapsed, Vec2(vp.width, vp.height))))
  }

  /** A load callback: count it; the one that brings the counter to the total runs initTile. */
  function OnLoadComplete(s: TileState, r: Rect, vp: Viewport, elapsed: real): TileState
    requires |s.images| >= 3
  {
    var counted := s.(loaded := s.loaded + 1);
    if counted.loaded == counted.toBeLoaded then InitTile(counted, r, vp, elapsed) else counted
  }

  function OnClick(s: TileState, mobile: bool): TileState {
    if mobile || s.phase.Loading? then s else s.(hasClicked := true)
  }

  /** onPointerEnter always marks the tile hovered; the hover tween needs a live, unfrozen tile. */
  function OnPointerEnter(s: TileState, mobile: bool): TileState {
    var hovered := s.(isHovering := true);
    if s.isZoomed || s.hasClicked || mobile || s.phase.Loading? then hovered
    else hovered.(hoverTween := Some(HoverTween(1.0, s.duration, false)))
  }

  /** The --color-bg write onPointerEnter makes, if any. */
  function BackgroundIndex(s: TileState, mobile: bool, position: int): Option<int> {
    if s.isZoomed || s.hasClicked || mobile then None else Some(ColourIndex(position))
  }

  function OnPointerLeave(s: TileState, mobile: bool): TileState {
    if s.phase.Loading? || s.isZoomed || s.hasClicked || mobile then s
    else s.(hoverTween := Some(HoverTween(0.0, s.duration, true)))
  }

  /** The pending hover tween finishes: u_progressHover reaches its target. */
  function OnHoverTweenComplete(s: TileState): TileState {
    match s.hoverTween
    case None => s
    case Some(t) =>
      if s.phase.Loading? then s.(hoverTween := None)
      else s.(phase := s.phase.(uniforms := s.phase.uniforms.(progressHover := t.target)),
              isHovering := if t.clearsHover then false else s.isHovering,
              hoverTween := None)
  }

  function OnMouseMove(s: TileState, mobile: bool, x: real, y: real): TileState {
    if s.isZoomed || s.hasClicked || mobile then s
    else s.(mouseTween := Some(Tween(Vec2(x, y), MouseDuration)))
  }

  function OnMouseTweenComplete(s: TileState): TileState {
    match s.mouseTween
    case None => s
    case Some(t) => s.(mouse := t.target, mouseTween := None)
  }

  function OnScaleTweenComplete(s: TileState): TileState {
    match s.scaleTween
    case None => s
    case Some(t) =>
      if s.phase.Loading? then s.(scaleTween := None)
      else s.(phase := s.phase.(mesh := s.phase.mesh.(scale := t.target)), scaleTween := None)
  }

  /** onResize: new bounds; a live mesh takes the new size at once, and u_res the viewport. */
  function OnResize(s: TileState, r: Rect, vp: Viewport): TileState {
    var b := GetBounds(s, r, vp);
    if b.phase.Loading? then b
    else b.(phase := Ready(b.phase.mesh.(scale := Vec3(b.sizes.x, b.sizes.y, 1.0)),
                           b.phase.uniforms.(res := Vec2(vp.width, vp.height))))
  }

  /** move: snap the position to the offset and tween the scale towards the size less delta. */
  function Move(s: TileState, r: Rect, vp: Viewport): TileState {
    if s.phase.Loading? || s.isZoomed || s.hasClicked then s
    else
      var b := GetBounds(s, r, vp);
      b.(phase := b.phase.(mesh := b.phase.mesh.(position := b.offset)),
         scaleTween := Some(Tween(Vec3(b.sizes.x - s.delta, b.sizes.y - s.delta, 1.0), ScaleDuration)))
  }

  /** update: move, then advance u_time by the clock delta while hovering. */
  function Update(s: TileState, r: Rect, vp: Viewport, dt: real): TileState {
    if s.phase.Loading? then s
    else
      var moved := Move(s, r, vp);
      if !moved.isHovering then moved
      else moved.(phase := moved.phase.(uniforms := moved.phase.uniforms.(time := moved.phase.uniforms.time + dt)))
  }

  /** The state after one event. The images never change once their loads are issued. */
  function Step(s: TileState, e: Event): (t: TileState)
    requires |s.images| >= 3
    ensures t.images == s.images && t.toBeLoaded == s.toBeLoaded && t.duration == s.duration && t.delta == s.delta
    ensures t.isZoomed == s.isZoomed
  {
    match e
    case Loaded(_, r, vp, elapsed) => OnLoadComplete(s, r, vp, elapsed)
    case Clicked(mobile) => OnClick(s, mobile)
    case Entered(mobile) => OnPointerEnter(s, mobile)
    case Left(mobile) => OnPointerLeave(s, mobile)
    case HoverTweenEnded => OnHoverTweenComplete(s)
    case MouseMoved(mobile, x, y) => OnMouseMove(s, mobile, x, y)
    case MouseTweenEnded => OnMouseTweenComplete(s)
    case ScaleTweenEnded => OnScaleTweenComplete(s)
    case Resized(r, vp) => OnResize(s, r, vp)
    case Frame(r, vp, dt) => Update(s, r, vp, dt)
  }

  /** The state after a sequence of events. */
  function Run(s: TileState, es: seq<Event>): (t: TileState)
    requires |s.images| >= 3
    ensures t.images == s.images && t.toBeLoaded == s.toBeLoaded
    decreases |es|
  {
    if es == [] then s else Run(Step(s, es[0]), es[1..])
  }

  /**
   * What holds of every tile: three images, one load each; the mesh exists
   * exactly when all three have completed; tweens of the mesh and uniforms and
   * a click need the mesh; the hover progress stays within 0..1.
   */
  ghost predicate Inv(s: TileState) {
    |s.images| == s.toBeLoaded == 3 &&
    (s.phase.Ready? <==> s.loaded >= s.toBeLoaded) &&
    (s.phase.Ready? ==>
       s.phase.uniforms.mainMap == s.images[0] &&
       s.phase.uniforms.hoverMap == s.images[1] &&
       s.phase.uniforms.shape == s.images[2] &&
       0.0 <= s.phase.uniforms.progressHover <= 1.0) &&
    (s.hoverTween.Some? ==> s.phase.Ready? && 0.0 <= s.hoverTween.value.target <= 1.0) &&
    (s.scaleTween.Some? ==> s.phase.Ready?) &&
    (s.hasClicked ==> s.phase.Ready?)
  }

  lemma InitialInv(sources: seq<string>, duration: real)
    requires |sources| == 3
    ensures Inv(Initial(Handles(sources), duration))
  {
  }

  lemma StepKeepsInv(s: TileState, e: Event)
    requires Inv(s)
    ensures Inv(Step(s, e))
  {
  }

  lemma {:induction false} RunKeepsInv(s: TileState, es: seq<Event>)
    requires Inv(s)
    ensures Inv(Run(s, es))
    decreases |es|
  {
    if es != [] {
      StepKeepsInv(s, es[0]);
      RunKeepsInv(Step(s, es[0]), es[1..]);
    }
  }

  /**
   * From construction on, whatever happens, the images are the handles of
   * the three sources in source order, and the mesh exists exactly when all
   * three loads have reported completion.
   */
  lemma MeshOnlyAfterLoading(sources: seq<string>, duration: real, es: seq<Event>)
    requires |sources| == 3
    ensures Run(Initial(Handles(sources), duration), es).images == Handles(sources)
    ensures Run(Initial(Handles(sources), duration), es).phase.Ready?
        <==> Run(Initial(Handles(sources), duration), es).loaded >= 3
  {
    InitialInv(sources, duration);
    RunKeepsInv(Initial(Handles(sources), duration), es);
  }

  /** The load that completes the set creates the mesh at the tile's bounds, unhovered. */
  lemma MeshCreatedAtBounds(s: TileState, i: nat, r: Rect, vp: Viewport, elapsed: real)
    requires Inv(s) && s.loaded + 1 == s.toBeLoaded
    ensures var t := Step(s, Loaded(i, r, vp, elapsed));
      s.phase.Loading? && t.phase.Ready? &&
      t.phase.mesh == Mesh(Offset(r, vp), Vec3(r.width, r.height, 1.0)) &&
      t.phase.uniforms.progressHover == 0.0 &&
      t.phase.uniforms.time == elapsed &&
      t.phase.uniforms.res == Vec2(vp.width, vp.height)
  {
  }

  /** Only a non-mobile click on a tile with a mesh sets hasClicked. */
  lemma ClickNeedsMesh(s: TileState, e: Event)
    requires |s.images| >= 3 && !s.hasClicked && Step(s, e).hasClicked
    ensures e.Clicked? && !e.mobile && s.phase.Ready?
  {
  }

  /** Nothing resets hasClicked. */
  lemma {:induction false} ClickIsOneWay(s: TileState, es: seq<Event>)
    requires |s.images| >= 3 && s.hasClicked
    ensures Run(s, es).hasClicked
    decreases |es|
  {
    if es != [] {
      ClickIsOneWay(Step(s, es[0]), es[1..]);
    }
  }

  /**
   * A clicked tile ignores move, pointer movement and pointer leave, and
   * pointer enter only marks it hovered, writing no background colour.
   */
  lemma ClickedTileIsFrozen(s: TileState, r: Rect, vp: Viewport, mobile: bool, x: real, y: real, position: int)
    requires s.hasClicked
    ensures Move(s, r, vp) == s
    ensures OnMouseMove(s, mobile, x, y) == s
    ensures OnPointerLeave(s, mobile) == s
    ensures OnPointerEnter(s, mobile) == s.(isHovering := true)
    ensures BackgroundIndex(s, mobile, position) == None
  {
  }

  /**
   * onResize is not frozen by a click: a live mesh still takes the new size
   * as its scale and u_res the new viewport; the position stays.
   */
  lemma ResizeIgnoresClick(s: TileState, r: Rect, vp: Viewport)
    requires s.phase.Ready?
    ensures var t := OnResize(s, r, vp);
      t.phase.Ready? &&
      t.phase.mesh == s.phase.mesh.(scale := Vec3(r.width, r.height, 1.0)) &&
      t.phase.uniforms == s.phase.uniforms.(res := Vec2(vp.width, vp.height)) &&
      t == s.(sizes := Size(r), offset := Offset(r, vp), phase := t.phase)
  {
  }

  /** On a tile with a mesh u_time changes only on a frame while hovering, by that frame's delta. */
  lemma TimeAdvancesOnlyWhileHovering(s: TileState, e: Event)
    requires Inv(s) && s.phase.Ready?
    ensures Step(s, e).phase.Ready?
    ensures Step(s, e).phase.uniforms.time
         == if e.Frame? && s.isHovering then s.phase.uniforms.time + e.dt else s.phase.uniforms.time
  {
  }

  /** Pointer enter always marks the tile hovered, whatever its flags. */
  lemma EnterAlwaysHovers(s: TileState, mobile: bool)
    requires |s.images| >= 3
    ensures Step(s, Entered(mobile)).isHovering
  {
  }

  /** Only the completion of a pending leave tween clears isHovering. */
  lemma HoverClearedOnlyByLeaveTween(s: TileState, e: Event)
    requires |s.images| >= 3 && s.isHovering && !Step(s, e).isHovering
    ensures e.HoverTweenEnded? && s.hoverTween.Some? && s.hoverTween.value.clearsHover
  {
  }

  /**
   * Once a hovered tile is clicked with no leave tween pending, it stays
   * hovered whatever happens, so its u_time keeps advancing on every frame.
   */
  lemma {:induction false} ClickedHoverIsPermanent(s: TileState, es: seq<Event>)
    requires |s.images| >= 3 && s.hasClicked && s.isHovering
    requires s.hoverTween.None? || !s.hoverTween.value.clearsHover
    ensures Run(s, es).isHovering
    decreases |es|
  {
    if es != [] {
      var t := Step(s, es[0]);
      assert t.hasClicked && t.isHovering;
      assert t.hoverTween.None? || !t.hoverTween.value.clearsHover;
      ClickedHoverIsPermanent(t, es[1..]);
    }
  }

  /**
   * On a live, unclicked, unzoomed tile off mobile, enter and its tween
   * bring u_progressHover to 1 with the tile hovered; leave and its tween
   * bring it back to 0 and clear the hover.
   */
  lemma HoverRoundTrip(s: TileState)
    requires |s.images| >= 3 && s.phase.Ready? && !s.hasClicked && !s.isZoomed
    ensures var entered := Run(s, [Entered(false), HoverTweenEnded]);
      entered.phase.uniforms.progressHover == 1.0 && entered.isHovering &&
      var left := Run(entered, [Left(false), HoverTweenEnded]);
      left.phase.uniforms.progressHover == 0.0 && !left.isHovering
  {
    var entered := Run(s, [Entered(false), HoverTweenEnded]);
    assert entered == OnHoverTweenComplete(OnPointerEnter(s, false));
    assert Run(entered, [Left(false), HoverTweenEnded]) == OnHoverTweenComplete(OnPointerLeave(entered, false));
  }

  /** On mobile, enter and leave start no hover tween. */
  lemma MobileHasNoHover(s: TileState)
    ensures OnPointerEnter(s, true).hoverTween == s.hoverTween
    ensures OnPointerLeave(s, true) == s
  {
  }

  /** getBounds twice with the same rectangle and viewport is getBounds once. */
  lemma GetBoundsIdempotent(s: TileState, r: Rect, vp: Viewport)
    ensures GetBounds(GetBounds(s, r, vp), r, vp) == GetBounds(s, r, vp)
  {
  }

  /**
   * The mask completes first, then the primary image, then the hover image:
   * the images stay in source order, the mesh appears only on the third
   * completion, and its uniforms get the textures by source position.
   */
  lemma OutOfOrderLoads(main: string, hover: string, r: Rect, vp: Viewport)
    ensures var s0 := Initial(Handles([main, hover, ShapeSource]), 0.8);
      var s2 := Run(s0, [Loaded(2, r, vp, 0.0), Loaded(0, r, vp, 0.0)]);
      var s3 := Step(s2, Loaded(1, r, vp, 0.0));
      s2.phase.Loading? && s3.phase.Ready? &&
      s3.images == [Texture(main, Centre), Texture(hover, Centre), Texture(ShapeSource, Centre)] &&
      s3.phase.uniforms.mainMap.source == main &&
      s3.phase.uniforms.hoverMap.source == hover &&
      s3.phase.uniforms.shape.source == ShapeSource
  {
    var s0 := Initial(Handles([main, hover, ShapeSource]), 0.8);
    assert |s0.images| == 3;
    var mask, primary := Loaded(2, r, vp, 0.0), Loaded(0, r, vp, 0.0);
    var s1 := Step(s0, mask);
    assert [mask, primary][1..] == [primary] && [primary][1..] == [];
    assert Run(s1, [primary]) == Run(Step(s1, primary), []) == Step(s1, primary);
    assert Run(s0, [mask, primary]) == Step(s1, primary);
  }
}
