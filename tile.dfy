/**
 * The tile renderer (class Tile): the object whose handlers flip its flags,
 * push texture handles, and update its mesh and uniforms in place. Each
 * method is proved to leave the tile in the state the matching function of
 * TileModel gives, so the properties proved there hold of the object.
 * The mobile flag, the DOM rectangle, the viewport, the element's position
 * among its siblings and the clock readings are parameters.
 */
module TileRenderer {
  import opened Wrappers
  import opened Bounds
  import opened Preload
  import opened TileModel

  class Tile {
    var images: seq<Texture>
    /** The counter shared by the load callbacks; it exists once the loads are issued. */
    var barrier: LoadBarrier?
    var sizes: Vec2
    var offset: Vec2
    var mouse: Vec2
    const duration: real
    const delta: real
    var hasClicked: bool
    var isZoomed: bool
    var isHovering: bool
    /** The mesh and its uniforms, once initTile has run. */
    var phase: Phase
    var hoverTween: Option<HoverTween>
    var mouseTween: Option<Tween<Vec2>>
    var scaleTween: Option<Tween<Vec3>>

    /** The tile's fields, with the load counter, as a TileModel state. */
    ghost function State(): TileState
      reads this, barrier
      requires barrier != null
    {
      TileState(images, barrier.toBeLoadedNumber, barrier.loadedCounter, sizes, offset, mouse,
                duration, delta, hasClicked, isZoomed, isHovering, phase,
                hoverTween, mouseTween, scaleTween)
    }

    /** The tile invariant, and initTile has run once exactly when the mesh exists. */
    ghost predicate Valid()
      reads this, barrier
    {
      barrier != null && barrier.Valid() && Inv(State()) &&
      barrier.firings == (if phase.Ready? then 1 else 0)
    }

    /** Sets up the fields and issues the loads of the image, its hover image and the mask. */
    constructor (mainSource: string, hoverSource: string, duration: real)
      ensures Valid() && fresh(barrier)
      ensures State() == Initial(Handles([mainSource, hoverSource, ShapeSource]), duration)
    {
      images := [];
      barrier := null;
      sizes, offset, mouse := Origin, Origin, Origin;
      this.duration := duration;
      delta := 0.0;
      hasClicked, isZoomed, isHovering := false, false, false;
      phase := Loading;
      hoverTween, mouseTween, scaleTween := None, None, None;
      new;
      Preload([mainSource, hoverSource, ShapeSource]);
      FiresExactlyOnce(3, 0);
    }

    /**
     * Issues one load per source, in source order, pushing each handle as
     * its load is issued, behind a fresh counter waiting for all of them.
     */
    method Preload(sources: seq<string>)
      modifies this`images, this`barrier
      ensures images == old(images) + Handles(sources)
      ensures barrier != null && fresh(barrier) && barrier.Valid()
      ensures barrier.toBeLoadedNumber == |sources| && barrier.loadedCounter == 0 && barrier.firings == 0
    {
      var counter := new LoadBarrier(|sources|);
      for k := 0 to |sources|
        invariant images == old(images) + Handles(sources[..k])
        modifies this`images
      {
        images := images + [Texture(sources[k], Centre)];
        assert sources[..k + 1][..k] == sources[..k];
      }
      assert sources[..|sources|] == sources;
      barrier := counter;
    }

    /** getBounds: rewrites sizes and offset only where they differ from the new values. */
    method GetBounds(r: Rect, vp: Viewport)
      modifies this`sizes, this`offset
      ensures sizes == Size(r) && offset == Offset(r, vp)
    {
      var newSizes := Vec2(r.width, r.height);
      if sizes != newSizes {
        sizes := newSizes;
      }
      var newOffset := Offset(r, vp);
      if offset != newOffset {
        offset := newOffset;
      }
    }

    /** The callback of load i; the completion that fills the counter runs initTile. */
    method OnLoadComplete(i: nat, r: Rect, vp: Viewport, elapsed: real)
      requires Valid() && i < barrier.toBeLoadedNumber
      modifies this, barrier
      ensures Valid() && barrier == old(barrier)
      ensures State() == TileModel.OnLoadComplete(old(State()), r, vp, elapsed)
    {
      var allLoaded := barrier.Complete(i);
      FiresExactlyOnce(barrier.toBeLoadedNumber, barrier.loadedCounter);
      if allLoaded {
        InitTile(r, vp, elapsed);
      }
    }

    /** initTile: builds the uniforms and the mesh at the current bounds. */
    method InitTile(r: Rect, vp: Viewport, elapsed: real)
      requires barrier != null && |images| >= 3
      modifies this`sizes, this`offset, this`phase
      ensures State() == TileModel.InitTile(old(State()), r, vp, elapsed)
    {
      GetBounds(r, vp);
      var uniforms := Uniforms(1.0, images[0], images[1], images[2], 0.0, 0.0, elapsed, Vec2(vp.width, vp.height));
      phase := Ready(Mesh(offset, Vec3(sizes.x, sizes.y, 1.0)), uniforms);
    }

    method OnClick(mobile: bool)
      requires Valid()
      modifies this`hasClicked
      ensures Valid()
      ensures State() == TileModel.OnClick(old(State()), mobile)
    {
      if mobile {
        return;
      }
      if phase.Loading? {
        return;
      }
      hasClicked := true;
    }

    /**
     * onPointerEnter, for a tile at the given position among its siblings;
     * returns the --color-bg index written to the document, if any.
     */
    method OnPointerEnter(mobile: bool, position: int) returns (colour: Option<int>)
      requires Valid()
      modifies this`isHovering, this`hoverTween
      ensures Valid()
      ensures State() == TileModel.OnPointerEnter(old(State()), mobile)
      ensures colour == BackgroundIndex(old(State()), mobile, position)
    {
      isHovering := true;
      colour := None;
      if isZoomed || hasClicked || mobile {
        return;
      }
      colour := Some(ColourIndex(position));
      if phase.Loading? {
        return;
      }
      hoverTween := Some(HoverTween(1.0, duration, false));
    }

    method OnPointerLeave(mobile: bool)
      requires Valid()
      modifies this`hoverTween
      ensures Valid()
      ensures State() == TileModel.OnPointerLeave(old(State()), mobile)
    {
      if phase.Loading? || isZoomed || hasClicked || mobile {
        return;
      }
      hoverTween := Some(HoverTween(0.0, duration, true));
    }

    /** The pending u_progressHover tween completes, running its onComplete. */
    method OnHoverTweenComplete()
      requires Valid()
      modifies this`phase, this`isHovering, this`hoverTween
      ensures Valid()
      ensures State() == TileModel.OnHoverTweenComplete(old(State()))
    {
      if hoverTween.None? {
        return;
      }
      var t := hoverTween.value;
      hoverTween := None;
      if phase.Loading? {
        return;
      }
      phase := phase.(uniforms := phase.uniforms.(progressHover := t.target));
      if t.clearsHover {
        isHovering := false;
      }
    }

    method OnMouseMove(mobile: bool, clientX: real, clientY: real)
      requires Valid()
      modifies this`mouseTween
      ensures Valid()
      ensures State() == TileModel.OnMouseMove(old(State()), mobile, clientX, clientY)
    {
      if isZoomed || hasClicked || mobile {
        return;
      }
      mouseTween := Some(Tween(Vec2(clientX, clientY), MouseDuration));
    }

    /** The pending pointer tween completes: the mouse vector (u_mouse) reaches its target. */
    method OnMouseTweenComplete()
      requires Valid()
      modifies this`mouse, this`mouseTween
      ensures Valid()
      ensures State() == TileModel.OnMouseTweenComplete(old(State()))
    {
      if mouseTween.Some? {
        mouse := mouseTween.value.target;
        mouseTween := None;
      }
    }

    /** The pending scale tween completes: the mesh reaches its target scale. */
    method OnScaleTweenComplete()
      requires Valid()
      modifies this`phase, this`scaleTween
      ensures Valid()
      ensures State() == TileModel.OnScaleTweenComplete(old(State()))
    {
      if scaleTween.None? {
        return;
      }
      var target := scaleTween.value.target;
      scaleTween := None;
      if phase.Ready? {
        phase := phase.(mesh := phase.mesh.(scale := target));
      }
    }

    method OnResize(r: Rect, vp: Viewport)
      requires Valid()
      modifies this`sizes, this`offset, this`phase
      ensures Valid()
      ensures State() == TileModel.OnResize(old(State()), r, vp)
    {
      GetBounds(r, vp);
      if phase.Loading? {
        return;
      }
      phase := Ready(phase.mesh.(scale := Vec3(sizes.x, sizes.y, 1.0)),
                     phase.uniforms.(res := Vec2(vp.width, vp.height)));
    }

    method Move(r: Rect, vp: Viewport)
      requires Valid()
      modifies this`sizes, this`offset, this`phase, this`scaleTween
      ensures Valid()
      ensures State() == TileModel.Move(old(State()), r, vp)
    {
      if phase.Loading? || isZoomed || hasClicked {
        return;
      }
      GetBounds(r, vp);
      phase := phase.(mesh := phase.mesh.(position := offset));
      scaleTween := Some(Tween(Vec3(sizes.x - delta, sizes.y - delta, 1.0), ScaleDuration));
    }

    /** One frame, dt seconds after the clock's previous reading. */
    method Update(r: Rect, vp: Viewport, dt: real)
      requires Valid()
      modifies this`sizes, this`offset, this`phase, this`scaleTween
      ensures Valid()
      ensures State() == TileModel.Update(old(State()), r, vp, dt)
    {
      if phase.Loading? {
        return;
      }
      Move(r, vp);
      if !isHovering {
        return;
      }
      phase := phase.(uniforms := phase.uniforms.(time := phase.uniforms.time + dt));
    }
  }

  /**
   * A tile whose mask load completes first, then its image, then its hover
   * image: the images stay in source order and the mesh appears only on the
   * last completion.
   */
  method OutOfOrderLoadScenario(main: string, hover: string, r: Rect, vp: Viewport)
    returns (images: seq<Texture>, readyAfterTwo: bool, readyAfterThree: bool)
    ensures images == [Texture(main, Centre), Texture(hover, Centre), Texture(ShapeSource, Centre)]
    ensures !readyAfterTwo && readyAfterThree
  {
    var tile := new Tile(main, hover, 0.8);
    tile.OnLoadComplete(2, r, vp, 0.0);
    tile.OnLoadComplete(0, r, vp, 0.0);
    readyAfterTwo := tile.phase.Ready?;
    tile.OnLoadComplete(1, r, vp, 0.0);
    readyAfterThree := tile.phase.Ready?;
    images := tile.images;
  }

  /**
   * A clicked tile: resizing from 1920x1080 to 1280x720 still rescales the
   * mesh and updates u_res, while a frame leaves the position alone.
   */
  method ClickThenResizeScenario(main: string, hover: string, r: Rect, r2: Rect)
    returns (scale: Vec3, res: Vec2, positionKept: bool)
    ensures scale == Vec3(r2.width, r2.height, 1.0)
    ensures res == Vec2(1280.0, 720.0)
    ensures positionKept
  {
    var tile := new Tile(main, hover, 0.8);
    var large, small := Viewport(1920.0, 1080.0), Viewport(1280.0, 720.0);
    tile.OnLoadComplete(0, r, large, 0.0);
    tile.OnLoadComplete(1, r, large, 0.0);
    tile.OnLoadComplete(2, r, large, 0.0);
    tile.OnClick(false);
    var before := tile.phase.mesh.position;
    tile.OnResize(r2, small);
    tile.Update(r2, small, 0.016);
    scale, res := tile.phase.mesh.scale, tile.phase.uniforms.res;
    positionKept := tile.phase.mesh.position == before;
  }
}
