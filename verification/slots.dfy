/**
 The state of one `ImageView`: the stored container, the always-present
 static image view, the lazily created animated and video views, the
 custom content view, and the configuration properties. Platform views are
 reduced to records of the fields the dispatcher reads or writes; a slot
 that is `Some` is a view added to the hierarchy.
 */
module Slots {
  import opened Options
  import opened Content

  /**
   The source's compile-time conditions as data.
   `animatedSupported` is `(os(iOS) || os(tvOS)) && !targetEnvironment(macCatalyst)`;
   `resizingSupported` is `os(iOS) || os(tvOS)`, false on macOS.
   Every real target with animated views also supports resizing; the
   combination `animatedSupported && !resizingSupported` describes no platform.
   */
  datatype Platform = Platform(animatedSupported: bool, resizingSupported: bool)

  /** `ImageResizingMode`; its conversions to content modes are not modelled, the mode is copied as is. */
  datatype ResizingMode =
    | Fill | AspectFit | AspectFill | Center
    | Top | Bottom | Left | Right
    | TopLeft | TopRight | BottomLeft | BottomRight

  /** The video layer's gravity: derived from a resizing mode, or macOS's fixed `.resizeAspect`. */
  datatype Gravity = FromMode(mode: ResizingMode) | ResizeAspect

  /** Identifies an `AnimatedImageViewProviding` value; 0 is the default Gifu provider. */
  type ProviderId = nat

  const GifuProvider: ProviderId := 0

  /** A freshly made video player view loops until told otherwise. */
  const PlayerDefaultLooping := true

  /** `imageView`: created with the view, never replaced. `contentMode` is None where it is never set (macOS). */
  datatype StaticSlot = StaticSlot(hidden: bool, image: Option<Image>, contentMode: Option<ResizingMode>)

  /** What the animated view was last asked to animate (`animate(withGIFData:loopCount:...)`). */
  datatype AnimatedContent = Animating(data: Bytes, loopCount: int)

  /** `_animatedImageView`; `id` counts animated views made by this image view, `provider` made it. */
  datatype AnimatedSlot = AnimatedSlot(
    id: nat,
    provider: ProviderId,
    hidden: bool,
    content: Option<AnimatedContent>,
    contentMode: ResizingMode)

  /** `_videoPlayerView`; playback is reduced to the asset it holds and whether it was told to play. */
  datatype VideoSlot = VideoSlot(
    id: nat,
    hidden: bool,
    looping: bool,
    asset: Option<Asset>,
    playing: bool,
    gravity: Gravity)

  /** `_customContentView`: a view returned by a registered provider. */
  datatype CustomSlot = CustomSlot(view: ViewId, hidden: bool)

  /** `resizingMode`, `isAnimatedImageRenderingEnabled`, `isVideoRenderingEnabled`, `isVideoLooping`, `animatedImageViewProvider`. */
  datatype Config = Config(
    resizingMode: ResizingMode,
    animatedRenderingEnabled: bool,
    videoRenderingEnabled: bool,
    videoLooping: bool,
    animatedProvider: ProviderId)

  /** How many animated and video views this image view has made, and how many custom views it has installed. */
  datatype Counters = Counters(animated: nat, video: nat, custom: nat)

  datatype View = View(
    container: Option<Container>,
    imageView: StaticSlot,
    animated: Option<AnimatedSlot>,
    video: Option<VideoSlot>,
    custom: Option<CustomSlot>,
    config: Config,
    made: Counters)

  /** The four rendering backends. */
  datatype Kind = StaticKind | AnimatedKind | VideoKind | CustomKind

  /** The backends whose view is in the hierarchy and not hidden. */
  function VisibleKinds(s: View): set<Kind> {
    (if !s.imageView.hidden then {StaticKind} else {})
    + (if s.animated.Some? && !s.animated.value.hidden then {AnimatedKind} else {})
    + (if s.video.Some? && !s.video.value.hidden then {VideoKind} else {})
    + (if s.custom.Some? && !s.custom.value.hidden then {CustomKind} else {})
  }

  /** Nothing shown and no custom view installed: the state after init and after `reset`. */
  predicate Idle(s: View) {
    VisibleKinds(s) == {} && s.custom.None?
  }

  /** The gravity a video view gets when made, and whenever the resizing mode is applied to it. */
  function GravityFor(p: Platform, mode: ResizingMode): Gravity {
    if p.resizingSupported then FromMode(mode) else ResizeAspect
  }

  /**
   What every operation keeps true: slots exist only where the platform has
   them, an installed custom view is shown, slot identities come from the
   counters, the animated view was made by the current provider, and on
   platforms that support it the current resizing mode is applied to every
   view that exists.
   */
  ghost predicate Wf(p: Platform, s: View) {
    && (!p.animatedSupported ==> s.animated.None?)
    && (s.custom.Some? ==> !s.custom.value.hidden)
    && (s.animated.Some? ==> 1 <= s.animated.value.id <= s.made.animated)
    && (s.video.Some? ==> 1 <= s.video.value.id <= s.made.video)
    && (s.animated.Some? ==> s.animated.value.provider == s.config.animatedProvider)
    && (p.resizingSupported ==> s.imageView.contentMode == Some(s.config.resizingMode))
    && (!p.resizingSupported ==> s.imageView.contentMode.None?)
    && (p.resizingSupported && s.animated.Some? ==>
          s.animated.value.contentMode == s.config.resizingMode)
    && (s.video.Some? ==> s.video.value.gravity == GravityFor(p, s.config.resizingMode))
  }

  /**
   A new `ImageView` after `didInit`: only the static image view exists and
   it was added hidden; every property has its declared default.
   */
  function Initial(p: Platform): (s: View)
    ensures Idle(s) && Wf(p, s)
    ensures s.container.None?
    ensures s.animated.None? && s.video.None?
    ensures s.made == Counters(0, 0, 0)
    ensures s.config == Config(AspectFill, true, true, true, GifuProvider)
    ensures s.imageView.image.None?
  {
    var config := Config(AspectFill, true, true, true, GifuProvider);
    var mode := if p.resizingSupported then Some(AspectFill) else None;
    View(None, StaticSlot(true, None, mode), None, None, None, config, Counters(0, 0, 0))
  }
}
