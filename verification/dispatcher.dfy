/**
 The slot manager of `ImageView`: lazy, pooled animated and video views, the
 replaced-on-every-use custom view, `display`, `reset`, the
 `imageContainer` and `image` properties, and the configuration setters.
 Every operation is a pure transition from one `View` state to the next.
 */
module Dispatcher {
  import opened Options
  import opened Content
  import opened Slots
  import opened Registry
  import opened Selection

  // ---------------------------------------------------------------------------
  // Lazily created, pooled views
  // ---------------------------------------------------------------------------

  /**
   `makeAnimatedImageView` followed by `addContentView`: a view from the
   current provider, given the current resizing mode, added hidden. It takes
   the place of any previous animated view.
   */
  function InstallFreshAnimated(s: View): (s': View)
    ensures s'.animated.Some?
    ensures s'.animated.value.id == s.made.animated + 1
    ensures s'.animated.value.hidden && s'.animated.value.content.None?
    ensures s'.animated.value.provider == s.config.animatedProvider
    ensures s'.animated.value.contentMode == s.config.resizingMode
    ensures s'.made == s.made.(animated := s.made.animated + 1)
    ensures s' == s.(animated := s'.animated, made := s'.made)
  {
    var view := AnimatedSlot(s.made.animated + 1, s.config.animatedProvider, true, None, s.config.resizingMode);
    s.(animated := Some(view), made := s.made.(animated := s.made.animated + 1))
  }

  /**
   `imageViewAnimating` (read through the public `animatedImageView`): the
   existing animated view if there is one; otherwise exactly one new view,
   added hidden. The accessor exists only where animated images are supported.
   */
  function AnimatedView(p: Platform, s: View): (r: (View, AnimatedSlot))
    requires p.animatedSupported
    ensures r.0.animated == Some(r.1)
    ensures s.animated.Some? ==> r.0 == s
    ensures s.animated.None? ==> r.0 == InstallFreshAnimated(s)
    ensures r.0.made.animated == s.made.animated + (if s.animated.None? then 1 else 0)
    ensures Wf(p, s) ==> Wf(p, r.0)
  {
    match s.animated
    case Some(view) => (s, view)
    case None =>
      var s' := InstallFreshAnimated(s);
      (s', s'.animated.value)
  }

  /**
   `videoPlayerView`: the existing player view if there is one; otherwise
   exactly one new view (`makeVideoPlayerView` plus `addContentView`), added
   hidden, with the gravity of the current resizing mode, or `.resizeAspect`
   on macOS.
   */
  function VideoView(p: Platform, s: View): (r: (View, VideoSlot))
    ensures r.0.video == Some(r.1)
    ensures s.video.Some? ==> r.0 == s
    ensures s.video.None? ==>
              && r.1 == VideoSlot(s.made.video + 1, true, PlayerDefaultLooping, None, false,
                                  GravityFor(p, s.config.resizingMode))
              && r.0 == s.(video := Some(r.1), made := s.made.(video := s.made.video + 1))
    ensures r.0.made.video == s.made.video + (if s.video.None? then 1 else 0)
    ensures Wf(p, s) ==> Wf(p, r.0)
  {
    match s.video
    case Some(view) => (s, view)
    case None =>
      var view := VideoSlot(s.made.video + 1, true, PlayerDefaultLooping, None, false,
                            GravityFor(p, s.config.resizingMode));
      (s.(video := Some(view), made := s.made.(video := s.made.video + 1)), view)
  }

  /**
   The `customContentView` setter: the previous custom view is removed; a
   new one is added and shown. Custom views are never reused.
   */
  function SetCustomContentView(s: View, v: Option<ViewId>): (s': View)
    ensures v.Some? ==> s'.custom == Some(CustomSlot(v.value, false))
    ensures v.None? ==> s'.custom.None?
    ensures s'.made.custom == s.made.custom + (if v.Some? then 1 else 0)
    ensures s'.made == s.made.(custom := s'.made.custom)
    ensures s' == s.(custom := s'.custom, made := s'.made)
  {
    match v
    case Some(view) =>
      var added := CustomSlot(view, true);
      s.(custom := Some(added.(hidden := false)), made := s.made.(custom := s.made.custom + 1))
    case None =>
      s.(custom := None)
  }

  // ---------------------------------------------------------------------------
  // The video player's operations, in the order `display` issues them
  // ---------------------------------------------------------------------------

  function Unhide(v: VideoSlot): VideoSlot { v.(hidden := false) }

  function WithLooping(v: VideoSlot, looping: bool): VideoSlot { v.(looping := looping) }

  function WithAsset(v: VideoSlot, a: Asset): VideoSlot { v.(asset := Some(a)) }

  function Play(v: VideoSlot): VideoSlot { v.(playing := true) }

  /** `VideoPlayerView.reset()`: the asset is released and playback stops. */
  function ResetPlayer(v: VideoSlot): VideoSlot { v.(asset := None, playing := false) }

  // ---------------------------------------------------------------------------
  // display and reset
  // ---------------------------------------------------------------------------

  /**
   `display(_:)`: shows the container with the selected backend. It makes
   the winner visible and never hides another view, so views shown by an
   earlier call stay visible; the stored container is not touched.
   */
  function Display(p: Platform, reg: Registry, s: View, c: Container): (s': View)
    ensures var b := Select(p, s.config, reg, c);
      && VisibleKinds(s') == VisibleKinds(s) + {KindOf(b)}
      && (b.CustomBackend? ==> s'.custom == Some(CustomSlot(b.view, false)))
      && (b.AnimatedBackend? ==>
            s'.animated.Some? && !s'.animated.value.hidden
            && s'.animated.value.content == Some(Animating(b.data, 0)))
      && (b.VideoBackend? ==>
            s'.video.Some? && !s'.video.value.hidden && s'.video.value.playing
            && s'.video.value.asset == Some(b.asset) && s'.video.value.looping == s.config.videoLooping)
      && (b.StaticBackend? ==> s'.imageView.image == Some(b.image) && !s'.imageView.hidden)
      // only the winner's slot changes
      && (!b.CustomBackend? ==> s'.custom == s.custom)
      && (!b.AnimatedBackend? ==> s'.animated == s.animated)
      && (!b.VideoBackend? ==> s'.video == s.video)
      && (!b.StaticBackend? ==> s'.imageView == s.imageView)
      && s'.made.custom == s.made.custom + (if b.CustomBackend? then 1 else 0)
    ensures s'.container == s.container && s'.config == s.config
    ensures s'.imageView.contentMode == s.imageView.contentMode
    // pooled views are reused: an existing one keeps its identity, a missing one is made at most once
    ensures s.animated.Some? ==> s'.animated.Some? && s'.animated.value.id == s.animated.value.id
    ensures s.video.Some? ==> s'.video.Some? && s'.video.value.id == s.video.value.id
    ensures s'.made.animated == s.made.animated + (if s.animated.None? && s'.animated.Some? then 1 else 0)
    ensures s'.made.video == s.made.video + (if s.video.None? && s'.video.Some? then 1 else 0)
    // a pooled view made by this call is a new one
    ensures s.animated.None? && s'.animated.Some? ==> s'.animated.value.id == s.made.animated + 1
    ensures s.video.None? && s'.video.Some? ==> s'.video.value.id == s.made.video + 1
    ensures Wf(p, s) ==> Wf(p, s')
  {
    match Select(p, s.config, reg, c)
    case CustomBackend(view) =>
      SetCustomContentView(s, Some(view))
    case AnimatedBackend(data) =>
      var (s1, view) := AnimatedView(p, s);
      s1.(animated := Some(view.(content := Some(Animating(data, 0))).(hidden := false)))
    case VideoBackend(asset) =>
      var (s1, view) := VideoView(p, s);
      s1.(video := Some(Play(WithAsset(WithLooping(Unhide(view), s.config.videoLooping), asset))))
    case StaticBackend(img) =>
      s.(imageView := s.imageView.(image := Some(img), hidden := false))
  }

  /**
   `reset()`: forgets the container, hides and clears the static and
   animated views, hides and resets the player, and removes the custom
   view. Views that do not exist are not created.
   */
  function Reset(s: View): (s': View)
    ensures Idle(s')
    ensures s'.container.None?
    ensures s'.imageView.image.None? && s'.imageView.contentMode == s.imageView.contentMode
    ensures s'.animated.Some? <==> s.animated.Some?
    ensures s'.animated.Some? ==>
              s'.animated.value == s.animated.value.(hidden := true, content := None)
    ensures s'.video.Some? <==> s.video.Some?
    ensures s'.video.Some? ==>
              s'.video.value == s.video.value.(hidden := true, asset := None, playing := false)
    ensures s'.config == s.config && s'.made == s.made
    ensures forall p :: Wf(p, s) ==> Wf(p, s')
  {
    var s1 := s.(container := None);
    var s2 := s1.(imageView := s1.imageView.(hidden := true).(image := None));
    var s3 := match s2.animated
      case Some(a) => s2.(animated := Some(a.(hidden := true).(content := None)))
      case None => s2;
    var s4 := match s3.video
      case Some(v) => s3.(video := Some(ResetPlayer(v.(hidden := true))))
      case None => s3;
    s4.(custom := None)
  }

  // ---------------------------------------------------------------------------
  // Public properties
  // ---------------------------------------------------------------------------

  /** The `imageContainer` getter. */
  function GetImageContainer(s: View): Option<Container> {
    s.container
  }

  /**
   The `imageContainer` setter: stores the value, then displays it, or
   resets the view when it is nil.
   */
  function SetImageContainer(p: Platform, reg: Registry, s: View, c: Option<Container>): (s': View)
    ensures GetImageContainer(s') == c
    ensures c.None? ==> Idle(s')
    ensures c.Some? ==> KindOf(Select(p, s.config, reg, c.value)) in VisibleKinds(s')
    ensures c.Some? ==> VisibleKinds(s) <= VisibleKinds(s')
    ensures c.None? ==> s' == Reset(s)
    ensures c.Some? ==> s' == Display(p, reg, s, c.value).(container := c)
    ensures s'.config == s.config
    ensures Wf(p, s) ==> Wf(p, s')
  {
    var stored := s.(container := c);
    match c
    case Some(container) => Display(p, reg, stored, container)
    case None => Reset(stored)
  }

  /** The `image` getter: the stored container's image. */
  function GetImage(s: View): Option<Image> {
    match GetImageContainer(s)
    case Some(c) => Some(c.image)
    case None => None
  }

  /** The `image` setter: wraps the image with `ImageContainer(image:)` and sets `imageContainer`. */
  function SetImage(p: Platform, reg: Registry, s: View, img: Option<Image>): (s': View)
    ensures GetImage(s') == img
    ensures img.Some? ==> GetImageContainer(s') == Some(FromImage(img.value))
    ensures img.None? ==> Idle(s')
    ensures img.Some? ==> s' == SetImageContainer(p, reg, s, Some(FromImage(img.value)))
    ensures img.None? ==> s' == Reset(s)
  {
    var c := match img
      case Some(i) => Some(FromImage(i))
      case None => None;
    SetImageContainer(p, reg, s, c)
  }

  /**
   `resizingMode`'s `didSet` on iOS and tvOS: the static view and whichever
   of the animated and video views already exist take the new mode; no view
   is created. On macOS the property is only stored.
   */
  function SetResizingMode(p: Platform, s: View, mode: ResizingMode): (s': View)
    ensures s'.config == s.config.(resizingMode := mode)
    ensures s'.animated.Some? <==> s.animated.Some?
    ensures s'.video.Some? <==> s.video.Some?
    ensures p.resizingSupported ==> s'.imageView.contentMode == Some(mode)
    ensures p.resizingSupported && p.animatedSupported && s.animated.Some? ==>
              s'.animated == Some(s.animated.value.(contentMode := mode))
    ensures p.resizingSupported && s.video.Some? ==>
              s'.video == Some(s.video.value.(gravity := FromMode(mode)))
    ensures !p.resizingSupported ==> s' == s.(config := s'.config)
    ensures p.resizingSupported ==>
              s' == s.(config := s'.config, imageView := s.imageView.(contentMode := Some(mode)),
                       animated := s'.animated, video := s'.video)
    ensures VisibleKinds(s') == VisibleKinds(s) && s'.made == s.made && s'.custom == s.custom
    ensures Wf(p, s) ==> Wf(p, s')
  {
    var s1 := s.(config := s.config.(resizingMode := mode));
    if !p.resizingSupported then s1
    else
      var s2 := s1.(imageView := s1.imageView.(contentMode := Some(mode)));
      var s3 := match s2.animated
        case Some(a) => if p.animatedSupported then s2.(animated := Some(a.(contentMode := mode))) else s2
        case None => s2;
      match s3.video
      case Some(v) => s3.(video := Some(v.(gravity := FromMode(mode))))
      case None => s3
  }

  /** `isVideoLooping`'s `didSet`: only a player view that already exists is updated. */
  function SetVideoLooping(s: View, looping: bool): (s': View)
    ensures s'.config == s.config.(videoLooping := looping)
    ensures s'.video.Some? <==> s.video.Some?
    ensures s.video.Some? ==> s'.video == Some(s.video.value.(looping := looping))
    ensures s' == s.(config := s'.config, video := s'.video)
    ensures forall p :: Wf(p, s) ==> Wf(p, s')
  {
    var s1 := s.(config := s.config.(videoLooping := looping));
    match s1.video
    case Some(v) => s1.(video := Some(WithLooping(v, looping)))
    case None => s1
  }

  /**
   `animatedImageViewProvider`'s `didSet`: any animated view is removed and
   a fresh one from the new provider is added hidden, whether or not one
   existed before.
   */
  function SetAnimatedProvider(p: Platform, s: View, provider: ProviderId): (s': View)
    requires p.animatedSupported
    ensures s'.config == s.config.(animatedProvider := provider)
    ensures s'.animated.Some? && s'.animated.value.provider == provider
    ensures s'.animated.value.hidden && s'.animated.value.content.None?
    ensures s'.animated.value.id == s.made.animated + 1
    ensures Wf(p, s) && s.animated.Some? ==> s'.animated.value.id != s.animated.value.id
    ensures s'.made == s.made.(animated := s.made.animated + 1)
    ensures s' == s.(config := s'.config, animated := s'.animated, made := s'.made)
    ensures VisibleKinds(s') == VisibleKinds(s) - {AnimatedKind}
    ensures Wf(p, s) ==> Wf(p, s')
  {
    InstallFreshAnimated(s.(config := s.config.(animatedProvider := provider)))
  }

  /** `display` applied to each container in turn. */
  function DisplayAll(p: Platform, reg: Registry, s: View, cs: seq<Container>): View
    decreases |cs|
  {
    if |cs| == 0 then s else DisplayAll(p, reg, Display(p, reg, s, cs[0]), cs[1..])
  }
}
