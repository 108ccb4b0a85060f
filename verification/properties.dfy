/**
 Properties that relate several operations of the dispatcher: visibility
 after `display` from an idle view, `reset` idempotence, pooling across
 repeated displays, and propagation of the resizing mode to views made
 later.
 */
module Properties {
  import opened Options
  import opened Content
  import opened Slots
  import opened Registry
  import opened Selection
  import opened Dispatcher

  /**
   From an idle view (a new one, or one just reset) `display` leaves exactly
   one backend visible: the selected one.
   */
  lemma DisplayFromIdleShowsOnlySelected(p: Platform, reg: Registry, s: View, c: Container)
    requires Idle(s)
    ensures VisibleKinds(Display(p, reg, s, c)) == {KindOf(Select(p, s.config, reg, c))}
  {
  }

  /** Setting a container on a freshly reset view shows exactly the selected backend. */
  lemma SetContainerAfterResetShowsOne(p: Platform, reg: Registry, s: View, c: Container)
    ensures var s' := SetImageContainer(p, reg, Reset(s), Some(c));
      VisibleKinds(s') == {KindOf(Select(p, s.config, reg, c))}
  {
  }

  /** A new view shows exactly the selected backend after its first container. */
  lemma FirstContainerShowsOne(p: Platform, reg: Registry, c: Container)
    ensures var s := Initial(p);
      VisibleKinds(SetImageContainer(p, reg, s, Some(c))) == {KindOf(Select(p, s.config, reg, c))}
  {
  }

  /**
   `display` never hides what an earlier `display` showed: a GIF followed by
   a plain image on a new iOS view leaves both the animated and the static
   view visible.
   */
  lemma DisplayAfterDisplayCanShowTwo()
    ensures var p := Platform(true, true);
      var gif := Container(Image(1), Some(Gif), Some([0x47, 0x49, 0x46]), None);
      var still := FromImage(Image(2));
      var s := Display(p, [], Display(p, [], Initial(p), gif), still);
      VisibleKinds(s) == {AnimatedKind, StaticKind}
  {
  }

  /** `reset` applied twice gives the same state as applied once. */
  lemma ResetIdempotent(s: View)
    ensures Reset(Reset(s)) == Reset(s)
  {
  }

  /**
   Repeated displays keep an existing animated view: it is still there
   with the same identity, and no other animated view is made.
   */
  lemma {:induction false} DisplaysKeepAnimatedView(p: Platform, reg: Registry, s: View, cs: seq<Container>)
    requires s.animated.Some?
    ensures DisplayAll(p, reg, s, cs).animated.Some?
    ensures DisplayAll(p, reg, s, cs).animated.value.id == s.animated.value.id
    ensures DisplayAll(p, reg, s, cs).made.animated == s.made.animated
    decreases |cs|
  {
    if |cs| > 0 {
      DisplaysKeepAnimatedView(p, reg, Display(p, reg, s, cs[0]), cs[1..]);
    }
  }

  /**
   Repeated displays make at most one animated view, however many GIFs
   they show, and one that was made is still there at the end.
   */
  lemma {:induction false} DisplaysMakeAtMostOneAnimatedView(p: Platform, reg: Registry, s: View, cs: seq<Container>)
    ensures DisplayAll(p, reg, s, cs).made.animated <= s.made.animated + 1
    ensures DisplayAll(p, reg, s, cs).made.animated == s.made.animated + 1 ==>
              DisplayAll(p, reg, s, cs).animated.Some?
    decreases |cs|
  {
    if |cs| > 0 {
      var s1 := Display(p, reg, s, cs[0]);
      if s1.animated.Some? {
        DisplaysKeepAnimatedView(p, reg, s1, cs[1..]);
      } else {
        DisplaysMakeAtMostOneAnimatedView(p, reg, s1, cs[1..]);
      }
    }
  }

  /**
   Repeated displays keep an existing video player view: it is still there
   with the same identity, and no other player view is made.
   */
  lemma {:induction false} DisplaysKeepVideoView(p: Platform, reg: Registry, s: View, cs: seq<Container>)
    requires s.video.Some?
    ensures DisplayAll(p, reg, s, cs).video.Some?
    ensures DisplayAll(p, reg, s, cs).video.value.id == s.video.value.id
    ensures DisplayAll(p, reg, s, cs).made.video == s.made.video
    decreases |cs|
  {
    if |cs| > 0 {
      DisplaysKeepVideoView(p, reg, Display(p, reg, s, cs[0]), cs[1..]);
    }
  }

  /**
   Repeated displays make at most one video player view, however many
   videos they show, and one that was made is still there at the end.
   */
  lemma {:induction false} DisplaysMakeAtMostOneVideoView(p: Platform, reg: Registry, s: View, cs: seq<Container>)
    ensures DisplayAll(p, reg, s, cs).made.video <= s.made.video + 1
    ensures DisplayAll(p, reg, s, cs).made.video == s.made.video + 1 ==>
              DisplayAll(p, reg, s, cs).video.Some?
    decreases |cs|
  {
    if |cs| > 0 {
      var s1 := Display(p, reg, s, cs[0]);
      if s1.video.Some? {
        DisplaysKeepVideoView(p, reg, s1, cs[1..]);
      } else {
        DisplaysMakeAtMostOneVideoView(p, reg, s1, cs[1..]);
      }
    }
  }

  /** How many of `cs` some registered provider claims. */
  function CountClaimed(reg: Registry, cs: seq<Container>): nat
  {
    if |cs| == 0 then 0
    else (if Resolve(reg, cs[0]).Some? then 1 else 0) + CountClaimed(reg, cs[1..])
  }

  /**
   Custom views are not pooled: every display that a provider claims
   installs a new custom view, so the count grows by exactly the number of
   claimed containers.
   */
  lemma {:induction false} CustomViewsAreNotPooled(p: Platform, reg: Registry, s: View, cs: seq<Container>)
    ensures DisplayAll(p, reg, s, cs).made.custom == s.made.custom + CountClaimed(reg, cs)
    ensures DisplayAll(p, reg, s, cs).config == s.config
    decreases |cs|
  {
    if |cs| > 0 {
      var s1 := Display(p, reg, s, cs[0]);
      CustomViewsAreNotPooled(p, reg, s1, cs[1..]);
    }
  }

  /** Every display keeps the view well formed. */
  lemma {:induction false} DisplaysPreserveWf(p: Platform, reg: Registry, s: View, cs: seq<Container>)
    requires Wf(p, s)
    ensures Wf(p, DisplayAll(p, reg, s, cs))
    decreases |cs|
  {
    if |cs| > 0 {
      DisplaysPreserveWf(p, reg, Display(p, reg, s, cs[0]), cs[1..]);
    }
  }

  /**
   A new resizing mode reaches views made afterwards: a player view created
   after the change gets the mode's gravity, and so does an animated view.
   */
  lemma ResizingModeReachesLaterViews(p: Platform, s: View, mode: ResizingMode)
    requires s.video.None? && s.animated.None?
    ensures VideoView(p, SetResizingMode(p, s, mode)).1.gravity == GravityFor(p, mode)
    ensures p.animatedSupported ==>
              AnimatedView(p, SetResizingMode(p, s, mode)).1.contentMode == mode
  {
  }

  /**
   A video display applies the current looping flag; changing the flag
   afterwards reaches the player that display made.
   */
  lemma LoopingReachesExistingPlayer(p: Platform, reg: Registry, s: View, c: Container, looping: bool)
    requires Select(p, s.config, reg, c).VideoBackend?
    ensures Display(p, reg, s, c).video.value.looping == s.config.videoLooping
    ensures SetVideoLooping(Display(p, reg, s, c), looping).video.value.looping == looping
  {
  }
}
