/**
 The backend-selection policy of `display`: a custom view if a provider
 claims the container, else the animated view for GIF data, else the video
 player for an asset, else the static image view.
 */
module Selection {
  import opened Options
  import opened Content
  import opened Slots
  import opened Registry
  import FirstMatch

  /** The chosen backend together with what it will be given to show. */
  datatype Backend =
    | CustomBackend(view: ViewId)
    | AnimatedBackend(data: Bytes)
    | VideoBackend(asset: Asset)
    | StaticBackend(image: Image)

  function KindOf(b: Backend): Kind {
    match b
    case CustomBackend(_) => CustomKind
    case AnimatedBackend(_) => AnimatedKind
    case VideoBackend(_) => VideoKind
    case StaticBackend(_) => StaticKind
  }

  /** The animated branch: enabled, compiled in, GIF-tagged, and carrying its data. */
  predicate AnimatedApplies(p: Platform, cfg: Config, c: Container) {
    cfg.animatedRenderingEnabled && p.animatedSupported && c.data.Some? && c.kind == Some(Gif)
  }

  /** The video branch: enabled and carrying an asset. */
  predicate VideoApplies(cfg: Config, c: Container) {
    cfg.videoRenderingEnabled && c.asset.Some?
  }

  /** The early-return chain at the top of `display`. */
  function Select(p: Platform, cfg: Config, reg: Registry, c: Container): (b: Backend)
    ensures b.CustomBackend? <==> Resolve(reg, c).Some?
    ensures b.CustomBackend? ==> Resolve(reg, c) == Some(b.view)
    ensures b.AnimatedBackend? <==> Resolve(reg, c).None? && AnimatedApplies(p, cfg, c)
    ensures b.AnimatedBackend? ==> c.data == Some(b.data) && p.animatedSupported
    ensures b.VideoBackend? <==>
              Resolve(reg, c).None? && !AnimatedApplies(p, cfg, c) && VideoApplies(cfg, c)
    ensures b.VideoBackend? ==> c.asset == Some(b.asset)
    ensures b.StaticBackend? <==>
              Resolve(reg, c).None? && !AnimatedApplies(p, cfg, c) && !VideoApplies(cfg, c)
    ensures b.StaticBackend? ==> b.image == c.image
  {
    match Resolve(reg, c)
    case Some(v) => CustomBackend(v)
    case None =>
      if AnimatedApplies(p, cfg, c) then AnimatedBackend(c.data.value)
      else if VideoApplies(cfg, c) then VideoBackend(c.asset.value)
      else StaticBackend(c.image)
  }

  /** Each backend as a rule that may claim a container, in the order `display` tries them. */
  function Rules(p: Platform, cfg: Config, reg: Registry): seq<Container -> Option<Backend>>
  {
    [ (c: Container) => match Resolve(reg, c) case Some(v) => Some(CustomBackend(v)) case None => None,
      (c: Container) => if AnimatedApplies(p, cfg, c) then Some(AnimatedBackend(c.data.value)) else None,
      (c: Container) => if VideoApplies(cfg, c) then Some(VideoBackend(c.asset.value)) else None,
      (c: Container) => Some(StaticBackend(c.image)) ]
  }

  /**
   The selection is the first applicable rule of the fixed priority list,
   and some rule always applies because the static rule accepts everything.
   */
  lemma SelectIsFirstApplicableRule(p: Platform, cfg: Config, reg: Registry, c: Container)
    ensures FirstMatch.FirstSome(Rules(p, cfg, reg), c) == Some(Select(p, cfg, reg, c))
  {
  }

  /**
   A GIF container with animated rendering switched off, and no custom view
   or asset to take it, falls back to the static image.
   */
  lemma AnimationDisabledFallsBackToStatic(p: Platform, cfg: Config, reg: Registry, c: Container)
    requires Resolve(reg, c).None?
    requires c.kind == Some(Gif) && c.data.Some?
    requires !cfg.animatedRenderingEnabled || !p.animatedSupported
    requires c.asset.None?
    ensures Select(p, cfg, reg, c) == StaticBackend(c.image)
  {
  }
}
