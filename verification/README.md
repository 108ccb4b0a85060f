# NukeUI `ImageView` content dispatcher, modelled in Dafny

`ImageView` (NukeUI) shows an `ImageContainer` with one of four backends:
the static `imageView`, a lazily made animated (GIF) view, a lazily made
video player view, or a custom view returned by a closure registered with
`ImageView.registerContentView`. This project models the dispatcher as
pure transitions over an immutable `View` record:

- `options.dfy`: `Option`, for Swift's optionals.
- `first_match.dfy`: `FirstSome`, the first non-nil answer of an ordered list of
  closures, with lemmas about the first claim and about appending.
- `content.dfy`: `Container` (`ImageContainer`: image, type tag, data, asset) and
  `ImageContainer(image:)`.
- `registry.dfy`: the custom content-view registry as an explicit sequence of
  provider functions `Container -> Option<ViewId>`.
- `slots.dfy`: platform flags, slot records (`hidden`, `image`, `content`,
  `looping`, `asset`, `playing`, `contentMode`/`gravity`, identity), the
  configuration, creation counters, `VisibleKinds`, the well-formedness
  invariant `Wf`, and the state after `init`.
- `selection.dfy`: the backend priority of `display`.
- `dispatcher.dfy`: lazy pooled accessors, the custom view setter, `display`,
  `reset`, the `imageContainer`/`image` properties and the configuration setters.
- `properties.dfy`: lemmas relating several operations.

The compile-time conditions are parameters: `Platform.animatedSupported`
stands for `(os(iOS) || os(tvOS)) && !targetEnvironment(macCatalyst)` and
`Platform.resizingSupported` for `os(iOS) || os(tvOS)` (false on macOS).
The registry is a static variable in the source; here it is passed to
`Display`, `SetImageContainer` and `SetImage` as a value.

`display` makes the selected backend visible and never hides another one.
So "exactly one backend visible" holds only when `display` starts from an idle
view: a new one, or one that was just reset (`DisplayFromIdleShowsOnlySelected`).
`display` also does not stop a running animation before a video starts
playing; only `reset` (or setting a nil container) hides and clears the
other views. `DisplayAfterDisplayCanShowTwo` shows a GIF followed by a plain
image leaving two views visible.

## Model

| member | source | states |
|---|---|---|
| FirstMatch.FirstSome | Sources/NukeUI/ImageView.swift:197-204 | The result is nil exactly when every closure returns nil; otherwise it is the answer of the first closure that returns non-nil, with every earlier closure declining |
| FirstMatch.FirstClaimDecides | Sources/NukeUI/ImageView.swift:197-204 | Once a closure is the first to claim the container, its answer is the result, whatever later closures would return |
| FirstMatch.FirstSomeAppend | Sources/NukeUI/ImageView.swift:197-204 | A closure appended at the end is consulted only when every earlier one declines |
| Registry.Register | Sources/NukeUI/ImageView.swift:232-234 | Registration appends: the earlier providers keep their order and positions, and the new one is last |
| Registry.RemoveAll | Sources/NukeUI/ImageView.swift:236-238 | After removal the registry is empty and no container is claimed by any provider |
| Registry.Resolve | Sources/NukeUI/ImageView.swift:197-204 | `makeCustomContentView` returns nil iff no registered provider claims the container, else the first claiming provider's view in registration order |
| Registry.ResolveAfterRegister | Sources/NukeUI/ImageView.swift:197-234 | After registering a provider, resolution is unchanged when an earlier provider claims the container and is the new provider's answer otherwise |
| Registry.FirstRegisteredWins | Sources/NukeUI/ImageView.swift:197-240 | When two registered providers both claim a container, the one registered first supplies the view |
| Content.FromImage | Sources/NukeUI/ImageView.swift:168-171 | `ImageContainer(image:)` keeps the image and carries no type, data or asset |
| Slots.Initial | Sources/NukeUI/ImageView.swift:112-142 | A new view is idle (static view added hidden and empty, no other view), well formed, stores no container, and has every property at its declared default: `.aspectFill`, both renderings on, looping on, the Gifu provider |
| Selection.Select | Sources/NukeUI/ImageView.swift:173-195 | Custom wins iff a provider claims the container; otherwise animated iff enabled, supported, GIF-tagged and carrying data; otherwise video iff enabled and carrying an asset; otherwise static with the container's image |
| Selection.SelectIsFirstApplicableRule | Sources/NukeUI/ImageView.swift:173-195 | The selection equals the first applicable rule in the fixed list custom, animated, video, static, and the list always yields a backend |
| Selection.AnimationDisabledFallsBackToStatic | Sources/NukeUI/ImageView.swift:178-195 | A GIF with its data, unclaimed and without an asset, is shown by the static view when animated rendering is off or unsupported |
| Dispatcher.InstallFreshAnimated | Sources/NukeUI/ImageView.swift:57-61 | A newly made animated view comes from the current provider, has the current resizing mode, is hidden and empty, and takes a new identity; nothing else changes |
| Dispatcher.AnimatedView | Sources/NukeUI/ImageView.swift:43-55 | The accessor returns the existing animated view unchanged; only when none exists does it make exactly one, added hidden |
| Dispatcher.VideoView | Sources/NukeUI/ImageView.swift:76-94 | The accessor returns the existing player view unchanged; only when none exists does it make exactly one, hidden, with the resizing mode's gravity (`.resizeAspect` on macOS) |
| Dispatcher.SetCustomContentView | Sources/NukeUI/ImageView.swift:98-108 | The previous custom view is dropped; a new one is installed visible and counted; nil leaves no custom view; nothing else changes, including the animated and video counters |
| Dispatcher.Display | Sources/NukeUI/ImageView.swift:173-195 | The visible set grows by exactly the selected backend, which shows the container's content (GIF data with loop count 0; looping flag, asset and playing for video); only the winner's slot changes; pooled views keep their identity, and one made by this call is new and made only once |
| Dispatcher.Reset | Sources/NukeUI/ImageView.swift:207-223 | The container is forgotten, nothing is visible, static and animated content is cleared, the player holds no asset and is stopped, the custom view is gone, and no absent view is created |
| Dispatcher.SetImageContainer | Sources/NukeUI/ImageView.swift:149-160 | The getter returns the value just set; nil is exactly `reset` (view idle, images cleared, player stopped without an asset); a container is exactly `display` of it with the container stored, so its selected backend shows its content without hiding anything |
| Dispatcher.SetImage | Sources/NukeUI/ImageView.swift:168-171 | The `image` getter returns the image just set; a non-nil image is exactly setting `ImageContainer(image:)`, and nil is exactly `reset` |
| Dispatcher.SetResizingMode | Sources/NukeUI/ImageView.swift:25-39 | On iOS and tvOS only content modes change: the static view and only the already existing animated and video views take the new mode, and the container, images, visibility and counters stay as they were; on macOS the value is only stored |
| Dispatcher.SetVideoLooping | Sources/NukeUI/ImageView.swift:162-166 | Only an existing player view takes the new looping flag; nothing is created and nothing else changes |
| Dispatcher.SetAnimatedProvider | Sources/NukeUI/ImageView.swift:65-72 | A fresh hidden animated view from the new provider always replaces any previous one, even when none existed; the container, static, video and custom views stay as they were |
| Properties.DisplayFromIdleShowsOnlySelected | Sources/NukeUI/ImageView.swift:173-195 | From an idle view, `display` leaves exactly the selected backend visible |
| Properties.SetContainerAfterResetShowsOne | Sources/NukeUI/ImageView.swift:149-160 | Setting a container right after `reset` leaves exactly the selected backend visible |
| Properties.FirstContainerShowsOne | Sources/NukeUI/ImageView.swift:120-160 | The first container set on a new view leaves exactly the selected backend visible |
| Properties.DisplayAfterDisplayCanShowTwo | Sources/NukeUI/ImageView.swift:173-195 | A GIF followed by a plain image on a new iOS view leaves both the animated and the static view visible |
| Properties.ResetIdempotent | Sources/NukeUI/ImageView.swift:207-223 | Resetting twice gives the same state as resetting once |
| Properties.DisplaysKeepAnimatedView | Sources/NukeUI/ImageView.swift:47-55 | Over any sequence of displays an existing animated view stays, keeps its identity, and no other animated view is made |
| Properties.DisplaysMakeAtMostOneAnimatedView | Sources/NukeUI/ImageView.swift:47-55 | Over any sequence of displays at most one animated view is made, and one that was made is still there at the end |
| Properties.DisplaysKeepVideoView | Sources/NukeUI/ImageView.swift:76-84 | Over any sequence of displays an existing video player view stays, keeps its identity, and no other player view is made |
| Properties.DisplaysMakeAtMostOneVideoView | Sources/NukeUI/ImageView.swift:76-84 | Over any sequence of displays at most one video player view is made, and one that was made is still there at the end |
| Properties.CustomViewsAreNotPooled | Sources/NukeUI/ImageView.swift:98-108 | Over any sequence of displays a new custom view is installed for every container a provider claims |
| Properties.DisplaysPreserveWf | Sources/NukeUI/ImageView.swift:173-195 | Any sequence of displays keeps the slot invariant: platform-available slots only, custom view shown, identities from the counters, current provider and resizing mode applied |
| Properties.ResizingModeReachesLaterViews | Sources/NukeUI/ImageView.swift:57-94 | Views made after a resizing-mode change get the new mode |
| Properties.LoopingReachesExistingPlayer | Sources/NukeUI/ImageView.swift:162-191 | A video display applies the current looping flag, and a later change of the flag reaches that player |

## Left out

- View hierarchy and layout (`addSubview`, `pinToSuperview`, `clipsToBounds`,
  compression resistance, `NSCoder` init): reduced to a slot being present and its `hidden` flag.
- A removed custom view is dropped from the state; its own lifetime is not tracked.
- The Gifu animator, the `CALayer` display callback and `GifuAnimatedImageViewProvider`:
  a provider is an identity (`ProviderId`), and animating is recorded as the GIF data
  and loop count the view was given. `reset` clearing `image` is modelled as clearing
  that content; whether Gifu's animator keeps running is not modelled.
- `VideoPlayerView` internals are not part of this model: `play()` sets `playing`,
  `reset()` clears the asset and stops, and a new player's looping flag is taken as `true`.
- The ordering of the looping flag, asset and `play()` calls in a video display: the
  model applies them in that order, but the final state does not record the order.
- `ImageResizingMode` to `contentMode`/`videoGravity` conversions: the mode is copied
  as an opaque value. `didInit`'s `.scaleAspectFill` is taken to be the default `.aspectFill` mode.
- macOS's `imageView.animates = true`: the static view's own animation is not modelled.
- `isAnimatedImageRenderingEnabled` and `isVideoRenderingEnabled` have no observers;
  they are plain `Config` fields read by `Select`.
- `ImageContainer`'s `isPreview` and `userInfo` are not modelled; the video asset is a
  field of the container.
- `@MainActor` thread affinity: the model is single-threaded by construction.
- The registry is process-wide in the source. Here it is a value passed in, so sharing
  between view instances is not modelled.
- Dispatcher.AnimatedView, Dispatcher.SetAnimatedProvider: require `animatedSupported`,
  because these members are compiled only on iOS and tvOS outside Mac Catalyst.
