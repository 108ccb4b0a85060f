/**
 The payload handed to the view: Nuke's `ImageContainer`. Images, assets
 and views are opaque handles; only their identity matters to the
 dispatcher.
 */
module Content {
  import opened Options

  /** A decoded platform image (`PlatformImage`). */
  datatype Image = Image(id: nat)

  /** A playable media asset (`AVAsset`), attached to a container by Nuke's image pipeline. */
  datatype Asset = Asset(id: nat)

  /** A platform view supplied by a custom content-view provider. */
  datatype ViewId = ViewId(id: nat)

  /** Original encoded bytes of an image (`Data`). */
  type Bytes = seq<bv8>

  /** The container's `type` tag. Only `Gif` is distinguished by the dispatcher. */
  datatype AssetType = Png | Jpeg | Gif | Heic | Webp | Mp4 | M4v | Mov

  /** `ImageContainer`: the decoded image plus what Nuke's image pipeline knows about it. */
  datatype Container = Container(
    image: Image,
    kind: Option<AssetType>,
    data: Option<Bytes>,
    asset: Option<Asset>)

  /** `ImageContainer(image:)`: wraps a bare image with no type, data or asset. */
  function FromImage(img: Image): (c: Container)
    ensures c.image == img
    ensures c.kind.None? && c.data.None? && c.asset.None?
  {
    Container(img, None, None, None)
  }
}
