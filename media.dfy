/** A media search result as the application handles it: the dictionary the
    search client builds for every hit, plus the `local_path` key that
    selection adds once the file is downloaded. */
module Media {
  import opened Wrappers

  /** Pixabay and Pexels identify hits by integers, Unsplash by strings; an
      integer never equals a string in the duplicate check. */
  datatype MediaId = IntId(n: int) | StrId(s: string)

  datatype MediaItem = MediaItem(
    id: MediaId,
    source: string,
    previewUrl: string,
    mediumUrl: string,
    largeUrl: string,
    sourceUrl: string,
    width: int,
    height: int,
    localPath: Option<string>)

  /** The duplicate test of selection: same `id` and same `source`. */
  predicate SameMedia(a: MediaItem, b: MediaItem)
  {
    a.id == b.id && a.source == b.source
  }

  /** The item after `media_item['local_path'] = save_path`. */
  function WithLocalPath(item: MediaItem, path: string): (r: MediaItem)
    ensures SameMedia(r, item) && r.localPath == Some(path)
    ensures r.previewUrl == item.previewUrl && r.mediumUrl == item.mediumUrl
    ensures r.largeUrl == item.largeUrl && r.sourceUrl == item.sourceUrl
    ensures r.width == item.width && r.height == item.height
  {
    item.(localPath := Some(path))
  }

  /** Every item of `items` carries a local path. */
  predicate AllDownloaded(items: seq<MediaItem>)
  {
    forall k :: 0 <= k < |items| ==> items[k].localPath.Some?
  }
}
