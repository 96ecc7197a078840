/**
 * The content-info dict that services/playlist_preview.py returns and
 * caches, and that handlers/download.py reads back.
 */
module Content {
  import opened Wrappers

  /** The dict's `type`: "track", "playlist" or "error". */
  datatype ContentType = TrackContent | PlaylistContent | ErrorContent

  /**
   * `{'type', 'title', 'track_count', 'user', 'url'}` for a successful
   * lookup (`url` present), and `{'type': 'error', 'title', 'track_count': 0,
   * 'user'}` plus an optional `error` text for a failed one.
   * `cover_url` is carried by the source but never read, so it is left out.
   */
  datatype ContentInfo = ContentInfo(
    kind: ContentType,
    title: string,
    trackCount: int,
    user: string,
    url: Option<string>,
    error: Option<string>)
}
