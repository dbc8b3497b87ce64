/**
 What the Reddit fetcher hands to the bot (`reddit.FetchResult` and its
 variants). The fetcher itself is not part of this model: its results arrive
 here already built.
 */
module Posts {
  import DashPlaylist

  /** `reddit.FetchResultMediaType`; `OtherType` stands for any value outside the three named ones. */
  datatype MediaType = Photo | Gif | Video | OtherType(code: int)

  /** The three media types the fetcher produces. */
  predicate IsKnownType(t: MediaType) {
    t.Photo? || t.Gif? || t.Video?
  }

  /** One downloadable quality of a media post: its URL and its dimension. */
  datatype MediaEntry = MediaEntry(link: string, dim: DashPlaylist.Dimension)

  /**
   `reddit.FetchResultMedia`. `thumbnail` is the thumbnail already chosen by
   `SelectThumbnail`; `audioIndex` and `hasAudio` are the two results of `HasAudio`.
   */
  datatype MediaPost = MediaPost(
    medias: seq<MediaEntry>,
    mediaType: MediaType,
    title: string,
    thumbnail: string,
    description: string,
    duration: int,
    audioIndex: int,
    hasAudio: bool)

  /** `reddit.FetchResultAlbum`: the bot only stores it and passes it to the album uploader. */
  datatype Album = Album(items: seq<MediaEntry>)

  /** The dynamic type of a fetch result; `OtherPost` is any type the bot's switch does not name. */
  datatype FetchResult =
    | TextPost(title: string, text: string)
    | CommentPost(text: string)
    | MediaPostResult(media: MediaPost)
    | AlbumPost(album: Album)
    | OtherPost

  /** `StartFetch`: either an error carrying the text to show the user, or a result and the canonical post URL. */
  datatype FetchOutcome =
    | FetchFailed(botError: string)
    | Fetched(result: FetchResult, postLink: string)
}
