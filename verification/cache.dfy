/**
 The callback cache the bot talks to (`internal/cache`, whose implementation is
 not part of this model): one table of media choices and one of albums, both
 keyed by the token shown on the buttons. Reading an entry deletes it, so each
 entry can be resolved at most once. Expiry and backend failures are left out:
 a read returns the entry or "not found".
 */
module Cache {
  import opened Wrappers
  import opened Posts

  /** `cache.CallbackDataCached`: a media post waiting for the user's choice of quality. */
  datatype CachedMedia = CachedMedia(
    postLink: string,
    links: map<int, MediaEntry>,
    title: string,
    thumbnailLink: string,
    description: string,
    mediaType: MediaType,
    duration: int,
    audioIndex: int)

  /** `cache.CallbackAlbumCached`: an album waiting for the choice between media and files. */
  datatype CachedAlbum = CachedAlbum(postLink: string, album: Album)

  datatype Store = Store(media: map<string, CachedMedia>, albums: map<string, CachedAlbum>)

  /** The result of a get-and-delete: the entry, if there was one, and the store without it. */
  datatype Taken<T> = Taken(entry: Option<T>, rest: Store)

  /** `SetMediaCache`: `id` now holds `e`; every other entry of both tables is kept. */
  function SetMedia(s: Store, id: string, e: CachedMedia): (s': Store)
    ensures id in s'.media && s'.media[id] == e
    ensures forall k | k != id :: (k in s'.media <==> k in s.media) && (k in s.media ==> s'.media[k] == s.media[k])
    ensures s'.albums == s.albums
  {
    s.(media := s.media[id := e])
  }

  /** `SetAlbumCache`: `id` now holds `e`; every other entry of both tables is kept. */
  function SetAlbum(s: Store, id: string, e: CachedAlbum): (s': Store)
    ensures id in s'.albums && s'.albums[id] == e
    ensures forall k | k != id :: (k in s'.albums <==> k in s.albums) && (k in s.albums ==> s'.albums[k] == s.albums[k])
    ensures s'.media == s.media
  {
    s.(albums := s.albums[id := e])
  }

  /** `GetAndDeleteMediaCache`: the entry under `id` (or not found), removed from the store. */
  function TakeMedia(s: Store, id: string): (r: Taken<CachedMedia>)
    ensures id in s.media ==> r.entry == Some(s.media[id]) && r.rest.media == s.media - {id}
    ensures id !in s.media ==> r.entry == None && r.rest == s
    ensures r.rest.albums == s.albums
  {
    if id in s.media then Taken(Some(s.media[id]), s.(media := s.media - {id}))
    else Taken(None, s)
  }

  /** `GetAndDeleteAlbumCache`: the entry under `id` (or not found), removed from the store. */
  function TakeAlbum(s: Store, id: string): (r: Taken<CachedAlbum>)
    ensures id in s.albums ==> r.entry == Some(s.albums[id]) && r.rest.albums == s.albums - {id}
    ensures id !in s.albums ==> r.entry == None && r.rest == s
    ensures r.rest.media == s.media
  {
    if id in s.albums then Taken(Some(s.albums[id]), s.(albums := s.albums - {id}))
    else Taken(None, s)
  }

  /** A media entry is handed out at most once: a second read of the same id finds nothing. */
  lemma TakeMediaOnce(s: Store, id: string)
    ensures TakeMedia(TakeMedia(s, id).rest, id).entry == None
  {
  }

  /** An album entry is handed out at most once. */
  lemma TakeAlbumOnce(s: Store, id: string)
    ensures TakeAlbum(TakeAlbum(s, id).rest, id).entry == None
  {
  }

  /** Reading back a media entry under a token the store did not hold yields it and restores the store. */
  lemma TakeMediaAfterSet(s: Store, id: string, e: CachedMedia)
    requires id !in s.media
    ensures TakeMedia(SetMedia(s, id, e), id) == Taken(Some(e), s)
  {
    assert SetMedia(s, id, e).media - {id} == s.media;
  }

  /** Reading back an album entry under a token the store did not hold yields it and restores the store. */
  lemma TakeAlbumAfterSet(s: Store, id: string, e: CachedAlbum)
    requires id !in s.albums
    ensures TakeAlbum(SetAlbum(s, id, e), id) == Taken(Some(e), s)
  {
    assert SetAlbum(s, id, e).albums - {id} == s.albums;
  }
}
