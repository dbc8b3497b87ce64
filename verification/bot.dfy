/**
 The bot's decisions (internal/bot/bot.go): the download-mode preference, what
 to do with a fetched post (`fetchPostDetailsAndSend`), and how a button press
 is resolved (`handleCallback`). Each handler is a pure function from the bot's
 state and its input to the new state and one `Action`: a localised reply, an
 upload, or a prompt whose choices were written to the callback cache.
 */
module Bot {
  import opened Wrappers
  import opened Text
  import Prefs
  import L = Localization
  import DashPlaylist
  import opened Posts
  import opened Cache

  // ----- Download mode -----

  /** `DownloadMode`, an int enumeration: 0 is ask, 1 media, 2 files. */
  type DownloadMode = int

  const Ask: DownloadMode := 0
  const Media: DownloadMode := 1
  const Files: DownloadMode := 2

  predicate IsNamedMode(m: DownloadMode) {
    m == Ask || m == Media || m == Files
  }

  /** `DownloadMode.String`: every value outside media and files reads as "ask". */
  function ModeString(m: DownloadMode): (s: string)
    ensures s == "media" <==> m == Media
    ensures s == "files" <==> m == Files
    ensures s == "ask" <==> m != Media && m != Files
  {
    if m == Media then "media" else if m == Files then "files" else "ask"
  }

  /** `parseDownloadMode`: case-insensitive "media" and "files"; anything else is ask. */
  function ParseDownloadMode(s: string): (m: DownloadMode)
    ensures IsNamedMode(m)
    ensures m == Media <==> Lower(s) == "media"
    ensures m == Files <==> Lower(s) == "files"
  {
    var l := Lower(s);
    if l == "media" then Media else if l == "files" then Files else Ask
  }

  /** Parsing the name of a mode gives the mode back. */
  lemma ModeRoundTrip(m: DownloadMode)
    requires IsNamedMode(m)
    ensures ParseDownloadMode(ModeString(m)) == m
  {
    LowerOfLowercase(ModeString(m));
  }

  /** Parsing does not see case: any spelling parses as its lower-case form does. */
  lemma ParseIgnoresCase(s: string)
    ensures ParseDownloadMode(s) == ParseDownloadMode(Lower(s))
  {
    LowerIdempotent(s);
  }

  /** Upper-case and mixed-case names are accepted. */
  lemma ParseMixedCase()
    ensures ParseDownloadMode("MEDIA") == Media
    ensures ParseDownloadMode("FiLeS") == Files
  {
    assert Lower("MEDIA") == "media";
    assert Lower("FiLeS") == "files";
  }

  /** The per-user download modes (`userPrefs`). */
  type ModeStore = Prefs.Store<DownloadMode>

  /** `getUserMode`: ask for a user who never chose. */
  function GetUserMode(store: ModeStore, uid: int): (m: DownloadMode)
    ensures uid !in store ==> m == Ask
    ensures uid in store ==> m == store[uid]
  {
    Prefs.Get(store, uid, Ask)
  }

  /** `setUserMode`: the user reads back the mode they chose, and nobody else's changes. */
  function SetUserMode(store: ModeStore, uid: int, m: DownloadMode): (store': ModeStore)
    ensures GetUserMode(store', uid) == m
    ensures forall u | u != uid :: GetUserMode(store', u) == GetUserMode(store, u)
  {
    Prefs.Put(store, uid, m)
  }

  // ----- State, inputs and actions -----

  /** Everything the handlers read and write: the two preference maps and the callback cache. */
  datatype BotState = BotState(modes: ModeStore, langs: L.LangStore, cache: Cache.Store)

  /** `CallbackButtonData.Mode` as far as the bot distinguishes it. */
  datatype ButtonMode = PhotoMode | FileMode | OtherMode(code: int)

  /** `CallbackButtonData`: the token of a cache entry, the chosen link and the chosen mode. */
  datatype ButtonData = ButtonData(id: string, linkKey: int, mode: ButtonMode)

  /** `settingsCallbackData`: kind, action and value. */
  datatype SettingsData = SettingsData(kind: string, action: string, value: string)

  /**
   The callback payload decoded both ways the handler tries: as settings data
   and as button data, each `None` when the JSON does not decode to it.
   */
  datatype CallbackInput = CallbackInput(asSettings: Option<SettingsData>, asButton: Option<ButtonData>)

  /** An inline button: the dictionary key of its label and the data it sends back. */
  datatype Button = Button(labelKey: string, data: ButtonData)

  /** The keyboard attached to a message; the builders themselves are presentation. */
  datatype Keyboard =
    | NoKeyboard
    | QualityKeyboard(id: string, mediaType: MediaType)
    | AlbumKeyboard(buttons: seq<Button>)
    | ModeKeyboard(current: DownloadMode)
    | RootKeyboard
    | LangKeyboard

  /** What a handler does, with the arguments it passes on. */
  datatype Action =
      /** A message showing the user's text for `key`. */
    | Say(key: string, keyboard: Keyboard)
      /** A message formatting the text for `key` with `arg`. */
    | SayFormatted(key: string, arg: string, keyboard: Keyboard)
      /** A reply with a fetch error's own text. */
    | SayRaw(text: string)
      /** A text or comment post, with the post link added when needed. */
    | SendPostText(text: string, postLink: string)
    | UploadGif(link: string, title: string, thumbnail: string, postLink: string, description: string, dim: DashPlaylist.Dimension)
    | UploadVideo(link: string, audioURL: string, title: string, thumbnail: string, postLink: string, description: string, dim: DashPlaylist.Dimension, duration: int)
    | UploadPhoto(link: string, title: string, thumbnail: string, postLink: string, description: string, asPhoto: bool)
    | UploadAudio(link: string, title: string, postLink: string, description: string, duration: int)
    | UploadAlbum(album: Album, postLink: string, asFile: bool)
      /** A panic that nothing in the handler recovers: no reply is sent. */
    | Crash

  datatype Step = Step(state: BotState, action: Action)

  // ----- fetchPostDetailsAndSend -----

  /** `getLinkMapOfFetchResultMediaEntries`: each quality under its position in the post. */
  function LinkMap(medias: seq<MediaEntry>): (links: map<int, MediaEntry>)
    ensures forall k :: k in links <==> 0 <= k < |medias|
    ensures forall k | 0 <= k < |medias| :: links[k] == medias[k]
  {
    map k | 0 <= k < |medias| :: medias[k]
  }

  /** The cache entry written for a media post awaiting a choice. */
  function CachedOf(m: MediaPost, postLink: string): (c: CachedMedia)
    ensures forall k :: k in c.links <==> 0 <= k < |m.medias|
    ensures forall k | 0 <= k < |m.medias| :: c.links[k] == m.medias[k]
    ensures c.mediaType == m.mediaType && c.audioIndex == m.audioIndex && c.postLink == postLink
  {
    CachedMedia(postLink, LinkMap(m.medias), m.title, m.thumbnail, m.description, m.mediaType, m.duration, m.audioIndex)
  }

  /** The quality keyboard exists only for the three named media types. */
  function QualityKeyboardFor(id: string, t: MediaType): (k: Keyboard)
    ensures k.NoKeyboard? <==> !IsKnownType(t)
  {
    if IsKnownType(t) then QualityKeyboard(id, t) else NoKeyboard
  }

  /** A single gif, or a single video that has no audio, goes out without a prompt. */
  predicate UploadsAtOnce(m: MediaPost) {
    |m.medias| == 1 && (m.mediaType.Gif? || (m.mediaType.Video? && !m.hasAudio))
  }

  /** A media post that is neither empty nor uploaded at once, nor a crash, is put to the user. */
  predicate NeedsChoice(m: MediaPost) {
    |m.medias| >= 2 || (|m.medias| == 1 && (m.mediaType.Photo? || (m.mediaType.Video? && m.hasAudio)))
  }

  /** The media branch of `fetchPostDetailsAndSend`, `token` being the fresh cache id. */
  function FetchMedia(state: BotState, m: MediaPost, postLink: string, token: string): (r: Step)
    ensures r.state.modes == state.modes && r.state.langs == state.langs && r.state.cache.albums == state.cache.albums
    ensures WritesOnly(state.cache, r.state.cache, token)
  {
    if |m.medias| == 0 then Step(state, Say("msg.no_media_found", NoKeyboard))
    else if |m.medias| == 1 && !m.mediaType.Photo? && !(m.mediaType.Video? && m.hasAudio) then
      var e := m.medias[0];
      match m.mediaType
      case Gif => Step(state, UploadGif(e.link, m.title, m.thumbnail, postLink, m.description, e.dim))
      case Video => Step(state, UploadVideo(e.link, "", m.title, m.thumbnail, postLink, m.description, e.dim, m.duration))
      case _ => Step(state, Crash)
    else
      Step(state.(cache := SetMedia(state.cache, token, CachedOf(m, postLink))),
           Say("msg.select_quality", QualityKeyboardFor(token, m.mediaType)))
  }

  /** The two album buttons: same token, one per mode. */
  function AlbumButtons(token: string): (bs: seq<Button>)
    ensures |bs| == 2
    ensures forall i | 0 <= i < |bs| :: bs[i].data.id == token && bs[i].data.linkKey == 0
    ensures bs[0].data.mode == PhotoMode && bs[1].data.mode == FileMode
  {
    [Button("album.button.media", ButtonData(token, 0, PhotoMode)),
     Button("album.button.file", ButtonData(token, 0, FileMode))]
  }

  /** The album branch: the user's stored mode decides, and "ask" (or any other value) prompts. */
  function FetchAlbum(state: BotState, uid: int, album: Album, postLink: string, token: string): (r: Step)
    ensures r.state.modes == state.modes && r.state.langs == state.langs && r.state.cache.media == state.cache.media
    ensures WritesOnly(state.cache, r.state.cache, token)
  {
    var mode := GetUserMode(state.modes, uid);
    if mode == Media then Step(state, UploadAlbum(album, postLink, false))
    else if mode == Files then Step(state, UploadAlbum(album, postLink, true))
    else
      Step(state.(cache := SetAlbum(state.cache, token, CachedAlbum(postLink, album))),
           Say("album.ask", AlbumKeyboard(AlbumButtons(token))))
  }

  /** The cache after a step differs from the one before at most in the entries under `id`. */
  ghost predicate WritesOnly(before: Cache.Store, after: Cache.Store, id: string) {
    (forall k | k != id :: (k in after.media <==> k in before.media) && (k in before.media ==> after.media[k] == before.media[k]))
    && (forall k | k != id :: (k in after.albums <==> k in before.albums) && (k in before.albums ==> after.albums[k] == before.albums[k]))
  }

  /**
   `fetchPostDetailsAndSend`. `token` is the id of any cache entry written: the
   program draws a UUID with `uuid.New` and encodes it with `Util.UUIDToBase64`.
   Preferences are never changed, and the cache gains at most the token's entry.
   */
  function FetchPostDetails(state: BotState, uid: int, outcome: FetchOutcome, token: string): (r: Step)
    ensures r.state.modes == state.modes && r.state.langs == state.langs
    ensures WritesOnly(state.cache, r.state.cache, token)
    ensures r.state.cache.media == state.cache.media || r.state.cache.albums == state.cache.albums
  {
    match outcome
    case FetchFailed(e) => Step(state, SayRaw(e))
    case Fetched(result, postLink) =>
      match result
      case TextPost(title, text) => Step(state, SendPostText(title + "\n" + text, postLink))
      case CommentPost(text) => Step(state, SendPostText(text, postLink))
      case MediaPostResult(m) => FetchMedia(state, m, postLink, token)
      case AlbumPost(album) => FetchAlbum(state, uid, album, postLink, token)
      case OtherPost => Step(state, Say("unknown.type", NoKeyboard))
  }

  /** A media post without any media gets "msg.no_media_found" and changes nothing. */
  lemma NoMediaFound(state: BotState, uid: int, m: MediaPost, postLink: string, token: string)
    requires |m.medias| == 0
    ensures FetchPostDetails(state, uid, Fetched(MediaPostResult(m), postLink), token) ==
      Step(state, Say("msg.no_media_found", NoKeyboard))
  {
  }

  /** A single gif, or a single video without audio, is uploaded at once and nothing is cached; the video has no audio URL. */
  lemma SingleMediaUploadsAtOnce(state: BotState, uid: int, m: MediaPost, postLink: string, token: string)
    requires UploadsAtOnce(m)
    ensures var r := FetchPostDetails(state, uid, Fetched(MediaPostResult(m), postLink), token);
      r.state == state &&
      (m.mediaType.Gif? ==> r.action == UploadGif(m.medias[0].link, m.title, m.thumbnail, postLink, m.description, m.medias[0].dim)) &&
      (m.mediaType.Video? ==> r.action == UploadVideo(m.medias[0].link, "", m.title, m.thumbnail, postLink, m.description, m.medias[0].dim, m.duration))
  {
  }

  /**
   A photo post, any post with two or more media, or a single video with audio
   writes exactly one media entry, under the fresh token, holding every link by
   position and the audio index `HasAudio` reported; the user is asked to choose.
   */
  lemma ChoiceIsCached(state: BotState, uid: int, m: MediaPost, postLink: string, token: string)
    requires NeedsChoice(m)
    ensures var r := FetchPostDetails(state, uid, Fetched(MediaPostResult(m), postLink), token);
      r.state == state.(cache := SetMedia(state.cache, token, r.state.cache.media[token])) &&
      r.state.cache.media[token].links == LinkMap(m.medias) &&
      r.state.cache.media[token].audioIndex == m.audioIndex &&
      r.state.cache.media[token].mediaType == m.mediaType &&
      r.state.cache.media[token].postLink == postLink &&
      r.action == Say("msg.select_quality", QualityKeyboardFor(token, m.mediaType))
  {
  }

  /** Every media post is handled in exactly one of the four ways: nothing found, at once, by a choice, or a crash. */
  lemma MediaOutcomesPartition(m: MediaPost)
    ensures |m.medias| == 0 || UploadsAtOnce(m) || NeedsChoice(m) || (|m.medias| == 1 && !IsKnownType(m.mediaType))
    ensures !(UploadsAtOnce(m) && NeedsChoice(m))
  {
  }

  /** The panic of the media branch is reached only by a single media of an unnamed type. */
  lemma FetchCrashesOnlyOnUnknownType(state: BotState, uid: int, outcome: FetchOutcome, token: string)
    ensures FetchPostDetails(state, uid, outcome, token).action == Crash <==>
      outcome.Fetched? && outcome.result.MediaPostResult? &&
      |outcome.result.media.medias| == 1 && !IsKnownType(outcome.result.media.mediaType)
  {
  }

  /** An album is uploaded at once in the media and files modes, as files exactly in the latter, and nothing is cached. */
  lemma AlbumWithStoredMode(state: BotState, uid: int, album: Album, postLink: string, token: string)
    requires GetUserMode(state.modes, uid) == Media || GetUserMode(state.modes, uid) == Files
    ensures FetchPostDetails(state, uid, Fetched(AlbumPost(album), postLink), token) ==
      Step(state, UploadAlbum(album, postLink, GetUserMode(state.modes, uid) == Files))
  {
  }

  /** Otherwise the album is cached under the fresh token and two buttons carry that same token, one per mode. */
  lemma AlbumAsks(state: BotState, uid: int, album: Album, postLink: string, token: string)
    requires GetUserMode(state.modes, uid) != Media && GetUserMode(state.modes, uid) != Files
    ensures var r := FetchPostDetails(state, uid, Fetched(AlbumPost(album), postLink), token);
      r.state == state.(cache := SetAlbum(state.cache, token, CachedAlbum(postLink, album))) &&
      r.action.Say? && r.action.key == "album.ask" && r.action.keyboard.AlbumKeyboard? &&
      |r.action.keyboard.buttons| == 2 &&
      r.action.keyboard.buttons[0].data.id == token && r.action.keyboard.buttons[0].data.mode == PhotoMode &&
      r.action.keyboard.buttons[1].data.id == token && r.action.keyboard.buttons[1].data.mode == FileMode
  {
  }

  // ----- handleCallback -----

  const KindSettings := "s"
  const ActionSetLang := "sl"
  const ActionOpenLang := "ol"
  const ActionOpenMode := "om"
  const ActionSetMode := "sm"
  const ActionOpenRoot := "or"

  /** The language a SetLang value selects: Russian for any casing of "ru", English for everything else. */
  function LangOfValue(value: string): (l: L.Lang)
    ensures l == L.RU || l == L.EN
    ensures l == L.RU <==> Lower(value) == "ru"
  {
    if Lower(value) == "ru" then L.RU else L.EN
  }

  /** The settings branch of `handleCallback`. */
  function SettingsStep(state: BotState, uid: int, d: SettingsData): (r: Step)
    ensures r.state.cache == state.cache
    ensures d.action == ActionSetMode ==>
      r.state.langs == state.langs && GetUserMode(r.state.modes, uid) == ParseDownloadMode(d.value) &&
      forall u | u != uid :: GetUserMode(r.state.modes, u) == GetUserMode(state.modes, u)
    ensures d.action == ActionSetLang ==>
      r.state.modes == state.modes && L.GetUserLang(r.state.langs, uid) == LangOfValue(d.value) &&
      forall u | u != uid :: L.GetUserLang(r.state.langs, u) == L.GetUserLang(state.langs, u)
    ensures d.action != ActionSetMode && d.action != ActionSetLang ==> r.state == state
    ensures d.action !in {ActionOpenMode, ActionOpenRoot, "back", ActionSetMode, ActionOpenLang, ActionSetLang} ==>
      r.action == Say("settings.unknown_action", NoKeyboard)
  {
    if d.action == ActionOpenMode then
      Step(state, Say("settings.mode.caption", ModeKeyboard(GetUserMode(state.modes, uid))))
    else if d.action == ActionOpenRoot || d.action == "back" then
      Step(state, Say("settings.title", RootKeyboard))
    else if d.action == ActionSetMode then
      var m := ParseDownloadMode(d.value);
      Step(state.(modes := SetUserMode(state.modes, uid, m)), SayFormatted("settings.mode.saved", ModeString(m), ModeKeyboard(m)))
    else if d.action == ActionOpenLang then
      Step(state, Say("settings.language.caption", LangKeyboard))
    else if d.action == ActionSetLang then
      var langs := L.SetUserLang(state.langs, uid, LangOfValue(d.value));
      Step(state.(langs := langs), SayFormatted("settings.language.saved", UpperAscii(L.GetUserLang(langs, uid)), LangKeyboard))
    else
      Step(state, Say("settings.unknown_action", NoKeyboard))
  }

  /** `cachedData.Links[cachedData.AudioIndex].Link`: Go's zero value "" when that key is absent. */
  function AudioURL(c: CachedMedia): (url: string)
    ensures c.audioIndex in c.links ==> url == c.links[c.audioIndex].link
    ensures c.audioIndex !in c.links ==> url == ""
  {
    if c.audioIndex in c.links then c.links[c.audioIndex].link else ""
  }

  /** The upload a resolved media choice leads to; a type outside the three named ones panics, and the panic is recovered as "err.panic". */
  function Dispatch(c: CachedMedia, data: ButtonData): (a: Action)
    requires data.linkKey in c.links
    ensures a.Say? <==> !IsKnownType(c.mediaType)
    ensures a.UploadPhoto? <==> c.mediaType.Photo?
    ensures a.UploadGif? <==> c.mediaType.Gif?
    ensures a.UploadAudio? <==> c.mediaType.Video? && data.linkKey == c.audioIndex
    ensures a.UploadVideo? <==> c.mediaType.Video? && data.linkKey != c.audioIndex
    ensures !a.Say? ==> a.link == c.links[data.linkKey].link && a.postLink == c.postLink
  {
    var link := c.links[data.linkKey];
    match c.mediaType
    case Gif => UploadGif(link.link, c.title, c.thumbnailLink, c.postLink, c.description, link.dim)
    case Photo => UploadPhoto(link.link, c.title, c.thumbnailLink, c.postLink, c.description, data.mode == PhotoMode)
    case Video =>
      if data.linkKey == c.audioIndex then UploadAudio(link.link, c.title, c.postLink, c.description, c.duration)
      else UploadVideo(link.link, AudioURL(c), c.title, c.thumbnailLink, c.postLink, c.description, link.dim, c.duration)
    case OtherType(_) => Say("err.panic", NoKeyboard)
  }

  /** The button branch of `handleCallback`: the media table first, the album table only when the media table has no entry. */
  function ButtonStep(state: BotState, data: ButtonData): (r: Step)
    ensures r.state.modes == state.modes && r.state.langs == state.langs
    ensures data.id in state.cache.media ==>
      r.state.cache == TakeMedia(state.cache, data.id).rest && !r.action.UploadAlbum?
    ensures data.id !in state.cache.media && data.id in state.cache.albums ==>
      r.state.cache == TakeAlbum(state.cache, data.id).rest && r.action.UploadAlbum? &&
      r.action.album == state.cache.albums[data.id].album && (r.action.asFile <==> data.mode == FileMode)
    ensures data.id !in state.cache.media && data.id !in state.cache.albums ==>
      r == Step(state, Say("err.resend_link", NoKeyboard))
    ensures r.action != Crash
  {
    var taken := TakeMedia(state.cache, data.id);
    if taken.entry.None? then
      var album := TakeAlbum(taken.rest, data.id);
      if album.entry.Some? then
        Step(state.(cache := album.rest), UploadAlbum(album.entry.value.album, album.entry.value.postLink, data.mode == FileMode))
      else
        Step(state, Say("err.resend_link", NoKeyboard))
    else
      var c := taken.entry.value;
      var state' := state.(cache := taken.rest);
      if data.linkKey !in c.links then Step(state', Say("err.resend_link", NoKeyboard))
      else Step(state', Dispatch(c, data))
  }

  /**
   `handleCallback`. Settings payloads touch only the preferences, button
   payloads only the cache, and a button removes at most the entries under its
   own token.
   */
  function HandleCallback(state: BotState, uid: int, input: CallbackInput): (r: Step)
    ensures input.asSettings.Some? && input.asSettings.value.kind == KindSettings ==> r.state.cache == state.cache
    ensures !(input.asSettings.Some? && input.asSettings.value.kind == KindSettings) ==>
      r.state.modes == state.modes && r.state.langs == state.langs &&
      r.state.cache.media.Keys <= state.cache.media.Keys && r.state.cache.albums.Keys <= state.cache.albums.Keys &&
      (input.asButton.Some? ==> WritesOnly(state.cache, r.state.cache, input.asButton.value.id))
    ensures r.action != Crash
  {
    if input.asSettings.Some? && input.asSettings.value.kind == KindSettings then
      SettingsStep(state, uid, input.asSettings.value)
    else if input.asButton.None? then
      Step(state, Say("err.broken_callback", NoKeyboard))
    else
      ButtonStep(state, input.asButton.value)
  }

  /** The callback input carrying a button's data and nothing that decodes as settings. */
  function Press(data: ButtonData): CallbackInput {
    CallbackInput(None, Some(data))
  }

  /** The callback input carrying settings data of kind "s". */
  function Settings(action: string, value: string): CallbackInput {
    CallbackInput(Some(SettingsData(KindSettings, action, value)), None)
  }

  /** The SetMode action stores the parsed value and confirms it by name. */
  lemma SetModeStoresParsed(state: BotState, uid: int, value: string)
    ensures var r := HandleCallback(state, uid, Settings(ActionSetMode, value));
      GetUserMode(r.state.modes, uid) == ParseDownloadMode(value) &&
      (forall u | u != uid :: GetUserMode(r.state.modes, u) == GetUserMode(state.modes, u)) &&
      r.state.langs == state.langs &&
      r.action == SayFormatted("settings.mode.saved", ModeString(ParseDownloadMode(value)), ModeKeyboard(ParseDownloadMode(value)))
  {
  }

  /** The SetLang action stores Russian exactly when the lower-cased value is "ru", English otherwise, and names it in capitals. */
  lemma SetLangStoresRussianIffRu(state: BotState, uid: int, value: string)
    ensures var r := HandleCallback(state, uid, Settings(ActionSetLang, value));
      (L.GetUserLang(r.state.langs, uid) == L.RU <==> Lower(value) == "ru") &&
      (Lower(value) != "ru" ==> L.GetUserLang(r.state.langs, uid) == L.EN) &&
      r.state.modes == state.modes &&
      r.action == SayFormatted("settings.language.saved", if Lower(value) == "ru" then "RU" else "EN", LangKeyboard)
  {
    var l := LangOfValue(value);
    UpperLangCodes();
  }

  /** A token found in neither table gets "err.resend_link", no upload, and changes nothing. */
  lemma UnknownTokenAsksToResend(state: BotState, uid: int, data: ButtonData)
    requires data.id !in state.cache.media && data.id !in state.cache.albums
    ensures HandleCallback(state, uid, Press(data)) == Step(state, Say("err.resend_link", NoKeyboard))
  {
  }

  /** A media entry hides an album entry under the same token: the album table is not even consulted. */
  lemma MediaTableFirst(state: BotState, uid: int, data: ButtonData)
    requires data.id in state.cache.media
    ensures var r := HandleCallback(state, uid, Press(data));
      r.state.cache.albums == state.cache.albums && data.id !in r.state.cache.media && !r.action.UploadAlbum?
  {
  }

  /** An album entry is uploaded as files exactly when the button says file, and is removed. */
  lemma AlbumChoice(state: BotState, uid: int, data: ButtonData)
    requires data.id !in state.cache.media && data.id in state.cache.albums
    ensures var e := state.cache.albums[data.id];
      HandleCallback(state, uid, Press(data)) ==
      Step(state.(cache := state.cache.(albums := state.cache.albums - {data.id})), UploadAlbum(e.album, e.postLink, data.mode == FileMode))
  {
  }

  /** A link key the entry does not hold gets "err.resend_link" and no upload, yet the entry is already gone. */
  lemma MissingLinkKey(state: BotState, uid: int, data: ButtonData)
    requires data.id in state.cache.media && data.linkKey !in state.cache.media[data.id].links
    ensures HandleCallback(state, uid, Press(data)) ==
      Step(state.(cache := state.cache.(media := state.cache.media - {data.id})), Say("err.resend_link", NoKeyboard))
  {
  }

  /** A video's audio key yields the audio alone; any other key yields the video with the audio URL ("" without audio). */
  lemma VideoRouting(c: CachedMedia, data: ButtonData)
    requires c.mediaType.Video? && data.linkKey in c.links
    ensures data.linkKey == c.audioIndex ==>
      Dispatch(c, data) == UploadAudio(c.links[data.linkKey].link, c.title, c.postLink, c.description, c.duration)
    ensures data.linkKey != c.audioIndex ==>
      Dispatch(c, data).UploadVideo? && Dispatch(c, data).link == c.links[data.linkKey].link &&
      Dispatch(c, data).audioURL == (if c.audioIndex in c.links then c.links[c.audioIndex].link else "")
  {
  }

  /** A photo goes out as a photo exactly when the button says photo, and as a document otherwise. */
  lemma PhotoAsPhotoIff(c: CachedMedia, data: ButtonData)
    requires c.mediaType.Photo? && data.linkKey in c.links
    ensures Dispatch(c, data).UploadPhoto?
    ensures Dispatch(c, data).asPhoto <==> data.mode == PhotoMode
  {
  }

  /** For the three named media types the recovered panic of `handleCallback` is unreachable. */
  lemma CallbackPanicsOnlyOnUnknownType(state: BotState, uid: int, input: CallbackInput)
    ensures HandleCallback(state, uid, input).action == Say("err.panic", NoKeyboard) ==>
      !(input.asSettings.Some? && input.asSettings.value.kind == KindSettings) &&
      input.asButton.Some? && input.asButton.value.id in state.cache.media &&
      !IsKnownType(state.cache.media[input.asButton.value.id].mediaType)
  {
  }

  /**
   A pressed button is honoured once: pressing it again finds nothing, so long
   as its token does not name an entry in both tables (tokens are fresh UUIDs).
   */
  lemma {:induction false} PressedOnce(state: BotState, uid: int, data: ButtonData)
    requires !(data.id in state.cache.media && data.id in state.cache.albums)
    ensures var r := HandleCallback(state, uid, Press(data));
      HandleCallback(r.state, uid, Press(data)) == Step(r.state, Say("err.resend_link", NoKeyboard))
  {
    var r := HandleCallback(state, uid, Press(data));
    assert data.id !in r.state.cache.media && data.id !in r.state.cache.albums;
    UnknownTokenAsksToResend(r.state, uid, data);
  }

  /** The audio URL a post's video choices carry: the quality at the audio index, "" when there is none. */
  function AudioOf(m: MediaPost): string {
    if 0 <= m.audioIndex < |m.medias| then m.medias[m.audioIndex].link else ""
  }

  /**
   End to end: a media post put to the user, then a press of one of its
   qualities, uploads that quality as the type demands and leaves the cache
   as it was before the post arrived.
   */
  lemma {:induction false} ChooseQuality(state: BotState, uid: int, m: MediaPost, postLink: string, token: string, k: int, mode: ButtonMode)
    requires NeedsChoice(m) && 0 <= k < |m.medias|
    requires token !in state.cache.media
    ensures var r1 := FetchPostDetails(state, uid, Fetched(MediaPostResult(m), postLink), token);
      var r2 := HandleCallback(r1.state, uid, Press(ButtonData(token, k, mode)));
      r2.state == state &&
      (m.mediaType.Gif? ==> r2.action == UploadGif(m.medias[k].link, m.title, m.thumbnail, postLink, m.description, m.medias[k].dim)) &&
      (m.mediaType.Photo? ==> r2.action == UploadPhoto(m.medias[k].link, m.title, m.thumbnail, postLink, m.description, mode == PhotoMode)) &&
      (m.mediaType.Video? && k == m.audioIndex ==> r2.action == UploadAudio(m.medias[k].link, m.title, postLink, m.description, m.duration)) &&
      (m.mediaType.Video? && k != m.audioIndex ==>
        r2.action == UploadVideo(m.medias[k].link, AudioOf(m), m.title, m.thumbnail, postLink, m.description, m.medias[k].dim, m.duration))
  {
    var c := CachedOf(m, postLink);
    var r1 := FetchPostDetails(state, uid, Fetched(MediaPostResult(m), postLink), token);
    assert r1.state == state.(cache := SetMedia(state.cache, token, c));
    TakeMediaAfterSet(state.cache, token, c);
    assert k in c.links && c.links[k] == m.medias[k];
  }

  /**
   End to end for albums: with no stored mode the album is put to the user;
   pressing either of the two buttons uploads it, as files exactly for the
   second, and leaves the cache as it was.
   */
  lemma {:induction false} ChooseAlbumMode(state: BotState, uid: int, album: Album, postLink: string, token: string, i: int)
    requires GetUserMode(state.modes, uid) == Ask && 0 <= i < 2
    requires token !in state.cache.media && token !in state.cache.albums
    ensures var r1 := FetchPostDetails(state, uid, Fetched(AlbumPost(album), postLink), token);
      var r2 := HandleCallback(r1.state, uid, Press(r1.action.keyboard.buttons[i].data));
      r2 == Step(state, UploadAlbum(album, postLink, i == 1))
  {
    var e := CachedAlbum(postLink, album);
    var r1 := FetchPostDetails(state, uid, Fetched(AlbumPost(album), postLink), token);
    assert r1.state == state.(cache := SetAlbum(state.cache, token, e));
    assert r1.action.keyboard.buttons == AlbumButtons(token);
    TakeAlbumAfterSet(state.cache, token, e);
  }
}
