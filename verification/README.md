# RedditDownloaderBot core, modelled in Dafny

This project models the decision logic of RedditDownloaderBot, a Telegram bot
that downloads Reddit posts, and proves properties of that model. It covers:

- **DASH manifests** (`DashPlaylist`, pkg/reddit/DASHPlaylist.go). A decoded
  MPEG-DASH manifest (ISO/IEC 23009-1, section 5.3) is converted into the list
  of video streams and the list of audio streams:
  - a `video` or `audio` adaptation set replaces the whole list of its kind
    built so far, including entries that earlier sets without contentType
    appended;
  - a set without contentType appends its `VIDEO…`/`AUDIO…` representations;
  - every other set is ignored.

  The width and height attributes parse to 0 when they are not decimal. The
  quality label of a video is the first digit run of its URL. The videos are
  ranked by descending quality number.
- **Tokens and imgur hosts** (`Util`, pkg/util/util.go). `UUIDToBase64` is the
  standard base64 encoding with padding (section 4 of RFC 4648) of the 16 UUID
  bytes. The model proves its length, alphabet and padding, and that the token
  decodes back to the UUID. `IsImgurLink` is a case-insensitive suffix test on
  the URL's host.
- **Localisation** in its two versions:
  - `Localization` (internal/bot/localization.go) falls back from the user's
    language to English, then to the key itself;
  - `Lang` (internal/bot/lang.go) falls back to English only, so a key missing
    everywhere gives "".

  Both versions share the per-user language store and the dictionaries, which
  are abstract maps. Lines 21-36 of lang.go are the same code as lines 24-39 of
  localization.go, so one model (`Localization.GetUserLang`,
  `Localization.SetUserLang`) stands for both.
- **The bot's decisions** (`Bot`, internal/bot/bot.go):
  - the download-mode preference;
  - what `fetchPostDetailsAndSend` does with a fetched post;
  - how `handleCallback` resolves a button press.

  Each handler is a pure function from the bot state (mode store, language
  store, callback cache) and its input to the new state and one `Action`. An
  action is a localised reply, an upload with its arguments, or a prompt whose
  choices were just written to the cache. The callback cache (`Cache`) is a pair
  of maps with get-and-delete. The fetcher's result types are in `Posts`.

Shared pieces:
- `Wrappers` holds `Option`.
- `Text` models Go's `strconv.ParseInt`/`Atoi` (mathematical integers),
  `strings.ToLower` and the prefix and suffix tests.
- `Prefs` is the per-user map behind both preference stores.

Where the code may surprise a reader, the model follows the code:
- **Sorting.** The ranking uses `sort.Sort`, which is not stable. The model
  promises a permutation that does not increase in quality, and nothing about
  the order of equal qualities.
- **Missing link key.** A callback whose link key is missing from the cached
  entry gets the same "err.resend_link" reply as an expired token. There is no
  separate internal-error outcome. The entry has already been deleted by then
  (`Bot.MissingLinkKey`).
- **Unknown media type.** In `fetchPostDetailsAndSend`, a single medium of an
  unknown type panics. Nothing in bot.go recovers that panic and no reply is
  sent (the model's `Crash`). In `handleCallback` the handler's own deferred
  recover turns the panic into an "err.panic" reply. Neither can happen for the
  three named media types.
- **Unknown fetch result.** A fetch result of any other dynamic type gets the
  "unknown.type" reply.

## Model

| member | source | states |
|---|---|---|
| DashPlaylist.RepDimension | pkg/reddit/DASHPlaylist.go:45-52 | width and height are the decimal values of the attributes, a leading "+" or "-" included; an absent or non-decimal attribute gives 0, and the function never fails |
| DashPlaylist.SignedDimensionExample | pkg/reddit/DASHPlaylist.go:45-52 | the attributes "+720" and "-05" read as 720 and -5 |
| Text.ParseInt | pkg/reddit/DASHPlaylist.go:46-47 | a text that is not an optionally signed run of digits gives 0; otherwise the value of the digits, negated after "-" |
| DashPlaylist.RepDimensionOfFormatted | pkg/reddit/DASHPlaylist.go:45-52 | any width and height written in decimal are read back exactly |
| Text.ParseIntOfFormatInt | pkg/reddit/DASHPlaylist.go:46-47 | `ParseInt` inverts decimal formatting for every integer, negative ones included |
| DashPlaylist.FirstDigitRunUnique | pkg/reddit/DASHPlaylist.go:17 | a string has at most one leftmost maximal digit run, so "the first match of `(\d+)`" is well defined |
| DashPlaylist.Quality | pkg/reddit/DASHPlaylist.go:61-67 | the label is "NA" exactly when the URL has no digit; otherwise it is the first maximal digit run of the URL |
| DashPlaylist.QualityValue | pkg/reddit/DASHPlaylist.go:142-146 | the number `Less` compares is never negative; it is 0 for a URL without digits and otherwise the value of the first digit run |
| DashPlaylist.SortDesc | pkg/reddit/DASHPlaylist.go:153-155 | for any key, the result is a permutation of the input (same multiset) that is non-increasing in the key |
| DashPlaylist.SortVideoQualities | pkg/reddit/DASHPlaylist.go:142-155 | the ranked videos are a permutation of the input and their quality numbers never increase; no order is promised among equal qualities |
| DashPlaylist.DigitlessRankLast | pkg/reddit/DASHPlaylist.go:142-146 | after ranking, every video with a positive quality number comes before every video whose URL has no digit |
| DashPlaylist.ApplySet | pkg/reddit/DASHPlaylist.go:89-111 | one loop iteration: a `video` set replaces the videos and keeps the audios, an `audio` set the reverse, a set without contentType appends its legacy entries to both, and any other contentType changes nothing |
| DashPlaylist.LastSetOfIsLast | pkg/reddit/DASHPlaylist.go:88-112 | the set found is of the requested kind and no later set is, which is why the last `video`/`audio` set wins |
| DashPlaylist.ExpectedVideosStep | pkg/reddit/DASHPlaylist.go:90-110 | a `video` set makes the videos exactly one entry per representation, in order, dropping earlier videos; any other set only appends its legacy `VIDEO` entries (nothing unless its contentType is empty) |
| DashPlaylist.ExpectedAudiosStep | pkg/reddit/DASHPlaylist.go:98-110 | an `audio` set makes the audios exactly its BaseURLs in order, dropping earlier audios; any other set only appends its legacy `AUDIO` entries |
| DashPlaylist.ExpectedStep | pkg/reddit/DASHPlaylist.go:88-112 | one more adaptation set changes the per-kind description exactly as one iteration of the conversion loop does |
| DashPlaylist.ConvertedIsExpected | pkg/reddit/DASHPlaylist.go:88-113 | after any number of sets, the loop's result equals the per-kind description: the last video/audio set's entries followed by the legacy entries of later untyped sets |
| DashPlaylist.ConvertManifest | pkg/reddit/DASHPlaylist.go:87-113 | the loop over the sets yields the per-kind description; a manifest without sets yields two empty lists |
| DashPlaylist.ParseDashPlaylist | pkg/reddit/DASHPlaylist.go:79-114 | a document the decoder rejects gives the parse error and empty media; otherwise no error and the converted media |
| DashPlaylist.ParseDashPlaylistFromID | pkg/reddit/DASHPlaylist.go:117-134 | an empty URL gives an error before any fetch, whatever the response; a transport error, a non-200 status and an undecodable body each give their error and empty media; otherwise the converted media |
| DashPlaylist.LegacyManifestExample | pkg/reddit/DASHPlaylist.go:103-110 | an untyped set with ids VIDEO1, AUDIO1, VIDEO2 yields the two videos in order and the one audio, with 0×0 dimensions for missing attributes |
| DashPlaylist.LegacyPrefixIsCaseSensitive | pkg/reddit/DASHPlaylist.go:105-107 | an id starting with lower-case "video" is neither a legacy video nor a legacy audio and is dropped |
| Util.EncodeShape | pkg/util/util.go:43 | the standard encoding of n bytes has 4·⌈n/3⌉ characters: alphabet characters followed by exactly the padding RFC 4648 prescribes for n mod 3 |
| Util.DecodeEncode | pkg/util/util.go:43 | decoding the encoding of any byte sequence gives the bytes back |
| Util.GroupBits | pkg/util/util.go:43 | the four characters of a group carry the group's 24 bits, most significant first, 6 bits each; a final 1 or 2 bytes are padded with zero bits to 12 or 18 bits (section 4 of RFC 4648) |
| Util.EncodeGroupAt | pkg/util/util.go:43 | the i-th complete group of three bytes becomes characters 4i to 4i+3 of the encoding |
| Util.EncodeKnownAnswers | pkg/util/util.go:43 | the test vectors of section 10 of RFC 4648: "f" gives "Zg==", "fo" gives "Zm8=" and "foobar" gives "Zm9vYmFy" |
| Util.UUIDToBase64 | pkg/util/util.go:40-44 | a token is 24 characters, the first 22 from the base64 alphabet and the last two "=", and it decodes to the UUID's 16 bytes |
| Util.UUIDTokenInjective | pkg/util/util.go:40-44 | distinct UUIDs give distinct tokens |
| Util.IsImgurLink | pkg/util/util.go:65-71 | false when no URL was parsed; otherwise true exactly when the host, lower-cased, ends in "imgur.com" |
| Util.ImgurIgnoresPrefix | pkg/util/util.go:70 | a host ending in an imgur host is accepted whatever precedes it |
| Util.ImgurUpperCase | pkg/util/util.go:70 | "I.IMGUR.COM" is accepted |
| Util.ImgurNoDotCheck | pkg/util/util.go:70 | "notimgur.com" is accepted, since no dot is required before the suffix |
| Util.ImgurRejects | pkg/util/util.go:65-71 | "imgur.co", a host with a port and a missing URL are refused |
| Localization.GetUserLang | internal/bot/localization.go:30-39 | a user who never chose gets English, otherwise the stored language |
| Localization.SetUserLang | internal/bot/localization.go:24-28 | the user reads back the language they set, and every other user keeps theirs |
| Localization.Tr | internal/bot/localization.go:137-149 | the user's language's entry when it has the key; else the English entry when it is non-empty; else the key itself |
| Localization.TrEmptyOnlyIfStored | internal/bot/localization.go:137-149 | for a non-empty key the text is "" exactly when the user's language stores "" for it, so a key missing everywhere never shows as "" |
| Localization.TrEnglish | internal/bot/localization.go:137-149 | for English the text is the stored entry, even an empty one; only a missing key falls back to itself |
| Localization.T | internal/bot/localization.go:151-153 | a user's text is the translation into their stored language, English when they never chose |
| Localization.TAfterSetUserLang | internal/bot/localization.go:151-153 | after choosing a language, every text the user gets is the translation into that language |
| Localization.SetUserLangIsPrivate | internal/bot/localization.go:24-28 | one user's choice of language changes no other user's texts |
| Localization.CommandsFor | internal/bot/localization.go:156-162 | exactly the commands start, settings and help, in that order, each described by the translation of its "cmd.desc." key |
| Localization.CommandDescriptionsNonEmpty | internal/bot/localization.go:156-162 | every command description is non-empty unless the language stores an empty one for it |
| Lang.Tr | internal/bot/lang.go:100-108 | the user's language's entry when it has the key; otherwise the English entry, and "" when English lacks the key too |
| Lang.TrEnglishIsLookup | internal/bot/lang.go:100-108 | for English the text is exactly the English lookup, "" on a miss |
| Lang.T | internal/bot/lang.go:110-112 | a user's text is the translation into their stored language, English when they never chose |
| Lang.TAfterSetUserLang | internal/bot/lang.go:110-112 | after choosing a language, every text the user gets is the translation into that language |
| Lang.VersionsAgreeUnlessEnglishIsEmpty | internal/bot/lang.go:106-107 | the two versions give the same text exactly when the user's language has the key, English has non-empty text for it, or the key is ""; otherwise this version shows "" where the other shows the key |
| Bot.ModeString | internal/bot/bot.go:44-53 | "media" and "files" name exactly those modes; every other value, out-of-range ones included, reads as "ask" |
| Bot.ParseDownloadMode | internal/bot/bot.go:55-64 | the result is always one of the three modes: media exactly when the lower-cased text is "media", files exactly when it is "files", ask otherwise |
| Text.LowerOfLowercase | internal/bot/bot.go:56 | `strings.ToLower` leaves a text of lower-case ASCII letters unchanged, so the mode names compare equal to themselves |
| Text.UpperLangCodes | internal/bot/bot.go:440 | `strings.ToUpper` turns the stored codes "en" and "ru" into "EN" and "RU" |
| Bot.ModeRoundTrip | internal/bot/bot.go:44-64 | parsing the name of ask, media or files gives that mode back |
| Bot.ParseIgnoresCase | internal/bot/bot.go:55-64 | any spelling parses as its lower-case form does |
| Bot.ParseMixedCase | internal/bot/bot.go:55-64 | "MEDIA" parses as media and "FiLeS" as files |
| Bot.GetUserMode | internal/bot/bot.go:74-82 | a user who never chose gets ask, otherwise the stored mode |
| Bot.SetUserMode | internal/bot/bot.go:84-88 | the user reads back the mode they set, and every other user keeps theirs |
| Bot.LinkMap | internal/bot/bot.go:319 | the cached links are keyed exactly by the positions of the post's media, each holding that medium |
| Bot.CachedOf | internal/bot/bot.go:317-326 | the cache entry holds every medium under its position and nothing else, with the post's type, audio index and the post link |
| Bot.AlbumButtons | internal/bot/bot.go:349-366 | exactly two buttons, both carrying the token and link key 0, the first for media and the second for file |
| Bot.QualityKeyboardFor | internal/bot/bot.go:308-315 | the quality prompt has a keyboard exactly for photo, gif and video posts |
| Bot.FetchMedia | internal/bot/bot.go:283-329 | the media branch changes no preference and no album entry, and writes at most the entry under the fresh token |
| Bot.FetchAlbum | internal/bot/bot.go:330-366 | the album branch changes no preference and no media entry, and writes at most the entry under the fresh token |
| Bot.FetchPostDetails | internal/bot/bot.go:264-370 | handling a post never changes a preference; the cache differs at most under the fresh token, and in at most one of its two tables |
| Bot.NoMediaFound | internal/bot/bot.go:284-287 | a media post without media gets "msg.no_media_found", with no upload and no cache write |
| Bot.SingleMediaUploadsAtOnce | internal/bot/bot.go:288-299 | a single gif, or a single video without audio, is uploaded at once with the post's details and nothing is cached; the video goes out with an empty audio URL |
| Bot.ChoiceIsCached | internal/bot/bot.go:304-328 | a photo post, a post with two or more media, or a single video with audio writes exactly one media entry, under the fresh token, holding every link by position, the media type, the post link and the audio index `HasAudio` reported; the user is asked to choose |
| Bot.MediaOutcomesPartition | internal/bot/bot.go:283-303 | every media post is empty, uploaded at once, put to the user, or a single medium of an unnamed type; the second and third never overlap |
| Bot.FetchCrashesOnlyOnUnknownType | internal/bot/bot.go:290-303 | the unrecovered panic happens exactly for a single medium of a type other than photo, gif and video |
| Bot.AlbumWithStoredMode | internal/bot/bot.go:330-338 | with mode media or files an album is uploaded at once, as files exactly in files mode, and nothing changes |
| Bot.AlbumAsks | internal/bot/bot.go:339-366 | in any other mode the album is cached under the fresh token and the prompt carries two buttons with that same token, for media and for file |
| Bot.LangOfValue | internal/bot/bot.go:432-438 | the language stored is Russian exactly when the lower-cased value is "ru", English for every other value |
| Bot.SettingsStep | internal/bot/bot.go:404-447 | settings never touch the cache; SetMode stores the parsed mode and SetLang the selected language for this user only; every other action changes nothing, and an unnamed action gets "settings.unknown_action" |
| Bot.ButtonStep | internal/bot/bot.go:449-486 | a button never touches a preference; a media hit removes only that entry and uploads no album; an album-only hit removes it and uploads that album, as files exactly for the file button; a miss in both tables changes nothing and asks to resend |
| Bot.Dispatch | internal/bot/bot.go:487-506 | a photo, gif or video entry always leads to an upload of the chosen link: a photo upload for a photo, a gif upload for a gif, the audio upload for a video's audio key and the video upload for its other keys; only an unnamed type gives the recovered "err.panic" reply |
| Bot.AudioURL | internal/bot/bot.go:501-502 | the audio URL is the link at the audio index, or Go's zero value "" when that key is absent |
| Bot.HandleCallback | internal/bot/bot.go:394-507 | settings callbacks never touch the cache; button callbacks never touch a preference, only remove entries, and only under their own token; nothing crashes |
| Bot.SetModeStoresParsed | internal/bot/bot.go:420-426 | SetMode stores the parsed value for this user only, keeps the languages, and confirms the mode by name |
| Bot.SetLangStoresRussianIffRu | internal/bot/bot.go:432-443 | SetLang stores Russian exactly when the lower-cased value is "ru" and English otherwise, and confirms it as "RU" or "EN" |
| Bot.UnknownTokenAsksToResend | internal/bot/bot.go:457-470 | a token in neither table gets "err.resend_link", no upload and no change |
| Bot.MediaTableFirst | internal/bot/bot.go:457-460 | when the media table has the token, the album table is not consulted: it is unchanged and no album is uploaded |
| Bot.AlbumChoice | internal/bot/bot.go:461-465 | a token found only in the album table uploads that album, as files exactly when the button says file, and removes it |
| Bot.MissingLinkKey | internal/bot/bot.go:481-486 | a link key the entry lacks gets "err.resend_link" and no upload, and the entry is already deleted |
| Bot.VideoRouting | internal/bot/bot.go:497-503 | for a video, the audio key yields the audio upload; any other key yields the video with the link at the audio index, "" when there is none |
| Bot.PhotoAsPhotoIff | internal/bot/bot.go:495-496 | a photo choice is always a photo upload, sent as a photo exactly when the button says photo |
| Bot.CallbackPanicsOnlyOnUnknownType | internal/bot/bot.go:492-506 | the recovered "err.panic" reply needs a cached media entry whose type is not photo, gif or video |
| Bot.PressedOnce | internal/bot/bot.go:457-486 | pressing the same button again finds nothing and gets "err.resend_link", unless its token named entries in both tables |
| Bot.ChooseQuality | internal/bot/bot.go:304-503 | a media post put to the user, followed by a press on quality k, uploads the post's k-th medium as its type demands, and the cache ends as it was before the post |
| Bot.ChooseAlbumMode | internal/bot/bot.go:339-464 | an album put to the user, followed by a press on either button, uploads the album (as files for the second) and the cache ends as it was before the post |
| Cache.SetMedia | internal/bot/bot.go:317-326 | after the write the token holds the new media entry; every other entry of both tables is kept |
| Cache.SetAlbum | internal/bot/bot.go:340-343 | after the write the token holds the new album entry; every other entry of both tables is kept |
| Cache.TakeMedia | internal/bot/bot.go:458 | get-and-delete returns the media entry under the token and removes only it, or reports not found and changes nothing |
| Cache.TakeAlbum | internal/bot/bot.go:462 | get-and-delete returns the album entry under the token and removes only it, or reports not found and changes nothing |
| Cache.TakeMediaOnce | internal/bot/bot.go:458 | a second get-and-delete of the same media token finds nothing |
| Cache.TakeAlbumOnce | internal/bot/bot.go:462 | a second get-and-delete of the same album token finds nothing |
| Cache.TakeMediaAfterSet | internal/bot/bot.go:317-458 | reading back a media entry written under a new token yields it and restores the store |
| Cache.TakeAlbumAfterSet | internal/bot/bot.go:340-462 | reading back an album entry written under a new token yields it and restores the store |

## Left out

- XML decoding (`encoding/xml`) and the HTTP GET of the manifest are foreign library and network code. The model starts from the decoded tree, or from `None` when decoding failed, and from the response's status.
- `strconv.ParseInt`/`Atoi` clamping and errors for numbers outside 64 bits are not modelled. Qualities and dimensions are mathematical integers.
- `strings.ToLower` is modelled only on the letters that can change the outcome of comparing against ASCII text. Those are the ASCII capitals plus U+0130 and U+212A. `strings.ToUpper` is modelled on ASCII only, and is applied only to "en" and "ru".
- Telegram I/O and presentation are not modelled: sending and deleting messages, the keyboard builders, `RunBot` and the command switch of `handleMessage`. The over-4096-byte document path and the Markdown retry chain are also out. A handler's reply is an `Action` value naming the dictionary key, the keyboard kind and the upload arguments.
- `addLinkIfNeeded` is not modelled. `SendPostText` carries the post text and the post link it is given.
- `SelectThumbnail` is not modelled. A media post carries the thumbnail already chosen.
- `FetchResultMedia.HasAudio` and `getLinkMapOfFetchResultMediaEntries` are not part of this model. The audio index and its flag are inputs, and the link map is assumed to key each medium by its position.
- The cache implementation (`internal/cache`) is not part of this model. Its tables are maps, and a read returns the entry or not found. Expiry and backend errors are left out, including the "err.internal" reply and the logged write failures.
- `uuid.New` randomness is not modelled. `Bot.FetchPostDetails` receives the token, which the program computes as `Util.UUIDToBase64` of a fresh UUID.
- JSON encoding and decoding of callback data are not modelled. A callback arrives as its two decodings, each `None` when the payload does not decode.
- The logging, the read/write locks and the concurrency of handlers are left out. The stores are plain maps updated in sequence.
- `installCommands` is Telegram I/O. Only `commandsFor`, which it calls, is modelled.
- The literal dictionary texts are not modelled. Dictionaries are any maps from language to key-to-text map.
- The other utilities of pkg/util/util.go are left out: `IsUrl`, `CheckFileSize`, `DoesFfmpegExists`, `ParseEnvironmentVariableBool`, `ByteToString` and `ToJsonString`. They need URL parsing, the file system, the environment or the `unsafe` package. `IsImgurLink` receives the host `url.Parse` found, or `None`.
