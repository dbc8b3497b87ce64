/**
 Conversion of a decoded MPEG-DASH manifest (ISO/IEC 23009-1, section 5.3: an MPD
 whose Period holds AdaptationSet elements, each holding Representation elements)
 into the lists of downloadable video and audio streams, and the ranking of the
 video streams by the quality number found in their URLs.

 The XML decoding itself is not modelled: a manifest arrives either as the decoded
 element tree or as `None` when the decoder rejected the document. Attributes the
 document leaves out decode as the empty string, as Go's `encoding/xml` does.
 */
module DashPlaylist {
  import opened Wrappers
  import opened Text

  /** A Representation element: its BaseURL child and its id, width and height attributes. */
  datatype Representation = Representation(baseURL: string, id: string, width: string, height: string)

  /** An AdaptationSet element: its contentType attribute and its representations in document order. */
  datatype AdaptationSet = AdaptationSet(contentType: string, qualities: seq<Representation>)

  /** The decoded MPD: the adaptation sets of its Period, in document order. */
  datatype Manifest = Manifest(sets: seq<AdaptationSet>)

  datatype Dimension = Dimension(width: int, height: int)

  datatype AvailableVideo = AvailableVideo(baseURL: string, dim: Dimension)

  /** An audio stream, known only by its URL (a named string type in the program). */
  datatype AvailableAudio = AvailableAudio(baseURL: string)

  datatype AvailableMedia = AvailableMedia(videos: seq<AvailableVideo>, audios: seq<AvailableAudio>)

  const NoMedia := AvailableMedia([], [])

  datatype DashError = EmptyUrl | CannotGetUrl | BadStatus(code: int) | CannotParseXml

  /** What the HTTP GET of the manifest URL produced: a transport error, or a status and the decoded body. */
  datatype HttpResponse = TransportError | Response(status: int, body: Option<Manifest>)

  const StatusOK := 200

  // ----- Dimension -----

  /**
   Width and height of a representation, each parsed as a base-10 integer; an
   attribute that is absent or does not parse counts as 0, so this never fails.
   */
  function RepDimension(r: Representation): (d: Dimension)
    ensures !IsDecimal(r.width) ==> d.width == 0
    ensures !IsDecimal(r.height) ==> d.height == 0
    ensures |r.width| > 0 && AllDigits(r.width) ==> d.width == DigitsValue(r.width)
    ensures |r.height| > 0 && AllDigits(r.height) ==> d.height == DigitsValue(r.height)
    ensures IsDecimal(r.width) && IsSign(r.width[0]) ==>
      d.width == if r.width[0] == '-' then -(DigitsValue(r.width[1..]) as int) else DigitsValue(r.width[1..])
    ensures IsDecimal(r.height) && IsSign(r.height[0]) ==>
      d.height == if r.height[0] == '-' then -(DigitsValue(r.height[1..]) as int) else DigitsValue(r.height[1..])
  {
    Dimension(ParseInt(r.width), ParseInt(r.height))
  }

  /** Signed attributes: "+720" reads as 720 and "-05" as -5. */
  lemma SignedDimensionExample()
    ensures RepDimension(Representation("", "", "+720", "-05")) == Dimension(720, -5)
  {
    assert DigitsValue("720") == 720 by {
      assert "720"[..2] == "72" && "72"[..1] == "7" && "7"[..0] == "";
    }
    assert DigitsValue("05") == 5 by {
      assert "05"[..1] == "0" && "0"[..0] == "";
    }
    assert "+720"[1..] == "720" && "-05"[1..] == "05";
  }

  /** Any dimension written out in decimal is read back exactly. */
  lemma RepDimensionOfFormatted(baseURL: string, id: string, w: int, h: int)
    ensures RepDimension(Representation(baseURL, id, FormatInt(w), FormatInt(h))) == Dimension(w, h)
  {
    ParseIntOfFormatInt(w);
    ParseIntOfFormatInt(h);
  }

  // ----- Quality -----

  /** Index of the first digit of `s` at or after `from`, or `|s|` when there is none. */
  function FirstDigitFrom(s: string, from: nat): (k: nat)
    requires from <= |s|
    ensures from <= k <= |s|
    ensures forall i | from <= i < k :: !IsDigit(s[i])
    ensures k < |s| ==> IsDigit(s[k])
    decreases |s| - from
  {
    if from == |s| || IsDigit(s[from]) then from else FirstDigitFrom(s, from + 1)
  }

  /** Index just past the run of digits of `s` starting at `from`. */
  function DigitRunEnd(s: string, from: nat): (k: nat)
    requires from <= |s|
    ensures from <= k <= |s|
    ensures forall i | from <= i < k :: IsDigit(s[i])
    ensures k < |s| ==> !IsDigit(s[k])
    decreases |s| - from
  {
    if from == |s| || !IsDigit(s[from]) then from else DigitRunEnd(s, from + 1)
  }

  predicate NoDigit(s: string) {
    forall k | 0 <= k < |s| :: !IsDigit(s[k])
  }

  /** `s[i..j]` is the leftmost maximal run of ASCII digits of `s`, the first match of `(\d+)`. */
  predicate IsFirstDigitRun(s: string, i: int, j: int) {
    && 0 <= i < j <= |s|
    && (forall k | 0 <= k < i :: !IsDigit(s[k]))
    && (forall k | i <= k < j :: IsDigit(s[k]))
    && (j == |s| || !IsDigit(s[j]))
  }

  /** There is at most one first digit run, so the quality below is well defined. */
  lemma FirstDigitRunUnique(s: string, i: int, j: int, i': int, j': int)
    requires IsFirstDigitRun(s, i, j) && IsFirstDigitRun(s, i', j')
    ensures i == i' && j == j'
  {
    assert IsDigit(s[i]) && IsDigit(s[i']);
    assert j < |s| ==> !IsDigit(s[j]);
    assert j' < |s| ==> !IsDigit(s[j']);
  }

  /**
   The quality label of a video: the first run of digits in its BaseURL, or "NA"
   when the URL has no digit at all.
   */
  function Quality(v: AvailableVideo): (q: string)
    ensures q == "NA" <==> NoDigit(v.baseURL)
    ensures q != "NA" ==> exists i, j :: IsFirstDigitRun(v.baseURL, i, j) && q == v.baseURL[i..j]
  {
    var s := v.baseURL;
    var i := FirstDigitFrom(s, 0);
    if i == |s| then "NA"
    else
      var j := DigitRunEnd(s, i);
      assert IsFirstDigitRun(s, i, j);
      assert IsDigit(s[i..j][0]);
      s[i..j]
  }

  /** `strconv.Atoi(v.Quality())` with its error discarded: the value of the digit run, and 0 for "NA". */
  function QualityValue(v: AvailableVideo): (n: int)
    ensures n >= 0
    ensures NoDigit(v.baseURL) ==> n == 0
    ensures !NoDigit(v.baseURL) ==> exists i, j :: IsFirstDigitRun(v.baseURL, i, j) && n == DigitsValue(v.baseURL[i..j])
  {
    var q := Quality(v);
    assert !IsDecimal("NA") by { assert !IsDigit("NA"[0]); }
    ParseInt(q)
  }

  // ----- Ranking -----

  /** `s` is ordered so that a larger key never comes after a smaller one. */
  predicate NonIncreasingBy<T>(key: T -> int, s: seq<T>) {
    forall i, j | 0 <= i < j < |s| :: key(s[i]) >= key(s[j])
  }

  /** A head no smaller than every key of a non-increasing tail keeps the sequence non-increasing. */
  lemma ConsNonIncreasing<T>(key: T -> int, h: T, rest: seq<T>)
    requires NonIncreasingBy(key, rest)
    requires forall k | 0 <= k < |rest| :: key(h) >= key(rest[k])
    ensures NonIncreasingBy(key, [h] + rest)
  {
    forall i, j | 0 <= i < j < |[h] + rest|
      ensures key(([h] + rest)[i]) >= key(([h] + rest)[j])
    {
      if i > 0 {
        assert ([h] + rest)[i] == rest[i - 1];
      }
      assert ([h] + rest)[j] == rest[j - 1];
    }
  }

  /** Every element drawn from `v` or a non-increasing `s` has a key at most that of `s[0]`, when `v`'s is smaller. */
  lemma BoundedByHead<T>(key: T -> int, v: T, s: seq<T>, r: seq<T>)
    requires |s| > 0 && NonIncreasingBy(key, s) && key(v) < key(s[0])
    requires forall x | x in r :: x == v || x in s[1..]
    ensures forall k | 0 <= k < |r| :: key(s[0]) >= key(r[k])
  {
    forall k | 0 <= k < |r|
      ensures key(s[0]) >= key(r[k])
    {
      if r[k] != v {
        assert r[k] in s[1..];
        var m :| 0 <= m < |s[1..]| && s[1..][m] == r[k];
        assert s[m + 1] == r[k];
      }
    }
  }

  /** Insert `v` into a non-increasing sequence before the first element with a key not larger than its own. */
  function InsertDesc<T(==)>(key: T -> int, v: T, s: seq<T>): (r: seq<T>)
    requires NonIncreasingBy(key, s)
    ensures NonIncreasingBy(key, r)
    ensures multiset(r) == multiset(s) + multiset{v}
    ensures forall x | x in r :: x == v || x in s
  {
    if |s| == 0 then [v]
    else if key(v) >= key(s[0]) then
      ConsNonIncreasing(key, v, s);
      [v] + s
    else
      var rest := InsertDesc(key, v, s[1..]);
      assert s == [s[0]] + s[1..];
      BoundedByHead(key, v, s, rest);
      ConsNonIncreasing(key, s[0], rest);
      [s[0]] + rest
  }

  /** Sort by descending key; `sort.Sort` is not stable, so the order of equal keys is not promised. */
  function SortDesc<T(==)>(key: T -> int, s: seq<T>): (r: seq<T>)
    ensures NonIncreasingBy(key, r)
    ensures multiset(r) == multiset(s)
  {
    if |s| == 0 then []
    else
      assert s == [s[0]] + s[1..];
      InsertDesc(key, s[0], SortDesc(key, s[1..]))
  }

  /**
   `SortVideoQualities`: the same videos, reordered so that the quality numbers
   (`Less` compares `Atoi(Quality())`, with "NA" reading as 0) never increase.
   */
  function SortVideoQualities(videos: seq<AvailableVideo>): (r: seq<AvailableVideo>)
    ensures multiset(r) == multiset(videos)
    ensures forall i, j | 0 <= i < j < |r| :: QualityValue(r[i]) >= QualityValue(r[j])
  {
    SortDesc(QualityValue, videos)
  }

  /** After ranking, every video with a positive quality number comes before every video whose URL has no digit. */
  lemma DigitlessRankLast(videos: seq<AvailableVideo>)
    ensures var r := SortVideoQualities(videos);
      forall i, j | 0 <= i < |r| && 0 <= j < |r| && QualityValue(r[i]) > 0 && NoDigit(r[j].baseURL) :: i < j
  {
  }

  // ----- Conversion -----

  function VideoOf(r: Representation): AvailableVideo {
    AvailableVideo(r.baseURL, RepDimension(r))
  }

  /** What a `video` set yields: one entry per representation, in order. */
  function VideoSetEntries(qs: seq<Representation>): seq<AvailableVideo> {
    seq(|qs|, i requires 0 <= i < |qs| => VideoOf(qs[i]))
  }

  /** What an `audio` set yields: the BaseURL of each representation, in order. */
  function AudioSetEntries(qs: seq<Representation>): seq<AvailableAudio> {
    seq(|qs|, i requires 0 <= i < |qs| => AvailableAudio(qs[i].baseURL))
  }

  predicate IsLegacyVideo(r: Representation) {
    HasPrefix(r.id, "VIDEO")
  }

  predicate IsLegacyAudio(r: Representation) {
    !HasPrefix(r.id, "VIDEO") && HasPrefix(r.id, "AUDIO")
  }

  /** The videos a set without contentType contributes: representations whose id starts with "VIDEO". */
  function LegacyVideos(qs: seq<Representation>): seq<AvailableVideo> {
    if |qs| == 0 then []
    else (if IsLegacyVideo(qs[0]) then [VideoOf(qs[0])] else []) + LegacyVideos(qs[1..])
  }

  /** The audios a set without contentType contributes: the remaining representations whose id starts with "AUDIO". */
  function LegacyAudios(qs: seq<Representation>): seq<AvailableAudio> {
    if |qs| == 0 then []
    else (if IsLegacyAudio(qs[0]) then [AvailableAudio(qs[0].baseURL)] else []) + LegacyAudios(qs[1..])
  }

  /** How the conversion loop treats an adaptation set, decided by its contentType alone. */
  datatype SetKind = VideoSet | AudioSet | UntypedSet | IgnoredSet

  /** "video" and "audio" are compared exactly (case-sensitively); an absent attribute is "". */
  function KindOf(aset: AdaptationSet): SetKind {
    if aset.contentType == "video" then VideoSet
    else if aset.contentType == "audio" then AudioSet
    else if aset.contentType == "" then UntypedSet
    else IgnoredSet
  }

  /**
   One iteration of the conversion loop, per contentType: a `video` set replaces
   the videos and keeps the audios, an `audio` set the reverse, a set without
   contentType appends its legacy entries to both lists, and any other set
   changes nothing.
   */
  function ApplySet(acc: AvailableMedia, aset: AdaptationSet): (r: AvailableMedia)
    ensures aset.contentType == "video" ==> r == AvailableMedia(VideoSetEntries(aset.qualities), acc.audios)
    ensures aset.contentType == "audio" ==> r == AvailableMedia(acc.videos, AudioSetEntries(aset.qualities))
    ensures aset.contentType == "" ==>
      r == AvailableMedia(acc.videos + LegacyVideos(aset.qualities), acc.audios + LegacyAudios(aset.qualities))
    ensures aset.contentType !in {"video", "audio", ""} ==> r == acc
  {
    match KindOf(aset)
    case VideoSet => acc.(videos := VideoSetEntries(aset.qualities))
    case AudioSet => acc.(audios := AudioSetEntries(aset.qualities))
    case UntypedSet => AvailableMedia(acc.videos + LegacyVideos(aset.qualities), acc.audios + LegacyAudios(aset.qualities))
    case IgnoredSet => acc
  }

  /** The loop run over the first `n` sets, one `ApplySet` per set in document order. */
  function Converted(sets: seq<AdaptationSet>, n: nat): AvailableMedia
    requires n <= |sets|
  {
    if n == 0 then NoMedia else ApplySet(Converted(sets, n - 1), sets[n - 1])
  }

  // The same result described per kind instead of per step. Every function below
  // looks at the first `n` sets of a fixed sequence, so no proof has to relate
  // different slices of it.

  /** Index of the last set of the given kind among the first `n`, or -1 when there is none. */
  function LastSetOf(sets: seq<AdaptationSet>, kind: SetKind, n: nat): (k: int)
    requires n <= |sets|
    ensures -1 <= k < n
  {
    if n == 0 then -1
    else if KindOf(sets[n - 1]) == kind then n - 1
    else LastSetOf(sets, kind, n - 1)
  }

  /** `LastSetOf` finds the last set of that kind: it has the kind, and no later set among the first `n` does. */
  lemma {:induction false} LastSetOfIsLast(sets: seq<AdaptationSet>, kind: SetKind, n: nat)
    requires n <= |sets|
    ensures var k := LastSetOf(sets, kind, n);
      && (k >= 0 ==> KindOf(sets[k]) == kind)
      && (forall i | k < i < n :: KindOf(sets[i]) != kind)
  {
    if n > 0 && KindOf(sets[n - 1]) != kind {
      LastSetOfIsLast(sets, kind, n - 1);
    }
  }

  /** What one set without contentType adds to the videos; nothing for any other set. */
  function LegacyVideosOfSet(aset: AdaptationSet): seq<AvailableVideo> {
    if KindOf(aset) == UntypedSet then LegacyVideos(aset.qualities) else []
  }

  /** What one set without contentType adds to the audios; nothing for any other set. */
  function LegacyAudiosOfSet(aset: AdaptationSet): seq<AvailableAudio> {
    if KindOf(aset) == UntypedSet then LegacyAudios(aset.qualities) else []
  }

  /** The videos contributed by the sets with index in [lo, hi), in document order. */
  function LegacyVideosBetween(sets: seq<AdaptationSet>, lo: int, hi: int): seq<AvailableVideo>
    requires 0 <= lo && hi <= |sets|
    decreases hi - lo
  {
    if hi <= lo then [] else LegacyVideosBetween(sets, lo, hi - 1) + LegacyVideosOfSet(sets[hi - 1])
  }

  /** The audios contributed by the sets with index in [lo, hi), in document order. */
  function LegacyAudiosBetween(sets: seq<AdaptationSet>, lo: int, hi: int): seq<AvailableAudio>
    requires 0 <= lo && hi <= |sets|
    decreases hi - lo
  {
    if hi <= lo then [] else LegacyAudiosBetween(sets, lo, hi - 1) + LegacyAudiosOfSet(sets[hi - 1])
  }

  /** The entries of the `video` set at index `k`, none for -1. */
  function VideosOfSet(sets: seq<AdaptationSet>, k: int): seq<AvailableVideo>
    requires -1 <= k < |sets|
  {
    if k < 0 then [] else VideoSetEntries(sets[k].qualities)
  }

  /** The entries of the `audio` set at index `k`, none for -1. */
  function AudiosOfSet(sets: seq<AdaptationSet>, k: int): seq<AvailableAudio>
    requires -1 <= k < |sets|
  {
    if k < 0 then [] else AudioSetEntries(sets[k].qualities)
  }

  /**
   The videos of the first `n` sets: those of the LAST `video` set (none when there
   is none), followed by what the sets without contentType after it contribute.
   */
  function ExpectedVideos(sets: seq<AdaptationSet>, n: nat): seq<AvailableVideo>
    requires n <= |sets|
  {
    var k := LastSetOf(sets, VideoSet, n);
    VideosOfSet(sets, k) + LegacyVideosBetween(sets, k + 1, n)
  }

  /** The audios of the first `n` sets, stated like `ExpectedVideos`. */
  function ExpectedAudios(sets: seq<AdaptationSet>, n: nat): seq<AvailableAudio>
    requires n <= |sets|
  {
    var k := LastSetOf(sets, AudioSet, n);
    AudiosOfSet(sets, k) + LegacyAudiosBetween(sets, k + 1, n)
  }

  /** The media a whole manifest yields, described per kind. */
  function Expected(sets: seq<AdaptationSet>): AvailableMedia {
    AvailableMedia(ExpectedVideos(sets, |sets|), ExpectedAudios(sets, |sets|))
  }

  lemma Assoc<T>(a: seq<T>, b: seq<T>, c: seq<T>)
    ensures a + (b + c) == (a + b) + c
  {
  }

  lemma ExpectedVideosStep(sets: seq<AdaptationSet>, n: nat)
    requires n < |sets|
    ensures KindOf(sets[n]) == VideoSet ==> ExpectedVideos(sets, n + 1) == VideoSetEntries(sets[n].qualities)
    ensures KindOf(sets[n]) != VideoSet ==> ExpectedVideos(sets, n + 1) == ExpectedVideos(sets, n) + LegacyVideosOfSet(sets[n])
  {
    if KindOf(sets[n]) != VideoSet {
      var k := LastSetOf(sets, VideoSet, n);
      Assoc(VideosOfSet(sets, k), LegacyVideosBetween(sets, k + 1, n), LegacyVideosOfSet(sets[n]));
    }
  }

  lemma ExpectedAudiosStep(sets: seq<AdaptationSet>, n: nat)
    requires n < |sets|
    ensures KindOf(sets[n]) == AudioSet ==> ExpectedAudios(sets, n + 1) == AudioSetEntries(sets[n].qualities)
    ensures KindOf(sets[n]) != AudioSet ==> ExpectedAudios(sets, n + 1) == ExpectedAudios(sets, n) + LegacyAudiosOfSet(sets[n])
  {
    if KindOf(sets[n]) != AudioSet {
      var k := LastSetOf(sets, AudioSet, n);
      Assoc(AudiosOfSet(sets, k), LegacyAudiosBetween(sets, k + 1, n), LegacyAudiosOfSet(sets[n]));
    }
  }

  /** One more set changes the per-kind description exactly as one loop iteration does. */
  lemma ExpectedStep(sets: seq<AdaptationSet>, n: nat)
    requires n < |sets|
    ensures AvailableMedia(ExpectedVideos(sets, n + 1), ExpectedAudios(sets, n + 1))
         == ApplySet(AvailableMedia(ExpectedVideos(sets, n), ExpectedAudios(sets, n)), sets[n])
  {
    ExpectedVideosStep(sets, n);
    ExpectedAudiosStep(sets, n);
  }

  /** The loop computes the per-kind description. */
  lemma {:induction false} ConvertedIsExpected(sets: seq<AdaptationSet>, n: nat)
    requires n <= |sets|
    ensures Converted(sets, n) == AvailableMedia(ExpectedVideos(sets, n), ExpectedAudios(sets, n))
  {
    if n > 0 {
      ConvertedIsExpected(sets, n - 1);
      ExpectedStep(sets, n - 1);
      var before := AvailableMedia(ExpectedVideos(sets, n - 1), ExpectedAudios(sets, n - 1));
      assert Converted(sets, n) == ApplySet(before, sets[n - 1]);
    }
  }

  /** The conversion loop of `parseDashPlaylist`, over the decoded sets in document order. */
  method ConvertManifest(m: Manifest) returns (media: AvailableMedia)
    ensures media == Expected(m.sets)
    ensures |m.sets| == 0 ==> media == NoMedia
  {
    media := NoMedia;
    var i := 0;
    while i < |m.sets|
      invariant 0 <= i <= |m.sets|
      invariant media == Converted(m.sets, i)
    {
      media := ApplySet(media, m.sets[i]);
      i := i + 1;
    }
    ConvertedIsExpected(m.sets, |m.sets|);
  }

  /** `parseDashPlaylist`: a document the decoder rejects gives an error and no media. */
  method ParseDashPlaylist(decoded: Option<Manifest>) returns (media: AvailableMedia, err: Option<DashError>)
    ensures decoded.None? ==> media == NoMedia && err == Some(CannotParseXml)
    ensures decoded.Some? ==> err == None && media == Expected(decoded.value.sets)
  {
    if decoded.None? {
      return NoMedia, Some(CannotParseXml);
    }
    media := ConvertManifest(decoded.value);
    err := None;
  }

  /**
   `ParseDashPlaylistFromID`: an empty URL is refused before anything is fetched, so
   the outcome then does not depend on the response at all.
   */
  method ParseDashPlaylistFromID(dashURL: string, response: HttpResponse) returns (media: AvailableMedia, err: Option<DashError>)
    ensures dashURL == "" ==> media == NoMedia && err == Some(EmptyUrl)
    ensures dashURL != "" && response.TransportError? ==> media == NoMedia && err == Some(CannotGetUrl)
    ensures dashURL != "" && response.Response? && response.status != StatusOK ==>
      media == NoMedia && err == Some(BadStatus(response.status))
    ensures dashURL != "" && response.Response? && response.status == StatusOK && response.body.None? ==>
      media == NoMedia && err == Some(CannotParseXml)
    ensures dashURL != "" && response.Response? && response.status == StatusOK && response.body.Some? ==>
      err == None && media == Expected(response.body.value.sets)
  {
    if dashURL == "" {
      return NoMedia, Some(EmptyUrl);
    }
    match response
    case TransportError =>
      return NoMedia, Some(CannotGetUrl);
    case Response(status, body) =>
      if status != StatusOK {
        return NoMedia, Some(BadStatus(status));
      }
      media, err := ParseDashPlaylist(body);
  }

  /** The legacy example: ids VIDEO1, AUDIO1, VIDEO2 give two videos and one audio, each in order. */
  lemma LegacyManifestExample()
    ensures
      var qs := [Representation("v1", "VIDEO1", "", ""), Representation("a1", "AUDIO1", "", ""),
                 Representation("v2", "VIDEO2", "", "")];
      Expected([AdaptationSet("", qs)]) ==
        AvailableMedia([AvailableVideo("v1", Dimension(0, 0)), AvailableVideo("v2", Dimension(0, 0))], [AvailableAudio("a1")])
  {
    var qs := [Representation("v1", "VIDEO1", "", ""), Representation("a1", "AUDIO1", "", ""),
               Representation("v2", "VIDEO2", "", "")];
    assert IsLegacyVideo(qs[0]) by { assert qs[0].id[..5] == "VIDEO"; }
    assert IsLegacyVideo(qs[2]) by { assert qs[2].id[..5] == "VIDEO"; }
    assert !IsLegacyVideo(qs[1]) by { assert qs[1].id[0] != "VIDEO"[0]; }
    assert IsLegacyAudio(qs[1]) by { assert qs[1].id[..5] == "AUDIO"; }
    assert !IsLegacyAudio(qs[0]);
    assert !IsLegacyAudio(qs[2]);
    assert RepDimension(qs[0]) == Dimension(0, 0);
    assert RepDimension(qs[2]) == Dimension(0, 0);
    assert qs[1..][1..] == [qs[2]];
    assert LegacyVideos(qs[1..][1..]) == [VideoOf(qs[2])];
    assert LegacyVideos(qs[1..]) == [VideoOf(qs[2])];
    assert LegacyVideos(qs) == [VideoOf(qs[0]), VideoOf(qs[2])];
    assert LegacyAudios(qs[1..][1..]) == [];
    assert LegacyAudios(qs[1..]) == [AvailableAudio("a1")];
    assert LegacyAudios(qs) == [AvailableAudio("a1")];
    var sets := [AdaptationSet("", qs)];
    assert KindOf(sets[0]) == UntypedSet;
    assert LastSetOf(sets, VideoSet, 1) == -1;
    assert LastSetOf(sets, AudioSet, 1) == -1;
    assert LegacyVideosBetween(sets, 0, 1) == LegacyVideos(qs);
    assert LegacyAudiosBetween(sets, 0, 1) == LegacyAudios(qs);
  }

  /** The "VIDEO"/"AUDIO" prefix test is case-sensitive: a lower-case id is dropped. */
  lemma LegacyPrefixIsCaseSensitive(r: Representation)
    requires HasPrefix(r.id, "video")
    ensures !IsLegacyVideo(r) && !IsLegacyAudio(r)
  {
    assert r.id[0] == 'v';
  }
}
