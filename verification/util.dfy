/**
 Two helpers of the utility package: the compact token for a UUID (standard base64
 with padding, section 4 of RFC 4648, of its 16 bytes) and the imgur host test.
 */
module Util {
  import opened Wrappers
  import opened Text

  type byte = x: int | 0 <= x < 256

  type sextet = x: int | 0 <= x < 64

  /** A UUID is its 16 bytes. */
  type Uuid = s: seq<byte> | |s| == 16 witness seq(16, _ => 0)

  const Pad := '='

  /** The base64 alphabet of RFC 4648, section 4: A-Z, a-z, 0-9, '+' and '/'. */
  predicate InAlphabet(c: char) {
    'A' <= c <= 'Z' || 'a' <= c <= 'z' || '0' <= c <= '9' || c == '+' || c == '/'
  }

  /** The character encoding the 6-bit value `n` (Table 1 of RFC 4648). */
  function AlphabetChar(n: sextet): (c: char)
    ensures InAlphabet(c)
  {
    if n < 26 then ('A' as int + n) as char
    else if n < 52 then ('a' as int + (n - 26)) as char
    else if n < 62 then ('0' as int + (n - 52)) as char
    else if n == 62 then '+'
    else '/'
  }

  /** The 6-bit value an alphabet character stands for. */
  function SextetOf(c: char): (n: sextet)
    requires InAlphabet(c)
    ensures AlphabetChar(n) == c
  {
    if 'A' <= c <= 'Z' then c as int - 'A' as int
    else if 'a' <= c <= 'z' then c as int - 'a' as int + 26
    else if '0' <= c <= '9' then c as int - '0' as int + 52
    else if c == '+' then 62
    else 63
  }

  lemma SextetOfAlphabetChar(n: sextet)
    ensures SextetOf(AlphabetChar(n)) == n
  {
  }

  /** Number of '=' characters that close the encoding of `n` bytes. */
  function PadCount(n: nat): nat {
    if n % 3 == 0 then 0 else 3 - n % 3
  }

  /** Three bytes as four characters, 6 bits each, most significant first. */
  function EncodeGroup(b0: byte, b1: byte, b2: byte): (g: string)
    ensures |g| == 4
    ensures InAlphabet(g[0]) && InAlphabet(g[1]) && InAlphabet(g[2]) && InAlphabet(g[3])
  {
    [AlphabetChar(b0 / 4), AlphabetChar((b0 % 4) * 16 + b1 / 16),
     AlphabetChar((b1 % 16) * 4 + b2 / 64), AlphabetChar(b2 % 64)]
  }

  /** A final single byte: two characters, then "==". */
  function EncodeLastOne(b0: byte): (g: string)
    ensures |g| == 4
    ensures InAlphabet(g[0]) && InAlphabet(g[1]) && g[2] == Pad && g[3] == Pad
  {
    [AlphabetChar(b0 / 4), AlphabetChar((b0 % 4) * 16), Pad, Pad]
  }

  /** A final pair of bytes: three characters, then "=". */
  function EncodeLastTwo(b0: byte, b1: byte): (g: string)
    ensures |g| == 4
    ensures InAlphabet(g[0]) && InAlphabet(g[1]) && InAlphabet(g[2]) && g[3] == Pad
  {
    [AlphabetChar(b0 / 4), AlphabetChar((b0 % 4) * 16 + b1 / 16), AlphabetChar((b1 % 16) * 4), Pad]
  }

  /**
   `base64.StdEncoding.EncodeToString`: every 3 bytes become 4 characters; a final
   group of 1 or 2 bytes becomes 2 or 3 characters followed by "==" or "=".
   */
  function Encode(bs: seq<byte>): string
    decreases |bs|
  {
    if |bs| == 0 then []
    else if |bs| == 1 then EncodeLastOne(bs[0])
    else if |bs| == 2 then EncodeLastTwo(bs[0], bs[1])
    else EncodeGroup(bs[0], bs[1], bs[2]) + Encode(bs[3..])
  }

  lemma GroupArithmetic(n: nat)
    requires n >= 3
    ensures 4 * ((n + 2) / 3) == 4 + 4 * ((n - 3 + 2) / 3)
    ensures PadCount(n - 3) == PadCount(n)
  {
  }

  /**
   The shape of every encoding: 4 characters per started group of 3 bytes, all from
   the alphabet except the closing padding, which is as long as the last group is short.
   */
  lemma {:induction false} EncodeShape(bs: seq<byte>)
    ensures |Encode(bs)| == 4 * ((|bs| + 2) / 3)
    ensures forall i | 0 <= i < |Encode(bs)| - PadCount(|bs|) :: InAlphabet(Encode(bs)[i])
    ensures forall i | |Encode(bs)| - PadCount(|bs|) <= i < |Encode(bs)| :: Encode(bs)[i] == Pad
    decreases |bs|
  {
    if |bs| >= 3 {
      EncodeShape(bs[3..]);
      GroupArithmetic(|bs|);
      var e, rest := Encode(bs), Encode(bs[3..]);
      assert forall i | 4 <= i < |e| :: e[i] == rest[i - 4];
    }
  }

  /**
   The bit layout of section 4 of RFC 4648: the 24 bits of three bytes, most
   significant first, are the four 6-bit values of the group's characters; a
   final 1 or 2 bytes are padded with zero bits to 12 or 18 bits.
   */
  lemma GroupBits(b0: byte, b1: byte, b2: byte)
    ensures var g := EncodeGroup(b0, b1, b2);
      SextetOf(g[0]) * 262144 + SextetOf(g[1]) * 4096 + SextetOf(g[2]) * 64 + SextetOf(g[3])
        == b0 * 65536 + b1 * 256 + b2
    ensures var g := EncodeLastOne(b0);
      SextetOf(g[0]) * 64 + SextetOf(g[1]) == b0 * 16
    ensures var g := EncodeLastTwo(b0, b1);
      SextetOf(g[0]) * 4096 + SextetOf(g[1]) * 64 + SextetOf(g[2]) == (b0 * 256 + b1) * 4
  {
    SextetOfAlphabetChar(b0 / 4);
    SextetOfAlphabetChar((b0 % 4) * 16 + b1 / 16);
    SextetOfAlphabetChar((b1 % 16) * 4 + b2 / 64);
    SextetOfAlphabetChar(b2 % 64);
    SextetOfAlphabetChar((b0 % 4) * 16);
    SextetOfAlphabetChar((b1 % 16) * 4);
  }

  /** Every complete group of three bytes is encoded in place: group `i` gives characters 4i to 4i+3. */
  lemma {:induction false} EncodeGroupAt(bs: seq<byte>, i: nat)
    requires 3 * i + 3 <= |bs|
    ensures 4 * i + 4 <= |Encode(bs)|
    ensures Encode(bs)[4 * i..4 * i + 4] == EncodeGroup(bs[3 * i], bs[3 * i + 1], bs[3 * i + 2])
    decreases i
  {
    if i > 0 {
      EncodeGroupAt(bs[3..], i - 1);
      var rest := Encode(bs[3..]);
      assert Encode(bs) == EncodeGroup(bs[0], bs[1], bs[2]) + rest;
      assert Encode(bs)[4 * i..4 * i + 4] == rest[4 * (i - 1)..4 * (i - 1) + 4];
    }
  }

  /** The test vectors of section 10 of RFC 4648 for "f", "fo" and "foobar". */
  lemma EncodeKnownAnswers()
    ensures Encode([102]) == "Zg=="
    ensures Encode([102, 111]) == "Zm8="
    ensures Encode([102, 111, 111, 98, 97, 114]) == "Zm9vYmFy"
  {
  }

  /** One 4-character group: 3 bytes, or 1 or 2 bytes when the group ends in padding. */
  function DecodeGroup(c0: char, c1: char, c2: char, c3: char): Option<seq<byte>> {
    if !InAlphabet(c0) || !InAlphabet(c1) then None
    else
      var v0 := SextetOf(c0);
      var v1 := SextetOf(c1);
      var b0 := v0 * 4 + v1 / 16;
      if c2 == Pad then
        (if c3 == Pad then Some([b0]) else None)
      else if !InAlphabet(c2) then None
      else
        var v2 := SextetOf(c2);
        var b1 := (v1 % 16) * 16 + v2 / 4;
        if c3 == Pad then Some([b0, b1])
        else if !InAlphabet(c3) then None
        else Some([b0, b1, (v2 % 4) * 64 + SextetOf(c3)])
  }

  /**
   Decoding of padded base64, the inverse the token relies on; `None` for text that
   is not a sequence of 4-character groups with padding only at the very end.
   */
  function Decode(s: string): Option<seq<byte>>
    decreases |s|
  {
    if |s| == 0 then Some([])
    else if |s| < 4 then None
    else
      match DecodeGroup(s[0], s[1], s[2], s[3])
      case None => None
      case Some(g) =>
        if |g| < 3 then (if |s| == 4 then Some(g) else None)
        else
          match Decode(s[4..])
          case None => None
          case Some(rest) => Some(g + rest)
  }

  lemma SplitBytes(b0: byte, b1: byte, b2: byte)
    ensures (b0 / 4) * 4 + ((b0 % 4) * 16 + b1 / 16) / 16 == b0
    ensures (((b0 % 4) * 16 + b1 / 16) % 16) * 16 + ((b1 % 16) * 4 + b2 / 64) / 4 == b1
    ensures (((b1 % 16) * 4 + b2 / 64) % 4) * 64 + b2 % 64 == b2
  {
  }

  /** A full first group is followed by the decoding of the rest. */
  lemma DecodeFullGroup(g: string, rest: string, x: seq<byte>)
    requires |g| == 4 && DecodeGroup(g[0], g[1], g[2], g[3]) == Some(x) && |x| == 3
    requires Decode(rest).Some?
    ensures Decode(g + rest) == Some(x + Decode(rest).value)
  {
    var s := g + rest;
    assert s[0] == g[0] && s[1] == g[1] && s[2] == g[2] && s[3] == g[3];
    assert s[4..] == rest;
  }

  lemma SplitThree<T>(s: seq<T>)
    requires |s| >= 3
    ensures s == [s[0], s[1], s[2]] + s[3..]
  {
  }

  /** A last group decodes on its own. */
  lemma DecodeLastGroup(s: string, x: seq<byte>)
    requires |s| == 4 && DecodeGroup(s[0], s[1], s[2], s[3]) == Some(x)
    ensures Decode(s) == Some(x)
  {
    if |x| >= 3 {
      assert Decode(s[4..]) == Some([]);
      assert x + [] == x;
    }
  }

  lemma DecodeGroupOfEncoded(b0: byte, b1: byte, b2: byte)
    ensures var g := EncodeGroup(b0, b1, b2); DecodeGroup(g[0], g[1], g[2], g[3]) == Some([b0, b1, b2])
  {
    SextetOfAlphabetChar(b0 / 4);
    SextetOfAlphabetChar((b0 % 4) * 16 + b1 / 16);
    SextetOfAlphabetChar((b1 % 16) * 4 + b2 / 64);
    SextetOfAlphabetChar(b2 % 64);
    SplitBytes(b0, b1, b2);
  }

  lemma DecodeLastOneOfEncoded(b0: byte)
    ensures var g := EncodeLastOne(b0); DecodeGroup(g[0], g[1], g[2], g[3]) == Some([b0])
  {
    SextetOfAlphabetChar(b0 / 4);
    SextetOfAlphabetChar((b0 % 4) * 16);
    SplitBytes(b0, 0, 0);
  }

  lemma DecodeLastTwoOfEncoded(b0: byte, b1: byte)
    ensures var g := EncodeLastTwo(b0, b1); DecodeGroup(g[0], g[1], g[2], g[3]) == Some([b0, b1])
  {
    SextetOfAlphabetChar(b0 / 4);
    SextetOfAlphabetChar((b0 % 4) * 16 + b1 / 16);
    SextetOfAlphabetChar((b1 % 16) * 4);
    SplitBytes(b0, b1, 0);
  }

  lemma DecodeEncodeOne(bs: seq<byte>)
    requires |bs| == 1
    ensures Decode(Encode(bs)) == Some(bs)
  {
    DecodeLastOneOfEncoded(bs[0]);
    DecodeLastGroup(EncodeLastOne(bs[0]), [bs[0]]);
    assert bs == [bs[0]];
  }

  lemma DecodeEncodeTwo(bs: seq<byte>)
    requires |bs| == 2
    ensures Decode(Encode(bs)) == Some(bs)
  {
    DecodeLastTwoOfEncoded(bs[0], bs[1]);
    DecodeLastGroup(EncodeLastTwo(bs[0], bs[1]), [bs[0], bs[1]]);
    assert bs == [bs[0], bs[1]];
  }

  lemma DecodeEncodeCons(bs: seq<byte>)
    requires |bs| >= 3
    requires Decode(Encode(bs[3..])) == Some(bs[3..])
    ensures Decode(Encode(bs)) == Some(bs)
  {
    DecodeGroupOfEncoded(bs[0], bs[1], bs[2]);
    DecodeFullGroup(EncodeGroup(bs[0], bs[1], bs[2]), Encode(bs[3..]), [bs[0], bs[1], bs[2]]);
    SplitThree(bs);
  }

  /** Decoding undoes encoding, for byte strings of every length. */
  lemma {:induction false} DecodeEncode(bs: seq<byte>)
    ensures Decode(Encode(bs)) == Some(bs)
    decreases |bs|
  {
    if |bs| == 1 {
      DecodeEncodeOne(bs);
    } else if |bs| == 2 {
      DecodeEncodeTwo(bs);
    } else if |bs| >= 3 {
      DecodeEncode(bs[3..]);
      DecodeEncodeCons(bs);
    }
  }

  /**
   `UUIDToBase64`: 24 characters instead of the 36 of the hyphenated form, the first
   22 from the alphabet and the last two "==" (16 = 3 * 5 + 1), and the UUID can be
   read back from it.
   */
  function UUIDToBase64(id: Uuid): (token: string)
    ensures |token| == 24
    ensures forall i | 0 <= i < 22 :: InAlphabet(token[i])
    ensures token[22] == Pad && token[23] == Pad
    ensures Decode(token) == Some(id)
  {
    EncodeShape(id);
    assert 4 * ((|id| + 2) / 3) == 24 && PadCount(|id|) == 2;
    DecodeEncode(id);
    Encode(id)
  }

  /** Distinct UUIDs give distinct tokens. */
  lemma UUIDTokenInjective(a: Uuid, b: Uuid)
    requires UUIDToBase64(a) == UUIDToBase64(b)
    ensures a == b
  {
  }

  const ImgurSuffix := "imgur.com"

  /**
   `IsImgurLink`, from the host `url.Parse` found (`None` when it gave no URL):
   the host, lower-cased, ends in "imgur.com". There is no check for a dot before
   the suffix.
   */
  function IsImgurLink(host: Option<string>): (r: bool)
    ensures host.None? ==> !r
    ensures host.Some? ==>
      (r <==> |host.value| >= |ImgurSuffix| &&
              forall k | 0 <= k < |ImgurSuffix| :: LowerChar(host.value[|host.value| - |ImgurSuffix| + k]) == ImgurSuffix[k])
  {
    host.Some? && HasSuffix(Lower(host.value), ImgurSuffix)
  }

  /** Any host ending in an imgur host is an imgur host too. */
  lemma ImgurIgnoresPrefix(prefix: string, host: string)
    requires IsImgurLink(Some(host))
    ensures IsImgurLink(Some(prefix + host))
  {
    var h := prefix + host;
    forall k | 0 <= k < |ImgurSuffix|
      ensures LowerChar(h[|h| - |ImgurSuffix| + k]) == ImgurSuffix[k]
    {
      assert h[|h| - |ImgurSuffix| + k] == host[|host| - |ImgurSuffix| + k];
    }
  }

  /** Case does not matter: "I.IMGUR.COM" is an imgur host. */
  lemma ImgurUpperCase()
    ensures IsImgurLink(Some("I.IMGUR.COM"))
  {
    var h := "I.IMGUR.COM";
    assert h[2..] == "IMGUR.COM";
    assert Lower(h)[2..] == ImgurSuffix by {
      assert LowerChar('I') == 'i' && LowerChar('M') == 'm' && LowerChar('G') == 'g' && LowerChar('U') == 'u';
      assert LowerChar('R') == 'r' && LowerChar('C') == 'c' && LowerChar('O') == 'o' && LowerChar('.') == '.';
    }
  }

  /** Without a dot check, "notimgur.com" passes as well. */
  lemma ImgurNoDotCheck()
    ensures IsImgurLink(Some("notimgur.com"))
  {
    var h := "notimgur.com";
    assert Lower(h) == h;
    assert h[3..] == ImgurSuffix;
  }

  /** A truncated host, a host with a port and a missing URL are all refused. */
  lemma ImgurRejects()
    ensures !IsImgurLink(Some("imgur.co"))
    ensures !IsImgurLink(Some("i.imgur.com:443"))
    ensures !IsImgurLink(None)
  {
    var h := "i.imgur.com:443";
    assert LowerChar(h[|h| - 1]) != ImgurSuffix[8];
  }
}
