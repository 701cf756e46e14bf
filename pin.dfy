/**
 * The pinning endpoint: it validates an image sent as a base64 `data:` URL
 * (RFC 2397, section 3), uploads it to nft.storage and, on request, to
 * Pinata as a `multipart/form-data` body (RFC 7578, section 4.1, with the
 * delimiters of RFC 2046, section 5.1.1), and answers with the outcome.
 *
 * The network, base64 decoding, `JSON.stringify`, `JSON.parse` and the
 * random multipart boundaries are parameters of the model.
 */
module Pin {
  import opened Wrappers
  import opened Strings
  import opened JsValue

  // ---------------------------------------------------------------------
  // Bytes and their UTF-8 encoding (`Buffer.from(text, 'utf8')`)
  // ---------------------------------------------------------------------

  newtype byte = x: int | 0 <= x < 256

  /** The UTF-8 encoding of one Unicode scalar value. */
  function EncodeChar(c: char): (r: seq<byte>)
    ensures 1 <= |r| <= 4
    ensures c as int < 0x80 <==> |r| == 1
    ensures c as int < 0x80 ==> r[0] as int == c as int
  {
    var n := c as int;
    if n < 0x80 then [n as byte]
    else if n < 0x800 then
      [(0xC0 + n / 0x40) as byte, (0x80 + n % 0x40) as byte]
    else if n < 0x1_0000 then
      [(0xE0 + n / 0x1000) as byte, (0x80 + n / 0x40 % 0x40) as byte, (0x80 + n % 0x40) as byte]
    else
      [(0xF0 + n / 0x4_0000) as byte, (0x80 + n / 0x1000 % 0x40) as byte,
       (0x80 + n / 0x40 % 0x40) as byte, (0x80 + n % 0x40) as byte]
  }

  function Utf8(s: string): seq<byte>
  {
    if s == [] then [] else EncodeChar(s[0]) + Utf8(s[1..])
  }

  /** Encoding distributes over concatenation. */
  lemma {:induction false} Utf8Append(a: string, b: string)
    ensures Utf8(a + b) == Utf8(a) + Utf8(b)
  {
    if a == [] {
      assert a + b == b;
    } else {
      assert (a + b)[0] == a[0] && (a + b)[1..] == a[1..] + b;
      Utf8Append(a[1..], b);
    }
  }

  predicate IsAscii(s: string)
  {
    forall i :: 0 <= i < |s| ==> s[i] as int < 0x80
  }

  /** ASCII text encodes to one byte per character, each byte the character's code. */
  lemma {:induction false} Utf8Ascii(s: string)
    requires IsAscii(s)
    ensures |Utf8(s)| == |s|
    ensures forall i :: 0 <= i < |s| ==> Utf8(s)[i] as int == s[i] as int
  {
    if s != [] {
      Utf8Ascii(s[1..]);
      assert forall i :: 1 <= i < |s| ==> Utf8(s)[i] == Utf8(s[1..])[i - 1];
    }
  }

  predicate IsPrefix(p: seq<byte>, s: seq<byte>)
  {
    |p| <= |s| && s[..|p|] == p
  }

  predicate IsSuffix(p: seq<byte>, s: seq<byte>)
  {
    |p| <= |s| && s[|s| - |p|..] == p
  }

  // ---------------------------------------------------------------------
  // validateAndDecodeDataURL
  // ---------------------------------------------------------------------

  /** `MAX_IMAGE_SIZE`: 5 MiB. */
  const MaxImageSize: nat := 5 * 1024 * 1024

  const InvalidDataUrl := "Invalid data URL"
  const InvalidDataUrlFormat := "Invalid data URL format"
  const NotAnImage := "Data URL must be an image"
  const ImageTooLarge := "Image size exceeds maximum of 5MB"

  /** The regular-expression class `[A-Za-z-+\/]` of the MIME group. */
  predicate IsMimeChar(c: char)
  {
    ('A' <= c <= 'Z') || ('a' <= c <= 'z') || c == '-' || c == '+' || c == '/'
  }

  /** The characters that `.` does not match in a JavaScript regular expression. */
  predicate IsLineTerminator(c: char)
  {
    c == '\n' || c == '\r' || c == '\U{2028}' || c == '\U{2029}'
  }

  predicate AllMimeChars(m: string)
  {
    forall i :: 0 <= i < |m| ==> IsMimeChar(m[i])
  }

  predicate SingleLine(p: string)
  {
    forall i :: 0 <= i < |p| ==> !IsLineTerminator(p[i])
  }

  /**
   * `s` matches `^data:([A-Za-z-+\/]+);base64,(.+)$` with `mime` and
   * `payload` as the two captured groups.
   */
  ghost predicate DataUrlPattern(s: string, mime: string, payload: string)
  {
    s == "data:" + mime + ";base64," + payload
    && mime != [] && AllMimeChars(mime)
    && payload != [] && SingleLine(payload)
  }

  /** The length of the longest prefix of `s` made of MIME characters. */
  function MimeRun(s: string): (k: nat)
    ensures k <= |s| && AllMimeChars(s[..k])
    ensures k < |s| ==> !IsMimeChar(s[k])
  {
    if s == [] || !IsMimeChar(s[0]) then 0
    else
      var k := MimeRun(s[1..]);
      assert s[..k + 1] == [s[0]] + s[1..][..k];
      k + 1
  }

  lemma {:induction false} MimeRunOf(m: string, t: string)
    requires AllMimeChars(m)
    requires t != [] && !IsMimeChar(t[0])
    ensures MimeRun(m + t) == |m|
  {
    if m == [] {
      assert m + t == t;
    } else {
      assert (m + t)[1..] == m[1..] + t;
      MimeRunOf(m[1..], t);
    }
  }

  /** The regular-expression match: the MIME group and the payload group. */
  function MatchDataUrl(s: string): (r: Option<(string, string)>)
    ensures r.Some? ==> DataUrlPattern(s, r.value.0, r.value.1)
  {
    if !StartsWith(s, "data:") then None
    else
      var rest := s[5..];
      var k := MimeRun(rest);
      if k == 0 || !StartsWith(rest[k..], ";base64,") then None
      else
        var payload := rest[k + 8..];
        if payload == [] || !SingleLine(payload) then None
        else
          assert s == s[..5] + rest[..k] + rest[k..][..8] + payload;
          Some((rest[..k], payload))
  }

  /** The match is complete and its groups are unique: whatever fits the pattern is what is captured. */
  lemma MatchDataUrlComplete(s: string, mime: string, payload: string)
    requires DataUrlPattern(s, mime, payload)
    ensures MatchDataUrl(s) == Some((mime, payload))
  {
    var rest := s[5..];
    assert rest == mime + (";base64," + payload);
    MimeRunOf(mime, ";base64," + payload);
    assert rest[..|mime|] == mime;
    assert rest[|mime|..] == ";base64," + payload;
  }

  datatype DecodedImage = DecodedImage(buffer: seq<byte>, mimeType: string)

  /**
   * `validateAndDecodeDataURL(dataURL)`; `decode` stands for
   * `Buffer.from(payload, 'base64')`.
   */
  function ValidateAndDecode(dataURL: Value, decode: string -> seq<byte>): (r: Result<DecodedImage, string>)
    ensures r == Err(InvalidDataUrl) <==> !(dataURL.Str? && dataURL.s != "")
    ensures r.Ok? ==>
      && dataURL.Str? && |r.value.mimeType| + 13 <= |dataURL.s|
      && DataUrlPattern(dataURL.s, r.value.mimeType, dataURL.s[|r.value.mimeType| + 13..])
      && StartsWith(r.value.mimeType, "image/")
      && r.value.buffer == decode(dataURL.s[|r.value.mimeType| + 13..])
      && |r.value.buffer| <= MaxImageSize
  {
    if !Truthy(dataURL) || !dataURL.Str? then Err(InvalidDataUrl)
    else
      match MatchDataUrl(dataURL.s)
      case None => Err(InvalidDataUrlFormat)
      case Some((mime, payload)) =>
        if !StartsWith(mime, "image/") then Err(NotAnImage)
        else
          var buffer := decode(payload);
          if |buffer| > MaxImageSize then Err(ImageTooLarge)
          else Ok(DecodedImage(buffer, mime))
  }

  /** A string of the `data:` form is judged only by its MIME prefix and its decoded size. */
  lemma DataUrlOutcome(s: string, mime: string, payload: string, decode: string -> seq<byte>)
    requires DataUrlPattern(s, mime, payload)
    ensures ValidateAndDecode(Str(s), decode) ==
      if !StartsWith(mime, "image/") then Err(NotAnImage)
      else if |decode(payload)| > MaxImageSize then Err(ImageTooLarge)
      else Ok(DecodedImage(decode(payload), mime))
  {
    MatchDataUrlComplete(s, mime, payload);
  }

  /** A non-empty string is refused as malformed exactly when it does not fit the pattern. */
  lemma DataUrlFormat(s: string, decode: string -> seq<byte>)
    requires s != ""
    ensures ValidateAndDecode(Str(s), decode) == Err(InvalidDataUrlFormat)
      <==> forall mime, payload :: !DataUrlPattern(s, mime, payload)
  {
    forall mime, payload | DataUrlPattern(s, mime, payload)
      ensures MatchDataUrl(s) == Some((mime, payload))
    {
      MatchDataUrlComplete(s, mime, payload);
    }
  }

  /** An image of exactly the maximum size passes; one byte more is refused. */
  lemma SizeCapBoundary(s: string, mime: string, payload: string, decode: string -> seq<byte>)
    requires DataUrlPattern(s, mime, payload) && StartsWith(mime, "image/")
    ensures |decode(payload)| == MaxImageSize ==> ValidateAndDecode(Str(s), decode).Ok?
    ensures |decode(payload)| == MaxImageSize + 1 ==> ValidateAndDecode(Str(s), decode) == Err(ImageTooLarge)
  {
    DataUrlOutcome(s, mime, payload, decode);
  }

  /** A well-formed `text/plain` data URL is refused as not an image, whatever its payload. */
  lemma NonImageExample(decode: string -> seq<byte>, s: string, mime: string, payload: string)
    requires mime == "text/plain" && payload != [] && SingleLine(payload)
    requires s == "data:" + mime + ";base64," + payload
    ensures ValidateAndDecode(Str(s), decode) == Err(NotAnImage)
  {
    TextPlainMime(mime);
    DataUrlOutcome(s, mime, payload, decode);
  }

  lemma TextPlainMime(mime: string)
    requires mime == "text/plain"
    ensures AllMimeChars(mime) && mime != "" && !StartsWith(mime, "image/")
  {
    assert MimeRun(mime) == |mime| && mime[..|mime|] == mime;
    assert mime[0] == 't';
  }

  lemma PngMime(mime: string)
    requires mime == "image/png"
    ensures AllMimeChars(mime) && mime != ""
  {
    assert MimeRun(mime) == |mime| && mime[..|mime|] == mime;
  }

  /** Text without the `data:` scheme, and a data URL with an empty payload, are malformed. */
  lemma MalformedExamples(decode: string -> seq<byte>, text: string, s: string, mime: string)
    requires text == "hello"
    requires mime == "image/png" && s == "data:" + mime + ";base64,"
    ensures ValidateAndDecode(Str(text), decode) == Err(InvalidDataUrlFormat)
    ensures ValidateAndDecode(Str(s), decode) == Err(InvalidDataUrlFormat)
  {
    assert ValidateAndDecode(Str(text), decode) == Err(InvalidDataUrlFormat) by {
      assert !StartsWith(text, "data:") by { assert text[0] == 'h'; }
    }
    assert ValidateAndDecode(Str(s), decode) == Err(InvalidDataUrlFormat) by {
      PngMime(mime);
      EmptyPayload(s, mime);
    }
  }

  /** A data URL whose payload is empty does not match. */
  lemma EmptyPayload(s: string, mime: string)
    requires AllMimeChars(mime) && mime != ""
    requires s == "data:" + mime + ";base64,"
    ensures MatchDataUrl(s) == None
  {
    assert s[5..] == mime + ";base64,";
    MimeRunOf(mime, ";base64,");
    assert s[5..][|mime|..] == ";base64,";
    assert s[5..][|mime|..][8..] == [];
  }

  // ---------------------------------------------------------------------
  // Multipart bodies
  // ---------------------------------------------------------------------

  /** The delimiter line that opens every part: `--boundary` and a line break. */
  function DashBoundary(boundary: string): string
  {
    "--" + boundary + "\r\n"
  }

  /** The close delimiter that ends the body. */
  function CloseDelimiter(boundary: string): string
  {
    "\r\n--" + boundary + "--\r\n"
  }

  /** The opening delimiter and the two header lines of one part, up to its content. */
  function PartHead(boundary: string, disposition: string, contentType: string): (r: string)
    ensures StartsWith(r, DashBoundary(boundary))
  {
    var r := DashBoundary(boundary)
      + "Content-Disposition: " + disposition + "\r\n"
      + "Content-Type: " + contentType + "\r\n\r\n";
    assert r[..|DashBoundary(boundary)|] == DashBoundary(boundary);
    r
  }

  const MetaDisposition := "form-data; name=\"meta\""
  const ImageDisposition := "form-data; name=\"image\"; filename=\"image.jpg\""
  const FileDisposition := "form-data; name=\"file\"; filename=\"image.jpg\""
  const PinataMetadataDisposition := "form-data; name=\"pinataMetadata\""
  const JsonType := "application/json"

  /** The text before the image in the nft.storage body: the metadata part, then the image part's head. */
  function NftStorageHead(boundary: string, metadata: string, mimeType: string): string
  {
    PartHead(boundary, MetaDisposition, JsonType) + metadata + "\r\n"
      + PartHead(boundary, ImageDisposition, mimeType)
  }

  /** The nft.storage body: it opens with the first part's delimiter and ends with the close delimiter. */
  function NftStorageBody(boundary: string, metadata: string, mimeType: string, image: seq<byte>): (r: seq<byte>)
    ensures IsPrefix(Utf8(DashBoundary(boundary)), r) && IsSuffix(Utf8(CloseDelimiter(boundary)), r)
  {
    var head := NftStorageHead(boundary, metadata, mimeType);
    var closing := CloseDelimiter(boundary);
    assert head[..|DashBoundary(boundary)|] == PartHead(boundary, MetaDisposition, JsonType)[..|DashBoundary(boundary)|];
    Utf8Prefix(head, DashBoundary(boundary));
    assert closing[|closing| - |closing|..] == closing;
    Utf8Suffix(closing, closing);
    FramedLayout(Utf8(head), image, Utf8(closing), Utf8(DashBoundary(boundary)), Utf8(closing));
    Utf8(head) + image + Utf8(closing)
  }

  /** The text after the image in the Pinata body: the metadata part and the close delimiter. */
  function PinataTail(boundary: string, metadata: string): string
  {
    "\r\n" + PartHead(boundary, PinataMetadataDisposition, JsonType) + metadata + "\r\n"
      + "--" + boundary + "--\r\n"
  }

  /** The Pinata body: it opens with the file part's delimiter and ends with the close delimiter. */
  function PinataBody(boundary: string, metadata: string, mimeType: string, image: seq<byte>): (r: seq<byte>)
    ensures IsPrefix(Utf8(DashBoundary(boundary)), r) && IsSuffix(Utf8(CloseDelimiter(boundary)), r)
  {
    var head := PartHead(boundary, FileDisposition, mimeType);
    var tail := PinataTail(boundary, metadata);
    var closing := CloseDelimiter(boundary);
    assert tail == "\r\n" + PartHead(boundary, PinataMetadataDisposition, JsonType) + metadata + closing;
    assert tail[|tail| - |closing|..] == closing;
    Utf8Prefix(head, DashBoundary(boundary));
    Utf8Suffix(tail, closing);
    FramedLayout(Utf8(head), image, Utf8(tail), Utf8(DashBoundary(boundary)), Utf8(closing));
    Utf8(head) + image + Utf8(tail)
  }

  /** The encoding of a text starts with the encoding of each of its prefixes. */
  lemma Utf8Prefix(text: string, opening: string)
    requires StartsWith(text, opening)
    ensures IsPrefix(Utf8(opening), Utf8(text))
  {
    assert text == opening + text[|opening|..];
    Utf8Append(opening, text[|opening|..]);
  }

  /** The encoding of a text ends with the encoding of each of its suffixes. */
  lemma Utf8Suffix(text: string, closing: string)
    requires |closing| <= |text| && text[|text| - |closing|..] == closing
    ensures IsSuffix(Utf8(closing), Utf8(text))
  {
    assert text == text[..|text| - |closing|] + closing;
    Utf8Append(text[..|text| - |closing|], closing);
  }

  /** The common frame of both bodies: an opening, the raw image, a closing. */
  lemma FramedLayout(head: seq<byte>, image: seq<byte>, tail: seq<byte>, opening: seq<byte>, closing: seq<byte>)
    requires IsPrefix(opening, head) && IsSuffix(closing, tail)
    ensures var body := head + image + tail;
      && IsPrefix(opening, body)
      && IsSuffix(closing, body)
      && body[|head|..|head| + |image|] == image
      && |body| == |head| + |image| + |tail|
  {
    var body := head + image + tail;
    assert body[..|opening|] == head[..|opening|];
    assert body[|body| - |closing|..] == tail[|tail| - |closing|..];
  }

  /**
   * The nft.storage body opens with the first part's delimiter, holds the
   * image bytes untouched right after the head text, and ends with the
   * close delimiter.
   */
  lemma NftStorageBodyLayout(boundary: string, metadata: string, mimeType: string, image: seq<byte>)
    ensures var body := NftStorageBody(boundary, metadata, mimeType, image);
      var offset := |Utf8(NftStorageHead(boundary, metadata, mimeType))|;
      && IsPrefix(Utf8(DashBoundary(boundary)), body)
      && IsSuffix(Utf8(CloseDelimiter(boundary)), body)
      && body[offset..offset + |image|] == image
      && |body| == offset + |image| + |Utf8(CloseDelimiter(boundary))|
  {
    var head := NftStorageHead(boundary, metadata, mimeType);
    var first := PartHead(boundary, MetaDisposition, JsonType);
    assert head[..|DashBoundary(boundary)|] == first[..|DashBoundary(boundary)|];
    Utf8Prefix(head, DashBoundary(boundary));
    var closing := CloseDelimiter(boundary);
    assert closing[|closing| - |closing|..] == closing;
    Utf8Suffix(closing, closing);
    FramedLayout(Utf8(head), image, Utf8(closing), Utf8(DashBoundary(boundary)), Utf8(closing));
  }

  /** The same layout for the Pinata body, whose metadata part follows the image. */
  lemma PinataBodyLayout(boundary: string, metadata: string, mimeType: string, image: seq<byte>)
    ensures var body := PinataBody(boundary, metadata, mimeType, image);
      var offset := |Utf8(PartHead(boundary, FileDisposition, mimeType))|;
      && IsPrefix(Utf8(DashBoundary(boundary)), body)
      && IsSuffix(Utf8(CloseDelimiter(boundary)), body)
      && body[offset..offset + |image|] == image
      && |body| == offset + |image| + |Utf8(PinataTail(boundary, metadata))|
  {
    var tail := PinataTail(boundary, metadata);
    var closing := CloseDelimiter(boundary);
    var front := "\r\n" + PartHead(boundary, PinataMetadataDisposition, JsonType) + metadata;
    assert tail == front + closing;
    assert tail[|tail| - |closing|..] == closing;
    var head := PartHead(boundary, FileDisposition, mimeType);
    Utf8Prefix(head, DashBoundary(boundary));
    Utf8Suffix(tail, closing);
    FramedLayout(Utf8(head), image, Utf8(tail), Utf8(DashBoundary(boundary)), Utf8(closing));
  }

  /** With an ASCII boundary the close delimiter takes eight bytes more than the boundary. */
  lemma CloseDelimiterLength(boundary: string)
    requires IsAscii(boundary)
    ensures |Utf8(CloseDelimiter(boundary))| == |boundary| + 8
  {
    var c := CloseDelimiter(boundary);
    assert IsAscii(c) by {
      assert forall i :: 4 <= i < 4 + |boundary| ==> c[i] == boundary[i - 4];
    }
    Utf8Ascii(c);
  }

  // ---------------------------------------------------------------------
  // Requests: pinToNFTStorage and pinToPinata up to the network call
  // ---------------------------------------------------------------------

  /** A request handed to the network: its target, its header object and its body. */
  datatype HttpRequest = HttpRequest(
    hostname: string, path: string, httpMethod: string,
    headers: map<string, Value>, body: seq<byte>)

  /** An environment variable is usable when it is set to a non-empty string. */
  predicate Present(v: Option<string>)
  {
    v.Some? && v.value != ""
  }

  const NftKeyMissing := "NFT_STORAGE_API_KEY not configured"
  const PinataCredentialsMissing :=
    "Pinata requires either PINATA_JWT or both PINATA_API_KEY and PINATA_SECRET_API_KEY"

  /** The `multipart/form-data` content type naming the boundary. */
  function MultipartType(boundary: string): Value
  {
    Str("multipart/form-data; boundary=" + boundary)
  }

  /** The request of `pinToNFTStorage`, or the error it throws before sending one. */
  function NftStorageRequest(apiKey: Option<string>, boundary: string, metadata: string,
                             mimeType: string, image: seq<byte>): (r: Result<HttpRequest, string>)
    ensures r.Err? <==> !Present(apiKey)
    ensures r.Err? ==> r.error == NftKeyMissing
    ensures r.Ok? ==>
      && r.value.headers.Keys == {"Authorization", "Content-Type", "Content-Length"}
      && r.value.headers["Authorization"] == Str("Bearer " + apiKey.value)
      && r.value.headers["Content-Length"] == Num(|r.value.body|)
      && r.value.headers["Content-Type"] == MultipartType(boundary)
      && r.value.body == NftStorageBody(boundary, metadata, mimeType, image)
    ensures r.Ok? ==>
      r.value.hostname == "api.nft.storage" && r.value.path == "/upload" && r.value.httpMethod == "POST"
  {
    if !Present(apiKey) then Err(NftKeyMissing)
    else
      var body := NftStorageBody(boundary, metadata, mimeType, image);
      Ok(HttpRequest("api.nft.storage", "/upload", "POST",
        map["Authorization" := Str("Bearer " + apiKey.value),
            "Content-Type" := MultipartType(boundary),
            "Content-Length" := Num(|body|)],
        body))
  }

  /** `pinToNFTStorage` as written: the parts are pushed one by one and the buffers joined. */
  method BuildNftStorageRequest(apiKey: Option<string>, boundary: string, metadata: string,
                                mimeType: string, image: seq<byte>) returns (r: Result<HttpRequest, string>)
    ensures r == NftStorageRequest(apiKey, boundary, metadata, mimeType, image)
  {
    if !Present(apiKey) {
      return Err(NftKeyMissing);
    }
    var parts: seq<string> := [];
    parts := parts + [PartHead(boundary, MetaDisposition, JsonType) + metadata + "\r\n"];
    parts := parts + [PartHead(boundary, ImageDisposition, mimeType)];
    assert Concat(parts) == parts[0] + parts[1] by {
      assert parts[..1][..0] == [] && parts[..1][0] == parts[0];
      assert Concat(parts[..1]) == parts[0];
    }
    var header := Utf8(Concat(parts));
    var footer := Utf8(CloseDelimiter(boundary));
    var body := header + image + footer;
    var headers := map["Authorization" := Str("Bearer " + apiKey.value),
                       "Content-Type" := MultipartType(boundary),
                       "Content-Length" := Num(|body|)];
    r := Ok(HttpRequest("api.nft.storage", "/upload", "POST", headers, body));
  }

  /** The credentials `pinToPinata` accepts: a JWT, or both an API key and its secret. */
  predicate PinataCredentials(apiKey: Option<string>, apiSecret: Option<string>, jwt: Option<string>)
  {
    Present(jwt) || (Present(apiKey) && Present(apiSecret))
  }

  /** The request of `pinToPinata`, or the error it throws before sending one. */
  function PinataRequest(apiKey: Option<string>, apiSecret: Option<string>, jwt: Option<string>,
                         boundary: string, metadata: string, mimeType: string,
                         image: seq<byte>): (r: Result<HttpRequest, string>)
    ensures r.Err? <==> !PinataCredentials(apiKey, apiSecret, jwt)
    ensures r.Err? ==> r.error == PinataCredentialsMissing
    ensures r.Ok? ==>
      && "Content-Length" in r.value.headers
      && r.value.headers["Content-Length"] == Num(|r.value.body|)
      && "Content-Type" in r.value.headers
      && r.value.headers["Content-Type"] == MultipartType(boundary)
      && r.value.body == PinataBody(boundary, metadata, mimeType, image)
    ensures r.Ok? ==>
      r.value.hostname == "api.pinata.cloud" && r.value.path == "/pinning/pinFileToIPFS" && r.value.httpMethod == "POST"
    ensures r.Ok? ==> ("Authorization" in r.value.headers <==> Present(jwt))
    ensures r.Ok? && Present(jwt) ==>
      r.value.headers.Keys == {"Content-Type", "Content-Length", "Authorization"}
      && r.value.headers["Authorization"] == Str("Bearer " + jwt.value)
    ensures r.Ok? && !Present(jwt) ==>
      r.value.headers.Keys == {"Content-Type", "Content-Length", "pinata_api_key", "pinata_secret_api_key"}
      && r.value.headers["pinata_api_key"] == Str(apiKey.value)
      && r.value.headers["pinata_secret_api_key"] == Str(apiSecret.value)
  {
    if !PinataCredentials(apiKey, apiSecret, jwt) then Err(PinataCredentialsMissing)
    else
      var body := PinataBody(boundary, metadata, mimeType, image);
      var common := map["Content-Type" := MultipartType(boundary), "Content-Length" := Num(|body|)];
      var headers :=
        if Present(jwt) then common["Authorization" := Str("Bearer " + jwt.value)]
        else common["pinata_api_key" := Str(apiKey.value)]["pinata_secret_api_key" := Str(apiSecret.value)];
      Ok(HttpRequest("api.pinata.cloud", "/pinning/pinFileToIPFS", "POST", headers, body))
  }

  /** `pinToPinata` as written: the header object is filled in according to the credentials. */
  method BuildPinataRequest(apiKey: Option<string>, apiSecret: Option<string>, jwt: Option<string>,
                            boundary: string, metadata: string, mimeType: string,
                            image: seq<byte>) returns (r: Result<HttpRequest, string>)
    ensures r == PinataRequest(apiKey, apiSecret, jwt, boundary, metadata, mimeType, image)
  {
    var authHeader: Option<string> := if Present(jwt) then Some("Bearer " + jwt.value) else None;
    if authHeader.None? && (!Present(apiKey) || !Present(apiSecret)) {
      return Err(PinataCredentialsMissing);
    }
    var parts: seq<string> := [];
    parts := parts + [PartHead(boundary, FileDisposition, mimeType)];
    assert Concat(parts) == parts[0] by {
      assert parts[..0] == [];
    }
    var header := Utf8(Concat(parts));
    var metadataPart := Utf8(PinataTail(boundary, metadata));
    var body := header + image + metadataPart;
    var headers := map["Content-Type" := MultipartType(boundary), "Content-Length" := Num(|body|)];
    if Present(jwt) {
      headers := headers["Authorization" := Str("Bearer " + jwt.value)];
    } else {
      headers := headers["pinata_api_key" := Str(apiKey.value)];
      headers := headers["pinata_secret_api_key" := Str(apiSecret.value)];
    }
    r := Ok(HttpRequest("api.pinata.cloud", "/pinning/pinFileToIPFS", "POST", headers, body));
  }

  // ---------------------------------------------------------------------
  // Responses
  // ---------------------------------------------------------------------

  /** What the network reports for one request. */
  datatype HttpOutcome =
    | RequestFailed(message: string)
    | Responded(statusCode: int, data: string)


  /** A value inside a template literal (`${v}`); arrays are not distinguished from objects. */
  function TemplateString(v: Value): (r: string)
    ensures v.Str? ==> r == v.s
    ensures v.Num? ==> r != "" && (r[0] == '-' <==> v.n < 0)
  {
    match v
    case Undefined => "undefined"
    case Null => "null"
    case Bool(b) => if b then "true" else "false"
    case Num(n) => if n < 0 then "-" + NatString(-n) else NatString(n)
    case Str(s) => s
    case Obj(_) => "[object Object]"
  }

  /** The message of the `TypeError` thrown by reading property `key` of `null`. */
  function NullRead(key: string): string
  {
    "Cannot read properties of null (reading '" + key + "')"
  }

  predicate IsSuccess(statusCode: int)
  {
    200 <= statusCode < 300
  }

  /**
   * The settlement of `pinToNFTStorage` once the response has ended;
   * `parse` stands for `JSON.parse` and yields the message of its error.
   */
  function NftStorageResult(outcome: HttpOutcome, parse: string -> Result<Value, string>): (r: Result<Value, string>)
    ensures r.Ok? <==>
      && outcome.Responded? && IsSuccess(outcome.statusCode)
      && parse(outcome.data).Ok? && parse(outcome.data).value != Null
    ensures r.Ok? ==> var value := Field(parse(outcome.data).value, "value");
      && Field(r.value, "success") == Bool(true)
      && Field(r.value, "cid") == Field(value, "cid")
      && Field(r.value, "ipfsUrl") ==
        (if Truthy(Field(value, "url")) then Field(value, "url")
         else Str("ipfs://" + TemplateString(Field(value, "cid"))))
  {
    match outcome
    case RequestFailed(m) => Err("nft.storage request failed: " + m)
    case Responded(status, data) =>
      if !IsSuccess(status) then
        Err("nft.storage API error: " + TemplateString(Num(status)) + " - " + data)
      else
        match parse(data)
        case Err(m) => Err("Failed to parse nft.storage response: " + m)
        case Ok(result) =>
          if result == Null then Err("Failed to parse nft.storage response: " + NullRead("value"))
          else
            var value := Field(result, "value");
            var url := Field(value, "url");
            var cid := Field(value, "cid");
            Ok(Obj(map[
              "success" := Bool(true),
              "ipfsUrl" := if Truthy(url) then url else Str("ipfs://" + TemplateString(cid)),
              "cid" := cid,
              "data" := value]))
  }

  /** The settlement of `pinToPinata` once the response has ended. */
  function PinataResult(outcome: HttpOutcome, parse: string -> Result<Value, string>): (r: Result<Value, string>)
    ensures r.Ok? <==>
      && outcome.Responded? && IsSuccess(outcome.statusCode)
      && parse(outcome.data).Ok? && parse(outcome.data).value != Null
    ensures r.Ok? ==> var hash := Field(parse(outcome.data).value, "IpfsHash");
      && Field(r.value, "success") == Bool(true)
      && Field(r.value, "hash") == hash
      && Field(r.value, "ipfsUrl") == Str("ipfs://" + TemplateString(hash))
  {
    match outcome
    case RequestFailed(m) => Err("Pinata request failed: " + m)
    case Responded(status, data) =>
      if !IsSuccess(status) then
        Err("Pinata API error: " + TemplateString(Num(status)) + " - " + data)
      else
        match parse(data)
        case Err(m) => Err("Failed to parse Pinata response: " + m)
        case Ok(result) =>
          if result == Null then Err("Failed to parse Pinata response: " + NullRead("IpfsHash"))
          else
            var hash := Field(result, "IpfsHash");
            Ok(Obj(map[
              "success" := Bool(true),
              "ipfsUrl" := Str("ipfs://" + TemplateString(hash)),
              "hash" := hash,
              "data" := result]))
  }

  /** A Pinata answer carrying a string hash gives the `ipfs://` URL of that hash. */
  lemma PinataIpfsUrl(outcome: HttpOutcome, parse: string -> Result<Value, string>, hash: string)
    requires outcome.Responded? && IsSuccess(outcome.statusCode)
    requires parse(outcome.data).Ok? && Field(parse(outcome.data).value, "IpfsHash") == Str(hash)
    ensures PinataResult(outcome, parse).Ok?
    ensures Field(PinataResult(outcome, parse).value, "ipfsUrl") == Str("ipfs://" + hash)
  {
  }

  // ---------------------------------------------------------------------
  // The request handler
  // ---------------------------------------------------------------------

  datatype Request = Request(httpMethod: string, body: Value)
  datatype Response = Response(status: int, body: Value)

  /** The variables the handler reads from `process.env`. */
  datatype Env = Env(
    nftStorageKey: Option<string>, pinataApiKey: Option<string>,
    pinataSecretKey: Option<string>, pinataJwt: Option<string>)

  /** Everything outside the handler: randomness, codecs and the two services. */
  datatype World = World(
    nftBoundary: string, pinataBoundary: string,
    decode: string -> seq<byte>, stringify: Value -> string,
    parse: string -> Result<Value, string>,
    nftStorage: HttpRequest -> HttpOutcome, pinata: HttpRequest -> HttpOutcome)

  const MethodNotAllowed := "Method not allowed"
  const MissingFields := "Missing required fields: name, description, imageBase64"
  const InternalError := "Internal server error"
  const DestructureUndefined := "Cannot destructure property 'name' of 'req.body' as it is undefined."
  const DestructureNull := "Cannot destructure property 'name' of 'req.body' as it is null."

  function ErrorBody(message: string): Value
  {
    Obj(map["error" := Str(message)])
  }

  /** An answer whose body is `{ error }` with a non-empty message. */
  predicate CarriesError(resp: Response)
  {
    && resp.body.Obj? && "error" in resp.body.fields
    && resp.body.fields["error"].Str? && resp.body.fields["error"].s != ""
  }

  /** The `catch` of the handler: a 500 carrying the error's message. */
  function Failure(message: string): (r: Response)
    ensures r.status == 500 && CarriesError(r)
    ensures message != "" ==> r.body.fields["error"] == Str(message)
  {
    Response(500, ErrorBody(if message != "" then message else InternalError))
  }

  function NftMetadata(name: Value, description: Value): Value
  {
    Obj(map["name" := name, "description" := description, "image" := Str("image.jpg")])
  }

  function PinataMetadata(name: Value, description: Value): Value
  {
    Obj(map["name" := name, "keyvalues" := Obj(map["description" := description])])
  }

  /** Pinata is tried when the request asks for it and the credentials are set. */
  predicate PinataRequested(flag: Value, env: Env)
  {
    Truthy(flag) && PinataCredentials(env.pinataApiKey, env.pinataSecretKey, env.pinataJwt)
  }

  /** The entry `response.pinata`: Pinata's result, or the failure recorded in its place. */
  function PinataEntry(name: Value, description: Value, image: DecodedImage, env: Env, world: World): (r: Value)
    ensures var request := PinataRequest(env.pinataApiKey, env.pinataSecretKey, env.pinataJwt,
                                         world.pinataBoundary, world.stringify(PinataMetadata(name, description)),
                                         image.mimeType, image.buffer);
      && r.Obj?
      && (Field(r, "success") == Bool(true) <==> request.Ok? && PinataResult(world.pinata(request.value), world.parse).Ok?)
      && (Field(r, "success") != Bool(true) ==> Field(r, "success") == Bool(false) && Field(r, "error").Str?)
  {
    var metadata := world.stringify(PinataMetadata(name, description));
    match PinataRequest(env.pinataApiKey, env.pinataSecretKey, env.pinataJwt,
                        world.pinataBoundary, metadata, image.mimeType, image.buffer)
    case Err(m) => Obj(map["success" := Bool(false), "error" := Str(m)])
    case Ok(request) =>
      match PinataResult(world.pinata(request), world.parse)
      case Err(m) => Obj(map["success" := Bool(false), "error" := Str(m)])
      case Ok(v) => v
  }

  /** The handler after the method and field checks: decode, pin, and answer. */
  function PinAndRespond(name: Value, description: Value, imageBase64: Value, pinata: Value,
               env: Env, world: World): (r: Response)
    ensures r.status == 200 || r.status == 500
    ensures r.status == 200 ==>
      && ValidateAndDecode(imageBase64, world.decode).Ok?
      && Present(env.nftStorageKey)
      && r.body.Obj?
      && ("pinata" in r.body.fields <==> PinataRequested(pinata, env))
    ensures r.status == 500 ==> CarriesError(r)
  {
    match ValidateAndDecode(imageBase64, world.decode)
    case Err(m) => Failure(m)
    case Ok(image) =>
      var metadata := world.stringify(NftMetadata(name, description));
      match NftStorageRequest(env.nftStorageKey, world.nftBoundary, metadata, image.mimeType, image.buffer)
      case Err(m) => Failure(m)
      case Ok(request) =>
        match NftStorageResult(world.nftStorage(request), world.parse)
        case Err(m) => Failure(m)
        case Ok(nftResult) =>
          var entry := if PinataRequested(pinata, env) then Some(PinataEntry(name, description, image, env, world)) else None;
          Response(200, SuccessBody(nftResult, entry))
  }

  /** The body of a 200: `success`, nft.storage's result and, when Pinata was tried, its entry. */
  function SuccessBody(nftResult: Value, entry: Option<Value>): (body: Value)
    ensures body.Obj? && ("pinata" in body.fields <==> entry.Some?)
  {
    var response := map["success" := Bool(true), "nftStorage" := nftResult];
    assert "pinata" != "success" && "pinata" != "nftStorage";
    match entry
    case Some(e) => Obj(response["pinata" := e])
    case None => Obj(response)
  }

  /** The exported request handler. */
  function Handle(req: Request, env: Env, world: World): (resp: Response)
    ensures req.httpMethod != "POST" <==> resp == Response(405, ErrorBody(MethodNotAllowed))
    ensures resp.status == 400 <==>
      && req.httpMethod == "POST" && req.body != Undefined && req.body != Null
      && !(Truthy(Field(req.body, "name")) && Truthy(Field(req.body, "description"))
           && Truthy(Field(req.body, "imageBase64")))
    ensures resp.status == 200 ==>
      && Truthy(Field(req.body, "name"))
      && Truthy(Field(req.body, "description"))
      && ValidateAndDecode(Field(req.body, "imageBase64"), world.decode).Ok?
      && Present(env.nftStorageKey)
    ensures resp.status == 200 ==>
      && resp.body.Obj?
      && ("pinata" in resp.body.fields <==> PinataRequested(Field(req.body, "pinata"), env))
    ensures resp.status in {200, 400, 405, 500}
    ensures resp.status != 200 ==> CarriesError(resp)
    ensures req.httpMethod == "POST" && req.body == Undefined ==> resp == Failure(DestructureUndefined)
    ensures req.httpMethod == "POST" && req.body == Null ==> resp == Failure(DestructureNull)
  {
    if req.httpMethod != "POST" then Response(405, ErrorBody(MethodNotAllowed))
    else if req.body == Undefined then Failure(DestructureUndefined)
    else if req.body == Null then Failure(DestructureNull)
    else
      var name := Field(req.body, "name");
      var description := Field(req.body, "description");
      var imageBase64 := Field(req.body, "imageBase64");
      if !Truthy(name) || !Truthy(description) || !Truthy(imageBase64) then
        Response(400, ErrorBody(MissingFields))
      else PinAndRespond(name, description, imageBase64, Field(req.body, "pinata"), env, world)
  }

  /** Whenever the handler tries Pinata, the credential check inside `pinToPinata` passes. */
  lemma PinataCredentialsNeverFail(name: Value, description: Value, image: DecodedImage,
                                   flag: Value, env: Env, world: World)
    requires PinataRequested(flag, env)
    ensures PinataRequest(env.pinataApiKey, env.pinataSecretKey, env.pinataJwt, world.pinataBoundary,
      world.stringify(PinataMetadata(name, description)), image.mimeType, image.buffer).Ok?
  {
  }

  /** A failed Pinata upload is recorded in the answer, which is still a success. */
  lemma PinataFailureRecorded(req: Request, env: Env, world: World, image: DecodedImage, nftRequest: HttpRequest, message: string)
    requires req.httpMethod == "POST" && req.body.Obj?
    requires Truthy(Field(req.body, "name")) && Truthy(Field(req.body, "description"))
    requires ValidateAndDecode(Field(req.body, "imageBase64"), world.decode) == Ok(image)
    requires NftStorageRequest(env.nftStorageKey, world.nftBoundary,
      world.stringify(NftMetadata(Field(req.body, "name"), Field(req.body, "description"))),
      image.mimeType, image.buffer) == Ok(nftRequest)
    requires NftStorageResult(world.nftStorage(nftRequest), world.parse).Ok?
    requires PinataRequested(Field(req.body, "pinata"), env)
    requires var pinataRequest := PinataRequest(env.pinataApiKey, env.pinataSecretKey, env.pinataJwt,
        world.pinataBoundary,
        world.stringify(PinataMetadata(Field(req.body, "name"), Field(req.body, "description"))),
        image.mimeType, image.buffer);
      pinataRequest.Ok? && PinataResult(world.pinata(pinataRequest.value), world.parse) == Err(message)
    ensures Handle(req, env, world).status == 200
    ensures Field(Handle(req, env, world).body, "pinata") ==
      Obj(map["success" := Bool(false), "error" := Str(message)])
  {
  }

  /** Without an nft.storage key every well-formed request fails with that message. */
  lemma MissingNftKeyFails(req: Request, env: Env, world: World)
    requires req.httpMethod == "POST" && req.body.Obj?
    requires Truthy(Field(req.body, "name")) && Truthy(Field(req.body, "description"))
    requires ValidateAndDecode(Field(req.body, "imageBase64"), world.decode).Ok?
    requires !Present(env.nftStorageKey)
    ensures Handle(req, env, world) == Response(500, ErrorBody(NftKeyMissing))
  {
  }
}
