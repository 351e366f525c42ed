/** The image upload service of the main process: an image given as an URL
    is kept, anything else is posted to Imgur as base64 text, and whenever
    the upload does not give a link the image is "stored locally" instead,
    which means turned into a `data:` URL.

    The outside world is an input: the outcome of the HTTP request to Imgur
    (`ImgurOutcome`), reading a file (`readFile`, returning its bytes or the
    error it threw) and the base64 encoding of bytes (`base64`). */
module ImageUpload {
  import opened Wrappers
  import opened JsString
  import opened JsPath

  newtype byte = x: int | 0 <= x < 256

  const ImgurClientId: string := "f3d04c1c4f9cf25"
  /** The placeholder that stands for "no client id configured". */
  const PlaceholderClientId: string := "REMPLACEZ_PAR_VOTRE_CLIENT_ID"
  const UnknownErrorMessage: string := "Erreur inconnue"
  const DefaultMimeType: string := "application/octet-stream"

  /** `{success, url?, error?}` */
  datatype UploadResult = UploadResult(success: bool, url: Option<string>, error: Option<string>)

  /** The `data` member of a parsed Imgur reply: missing, or an object with
      a `link` member that may itself be missing. */
  datatype ImgurData = NoData | Data(link: Option<string>)

  /** What the request to Imgur gave: it rejected (network error), or a
      response arrived whose body either is not JSON (`response.json()`
      rejects) or is an object with a `success` member and a `data` member. */
  datatype ImgurOutcome =
    | RequestFailed
    | Responded(ok: bool, body: Option<ImgurBody>)

  datatype ImgurBody = ImgurBody(success: bool, data: ImgurData)

  // ---------------------------------------------------------------------------
  // MIME types and data URLs

  /** The MIME type of a lower-case extension. */
  function MimeOfExtension(ext: string): (m: string)
    ensures ';' !in m && ',' !in m
  {
    if ext == ".jpg" || ext == ".jpeg" then "image/jpeg"
    else if ext == ".png" then "image/png"
    else if ext == ".gif" then "image/gif"
    else if ext == ".webp" then "image/webp"
    else DefaultMimeType
  }

  /** `getMimeType(filePath)`: from the extension of the path, ignoring case. */
  function GetMimeType(filePath: string): (m: string)
    ensures m == DefaultMimeType || StartsWith(m, "image/")
    ensures ';' !in m && ',' !in m
  {
    MimeOfExtension(ToLower(Extname(filePath)))
  }

  lemma ToLowerIdempotent(s: string)
    ensures ToLower(ToLower(s)) == ToLower(s)
  {
  }

  /** Two paths that differ only in the case of ASCII letters have the same
      MIME type. */
  lemma MimeTypeIgnoresCase(p: string, q: string)
    requires ToLower(p) == ToLower(q)
    ensures GetMimeType(p) == GetMimeType(q)
  {
    ExtnameLower(p);
    ExtnameLower(q);
    ToLowerIdempotent(Extname(p));
    ToLowerIdempotent(Extname(q));
  }

  /** The table of known extensions, in either case. */
  lemma MimeTypeTable(filePath: string)
    ensures var e := ToLower(Extname(filePath));
      && (GetMimeType(filePath) == "image/jpeg" <==> e == ".jpg" || e == ".jpeg")
      && (GetMimeType(filePath) == "image/png" <==> e == ".png")
      && (GetMimeType(filePath) == "image/gif" <==> e == ".gif")
      && (GetMimeType(filePath) == "image/webp" <==> e == ".webp")
      && (GetMimeType(filePath) == DefaultMimeType <==>
            e != ".jpg" && e != ".jpeg" && e != ".png" && e != ".gif" && e != ".webp")
  {
  }

  const Base64Marker: string := ";base64,"

  /** `createDataURL`: `data:<mime>;base64,<text>`. */
  function CreateDataUrl(base64Text: string, mimeType: string): (url: string)
    ensures |url| == |mimeType| + |Base64Marker| + |base64Text| + 5
    ensures StartsWith(url, "data:") && url[5..5 + |mimeType|] == mimeType
    ensures |url| >= |base64Text| && url[|url| - |base64Text|..] == base64Text
  {
    "data:" + mimeType + Base64Marker + base64Text
  }

  /** Reads a base64 `data:` URL back into its MIME type and its text. */
  function ParseDataUrl(url: string): (r: Option<(string, string)>)
    ensures !StartsWith(url, "data:") ==> r.None?
    ensures r.Some? ==> CreateDataUrl(r.value.1, r.value.0) == url
  {
    if StartsWith(url, "data:") then
      var rest := url[5..];
      var k := IndexOf(rest, Base64Marker);
      if k < 0 then None
      else
        DataUrlOfParts(url, k);
        Some((rest[..k], rest[k + |Base64Marker|..]))
    else None
  }

  /** A `data:` URL whose text after the scheme holds the marker at `k`
      is the data URL of what lies before and after the marker. */
  lemma DataUrlOfParts(url: string, k: nat)
    requires StartsWith(url, "data:") && OccursAt(url[5..], Base64Marker, k)
    ensures CreateDataUrl(url[5..][k + |Base64Marker|..], url[5..][..k]) == url
  {
    var rest := url[5..];
    var a, b := rest[..k], rest[k + |Base64Marker|..];
    assert rest == a + rest[k..k + |Base64Marker|] + b;
    assert url == url[..5] + rest;
  }

  /** A data URL gives back the MIME type and text it was made from, for any
      MIME type without `;` (the ones this service produces have none). */
  lemma DataUrlRoundTrip(base64Text: string, mimeType: string)
    requires ';' !in mimeType
    ensures ParseDataUrl(CreateDataUrl(base64Text, mimeType)) == Some((mimeType, base64Text))
  {
    var url := CreateDataUrl(base64Text, mimeType);
    assert StartsWith(url, "data:");
    var rest := url[5..];
    assert rest == mimeType + Base64Marker + base64Text;
    assert OccursAt(rest, Base64Marker, |mimeType|);
    forall j | 0 <= j < |mimeType| ensures !OccursAt(rest, Base64Marker, j) {
      assert rest[j] == mimeType[j];
    }
    var k := IndexOf(rest, Base64Marker);
    assert k == |mimeType|;
    assert rest[..k] == mimeType;
    assert rest[k + |Base64Marker|..] == base64Text;
  }

  // ---------------------------------------------------------------------------
  // Uploading

  /** What is posted as `image`: for a `data:image` URL the text between its
      first and second commas (`undefined`, so no `image` member, when it has
      no comma), otherwise the input itself. */
  function UploadPayload(imageData: string): (r: Option<string>)
    ensures !StartsWith(imageData, "data:image") ==> r == Some(imageData)
    ensures StartsWith(imageData, "data:image") ==> (r.None? <==> ',' !in imageData)
    ensures StartsWith(imageData, "data:image") && r.Some? ==>
      ',' !in r.value && forall x :: x in r.value ==> x in imageData
  {
    if StartsWith(imageData, "data:image") then
      var parts := Split(imageData, ',');
      SplitManyIff(imageData, ',');
      if |parts| > 1 then Some(parts[1]) else None
    else Some(imageData)
  }

  /** For every `data:image` input with a comma, the payload is the text
      between the first comma and the next one, or the end. Every such input
      is `head + "," + b` or `head + "," + b + "," + tail` with `head` and
      `b` free of commas. */
  lemma {:induction false} UploadPayloadField(head: string, b: string, tail: string)
    requires StartsWith(head, "data:image")
    requires ',' !in head && ',' !in b
    ensures UploadPayload(head + "," + b) == Some(b)
    ensures UploadPayload(head + "," + b + "," + tail) == Some(b)
  {
    var one := head + "," + b;
    var two := one + "," + tail;
    assert one == head + [','] + b && two == one + [','] + tail;
    assert one[..|"data:image"|] == head[..|"data:image"|];
    assert two[..|"data:image"|] == head[..|"data:image"|];
    SplitWithoutSeparator(head, ',');
    SplitWithoutSeparator(b, ',');
    SplitConcat(head, b, ',');
    SplitConcat(one, tail, ',');
  }

  /** The payload of a base64 image data URL is its base64 text. */
  lemma DataUrlPayload(base64Text: string, mimeType: string)
    requires StartsWith(mimeType, "image")
    requires ',' !in mimeType && ',' !in base64Text
    ensures UploadPayload(CreateDataUrl(base64Text, mimeType)) == Some(base64Text)
  {
    var head := "data:" + mimeType + ";base64";
    assert CreateDataUrl(base64Text, mimeType) == head + [','] + base64Text;
    assert ',' !in head;
    SplitConcat(head, base64Text, ',');
    SplitWithoutSeparator(head, ',');
    SplitWithoutSeparator(base64Text, ',');
    assert StartsWith(head + [','] + base64Text, "data:image") by {
      assert (head + [','] + base64Text)[..10] == "data:" + mimeType[..5];
    }
  }

  /** Whether an Imgur client id is configured. */
  predicate Configured(clientId: string) {
    clientId != "" && clientId != PlaceholderClientId
  }

  /** `storeImageLocally(imageData)`: a `data:image` URL and any input that
      does not start with `file:` are usable as they are; a `file:` input is
      read (after removing the first `file://`) and becomes a data URL; a
      failure to read it gives `{success: false, url: ''}` with the error's
      message. */
  function StoreImageLocally(imageData: string, readFile: string -> Result<seq<byte>>,
                             base64: seq<byte> -> string): (r: UploadResult)
    ensures r.url.Some?
    ensures r.success <==> r.error.None?
    ensures !r.success ==> r.url == Some("")
  {
    if StartsWith(imageData, "data:image") then UploadResult(true, Some(imageData), None)
    else if StartsWith(imageData, "file:") then
      var filePath := ReplaceFirst(imageData, "file://", "");
      match readFile(filePath)
      case Success(data) =>
        UploadResult(true, Some(CreateDataUrl(base64(data), GetMimeType(filePath))), None)
      case Failure(e) =>
        UploadResult(false, Some(""), Some(MessageOr(e, UnknownErrorMessage)))
    else UploadResult(true, Some(imageData), None)
  }

  /** Anything that is neither a `file:` input nor readable by the
      application is returned unchanged and successfully. */
  lemma StoreLocallyUnchanged(imageData: string, readFile: string -> Result<seq<byte>>,
                              base64: seq<byte> -> string)
    requires StartsWith(imageData, "data:image") || !StartsWith(imageData, "file:")
    ensures StoreImageLocally(imageData, readFile, base64) == UploadResult(true, Some(imageData), None)
  {
  }

  /** A `file://` URL is read at the path after the scheme and becomes a
      data URL of that file's contents, with the MIME type of its
      extension; an unreadable file gives the failure. */
  lemma StoreLocallyFile(path: string, readFile: string -> Result<seq<byte>>,
                         base64: seq<byte> -> string)
    ensures var r := StoreImageLocally("file://" + path, readFile, base64);
      && (readFile(path).Success? ==>
            r == UploadResult(true, Some(CreateDataUrl(base64(readFile(path).value), GetMimeType(path))), None)
            && ParseDataUrl(r.url.value) == Some((GetMimeType(path), base64(readFile(path).value))))
      && (readFile(path).Failure? ==>
            r == UploadResult(false, Some(""), Some(MessageOr(readFile(path).error, UnknownErrorMessage))))
  {
    var s := "file://" + path;
    assert StartsWith(s, "file:") && !StartsWith(s, "data:image") by {
      assert s[..5] == "file:";
      assert s[0] == 'f';
    }
    ReplaceFirstOfPrefix(s, "file://");
    assert s[|"file://"|..] == path;
    if readFile(path).Success? {
      DataUrlRoundTrip(base64(readFile(path).value), GetMimeType(path));
    }
  }

  /** `uploadImageToImgur(imageData)` with the given client id. */
  function UploadWith(clientId: string, imageData: string, imgur: ImgurOutcome,
                      readFile: string -> Result<seq<byte>>, base64: seq<byte> -> string): (r: UploadResult)
    ensures r.success <==> r.error.None?
    ensures !r.success ==> r.url == Some("") && StartsWith(imageData, "file:")
  {
    if StartsWith(imageData, "http") then UploadResult(true, Some(imageData), None)
    else if !Configured(clientId) then StoreImageLocally(imageData, readFile, base64)
    else match imgur
      case Responded(true, Some(ImgurBody(true, Data(link)))) => UploadResult(true, link, None)
      case _ => StoreImageLocally(imageData, readFile, base64)
  }

  /** Whether `uploadImageToImgur` sends a request to Imgur, and with which
      `image` member. */
  function RequestPayload(clientId: string, imageData: string): (r: Option<Option<string>>)
    ensures r.Some? <==> Configured(clientId) && !StartsWith(imageData, "http")
    ensures r.Some? ==> r.value == UploadPayload(imageData)
  {
    if StartsWith(imageData, "http") || !Configured(clientId) then None
    else Some(UploadPayload(imageData))
  }

  /** When no request is sent, Imgur's answer plays no part in the result. */
  lemma NoRequestIgnoresImgur(clientId: string, imageData: string, o1: ImgurOutcome, o2: ImgurOutcome,
                              readFile: string -> Result<seq<byte>>, base64: seq<byte> -> string)
    requires RequestPayload(clientId, imageData).None?
    ensures UploadWith(clientId, imageData, o1, readFile, base64)
         == UploadWith(clientId, imageData, o2, readFile, base64)
  {
  }

  /** `uploadImageToImgur(imageData)` */
  function UploadImage(imageData: string, imgur: ImgurOutcome,
                       readFile: string -> Result<seq<byte>>, base64: seq<byte> -> string): (r: UploadResult)
    ensures r.success <==> r.error.None?
    ensures !r.success ==> r.url == Some("") && StartsWith(imageData, "file:")
  {
    UploadWith(ImgurClientId, imageData, imgur, readFile, base64)
  }

  /** An URL (anything starting with `http`) is returned as is, with no
      request. */
  lemma UploadKeepsUrls(imageData: string, imgur: ImgurOutcome,
                        readFile: string -> Result<seq<byte>>, base64: seq<byte> -> string)
    requires StartsWith(imageData, "http")
    ensures UploadImage(imageData, imgur, readFile, base64) == UploadResult(true, Some(imageData), None)
    ensures RequestPayload(ImgurClientId, imageData) == None
  {
  }

  /** The client id is configured, so the local-only branch is never taken:
      every other input is posted to Imgur. */
  lemma UploadAlwaysRequests(imageData: string)
    requires !StartsWith(imageData, "http")
    ensures Configured(ImgurClientId)
    ensures RequestPayload(ImgurClientId, imageData) == Some(UploadPayload(imageData))
  {
  }

  /** Without a configured client id everything but an URL is stored locally. */
  lemma UnconfiguredStoresLocally(clientId: string, imageData: string, imgur: ImgurOutcome,
                                  readFile: string -> Result<seq<byte>>, base64: seq<byte> -> string)
    requires !Configured(clientId) && !StartsWith(imageData, "http")
    ensures UploadWith(clientId, imageData, imgur, readFile, base64)
         == StoreImageLocally(imageData, readFile, base64)
    ensures RequestPayload(clientId, imageData) == None
  {
  }

  /** The upload gives Imgur's link only for an OK response whose body
      reports success and has a `data` object; a failed request, a non-OK
      response, a body that is not JSON, an unsuccessful body and a body
      without `data` (reading its `link` throws) all give exactly what
      storing locally gives. */
  lemma UploadFallsBack(imageData: string, imgur: ImgurOutcome,
                        readFile: string -> Result<seq<byte>>, base64: seq<byte> -> string)
    requires !StartsWith(imageData, "http")
    ensures var r := UploadImage(imageData, imgur, readFile, base64);
      && (imgur.Responded? && imgur.ok && imgur.body.Some? && imgur.body.value.success
          && imgur.body.value.data.Data? ==>
            r == UploadResult(true, imgur.body.value.data.link, None))
      && (!(imgur.Responded? && imgur.ok && imgur.body.Some? && imgur.body.value.success
            && imgur.body.value.data.Data?) ==>
            r == StoreImageLocally(imageData, readFile, base64))
  {
  }

  /** The result of an upload is successful unless it fell back to storing a
      file that could not be read; a failed result carries an error and the
      empty URL. */
  lemma UploadFailureOnlyFromFile(imageData: string, imgur: ImgurOutcome,
                                  readFile: string -> Result<seq<byte>>, base64: seq<byte> -> string)
    ensures var r := UploadImage(imageData, imgur, readFile, base64);
      !r.success ==>
        (&& StartsWith(imageData, "file:") && !StartsWith(imageData, "data:image")
         && readFile(ReplaceFirst(imageData, "file://", "")).Failure?
         && r.url == Some("") && r.error.Some?)
  {
  }
}
