/** `upload(img)`: the image is posted as a one-part multipart/form-data request to the
    image host, and the hosted URL is read back from the JSON reply. The HTTP transport
    is not modelled: the request the app writes is an output and the reply an input. */
module Upload {
  import opened Common

  const UPLOAD_URL := "https://api.resmush.it/?qlty=60"
  const HTTP_OK := 200
  const LINE_END := "\r\n"
  const TWO_HYPHENS := "--"
  const DISPOSITION_START := "Content-Disposition: form-data; name=\"files\"; filename=\""
  const CONTENT_TYPE_LINE := "Content-Type: image/jpeg"
  const QUOTE: Byte := 0x22

  /** The boundary, from one reading of the clock in milliseconds. */
  function Boundary(millis: nat): string {
    "----WebKitFormBoundary" + NatToString(millis)
  }

  /** The part's file name, from another (earlier) reading of the clock. */
  function FileName(millis: nat): string {
    "image_" + NatToString(millis) + ".jpg"
  }

  /** The value of the request's Content-Type header. */
  function ContentTypeHeader(boundary: string): string {
    "multipart/form-data; boundary=" + boundary
  }

  /** What `DataOutputStream.writeBytes(s)` sends: the low eight bits of every char. */
  function Latin1(s: string): seq<Byte> {
    seq(|s|, k requires 0 <= k < |s| => s[k] as int % 256)
  }

  /** Bytes read back as chars, one char per byte. */
  function Chars(bytes: seq<Byte>): string {
    seq(|bytes|, k requires 0 <= k < |bytes| => bytes[k] as char)
  }

  /** Every char fits in one byte, so `writeBytes` loses nothing. */
  predicate IsLatin1(s: string) {
    forall c :: c in s ==> c as int < 256
  }

  lemma Latin1Append(a: string, b: string)
    ensures Latin1(a + b) == Latin1(a) + Latin1(b)
  {
    assert forall k :: 0 <= k < |a + b| ==> Latin1(a + b)[k] == (Latin1(a) + Latin1(b))[k];
  }

  /** Chars that fit in a byte are read back as written. */
  lemma Latin1RoundTrip(s: string)
    requires IsLatin1(s)
    ensures Chars(Latin1(s)) == s
  {
    assert forall k :: 0 <= k < |s| ==> s[k] in s;
  }

  /** The body `upload` writes, in the order of its writes: the opening delimiter line,
      the part's two header lines and the blank line, the image, a line break, and the
      delimiter line once more (there is no closing `--` after it). */
  function MultipartBody(boundary: string, fileName: string, image: seq<Byte>): (r: seq<Byte>)
    ensures var head := TWO_HYPHENS + boundary + LINE_END + DISPOSITION_START + fileName + "\"" + LINE_END
                        + CONTENT_TYPE_LINE + LINE_END + LINE_END;
            && |r| == |head| + |image| + |LINE_END + TWO_HYPHENS + boundary + LINE_END|
            && r[|head|..|head| + |image|] == image
  {
    Latin1(TWO_HYPHENS + boundary + LINE_END)
    + Latin1(DISPOSITION_START + fileName + "\"" + LINE_END)
    + Latin1(CONTENT_TYPE_LINE + LINE_END + LINE_END)
    + image
    + Latin1(LINE_END)
    + Latin1(TWO_HYPHENS + boundary + LINE_END)
  }

  /** The `DataOutputStream` the body is written to: bytes only ever get appended. */
  class ByteSink {
    var written: seq<Byte>

    constructor ()
      ensures written == []
    {
      written := [];
    }

    /** `writeBytes(s)`. */
    method WriteBytes(s: string)
      modifies this
      ensures written == old(written) + Latin1(s)
    {
      written := written + Latin1(s);
    }

    /** `write(bytes)`. */
    method Write(bytes: seq<Byte>)
      modifies this
      ensures written == old(written) + bytes
    {
      written := written + bytes;
    }
  }

  /** The six writes of `upload`, in order, to a new stream. */
  method WriteBody(out: ByteSink, boundary: string, fileName: string, image: seq<Byte>)
    requires out.written == []
    modifies out
    ensures out.written == MultipartBody(boundary, fileName, image)
  {
    out.WriteBytes(TWO_HYPHENS + boundary + LINE_END);
    assert out.written == Latin1(TWO_HYPHENS + boundary + LINE_END);
    out.WriteBytes(DISPOSITION_START + fileName + "\"" + LINE_END);
    out.WriteBytes(CONTENT_TYPE_LINE + LINE_END + LINE_END);
    out.Write(image);
    out.WriteBytes(LINE_END);
    out.WriteBytes(TWO_HYPHENS + boundary + LINE_END);
  }

  // ---------------------------------------------------------------------------
  // Reading the body back: the part's file name and content, given the boundary.

  /** The first position of `b` in `bytes`. */
  function IndexOf(bytes: seq<Byte>, b: Byte): (r: Option<nat>)
    ensures r.Some? ==> r.value < |bytes| && bytes[r.value] == b &&
                        forall k :: 0 <= k < r.value ==> bytes[k] != b
    ensures r.None? ==> forall k :: 0 <= k < |bytes| ==> bytes[k] != b
  {
    if bytes == [] then None
    else if bytes[0] == b then Some(0)
    else
      var r := IndexOf(bytes[1..], b);
      if r.None? then None else Some(r.value + 1)
  }

  /** What comes before the file name. */
  function PartHead(boundary: string): seq<Byte> {
    Latin1(TWO_HYPHENS + boundary + LINE_END + DISPOSITION_START)
  }

  /** What comes between the file name and the content. */
  function PartSeparator(): seq<Byte> {
    Latin1("\"" + LINE_END + CONTENT_TYPE_LINE + LINE_END + LINE_END)
  }

  /** What comes after the content. */
  function PartTail(boundary: string): seq<Byte> {
    Latin1(LINE_END + TWO_HYPHENS + boundary + LINE_END)
  }

  /** A receiver's reading of a one-part body: the file name runs up to the first quote
      after `filename="`, the content from the blank line to the final delimiter line. */
  function ParsePart(body: seq<Byte>, boundary: string): Option<(string, seq<Byte>)> {
    var head := PartHead(boundary);
    if |body| < |head| || body[..|head|] != head then None
    else ParseNamedPart(body[|head|..], boundary)
  }

  /** The rest of the part, from the first char of the file name. */
  function ParseNamedPart(rest: seq<Byte>, boundary: string): Option<(string, seq<Byte>)> {
    var q := IndexOf(rest, QUOTE);
    if q.None? then None
    else
      var content := ParseContent(rest[q.value..], boundary);
      if content.None? then None else Some((Chars(rest[..q.value]), content.value))
  }

  /** The rest of the part, from the quote that ends the file name. */
  function ParseContent(after: seq<Byte>, boundary: string): Option<seq<Byte>> {
    var sep, tail := PartSeparator(), PartTail(boundary);
    if |after| < |sep| + |tail| || after[..|sep|] != sep || after[|after| - |tail|..] != tail then None
    else Some(after[|sep|..|after| - |tail|])
  }

  /** The body cut at the places the reader looks. */
  lemma BodySegments(boundary: string, fileName: string, image: seq<Byte>)
    ensures MultipartBody(boundary, fileName, image) ==
            PartHead(boundary) + (Latin1(fileName) + (PartSeparator() + (image + PartTail(boundary))))
  {
    RegroupBody(TWO_HYPHENS, boundary, LINE_END, DISPOSITION_START, fileName, "\"", CONTENT_TYPE_LINE, image);
  }

  /** `BodySegments` over arbitrary texts, so that the regrouping does not depend on them. */
  lemma RegroupBody(th: string, b: string, le: string, ds: string, fn: string, q: string, ct: string,
                    image: seq<Byte>)
    ensures Latin1(th + b + le) + Latin1(ds + fn + q + le) + Latin1(ct + le + le) + image
            + Latin1(le) + Latin1(th + b + le)
            == Latin1(th + b + le + ds) + (Latin1(fn) + (Latin1(q + le + ct + le + le) + (image + Latin1(le + th + b + le))))
  {
    Latin1Append(th + b + le, ds);
    Latin1Append(ds, fn);
    Latin1Append(ds + fn, q + le);
    assert ds + fn + q + le == (ds + fn) + (q + le);
    Latin1Append(q + le, ct + le + le);
    assert q + le + ct + le + le == (q + le) + (ct + le + le);
    Latin1Append(le, th + b + le);
    assert le + th + b + le == le + (th + b + le);
  }

  /** The file name is found where it was written, when it holds no quote. */
  lemma FindFileNameEnd(fileName: string, after: seq<Byte>)
    requires IsLatin1(fileName) && '"' !in fileName
    requires |after| > 0 && after[0] == QUOTE
    ensures IndexOf(Latin1(fileName) + after, QUOTE) == Some(|fileName|)
  {
    var rest := Latin1(fileName) + after;
    forall k | 0 <= k < |fileName|
      ensures rest[k] != QUOTE
    {
      assert fileName[k] in fileName;
    }
    assert rest[|fileName|] == QUOTE;
  }

  lemma ParseContentOf(image: seq<Byte>, boundary: string)
    ensures ParseContent(PartSeparator() + (image + PartTail(boundary)), boundary) == Some(image)
  {
    var sep, tail := PartSeparator(), PartTail(boundary);
    var after := sep + (image + tail);
    assert after[..|sep|] == sep;
    assert after[|after| - |tail|..] == tail;
    assert after[|sep|..|after| - |tail|] == image;
  }

  lemma ParseNamedPartOf(fileName: string, image: seq<Byte>, boundary: string)
    requires IsLatin1(fileName) && '"' !in fileName
    ensures ParseNamedPart(Latin1(fileName) + (PartSeparator() + (image + PartTail(boundary))), boundary) ==
            Some((fileName, image))
  {
    var after := PartSeparator() + (image + PartTail(boundary));
    var rest := Latin1(fileName) + after;
    assert PartSeparator()[0] == QUOTE;
    FindFileNameEnd(fileName, after);
    assert rest[..|fileName|] == Latin1(fileName);
    assert rest[|fileName|..] == after;
    ParseContentOf(image, boundary);
    Latin1RoundTrip(fileName);
  }

  /** Reading back the body `upload` writes gives the file name and the image it was
      written with. */
  lemma ParseMultipartBody(boundary: string, fileName: string, image: seq<Byte>)
    requires IsLatin1(fileName) && '"' !in fileName
    ensures ParsePart(MultipartBody(boundary, fileName, image), boundary) == Some((fileName, image))
  {
    var body := MultipartBody(boundary, fileName, image);
    var head := PartHead(boundary);
    var rest := Latin1(fileName) + (PartSeparator() + (image + PartTail(boundary)));
    BodySegments(boundary, fileName, image);
    assert body[..|head|] == head && body[|head|..] == rest;
    ParseNamedPartOf(fileName, image, boundary);
  }

  /** The names `upload` gives its part can be read back. */
  lemma FileNameIsPlain(millis: nat)
    ensures IsLatin1(FileName(millis)) && '"' !in FileName(millis)
  {
    var digits := NatToString(millis);
    assert forall c :: c in digits ==> IsDigit(c);
  }

  // ---------------------------------------------------------------------------
  // The reply.

  /** The reply body as `JSONObject(response)` sees it: not a JSON object (a JSONException
      with its message), or an object whose `dest` member is absent or has a text form. */
  datatype JsonBody = NotJson(message: Option<string>) | JsonObject(dest: Option<string>)

  /** What the connection yields: an IOException while connecting, writing or reading the
      status, or a status code with a body (read only for status 200). */
  datatype HttpReply =
    | TransportFailure(message: Option<string>)
    | Response(status: int, body: JsonBody)

  /** How `upload` ends: the hosted URL, an `Exception` (which callers catch), or the
      `java.lang.Error` it throws itself (which they do not). */
  datatype UploadResult =
    | Hosted(url: string)
    | Raised(message: Option<string>)
    | ErrorThrown(errorMessage: string)

  /** The message of the `Error` thrown for a reply without a usable `dest`. */
  function ErrorMessage(status: int): string {
    "上传失败，错误码: " + IntToString(status)
  }

  /** `optString("dest")`: the empty string when the member is absent. */
  function OptString(member: Option<string>): string {
    if member.Some? then member.value else ""
  }

  /** The outcome of `upload` for a reply. */
  function UploadVerdict(reply: HttpReply): (r: UploadResult)
    ensures r.Hosted? ==> r.url != ""
    ensures r.ErrorThrown? ==> reply.Response? && r.errorMessage == ErrorMessage(reply.status)
  {
    match reply
    case TransportFailure(message) => Raised(message)
    case Response(status, body) =>
      if status != HTTP_OK then ErrorThrown(ErrorMessage(status))
      else
        match body
        case NotJson(message) => Raised(message)
        case JsonObject(dest) =>
          if OptString(dest) != "" then Hosted(OptString(dest)) else ErrorThrown(ErrorMessage(status))
  }

  /** A URL comes back exactly when the status is 200 and `dest` is a non-empty member; the
      `Error` exactly when a status was read and one of those two fails, and its message
      carries the status; everything else is an Exception. */
  lemma UploadVerdictSpec(reply: HttpReply)
    ensures UploadVerdict(reply).Hosted? <==>
              reply.Response? && reply.status == HTTP_OK && reply.body.JsonObject? &&
              reply.body.dest.Some? && reply.body.dest.value != ""
    ensures UploadVerdict(reply).Hosted? ==> UploadVerdict(reply).url == reply.body.dest.value
    ensures UploadVerdict(reply).ErrorThrown? <==>
              reply.Response? && (reply.status != HTTP_OK ||
                                  (reply.body.JsonObject? && OptString(reply.body.dest) == ""))
    ensures UploadVerdict(reply).ErrorThrown? ==> UploadVerdict(reply).errorMessage == ErrorMessage(reply.status)
  {
  }

  /** The status can be recovered from the `Error`'s message. */
  lemma ErrorMessageInjective(a: int, b: int)
    requires ErrorMessage(a) == ErrorMessage(b)
    ensures a == b
  {
    var prefix := "上传失败，错误码: ";
    assert IntToString(a) == ErrorMessage(a)[|prefix|..];
    assert IntToString(b) == ErrorMessage(b)[|prefix|..];
    IntToStringInjective(a, b);
  }

  /** The request `upload` sends. */
  datatype Request = Request(url: string, contentType: string, body: seq<Byte>)

  /** `upload(img)`, `image` being what `img.compress(JPEG, 90)` produced and the two
      millisecond readings those of the file name and of the boundary. */
  method Upload(image: seq<Byte>, fileMillis: nat, boundaryMillis: nat, reply: HttpReply)
    returns (request: Request, result: UploadResult)
    ensures request == Request(UPLOAD_URL, ContentTypeHeader(Boundary(boundaryMillis)),
                               MultipartBody(Boundary(boundaryMillis), FileName(fileMillis), image))
    ensures result == UploadVerdict(reply)
  {
    var fileName := FileName(fileMillis);
    var boundary := Boundary(boundaryMillis);
    var out := new ByteSink();
    WriteBody(out, boundary, fileName, image);
    request := Request(UPLOAD_URL, ContentTypeHeader(boundary), out.written);
    match reply {
      case TransportFailure(message) =>
        return request, Raised(message);
      case Response(status, body) =>
        if status == HTTP_OK {
          match body {
            case NotJson(message) =>
              return request, Raised(message);
            case JsonObject(dest) =>
              var destinationUrl := OptString(dest);
              if |destinationUrl| > 0 {
                return request, Hosted(destinationUrl);
              }
          }
        }
        result := ErrorThrown(ErrorMessage(status));
    }
  }

  /** What the host receives names the image and carries it unchanged. */
  lemma UploadedPartReadsBack(image: seq<Byte>, fileMillis: nat, boundaryMillis: nat)
    ensures ParsePart(MultipartBody(Boundary(boundaryMillis), FileName(fileMillis), image),
                      Boundary(boundaryMillis)) == Some((FileName(fileMillis), image))
  {
    FileNameIsPlain(fileMillis);
    ParseMultipartBody(Boundary(boundaryMillis), FileName(fileMillis), image);
  }
}
