/** The request the handler sends to the chat-completions endpoint
    (server.js): a system message and a user message whose content is the
    bare prompt, or the prompt followed by one data URI per image. */
module Outbound {
  import opened Common
  import JsText
  import opened ServerInput

  datatype ContentPart = TextPart(text: string) | ImageUrlPart(url: string)

  /** The `content` of the user message: a plain string or an array of parts. */
  datatype UserContent = PlainText(text: string) | Parts(parts: seq<ContentPart>)

  datatype OutboundRequest = OutboundRequest(
    model: string,
    jsonMode: bool,
    system: string,
    user: UserContent,
    temperature: real)

  const ModelName: string := "gpt-4o"
  const Temperature: real := 0.3

  const DataScheme: string := "data:"
  const Base64Marker: string := ";base64,"

  /** `data:${img.mimeType};base64,${img.base64}`. */
  function DataUri(img: ImagePayload): string {
    DataScheme + img.mimeType + Base64Marker + img.base64
  }

  /** Reads a data URI back: the MIME type runs up to the first `;`, which must
      open the base64 marker. */
  function ParseDataUri(u: string): Option<ImagePayload> {
    if |u| < |DataScheme| || u[..|DataScheme|] != DataScheme then None
    else
      var rest := u[|DataScheme|..];
      match JsText.FirstIndexOf(rest, ';')
      case None => None
      case Some(k) =>
        if |rest| - k < |Base64Marker| || rest[k..k + |Base64Marker|] != Base64Marker then None
        else Some(ImagePayload(rest[..k], rest[k + |Base64Marker|..]))
  }

  /** A data URI is read back to the image it was built from whenever the MIME
      type has no `;` (the client always sends image/jpeg). */
  lemma DataUriRoundTrip(img: ImagePayload)
    requires ';' !in img.mimeType
    ensures ParseDataUri(DataUri(img)) == Some(img)
  {
    var u := DataUri(img);
    var rest := img.mimeType + Base64Marker + img.base64;
    assert u[..|DataScheme|] == DataScheme;
    assert u[|DataScheme|..] == rest;
    var k := |img.mimeType|;
    assert rest[k] == ';';
    assert rest[..k] == img.mimeType;
    var r := JsText.FirstIndexOf(rest, ';');
    assert r.Some?;
    forall m | 0 <= m < k ensures rest[m] != ';' {
      assert rest[m] == img.mimeType[m];
    }
    assert r.value == k;
    assert rest[k..k + |Base64Marker|] == Base64Marker;
    assert rest[k + |Base64Marker|..] == img.base64;
  }

  /** The image parts of a content array, one per image, in order. */
  function ImageParts(images: seq<ImagePayload>): (ps: seq<ContentPart>)
    ensures |ps| == |images|
    ensures forall i :: 0 <= i < |images| ==> ps[i] == ImageUrlPart(DataUri(images[i]))
  {
    seq(|images|, i requires 0 <= i < |images| => ImageUrlPart(DataUri(images[i])))
  }

  /** The user message content. */
  function UserContentFor(prompt: string, images: Option<seq<ImagePayload>>): (c: UserContent)
    ensures c.PlainText? <==> !HasImages(images)
    ensures c.PlainText? ==> c.text == prompt
    ensures c.Parts? ==> |c.parts| == 1 + |images.value| && c.parts[0] == TextPart(prompt)
    ensures c.Parts? ==> forall i :: 0 <= i < |images.value| ==> c.parts[i + 1] == ImageUrlPart(DataUri(images.value[i]))
  {
    if HasImages(images) then Parts([TextPart(prompt)] + ImageParts(images.value))
    else PlainText(prompt)
  }

  /** The images carried by image parts, in order; `None` if a part is not a
      readable data URI. */
  function ImagesOfParts(ps: seq<ContentPart>): Option<seq<ImagePayload>> {
    if |ps| == 0 then Some([])
    else if !ps[0].ImageUrlPart? then None
    else
      match ParseDataUri(ps[0].url)
      case None => None
      case Some(img) =>
        match ImagesOfParts(ps[1..])
        case None => None
        case Some(rest) => Some([img] + rest)
  }

  /** What a reader of the user message recovers: the prompt and the images. */
  function Attachments(c: UserContent): Option<(string, seq<ImagePayload>)> {
    match c
    case PlainText(t) => Some((t, []))
    case Parts(ps) =>
      if |ps| == 0 || !ps[0].TextPart? then None
      else match ImagesOfParts(ps[1..])
        case None => None
        case Some(imgs) => Some((ps[0].text, imgs))
  }

  lemma {:induction false} ImagePartsRoundTrip(images: seq<ImagePayload>)
    requires forall i :: 0 <= i < |images| ==> ';' !in images[i].mimeType
    ensures ImagesOfParts(ImageParts(images)) == Some(images)
    decreases |images|
  {
    if |images| > 0 {
      DataUriRoundTrip(images[0]);
      assert ImageParts(images)[1..] == ImageParts(images[1..]);
      ImagePartsRoundTrip(images[1..]);
      assert images == [images[0]] + images[1..];
    }
  }

  /** The user message loses nothing: the prompt and every image, in the order
      given, are read back from it (no images when `images` is absent or empty). */
  lemma UserContentRoundTrip(prompt: string, images: Option<seq<ImagePayload>>)
    requires images.Some? ==> forall i :: 0 <= i < |images.value| ==> ';' !in images.value[i].mimeType
    ensures Attachments(UserContentFor(prompt, images))
      == Some((prompt, if HasImages(images) then images.value else []))
  {
    if HasImages(images) {
      var ps := [TextPart(prompt)] + ImageParts(images.value);
      assert ps[1..] == ImageParts(images.value);
      ImagePartsRoundTrip(images.value);
    }
  }
}
