/**
 * The content-type allow-lists: `validateVideoType` and
 * `determineFileExtension` match the media type that `mime.ParseMediaType`
 * extracts from the `Content-Type` header, while the older monolithic
 * thumbnail handler looks the raw header string up in its table.
 *
 * `mime.ParseMediaType` is a parameter: a function from the header to the
 * lower-cased media type without parameters, or `None` when it cannot parse.
 */
module MediaTypes {
  import opened Wrappers

  type MediaTypeParser = string -> Option<string>

  datatype MediaError =
    | InvalidContentType              // the header did not parse
    | UnsupportedMediaType(mediaType: string)

  /** The video allow-list: media type to extension. */
  const VideoExtensions: map<string, string> := map["video/mp4" := ".mp4"]

  /** The thumbnail allow-list, shared by both thumbnail handlers. */
  const ImageExtensions: map<string, string> := map["image/jpeg" := ".jpg", "image/png" := ".png"]

  /** Accepts exactly the headers whose media type is `video/mp4`. */
  function ValidateVideoType(parse: MediaTypeParser, contentType: string): (r: Result<(), MediaError>)
    ensures r.Success? <==> parse(contentType) == Some("video/mp4")
    ensures parse(contentType) == None ==> r == Failure(InvalidContentType)
    ensures forall t :: parse(contentType) == Some(t) && t != "video/mp4" ==> r == Failure(UnsupportedMediaType(t))
  {
    match parse(contentType)
    case None => Failure(InvalidContentType)
    case Some(mediaType) =>
      if mediaType in VideoExtensions then Success(()) else Failure(UnsupportedMediaType(mediaType))
  }

  /** The extension of an accepted thumbnail: `.jpg` for JPEG, `.png` for PNG, nothing else. */
  function DetermineFileExtension(parse: MediaTypeParser, contentType: string): (r: Result<string, MediaError>)
    ensures r == Success(".jpg") <==> parse(contentType) == Some("image/jpeg")
    ensures r == Success(".png") <==> parse(contentType) == Some("image/png")
    ensures r.Success? ==> r.value == ".jpg" || r.value == ".png"
    ensures parse(contentType) == None ==> r == Failure(InvalidContentType)
    ensures forall t :: parse(contentType) == Some(t) && t != "image/jpeg" && t != "image/png" ==>
              r == Failure(UnsupportedMediaType(t))
  {
    match parse(contentType)
    case None => Failure(InvalidContentType)
    case Some(mediaType) =>
      if mediaType in ImageExtensions then Success(ImageExtensions[mediaType])
      else Failure(UnsupportedMediaType(mediaType))
  }

  /** The monolithic handler's lookup of the raw header: only the two bare types pass. */
  function RawHeaderExtension(contentType: string): (r: Option<string>)
    ensures r.Some? ==> r.value == ".jpg" || r.value == ".png"
  {
    if contentType in ImageExtensions then Some(ImageExtensions[contentType]) else None
  }

  /** The raw lookup accepts exactly the two bare header strings. */
  lemma RawHeaderExtensionCases(contentType: string)
    ensures RawHeaderExtension(contentType) == Some(".jpg") <==> contentType == "image/jpeg"
    ensures RawHeaderExtension(contentType) == Some(".png") <==> contentType == "image/png"
  {
  }

  /**
   * A header that carries parameters (or differs from the bare type in any
   * other way, say in letter case) but parses to an allowed image type is
   * accepted by `determineFileExtension` and rejected by the monolith.
   */
  lemma DecoratedHeaderRejectedOnlyByMonolith(parse: MediaTypeParser, contentType: string, mediaType: string)
    requires parse(contentType) == Some(mediaType)
    requires mediaType in ImageExtensions
    requires contentType != "image/jpeg" && contentType != "image/png"
    ensures DetermineFileExtension(parse, contentType) == Success(ImageExtensions[mediaType])
    ensures RawHeaderExtension(contentType) == None
  {
  }

  /** A JPEG header with a charset parameter. */
  lemma CharsetParameterExample(parse: MediaTypeParser)
    requires parse("image/jpeg; charset=x") == Some("image/jpeg")
    ensures DetermineFileExtension(parse, "image/jpeg; charset=x") == Success(".jpg")
    ensures RawHeaderExtension("image/jpeg; charset=x") == None
  {
    DecoratedHeaderRejectedOnlyByMonolith(parse, "image/jpeg; charset=x", "image/jpeg");
  }

  /** On a bare allowed type that the parser returns unchanged, the two lookups agree. */
  lemma BareHeaderAcceptedByBoth(parse: MediaTypeParser, contentType: string)
    requires contentType == "image/jpeg" || contentType == "image/png"
    requires parse(contentType) == Some(contentType)
    ensures DetermineFileExtension(parse, contentType).Success?
    ensures RawHeaderExtension(contentType) == Some(DetermineFileExtension(parse, contentType).value)
  {
  }
}
