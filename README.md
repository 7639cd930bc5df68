# Upload handlers of the Tubely file-storage service, in Dafny

This project models the two upload handlers of the service:
`handler_upload_video.go` and `handler_upload_thumbnail.go`. The video
handler stages an MP4 upload, remuxes it for fast start, classifies its
aspect ratio, stores it in the object store under a random key and records
the public URL. The thumbnail handlers save an image under `assetsRoot` and
record its URL. Two of them do this: the current one, built on helpers, and
the older monolithic one.

Every collaborator the handlers call is reduced to its answer. This covers
UUID parsing, bearer-token extraction, JWT validation, the database, the
multipart form, temporary and asset files, `ffmpeg`, `ffprobe`, the random
source and the object store. All of these answers come together in one
value, `Pipeline.Outcomes`. `mime.ParseMediaType` becomes a function
parameter.

The modules are:

- `Base64Url`: the unpadded URL-safe base64 of section 5 of RFC 4648. The
  random names are built from it. A decoder is its partner.
- `Paths`: `filepath.Join` and `filepath.Base` on slash-separated paths.
- `MediaTypes`: the three content-type allow-lists.
- `AspectRatio`: the orientation classifier, in exact reals and in an
  integer form proved equal.
- `Keys`: the object key, the video URL, the remux output path, and the
  thumbnail file names, paths and URLs.
- `Records`: the video record. A `Video` class holds the copy the current
  handlers update in place. A `VideoRow` value is the record as stored.
- `Pipeline`: each handler as a table of stages. The first failing stage
  decides the HTTP status, and no later stage runs. Each handler's own chain
  of early returns (`VideoStop`, …) is proved to stop at that first failure.
- `Handlers`: the handlers and their helpers as imperative early-return
  methods. Each is proved to answer with its table's status. Each returns
  the record only on success. Ghost results record the effects on the
  world: the path probed, the PUT sent, the file written and the row
  persisted. Each of these is stated exactly, together with the stages
  after which it happens.

The record's video URL is `https://<distribution>/<prefix><key>`. It
is the stored key, not the URL, that begins with the orientation prefix,
such as `landscape/`. The probe reads the staged original, not the remuxed
copy.

## Model

| member | source | states |
|---|---|---|
| Base64Url.Encode | handler_upload_video.go:174 | the encoding of n bytes has (8n+5)/6 characters, all from the URL-safe alphabet, with no padding |
| Base64Url.Decode | handler_upload_video.go:174 | decoding succeeds exactly on strings of alphabet characters whose length is not 1 modulo 4 |
| Base64Url.DecodeCharsEncode | handler_upload_video.go:174 | by induction on groups of three bytes: every encoding has an admissible length and decodes back to its bytes |
| Base64Url.DecodeEncode | handler_upload_video.go:174 | round trip: decoding an encoding gives back the bytes |
| Base64Url.EncodeInjective | handler_upload_thumbnail.go:129-137 | distinct byte strings have distinct encodings |
| Base64Url.EncodeBytes32 | handler_upload_video.go:170-174 | 32 random bytes encode to 43 characters with no `/`, `+` or `=` |
| Paths.TrimTrailingSeparators | handler_upload_thumbnail.go:138 | the result is a prefix of the path with no trailing separator, and only separators were removed |
| Paths.LastElement | handler_upload_thumbnail.go:153 | the result is a separator-free suffix of the path that is either the whole path or starts right after a separator: the last element |
| Paths.Join | handler_upload_thumbnail.go:138 | with an empty root the name alone; otherwise the root without its trailing separators, one separator, then the name |
| Paths.Base | handler_upload_thumbnail.go:153 | `filepath.Base` never returns the empty string |
| Paths.LastElementAfterSeparator | handler_upload_thumbnail.go:153 | the last element of a path that ends in a separator followed by a separator-free name is that name |
| Paths.BaseOfJoin | handler_upload_thumbnail.go:136-153 | for every root, the base of the joined path is the file name that was joined |
| MediaTypes.ValidateVideoType | handler_upload_video.go:128-145 | success exactly when the parsed media type is `video/mp4`; an unparsable header and every other type are the matching errors |
| MediaTypes.DetermineFileExtension | handler_upload_thumbnail.go:107-125 | `.jpg` exactly for `image/jpeg`, `.png` exactly for `image/png`; an unparsable header and every other type are the matching errors |
| MediaTypes.RawHeaderExtension | handler_upload_thumbnail.go:211-221 | the monolith's raw lookup yields only `.jpg` or `.png` |
| MediaTypes.RawHeaderExtensionCases | handler_upload_thumbnail.go:211-221 | the raw lookup gives `.jpg` exactly for the header `image/jpeg` and `.png` exactly for `image/png` |
| MediaTypes.DecoratedHeaderRejectedOnlyByMonolith | handler_upload_thumbnail.go:217-221 | a header that parses to an allowed type but is not the bare type is accepted by `determineFileExtension` and rejected by the monolith |
| MediaTypes.CharsetParameterExample | handler_upload_thumbnail.go:217-221 | `image/jpeg; charset=x` gets `.jpg` from `determineFileExtension` and is rejected by the monolith |
| MediaTypes.BareHeaderAcceptedByBoth | handler_upload_thumbnail.go:107-125 | on a bare allowed header both lookups agree on the extension |
| AspectRatio.Classify | handler_upload_video.go:235-244 | the 16:9, 9:16 and 1:1 windows of width 0.1 are disjoint; each bucket is chosen exactly inside its own window, and other outside all three |
| AspectRatio.GetVideoAspectRatio | handler_upload_video.go:202-245 | a failed probe, an empty stream list and a zero width or height are the three errors; otherwise `landscape/`, `portrait/` and `square/` exactly when the first stream's width/height lies within 0.1 of 16/9, 9/16 and 1, and `other/` exactly when it lies in none of those windows |
| AspectRatio.OnlyFirstStreamConsulted | handler_upload_video.go:226-232 | probes that agree on the first stream classify alike |
| AspectRatio.NearAsIntegers | handler_upload_video.go:232-240 | \|w/h − p/q\| < 0.1 exactly when 10·\|q·w − p·h\| < q·\|h\| |
| AspectRatio.ClassifyMatchesDimensions | handler_upload_video.go:231-244 | the real-valued classifier equals the division-free integer classifier |
| AspectRatio.OrientationExamples | handler_upload_video.go:231-244 | 1920×1080 and 1280×720 are landscape, 1080×1920 portrait, 1000×1000 square, 1280×400 other |
| Records.Video.constructor | handler_upload_thumbnail.go:77-89 | the in-memory copy holds exactly the fetched row |
| Keys.GenerateS3Key | handler_upload_video.go:169-175 | the key is 47 characters and ends with `.mp4` |
| Keys.GeneratedKeyDecodes | handler_upload_video.go:169-175 | the first 43 characters are URL-safe and decode to the random bytes; the key holds no `/`, `+` or `=` |
| Keys.DistinctBytesDistinctKeys | handler_upload_video.go:169-175 | distinct random bytes give distinct keys |
| Keys.VideoURL | handler_upload_video.go:193 | the URL carries the distribution after the scheme and ends with the key |
| Keys.VideoURLShape | handler_upload_video.go:192-194 | the URL is `https://<distribution>/`, then the prefix, then the encoding of the random bytes, then `.mp4` |
| Keys.ProcessedPath | handler_upload_video.go:247-248 | the remux output extends the input path, so it is never the input itself |
| Keys.ThumbnailFileName | handler_upload_thumbnail.go:135-137 | the encoded name plus a separator-free extension is a single path element |
| Keys.ThumbnailPath | handler_upload_thumbnail.go:136-138 | the base of the saved path is the generated file name |
| Keys.ThumbnailURL | handler_upload_thumbnail.go:153 | the URL carries the port and ends with the base name of the file path |
| Keys.SavedThumbnailURL | handler_upload_thumbnail.go:136-154 | the URL of a saved thumbnail is `http://localhost:<port>/assets/<encoding><ext>` and ends with the validated extension |
| Keys.DistinctBytesDistinctThumbnails | handler_upload_thumbnail.go:127-138 | distinct random bytes give distinct thumbnail paths under the same root |
| Keys.MonolithFileName | handler_upload_thumbnail.go:223-224 | the monolith's `<videoID><ext>` is a single path element |
| Keys.MonolithThumbnailURL | handler_upload_thumbnail.go:242 | the URL carries the port and ends with the video's ID followed by the extension |
| Keys.MonolithURLMatchesItsFile | handler_upload_thumbnail.go:223-243 | the monolith's directly formatted URL is the URL `updateVideoThumbnail` would derive from the file it writes |
| Pipeline.Fails | handler_upload_video.go:22-111 | the video type check fails exactly on a file part whose parsed type is not `video/mp4`; the image check exactly on one that is neither `image/jpeg` nor `image/png`; the monolith's raw check exactly on a header that is neither bare type; the probe stage exactly when there is no first stream with nonzero dimensions |
| Pipeline.StatusOf | handler_upload_video.go:22-111 | every failing stage answers 400, 401 or 500 |
| Pipeline.OwnershipStop | handler_upload_thumbnail.go:57-90 | `validateUserAndVideo`'s early returns, as the index of the stage they stop at |
| Pipeline.VideoStop | handler_upload_video.go:22-111 | `handlerUploadVideo`'s early returns, as the index of the stage they stop at |
| Pipeline.ThumbnailStop | handler_upload_thumbnail.go:19-53 | `handlerUploadThumbnail`'s early returns, as the index of the stage they stop at |
| Pipeline.MonolithStop | handler_upload_thumbnail.go:163-252 | `handlerUploadThumbnailMonolith`'s early returns, as the index of the stage they stop at |
| Pipeline.VideoStagesListed | handler_upload_video.go:22-111 | the video handler's 17 stages in order: ownership, form, file, type, temp file, copy, rewind, remux, open, probe, random bytes, PUT, update |
| Pipeline.ThumbnailStagesListed | handler_upload_thumbnail.go:19-53 | the current thumbnail handler's 12 stages in order |
| Pipeline.MonolithStagesListed | handler_upload_thumbnail.go:163-252 | the monolith's 11 stages in order, with the form read before the lookup |
| Pipeline.FirstFailure | handler_upload_video.go:22-111 | the index of the first failing stage: every earlier stage passed, and it failed unless it is the end |
| Pipeline.Status | handler_upload_video.go:22-111 | the status is 200, 400, 401 or 500, and 200 exactly when every stage passed |
| Pipeline.Attempted | handler_upload_video.go:22-111 | the stages that ran are a prefix of the table |
| Pipeline.PassedThroughEach | handler_upload_video.go:22-111 | passing the first n stages one after the other is passing each of them |
| Pipeline.StatusAt | handler_upload_video.go:22-111 | a run stopped at position n answers 200 exactly when n is the end of the table |
| Pipeline.HaltedAtFirstFailure | handler_upload_video.go:22-111 | a run that passed every stage before n and failed at n stopped at the first failure and answers with n's status |
| Pipeline.RanIffPassedThrough | handler_upload_video.go:22-111 | a stage ran exactly when every stage before it passed |
| Pipeline.AttemptedBeforePassed | handler_upload_video.go:22-111 | a stage that ran before another one passed |
| Pipeline.FirstFailureConcat | handler_upload_video.go:24-33 | running two tables in a row is running the first and then, if it all passed, the second |
| Pipeline.OwnershipFirst | handler_upload_video.go:24-27 | when the ownership check fails, both current handlers answer with its status and run nothing after it |
| Pipeline.OwnershipStatuses | handler_upload_thumbnail.go:57-90 | bad ID 400, missing token 401, invalid JWT 401, failed lookup 500, and success exactly when the record's owner is the caller |
| Pipeline.NonOwnerIsUnauthorized | handler_upload_thumbnail.go:84-87 | a caller who does not own the video gets 401 from both current handlers, whatever else the request holds |
| Pipeline.MonolithChecksFormBeforeOwner | handler_upload_thumbnail.go:183-210 | a non-owner with a malformed form gets 400 from the monolith but 401 from the current thumbnail handler |
| Pipeline.UnsupportedThumbnailWritesNothing | handler_upload_thumbnail.go:33-38 | an unsupported thumbnail type is 400, and no random bytes, file or update stage runs |
| Pipeline.UnsupportedVideoStagesNothing | handler_upload_video.go:36-40 | an unsupported video type is 400, and nothing is staged, remuxed, stored or updated |
| Pipeline.UpdateOnlyAfterStore | handler_upload_video.go:89-97 | the record update runs only after the PUT ran and succeeded |
| Pipeline.OwnershipStopIsFirstFailure | handler_upload_thumbnail.go:57-90 | `validateUserAndVideo` stops at the first failing ownership stage and answers with its status |
| Pipeline.VideoStopIsFirstFailure | handler_upload_video.go:22-111 | `handlerUploadVideo` stops at the first failing stage of its table and answers with its status |
| Pipeline.ThumbnailStopIsFirstFailure | handler_upload_thumbnail.go:19-53 | `handlerUploadThumbnail` stops at the first failing stage of its table and answers with its status |
| Pipeline.MonolithStopIsFirstFailure | handler_upload_thumbnail.go:163-252 | the monolith stops at the first failing stage of its table and answers with its status |
| Pipeline.VideoStatuses | handler_upload_video.go:22-111 | the video handler's status at each stop position |
| Pipeline.ThumbnailStatuses | handler_upload_thumbnail.go:19-53 | the current thumbnail handler's status at each stop position |
| Pipeline.MonolithStatuses | handler_upload_thumbnail.go:163-252 | the monolith's status at each stop position |
| Handlers.ValidateUserAndVideo | handler_upload_thumbnail.go:57-90 | rejects with the ownership table's status; on success returns a fresh copy of the fetched row, whose owner is the caller |
| Handlers.SaveThumbnailFile | handler_upload_thumbnail.go:127-150 | returns `<root>/<encoding><ext>` exactly when bytes, creation and copy all succeed, and its base is `<encoding><ext>`; the file exists once it was created, even when the copy then fails |
| Handlers.UpdateVideoThumbnail | handler_upload_thumbnail.go:152-161 | only the thumbnail URL changes, even when the write fails, and the row sent is the updated row |
| Handlers.ProcessVideoForFastStart | handler_upload_video.go:247-263 | an output path exactly when the remux succeeds: the input plus `.processing`, never the input |
| Handlers.UpdateVideoURL | handler_upload_video.go:192-200 | only the video URL changes, to `https://<distribution>/<key>`, and the row sent is the updated row |
| Handlers.StoredKeyShape | handler_upload_video.go:79-87 | the stored key is the orientation prefix, the 43-character encoding of the bytes, then `.mp4` |
| Handlers.LandscapeUploadKey | handler_upload_video.go:71-87 | a 1280×720 upload is stored under a key that starts with `landscape/` and ends with `.mp4` |
| Handlers.HandlerUploadVideo | handler_upload_video.go:22-111 | answers with the table's status; returns the record only on success, with its URL set from the stored key; probes the staged original after the remux; PUTs the remuxed file under prefix+key; persists only after the PUT |
| Handlers.ThumbnailExtension | handler_upload_thumbnail.go:33-38 | the validated extension is `.jpg` or `.png` |
| Handlers.HandlerUploadThumbnail | handler_upload_thumbnail.go:19-53 | answers with the table's status; returns the record only on success, with only its thumbnail URL changed; writes a file only after ownership, form and type passed |
| Handlers.MonolithExtension | handler_upload_thumbnail.go:211-221 | the raw-header extension is `.jpg` or `.png` |
| Handlers.MonolithWriteThumbnail | handler_upload_thumbnail.go:211-251 | after the owner check: the status of the remaining stages, the `<videoID><ext>` file written once created, and the updated value persisted and returned |
| Handlers.HandlerUploadThumbnailMonolith | handler_upload_thumbnail.go:163-252 | answers with its table's status, checking the form before the lookup; the response, the file written and the row persisted are exactly those of the stage it reached |

## Left out

- HTTP plumbing is left out: request parsing, `http.MaxBytesReader`'s 1 GiB cap, `ParseMultipartForm`'s 10 MiB memory limit, `respondWithJSON` and `respondWithError`. Each is a status code or a form outcome.
- `processVideoUpload`, `processThumbnailUpload`, `createTempFile`, `saveToTempFile` and `uploadToS3` are stages of the handler tables (form, file, temp file, copy, rewind, PUT), not methods of their own. Each makes one or two collaborator calls (`ParseMultipartForm` and `FormFile`; `io.Copy` and `Seek`), each call is a stage of its own, and the handler methods carry them inline.
- `ffprobe` and `ffmpeg` run in other processes. What they produce, after the in-process JSON decoding of the probe output, is a probe result (stream list or failure) and a remux success flag.
- The object store, the database, `auth.GetBearerToken` and `auth.ValidateJWT` are not part of this model. Their answers are inputs.
- `crypto/rand` is an input: any 32 bytes, or a failure.
- `mime.ParseMediaType` is an arbitrary function parameter. Its grammar is not modelled.
- AspectRatio.Classify: uses exact real division where the source uses float64. The two can differ only at exact window boundaries.
- Paths.Join: does not apply `filepath.Clean` to the root, beyond removing trailing separators. `.` and `..` elements and doubled separators inside the root are kept. `BaseOfJoin` holds either way, because the joined name is a path element (`IsElement`), which excludes `.` and `..`. The handlers only join names of 43 encoded characters or a 36-character UUID followed by an extension.
- Records.Uuid: is the 36-character lower-case text form, not the 16-byte value. The monolith's `uuid.Parse(userID.String())` cannot fail, so its owner check is a plain comparison.
- Records.VideoRow: holds only the fields the handlers read or write (id, owner, thumbnail URL, video URL).
- File contents, `io.Copy`, `Seek` and the deferred `Close` and `os.Remove` calls are not modelled. Only whether each step succeeded, and which paths were created, are kept.
- Base64Url.Decode: is a partner definition used for the round-trip and injectivity proofs. It is not Go's decoder, which the handlers never call.
- The commented-out presigned-URL code is dead and is not modelled.
- Handlers.HandlerUploadThumbnailMonolith: is proved in two methods, with `MonolithWriteThumbnail` covering the stages after the owner check. The source is one function.
