/**
 * The upload handlers and their helpers, as early-return sequences over the
 * collaborators' answers in `Outcomes`. Each handler is proved to answer
 * with the status of its stage table in `Pipeline`, to return the record
 * only on success, and to assign the record's URL field only in its last
 * stage. The `ghost` results record the effects on the world: the path the
 * probe read, the object-store PUT, the file written and the row handed to
 * `UpdateVideo`.
 */
module Handlers {
  import opened Wrappers
  import opened Base64Url
  import opened Records
  import opened Pipeline
  import MediaTypes
  import AspectRatio
  import Keys
  import Paths

  /** The configuration the handlers read. */
  datatype Config = Config(assetsRoot: string, port: string, s3Bucket: string, s3CfDistribution: string)

  /** An object-store PUT: bucket, key, content type and the file whose bytes are sent. */
  datatype PutRequest = PutRequest(bucket: string, key: string, contentType: string, bodyPath: string)

  // ----- helpers of handler_upload_thumbnail.go -----

  /**
   * `validateUserAndVideo`: bad ID 400, no token 401, invalid token 401,
   * lookup failure 500, caller not the owner 401; on success a fresh copy of
   * the record, whose owner is the caller.
   */
  method ValidateUserAndVideo(o: Outcomes) returns (rejected: Option<int>, video: Video?, userID: Option<Uuid>)
    ensures rejected.None? <==> Succeeds(OwnershipStages, o)
    ensures rejected.Some? ==> rejected.value == Status(OwnershipStages, o)
    ensures rejected.None? <==> OwnershipStop(o) == |OwnershipStages|
    ensures rejected.Some? ==> rejected.value == StatusAt(OwnershipStages, OwnershipStop(o))
    ensures video != null <==> rejected.None?
    ensures video != null ==> fresh(video) && o.lookup.Some? && video.Row() == o.lookup.value
    ensures video != null ==> userID.Some? && video.userID == userID.value && o.caller == userID
  {
    OwnershipStopIsFirstFailure(o);
    if o.videoID.None? {
      return Some(400), null, None;
    }
    if o.token.None? {
      return Some(401), null, None;
    }
    if o.caller.None? {
      return Some(401), null, None;
    }
    var caller := o.caller.value;
    if o.lookup.None? {
      return Some(500), null, None;
    }
    var row := o.lookup.value;
    if row.userID != caller {
      return Some(401), null, None;
    }
    video := new Video(row);
    rejected, userID := None, Some(caller);
  }

  /**
   * `saveThumbnailFile`: draws the random bytes, creates the file
   * `<assetsRoot>/<base64url(bytes)><ext>` and copies the upload into it.
   * `createdPath` is the file left on disk, even when the copy then fails.
   */
  method SaveThumbnailFile(assetsRoot: string, ext: string, random: Option<Bytes32>, created: bool, copied: bool)
    returns (filePath: Option<string>, ghost createdPath: Option<string>)
    requires Paths.Separator !in ext
    ensures filePath.Some? <==> random.Some? && created && copied
    ensures filePath.Some? ==> filePath.value == Keys.ThumbnailPath(assetsRoot, random.value, ext)
    ensures filePath.Some? ==> Paths.Base(filePath.value) == Encode(random.value) + ext
    ensures createdPath.Some? <==> random.Some? && created
    ensures createdPath.Some? ==> createdPath.value == Keys.ThumbnailPath(assetsRoot, random.value, ext)
  {
    if random.None? {
      return None, None;
    }
    var fileName := Keys.ThumbnailFileName(random.value, ext);
    var path := Paths.Join(assetsRoot, fileName);
    if !created {
      return None, None;
    }
    createdPath := Some(path);
    if !copied {
      return None, createdPath;
    }
    Paths.BaseOfJoin(assetsRoot, fileName);
    filePath := Some(path);
  }

  /**
   * `updateVideoThumbnail`: sets the thumbnail URL in place, then persists
   * the record; only that field changes, and it changes even when the write
   * fails.
   */
  method UpdateVideoThumbnail(port: string, video: Video, filePath: string, updated: bool)
    returns (ok: bool, ghost sent: VideoRow)
    modifies video
    ensures video.Row() == old(video.Row()).(thumbnailURL := Some(Keys.ThumbnailURL(port, filePath)))
    ensures sent == video.Row()
    ensures ok == updated
  {
    var thumbnailURL := Keys.ThumbnailURL(port, filePath);
    video.thumbnailURL := Some(thumbnailURL);
    sent := video.Row();
    ok := updated;
  }

  // ----- helpers of handler_upload_video.go -----

  /** `processVideoForFastStart`: the remuxed copy is written beside the input. */
  method ProcessVideoForFastStart(filePath: string, remuxed: bool) returns (outputPath: Option<string>)
    ensures outputPath.Some? <==> remuxed
    ensures outputPath.Some? ==> outputPath.value != filePath
    ensures outputPath.Some? ==> outputPath.value == Keys.ProcessedPath(filePath)
  {
    var output := Keys.ProcessedPath(filePath);
    if !remuxed {
      return None;
    }
    outputPath := Some(output);
  }

  /**
   * `updateVideoURL`: sets the video URL in place to
   * `https://<distribution>/<key>`, then persists the record.
   */
  method UpdateVideoURL(distribution: string, video: Video, key: string, updated: bool)
    returns (ok: bool, ghost sent: VideoRow)
    modifies video
    ensures video.Row() == old(video.Row()).(videoURL := Some(Keys.VideoURL(distribution, key)))
    ensures sent == video.Row()
    ensures ok == updated
  {
    var videoURL := Keys.VideoURL(distribution, key);
    video.videoURL := Some(videoURL);
    sent := video.Row();
    ok := updated;
  }

  // ----- the video handler -----
  // `VideoStop(o) > n` says stage `n` of `VideoStages` passed.

  /** The key the video is stored under: the orientation bucket, then the generated key. */
  function StoredKey(o: Outcomes): string
    requires VideoStop(o) > 14
  {
    AspectRatio.GetVideoAspectRatio(o.probe).value + Keys.GenerateS3Key(o.random.value)
  }

  /** The PUT the video handler issues: the remuxed file under the stored key, with the raw header as type. */
  function VideoPut(cfg: Config, o: Outcomes): PutRequest
    requires VideoStop(o) > 14
  {
    PutRequest(cfg.s3Bucket, StoredKey(o), o.form.contentType, Keys.ProcessedPath(o.tempPath.value))
  }

  /** The record after a video upload: the looked-up row with its video URL set. */
  function VideoUploaded(cfg: Config, o: Outcomes): VideoRow
    requires VideoStop(o) > 15
  {
    o.lookup.value.(videoURL := Some(Keys.VideoURL(cfg.s3CfDistribution, StoredKey(o))))
  }

  /**
   * The stored key is the orientation prefix, then the 43-character encoding
   * of the random bytes, then `.mp4`.
   */
  lemma StoredKeyShape(o: Outcomes)
    requires VideoStop(o) > 14
    ensures var key, prefix := StoredKey(o), AspectRatio.GetVideoAspectRatio(o.probe).value;
            && |key| == |prefix| + 47
            && key[..|prefix|] == prefix
            && key[|prefix|..|prefix| + 43] == Encode(o.random.value)
            && key[|prefix| + 43..] == Keys.VideoSuffix
  {
    var prefix, generated := AspectRatio.GetVideoAspectRatio(o.probe).value, Keys.GenerateS3Key(o.random.value);
    var key := prefix + generated;
    Keys.KeyEncodes(o.random.value);
    assert key[..|prefix|] == prefix;
    assert key[|prefix|..] == generated;
  }

  /** A 1280x720 upload is stored under `landscape/` with a `.mp4` name. */
  lemma LandscapeUploadKey(o: Outcomes)
    requires VideoStop(o) > 14 && o.probe == AspectRatio.Probed([AspectRatio.Stream(1280, 720)])
    ensures |StoredKey(o)| == 57
    ensures StoredKey(o)[..10] == "landscape/" && StoredKey(o)[53..] == ".mp4"
  {
    AspectRatio.OrientationExamples();
    StoredKeyShape(o);
  }

  /**
   * `handlerUploadVideo`: ownership, form, type, temp file, copy, rewind,
   * remux, open, aspect ratio, key, PUT, record update. The probe reads the
   * staged original, the PUT sends the remuxed copy, and the record's video
   * URL is assigned only after the PUT succeeded.
   */
  method HandlerUploadVideo(cfg: Config, o: Outcomes)
    returns (status: int, video: Video?,
             ghost probed: Option<string>, ghost put: Option<PutRequest>, ghost persisted: Option<VideoRow>)
    ensures status == Status(VideoStages, o)
    ensures video != null <==> status == OK
    ensures video != null ==> VideoStop(o) == |VideoStages| && fresh(video) && video.Row() == VideoUploaded(cfg, o)
    ensures probed.Some? <==> VideoStop(o) >= 13
    ensures probed.Some? ==> probed == o.tempPath
    ensures put.Some? <==> VideoStop(o) >= 15
    ensures put.Some? ==> VideoStop(o) > 14 && put.value == VideoPut(cfg, o)
    ensures persisted.Some? <==> VideoStop(o) >= 16
    ensures persisted.Some? ==> VideoStop(o) > 15 && persisted.value == VideoUploaded(cfg, o)
  {
    VideoStatuses();
    VideoStopIsFirstFailure(o);
    video, probed, put, persisted := null, None, None, None;
    var rejected, v, _ := ValidateUserAndVideo(o);
    if rejected.Some? {
      return rejected.value, null, None, None, None;
    }

    if o.form.FormUnparsable? {
      return 400, null, None, None, None;
    }
    if o.form.FileMissing? {
      return 400, null, None, None, None;
    }
    var contentType := o.form.contentType;

    if MediaTypes.ValidateVideoType(o.parseMediaType, contentType).Failure? {
      return 400, null, None, None, None;
    }

    if o.tempPath.None? {
      return 500, null, None, None, None;
    }
    var tempPath := o.tempPath.value;
    if !o.copied {
      return 500, null, None, None, None;
    }
    if !o.rewound {
      return 500, null, None, None, None;
    }

    var processedPath := ProcessVideoForFastStart(tempPath, o.remuxed);
    if processedPath.None? {
      return 500, null, None, None, None;
    }
    if !o.processedOpened {
      return 500, null, None, None, None;
    }

    probed := Some(tempPath);
    var prefix := AspectRatio.GetVideoAspectRatio(o.probe);
    if prefix.Failure? {
      return 500, null, probed, None, None;
    }

    if o.random.None? {
      return 500, null, probed, None, None;
    }
    var key := Keys.GenerateS3Key(o.random.value);
    var prefixedKey := prefix.value + key;

    put := Some(PutRequest(cfg.s3Bucket, prefixedKey, contentType, processedPath.value));
    if !o.stored {
      return 500, null, probed, put, None;
    }

    var ok, sent := UpdateVideoURL(cfg.s3CfDistribution, v, prefixedKey, o.updated);
    persisted := Some(sent);
    if !ok {
      return 500, null, probed, put, persisted;
    }
    status, video := OK, v;
  }

  // ----- the thumbnail handlers -----
  // `ThumbnailStop(o) > n` and `MonolithStop(o) > n` say stage `n` of the table passed.

  /** The extension the current thumbnail handler validated. */
  function ThumbnailExtension(o: Outcomes): (ext: string)
    requires ThumbnailStop(o) > 7
    ensures ext == ".jpg" || ext == ".png"
  {
    MediaTypes.DetermineFileExtension(o.parseMediaType, o.form.contentType).value
  }

  /** The file the current thumbnail handler writes. */
  function ThumbnailFile(cfg: Config, o: Outcomes): string
    requires ThumbnailStop(o) > 8
  {
    Keys.ThumbnailPath(cfg.assetsRoot, o.random.value, ThumbnailExtension(o))
  }

  /** The record after a thumbnail upload: the looked-up row with its thumbnail URL set. */
  function ThumbnailUploaded(cfg: Config, o: Outcomes): VideoRow
    requires ThumbnailStop(o) > 10
  {
    o.lookup.value.(thumbnailURL := Some(Keys.ThumbnailURL(cfg.port, ThumbnailFile(cfg, o))))
  }

  /**
   * `handlerUploadThumbnail`: ownership, form, extension, save, record
   * update. An unsupported type is refused before any file is written.
   */
  method HandlerUploadThumbnail(cfg: Config, o: Outcomes)
    returns (status: int, video: Video?, ghost written: Option<string>, ghost persisted: Option<VideoRow>)
    ensures status == Status(ThumbnailStages, o)
    ensures video != null <==> status == OK
    ensures video != null ==>
              ThumbnailStop(o) == |ThumbnailStages| && fresh(video) && video.Row() == ThumbnailUploaded(cfg, o)
    ensures written.Some? <==> ThumbnailStop(o) >= 10
    ensures written.Some? ==> ThumbnailStop(o) > 8 && written.value == ThumbnailFile(cfg, o)
    ensures persisted.Some? <==> ThumbnailStop(o) >= 11
    ensures persisted.Some? ==> ThumbnailStop(o) > 10 && persisted.value == ThumbnailUploaded(cfg, o)
  {
    ThumbnailStatuses();
    ThumbnailStopIsFirstFailure(o);
    video, written, persisted := null, None, None;
    var rejected, v, _ := ValidateUserAndVideo(o);
    if rejected.Some? {
      return rejected.value, null, None, None;
    }

    if o.form.FormUnparsable? {
      return 400, null, None, None;
    }
    if o.form.FileMissing? {
      return 400, null, None, None;
    }

    var fileExtension := MediaTypes.DetermineFileExtension(o.parseMediaType, o.form.contentType);
    if fileExtension.Failure? {
      return 400, null, None, None;
    }
    var ext := fileExtension.value;

    var filePath, createdPath := SaveThumbnailFile(cfg.assetsRoot, ext, o.random, o.created, o.copied);
    written := createdPath;
    if filePath.None? {
      return 500, null, written, None;
    }

    var ok, sent := UpdateVideoThumbnail(cfg.port, v, filePath.value, o.updated);
    persisted := Some(sent);
    if !ok {
      return 500, null, written, persisted;
    }
    status, video := OK, v;
  }

  /** The extension the monolith looked up from the raw header. */
  function MonolithExtension(o: Outcomes): (ext: string)
    requires MonolithStop(o) > 7
    ensures ext == ".jpg" || ext == ".png"
  {
    MediaTypes.RawHeaderExtension(o.form.contentType).value
  }

  /** The file the monolith writes: named after the video, not after random bytes. */
  function MonolithFile(cfg: Config, o: Outcomes): string
    requires MonolithStop(o) > 7
  {
    Paths.Join(cfg.assetsRoot, Keys.MonolithFileName(o.videoID.value, MonolithExtension(o)))
  }

  /** The record after a monolith upload. */
  function MonolithUploaded(cfg: Config, o: Outcomes): VideoRow
    requires MonolithStop(o) > 9
  {
    o.lookup.value.(thumbnailURL := Some(Keys.MonolithThumbnailURL(cfg.port, o.videoID.value, MonolithExtension(o))))
  }

  /**
   * The second half of `handlerUploadThumbnailMonolith`, once the caller owns
   * the video: raw-header extension, create, copy, record update. The
   * looked-up video is a local value here, not a shared record: the handler
   * sets its thumbnail URL, stores it and answers with it.
   */
  method MonolithWriteThumbnail(cfg: Config, o: Outcomes)
    returns (status: int, response: Option<VideoRow>, ghost written: Option<string>, ghost persisted: Option<VideoRow>)
    requires MonolithStop(o) >= 7
    ensures status == StatusAt(MonolithStages, MonolithStop(o))
    ensures response == if MonolithStop(o) == |MonolithStages| then Some(MonolithUploaded(cfg, o)) else None
    ensures written == if MonolithStop(o) >= 9 then Some(MonolithFile(cfg, o)) else None
    ensures persisted == if MonolithStop(o) >= 10 then Some(MonolithUploaded(cfg, o)) else None
  {
    MonolithStatuses();
    response, written, persisted := None, None, None;
    var videoID, video := o.videoID.value, o.lookup.value;
    var fileExtension := MediaTypes.RawHeaderExtension(o.form.contentType);
    if fileExtension.None? {
      return 400, None, None, None;
    }
    var ext := fileExtension.value;

    var filePath := Paths.Join(cfg.assetsRoot, Keys.MonolithFileName(videoID, ext));
    if !o.created {
      return 500, None, None, None;
    }
    written := Some(filePath);
    if !o.copied {
      return 500, None, written, None;
    }

    var thumbnailURL := Keys.MonolithThumbnailURL(cfg.port, videoID, ext);
    video := video.(thumbnailURL := Some(thumbnailURL));
    persisted := Some(video);
    if !o.updated {
      return 500, None, written, persisted;
    }
    status, response := OK, Some(video);
  }

  /**
   * `handlerUploadThumbnailMonolith`: ID, token, JWT, form, file, lookup and
   * owner, then `MonolithWriteThumbnail`. It checks the form before it looks
   * the video up, and compares owners itself.
   */
  method HandlerUploadThumbnailMonolith(cfg: Config, o: Outcomes)
    returns (status: int, response: Option<VideoRow>, ghost written: Option<string>, ghost persisted: Option<VideoRow>)
    ensures status == Status(MonolithStages, o)
    ensures response == if MonolithStop(o) == |MonolithStages| then Some(MonolithUploaded(cfg, o)) else None
    ensures written == if MonolithStop(o) >= 9 then Some(MonolithFile(cfg, o)) else None
    ensures persisted == if MonolithStop(o) >= 10 then Some(MonolithUploaded(cfg, o)) else None
  {
    MonolithStatuses();
    MonolithStopIsFirstFailure(o);
    if o.videoID.None? {
      return 400, None, None, None;
    }
    if o.token.None? {
      return 401, None, None, None;
    }
    if o.caller.None? {
      return 401, None, None, None;
    }
    var userID := o.caller.value;

    if o.form.FormUnparsable? {
      return 400, None, None, None;
    }
    if o.form.FileMissing? {
      return 400, None, None, None;
    }

    if o.lookup.None? {
      return 500, None, None, None;
    }
    if o.lookup.value.userID != userID {
      return 401, None, None, None;
    }
    status, response, written, persisted := MonolithWriteThumbnail(cfg, o);
  }
}
