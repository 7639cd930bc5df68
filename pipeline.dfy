/**
 * The handlers as short-circuiting stage sequences. Each handler runs a
 * fixed list of stages; the first stage whose collaborator fails decides
 * the HTTP status and no later stage runs. This module states that as a
 * table: the stages of each handler, when each stage fails, and the status
 * each failure answers with. The tables are the reference: each `*Stop`
 * function transcribes one handler's chain of early returns and is proved
 * equal to its table's first failure, and the methods in `Handlers` are
 * proved to answer with their table's status.
 */
module Pipeline {
  import opened Wrappers
  import opened Base64Url
  import Records
  import MediaTypes
  import AspectRatio

  /** What the multipart form gave: it did not parse, it lacks the file field, or the part's `Content-Type` header. */
  datatype FormResult = FormUnparsable | FileMissing | FilePart(contentType: string)

  /**
   * The answers of every collaborator one request meets: path-value UUID
   * parsing, bearer-token extraction, JWT validation, the record lookup, the
   * multipart form, the temporary file, copying, rewinding, the remux, opening
   * its output, the probe, the random source, file creation, the object-store
   * PUT and the record update; and `mime.ParseMediaType`, which the type
   * checks apply to the part's header.
   */
  datatype Outcomes = Outcomes(
    videoID: Option<Records.Uuid>,
    token: Option<string>,
    caller: Option<Records.Uuid>,
    lookup: Option<Records.VideoRow>,
    form: FormResult,
    tempPath: Option<string>,
    copied: bool,
    rewound: bool,
    remuxed: bool,
    processedOpened: bool,
    probe: AspectRatio.ProbeResult,
    random: Option<Bytes32>,
    created: bool,
    stored: bool,
    updated: bool,
    parseMediaType: MediaTypes.MediaTypeParser)

  datatype Stage =
    | ParseVideoID | FindBearerToken | ValidateJWT | GetVideo | CheckOwner
    | ParseForm | FindFile
    | CheckVideoType | CheckImageType | CheckRawImageType
    | CreateTempFile | CopyToTemp | RewindTemp | Remux | OpenProcessed | ProbeAspectRatio
    | DrawRandomBytes | CreateFile | CopyToFile
    | PutObject | UpdateVideo

  /**
   * Whether a stage fails, given the collaborators' answers. The type checks
   * fail exactly when a file part is present and its type is off the
   * allow-list; the probe stage fails exactly when it yields no usable first
   * stream.
   */
  predicate Fails(s: Stage, o: Outcomes)
    ensures s == CheckVideoType ==>
              (Fails(s, o) <==> o.form.FilePart? && o.parseMediaType(o.form.contentType) != Some("video/mp4"))
    ensures s == CheckImageType ==>
              (Fails(s, o) <==> o.form.FilePart? && o.parseMediaType(o.form.contentType) != Some("image/jpeg")
                                                  && o.parseMediaType(o.form.contentType) != Some("image/png"))
    ensures s == CheckRawImageType ==>
              (Fails(s, o) <==> o.form.FilePart? && o.form.contentType != "image/jpeg" && o.form.contentType != "image/png")
    ensures s == ProbeAspectRatio ==>
              (Fails(s, o) <==> !(o.probe.Probed? && |o.probe.streams| > 0
                                  && o.probe.streams[0].width != 0 && o.probe.streams[0].height != 0))
  {
    match s
    case ParseVideoID => o.videoID.None?
    case FindBearerToken => o.token.None?
    case ValidateJWT => o.caller.None?
    case GetVideo => o.lookup.None?
    case CheckOwner => o.lookup.Some? && o.caller.Some? && o.lookup.value.userID != o.caller.value
    case ParseForm => o.form.FormUnparsable?
    case FindFile => o.form.FileMissing?
    case CheckVideoType => o.form.FilePart? && MediaTypes.ValidateVideoType(o.parseMediaType, o.form.contentType).Failure?
    case CheckImageType => o.form.FilePart? && MediaTypes.DetermineFileExtension(o.parseMediaType, o.form.contentType).Failure?
    case CheckRawImageType => o.form.FilePart? && MediaTypes.RawHeaderExtension(o.form.contentType).None?
    case CreateTempFile => o.tempPath.None?
    case CopyToTemp => !o.copied
    case RewindTemp => !o.rewound
    case Remux => !o.remuxed
    case OpenProcessed => !o.processedOpened
    case ProbeAspectRatio => AspectRatio.GetVideoAspectRatio(o.probe).Failure?
    case DrawRandomBytes => o.random.None?
    case CreateFile => !o.created
    case CopyToFile => !o.copied
    case PutObject => !o.stored
    case UpdateVideo => !o.updated
  }

  /** The status a failing stage answers with: 400 for a bad request, 401 for identity, 500 for the rest. */
  function StatusOf(s: Stage): (status: int)
    ensures status in {400, 401, 500}
  {
    match s
    case ParseVideoID | ParseForm | FindFile | CheckVideoType | CheckImageType | CheckRawImageType => 400
    case FindBearerToken | ValidateJWT | CheckOwner => 401
    case _ => 500
  }

  const OK: int := 200

  /** `validateUserAndVideo`. */
  const OwnershipStages: seq<Stage> := [ParseVideoID, FindBearerToken, ValidateJWT, GetVideo, CheckOwner]

  /** `handlerUploadVideo`: the remux runs before the probe, and the probe reads the staged original. */
  const VideoStages: seq<Stage> := OwnershipStages + [
    ParseForm, FindFile, CheckVideoType, CreateTempFile, CopyToTemp, RewindTemp,
    Remux, OpenProcessed, ProbeAspectRatio, DrawRandomBytes, PutObject, UpdateVideo]

  /** `handlerUploadThumbnail`; `saveThumbnailFile` draws the bytes, creates the file and copies. */
  const ThumbnailStages: seq<Stage> := OwnershipStages + [
    ParseForm, FindFile, CheckImageType, DrawRandomBytes, CreateFile, CopyToFile, UpdateVideo]

  /** `handlerUploadThumbnailMonolith`: the form is read before the record is fetched. */
  const MonolithStages: seq<Stage> := [
    ParseVideoID, FindBearerToken, ValidateJWT, ParseForm, FindFile, GetVideo, CheckOwner,
    CheckRawImageType, CreateFile, CopyToFile, UpdateVideo]

  /**
   * The handlers' own control flow, written as the chains of early returns
   * they are: the index of the stage each one stops at. The lemmas below
   * prove each equal to the first failing stage of its table.
   */
  function OwnershipStop(o: Outcomes): (n: nat)
    ensures n <= |OwnershipStages|
  {
    if o.videoID.None? then 0
    else if o.token.None? then 1
    else if o.caller.None? then 2
    else if o.lookup.None? then 3
    else if o.lookup.value.userID != o.caller.value then 4
    else 5
  }

  function VideoStop(o: Outcomes): (n: nat)
    ensures n <= |VideoStages|
  {
    if OwnershipStop(o) < 5 then OwnershipStop(o)
    else if o.form.FormUnparsable? then 5
    else if o.form.FileMissing? then 6
    else if MediaTypes.ValidateVideoType(o.parseMediaType, o.form.contentType).Failure? then 7
    else if o.tempPath.None? then 8
    else if !o.copied then 9
    else if !o.rewound then 10
    else if !o.remuxed then 11
    else if !o.processedOpened then 12
    else if AspectRatio.GetVideoAspectRatio(o.probe).Failure? then 13
    else if o.random.None? then 14
    else if !o.stored then 15
    else if !o.updated then 16
    else 17
  }

  function ThumbnailStop(o: Outcomes): (n: nat)
    ensures n <= |ThumbnailStages|
  {
    if OwnershipStop(o) < 5 then OwnershipStop(o)
    else if o.form.FormUnparsable? then 5
    else if o.form.FileMissing? then 6
    else if MediaTypes.DetermineFileExtension(o.parseMediaType, o.form.contentType).Failure? then 7
    else if o.random.None? then 8
    else if !o.created then 9
    else if !o.copied then 10
    else if !o.updated then 11
    else 12
  }

  function MonolithStop(o: Outcomes): (n: nat)
    ensures n <= |MonolithStages|
  {
    if o.videoID.None? then 0
    else if o.token.None? then 1
    else if o.caller.None? then 2
    else if o.form.FormUnparsable? then 3
    else if o.form.FileMissing? then 4
    else if o.lookup.None? then 5
    else if o.lookup.value.userID != o.caller.value then 6
    else if MediaTypes.RawHeaderExtension(o.form.contentType).None? then 7
    else if !o.created then 8
    else if !o.copied then 9
    else if !o.updated then 10
    else 11
  }

  /** The video handler's stages, position by position. */
  lemma VideoStagesListed()
    ensures |VideoStages| == 17
    ensures VideoStages[0] == ParseVideoID && VideoStages[1] == FindBearerToken && VideoStages[2] == ValidateJWT
    ensures VideoStages[3] == GetVideo && VideoStages[4] == CheckOwner && VideoStages[5] == ParseForm
    ensures VideoStages[6] == FindFile && VideoStages[7] == CheckVideoType && VideoStages[8] == CreateTempFile
    ensures VideoStages[9] == CopyToTemp && VideoStages[10] == RewindTemp && VideoStages[11] == Remux
    ensures VideoStages[12] == OpenProcessed && VideoStages[13] == ProbeAspectRatio
    ensures VideoStages[14] == DrawRandomBytes && VideoStages[15] == PutObject && VideoStages[16] == UpdateVideo
  {
  }

  /** The current thumbnail handler's stages, position by position. */
  lemma ThumbnailStagesListed()
    ensures |ThumbnailStages| == 12
    ensures ThumbnailStages[0] == ParseVideoID && ThumbnailStages[1] == FindBearerToken
    ensures ThumbnailStages[2] == ValidateJWT && ThumbnailStages[3] == GetVideo && ThumbnailStages[4] == CheckOwner
    ensures ThumbnailStages[5] == ParseForm && ThumbnailStages[6] == FindFile && ThumbnailStages[7] == CheckImageType
    ensures ThumbnailStages[8] == DrawRandomBytes && ThumbnailStages[9] == CreateFile
    ensures ThumbnailStages[10] == CopyToFile && ThumbnailStages[11] == UpdateVideo
  {
  }

  /** The monolithic thumbnail handler's stages, position by position. */
  lemma MonolithStagesListed()
    ensures |MonolithStages| == 11
    ensures MonolithStages[0] == ParseVideoID && MonolithStages[1] == FindBearerToken
    ensures MonolithStages[2] == ValidateJWT && MonolithStages[3] == ParseForm && MonolithStages[4] == FindFile
    ensures MonolithStages[5] == GetVideo && MonolithStages[6] == CheckOwner && MonolithStages[7] == CheckRawImageType
    ensures MonolithStages[8] == CreateFile && MonolithStages[9] == CopyToFile && MonolithStages[10] == UpdateVideo
  {
  }

  /** The index of the first failing stage, or `|stages|` when all pass. */
  function FirstFailure(stages: seq<Stage>, o: Outcomes): (k: nat)
    ensures k <= |stages|
    ensures k < |stages| ==> Fails(stages[k], o)
    ensures forall i :: 0 <= i < k ==> !Fails(stages[i], o)
    decreases |stages|
  {
    if |stages| == 0 then 0
    else if Fails(stages[0], o) then 0
    else 1 + FirstFailure(stages[1..], o)
  }

  /** All stages pass. */
  predicate Succeeds(stages: seq<Stage>, o: Outcomes) {
    FirstFailure(stages, o) == |stages|
  }

  /** The response status of a run. */
  function Status(stages: seq<Stage>, o: Outcomes): (status: int)
    ensures status in {OK, 400, 401, 500}
    ensures status == OK <==> Succeeds(stages, o)
  {
    var k := FirstFailure(stages, o);
    if k < |stages| then StatusOf(stages[k]) else OK
  }

  /** The stages that ran: all of them on success, else up to and including the failing one. */
  function Attempted(stages: seq<Stage>, o: Outcomes): (ran: seq<Stage>)
    ensures |ran| <= |stages| && ran == stages[..|ran|]
  {
    var k := FirstFailure(stages, o);
    if k < |stages| then stages[..k + 1] else stages
  }

  /** The first `n` stages passed, so stage `n`, if there is one, ran. */
  predicate PassedThrough(stages: seq<Stage>, o: Outcomes, n: nat)
    decreases n
  {
    n <= |stages| && (n == 0 || (PassedThrough(stages, o, n - 1) && !Fails(stages[n - 1], o)))
  }

  /** Passing the first `n` stages is passing each of them. */
  lemma {:induction false} PassedThroughEach(stages: seq<Stage>, o: Outcomes, n: nat)
    requires n <= |stages|
    ensures PassedThrough(stages, o, n) <==> forall i :: 0 <= i < n ==> !Fails(stages[i], o)
    decreases n
  {
    if n > 0 {
      PassedThroughEach(stages, o, n - 1);
    }
  }

  /** A stage before one the run passed through passed. */
  lemma PassedStage(stages: seq<Stage>, o: Outcomes, n: nat, i: nat)
    requires PassedThrough(stages, o, n) && i < n
    ensures !Fails(stages[i], o)
  {
    PassedThroughEach(stages, o, n);
  }

  lemma StagePasses(stages: seq<Stage>, o: Outcomes, n: nat)
    requires PassedThrough(stages, o, n) && n < |stages| && !Fails(stages[n], o)
    ensures PassedThrough(stages, o, n + 1)
  {
  }

  /** The run stopped at stage `n`: every stage before it passed and stage `n`, if there is one, failed. */
  predicate Halted(stages: seq<Stage>, o: Outcomes, n: nat) {
    PassedThrough(stages, o, n) && (n < |stages| ==> Fails(stages[n], o))
  }

  /** The status of a run that stopped at stage `n`. */
  function StatusAt(stages: seq<Stage>, n: nat): (status: int)
    requires n <= |stages|
    ensures status == OK <==> n == |stages|
  {
    if n < |stages| then StatusOf(stages[n]) else OK
  }

  /** A run stops at exactly one stage, the first failing one, and answers with its status. */
  lemma HaltedAtFirstFailure(stages: seq<Stage>, o: Outcomes, n: nat)
    requires Halted(stages, o, n)
    ensures n == FirstFailure(stages, o)
    ensures Status(stages, o) == StatusAt(stages, n)
  {
    PassedThroughEach(stages, o, n);
  }

  /** Stage `n` ran exactly when every stage before it passed. */
  lemma RanIffPassedThrough(stages: seq<Stage>, o: Outcomes, n: nat)
    requires n < |stages|
    ensures n < |Attempted(stages, o)| <==> PassedThrough(stages, o, n)
  {
    PassedThroughEach(stages, o, n);
  }

  /** Every stage that ran before another one passed. */
  lemma AttemptedBeforePassed(stages: seq<Stage>, o: Outcomes, i: nat, j: nat)
    requires i < j < |Attempted(stages, o)|
    ensures !Fails(stages[i], o)
  {
  }

  /** Running `a + b` is running `a`, then, when all of `a` passed, running `b`. */
  lemma {:induction false} FirstFailureConcat(a: seq<Stage>, b: seq<Stage>, o: Outcomes)
    ensures FirstFailure(a + b, o)
         == if FirstFailure(a, o) < |a| then FirstFailure(a, o) else |a| + FirstFailure(b, o)
    decreases |a|
  {
    if |a| > 0 {
      assert (a + b)[0] == a[0];
      assert (a + b)[1..] == a[1..] + b;
      FirstFailureConcat(a[1..], b, o);
    } else {
      assert a + b == b;
    }
  }

  /** The ownership check comes first in both current handlers and decides alone when it fails. */
  lemma OwnershipFirst(o: Outcomes)
    requires !Succeeds(OwnershipStages, o)
    ensures Status(VideoStages, o) == Status(OwnershipStages, o)
    ensures Status(ThumbnailStages, o) == Status(OwnershipStages, o)
    ensures Attempted(VideoStages, o) == Attempted(OwnershipStages, o)
    ensures Attempted(ThumbnailStages, o) == Attempted(OwnershipStages, o)
  {
    FirstFailureConcat(OwnershipStages, VideoStages[5..], o);
    FirstFailureConcat(OwnershipStages, ThumbnailStages[5..], o);
    assert OwnershipStages + VideoStages[5..] == VideoStages;
    assert OwnershipStages + ThumbnailStages[5..] == ThumbnailStages;
    var k := FirstFailure(OwnershipStages, o);
    assert VideoStages[..k + 1] == OwnershipStages[..k + 1];
    assert ThumbnailStages[..k + 1] == OwnershipStages[..k + 1];
  }

  /**
   * Ownership order: a bad ID is 400; a missing token, an invalid token or a
   * caller who is not the owner is 401; a failed lookup is 500.
   */
  lemma OwnershipStatuses(o: Outcomes)
    ensures o.videoID.None? ==> Status(OwnershipStages, o) == 400
    ensures o.videoID.Some? && o.token.None? ==> Status(OwnershipStages, o) == 401
    ensures o.videoID.Some? && o.token.Some? && o.caller.None? ==> Status(OwnershipStages, o) == 401
    ensures o.videoID.Some? && o.token.Some? && o.caller.Some? && o.lookup.None? ==>
              Status(OwnershipStages, o) == 500
    ensures o.videoID.Some? && o.token.Some? && o.caller.Some? && o.lookup.Some? ==>
              (Status(OwnershipStages, o) == OK <==> o.lookup.value.userID == o.caller.value)
  {
    var k := FirstFailure(OwnershipStages, o);
    if k < 5 {
      assert Fails(OwnershipStages[k], o);
    }
  }

  /** A caller who does not own the record always gets 401 from the current handlers, whatever else the request holds. */
  lemma NonOwnerIsUnauthorized(o: Outcomes)
    requires o.videoID.Some? && o.token.Some? && o.caller.Some? && o.lookup.Some?
    requires o.lookup.value.userID != o.caller.value
    ensures Status(VideoStages, o) == 401
    ensures Status(ThumbnailStages, o) == 401
  {
    OwnershipStatuses(o);
    OwnershipFirst(o);
  }

  /**
   * The monolith reads the form before it fetches the record, so a non-owner
   * who sends a malformed form gets 400 from it but 401 from the current
   * thumbnail handler.
   */
  lemma MonolithChecksFormBeforeOwner(o: Outcomes)
    requires o.videoID.Some? && o.token.Some? && o.caller.Some? && o.lookup.Some?
    requires o.lookup.value.userID != o.caller.value
    requires o.form == FormUnparsable
    ensures Status(MonolithStages, o) == 400
    ensures Status(ThumbnailStages, o) == 401
  {
    NonOwnerIsUnauthorized(o);
    assert Fails(MonolithStages[3], o);
    assert FirstFailure(MonolithStages, o) == 3;
  }

  /**
   * An unsupported thumbnail type is answered with 400 before any random
   * bytes are drawn, any file is created or the record is updated.
   */
  lemma UnsupportedThumbnailWritesNothing(o: Outcomes)
    requires Succeeds(OwnershipStages, o)
    requires o.form.FilePart? && MediaTypes.DetermineFileExtension(o.parseMediaType, o.form.contentType).Failure?
    ensures Status(ThumbnailStages, o) == 400
    ensures Attempted(ThumbnailStages, o) == OwnershipStages + [ParseForm, FindFile, CheckImageType]
  {
    FirstFailureConcat(OwnershipStages, ThumbnailStages[5..], o);
    assert OwnershipStages + ThumbnailStages[5..] == ThumbnailStages;
    assert Fails(ThumbnailStages[5..][2], o);
    assert FirstFailure(ThumbnailStages[5..], o) == 2;
  }

  /** An unsupported video type is answered with 400 before anything is staged. */
  lemma UnsupportedVideoStagesNothing(o: Outcomes)
    requires Succeeds(OwnershipStages, o)
    requires o.form.FilePart? && MediaTypes.ValidateVideoType(o.parseMediaType, o.form.contentType).Failure?
    ensures Status(VideoStages, o) == 400
    ensures Attempted(VideoStages, o) == OwnershipStages + [ParseForm, FindFile, CheckVideoType]
  {
    FirstFailureConcat(OwnershipStages, VideoStages[5..], o);
    assert OwnershipStages + VideoStages[5..] == VideoStages;
    assert Fails(VideoStages[5..][2], o);
    assert FirstFailure(VideoStages[5..], o) == 2;
  }

  /** The record update runs only after the object-store PUT succeeded. */
  lemma UpdateOnlyAfterStore(o: Outcomes)
    requires UpdateVideo in Attempted(VideoStages, o)
    ensures PutObject in Attempted(VideoStages, o) && o.stored
  {
    UpdateIsLastAfterPut();
    LastStageRan(VideoStages, o, UpdateVideo);
  }

  /** In the video table the update is the last stage, the only update, and comes right after the PUT. */
  lemma UpdateIsLastAfterPut()
    ensures |VideoStages| == 17 && VideoStages[15] == PutObject && VideoStages[16] == UpdateVideo
    ensures UpdateVideo !in VideoStages[..16]
  {
    assert VideoStages[..16] == OwnershipStages + [
      ParseForm, FindFile, CheckVideoType, CreateTempFile, CopyToTemp, RewindTemp,
      Remux, OpenProcessed, ProbeAspectRatio, DrawRandomBytes, PutObject];
  }

  /** A stage that occurs only last in a table ran only when the whole table ran, after every other stage passed. */
  lemma LastStageRan(stages: seq<Stage>, o: Outcomes, s: Stage)
    requires |stages| >= 2 && s !in stages[..|stages| - 1]
    requires s in Attempted(stages, o)
    ensures Attempted(stages, o) == stages
    ensures stages[|stages| - 2] in Attempted(stages, o) && !Fails(stages[|stages| - 2], o)
  {
    var ran := Attempted(stages, o);
    var j :| 0 <= j < |ran| && ran[j] == s;
    if |ran| < |stages| {
      assert false;
    }
    assert ran[|stages| - 2] == stages[|stages| - 2];
    AttemptedBeforePassed(stages, o, |stages| - 2, |stages| - 1);
  }

  // ----- the stop functions against the tables -----
  // Each chain of early returns is matched against its table a few stages at
  // a time, so that no single proof has to follow a whole handler.

  /** The ownership stages at the head of any table stop where `OwnershipStop` says. */
  lemma OwnershipSegment(stages: seq<Stage>, o: Outcomes)
    requires |stages| >= |OwnershipStages| && stages[..|OwnershipStages|] == OwnershipStages
    ensures OwnershipStop(o) < |OwnershipStages| ==> Halted(stages, o, OwnershipStop(o))
    ensures OwnershipStop(o) == |OwnershipStages| ==> PassedThrough(stages, o, |OwnershipStages|)
  {
    assert forall i :: 0 <= i < 5 ==> stages[i] == OwnershipStages[..5][i];
    if o.videoID.None? {
      assert Halted(stages, o, 0);
    } else {
      StagePasses(stages, o, 0);
      if o.token.None? {
        assert Halted(stages, o, 1);
      } else {
        StagePasses(stages, o, 1);
        if o.caller.None? {
          assert Halted(stages, o, 2);
        } else {
          StagePasses(stages, o, 2);
          if o.lookup.None? {
            assert Halted(stages, o, 3);
          } else {
            StagePasses(stages, o, 3);
            if o.lookup.value.userID != o.caller.value {
              assert Halted(stages, o, 4);
            } else {
              StagePasses(stages, o, 4);
            }
          }
        }
      }
    }
  }

  /** `validateUserAndVideo` stops at the first failing ownership stage. */
  lemma OwnershipStopIsFirstFailure(o: Outcomes)
    ensures OwnershipStop(o) == FirstFailure(OwnershipStages, o)
    ensures Status(OwnershipStages, o) == StatusAt(OwnershipStages, OwnershipStop(o))
  {
    assert OwnershipStages[..5] == OwnershipStages;
    OwnershipSegment(OwnershipStages, o);
    HaltedAtFirstFailure(OwnershipStages, o, OwnershipStop(o));
  }

  /** Form, type and staging of a video: stages 5 to 10. */
  lemma VideoUploadSegment(o: Outcomes)
    requires OwnershipStop(o) == 5 && PassedThrough(VideoStages, o, 5)
    ensures VideoStop(o) < 11 ==> Halted(VideoStages, o, VideoStop(o))
    ensures VideoStop(o) >= 11 ==> PassedThrough(VideoStages, o, 11)
  {
    VideoStagesListed();
    if o.form.FormUnparsable? {
      assert Halted(VideoStages, o, 5);
    } else {
      StagePasses(VideoStages, o, 5);
      if o.form.FileMissing? {
        assert Halted(VideoStages, o, 6);
      } else {
        StagePasses(VideoStages, o, 6);
        if MediaTypes.ValidateVideoType(o.parseMediaType, o.form.contentType).Failure? {
          assert Halted(VideoStages, o, 7);
        } else {
          StagePasses(VideoStages, o, 7);
          if o.tempPath.None? {
            assert Halted(VideoStages, o, 8);
          } else {
            StagePasses(VideoStages, o, 8);
            if !o.copied {
              assert Halted(VideoStages, o, 9);
            } else {
              StagePasses(VideoStages, o, 9);
              if !o.rewound {
                assert Halted(VideoStages, o, 10);
              } else {
                StagePasses(VideoStages, o, 10);
              }
            }
          }
        }
      }
    }
  }

  /** Remux, probe, key, PUT and record update: stages 11 to 16. */
  lemma VideoPublishSegment(o: Outcomes)
    requires VideoStop(o) >= 11 && PassedThrough(VideoStages, o, 11)
    ensures Halted(VideoStages, o, VideoStop(o))
  {
    VideoStagesListed();
    if !o.remuxed {
      assert Halted(VideoStages, o, 11);
    } else {
      StagePasses(VideoStages, o, 11);
      if !o.processedOpened {
        assert Halted(VideoStages, o, 12);
      } else {
        StagePasses(VideoStages, o, 12);
        if AspectRatio.GetVideoAspectRatio(o.probe).Failure? {
          assert Halted(VideoStages, o, 13);
        } else {
          StagePasses(VideoStages, o, 13);
          if o.random.None? {
            assert Halted(VideoStages, o, 14);
          } else {
            StagePasses(VideoStages, o, 14);
            if !o.stored {
              assert Halted(VideoStages, o, 15);
            } else {
              StagePasses(VideoStages, o, 15);
              if !o.updated {
                assert Halted(VideoStages, o, 16);
              } else {
                StagePasses(VideoStages, o, 16);
              }
            }
          }
        }
      }
    }
  }

  /** `handlerUploadVideo` stops at the first failing stage of its table. */
  lemma VideoStopIsFirstFailure(o: Outcomes)
    ensures VideoStop(o) == FirstFailure(VideoStages, o)
    ensures Status(VideoStages, o) == StatusAt(VideoStages, VideoStop(o))
  {
    assert VideoStages[..5] == OwnershipStages;
    OwnershipSegment(VideoStages, o);
    if OwnershipStop(o) == 5 {
      VideoUploadSegment(o);
      if VideoStop(o) >= 11 {
        VideoPublishSegment(o);
      }
    }
    HaltedAtFirstFailure(VideoStages, o, VideoStop(o));
  }

  /** Form, type, save and record update of a thumbnail: stages 5 to 11. */
  lemma ThumbnailSegment(o: Outcomes)
    requires OwnershipStop(o) == 5 && PassedThrough(ThumbnailStages, o, 5)
    ensures Halted(ThumbnailStages, o, ThumbnailStop(o))
  {
    ThumbnailStagesListed();
    if o.form.FormUnparsable? {
      assert Halted(ThumbnailStages, o, 5);
    } else {
      StagePasses(ThumbnailStages, o, 5);
      if o.form.FileMissing? {
        assert Halted(ThumbnailStages, o, 6);
      } else {
        StagePasses(ThumbnailStages, o, 6);
        if MediaTypes.DetermineFileExtension(o.parseMediaType, o.form.contentType).Failure? {
          assert Halted(ThumbnailStages, o, 7);
        } else {
          StagePasses(ThumbnailStages, o, 7);
          if o.random.None? {
            assert Halted(ThumbnailStages, o, 8);
          } else {
            StagePasses(ThumbnailStages, o, 8);
            if !o.created {
              assert Halted(ThumbnailStages, o, 9);
            } else {
              StagePasses(ThumbnailStages, o, 9);
              if !o.copied {
                assert Halted(ThumbnailStages, o, 10);
              } else {
                StagePasses(ThumbnailStages, o, 10);
                if !o.updated {
                  assert Halted(ThumbnailStages, o, 11);
                } else {
                  StagePasses(ThumbnailStages, o, 11);
                }
              }
            }
          }
        }
      }
    }
  }

  /** `handlerUploadThumbnail` stops at the first failing stage of its table. */
  lemma ThumbnailStopIsFirstFailure(o: Outcomes)
    ensures ThumbnailStop(o) == FirstFailure(ThumbnailStages, o)
    ensures Status(ThumbnailStages, o) == StatusAt(ThumbnailStages, ThumbnailStop(o))
  {
    assert ThumbnailStages[..5] == OwnershipStages;
    OwnershipSegment(ThumbnailStages, o);
    if OwnershipStop(o) == 5 {
      ThumbnailSegment(o);
    }
    HaltedAtFirstFailure(ThumbnailStages, o, ThumbnailStop(o));
  }

  /** Identity and form of the monolith: stages 0 to 4. */
  lemma MonolithRequestSegment(o: Outcomes)
    ensures MonolithStop(o) < 5 ==> Halted(MonolithStages, o, MonolithStop(o))
    ensures MonolithStop(o) >= 5 ==> PassedThrough(MonolithStages, o, 5)
  {
    MonolithStagesListed();
    if o.videoID.None? {
      assert Halted(MonolithStages, o, 0);
    } else {
      StagePasses(MonolithStages, o, 0);
      if o.token.None? {
        assert Halted(MonolithStages, o, 1);
      } else {
        StagePasses(MonolithStages, o, 1);
        if o.caller.None? {
          assert Halted(MonolithStages, o, 2);
        } else {
          StagePasses(MonolithStages, o, 2);
          if o.form.FormUnparsable? {
            assert Halted(MonolithStages, o, 3);
          } else {
            StagePasses(MonolithStages, o, 3);
            if o.form.FileMissing? {
              assert Halted(MonolithStages, o, 4);
            } else {
              StagePasses(MonolithStages, o, 4);
            }
          }
        }
      }
    }
  }

  /** Lookup, owner, type, file and record update of the monolith: stages 5 to 10. */
  lemma MonolithWriteSegment(o: Outcomes)
    requires MonolithStop(o) >= 5 && PassedThrough(MonolithStages, o, 5)
    ensures Halted(MonolithStages, o, MonolithStop(o))
  {
    MonolithStagesListed();
    if o.lookup.None? {
      assert Halted(MonolithStages, o, 5);
    } else {
      StagePasses(MonolithStages, o, 5);
      if o.lookup.value.userID != o.caller.value {
        assert Halted(MonolithStages, o, 6);
      } else {
        StagePasses(MonolithStages, o, 6);
        if MediaTypes.RawHeaderExtension(o.form.contentType).None? {
          assert Halted(MonolithStages, o, 7);
        } else {
          StagePasses(MonolithStages, o, 7);
          if !o.created {
            assert Halted(MonolithStages, o, 8);
          } else {
            StagePasses(MonolithStages, o, 8);
            if !o.copied {
              assert Halted(MonolithStages, o, 9);
            } else {
              StagePasses(MonolithStages, o, 9);
              if !o.updated {
                assert Halted(MonolithStages, o, 10);
              } else {
                StagePasses(MonolithStages, o, 10);
              }
            }
          }
        }
      }
    }
  }

  /** `handlerUploadThumbnailMonolith` stops at the first failing stage of its table. */
  lemma MonolithStopIsFirstFailure(o: Outcomes)
    ensures MonolithStop(o) == FirstFailure(MonolithStages, o)
    ensures Status(MonolithStages, o) == StatusAt(MonolithStages, MonolithStop(o))
  {
    MonolithRequestSegment(o);
    if MonolithStop(o) >= 5 {
      MonolithWriteSegment(o);
    }
    HaltedAtFirstFailure(MonolithStages, o, MonolithStop(o));
  }

  /**
   * The video handler's answer by stop position: 400 for a bad ID, 401 for
   * a missing token, a bad JWT or a foreign video, 500 for a failed lookup,
   * 400 for the form and the type, and 500 for every later stage.
   */
  lemma VideoStatuses()
    ensures |VideoStages| == 17
    ensures StatusAt(VideoStages, 0) == 400 && StatusAt(VideoStages, 1) == 401 && StatusAt(VideoStages, 2) == 401
    ensures StatusAt(VideoStages, 3) == 500 && StatusAt(VideoStages, 4) == 401 && StatusAt(VideoStages, 5) == 400
    ensures StatusAt(VideoStages, 6) == 400 && StatusAt(VideoStages, 7) == 400 && StatusAt(VideoStages, 8) == 500
    ensures StatusAt(VideoStages, 9) == 500 && StatusAt(VideoStages, 10) == 500 && StatusAt(VideoStages, 11) == 500
    ensures StatusAt(VideoStages, 12) == 500 && StatusAt(VideoStages, 13) == 500 && StatusAt(VideoStages, 14) == 500
    ensures StatusAt(VideoStages, 15) == 500 && StatusAt(VideoStages, 16) == 500 && StatusAt(VideoStages, 17) == OK
  {
    VideoStagesListed();
  }

  /**
   * The current thumbnail handler's answer by stop position: the ownership
   * statuses, 400 for the form and the type, 500 for saving and the record
   * update.
   */
  lemma ThumbnailStatuses()
    ensures |ThumbnailStages| == 12
    ensures StatusAt(ThumbnailStages, 0) == 400 && StatusAt(ThumbnailStages, 1) == 401 && StatusAt(ThumbnailStages, 2) == 401
    ensures StatusAt(ThumbnailStages, 3) == 500 && StatusAt(ThumbnailStages, 4) == 401 && StatusAt(ThumbnailStages, 5) == 400
    ensures StatusAt(ThumbnailStages, 6) == 400 && StatusAt(ThumbnailStages, 7) == 400 && StatusAt(ThumbnailStages, 8) == 500
    ensures StatusAt(ThumbnailStages, 9) == 500 && StatusAt(ThumbnailStages, 10) == 500 && StatusAt(ThumbnailStages, 11) == 500
    ensures StatusAt(ThumbnailStages, 12) == OK
  {
    ThumbnailStagesListed();
  }

  /**
   * The monolithic handler's answer by stop position: 400 for the ID and the
   * form, 401 for the token, the JWT and the owner, 500 for the lookup, 400
   * for the type, and 500 for every later stage.
   */
  lemma MonolithStatuses()
    ensures |MonolithStages| == 11
    ensures StatusAt(MonolithStages, 0) == 400 && StatusAt(MonolithStages, 1) == 401 && StatusAt(MonolithStages, 2) == 401
    ensures StatusAt(MonolithStages, 3) == 400 && StatusAt(MonolithStages, 4) == 400 && StatusAt(MonolithStages, 5) == 500
    ensures StatusAt(MonolithStages, 6) == 401 && StatusAt(MonolithStages, 7) == 400 && StatusAt(MonolithStages, 8) == 500
    ensures StatusAt(MonolithStages, 9) == 500 && StatusAt(MonolithStages, 10) == 500 && StatusAt(MonolithStages, 11) == OK
  {
    MonolithStagesListed();
  }
}
