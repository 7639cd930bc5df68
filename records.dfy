/**
 * The video record the handlers read from the database and update: its
 * identity, its owner and the two asset URLs. The record is a class
 * because the current handlers receive a pointer to it and assign
 * `ThumbnailURL` and `VideoURL` in place before persisting it; the
 * monolithic handler keeps its copy as a local value (`VideoRow`).
 */
module Records {
  import opened Wrappers

  predicate IsLowerHexOrDash(c: char) {
    ('0' <= c <= '9') || ('a' <= c <= 'f') || c == '-'
  }

  /** A UUID as `uuid.UUID.String()` prints it: 36 lower-case hex digits and dashes. */
  predicate IsUuidText(s: string) {
    |s| == 36 && forall i :: 0 <= i < |s| ==> IsLowerHexOrDash(s[i])
  }

  type Uuid = s: string | IsUuidText(s) witness "00000000-0000-0000-0000-000000000000"

  /** The record's modelled fields, as a value. */
  datatype VideoRow = VideoRow(id: Uuid, userID: Uuid, thumbnailURL: Option<string>, videoURL: Option<string>)

  /** The handlers' in-memory copy of a record. The owner never changes. */
  class Video {
    const id: Uuid
    const userID: Uuid
    var thumbnailURL: Option<string>
    var videoURL: Option<string>

    /** The copy `GetVideo` hands out. */
    constructor (row: VideoRow)
      ensures Row() == row
    {
      id := row.id;
      userID := row.userID;
      thumbnailURL := row.thumbnailURL;
      videoURL := row.videoURL;
    }

    /** The current field values; what `UpdateVideo` persists. */
    function Row(): (row: VideoRow)
      reads this
      ensures row.id == id && row.userID == userID
    {
      VideoRow(id, userID, thumbnailURL, videoURL)
    }
  }
}
