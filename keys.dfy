/**
 * Names and URLs of stored assets: the video's object-store key and public
 * URL, the remux output path, the thumbnail's file name, path and URL, and
 * the monolithic handler's per-video thumbnail name.
 */
module Keys {
  import opened Wrappers
  import opened Base64Url
  import Paths
  import AspectRatio
  import Records

  const VideoSuffix: string := ".mp4"

  /** `generateS3Key`: 43 characters encoding the 32 random bytes, then `.mp4`. */
  function GenerateS3Key(random: Bytes32): (key: string)
    ensures |key| == 47 && key[43..] == VideoSuffix
  {
    EncodeBytes32(random);
    Encode(random) + VideoSuffix
  }

  /**
   * The random part of a key is unpadded base64url: URL-safe, free of `/`,
   * `+` and `=`, and it decodes back to the bytes.
   */
  lemma GeneratedKeyDecodes(random: Bytes32)
    ensures var key := GenerateS3Key(random);
            && AllUrlSafe(key[..43]) && Decode(key[..43]) == Some(random)
            && '/' !in key && '+' !in key && '=' !in key
  {
    EncodeBytes32(random);
    DecodeEncode(random);
    var key := GenerateS3Key(random);
    assert key[..43] == Encode(random);
    assert forall i :: 0 <= i < |key| ==> key[i] == if i < 43 then Encode(random)[i] else VideoSuffix[i - 43];
  }

  lemma KeyEncodes(random: Bytes32)
    ensures GenerateS3Key(random)[..43] == Encode(random)
  {
    EncodeBytes32(random);
  }

  /** Distinct random bytes give distinct keys. */
  lemma DistinctBytesDistinctKeys(a: Bytes32, b: Bytes32)
    requires a != b
    ensures GenerateS3Key(a) != GenerateS3Key(b)
  {
    GeneratedKeyDecodes(a);
    GeneratedKeyDecodes(b);
    assert Decode(GenerateS3Key(a)[..43]) == Some(a);
    assert Decode(GenerateS3Key(b)[..43]) == Some(b);
  }

  /** The public URL written to the record: `https://<distribution>/<key>`. */
  function VideoURL(distribution: string, key: string): (url: string)
    ensures |url| == |distribution| + |key| + 9
    ensures url[8..8 + |distribution|] == distribution && url[|url| - |key|..] == key
  {
    "https://" + distribution + "/" + key
  }

  /**
   * The stored key is the aspect-ratio prefix followed by the generated key,
   * and the URL is the distribution followed by that key: it starts with the
   * prefix, ends with `.mp4`, and the 43 characters before the suffix are
   * the encoding of the random bytes (which `DecodeEncode` turns back).
   */
  lemma VideoURLShape(distribution: string, prefix: string, random: Bytes32)
    ensures var url := VideoURL(distribution, prefix + GenerateS3Key(random));
            var head := "https://" + distribution + "/";
            && |url| == |head| + |prefix| + 47
            && url[..|head|] == head
            && url[|head|..|head| + |prefix|] == prefix
            && url[|url| - 4..] == VideoSuffix
            && url[|url| - 47..|url| - 4] == Encode(random)
  {
    var key := GenerateS3Key(random);
    var head := "https://" + distribution + "/";
    var url := VideoURL(distribution, prefix + key);
    assert url == head + prefix + key;
    ThreePartSlices(head, prefix, key);
    KeyEncodes(random);
  }

  /** The slices of a string made of a head, a prefix and a 47-character key. */
  lemma ThreePartSlices(head: string, prefix: string, key: string)
    requires |key| == 47
    ensures var url := head + prefix + key;
            && |url| == |head| + |prefix| + 47
            && url[..|head|] == head
            && url[|head|..|head| + |prefix|] == prefix
            && url[|url| - 47..|url| - 4] == key[..43]
            && url[|url| - 4..] == key[43..]
  {
    var url := head + prefix + key;
    assert url[..|head|] == head;
    assert url[|head|..|head| + |prefix|] == prefix;
    assert url[|url| - 47..] == key;
  }

  /** `processVideoForFastStart`'s output: a sibling of the input, never the input itself. */
  function ProcessedPath(input: string): (output: string)
    ensures |output| > |input| && output[..|input|] == input
  {
    input + ".processing"
  }

  /** `saveThumbnailFile`'s file name: the encoded random bytes and the extension. */
  function ThumbnailFileName(random: Bytes32, ext: string): (name: string)
    ensures Paths.Separator !in ext ==> Paths.IsElement(name)
  {
    EncodeBytes32(random);
    var name := Encode(random) + ext;
    assert forall i :: 0 <= i < |name| ==> name[i] == if i < 43 then Encode(random)[i] else ext[i - 43];
    name
  }

  /** `saveThumbnailFile`'s path: the file name joined under the assets root, and its base. */
  function ThumbnailPath(assetsRoot: string, random: Bytes32, ext: string): (path: string)
    ensures Paths.Separator !in ext ==> Paths.Base(path) == ThumbnailFileName(random, ext)
  {
    var name := ThumbnailFileName(random, ext);
    if Paths.Separator in ext then Paths.Join(assetsRoot, name)
    else
      Paths.BaseOfJoin(assetsRoot, name);
      Paths.Join(assetsRoot, name)
  }

  /** `updateVideoThumbnail`'s URL: the base name of the saved file under `/assets/`. */
  function ThumbnailURL(port: string, filePath: string): (url: string)
    ensures |url| == |port| + |Paths.Base(filePath)| + 25
    ensures url[17..17 + |port|] == port
    ensures url[|url| - |Paths.Base(filePath)|..] == Paths.Base(filePath)
  {
    "http://localhost:" + port + "/assets/" + Paths.Base(filePath)
  }

  /**
   * The URL of a saved thumbnail names exactly the generated file name, so
   * it ends with the validated extension.
   */
  lemma SavedThumbnailURL(assetsRoot: string, port: string, random: Bytes32, ext: string)
    requires Paths.Separator !in ext
    ensures ThumbnailURL(port, ThumbnailPath(assetsRoot, random, ext))
         == "http://localhost:" + port + "/assets/" + Encode(random) + ext
    ensures var url := ThumbnailURL(port, ThumbnailPath(assetsRoot, random, ext));
            |url| >= |ext| && url[|url| - |ext|..] == ext
  {
    Paths.BaseOfJoin(assetsRoot, ThumbnailFileName(random, ext));
    var url := "http://localhost:" + port + "/assets/" + Encode(random) + ext;
    assert url[|url| - |ext|..] == ext;
  }

  /** Distinct random bytes give distinct thumbnail paths under the same root. */
  lemma DistinctBytesDistinctThumbnails(assetsRoot: string, a: Bytes32, b: Bytes32, ext: string)
    requires a != b && Paths.Separator !in ext
    ensures ThumbnailPath(assetsRoot, a, ext) != ThumbnailPath(assetsRoot, b, ext)
  {
    Paths.BaseOfJoin(assetsRoot, ThumbnailFileName(a, ext));
    Paths.BaseOfJoin(assetsRoot, ThumbnailFileName(b, ext));
    if ThumbnailFileName(a, ext) == ThumbnailFileName(b, ext) {
      var ea, eb := Encode(a), Encode(b);
      EncodeBytes32(a);
      EncodeBytes32(b);
      assert ea == (ea + ext)[..43] == (eb + ext)[..43] == eb;
      EncodeInjective(a, b);
    }
  }

  /** The monolithic handler's file name: the video's ID and the extension. */
  function MonolithFileName(videoID: Records.Uuid, ext: string): (name: string)
    ensures Paths.Separator !in ext ==> Paths.IsElement(name)
  {
    var name := videoID + ext;
    assert forall i :: 0 <= i < |name| ==> name[i] == if i < 36 then videoID[i] else ext[i - 36];
    name
  }

  /** The monolithic handler's URL, formatted from the ID directly. */
  function MonolithThumbnailURL(port: string, videoID: Records.Uuid, ext: string): (url: string)
    ensures |url| == |port| + |ext| + 61
    ensures url[17..17 + |port|] == port
    ensures url[|url| - |ext| - 36..|url| - |ext|] == videoID && url[|url| - |ext|..] == ext
  {
    "http://localhost:" + port + "/assets/" + videoID + ext
  }

  /**
   * The monolith's directly formatted URL is the one `updateVideoThumbnail`
   * would derive from the file it writes.
   */
  lemma MonolithURLMatchesItsFile(assetsRoot: string, port: string, videoID: Records.Uuid, ext: string)
    requires Paths.Separator !in ext
    ensures MonolithThumbnailURL(port, videoID, ext)
         == ThumbnailURL(port, Paths.Join(assetsRoot, MonolithFileName(videoID, ext)))
  {
    Paths.BaseOfJoin(assetsRoot, MonolithFileName(videoID, ext));
  }
}
