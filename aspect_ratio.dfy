/**
 * `getVideoAspectRatio`: the orientation bucket of a probed video, from the
 * width and height of the first stream `ffprobe` reports. The ratio is
 * computed exactly, as a real number, where the source uses float64.
 */
module AspectRatio {
  import opened Wrappers

  /** The part of one `ffprobe` stream entry that is decoded. */
  datatype Stream = Stream(width: int, height: int)

  /** What running `ffprobe` and decoding its JSON produced. */
  datatype ProbeResult = ProbeFailed | Probed(streams: seq<Stream>)

  datatype ProbeError = FfprobeFailed | NoStreams | InvalidDimensions

  datatype Orientation = Landscape | Portrait | Square | Other

  /** The storage-key prefix of each bucket. */
  function Prefix(o: Orientation): string {
    match o
    case Landscape => "landscape/"
    case Portrait => "portrait/"
    case Square => "square/"
    case Other => "other/"
  }

  const Tolerance: real := 0.1

  function Abs(x: real): real {
    if x < 0.0 then -x else x
  }

  function IntAbs(x: int): nat {
    if x < 0 then -x else x
  }

  /** Within the tolerance of a target ratio. */
  predicate Near(ratio: real, target: real) {
    Abs(ratio - target) < Tolerance
  }

  function Ratio(width: int, height: int): real
    requires height != 0
  {
    width as real / height as real
  }

  /**
   * The `switch`: 16:9 first, then 9:16, then 1:1, else other. The three
   * windows are disjoint, so each named bucket is chosen exactly when the
   * ratio lies in its own window, whatever the order of the tests.
   */
  function Classify(ratio: real): (o: Orientation)
    ensures o == Landscape <==> Near(ratio, 16.0 / 9.0)
    ensures o == Portrait <==> Near(ratio, 9.0 / 16.0)
    ensures o == Square <==> Near(ratio, 1.0)
    ensures o == Other <==> !Near(ratio, 16.0 / 9.0) && !Near(ratio, 9.0 / 16.0) && !Near(ratio, 1.0)
  {
    if Near(ratio, 16.0 / 9.0) then Landscape
    else if Near(ratio, 9.0 / 16.0) then Portrait
    else if Near(ratio, 1.0) then Square
    else Other
  }

  /**
   * The classification after the probe: a failed probe, an empty stream
   * list and a zero width or height of the first stream are errors; only
   * the first stream is consulted.
   */
  function GetVideoAspectRatio(probe: ProbeResult): (r: Result<string, ProbeError>)
    ensures r.Success? <==>
              probe.Probed? && |probe.streams| > 0 && probe.streams[0].width != 0 && probe.streams[0].height != 0
    ensures probe == ProbeFailed ==> r == Failure(FfprobeFailed)
    ensures probe == Probed([]) ==> r == Failure(NoStreams)
    ensures (probe.Probed? && |probe.streams| > 0 && (probe.streams[0].width == 0 || probe.streams[0].height == 0))
              ==> r == Failure(InvalidDimensions)
    ensures r.Success? ==> r.value in {"landscape/", "portrait/", "square/", "other/"}
    ensures probe.Probed? && |probe.streams| > 0 && probe.streams[0].width != 0 && probe.streams[0].height != 0 ==>
              var ratio := Ratio(probe.streams[0].width, probe.streams[0].height);
              && (r == Success("landscape/") <==> Near(ratio, 16.0 / 9.0))
              && (r == Success("portrait/") <==> Near(ratio, 9.0 / 16.0))
              && (r == Success("square/") <==> Near(ratio, 1.0))
              && (r == Success("other/") <==> !Near(ratio, 16.0 / 9.0) && !Near(ratio, 9.0 / 16.0) && !Near(ratio, 1.0))
  {
    match probe
    case ProbeFailed => Failure(FfprobeFailed)
    case Probed(streams) =>
      if |streams| == 0 then Failure(NoStreams)
      else
        var stream := streams[0];
        if stream.width == 0 || stream.height == 0 then Failure(InvalidDimensions)
        else Success(Prefix(Classify(Ratio(stream.width, stream.height))))
  }

  /** Only the first stream matters: probes that agree on it classify alike. */
  lemma OnlyFirstStreamConsulted(a: seq<Stream>, b: seq<Stream>)
    requires |a| > 0 && |b| > 0 && a[0] == b[0]
    ensures GetVideoAspectRatio(Probed(a)) == GetVideoAspectRatio(Probed(b))
  {
  }

  /** |x| < t exactly when |x * c| < t * c, for a positive scale c. */
  lemma ScaleWindow(x: real, t: real, c: real)
    requires c > 0.0
    ensures Abs(x) < t <==> Abs(x * c) < t * c
  {
    if x >= 0.0 {
      assert x * c >= 0.0;
    } else {
      assert x * c < 0.0;
      assert Abs(x * c) == (-x) * c;
    }
  }

  /**
   * The window around p/q (q > 0) in integers:
   * |w/h - p/q| < 1/10 exactly when 10 * |q*w - p*h| < q * |h|.
   */
  lemma NearAsIntegers(w: int, h: int, p: int, q: int)
    requires h != 0 && q > 0
    ensures Near(Ratio(w, h), p as real / q as real) <==> 10 * IntAbs(q * w - p * h) < q * IntAbs(h)
  {
    var r := Ratio(w, h);
    var d := r - p as real / q as real;
    var c := q as real * IntAbs(h) as real;
    assert r * h as real == w as real;
    assert d * (q as real * h as real) == (q * w - p * h) as real;
    if h > 0 {
      assert d * c == (q * w - p * h) as real;
    } else {
      assert d * c == - (q * w - p * h) as real;
    }
    assert Abs(d * c) == IntAbs(q * w - p * h) as real;
    ScaleWindow(d, Tolerance, c);
  }

  /** The classifier on integers: the same decision without division. */
  function ClassifyDimensions(width: int, height: int): Orientation
    requires height != 0
  {
    if 10 * IntAbs(9 * width - 16 * height) < 9 * IntAbs(height) then Landscape
    else if 10 * IntAbs(16 * width - 9 * height) < 16 * IntAbs(height) then Portrait
    else if 10 * IntAbs(width - height) < IntAbs(height) then Square
    else Other
  }

  lemma ClassifyMatchesDimensions(width: int, height: int)
    requires height != 0
    ensures Classify(Ratio(width, height)) == ClassifyDimensions(width, height)
  {
    NearAsIntegers(width, height, 16, 9);
    NearAsIntegers(width, height, 9, 16);
    NearAsIntegers(width, height, 1, 1);
    assert 1 as real / 1 as real == 1.0;
  }

  /** Examples: 1920x1080, 1280x720, 1080x1920, 1000x1000 and 1280x400. */
  lemma OrientationExamples()
    ensures GetVideoAspectRatio(Probed([Stream(1920, 1080)])) == Success("landscape/")
    ensures GetVideoAspectRatio(Probed([Stream(1280, 720)])) == Success("landscape/")
    ensures GetVideoAspectRatio(Probed([Stream(1080, 1920)])) == Success("portrait/")
    ensures GetVideoAspectRatio(Probed([Stream(1000, 1000)])) == Success("square/")
    ensures GetVideoAspectRatio(Probed([Stream(1280, 400)])) == Success("other/")
  {
    ClassifyMatchesDimensions(1920, 1080);
    ClassifyMatchesDimensions(1280, 720);
    ClassifyMatchesDimensions(1080, 1920);
    ClassifyMatchesDimensions(1000, 1000);
    ClassifyMatchesDimensions(1280, 400);
  }
}
