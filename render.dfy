/** Render planning (video_generator.py): what `VideoGenerator` puts into the
    video, as a plan of clips rather than pixels.  A scene becomes a list of
    segments (images with or without the zoom, looped videos, or a black
    background) under a caption; the video is an optional title card, the
    scenes in order, an optional ending card and an optional background
    track.  Everything the library reads from files (image and video sizes,
    video and audio lengths, whether a file exists, the height of rendered
    text) comes in as a `Probe`. */
module Render {
  import opened Wrappers
  import opened PyText
  import opened Media
  import opened Analysis

  // The portrait format and the defaults of `VideoGenerator.__init__`.
  const Width := 1080
  const Height := 1920
  const Fps := 30
  const Font := "Arial"
  const FontSize := 70
  const DefaultSceneDuration := 5

  /** Title and ending cards last three seconds. */
  const CardSeconds: real := 3.0
  const EndingText := "ご視聴ありがとうございました！"

  /** A bottom caption sits this far above the lower edge ... */
  const CaptionMargin := 100
  /** ... on a background 40 pixels taller than its text. */
  const CaptionPadding := 40

  const MinSceneSeconds := 3
  const MaxSceneSeconds := 8
  const BgmVolume: real := 0.5

  const ImageSuffixes: seq<string> := [".jpg", ".jpeg", ".png", ".bmp"]
  const VideoSuffixes: seq<string> := [".mp4", ".mov", ".avi"]

  type Pos = n: int | n > 0 witness 1
  type Seconds = r: real | r >= 0.0

  /** What the libraries read from the file system and the text renderer. */
  datatype Probe = Probe(
    imageSize: string -> (Pos, Pos),
    videoSize: string -> (Pos, Pos),
    videoDuration: string -> Seconds,
    fileExists: string -> bool,
    audioDuration: string -> Seconds,
    textHeight: string -> nat)

  // ---------------------------------------------------------------------
  // Geometry

  /** A crop window `[x1, x2) x [y1, y2)` on a resized frame. */
  datatype Window = Window(x1: int, y1: int, x2: int, y2: int)

  /** A source resized to `width` x `height`, then cropped to `crop` if any. */
  datatype Frame = Frame(width: int, height: int, crop: Option<Window>)

  /** The crop is a full-format window lying inside the resized frame. */
  predicate FitsFormat(f: Frame)
  {
    f.crop.Some? ==>
      var c := f.crop.value;
      && 0 <= c.x1 && c.x2 <= f.width && c.x2 - c.x1 == Width
      && 0 <= c.y1 && c.y2 <= f.height && c.y2 - c.y1 == Height
  }

  lemma DivAtLeast(a: int, b: int, d: int)
    requires d > 0 && a >= b * d
    ensures a / d >= b
  {
    var q, r := a / d, a % d;
    assert a == q * d + r && 0 <= r < d;
    assert (q - b + 1) * d > 0;
  }

  /** `create_image_clip`'s resize and crop of a `w` x `h` image.  The aspect
      test `w/h > 1080/1920` is taken in exact arithmetic as
      `w*1920 > 1080*h`, and `int(a*b/c)` as floor division. */
  function ImageFrame(w: Pos, h: Pos): (f: Frame)
    ensures FitsFormat(f)
  {
    if w * Height > Width * h then
      var newWidth := w * Height / h;
      DivAtLeast(w * Height, Width, h);
      var x := (newWidth - Width) / 2;
      Frame(newWidth, Height, Some(Window(x, 0, x + Width, Height)))
    else
      var newHeight := h * Width / w;
      DivAtLeast(h * Width, Height, w);
      if newHeight > Height then
        var y := (newHeight - Height) / 2;
        Frame(Width, newHeight, Some(Window(0, y, Width, y + Height)))
      else Frame(Width, newHeight, None)
  }

  /** A landscape image is scaled to the full height, at least as wide as
      the format, and cut to a centred full-height window; any other image is
      scaled to the full width, at least as high as the format, and cut to a
      centred window only when it comes out higher. */
  lemma ImageFrameGeometry(w: Pos, h: Pos)
    ensures var f := ImageFrame(w, h);
      && (w * Height > Width * h ==>
            && f.height == Height && f.width == w * Height / h && f.width >= Width && f.crop.Some?
            && f.crop.value.x1 == (f.width - Width) / 2 && f.crop.value.y1 == 0)
      && (w * Height <= Width * h ==>
            && f.width == Width && f.height == h * Width / w && f.height >= Height
            && (f.crop.Some? <==> f.height > Height)
            && (f.crop.Some? ==> f.crop.value.x1 == 0 && f.crop.value.y1 == (f.height - Height) / 2))
  {
    if w * Height > Width * h {
      DivAtLeast(w * Height, Width, h);
    } else {
      DivAtLeast(h * Width, Height, w);
    }
  }

  /** The resize of a video to the full height, cropped to the centre when
      it comes out wider than the format.  A narrower video is not padded. */
  function VideoFrame(w: Pos, h: Pos): (f: Frame)
    ensures FitsFormat(f)
    ensures f.height == Height
    ensures f.crop.Some? <==> f.width > Width
    ensures f.crop.Some? ==> f.crop.value.x1 == (f.width - Width) / 2
  {
    var newWidth := w * Height / h;
    if newWidth > Width then
      var x := (newWidth - Width) / 2;
      Frame(newWidth, Height, Some(Window(x, 0, x + Width, Height)))
    else Frame(newWidth, Height, None)
  }

  /** Where a caption of rendered text height `textH` is placed: the
      background is `textH + 40` high and ends 100 pixels above the bottom. */
  function CaptionTop(textH: nat): (y: int)
    ensures y + (textH + CaptionPadding) + CaptionMargin == Height
  {
    Height - (textH + CaptionPadding) - CaptionMargin
  }

  // ---------------------------------------------------------------------
  // Durations

  /** `max(3, min(8, scene_duration))`. */
  function ClampSceneDuration(d: int): (r: int)
    ensures MinSceneSeconds <= r <= MaxSceneSeconds
    ensures MinSceneSeconds <= d <= MaxSceneSeconds ==> r == d
    ensures d < MinSceneSeconds ==> r == MinSceneSeconds
    ensures d > MaxSceneSeconds ==> r == MaxSceneSeconds
  {
    var m := if d < MaxSceneSeconds then d else MaxSceneSeconds;
    if m > MinSceneSeconds then m else MinSceneSeconds
  }

  /** The slider allows ten seconds, but a scene never lasts more than eight. */
  lemma SliderMaximumIsClamped()
    ensures ClampSceneDuration(10) == 8
  {
  }

  /** `int(total / d) + 1`: how often a piece of length `d` is repeated to
      cover `total`. */
  function LoopCount(total: real, d: real): (n: nat)
    requires 0.0 < d
    requires 0.0 <= total
  {
    (total / d).Floor + 1
  }

  /** The repetitions cover `total` and one repetition fewer would not reach
      past it, so the cut to `total` removes less than one piece. */
  lemma LoopCovers(total: real, d: real)
    requires 0.0 < d < total
    ensures LoopCount(total, d) >= 2
    ensures LoopCount(total, d) as real * d > total
    ensures (LoopCount(total, d) - 1) as real * d <= total
  {
    var x := total / d;
    var f := x.Floor;
    assert x * d == total;
    assert f as real <= x < f as real + 1.0;
    assert (x - 1.0) * d == total - d;
    assert x > 1.0;
    var n := LoopCount(total, d);
    assert n as real == x.Floor as real + 1.0;
    assert n as real > x;
    assert n as real * d > x * d;
    assert (n - 1) as real <= x;
    assert (n - 1) as real * d <= x * d;
    assert x * d == total;
    assert n as real * d > total;
  }

  // ---------------------------------------------------------------------
  // Scene plans

  datatype Kind = ImageFile | VideoFile | Unsupported

  /** `path.lower().endswith(...)`, images tested first. */
  function Classify(path: string): Kind
  {
    if EndsWithLower(path, ".jpg") || EndsWithLower(path, ".jpeg") || EndsWithLower(path, ".png") || EndsWithLower(path, ".bmp")
    then ImageFile
    else if EndsWithLower(path, ".mp4") || EndsWithLower(path, ".mov") || EndsWithLower(path, ".avi")
    then VideoFile
    else Unsupported
  }

  /** The tests are those of the two suffix lists, images first. */
  lemma ClassifyBySuffixLists(path: string)
    ensures var lower := AsciiLower(path);
      && (Classify(path) == ImageFile <==> EndsWithAny(lower, ImageSuffixes))
      && (Classify(path) == VideoFile <==> !EndsWithAny(lower, ImageSuffixes) && EndsWithAny(lower, VideoSuffixes))
  {
    var lower := AsciiLower(path);
    EndsWithLowerMeans(path, ".jpg");
    EndsWithLowerMeans(path, ".jpeg");
    EndsWithLowerMeans(path, ".png");
    EndsWithLowerMeans(path, ".bmp");
    EndsWithLowerMeans(path, ".mp4");
    EndsWithLowerMeans(path, ".mov");
    EndsWithLowerMeans(path, ".avi");
    if EndsWithAny(lower, ImageSuffixes) {
      var k :| 0 <= k < |ImageSuffixes| && EndsWith(lower, ImageSuffixes[k]);
      assert k == 0 || k == 1 || k == 2 || k == 3;
    } else {
      assert !EndsWith(lower, ImageSuffixes[0]) && !EndsWith(lower, ImageSuffixes[1]);
      assert !EndsWith(lower, ImageSuffixes[2]) && !EndsWith(lower, ImageSuffixes[3]);
    }
    if EndsWithAny(lower, VideoSuffixes) {
      var k :| 0 <= k < |VideoSuffixes| && EndsWith(lower, VideoSuffixes[k]);
      assert k == 0 || k == 1 || k == 2;
    } else {
      assert !EndsWith(lower, VideoSuffixes[0]) && !EndsWith(lower, VideoSuffixes[1]);
      assert !EndsWith(lower, VideoSuffixes[2]);
    }
  }

  datatype Segment =
    | Still(path: string, frame: Frame, duration: real)
      /** an unzoomed first half and a zoomed second half */
    | Zoomed(path: string, frame: Frame, firstHalf: real, secondHalf: real, duration: real)
      /** a video repeated `loops` times and cut to `duration` */
    | Moving(path: string, frame: Frame, loops: nat, duration: real)
    | Black(width: int, height: int, duration: real)

  function SegmentDuration(s: Segment): real
  {
    s.duration
  }

  datatype Caption = Caption(text: string, duration: real, top: int)

  datatype ScenePlan = ScenePlan(segments: seq<Segment>, caption: Caption)

  /** What one media path contributes: a segment, nothing (an unsupported
      format), or a failure (a video of length zero, whose loop count would
      divide by zero). */
  datatype Step = Add(segment: Segment) | Skip | Fail

  /** The share of the scene each path gets: the scene duration divided by
      the number of all paths, supported or not. */
  function MediaDuration(sceneDuration: int, count: nat): (md: real)
    ensures sceneDuration > 0 ==> md > 0.0
  {
    if count > 0 then sceneDuration as real / count as real else sceneDuration as real
  }

  /** `n` pieces of length `d` laid end to end. */
  function Times(n: nat, d: real): real
  {
    if n == 0 then 0.0 else Times(n - 1, d) + d
  }

  lemma {:induction false} TimesIsProduct(n: nat, d: real)
    ensures Times(n, d) == n as real * d
  {
    if n > 0 {
      TimesIsProduct(n - 1, d);
      assert n as real * d == (n - 1) as real * d + d;
    }
  }

  lemma {:induction false} TimesMonotonic(m: nat, n: nat, d: real)
    requires m <= n && d >= 0.0
    ensures Times(m, d) <= Times(n, d)
  {
    if m < n {
      TimesMonotonic(m, n - 1, d);
    }
  }

  /** `m` of the `count` shares take at most the scene, and all of them
      exactly the scene. */
  lemma SharesOfScene(sceneDuration: int, count: nat, m: nat)
    requires sceneDuration > 0 && 0 < count && m <= count
    ensures Times(m, MediaDuration(sceneDuration, count)) <= sceneDuration as real
    ensures Times(count, MediaDuration(sceneDuration, count)) == sceneDuration as real
  {
    var md := MediaDuration(sceneDuration, count);
    TimesIsProduct(count, md);
    assert count as real * md == sceneDuration as real;
    TimesMonotonic(m, count, md);
  }

  /** The clip for the path at raw position `i`. */
  function PlanMedia(path: string, i: nat, md: real, probe: Probe): Step
    requires md > 0.0
  {
    match Classify(path)
    case ImageFile =>
      var frame := ImageFrame(probe.imageSize(path).0, probe.imageSize(path).1);
      Add(if i % 2 == 0 then Zoomed(path, frame, md / 2.0, md / 2.0, md) else Still(path, frame, md))
    case VideoFile =>
      var d := probe.videoDuration(path);
      var frame := VideoFrame(probe.videoSize(path).0, probe.videoSize(path).1);
      if d < md then
        (if d == 0.0 then Fail else Add(Moving(path, frame, LoopCount(md, d), md)))
      else Add(Moving(path, frame, 1, md))
    case Unsupported => Skip
  }

  /** The segments of the first `k` paths, or `None` once one has failed. */
  function PlanSegments(paths: seq<string>, k: nat, md: real, probe: Probe): Option<seq<Segment>>
    requires k <= |paths| && md > 0.0
  {
    if k == 0 then Some([])
    else
      match PlanSegments(paths, k - 1, md, probe)
      case None => None
      case Some(segs) =>
        match PlanMedia(paths[k - 1], k - 1, md, probe)
        case Add(s) => Some(segs + [s])
        case Skip => Some(segs)
        case Fail => None
  }

  /** `create_scene_clip(scene_text, media_paths, scene_duration)`. */
  function ScenePlanOf(text: string, paths: seq<string>, sceneDuration: int, probe: Probe): Option<ScenePlan>
    requires sceneDuration > 0
  {
    var md := MediaDuration(sceneDuration, |paths|);
    match PlanSegments(paths, |paths|, md, probe)
    case None => None
    case Some(segs) =>
      var base := if segs == [] then [Black(Width, Height, sceneDuration as real)] else segs;
      Some(ScenePlan(base, Caption(text, sceneDuration as real, CaptionTop(probe.textHeight(text)))))
  }

  /** How many of the first `k` paths have a supported format. */
  function SupportedCount(paths: seq<string>, k: nat): (n: nat)
    requires k <= |paths|
    ensures n <= k
  {
    if k == 0 then 0
    else SupportedCount(paths, k - 1) + (if Classify(paths[k - 1]) != Unsupported then 1 else 0)
  }

  function SegmentsDuration(segs: seq<Segment>): real
  {
    if segs == [] then 0.0 else SegmentsDuration(segs[..|segs| - 1]) + SegmentDuration(segs[|segs| - 1])
  }

  /** Each supported path gives exactly one segment of length `md`. */
  lemma {:induction false} SegmentsOfPaths(paths: seq<string>, k: nat, md: real, probe: Probe)
    requires k <= |paths| && md > 0.0
    ensures var r := PlanSegments(paths, k, md, probe);
      r.Some? ==>
        && |r.value| == SupportedCount(paths, k)
        && (forall j :: 0 <= j < |r.value| ==> SegmentDuration(r.value[j]) == md)
  {
    if k > 0 {
      SegmentsOfPaths(paths, k - 1, md, probe);
      var r := PlanSegments(paths, k, md, probe);
      if r.Some? {
        var prev := PlanSegments(paths, k - 1, md, probe).value;
        var step := PlanMedia(paths[k - 1], k - 1, md, probe);
        StepShape(paths[k - 1], k - 1, md, probe);
        if step.Add? {
          assert r.value == prev + [step.segment];
          forall j | 0 <= j < |r.value| ensures SegmentDuration(r.value[j]) == md {
            if j < |prev| {
              assert r.value[j] == prev[j];
            }
          }
        } else {
          assert r.value == prev;
        }
      }
    }
  }

  /** A supported path gives a segment of length `md` or fails, an
      unsupported one is skipped; a zoomed image is an unzoomed half followed
      by a zoomed half. */
  lemma StepShape(path: string, i: nat, md: real, probe: Probe)
    requires md > 0.0
    ensures var step := PlanMedia(path, i, md, probe);
      && (step.Skip? <==> Classify(path) == Unsupported)
      && (step.Fail? ==> Classify(path) == VideoFile && probe.videoDuration(path) == 0.0)
      && (step.Add? ==> SegmentDuration(step.segment) == md)
      && (step.Add? && step.segment.Zoomed? ==>
            step.segment.firstHalf == md / 2.0 && step.segment.secondHalf == md / 2.0)
  {
  }

  /** A video shorter than its share is repeated and then cut: its `loops`
      copies last at least the share, and one copy fewer would not pass it. */
  lemma VideoLoopsCover(path: string, i: nat, md: real, probe: Probe)
    requires md > 0.0
    ensures var step := PlanMedia(path, i, md, probe);
      step.Add? && step.segment.Moving? ==>
        && step.segment.loops as real * probe.videoDuration(path) >= md
        && (step.segment.loops - 1) as real * probe.videoDuration(path) <= md
  {
    var d := probe.videoDuration(path);
    if Classify(path) == VideoFile && 0.0 < d < md {
      LoopCovers(md, d);
    }
  }

  /** The raw positions, among the first `k`, of the paths with a supported
      format, in selection order. */
  function SupportedIndices(paths: seq<string>, k: nat): (ix: seq<nat>)
    requires k <= |paths|
    ensures |ix| == SupportedCount(paths, k)
    ensures forall j :: 0 <= j < |ix| ==> ix[j] < k && Classify(paths[ix[j]]) != Unsupported
  {
    if k == 0 then []
    else SupportedIndices(paths, k - 1) + (if Classify(paths[k - 1]) != Unsupported then [k - 1] else [])
  }

  /** The supported positions are listed in increasing order and none is
      missed. */
  lemma {:induction false} SupportedIndicesOrdered(paths: seq<string>, k: nat)
    requires k <= |paths|
    ensures forall a, b :: 0 <= a < b < |SupportedIndices(paths, k)| ==>
      SupportedIndices(paths, k)[a] < SupportedIndices(paths, k)[b]
  {
    if k > 0 {
      var ix0 := SupportedIndices(paths, k - 1);
      assert forall a, b :: 0 <= a < b < |ix0| ==> ix0[a] < ix0[b] by {
        SupportedIndicesOrdered(paths, k - 1);
      }
      var ix := SupportedIndices(paths, k);
      if Classify(paths[k - 1]) != Unsupported {
        assert ix == ix0 + [k - 1];
        forall a, b | 0 <= a < b < |ix| ensures ix[a] < ix[b] {
          if b < |ix0| {
            assert ix[a] == ix0[a] && ix[b] == ix0[b];
          } else {
            assert ix[a] == ix0[a];
          }
        }
      } else {
        assert ix == ix0;
      }
    }
  }

  /** No supported position is missed. */
  lemma {:induction false} SupportedIndicesComplete(paths: seq<string>, k: nat, m: nat)
    requires m < k <= |paths| && Classify(paths[m]) != Unsupported
    ensures m in SupportedIndices(paths, k)
  {
    var ix0 := SupportedIndices(paths, k - 1);
    if m < k - 1 {
      assert m in ix0 by {
        SupportedIndicesComplete(paths, k - 1, m);
      }
    }
    assert SupportedIndices(paths, k) == ix0 + (if Classify(paths[k - 1]) != Unsupported then [k - 1] else []);
  }

  /** The segment `s` shows `path`, found at raw position `i`: an image is
      zoomed exactly when `i` is even, a video is a looped video. */
  predicate SegmentOfPath(s: Segment, path: string, i: nat)
  {
    && !s.Black? && s.path == path
    && (Classify(path) == ImageFile ==> (s.Zoomed? || s.Still?) && (s.Zoomed? <==> i % 2 == 0))
    && (Classify(path) == VideoFile ==> s.Moving?)
  }

  /** Segment `j` shows the path at raw position `ix[j]`. */
  predicate Follows(segs: seq<Segment>, paths: seq<string>, ix: seq<nat>)
  {
    && |segs| == |ix|
    && forall j :: 0 <= j < |ix| ==> ix[j] < |paths| && SegmentOfPath(segs[j], paths[ix[j]], ix[j])
  }

  lemma FollowsAppend(segs: seq<Segment>, paths: seq<string>, ix: seq<nat>, s: Segment, i: nat)
    requires Follows(segs, paths, ix) && i < |paths| && SegmentOfPath(s, paths[i], i)
    ensures Follows(segs + [s], paths, ix + [i])
  {
  }

  /** What a supported path contributes is a segment showing that path. */
  lemma StepSegment(path: string, i: nat, md: real, probe: Probe)
    requires md > 0.0
    ensures var step := PlanMedia(path, i, md, probe);
      step.Add? ==> SegmentOfPath(step.segment, path, i)
  {
  }

  /** The segments follow the supported paths in selection order, whatever
      the mix of images, videos and skipped files: segment `j` shows the
      `j`-th supported path, and an image is zoomed exactly when its raw
      position among all paths is even. */
  lemma {:induction false} SegmentsFollowPaths(paths: seq<string>, k: nat, md: real, probe: Probe)
    requires k <= |paths| && md > 0.0
    ensures var r := PlanSegments(paths, k, md, probe);
      r.Some? ==> Follows(r.value, paths, SupportedIndices(paths, k))
  {
    if k > 0 {
      var r := PlanSegments(paths, k, md, probe);
      if r.Some? {
        var prev := PlanSegments(paths, k - 1, md, probe).value;
        var ix0 := SupportedIndices(paths, k - 1);
        assert Follows(prev, paths, ix0) by {
          SegmentsFollowPaths(paths, k - 1, md, probe);
        }
        var step := PlanMedia(paths[k - 1], k - 1, md, probe);
        assert step.Skip? <==> Classify(paths[k - 1]) == Unsupported by {
          StepShape(paths[k - 1], k - 1, md, probe);
        }
        if step.Add? {
          assert SegmentOfPath(step.segment, paths[k - 1], k - 1) by {
            StepSegment(paths[k - 1], k - 1, md, probe);
          }
          assert r.value == prev + [step.segment];
          assert SupportedIndices(paths, k) == ix0 + [k - 1];
          FollowsAppend(prev, paths, ix0, step.segment, k - 1);
        } else {
          assert r.value == prev;
          assert SupportedIndices(paths, k) == ix0;
        }
      }
    }
  }

  /** Segments of equal length `md` add up to their number times `md`. */
  lemma {:induction false} EqualSegmentsDuration(segs: seq<Segment>, md: real)
    requires forall j :: 0 <= j < |segs| ==> SegmentDuration(segs[j]) == md
    ensures SegmentsDuration(segs) == Times(|segs|, md)
  {
    if segs != [] {
      var init := segs[..|segs| - 1];
      EqualSegmentsDuration(init, md);
    }
  }

  /** Once a path has failed, the whole scene fails. */
  lemma {:induction false} FailurePersists(paths: seq<string>, i: nat, k: nat, md: real, probe: Probe)
    requires i <= k <= |paths| && md > 0.0
    requires PlanSegments(paths, i, md, probe).None?
    ensures PlanSegments(paths, k, md, probe).None?
  {
    if k > i {
      FailurePersists(paths, i, k - 1, md, probe);
    }
  }

  /** The caption spans the whole scene at the bottom, and the media, which
      get an equal share of the scene each, never run longer than it. */
  lemma SceneShape(text: string, paths: seq<string>, sceneDuration: int, probe: Probe)
    requires sceneDuration > 0
    ensures var p := ScenePlanOf(text, paths, sceneDuration, probe);
      p.Some? ==>
        && p.value.caption == Caption(text, sceneDuration as real, CaptionTop(probe.textHeight(text)))
        && |p.value.segments| > 0
        && SegmentsDuration(p.value.segments) <= sceneDuration as real
  {
    var md := MediaDuration(sceneDuration, |paths|);
    SegmentsOfPaths(paths, |paths|, md, probe);
    var p := ScenePlanOf(text, paths, sceneDuration, probe);
    if p.Some? {
      var segs := PlanSegments(paths, |paths|, md, probe).value;
      EqualSegmentsDuration(segs, md);
      if segs == [] {
        var black := [Black(Width, Height, sceneDuration as real)];
        assert p.value.segments == black;
        assert black[..0] == [];
        assert SegmentsDuration(black) == sceneDuration as real;
      } else {
        assert p.value.segments == segs;
        assert |segs| <= |paths|;
        SharesOfScene(sceneDuration, |paths|, |segs|);
        assert SegmentsDuration(segs) == Times(|segs|, md);
      }
    }
  }

  /** When every path has a supported format there is one segment per path
      and the segments fill the scene exactly. */
  lemma AllSupportedFillScene(text: string, paths: seq<string>, sceneDuration: int, probe: Probe)
    requires sceneDuration > 0 && |paths| > 0
    requires SupportedCount(paths, |paths|) == |paths|
    ensures var p := ScenePlanOf(text, paths, sceneDuration, probe);
      p.Some? ==>
        && |p.value.segments| == |paths|
        && (forall j :: 0 <= j < |paths| ==> SegmentDuration(p.value.segments[j]) == sceneDuration as real / |paths| as real)
        && SegmentsDuration(p.value.segments) == sceneDuration as real
  {
    var md := MediaDuration(sceneDuration, |paths|);
    SegmentsOfPaths(paths, |paths|, md, probe);
    var r := PlanSegments(paths, |paths|, md, probe);
    if r.Some? {
      EqualSegmentsDuration(r.value, md);
      SharesOfScene(sceneDuration, |paths|, |paths|);
    }
  }

  /** With no usable path the scene is a single black full-format segment
      lasting the whole scene. */
  lemma NoUsableMediaIsBlack(text: string, paths: seq<string>, sceneDuration: int, probe: Probe)
    requires sceneDuration > 0
    requires SupportedCount(paths, |paths|) == 0
    ensures var p := ScenePlanOf(text, paths, sceneDuration, probe);
      p.Some? && p.value.segments == [Black(Width, Height, sceneDuration as real)]
  {
    var md := MediaDuration(sceneDuration, |paths|);
    SegmentsOfPaths(paths, |paths|, md, probe);
    NoUsableNeverFails(paths, |paths|, md, probe);
  }

  lemma {:induction false} NoUsableNeverFails(paths: seq<string>, k: nat, md: real, probe: Probe)
    requires k <= |paths| && md > 0.0
    requires SupportedCount(paths, k) == 0
    ensures PlanSegments(paths, k, md, probe).Some?
  {
    if k > 0 {
      NoUsableNeverFails(paths, k - 1, md, probe);
    }
  }

  /** Images alternate: the image at an even raw position is zoomed, the
      one at an odd position is not. */
  lemma {:induction false} ImagesAlternateZoom(paths: seq<string>, k: nat, md: real, probe: Probe)
    requires k <= |paths| && md > 0.0
    requires forall j :: 0 <= j < k ==> Classify(paths[j]) == ImageFile
    ensures var r := PlanSegments(paths, k, md, probe);
      && r.Some? && |r.value| == k
      && forall j :: 0 <= j < k ==>
           (r.value[j].Zoomed? <==> j % 2 == 0) && (r.value[j].Zoomed? || r.value[j].Still?) && r.value[j].path == paths[j]
  {
    if k > 0 {
      ImagesAlternateZoom(paths, k - 1, md, probe);
      var path := paths[k - 1];
      var prev := PlanSegments(paths, k - 1, md, probe).value;
      var frame := ImageFrame(probe.imageSize(path).0, probe.imageSize(path).1);
      var s := if (k - 1) % 2 == 0 then Zoomed(path, frame, md / 2.0, md / 2.0, md) else Still(path, frame, md);
      assert PlanMedia(path, k - 1, md, probe) == Add(s);
      var r := prev + [s];
      assert PlanSegments(paths, k, md, probe) == Some(r);
      forall j | 0 <= j < k
        ensures (r[j].Zoomed? <==> j % 2 == 0) && (r[j].Zoomed? || r[j].Still?) && r[j].path == paths[j]
      {
        if j < k - 1 {
          assert r[j] == prev[j];
        }
      }
    }
  }

  /** Two images: `2 x 2.5 s` in a five-second scene, the first zoomed. */
  lemma TwoImagesExample(probe: Probe)
    ensures var p := ScenePlanOf("s", ["a.jpg", "b.PNG"], 5, probe);
      && p.Some? && |p.value.segments| == 2
      && p.value.segments[0].Zoomed? && p.value.segments[0].duration == 2.5
      && p.value.segments[0].firstHalf == 1.25 && p.value.segments[0].secondHalf == 1.25
      && p.value.segments[1].Still? && p.value.segments[1].duration == 2.5
  {
    EndsWithLowerByChars("a.jpg", ".jpg");
    EndsWithLowerByChars("b.PNG", ".png");
    ImagesAlternateZoom(["a.jpg", "b.PNG"], 2, 2.5, probe);
  }

  /** An unsupported path still takes its share and its raw position: after
      a GIF, an image alone gets half a six-second scene and no zoom. */
  lemma SkippedPathKeepsShareExample(probe: Probe)
    ensures var p := ScenePlanOf("s", ["a.gif", "b.jpg"], 6, probe);
      && p.Some? && |p.value.segments| == 1
      && p.value.segments[0].Still? && p.value.segments[0].duration == 3.0
      && p.value.caption.duration == 6.0
  {
    NotImageByLastChar("a.gif");
    NotVideoByLastChar("a.gif");
    EndsWithLowerByChars("b.jpg", ".jpg");
    var paths := ["a.gif", "b.jpg"];
    var md := MediaDuration(6, 2);
    assert md == 3.0;
    assert PlanMedia(paths[0], 0, md, probe) == Skip;
    assert PlanSegments(paths, 1, md, probe) == Some([]);
    var frame := ImageFrame(probe.imageSize("b.jpg").0, probe.imageSize("b.jpg").1);
    assert PlanMedia(paths[1], 1, md, probe) == Add(Still("b.jpg", frame, md));
    var seg: seq<Segment> := [Still("b.jpg", frame, md)];
    assert [] + seg == seg;
    assert PlanSegments(paths, 2, md, probe) == Some(seg);
  }

  /** The format test ignores case, and a medium URL that carries a query
      string after its extension is skipped. */
  lemma ClassifyExamples()
    ensures Classify("X.JPEG") == ImageFile
    ensures Classify("clip.MoV") == VideoFile
    ensures Classify("photo.jpeg?auto=compress") == Unsupported
  {
    EndsWithLowerByChars("X.JPEG", ".jpeg");
    NotImageByLastChar("clip.MoV");
    EndsWithLowerByChars("clip.MoV", ".mov");
    NotImageByLastChar("photo.jpeg?auto=compress");
    NotVideoByLastChar("photo.jpeg?auto=compress");
  }

  /** A path whose lower-cased last character ends none of the image
      suffixes is not an image. */
  lemma NotImageByLastChar(path: string)
    requires path != []
    requires AsciiLowerChar(path[|path| - 1]) !in "gp"
    ensures Classify(path) != ImageFile
  {
    LastCharDiffers(path, ".jpg");
    LastCharDiffers(path, ".jpeg");
    LastCharDiffers(path, ".png");
    LastCharDiffers(path, ".bmp");
  }

  /** Likewise for the video suffixes. */
  lemma NotVideoByLastChar(path: string)
    requires path != []
    requires AsciiLowerChar(path[|path| - 1]) !in "4vi"
    ensures Classify(path) != VideoFile
  {
    LastCharDiffers(path, ".mp4");
    LastCharDiffers(path, ".mov");
    LastCharDiffers(path, ".avi");
  }

  // ---------------------------------------------------------------------
  // Video plans

  datatype Clip =
    | TextCard(text: string, duration: real)
    | SceneClip(id: string, plan: ScenePlan)

  /** A scene clip lasts as long as its longest layer, its caption. */
  function ClipDuration(c: Clip): real
  {
    match c
    case TextCard(_, d) => d
    case SceneClip(_, p) => p.caption.duration
  }

  function TotalDuration(clips: seq<Clip>): real
  {
    if clips == [] then 0.0 else ClipDuration(clips[0]) + TotalDuration(clips[1..])
  }

  lemma {:induction false} TotalDurationAppend(a: seq<Clip>, b: seq<Clip>)
    ensures TotalDuration(a + b) == TotalDuration(a) + TotalDuration(b)
  {
    if a == [] {
      assert a + b == b;
    } else {
      assert (a + b)[0] == a[0];
      assert (a + b)[1..] == a[1..] + b;
      TotalDurationAppend(a[1..], b);
    }
  }

  /** Clips of equal length `d` add up to their number times `d`. */
  lemma {:induction false} EqualClipsDuration(clips: seq<Clip>, d: real)
    requires forall j :: 0 <= j < |clips| ==> ClipDuration(clips[j]) == d
    ensures TotalDuration(clips) == Times(|clips|, d)
  {
    if clips != [] {
      EqualClipsDuration(clips[1..], d);
      TimesFirst(|clips| - 1, d);
    }
  }

  lemma {:induction false} TimesSum(m: nat, n: nat, d: real)
    ensures Times(m + n, d) == Times(m, d) + Times(n, d)
  {
    if n > 0 {
      TimesSum(m, n - 1, d);
    }
  }

  lemma {:induction false} TimesFirst(n: nat, d: real)
    ensures Times(n + 1, d) == d + Times(n, d)
  {
    if n > 0 {
      TimesFirst(n - 1, d);
    }
  }

  /** The background track: `loops` repetitions of the file, cut to
      `duration`, at `volume`. */
  datatype Bgm = Bgm(path: string, loops: nat, duration: real, volume: real)

  datatype VideoPlan = VideoPlan(clips: seq<Clip>, bgm: Option<Bgm>, outputPath: string)

  /** The background track for a video of length `total`, if a path is given
      and the file exists.  A track of length zero makes the loop count
      divide by zero; that error is caught and the video gets no sound. */
  function BgmFor(bgmPath: Option<string>, total: real, probe: Probe): Option<Bgm>
  {
    if bgmPath.None? || bgmPath.value == [] || !probe.fileExists(bgmPath.value) then None
    else
      var p := bgmPath.value;
      var d := probe.audioDuration(p);
      if d < total then
        (if d == 0.0 then None else Some(Bgm(p, LoopCount(total, d), total, BgmVolume)))
      else Some(Bgm(p, 1, total, BgmVolume))
  }

  /** The track always lasts exactly as long as the video, at half volume,
      and a short track is repeated often enough to cover the video. */
  lemma BgmCoversVideo(bgmPath: Option<string>, total: real, probe: Probe)
    ensures var b := BgmFor(bgmPath, total, probe);
      b.Some? ==>
        && b.value.duration == total && b.value.volume == BgmVolume
        && b.value.loops as real * probe.audioDuration(b.value.path) >= total
        && (b.value.loops > 1 ==> (b.value.loops - 1) as real * probe.audioDuration(b.value.path) <= total)
  {
    var b := BgmFor(bgmPath, total, probe);
    if b.Some? {
      var d := probe.audioDuration(b.value.path);
      if d < total {
        LoopCovers(total, d);
      }
    }
  }

  /** A ten-second track under a 35-second video is played four times and cut
      to 35 seconds. */
  lemma BgmExample(probe: Probe)
    requires probe.fileExists("bgm.mp3") && probe.audioDuration("bgm.mp3") == 10.0
    ensures BgmFor(Some("bgm.mp3"), 35.0, probe) == Some(Bgm("bgm.mp3", 4, 35.0, 0.5))
  {
    assert (35.0 / 10.0).Floor == 3;
  }

  /** `[item['local_path'] for item in items]`. */
  function LocalPaths(items: seq<MediaItem>): (paths: seq<string>)
    requires AllDownloaded(items)
    ensures |paths| == |items|
    ensures forall k :: 0 <= k < |items| ==> Some(paths[k]) == items[k].localPath
  {
    seq(|items|, k requires 0 <= k < |items| => items[k].localPath.value)
  }

  /** The media of the scene with key `id`: none when the scene has no entry
      in the selection. */
  function ScenePaths(id: string, mediaDict: map<string, seq<MediaItem>>): seq<string>
    requires id in mediaDict ==> AllDownloaded(mediaDict[id])
  {
    if id in mediaDict && mediaDict[id] != [] then LocalPaths(mediaDict[id]) else []
  }

  predicate MediaDownloaded(scenes: seq<SceneEntry>, mediaDict: map<string, seq<MediaItem>>)
  {
    forall k :: 0 <= k < |scenes| && scenes[k].id in mediaDict ==> AllDownloaded(mediaDict[scenes[k].id])
  }

  /** The plan `create_scene_clip` gives each scene, from its text and the
      paths of its selected media. */
  function ScenePlans(scenes: seq<SceneEntry>, mediaDict: map<string, seq<MediaItem>>,
                      sceneDuration: int, probe: Probe): (plans: seq<Option<ScenePlan>>)
    requires sceneDuration > 0 && MediaDownloaded(scenes, mediaDict)
    ensures |plans| == |scenes|
    ensures forall j :: 0 <= j < |scenes| ==>
      plans[j] == ScenePlanOf(scenes[j].text, ScenePaths(scenes[j].id, mediaDict), sceneDuration, probe)
  {
    seq(|scenes|, j requires 0 <= j < |scenes| =>
      ScenePlanOf(scenes[j].text, ScenePaths(scenes[j].id, mediaDict), sceneDuration, probe))
  }

  /** The clips of the first `k` scenes given the plan of each, or `None`
      once a plan has failed. */
  function CollectClips(scenes: seq<SceneEntry>, plans: seq<Option<ScenePlan>>, k: nat): Option<seq<Clip>>
    requires k <= |scenes| && k <= |plans|
  {
    if k == 0 then Some([])
    else
      match CollectClips(scenes, plans, k - 1)
      case None => None
      case Some(clips) =>
        match plans[k - 1]
        case None => None
        case Some(p) => Some(clips + [SceneClip(scenes[k - 1].id, p)])
  }

  function TitleClips(addTitle: bool, scenes: seq<SceneEntry>): seq<Clip>
  {
    if addTitle && scenes != [] then [TextCard(scenes[0].text, CardSeconds)] else []
  }

  function EndingClips(addEnding: bool): seq<Clip>
  {
    if addEnding then [TextCard(EndingText, CardSeconds)] else []
  }

  /** `generate_video(scenes, media_dict, output_filename, bgm_path)` for a
      generator with the given settings.  Joining no clips at all fails. */
  function PlanVideo(sceneDuration: int, addTitle: bool, addEnding: bool, outputDir: string,
                     scenes: seq<SceneEntry>, mediaDict: map<string, seq<MediaItem>>,
                     outputFilename: string, bgmPath: Option<string>, probe: Probe): Option<VideoPlan>
    requires MediaDownloaded(scenes, mediaDict)
  {
    var sd := ClampSceneDuration(sceneDuration);
    match CollectClips(scenes, ScenePlans(scenes, mediaDict, sd, probe), |scenes|)
    case None => None
    case Some(body) =>
      Assemble(TitleClips(addTitle, scenes) + body + EndingClips(addEnding), bgmPath, outputDir, outputFilename, probe)
  }

  /** The end of `generate_video`: the clips are concatenated (none at all is
      a failure), the background music is fitted to the result and the file
      goes to the output directory. */
  function Assemble(clips: seq<Clip>, bgmPath: Option<string>, outputDir: string, outputFilename: string,
                    probe: Probe): Option<VideoPlan>
  {
    if clips == [] then None
    else Some(VideoPlan(clips, BgmFor(bgmPath, TotalDuration(clips), probe), PathJoin(outputDir, outputFilename)))
  }

  /** `PlanVideo` once the scene clips are known. */
  lemma PlanVideoOfBody(sceneDuration: int, addTitle: bool, addEnding: bool, outputDir: string,
                        scenes: seq<SceneEntry>, mediaDict: map<string, seq<MediaItem>>,
                        outputFilename: string, bgmPath: Option<string>, probe: Probe, body: seq<Clip>)
    requires MediaDownloaded(scenes, mediaDict)
    requires CollectClips(scenes, ScenePlans(scenes, mediaDict, ClampSceneDuration(sceneDuration), probe), |scenes|) == Some(body)
    ensures PlanVideo(sceneDuration, addTitle, addEnding, outputDir, scenes, mediaDict, outputFilename, bgmPath, probe)
      == Assemble(TitleClips(addTitle, scenes) + body + EndingClips(addEnding), bgmPath, outputDir, outputFilename, probe)
  {
  }

  /** The clip of scene `e`: it carries the scene's key and its text as the
      caption, and lasts `sd` seconds. */
  predicate ClipOfScene(c: Clip, e: SceneEntry, sd: int)
  {
    && c.SceneClip? && c.id == e.id
    && c.plan.caption.text == e.text && c.plan.caption.duration == sd as real
    && ClipDuration(c) == sd as real
  }

  /** One scene further: the clips so far and the clip of the next scene. */
  lemma CollectStep(scenes: seq<SceneEntry>, plans: seq<Option<ScenePlan>>, k: nat)
    requires 0 < k <= |scenes| && k <= |plans|
    requires CollectClips(scenes, plans, k).Some?
    ensures CollectClips(scenes, plans, k - 1).Some? && plans[k - 1].Some?
    ensures CollectClips(scenes, plans, k).value
      == CollectClips(scenes, plans, k - 1).value + [SceneClip(scenes[k - 1].id, plans[k - 1].value)]
  {
  }

  /** A collection that reached scene `k` goes on with the plan of that scene. */
  lemma CollectExtend(scenes: seq<SceneEntry>, plans: seq<Option<ScenePlan>>, k: nat, clips: seq<Clip>)
    requires k < |scenes| && k < |plans|
    requires CollectClips(scenes, plans, k) == Some(clips) && plans[k].Some?
    ensures CollectClips(scenes, plans, k + 1) == Some(clips + [SceneClip(scenes[k].id, plans[k].value)])
  {
  }

  /** The clips come in scene order, one per scene, each with its scene's
      key and plan. */
  lemma {:induction false} CollectedInOrder(scenes: seq<SceneEntry>, plans: seq<Option<ScenePlan>>, k: nat)
    requires k <= |scenes| && k <= |plans|
    ensures var r := CollectClips(scenes, plans, k);
      r.Some? ==>
        && |r.value| == k
        && forall j :: 0 <= j < k ==> plans[j].Some? && r.value[j] == SceneClip(scenes[j].id, plans[j].value)
  {
    if k > 0 {
      CollectedInOrder(scenes, plans, k - 1);
      var r := CollectClips(scenes, plans, k);
      if r.Some? {
        CollectStep(scenes, plans, k);
        var prev := CollectClips(scenes, plans, k - 1).value;
        forall j | 0 <= j < k
          ensures plans[j].Some? && r.value[j] == SceneClip(scenes[j].id, plans[j].value)
        {
          if j < k - 1 {
            assert r.value[j] == prev[j];
          }
        }
      }
    }
  }

  /** Collecting succeeds exactly when no plan has failed. */
  lemma {:induction false} CollectSucceeds(scenes: seq<SceneEntry>, plans: seq<Option<ScenePlan>>, k: nat)
    requires k <= |scenes| && k <= |plans|
    ensures CollectClips(scenes, plans, k).Some? <==> forall j :: 0 <= j < k ==> plans[j].Some?
  {
    if k > 0 {
      CollectSucceeds(scenes, plans, k - 1);
    }
  }

  /** Each scene clip holds the plan `create_scene_clip` gives its own scene. */
  lemma SceneClipsPlans(scenes: seq<SceneEntry>, mediaDict: map<string, seq<MediaItem>>, sd: int, probe: Probe)
    requires sd > 0 && MediaDownloaded(scenes, mediaDict)
    ensures var r := CollectClips(scenes, ScenePlans(scenes, mediaDict, sd, probe), |scenes|);
      r.Some? ==>
        && |r.value| == |scenes|
        && forall j :: 0 <= j < |scenes| ==>
             r.value[j].SceneClip? && r.value[j].id == scenes[j].id &&
             Some(r.value[j].plan) == ScenePlanOf(scenes[j].text, ScenePaths(scenes[j].id, mediaDict), sd, probe)
  {
    CollectedInOrder(scenes, ScenePlans(scenes, mediaDict, sd, probe), |scenes|);
  }

  /** The scenes fail together: there are no scene clips exactly when the
      plan of some scene fails. */
  lemma SceneClipsFail(scenes: seq<SceneEntry>, mediaDict: map<string, seq<MediaItem>>, sd: int, probe: Probe)
    requires sd > 0 && MediaDownloaded(scenes, mediaDict)
    ensures CollectClips(scenes, ScenePlans(scenes, mediaDict, sd, probe), |scenes|).None? <==>
      exists j :: 0 <= j < |scenes| && ScenePlanOf(scenes[j].text, ScenePaths(scenes[j].id, mediaDict), sd, probe).None?
  {
    var plans := ScenePlans(scenes, mediaDict, sd, probe);
    CollectSucceeds(scenes, plans, |scenes|);
    assert forall j :: 0 <= j < |scenes| ==>
      plans[j] == ScenePlanOf(scenes[j].text, ScenePaths(scenes[j].id, mediaDict), sd, probe);
  }

  /** The scene clips of a video, one per scene in scene order. */
  lemma {:induction false} BodyOfScenes(scenes: seq<SceneEntry>, mediaDict: map<string, seq<MediaItem>>, sd: int, probe: Probe, body: seq<Clip>)
    requires sd > 0 && MediaDownloaded(scenes, mediaDict)
    requires CollectClips(scenes, ScenePlans(scenes, mediaDict, sd, probe), |scenes|) == Some(body)
    ensures |body| == |scenes| && forall j :: 0 <= j < |body| ==> ClipOfScene(body[j], scenes[j], sd)
  {
    var plans := ScenePlans(scenes, mediaDict, sd, probe);
    CollectedInOrder(scenes, plans, |scenes|);
    forall j | 0 <= j < |body| ensures ClipOfScene(body[j], scenes[j], sd) {
      var e := scenes[j];
      SceneShape(e.text, ScenePaths(e.id, mediaDict), sd, probe);
    }
  }

  /** The clip order: the title card (first scene's text, three seconds) when
      enabled and there are scenes, one clip per scene in order lasting the
      clamped duration, then the ending card when enabled. */
  lemma PlanOrder(sceneDuration: int, addTitle: bool, addEnding: bool, outputDir: string,
                  scenes: seq<SceneEntry>, mediaDict: map<string, seq<MediaItem>>,
                  outputFilename: string, bgmPath: Option<string>, probe: Probe)
    requires MediaDownloaded(scenes, mediaDict)
    ensures var p := PlanVideo(sceneDuration, addTitle, addEnding, outputDir, scenes, mediaDict, outputFilename, bgmPath, probe);
      var t := if addTitle && scenes != [] then 1 else 0;
      var e := if addEnding then 1 else 0;
      p.Some? ==>
        && InSceneOrder(p.value.clips, t, e, scenes, ClampSceneDuration(sceneDuration))
        && (t == 1 ==> p.value.clips[0] == TextCard(scenes[0].text, CardSeconds))
        && (e == 1 ==> p.value.clips[t + |scenes|] == TextCard(EndingText, CardSeconds))
        && p.value.outputPath == PathJoin(outputDir, outputFilename)
  {
    var sd := ClampSceneDuration(sceneDuration);
    var r := CollectClips(scenes, ScenePlans(scenes, mediaDict, sd, probe), |scenes|);
    if r.Some? {
      var body := r.value;
      PlanVideoOfBody(sceneDuration, addTitle, addEnding, outputDir, scenes, mediaDict, outputFilename, bgmPath, probe, body);
      BodyOfScenes(scenes, mediaDict, sd, probe, body);
      var title, ending := TitleClips(addTitle, scenes), EndingClips(addEnding);
      ClipsAroundScenes(title, body, ending, scenes, sd);
      var clips := title + body + ending;
      if addTitle && scenes != [] {
        assert clips[0] == title[0];
      }
      if addEnding {
        assert clips[|title| + |scenes| + 0] == ending[0];
      }
    }
  }

  /** `clips` holds `t` leading clips, then one clip per scene in scene order,
      captioned with the scene's text for `sd` seconds, then `e` trailing clips. */
  predicate InSceneOrder(clips: seq<Clip>, t: nat, e: nat, scenes: seq<SceneEntry>, sd: int)
  {
    && |clips| == t + |scenes| + e
    && forall j :: 0 <= j < |scenes| ==>
         && clips[t + j].SceneClip?
         && clips[t + j].id == scenes[j].id
         && clips[t + j].plan.caption.text == scenes[j].text
         && clips[t + j].plan.caption.duration == sd as real
  }

  /** Cards before and after the scene clips leave the clips in scene
      order. */
  lemma ClipsAroundScenes(title: seq<Clip>, body: seq<Clip>, ending: seq<Clip>, scenes: seq<SceneEntry>, sd: int)
    requires |body| == |scenes| && forall j :: 0 <= j < |body| ==> ClipOfScene(body[j], scenes[j], sd)
    ensures InSceneOrder(title + body + ending, |title|, |ending|, scenes, sd)
  {
    var clips := title + body + ending;
    forall j | 0 <= j < |scenes|
      ensures && clips[|title| + j].SceneClip?
              && clips[|title| + j].id == scenes[j].id
              && clips[|title| + j].plan.caption.text == scenes[j].text
              && clips[|title| + j].plan.caption.duration == sd as real
    {
      assert clips[|title| + j] == (title + body)[|title| + j] == body[j];
      assert ClipOfScene(body[j], scenes[j], sd);
    }
  }

  /** The video lasts three seconds per card plus the clamped duration per
      scene, whatever media the scenes hold. */
  lemma PlanDuration(sceneDuration: int, addTitle: bool, addEnding: bool, outputDir: string,
                     scenes: seq<SceneEntry>, mediaDict: map<string, seq<MediaItem>>,
                     outputFilename: string, bgmPath: Option<string>, probe: Probe)
    requires MediaDownloaded(scenes, mediaDict)
    ensures var p := PlanVideo(sceneDuration, addTitle, addEnding, outputDir, scenes, mediaDict, outputFilename, bgmPath, probe);
      var t := if addTitle && scenes != [] then 1 else 0;
      var e := if addEnding then 1 else 0;
      p.Some? ==>
        TotalDuration(p.value.clips) == Times(t + e, CardSeconds) + Times(|scenes|, ClampSceneDuration(sceneDuration) as real)
  {
    var sd := ClampSceneDuration(sceneDuration);
    var r := CollectClips(scenes, ScenePlans(scenes, mediaDict, sd, probe), |scenes|);
    if r.Some? {
      var body := r.value;
      PlanVideoOfBody(sceneDuration, addTitle, addEnding, outputDir, scenes, mediaDict, outputFilename, bgmPath, probe, body);
      BodyDurations(scenes, mediaDict, sd, probe, body);
      CardsDuration(addTitle, scenes, addEnding);
      CardsAndScenesDuration(TitleClips(addTitle, scenes), body, EndingClips(addEnding), sd as real);
    }
  }

  /** Every scene clip of a video lasts the (clamped) scene duration. */
  lemma BodyDurations(scenes: seq<SceneEntry>, mediaDict: map<string, seq<MediaItem>>, sd: int, probe: Probe, body: seq<Clip>)
    requires sd > 0 && MediaDownloaded(scenes, mediaDict)
    requires CollectClips(scenes, ScenePlans(scenes, mediaDict, sd, probe), |scenes|) == Some(body)
    ensures |body| == |scenes| && forall j :: 0 <= j < |body| ==> ClipDuration(body[j]) == sd as real
  {
    BodyOfScenes(scenes, mediaDict, sd, probe, body);
    forall j | 0 <= j < |body| ensures ClipDuration(body[j]) == sd as real {
      assert ClipOfScene(body[j], scenes[j], sd);
    }
  }

  /** Cards of three seconds around clips of `d` seconds each. */
  lemma CardsAndScenesDuration(title: seq<Clip>, body: seq<Clip>, ending: seq<Clip>, d: real)
    requires TotalDuration(title) == Times(|title|, CardSeconds)
    requires TotalDuration(ending) == Times(|ending|, CardSeconds)
    requires forall j :: 0 <= j < |body| ==> ClipDuration(body[j]) == d
    ensures TotalDuration(title + body + ending) == Times(|title| + |ending|, CardSeconds) + Times(|body|, d)
  {
    TotalDurationAppend(title + body, ending);
    TotalDurationAppend(title, body);
    EqualClipsDuration(body, d);
    TimesSum(|title|, |ending|, CardSeconds);
  }

  /** The title and the ending card last three seconds each. */
  lemma CardsDuration(addTitle: bool, scenes: seq<SceneEntry>, addEnding: bool)
    ensures TotalDuration(TitleClips(addTitle, scenes)) == Times(|TitleClips(addTitle, scenes)|, CardSeconds)
    ensures TotalDuration(EndingClips(addEnding)) == Times(|EndingClips(addEnding)|, CardSeconds)
  {
    if addTitle && scenes != [] {
      var t := TitleClips(addTitle, scenes);
      assert t[1..] == [];
    }
    if addEnding {
      var e := EndingClips(addEnding);
      assert e[1..] == [];
    }
  }

  /** Scenes without media never fail: with the title off and the ending on,
      three scenes give four clips. */
  lemma ThreeScenesNoTitleExample(scenes: seq<SceneEntry>, probe: Probe)
    requires |scenes| == 3
    ensures var p := PlanVideo(5, false, true, "out", scenes, map[], "v.mp4", None, probe);
      p.Some? && |p.value.clips| == 4
  {
    var m: map<string, seq<MediaItem>> := map[];
    var plans := ScenePlans(scenes, m, 5, probe);
    forall j | 0 <= j < 3 ensures plans[j].Some? {
      assert ScenePaths(scenes[j].id, m) == [];
      NoUsableMediaIsBlack(scenes[j].text, [], 5, probe);
    }
    CollectSucceeds(scenes, plans, 3);
    PlanOrder(5, false, true, "out", scenes, m, "v.mp4", None, probe);
  }

  // ---------------------------------------------------------------------
  // The generator

  /** `VideoGenerator`: the output directory, the fixed format, and the
      three settings the application sets before every render. */
  class VideoGenerator {
    const outputDir: string
    const width: int
    const height: int
    const fps: int
    const font: string
    const fontSize: int
    var sceneDuration: int
    var addTitle: bool
    var addEnding: bool

    constructor (outputDir: string)
      ensures this.outputDir == outputDir
      ensures width == Width && height == Height && fps == Fps && font == Font && fontSize == FontSize
      ensures sceneDuration == DefaultSceneDuration && addTitle && addEnding
    {
      this.outputDir := outputDir;
      width, height, fps, font, fontSize := Width, Height, Fps, Font, FontSize;
      sceneDuration := DefaultSceneDuration;
      addTitle, addEnding := true, true;
    }

    /** `create_scene_clip`: one segment per supported path, in order, or a
        black background when there is none, under a bottom caption. */
    method CreateSceneClip(sceneText: string, mediaPaths: seq<string>, sceneDuration: int, probe: Probe)
      returns (plan: Option<ScenePlan>)
      requires sceneDuration > 0
      ensures plan == ScenePlanOf(sceneText, mediaPaths, sceneDuration, probe)
    {
      var md := MediaDuration(sceneDuration, |mediaPaths|);
      var clips: seq<Segment> := [];
      var i := 0;
      while i < |mediaPaths|
        invariant 0 <= i <= |mediaPaths|
        invariant PlanSegments(mediaPaths, i, md, probe) == Some(clips)
      {
        var path := mediaPaths[i];
        var kind := Classify(path);
        if kind == ImageFile {
          var (w, h) := probe.imageSize(path);
          var frame := ImageFrame(w, h);
          var clip := if i % 2 == 0 then Zoomed(path, frame, md / 2.0, md / 2.0, md) else Still(path, frame, md);
          assert PlanMedia(path, i, md, probe) == Add(clip);
          clips := clips + [clip];
        } else if kind == VideoFile {
          var d := probe.videoDuration(path);
          var loops := 1;
          if d < md {
            if d == 0.0 {
              FailurePersists(mediaPaths, i + 1, |mediaPaths|, md, probe);
              return None;
            }
            loops := LoopCount(md, d);
          }
          var (w, h) := probe.videoSize(path);
          var clip := Moving(path, VideoFrame(w, h), loops, md);
          assert PlanMedia(path, i, md, probe) == Add(clip);
          clips := clips + [clip];
        } else {
          assert PlanMedia(path, i, md, probe) == Skip;
        }
        i := i + 1;
      }
      if clips == [] {
        clips := [Black(Width, Height, sceneDuration as real)];
      }
      plan := Some(ScenePlan(clips, Caption(sceneText, sceneDuration as real, CaptionTop(probe.textHeight(sceneText)))));
    }

    /** The loop of `generate_video` over the scenes: one clip per scene, in
        scene order; the first scene whose clip fails ends it. */
    method SceneClipsOf(scenes: seq<SceneEntry>, mediaDict: map<string, seq<MediaItem>>, sd: int, probe: Probe)
      returns (result: Option<seq<Clip>>)
      requires sd > 0 && MediaDownloaded(scenes, mediaDict)
      ensures result == CollectClips(scenes, ScenePlans(scenes, mediaDict, sd, probe), |scenes|)
    {
      ghost var plans := ScenePlans(scenes, mediaDict, sd, probe);
      var body: seq<Clip> := [];
      var i := 0;
      while i < |scenes|
        invariant 0 <= i <= |scenes|
        invariant CollectClips(scenes, plans, i) == Some(body)
      {
        var entry := scenes[i];
        var paths := ScenePaths(entry.id, mediaDict);
        var scenePlan := CreateSceneClip(entry.text, paths, sd, probe);
        assert scenePlan == plans[i];
        if scenePlan.None? {
          CollectSucceeds(scenes, plans, |scenes|);
          return None;
        }
        CollectExtend(scenes, plans, i, body);
        body := body + [SceneClip(entry.id, scenePlan.value)];
        i := i + 1;
      }
      result := Some(body);
    }

    /** `generate_video`: the clips in order, the background track and the
        output path, for the current settings. */
    method GenerateVideo(scenes: seq<SceneEntry>, mediaDict: map<string, seq<MediaItem>>,
                         outputFilename: string, bgmPath: Option<string>, probe: Probe)
      returns (plan: Option<VideoPlan>)
      requires MediaDownloaded(scenes, mediaDict)
      ensures plan == PlanVideo(sceneDuration, addTitle, addEnding, outputDir, scenes, mediaDict, outputFilename, bgmPath, probe)
    {
      var title := TitleClips(addTitle, scenes);
      var sd := ClampSceneDuration(sceneDuration);
      var clips := SceneClipsOf(scenes, mediaDict, sd, probe);
      if clips.None? {
        return None;
      }
      var body := clips.value;
      PlanVideoOfBody(sceneDuration, addTitle, addEnding, outputDir, scenes, mediaDict, outputFilename, bgmPath, probe, body);
      plan := Assemble(title + body + EndingClips(addEnding), bgmPath, outputDir, outputFilename, probe);
    }
  }
}
